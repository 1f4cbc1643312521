/** The overlay that the reason layer puts on an entity. Lists the source keeps
    sorted and free of duplicates are sets here. */
module Entities {
  import opened Bytes

  datatype Stage = Unconfirmed | Stage1Serving | Stage2C2

  datatype Overlay = Overlay(
    stage: Stage,
    signals: set<string>,
    families: set<string>,
    toolkits: set<string>,
    maxVtRatio: Option<real>,
    vtFamilies: set<string>,
    intelSources: set<string>,
    intelMalware: set<string>)
}
