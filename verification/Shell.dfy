/** Bounded unwrapping of shell payloads. How one layer is unwrapped is a parameter: any function of the
    text will do, also one under which texts unwrap to each other in circles. */
module Shell {

  type Unwrap = string -> seq<string>

  const MAX_RECURSION := 4

  function Elems(xs: seq<string>): set<string> {
    set x | x in xs
  }

  /** The texts at most `k` layers inside `raw`. */
  function Within(unwrap: Unwrap, raw: string, k: nat): set<string> {
    if k == 0 then {raw}
    else Within(unwrap, raw, k - 1) + Inside(unwrap, Within(unwrap, raw, k - 1))
  }

  function Inside(unwrap: Unwrap, texts: set<string>): set<string> {
    set t, s | t in texts && s in unwrap(t) :: s
  }

  /** All payloads of a list of texts, in order. */
  function Payloads(unwrap: Unwrap, queue: seq<string>): seq<string> {
    if queue == [] then [] else unwrap(queue[0]) + Payloads(unwrap, queue[1..])
  }

  /** The texts not seen before, each at its first place. */
  function Fresh(texts: seq<string>, seen: set<string>): seq<string>
    decreases |texts|
  {
    if texts == [] then []
    else if texts[0] in seen then Fresh(texts[1..], seen)
    else [texts[0]] + Fresh(texts[1..], seen + {texts[0]})
  }

  /** What `left` more levels below `queue` add. */
  function Deeper(unwrap: Unwrap, queue: seq<string>, seen: set<string>, left: nat): seq<string>
    decreases left
  {
    if queue == [] || left == 0 then []
    else
      var next := Fresh(Payloads(unwrap, queue), seen);
      next + Deeper(unwrap, next, seen + Elems(next), left - 1)
  }

  /** The lines for one command. */
  function LinesOf(unwrap: Unwrap, raw: string, depth: nat): seq<string> {
    [raw] + Deeper(unwrap, [raw], {raw}, depth)
  }

  function LinesOfAll(unwrap: Unwrap, commands: seq<string>): seq<string> {
    if commands == [] then [] else LinesOfAll(unwrap, commands[..|commands| - 1]) + LinesOf(unwrap, commands[|commands| - 1], MAX_RECURSION)
  }

  /** `"\n".join(lines)`. */
  function Joined(lines: seq<string>): string {
    if lines == [] then ""
    else if |lines| == 1 then lines[0]
    else lines[0] + "\n" + Joined(lines[1..])
  }

  // ---- The loops -------------------------------------------------------------

  lemma {:induction false} FreshSnoc(texts: seq<string>, text: string, seen: set<string>)
    ensures var before := Fresh(texts, seen);
            Fresh(texts + [text], seen) == if text in seen + Elems(before) then before else before + [text]
    decreases |texts|
  {
    if texts != [] {
      assert (texts + [text])[1..] == texts[1..] + [text];
      if texts[0] in seen {
        FreshSnoc(texts[1..], text, seen);
      } else {
        FreshSnoc(texts[1..], text, seen + {texts[0]});
        var rest := Fresh(texts[1..], seen + {texts[0]});
        assert Elems([texts[0]] + rest) == {texts[0]} + Elems(rest);
        assert seen + {texts[0]} + Elems(rest) == seen + Elems([texts[0]] + rest);
      }
    }
  }

  lemma {:induction false} PayloadsSnoc(unwrap: Unwrap, queue: seq<string>, text: string)
    ensures Payloads(unwrap, queue + [text]) == Payloads(unwrap, queue) + unwrap(text)
  {
    if queue != [] {
      PayloadsSnoc(unwrap, queue[1..], text);
      assert (queue + [text])[1..] == queue[1..] + [text];
    }
  }

  lemma Regroup(a: seq<string>, b: seq<string>, c: seq<string>)
    ensures a + b + c == a + (b + c)
  {
  }

  /** Adds the payloads of one text to those found on this level. */
  method Collect(decoded: seq<string>, ghost done: seq<string>, ghost start: set<string>, seen0: set<string>, found0: seq<string>)
    returns (seen: set<string>, found: seq<string>)
    requires found0 == Fresh(done, start) && seen0 == start + Elems(found0)
    ensures found == Fresh(done + decoded, start) && seen == start + Elems(found)
  {
    seen, found := seen0, found0;
    assert done + decoded[..0] == done;
    for i := 0 to |decoded|
      invariant found == Fresh(done + decoded[..i], start) && seen == start + Elems(found)
    {
      ghost var before := done + decoded[..i];
      FreshSnoc(before, decoded[i], start);
      assert done + decoded[..i + 1] == before + [decoded[i]];
      ElemsOf(found, [decoded[i]]);
      if decoded[i] !in seen {
        seen := seen + {decoded[i]};
        found := found + [decoded[i]];
      }
    }
    assert decoded[..|decoded|] == decoded;
  }

  /** One level of the search. */
  method Level(unwrap: Unwrap, queue: seq<string>, seen0: set<string>) returns (seen: set<string>, next: seq<string>)
    ensures next == Fresh(Payloads(unwrap, queue), seen0) && seen == seen0 + Elems(next)
  {
    seen, next := seen0, [];
    for i := 0 to |queue|
      invariant next == Fresh(Payloads(unwrap, queue[..i]), seen0) && seen == seen0 + Elems(next)
    {
      var decoded := unwrap(queue[i]);
      PayloadsSnoc(unwrap, queue[..i], queue[i]);
      assert queue[..i + 1] == queue[..i] + [queue[i]];
      seen, next := Collect(decoded, Payloads(unwrap, queue[..i]), seen0, seen, next);
    }
    assert queue[..|queue|] == queue;
  }

  method Expand(unwrap: Unwrap, raw: string) returns (lines: seq<string>)
    ensures lines == LinesOf(unwrap, raw, MAX_RECURSION)
  {
    lines := [raw];
    var seen, queue, depth := {raw}, [raw], 0;
    while queue != [] && depth < MAX_RECURSION
      invariant 0 <= depth <= MAX_RECURSION
      invariant lines + Deeper(unwrap, queue, seen, MAX_RECURSION - depth) == LinesOf(unwrap, raw, MAX_RECURSION)
      decreases MAX_RECURSION - depth
    {
      depth := depth + 1;
      var next;
      seen, next := Level(unwrap, queue, seen);
      Regroup(lines, next, Deeper(unwrap, next, seen, MAX_RECURSION - depth));
      lines := lines + next;
      queue := next;
    }
  }

  method ExpandedText(unwrap: Unwrap, commands: seq<string>) returns (text: string)
    ensures text == Joined(LinesOfAll(unwrap, commands))
  {
    var lines := [];
    for i := 0 to |commands|
      invariant lines == LinesOfAll(unwrap, commands[..i])
    {
      var mine := Expand(unwrap, commands[i]);
      lines := lines + mine;
      assert commands[..i + 1][..i] == commands[..i];
    }
    assert commands[..|commands|] == commands;
    text := Joined(lines);
  }

  // ---- What is emitted -------------------------------------------------------

  predicate Distinct(xs: seq<string>) {
    forall i, j :: 0 <= i < j < |xs| ==> xs[i] != xs[j]
  }

  /** `a` lies no deeper than `b`. */
  ghost predicate NoDeeper(unwrap: Unwrap, raw: string, a: string, b: string) {
    forall k: nat :: b in Within(unwrap, raw, k) ==> a in Within(unwrap, raw, k)
  }

  ghost predicate ByDistance(unwrap: Unwrap, raw: string, xs: seq<string>) {
    forall i, j :: 0 <= i < j < |xs| ==> NoDeeper(unwrap, raw, xs[i], xs[j])
  }

  lemma {:induction false} FreshMeans(texts: seq<string>, seen: set<string>)
    ensures Elems(Fresh(texts, seen)) == Elems(texts) - seen
    ensures Distinct(Fresh(texts, seen))
    decreases |texts|
  {
    if texts != [] {
      var head, tail := texts[0], texts[1..];
      assert Elems(texts) == {head} + Elems(tail);
      if head in seen {
        FreshMeans(tail, seen);
      } else {
        FreshMeans(tail, seen + {head});
        var rest := Fresh(tail, seen + {head});
        assert Elems([head] + rest) == {head} + Elems(rest);
        assert head !in Elems(rest);
      }
    }
  }

  lemma ElemsOf(a: seq<string>, b: seq<string>)
    ensures Elems(a + b) == Elems(a) + Elems(b)
    ensures Distinct(a) && Distinct(b) && Elems(a) !! Elems(b) ==> Distinct(a + b)
  {
    forall i, j | Elems(a) !! Elems(b) && 0 <= i < |a| && 0 <= j < |b|
      ensures a[i] != b[j]
    {
      assert a[i] in Elems(a) && b[j] in Elems(b);
    }
  }

  lemma {:induction false} PayloadsMean(unwrap: Unwrap, queue: seq<string>)
    ensures Elems(Payloads(unwrap, queue)) == Inside(unwrap, Elems(queue))
  {
    if queue != [] {
      var head, tail := queue[0], queue[1..];
      PayloadsMean(unwrap, tail);
      assert queue == [head] + tail;
      ElemsOf([head], tail);
      ElemsOf(unwrap(head), Payloads(unwrap, tail));
      assert Inside(unwrap, {head}) == Elems(unwrap(head));
      assert Inside(unwrap, {head} + Elems(tail)) == Inside(unwrap, {head}) + Inside(unwrap, Elems(tail));
    }
  }

  lemma {:induction false} WithinGrows(unwrap: Unwrap, raw: string, a: nat, b: nat)
    requires a <= b
    ensures Within(unwrap, raw, a) <= Within(unwrap, raw, b)
    decreases b
  {
    if a < b {
      WithinGrows(unwrap, raw, a, b - 1);
    }
  }

  /** The texts at distance exactly `d`. */
  function Ring(unwrap: Unwrap, raw: string, d: nat): set<string> {
    if d == 0 then {raw} else Within(unwrap, raw, d) - Within(unwrap, raw, d - 1)
  }

  /** Only the outermost ring leads further. */
  lemma RingLeadsOn(unwrap: Unwrap, raw: string, d: nat)
    ensures Within(unwrap, raw, d + 1) == Within(unwrap, raw, d) + Inside(unwrap, Ring(unwrap, raw, d))
    ensures Ring(unwrap, raw, d + 1) == Inside(unwrap, Ring(unwrap, raw, d)) - Within(unwrap, raw, d)
  {
    if d > 0 {
      var inner, outer := Within(unwrap, raw, d - 1), Within(unwrap, raw, d);
      assert outer == inner + Ring(unwrap, raw, d);
      assert Inside(unwrap, outer) == Inside(unwrap, inner) + Inside(unwrap, Ring(unwrap, raw, d));
      assert Inside(unwrap, inner) <= outer;
    }
  }

  lemma {:induction false} NothingBeyondEmptyRing(unwrap: Unwrap, raw: string, d: nat, e: nat)
    requires Ring(unwrap, raw, d) == {} && d <= e
    ensures Within(unwrap, raw, e) == Within(unwrap, raw, d)
    decreases e - d
  {
    if d < e {
      RingLeadsOn(unwrap, raw, d);
      NothingInside(unwrap);
      NothingBeyondEmptyRing(unwrap, raw, d + 1, e);
    }
  }

  lemma NothingInside(unwrap: Unwrap)
    ensures Inside(unwrap, {}) == {}
  {
  }

  /** What is found by distance `d` lies no deeper than what is not found before it. */
  lemma RingsInOrder(unwrap: Unwrap, raw: string, d: nat, a: string, b: string)
    requires a in Within(unwrap, raw, d) && (d > 0 ==> b !in Within(unwrap, raw, d - 1))
    ensures NoDeeper(unwrap, raw, a, b)
  {
    forall k: nat | b in Within(unwrap, raw, k)
      ensures a in Within(unwrap, raw, k)
    {
      if k < d {
        WithinGrows(unwrap, raw, k, d - 1);
      } else {
        WithinGrows(unwrap, raw, d, k);
      }
    }
  }

  lemma RingThenRest(unwrap: Unwrap, raw: string, d: nat, ring: seq<string>, rest: seq<string>)
    requires Elems(ring) <= Within(unwrap, raw, d) && (d > 0 ==> Elems(ring) !! Within(unwrap, raw, d - 1))
    requires Elems(rest) !! Within(unwrap, raw, d) && ByDistance(unwrap, raw, rest)
    ensures ByDistance(unwrap, raw, ring + rest)
  {
    var out := ring + rest;
    if d > 0 {
      WithinGrows(unwrap, raw, d - 1, d);
    }
    forall i, j | 0 <= i < j < |out|
      ensures NoDeeper(unwrap, raw, out[i], out[j])
    {
      if i < |ring| {
        assert out[i] in Elems(ring);
        assert if j < |ring| then out[j] in Elems(ring) else out[j] in Elems(rest);
        RingsInOrder(unwrap, raw, d, out[i], out[j]);
      } else {
        assert out[i] == rest[i - |ring|] && out[j] == rest[j - |ring|];
      }
    }
  }

  /** `out` holds the texts of the rings after `d` up to `e`, once each and in order of distance. */
  ghost predicate Rings(unwrap: Unwrap, raw: string, d: nat, e: nat, out: seq<string>) {
    && Elems(out) == Within(unwrap, raw, e) - Within(unwrap, raw, d)
    && Distinct(out)
    && ByDistance(unwrap, raw, out)
  }

  lemma JoinRings(unwrap: Unwrap, raw: string, d: nat, e: nat, next: seq<string>, rest: seq<string>)
    requires d < e && Elems(next) == Ring(unwrap, raw, d + 1) && Distinct(next)
    requires Rings(unwrap, raw, d + 1, e, rest)
    ensures Rings(unwrap, raw, d, e, next + rest)
  {
    WithinGrows(unwrap, raw, d, d + 1);
    WithinGrows(unwrap, raw, d + 1, e);
    ElemsOf(next, rest);
    RingThenRest(unwrap, raw, d + 1, next, rest);
  }

  /** The next ring, as the search finds it. */
  lemma NextRing(unwrap: Unwrap, raw: string, d: nat, queue: seq<string>)
    requires Elems(queue) == Ring(unwrap, raw, d)
    ensures var next := Fresh(Payloads(unwrap, queue), Within(unwrap, raw, d));
            && Elems(next) == Ring(unwrap, raw, d + 1)
            && Distinct(next)
            && Within(unwrap, raw, d) + Elems(next) == Within(unwrap, raw, d + 1)
  {
    FreshMeans(Payloads(unwrap, queue), Within(unwrap, raw, d));
    PayloadsMean(unwrap, queue);
    RingLeadsOn(unwrap, raw, d);
  }

  /** From the ring at distance `d` the search adds the texts of the next `left` rings. */
  lemma {:induction false} DeeperMeans(unwrap: Unwrap, raw: string, d: nat, queue: seq<string>, left: nat)
    requires Elems(queue) == Ring(unwrap, raw, d)
    ensures Rings(unwrap, raw, d, d + left, Deeper(unwrap, queue, Within(unwrap, raw, d), left))
    decreases left
  {
    if queue == [] {
      assert Elems(queue) == {};
      NothingBeyondEmptyRing(unwrap, raw, d, d + left);
    } else if left > 0 {
      var next := Fresh(Payloads(unwrap, queue), Within(unwrap, raw, d));
      NextRing(unwrap, raw, d, queue);
      DeeperMeans(unwrap, raw, d + 1, next, left - 1);
      JoinRings(unwrap, raw, d, d + left, next, Deeper(unwrap, next, Within(unwrap, raw, d + 1), left - 1));
    }
  }

  /** For any way of unwrapping, the lines of a command are the command and each text at distance 1 to
      `depth`, each exactly once and in order of distance. */
  lemma LinesAreTextsByDistance(unwrap: Unwrap, raw: string, depth: nat)
    ensures var lines := LinesOf(unwrap, raw, depth);
            && lines[0] == raw
            && Elems(lines) == Within(unwrap, raw, depth)
            && Distinct(lines)
            && ByDistance(unwrap, raw, lines)
  {
    ghost var deeper := Deeper(unwrap, [raw], {raw}, depth);
    assert Elems([raw]) == {raw};
    DeeperMeans(unwrap, raw, 0, [raw], depth);
    WithinGrows(unwrap, raw, 0, depth);
    ElemsOf([raw], deeper);
    RingThenRest(unwrap, raw, 0, [raw], deeper);
  }

  /** Texts at one distance come in the order in which the search meets them first. */
  lemma {:induction false} FreshKeepsOrder(texts: seq<string>, seen: set<string>, i: nat, j: nat)
    requires i < j < |Fresh(texts, seen)|
    ensures var next := Fresh(texts, seen);
            exists p: nat :: p < |texts| && texts[p] == next[i] && forall q :: 0 <= q <= p ==> texts[q] != next[j]
    decreases |texts|
  {
    var head, tail, next := texts[0], texts[1..], Fresh(texts, seen);
    FreshMeans(texts, seen);
    if head !in seen && i == 0 {
      assert texts[0] == next[0] != next[j];
    } else {
      var seen', k := if head in seen then seen else seen + {head}, if head in seen then 0 else 1;
      FreshMeans(tail, seen');
      FreshKeepsOrder(tail, seen', i - k, j - k);
      var p: nat :| p < |tail| && tail[p] == next[i] && forall q :: 0 <= q <= p ==> tail[q] != next[j];
      assert next[j] in Elems(Fresh(tail, seen'));
      assert texts[p + 1] == next[i] && forall q :: 0 <= q <= p + 1 ==> texts[q] != next[j];
    }
  }

  /** The search takes the payloads of one text after the other. */
  lemma {:induction false} PayloadsInOrder(unwrap: Unwrap, a: seq<string>, b: seq<string>)
    ensures Payloads(unwrap, a + b) == Payloads(unwrap, a) + Payloads(unwrap, b)
    ensures |a| == 1 ==> Payloads(unwrap, a) == unwrap(a[0])
  {
    if a == [] {
      assert a + b == b;
    } else {
      PayloadsInOrder(unwrap, a[1..], b);
      assert (a + b)[1..] == a[1..] + b;
      assert |a| == 1 ==> a[1..] == [] && Payloads(unwrap, []) == [];
    }
  }

  lemma Associates(a: seq<string>, b: seq<string>, c: seq<string>)
    ensures a + (b + c) == a + b + c
  {
  }

  /** The commands are expanded one after the other, each to depth 4. */
  lemma {:induction false} CommandsInOrder(unwrap: Unwrap, a: seq<string>, b: seq<string>)
    ensures LinesOfAll(unwrap, a + b) == LinesOfAll(unwrap, a) + LinesOfAll(unwrap, b)
  {
    if b == [] {
      assert a + b == a;
    } else {
      var front, last := b[..|b| - 1], b[|b| - 1];
      CommandsInOrder(unwrap, a, front);
      OneMoreCommand(unwrap, a + front, last);
      OneMoreCommand(unwrap, front, last);
      Associates(a, front, [last]);
      Associates(LinesOfAll(unwrap, a), LinesOfAll(unwrap, front), LinesOf(unwrap, last, 4));
      assert b == front + [last];
    }
  }

  lemma OneMoreCommand(unwrap: Unwrap, a: seq<string>, command: string)
    ensures LinesOfAll(unwrap, a + [command]) == LinesOfAll(unwrap, a) + LinesOf(unwrap, command, 4)
  {
    assert (a + [command])[..|a|] == a;
  }

  /** Lines are joined by single line feeds, with none at the end. */
  lemma {:induction false} JoinedMeans(a: seq<string>, b: seq<string>)
    requires a != [] && b != []
    ensures Joined(a + b) == Joined(a) + "\n" + Joined(b)
    ensures |a| == 1 ==> Joined(a) == a[0]
    ensures Joined([]) == ""
    decreases |a|
  {
    if |a| > 1 {
      JoinedMeans(a[1..], b);
      assert (a + b)[1..] == a[1..] + b;
    } else {
      assert (a + b)[1..] == b;
    }
  }
}
