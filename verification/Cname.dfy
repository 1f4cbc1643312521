/** The DNS resolution that guards outbound requests: a depth-first search over CNAME
    links, cyclic or not, with one set of visited names shared by all branches. */
module Cname {
  import opened Bytes

  /** A name as the caller writes it, or as a record carries it; the two never compare equal. */
  datatype Name = Text(text: string) | FromRecord(text: string)

  type Address = string

  datatype Record = Link(target: Name) | A(ip: Address) | Aaaa | Other

  /** The outcome of a lookup; a name is looked up at most once, so a zone fixes it. */
  datatype Answer = Failed | NoResult | Records(rrs: seq<Record>)

  type Zone = map<Name, Answer>

  /** Names that the zone does not list fail to resolve. */
  function Lookup(zone: Zone, name: Name): Answer {
    if name in zone then zone[name] else Failed
  }

  function RecordsOf(zone: Zone, name: Name): seq<Record> {
    match Lookup(zone, name)
    case Records(rrs) => rrs
    case _ => []
  }

  predicate Links(zone: Zone, a: Name, b: Name) {
    Link(b) in RecordsOf(zone, a)
  }

  predicate HasAddress(zone: Zone, name: Name, ip: Address) {
    A(ip) in RecordsOf(zone, name)
  }

  /** The lookup fails, or there is an AAAA record, whose handling raises and is caught as a failure. */
  predicate Fails(zone: Zone, name: Name) {
    Lookup(zone, name).Failed? || Aaaa in RecordsOf(zone, name)
  }

  ghost predicate IsPath(zone: Zone, path: seq<Name>) {
    && path != []
    && forall i :: 0 <= i < |path| - 1 ==> Links(zone, path[i], path[i + 1])
  }

  ghost predicate Reaches(zone: Zone, a: Name, b: Name) {
    exists path :: IsPath(zone, path) && path[0] == a && path[|path| - 1] == b
  }

  /** `ip` is an address of a name that CNAME links lead to. */
  ghost predicate Resolves(zone: Zone, name: Name, ip: Address) {
    exists n :: Reaches(zone, name, n) && HasAddress(zone, n, ip)
  }

  lemma ReachesItself(zone: Zone, a: Name)
    ensures Reaches(zone, a, a)
  {
    assert IsPath(zone, [a]);
  }

  lemma LinkReaches(zone: Zone, a: Name, b: Name, c: Name)
    requires Links(zone, a, b) && Reaches(zone, b, c)
    ensures Reaches(zone, a, c)
  {
    var path :| IsPath(zone, path) && path[0] == b && path[|path| - 1] == c;
    var longer := [a] + path;
    forall i | 0 <= i < |longer| - 1 ensures Links(zone, longer[i], longer[i + 1]) {
      if i > 0 {
        assert Links(zone, path[i - 1], path[i - 1 + 1]);
      }
    }
    assert IsPath(zone, longer);
  }

  lemma LinkResolves(zone: Zone, a: Name, b: Name, ip: Address)
    requires Links(zone, a, b) && Resolves(zone, b, ip)
    ensures Resolves(zone, a, ip)
  {
    var n :| Reaches(zone, b, n) && HasAddress(zone, n, ip);
    LinkReaches(zone, a, b, n);
  }

  /** Links lead from `names` only to `names`. */
  ghost predicate Closed(zone: Zone, names: set<Name>) {
    forall a, b :: a in names && Links(zone, a, b) ==> b in names
  }

  /** Nothing more is to be had from a visited name: it fails, or it has no address and all its links are visited. */
  ghost predicate Exhausted(zone: Zone, name: Name, visited: set<Name>) {
    Fails(zone, name) || ((forall ip :: !HasAddress(zone, name, ip)) && (forall b :: Links(zone, name, b) ==> b in visited))
  }

  lemma {:induction false} VisitedContainsReachable(zone: Zone, path: seq<Name>, visited: set<Name>)
    requires IsPath(zone, path) && path[0] in visited
    requires forall n :: n in visited ==> Exhausted(zone, n, visited)
    ensures path[|path| - 1] in visited || exists n :: n in path && Fails(zone, n)
  {
    if |path| > 1 {
      if Fails(zone, path[0]) {
        assert path[0] in path;
      } else {
        assert Links(zone, path[0], path[0 + 1]);
        forall i | 0 <= i < |path[1..]| - 1 ensures Links(zone, path[1..][i], path[1..][i + 1]) {
          assert Links(zone, path[i + 1], path[i + 1 + 1]);
        }
        VisitedContainsReachable(zone, path[1..], visited);
      }
    }
  }

  lemma PathReaches(zone: Zone, path: seq<Name>, i: nat)
    requires IsPath(zone, path) && i < |path|
    ensures Reaches(zone, path[0], path[i])
  {
    var prefix := path[..i + 1];
    forall j | 0 <= j < |prefix| - 1 ensures Links(zone, prefix[j], prefix[j + 1]) {
      assert Links(zone, path[j], path[j + 1]);
    }
    assert IsPath(zone, prefix);
  }

  /** A search that has exhausted every name it visited, the start among them, has missed nothing:
      either some name on the way failed, or no reachable name has an address. */
  lemma ExhaustedIsComplete(zone: Zone, start: Name, visited: set<Name>)
    requires start in visited && forall n :: n in visited ==> Exhausted(zone, n, visited)
    ensures (exists n :: Reaches(zone, start, n) && Fails(zone, n)) || (forall ip :: !Resolves(zone, start, ip))
  {
    if ip :| Resolves(zone, start, ip) {
      var n :| Reaches(zone, start, n) && HasAddress(zone, n, ip);
      var path :| IsPath(zone, path) && path[0] == start && path[|path| - 1] == n;
      VisitedContainsReachable(zone, path, visited);
      if m :| m in path && Fails(zone, m) {
        var i :| 0 <= i < |path| && path[i] == m;
        PathReaches(zone, path, i);
      } else {
        assert Exhausted(zone, n, visited);
        PathReaches(zone, path, |path| - 1);
      }
    }
  }

  // ---- The order of the search -----------------------------------------------

  /** Record `i` of a name is the one followed: no address stands before it, and no link that was not visited. */
  predicate Followed(zone: Zone, name: Name, i: nat, r: Record, visited: set<Name>) {
    var rrs := RecordsOf(zone, name);
    && i < |rrs| && rrs[i] == r
    && forall j :: 0 <= j < i ==> !rrs[j].A? && !rrs[j].Aaaa? && (rrs[j].Link? ==> rrs[j].target in visited)
  }

  ghost predicate Follows(zone: Zone, name: Name, r: Record, visited: set<Name>) {
    exists i: nat :: Followed(zone, name, i, r, visited)
  }

  /** The path to the address: from each name its first record that leads on is followed, and the last one's is `ip`. */
  ghost predicate FirstPath(zone: Zone, path: seq<Name>, ip: Address, visited: set<Name>) {
    && path != []
    && (forall k :: 0 <= k < |path| - 1 ==> Follows(zone, path[k], Link(path[k + 1]), visited))
    && Follows(zone, path[|path| - 1], A(ip), visited)
  }

  /** `ip` is the first address of a depth-first search in record order: what was visited off the path is exhausted. */
  ghost predicate FirstAddress(zone: Zone, name: Name, ip: Address, path: seq<Name>, before: set<Name>, visited: set<Name>) {
    && FirstPath(zone, path, ip, visited) && path[0] == name
    && forall n :: n in visited && n !in before && n !in path ==> Exhausted(zone, n, visited)
  }

  lemma FollowsLater(zone: Zone, name: Name, r: Record, visited: set<Name>, later: set<Name>)
    requires Follows(zone, name, r, visited) && visited <= later
    ensures Follows(zone, name, r, later)
  {
    var i: nat :| Followed(zone, name, i, r, visited);
    assert Followed(zone, name, i, r, later);
  }

  /** One more link in front of a path. */
  lemma LinkIsFollowed(zone: Zone, name: Name, target: Name, ip: Address, path: seq<Name>, before: set<Name>, marked: set<Name>, visited: set<Name>)
    requires FirstAddress(zone, target, ip, path, marked, visited) && Follows(zone, name, Link(target), visited)
    requires marked <= visited
    requires forall n :: n in marked && n !in before && n != name ==> Exhausted(zone, n, visited)
    ensures FirstAddress(zone, name, ip, [name] + path, before, visited)
  {
    var longer := [name] + path;
    forall k | 0 <= k < |longer| - 1
      ensures Follows(zone, longer[k], Link(longer[k + 1]), visited)
    {
      if k > 0 {
        assert Follows(zone, path[k - 1], Link(path[k - 1 + 1]), visited);
      }
    }
    assert name in longer && forall n :: n in path ==> n in longer;
  }

  class Resolver {
    const zone: Zone
    ghost const names: set<Name>
    var visited: set<Name>

    ghost predicate Valid()
      reads this
    {
      Closed(zone, names) && visited <= names
    }

    constructor (zone: Zone, ghost names: set<Name>)
      requires Closed(zone, names)
      ensures this.zone == zone && this.names == names && visited == {} && Valid()
    {
      this.zone, this.names, visited := zone, names, {};
    }

    method ResolveCname(address: Name) returns (ip: Option<Address>, ghost path: seq<Name>)
      requires Valid() && address in names
      modifies this
      ensures Valid() && old(visited) + {address} <= visited
      ensures ip.Some? ==> Resolves(zone, address, ip.value)
      ensures ip.Some? ==> FirstAddress(zone, address, ip.value, path, old(visited), visited)
      ensures ip.None? ==> forall n :: n in visited && n !in old(visited) ==> Exhausted(zone, n, visited)
      decreases names - visited, 1
    {
      path := [];
      if address in visited {
        return None, path;
      }
      visited := visited + {address};
      match Lookup(zone, address)
      case Failed => return None, path;
      case NoResult => return None, path;
      case Records(rrs) => ip, path := FollowRecords(address, rrs, old(visited));
    }

    /** Resolves the target of the `i`th record, behind records that lead to nothing. */
    method FollowLink(address: Name, target: Name, ghost i: nat, ghost before: set<Name>) returns (ip: Option<Address>, ghost path: seq<Name>)
      requires Valid() && address in visited && Followed(zone, address, i, Link(target), visited + {target})
      requires forall n :: n in visited && n !in before && n != address ==> Exhausted(zone, n, visited)
      modifies this
      ensures Valid() && old(visited) + {target} <= visited
      ensures ip.Some? ==> Resolves(zone, address, ip.value) && FirstAddress(zone, address, ip.value, path, before, visited)
      ensures ip.None? ==> forall n :: n in visited && n !in old(visited) ==> Exhausted(zone, n, visited)
      decreases names - visited, 2
    {
      assert Links(zone, address, target);
      ghost var marked := visited;
      ip, path := ResolveCname(target);
      if ip.Some? {
        LinkResolves(zone, address, target, ip.value);
        assert Followed(zone, address, i, Link(target), visited);
        LinkIsFollowed(zone, address, target, ip.value, path, before, marked, visited);
        path := [address] + path;
      }
    }

    /** The loop over the records of a name that has just been marked. */
    method FollowRecords(address: Name, rrs: seq<Record>, ghost before: set<Name>) returns (ip: Option<Address>, ghost path: seq<Name>)
      requires Valid() && visited == before + {address} && Lookup(zone, address) == Records(rrs)
      modifies this
      ensures Valid() && old(visited) <= visited
      ensures ip.Some? ==> Resolves(zone, address, ip.value)
      ensures ip.Some? ==> FirstAddress(zone, address, ip.value, path, before, visited)
      ensures ip.None? ==> Exhausted(zone, address, visited)
      ensures ip.None? ==> forall n :: n in visited && n !in old(visited) ==> Exhausted(zone, n, visited)
      decreases names - visited, 3
    {
      path := [];
      ReachesItself(zone, address);
      for i := 0 to |rrs|
        invariant Valid() && old(visited) <= visited
        invariant forall j :: 0 <= j < i ==> !rrs[j].A? && !rrs[j].Aaaa? && (rrs[j].Link? ==> rrs[j].target in visited)
        invariant forall n :: n in visited && n !in old(visited) ==> Exhausted(zone, n, visited)
      {
        assert rrs[i] in rrs;
        match rrs[i]
        case Link(target) =>
          ip, path := FollowLink(address, target, i, before);
          if ip.Some? {
            return;
          }
        case A(dotted) =>
          assert HasAddress(zone, address, dotted);
          assert Followed(zone, address, i, A(dotted), visited);
          path := [address];
          return Some(dotted), path;
        case Aaaa =>
          assert Fails(zone, address);
          return None, path;
        case Other =>
      }
      ip := None;
    }
  }

  /** All the names there are. */
  ghost function AllNames(zone: Zone, start: Name): set<Name> {
    zone.Keys + {start} + set a, r | a in zone && r in RecordsOf(zone, a) && r.Link? :: r.target
  }

  lemma AllNamesClosed(zone: Zone, start: Name)
    ensures Closed(zone, AllNames(zone, start)) && start in AllNames(zone, start)
  {
    forall a, b | a in AllNames(zone, start) && Links(zone, a, b) ensures b in AllNames(zone, start) {
      assert a in zone && Link(b) in RecordsOf(zone, a) && Link(b).target == b;
    }
  }

  /** Resolution from a clean start ends on every zone; what it finds is the first address in the order of a
      depth-first search, and without failures on the way it finds one exactly when some reachable name has one. */
  method Resolve(zone: Zone, address: Name) returns (ip: Option<Address>)
    ensures ip.Some? ==> Resolves(zone, address, ip.value) && IsFirst(zone, address, ip.value)
    ensures ip.None? ==> (exists n :: Reaches(zone, address, n) && Fails(zone, n)) || (forall a :: !Resolves(zone, address, a))
  {
    AllNamesClosed(zone, address);
    var resolver := new Resolver(zone, AllNames(zone, address));
    ghost var path;
    ip, path := resolver.ResolveCname(address);
    if ip.None? {
      ExhaustedIsComplete(zone, address, resolver.visited);
    }
  }

  ghost predicate IsFirst(zone: Zone, name: Name, ip: Address) {
    exists path, visited :: FirstAddress(zone, name, ip, path, {}, visited)
  }

  /** `isIp` is the library's address parser and `blocked` its test against the blocked networks. */
  method CommunicationAllowed(zone: Zone, address: string, isIp: string -> bool, blocked: string -> bool) returns (allowed: bool)
    ensures isIp(address) ==> allowed == !blocked(address)
    ensures !isIp(address) && allowed ==> exists ip :: IsFirst(zone, Text(address), ip) && isIp(ip) && !blocked(ip)
    ensures !isIp(address) && !allowed ==>
              || (exists ip :: IsFirst(zone, Text(address), ip) && !(isIp(ip) && !blocked(ip)))
              || (exists n :: Reaches(zone, Text(address), n) && Fails(zone, n))
              || (forall ip :: !Resolves(zone, Text(address), ip))
  {
    var resolved := address;
    if !isIp(address) {
      var ip := Resolve(zone, Text(address));
      if ip.None? {
        return false;
      }
      resolved := ip.value;
    }
    allowed := isIp(resolved) && !blocked(resolved);
  }
}
