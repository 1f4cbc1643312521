/** Ordered paging as Elasticsearch serves it to `composite` aggregations and `search_after`:
    a page holds the least keys beyond the one it is told to start after. */
module Search {
  import opened Bytes

  /** The sort values of a hit, compared one after the other. */
  type Key = seq<string>

  predicate StringLess(a: string, b: string) {
    if b == "" then false
    else if a == "" then true
    else a[0] < b[0] || (a[0] == b[0] && StringLess(a[1..], b[1..]))
  }

  predicate KeyLess(a: Key, b: Key) {
    if b == [] then false
    else if a == [] then true
    else StringLess(a[0], b[0]) || (a[0] == b[0] && KeyLess(a[1..], b[1..]))
  }

  /** Texts are ordered by the first character in which they differ; a text comes before its extensions. */
  lemma {:induction false} StringLessMeans(a: string, b: string)
    ensures StringLess(a, b) <==>
            exists n: nat :: n <= |a| && n < |b| && a[..n] == b[..n] && (n == |a| || a[n] < b[n])
  {
    if a == "" {
      if b != "" {
        assert a[..0] == b[..0];
      }
    } else if b != "" {
      StringLessMeans(a[1..], b[1..]);
      if StringLess(a, b) {
        if a[0] < b[0] {
          assert a[..0] == b[..0];
        } else {
          var n: nat :| n <= |a[1..]| && n < |b[1..]| && a[1..][..n] == b[1..][..n] && (n == |a[1..]| || a[1..][n] < b[1..][n]);
          assert a[..n + 1] == [a[0]] + a[1..][..n] && b[..n + 1] == [b[0]] + b[1..][..n];
        }
      }
      if n: nat :| n <= |a| && n < |b| && a[..n] == b[..n] && (n == |a| || a[n] < b[n]) {
        if n > 0 {
          assert a[..n][0] == b[..n][0];
          assert a[1..][..n - 1] == a[..n][1..] && b[1..][..n - 1] == b[..n][1..];
        }
      }
    }
  }

  lemma {:induction false} StringOrder(a: string, b: string)
    ensures a == b || StringLess(a, b) || StringLess(b, a)
    ensures !(StringLess(a, b) && StringLess(b, a))
    ensures !StringLess(a, a)
  {
    if a != "" {
      StringOrder(a[1..], if b == "" then "" else b[1..]);
      assert a == [a[0]] + a[1..];
      assert b != "" ==> b == [b[0]] + b[1..];
    }
  }

  lemma {:induction false} StringTransitive(a: string, b: string, c: string)
    requires StringLess(a, b) && StringLess(b, c)
    ensures StringLess(a, c)
  {
    if a != "" && a[0] == b[0] == c[0] {
      StringTransitive(a[1..], b[1..], c[1..]);
    }
  }

  lemma {:induction false} KeyOrder(a: Key, b: Key)
    ensures a == b || KeyLess(a, b) || KeyLess(b, a)
    ensures !(KeyLess(a, b) && KeyLess(b, a))
    ensures !KeyLess(a, a)
  {
    if a != [] {
      KeyOrder(a[1..], if b == [] then [] else b[1..]);
      StringOrder(a[0], if b == [] then "" else b[0]);
      assert a == [a[0]] + a[1..];
      assert b != [] ==> b == [b[0]] + b[1..];
    }
  }

  lemma {:induction false} KeyTransitive(a: Key, b: Key, c: Key)
    requires KeyLess(a, b) && KeyLess(b, c)
    ensures KeyLess(a, c)
  {
    if a != [] {
      StringOrder(a[0], b[0]);
      StringOrder(b[0], c[0]);
      if a[0] == b[0] == c[0] {
        KeyTransitive(a[1..], b[1..], c[1..]);
      } else if StringLess(a[0], b[0]) && StringLess(b[0], c[0]) {
        StringTransitive(a[0], b[0], c[0]);
      }
    }
  }

  ghost predicate IsLeast(keys: set<Key>, k: Key) {
    k in keys && forall j :: j in keys && j != k ==> KeyLess(k, j)
  }

  lemma {:induction false} LeastExists(keys: set<Key>)
    requires keys != {}
    ensures exists k :: IsLeast(keys, k)
  {
    var least :| least in keys;
    if keys == {least} {
      assert IsLeast(keys, least);
    } else {
      LeastExists(keys - {least});
      var other :| IsLeast(keys - {least}, other);
      KeyOrder(least, other);
      if KeyLess(other, least) {
        assert IsLeast(keys, other);
      } else {
        forall j | j in keys && j != least && j != other ensures KeyLess(least, j) {
          KeyTransitive(least, other, j);
        }
        assert IsLeast(keys, least);
      }
    }
  }

  lemma LeastUnique(keys: set<Key>, a: Key, b: Key)
    requires IsLeast(keys, a) && IsLeast(keys, b)
    ensures a == b
  {
    KeyOrder(a, b);
  }

  ghost function Least(keys: set<Key>): (least: Key)
    requires keys != {}
    ensures IsLeast(keys, least)
  {
    LeastExists(keys);
    var k :| IsLeast(keys, k);
    k
  }

  /** All the keys, in ascending order. */
  ghost function InOrder(keys: set<Key>): seq<Key>
    decreases |keys|
  {
    if keys == {} then [] else [Least(keys)] + InOrder(keys - {Least(keys)})
  }

  ghost predicate Ascending(s: seq<Key>) {
    forall i, j :: 0 <= i < j < |s| ==> KeyLess(s[i], s[j])
  }

  function Elements(s: seq<Key>): set<Key> {
    set k | k in s
  }

  lemma {:induction false} InOrderSound(keys: set<Key>)
    ensures Elements(InOrder(keys)) == keys && Ascending(InOrder(keys)) && |InOrder(keys)| == |keys|
    decreases |keys|
  {
    if keys != {} {
      var least := Least(keys);
      var rest := InOrder(keys - {least});
      InOrderSound(keys - {least});
      assert InOrder(keys) == [least] + rest;
      assert Elements([least] + rest) == {least} + Elements(rest);
      forall j | 0 <= j < |rest| ensures KeyLess(least, rest[j]) {
        assert rest[j] in Elements(rest);
      }
      assert Ascending([least] + rest);
    }
  }

  /** An ascending list is the ordered list of its elements. */
  lemma {:induction false} InOrderUnique(s: seq<Key>)
    requires Ascending(s)
    ensures InOrder(Elements(s)) == s
  {
    if s != [] {
      var keys := Elements(s);
      assert s[0] in keys;
      forall j | j in keys && j != s[0] ensures KeyLess(s[0], j) {
        var i :| 0 <= i < |s| && s[i] == j;
      }
      LeastUnique(keys, s[0], Least(keys));
      forall j | j in s[1..] ensures j != s[0] {
        KeyOrder(s[0], s[0]);
      }
      assert s == [s[0]] + s[1..];
      assert keys - {s[0]} == Elements(s[1..]);
      InOrderUnique(s[1..]);
    }
  }

  ghost function After(keys: set<Key>, after: Option<Key>): set<Key> {
    set k | k in keys && (after.None? || KeyLess(after.value, k))
  }

  lemma BeyondInList(all: seq<Key>, i: nat, k: Key)
    requires Ascending(all) && i < |all|
    ensures k in all[i + 1..] <==> k in all && KeyLess(all[i], k)
  {
    var rest := all[i + 1..];
    if k in rest {
      var j :| 0 <= j < |rest| && rest[j] == k;
      assert all[i + 1 + j] == k;
    }
    if k in all && KeyLess(all[i], k) {
      var j :| 0 <= j < |all| && all[j] == k;
      KeyOrder(all[i], k);
      assert j > i ==> rest[j - i - 1] == k;
    }
  }

  /** The keys beyond the `i`th are the rest of the list: pages neither repeat nor skip a key. */
  lemma AfterIsRest(keys: set<Key>, i: nat)
    requires i < |InOrder(keys)|
    ensures InOrder(After(keys, Some(InOrder(keys)[i]))) == InOrder(keys)[i + 1..]
  {
    var all := InOrder(keys);
    InOrderSound(keys);
    var rest := all[i + 1..];
    forall k
      ensures k in Elements(rest) <==> k in After(keys, Some(all[i]))
    {
      BeyondInList(all, i, k);
      assert k in all <==> k in Elements(all);
    }
    assert Elements(rest) == After(keys, Some(all[i]));
    InOrderUnique(rest);
  }

  function Take<T>(s: seq<T>, n: nat): seq<T> {
    if n < |s| then s[..n] else s
  }

  /** One search request: at most `size` keys beyond `after`. */
  method Page(keys: set<Key>, after: Option<Key>, size: nat) returns (page: seq<Key>)
    ensures page == Take(InOrder(After(keys, after)), size)
  {
    ghost var all := InOrder(After(keys, after));
    var rest := set k | k in keys && (after.None? || KeyLess(after.value, k));
    page := [];
    while |page| < size && rest != {}
      invariant |page| <= size
      invariant page + InOrder(rest) == all
      decreases |rest|
    {
      ghost var least := Least(rest);
      var k :| k in rest && forall j :: j in rest && j != k ==> KeyLess(k, j);
      LeastUnique(rest, k, least);
      assert InOrder(rest) == [k] + InOrder(rest - {k});
      page := page + [k];
      rest := rest - {k};
    }
    InOrderSound(rest);
  }
}
