/** `tail`: the last lines of a file, found by scanning 1024-byte blocks from its end. */
module Tail {
  import opened Bytes

  const NEWLINE: Byte := 10
  const BLOCK := 1024

  type Line = seq<Byte>

  function Newlines(s: seq<Byte>): nat {
    if s == [] then 0 else Newlines(s[..|s| - 1]) + if s[|s| - 1] == NEWLINE then 1 else 0
  }

  /** The index of the first newline; the length when there is none. */
  function FirstNewline(s: seq<Byte>): (i: nat)
    ensures i <= |s|
    ensures i < |s| ==> s[i] == NEWLINE
    ensures forall j :: 0 <= j < i ==> s[j] != NEWLINE
  {
    if s == [] || s[0] == NEWLINE then 0 else 1 + FirstNewline(s[1..])
  }

  /** `readlines`: each line with its newline; the last one may lack it. */
  function Lines(s: seq<Byte>): seq<Line>
    decreases |s|
  {
    var i := FirstNewline(s);
    if s == [] then []
    else if i == |s| then [s]
    else [s[..i + 1]] + Lines(s[i + 1..])
  }

  function Last(lines: seq<Line>, n: nat): seq<Line> {
    if n <= |lines| then lines[|lines| - n..] else lines
  }

  /** `lines[-n:]`, for which -0 is 0. */
  function SliceFromEnd(lines: seq<Line>, n: int): seq<Line> {
    if n > 0 then Last(lines, n) else lines[Min(-n, |lines|)..]
  }

  lemma {:induction false} NewlinesAdd(a: seq<Byte>, b: seq<Byte>)
    ensures Newlines(a + b) == Newlines(a) + Newlines(b)
    decreases |b|
  {
    if b == [] {
      assert a + b == a;
    } else {
      var front := b[..|b| - 1];
      NewlinesAdd(a, front);
      assert (a + b)[..|a + b| - 1] == a + front;
    }
  }

  lemma FirstNewlineIn(a: seq<Byte>, b: seq<Byte>)
    requires FirstNewline(a) < |a|
    ensures FirstNewline(a + b) == FirstNewline(a)
  {
    var i, j := FirstNewline(a), FirstNewline(a + b);
    assert (a + b)[i] == a[i];
    assert j < |a| ==> (a + b)[j] == a[j];
  }

  lemma Regroup<T>(a: seq<T>, b: seq<T>, c: seq<T>)
    ensures a + b + c == a + (b + c)
  {
  }

  lemma FirstLine(s: seq<Byte>, first: seq<Byte>, rest: seq<Byte>)
    requires s == first + rest && |first| == FirstNewline(s) + 1
    ensures Lines(s) == [first] + Lines(rest)
  {
    assert s[..|first|] == first && s[|first|..] == rest;
  }

  /** After a newline the lines of the rest are independent of what came before. */
  lemma {:induction false} LinesAfterNewline(a: seq<Byte>, b: seq<Byte>)
    requires a != [] && a[|a| - 1] == NEWLINE
    ensures Lines(a + b) == Lines(a) + Lines(b)
    decreases |a|, 0
  {
    var i := FirstNewline(a);
    FirstNewlineIn(a, b);
    var first, rest := a[..i + 1], a[i + 1..];
    assert first + rest == a;
    FirstLine(a, first, rest);
    Regroup(first, rest, b);
    FirstLine(a + b, first, rest + b);
    LinesOfRest(rest, b);
    Regroup([first], Lines(rest), Lines(b));
  }

  lemma {:induction false} LinesOfRest(rest: seq<Byte>, b: seq<Byte>)
    requires rest != [] ==> rest[|rest| - 1] == NEWLINE
    ensures Lines(rest + b) == Lines(rest) + Lines(b)
    decreases |rest|, 1
  {
    if rest == [] {
      assert rest + b == b && Lines(rest) == [];
      assert [] + Lines(b) == Lines(b);
    } else {
      LinesAfterNewline(rest, b);
    }
  }

  lemma {:induction false} AtLeastOneLinePerNewline(s: seq<Byte>)
    ensures |Lines(s)| >= Newlines(s)
    decreases |s|
  {
    var i := FirstNewline(s);
    if i < |s| {
      AtLeastOneLinePerNewline(s[i + 1..]);
      assert s == s[..i + 1] + s[i + 1..];
      NewlinesAdd(s[..i + 1], s[i + 1..]);
      NoNewlines(s[..i]);
      assert s[..i + 1][..i] == s[..i];
    } else {
      NoNewlines(s);
    }
  }

  lemma {:induction false} NoNewlines(s: seq<Byte>)
    requires forall i :: 0 <= i < |s| ==> s[i] != NEWLINE
    ensures Newlines(s) == 0
  {
    if s != [] {
      NoNewlines(s[..|s| - 1]);
    }
  }

  /** A suffix with more than `n` newlines, wherever it starts, has the same last `n` lines as the file. */
  lemma SuffixHasLastLines(file: seq<Byte>, start: nat, n: nat)
    requires start <= |file| && Newlines(file[start..]) > n
    ensures Last(Lines(file[start..]), n) == Last(Lines(file), n)
  {
    var k := CutAtNewline(file[start..], n);
    SplitAt(file, start, start + k);
    LastLinesAfter(file[start..start + k], file[start + k..], n);
    LastLinesAfter(file[..start + k], file[start + k..], n);
  }

  lemma SplitAt(file: seq<Byte>, start: nat, cut: nat)
    requires start < cut <= |file|
    ensures file[start..] == file[start..cut] + file[cut..] && file == file[..cut] + file[cut..]
    ensures file[start..][cut - start..] == file[cut..]
    ensures file[start..][cut - start - 1] == file[start..cut][cut - start - 1] == file[..cut][cut - 1]
  {
  }

  /** Where the first line of `s` ends; the rest has one newline less. */
  lemma CutAtNewline(s: seq<Byte>, n: nat) returns (k: nat)
    requires Newlines(s) > n
    ensures 0 < k <= |s| && s[k - 1] == NEWLINE && Newlines(s[k..]) >= n
  {
    var i := FirstNewline(s);
    if i == |s| {
      NoNewlines(s);
    }
    k := i + 1;
    NoNewlines(s[..i]);
    assert s[..k][..i] == s[..i];
    NewlinesAdd(s[..k], s[k..]);
    assert s == s[..k] + s[k..];
  }

  lemma LastLinesAfter(a: seq<Byte>, b: seq<Byte>, n: nat)
    requires a != [] && a[|a| - 1] == NEWLINE && Newlines(b) >= n
    ensures Last(Lines(a + b), n) == Last(Lines(b), n)
  {
    LinesAfterNewline(a, b);
    AtLeastOneLinePerNewline(b);
    LastOfSum(Lines(a), Lines(b), n);
  }

  lemma LastOfSum(a: seq<Line>, b: seq<Line>, n: nat)
    requires n <= |b|
    ensures Last(a + b, n) == Last(b, n)
  {
  }

  /** Scans backwards until more than `n` newlines or the whole file was seen. The last block read overlaps
      what was scanned before, so its count may be too high; by then the whole file was scanned. */
  method Scan(file: seq<Byte>, n: int) returns (scanned: nat)
    ensures scanned <= |file|
    ensures scanned == |file| || Newlines(file[|file| - scanned..]) > n
    ensures if n < 0 then scanned == 0 else file != [] ==> scanned > 0
  {
    var linesFound := 0;
    scanned := 0;
    while n + 1 > linesFound && |file| > scanned
      invariant 0 <= scanned <= |file|
      invariant scanned < |file| ==> linesFound == Newlines(file[|file| - scanned..])
      invariant scanned == 0 ==> linesFound == 0
      invariant n < 0 ==> scanned == 0
    {
      var block := Min(BLOCK, |file| - scanned);
      var position := |file| - (block + scanned);
      var data := file[position..Min(position + BLOCK, |file|)];
      ghost var before := file[|file| - scanned..];
      scanned := scanned + block;
      if scanned < |file| {
        assert file[|file| - scanned..] == data + before;
        NewlinesAdd(data, before);
      }
      linesFound := linesFound + Newlines(data);
    }
  }

  /** The result is the last `n` lines of the file exactly when `n` is positive or the file is empty: asked
      for no lines, it returns some all the same. A negative `n` gives none. */
  method Tail(file: seq<Byte>, n: int) returns (lines: seq<Line>)
    ensures n >= 1 ==> lines == Last(Lines(file), n)
    ensures n == 0 ==> (lines == Last(Lines(file), n) <==> file == [])
    ensures n < 0 ==> lines == []
  {
    var scanned := Scan(file, n);
    var suffix := file[|file| - scanned..];
    lines := SliceFromEnd(Lines(suffix), n);
    if n >= 1 {
      if scanned < |file| {
        SuffixHasLastLines(file, |file| - scanned, n);
      } else {
        assert suffix == file;
      }
    }
  }
}
