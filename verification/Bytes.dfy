/** Byte strings, and the newline split shared by the LRCP receiver and the job-centre request reader. */
module Bytes {
  type Byte = x: int | 0 <= x < 256
  type Bytes = seq<Byte>

  const NEWLINE: Byte := 10
  const SPACE: Byte := 32
  const SLASH: Byte := 47
  const BACKSLASH: Byte := 92

  /** The characters that separate lines, words and fields. */
  lemma Characters()
    ensures NEWLINE as char == '\n' && SPACE as char == ' ' && SLASH as char == '/' && BACKSLASH as char == '\\'
  {
  }

  function Min(a: int, b: int): int {
    if a <= b then a else b
  }

  function Max(a: int, b: int): int {
    if a <= b then b else a
  }

  lemma ConcatAssoc<T>(a: seq<T>, b: seq<T>, c: seq<T>)
    ensures a + (b + c) == (a + b) + c
  {
  }

  function Flatten<T>(ss: seq<seq<T>>): seq<T> {
    if ss == [] then [] else ss[0] + Flatten(ss[1..])
  }

  lemma {:induction false} FlattenConcat<T>(a: seq<seq<T>>, b: seq<seq<T>>)
    ensures Flatten(a + b) == Flatten(a) + Flatten(b)
  {
    if a == [] {
      assert a + b == b;
    } else {
      assert (a + b)[1..] == a[1..] + b;
      FlattenConcat(a[1..], b);
    }
  }

  lemma FlattenSnoc<T>(a: seq<seq<T>>, x: seq<T>)
    ensures Flatten(a + [x]) == Flatten(a) + x
  {
    FlattenConcat(a, [x]);
    assert Flatten([x]) == x;
  }

  /** The position of the first `c` in `s`, or the length of `s` when there is none. */
  function IndexOf(s: Bytes, c: Byte): (k: nat)
    ensures k <= |s|
    ensures c !in s[..k]
    ensures k < |s| ==> s[k] == c
  {
    if s == [] then 0
    else if s[0] == c then 0
    else
      var k := 1 + IndexOf(s[1..], c);
      assert s[..k] == [s[0]] + s[1..][..k - 1];
      k
  }

  lemma {:induction false} IndexOfUnique(s: Bytes, c: Byte, k: nat)
    requires k <= |s| && c !in s[..k]
    requires k < |s| ==> s[k] == c
    ensures IndexOf(s, c) == k
  {
    if k > 0 {
      assert s[0] == s[..k][0];
      assert s[1..][..k - 1] == s[..k][1..];
      IndexOfUnique(s[1..], c, k - 1);
    }
  }

  lemma IndexOfSkips(s: Bytes, c: Byte, j: nat)
    requires j <= |s| && c !in s[..j]
    ensures IndexOf(s, c) == j + IndexOf(s[j..], c)
  {
    var m := IndexOf(s[j..], c);
    assert s[..j + m] == s[..j] + s[j..][..m];
    IndexOfUnique(s, c, j + m);
  }

  /** The complete lines of `s`: what precedes each newline, in order, newlines removed. */
  function Lines(s: Bytes): seq<Bytes> {
    var k := IndexOf(s, NEWLINE);
    if k == |s| then [] else [s[..k]] + Lines(s[k + 1..])
  }

  /** What follows the last newline of `s`. */
  function Residual(s: Bytes): Bytes {
    var k := IndexOf(s, NEWLINE);
    if k == |s| then s else Residual(s[k + 1..])
  }

  /** Each line followed by its newline. */
  function Unlines(lines: seq<Bytes>): Bytes {
    if lines == [] then [] else lines[0] + [NEWLINE] + Unlines(lines[1..])
  }

  ghost predicate NewlineFree(lines: seq<Bytes>) {
    forall i :: 0 <= i < |lines| ==> NEWLINE !in lines[i]
  }

  lemma {:induction false} UnlinesConcat(a: seq<Bytes>, b: seq<Bytes>)
    ensures Unlines(a + b) == Unlines(a) + Unlines(b)
  {
    if a == [] {
      assert a + b == b;
    } else {
      assert (a + b)[1..] == a[1..] + b;
      UnlinesConcat(a[1..], b);
    }
  }

  lemma UnlinesCons(line: Bytes, lines: seq<Bytes>)
    ensures Unlines([line] + lines) == line + [NEWLINE] + Unlines(lines)
  {
    assert ([line] + lines)[1..] == lines;
  }

  lemma NewlineFreeCons(line: Bytes, lines: seq<Bytes>)
    requires NEWLINE !in line && NewlineFree(lines)
    ensures NewlineFree([line] + lines)
  {
  }

  lemma SplitAt(s: Bytes, k: nat, joined: Bytes, rest: Bytes)
    requires k < |s| && s[k] == NEWLINE && joined + rest == s[k + 1..]
    ensures s[..k] + [NEWLINE] + joined + rest == s
  {
    assert s[..k] + [NEWLINE] + joined + rest == s[..k] + [NEWLINE] + (joined + rest);
  }

  /** The split loses nothing: joining the lines and the residual gives the bytes back. */
  lemma {:induction false} LinesJoin(s: Bytes)
    ensures Unlines(Lines(s)) + Residual(s) == s
    ensures NewlineFree(Lines(s)) && NEWLINE !in Residual(s)
    decreases |s|
  {
    var k := IndexOf(s, NEWLINE);
    if k == |s| {
      assert s[..k] == s;
      assert [] + s == s;
    } else {
      var t := s[k + 1..];
      LinesJoin(t);
      UnlinesCons(s[..k], Lines(t));
      NewlineFreeCons(s[..k], Lines(t));
      SplitAt(s, k, Unlines(Lines(t)), Residual(t));
    }
  }

  /** The split is the only one: any newline-free lines and residual that join to `s` are these. */
  lemma {:induction false} LinesUnique(s: Bytes, lines: seq<Bytes>, rest: Bytes)
    requires NewlineFree(lines) && NEWLINE !in rest
    requires Unlines(lines) + rest == s
    ensures Lines(s) == lines && Residual(s) == rest
    decreases |lines|
  {
    if lines == [] {
      assert s == rest;
      assert s[..|s|] == s;
      IndexOfUnique(s, NEWLINE, |s|);
    } else {
      var k := |lines[0]|;
      var tail := Unlines(lines[1..]) + rest;
      assert s == lines[0] + [NEWLINE] + tail;
      assert s[..k] == lines[0];
      IndexOfUnique(s, NEWLINE, k);
      assert s[k + 1..] == tail;
      LinesUnique(tail, lines[1..], rest);
      assert [lines[0]] + lines[1..] == lines;
    }
  }

  lemma UnlinesResume(first: seq<Bytes>, mid: Bytes, b: Bytes, second: seq<Bytes>, rest: Bytes)
    requires mid + b == Unlines(second) + rest
    ensures Unlines(first + second) + rest == Unlines(first) + mid + b
  {
    UnlinesConcat(first, second);
    assert Unlines(first) + Unlines(second) + rest == Unlines(first) + (Unlines(second) + rest);
    assert Unlines(first) + (mid + b) == Unlines(first) + mid + b;
  }

  /** Splitting can be resumed from the residual. */
  lemma {:induction false} LinesResume(a: Bytes, b: Bytes)
    ensures Lines(a + b) == Lines(a) + Lines(Residual(a) + b)
    ensures Residual(a + b) == Residual(Residual(a) + b)
  {
    var mid := Residual(a) + b;
    LinesJoin(a);
    LinesJoin(mid);
    UnlinesResume(Lines(a), Residual(a), b, Lines(mid), Residual(mid));
    LinesUnique(a + b, Lines(a) + Lines(mid), Residual(mid));
  }

  /** A newline-free stretch ended by a newline is the first line. */
  lemma LinesFirst(line: Bytes, tail: Bytes)
    requires NEWLINE !in line
    ensures Lines(line + [NEWLINE] + tail) == [line] + Lines(tail)
    ensures Residual(line + [NEWLINE] + tail) == Residual(tail)
  {
    var s, k := line + [NEWLINE] + tail, |line|;
    assert s[..k] == line;
    IndexOfUnique(s, NEWLINE, k);
    assert s[k + 1..] == tail;
  }

  lemma LinesNone(s: Bytes)
    requires NEWLINE !in s
    ensures Lines(s) == [] && Residual(s) == s
  {
    assert s[..|s|] == s;
    IndexOfUnique(s, NEWLINE, |s|);
  }
}
