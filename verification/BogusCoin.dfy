/** The token rewriter: every Boguscoin address between spaces is replaced by another. */
module BogusCoin {
  import opened Bytes

  const SEVEN: Byte := 55

  predicate Alphanumeric(b: Byte) {
    65 <= b <= 90 || 97 <= b <= 122 || 48 <= b <= 57
  }

  /** 26 to 35 alphanumeric characters, the first of them a 7. */
  predicate IsCoin(t: Bytes) {
    26 <= |t| <= 35 && t[0] == SEVEN && AllAlphanumeric(t)
  }

  predicate AllAlphanumeric(t: Bytes) {
    forall i :: 0 <= i < |t| ==> Alphanumeric(t[i])
  }

  function Swap(t: Bytes, replace: Bytes): Bytes {
    if IsCoin(t) then replace else t
  }

  // ---------- split, map, join ----------

  /** The stretches between spaces, empty ones included. */
  function Split(s: Bytes): (ts: seq<Bytes>)
    ensures ts != []
    decreases |s|
  {
    var k := IndexOf(s, SPACE);
    if k == |s| then [s] else [s[..k]] + Split(s[k + 1..])
  }

  function Join(ts: seq<Bytes>): Bytes
    requires ts != []
  {
    if |ts| == 1 then ts[0] else ts[0] + [SPACE] + Join(ts[1..])
  }

  function SwapAll(ts: seq<Bytes>, replace: Bytes): seq<Bytes> {
    seq(|ts|, i requires 0 <= i < |ts| => Swap(ts[i], replace))
  }

  /** What the rewriter is meant to compute. */
  function SplitSwapJoin(s: Bytes, replace: Bytes): Bytes {
    Join(SwapAll(Split(s), replace))
  }

  /** The same, one token at a time. */
  function Rewrite(s: Bytes, replace: Bytes): Bytes
    decreases |s|
  {
    var k := IndexOf(s, SPACE);
    if k == |s| then Swap(s, replace) else Swap(s[..k], replace) + [SPACE] + Rewrite(s[k + 1..], replace)
  }

  lemma {:induction false} JoinCons(t: Bytes, ts: seq<Bytes>)
    requires ts != []
    ensures Join([t] + ts) == t + [SPACE] + Join(ts)
  {
    assert ([t] + ts)[1..] == ts;
  }

  lemma {:induction false} SwapAllCons(t: Bytes, ts: seq<Bytes>, replace: Bytes)
    ensures SwapAll([t] + ts, replace) == [Swap(t, replace)] + SwapAll(ts, replace)
    ensures SwapAll([t], replace) == [Swap(t, replace)]
  {
  }

  lemma {:induction false} RewriteIsSplitSwapJoin(s: Bytes, replace: Bytes)
    ensures Rewrite(s, replace) == SplitSwapJoin(s, replace)
    decreases |s|
  {
    var k := IndexOf(s, SPACE);
    if k == |s| {
      SwapAllCons(s, [], replace);
    } else {
      var t, rest := s[..k], s[k + 1..];
      RewriteIsSplitSwapJoin(rest, replace);
      SwapAllCons(t, Split(rest), replace);
      JoinCons(Swap(t, replace), SwapAll(Split(rest), replace));
    }
  }

  lemma {:induction false} SplitJoin(s: Bytes)
    ensures Join(Split(s)) == s
    ensures forall i :: 0 <= i < |Split(s)| ==> SPACE !in Split(s)[i]
    decreases |s|
  {
    var k := IndexOf(s, SPACE);
    if k == |s| {
      assert s[..k] == s;
    } else {
      SplitJoin(s[k + 1..]);
      JoinCons(s[..k], Split(s[k + 1..]));
      assert s == s[..k] + [SPACE] + s[k + 1..];
    }
  }

  /** Rewriting works token by token. */
  lemma {:induction false} RewriteFirst(t: Bytes, rest: Bytes, replace: Bytes)
    requires SPACE !in t
    ensures Rewrite(t, replace) == Swap(t, replace)
    ensures Rewrite(t + [SPACE] + rest, replace) == Swap(t, replace) + [SPACE] + Rewrite(rest, replace)
  {
    assert t[..|t|] == t;
    IndexOfUnique(t, SPACE, |t|);
    var s := t + [SPACE] + rest;
    assert s[..|t|] == t;
    IndexOfUnique(s, SPACE, |t|);
    assert s[|t| + 1..] == rest;
  }

  lemma {:induction false} RewriteIdempotent(s: Bytes, replace: Bytes)
    requires SPACE !in replace
    ensures Rewrite(Rewrite(s, replace), replace) == Rewrite(s, replace)
    decreases |s|
  {
    var k := IndexOf(s, SPACE);
    var t := s[..k];
    var u := Swap(t, replace);
    assert Swap(u, replace) == u;
    if k == |s| {
      assert t == s;
      RewriteFirst(t, [], replace);
      RewriteFirst(u, [], replace);
    } else {
      var rest := s[k + 1..];
      assert s == t + [SPACE] + rest;
      RewriteFirst(t, rest, replace);
      RewriteFirst(u, Rewrite(rest, replace), replace);
      RewriteIdempotent(rest, replace);
    }
  }

  /** In characters: 26 to 35 letters and digits, the first a 7. */
  ghost predicate LooksLikeCoin(t: Bytes) {
    && 26 <= |t| <= 35 && t[0] as char == '7'
    && forall i :: 0 <= i < |t| ==>
      var c := t[i] as char; 'A' <= c <= 'Z' || 'a' <= c <= 'z' || '0' <= c <= '9'
  }

  lemma CoinIff(t: Bytes)
    ensures IsCoin(t) <==> LooksLikeCoin(t)
  {
    if 26 <= |t| && !AllAlphanumeric(t) {
      var i :| 0 <= i < |t| && !Alphanumeric(t[i]);
      var c := t[i] as char;
      assert !('A' <= c <= 'Z' || 'a' <= c <= 'z' || '0' <= c <= '9');
    }
  }

  lemma {:induction false} SplitOfJoin(ts: seq<Bytes>)
    requires ts != [] && forall i :: 0 <= i < |ts| ==> SPACE !in ts[i]
    ensures Split(Join(ts)) == ts
  {
    var t := ts[0];
    if |ts| == 1 {
      IndexOfUnique(t, SPACE, |t|);
    } else {
      var rest := Join(ts[1..]);
      var s := t + [SPACE] + rest;
      SplitOfJoin(ts[1..]);
      assert s[..|t|] == t;
      IndexOfUnique(s, SPACE, |t|);
      assert s[|t| + 1..] == rest;
      assert [t] + ts[1..] == ts;
    }
  }

  /** Token by token: with a replacement free of spaces, the coins are replaced and the other tokens are left. */
  lemma {:induction false} TokensReplaced(s: Bytes, replace: Bytes)
    requires SPACE !in replace
    ensures var ts, us := Split(s), Split(SplitSwapJoin(s, replace));
      |us| == |ts| && forall i :: 0 <= i < |ts| ==> us[i] == if LooksLikeCoin(ts[i]) then replace else ts[i]
  {
    var ts := Split(s);
    SplitJoin(s);
    SplitOfJoin(SwapAll(ts, replace));
    forall i | 0 <= i < |ts| ensures IsCoin(ts[i]) <==> LooksLikeCoin(ts[i]) {
      CoinIff(ts[i]);
    }
  }

  /** With a replacement free of spaces, rewriting twice is rewriting once. */
  lemma {:induction false} SplitSwapJoinIdempotent(s: Bytes, replace: Bytes)
    requires SPACE !in replace
    ensures SplitSwapJoin(SplitSwapJoin(s, replace), replace) == SplitSwapJoin(s, replace)
  {
    RewriteIdempotent(s, replace);
    RewriteIsSplitSwapJoin(s, replace);
    RewriteIsSplitSwapJoin(Rewrite(s, replace), replace);
  }

  // ---------- the loop ----------

  /** What is still to be written: at the start of a token it is rewritten, mid-token it is copied. */
  ghost function Remaining(start: bool, rest: Bytes, replace: Bytes): Bytes {
    if start then Rewrite(rest, replace) else AfterToken(rest, replace)
  }

  ghost function AfterToken(s: Bytes, replace: Bytes): Bytes {
    var k := IndexOf(s, SPACE);
    if k == |s| then s else s[..k] + [SPACE] + Rewrite(s[k + 1..], replace)
  }

  lemma {:induction false} AfterSpace(rest: Bytes, replace: Bytes)
    ensures AfterToken([SPACE] + rest, replace) == [SPACE] + Rewrite(rest, replace)
  {
    var s := [SPACE] + rest;
    assert s[..0] == [] && s[1..] == rest;
    IndexOfUnique(s, SPACE, 0);
  }

  lemma {:induction false} AfterTokenSplit(t: Bytes, rest: Bytes, replace: Bytes)
    requires SPACE !in t
    ensures AfterToken(t, replace) == t
    ensures AfterToken(t + [SPACE] + rest, replace) == t + [SPACE] + Rewrite(rest, replace)
  {
    assert t[..|t|] == t;
    IndexOfUnique(t, SPACE, |t|);
    var s := t + [SPACE] + rest;
    assert s[..|t|] == t;
    IndexOfUnique(s, SPACE, |t|);
    assert s[|t| + 1..] == rest;
  }

  /** A token and what follows it. */
  lemma {:induction false} RewriteSplit(t: Bytes, tail: Bytes, replace: Bytes)
    requires SPACE !in t && (tail == [] || tail[0] == SPACE)
    ensures Rewrite(t + tail, replace) == Swap(t, replace) + AfterToken(tail, replace)
    ensures AfterToken(t + tail, replace) == t + AfterToken(tail, replace)
  {
    if tail == [] {
      assert t + tail == t;
      RewriteFirst(t, [], replace);
      AfterTokenSplit(t, [], replace);
      AfterTokenSplit([], [], replace);
    } else {
      RewriteSplitAtSpace(t, tail[1..], replace);
      assert tail == [SPACE] + tail[1..];
    }
  }

  lemma {:induction false} RewriteSplitAtSpace(t: Bytes, rest: Bytes, replace: Bytes)
    requires SPACE !in t
    ensures Rewrite(t + ([SPACE] + rest), replace) == Swap(t, replace) + AfterToken([SPACE] + rest, replace)
    ensures AfterToken(t + ([SPACE] + rest), replace) == t + AfterToken([SPACE] + rest, replace)
  {
    ConcatAssoc(t, [SPACE], rest);
    RewriteFirst(t, rest, replace);
    AfterTokenSplit(t, rest, replace);
    AfterSpace(rest, replace);
    ConcatAssoc(Swap(t, replace), [SPACE], Rewrite(rest, replace));
    ConcatAssoc(t, [SPACE], Rewrite(rest, replace));
  }

  lemma {:induction false} TokenOf(s: Bytes) returns (t: Bytes, tail: Bytes)
    ensures s == t + tail && SPACE !in t && (tail == [] || tail[0] == SPACE)
    ensures t == s[..IndexOf(s, SPACE)]
  {
    var k := IndexOf(s, SPACE);
    t, tail := s[..k], s[k..];
  }

  /** Past more bytes of a token, none of them a space, what remains is what follows them. */
  lemma {:induction false} AfterTokenSkips(u: Bytes, rest: Bytes, replace: Bytes)
    requires SPACE !in u
    ensures AfterToken(u + rest, replace) == u + AfterToken(rest, replace)
  {
    var t, tail := TokenOf(rest);
    ConcatAssoc(u, t, tail);
    RewriteSplit(u + t, tail, replace);
    RewriteSplit(t, tail, replace);
    ConcatAssoc(u, t, AfterToken(tail, replace));
  }

  /** A token that is no coin is copied. */
  lemma {:induction false} CopyToken(s: Bytes, replace: Bytes)
    requires !IsCoin(s[..IndexOf(s, SPACE)])
    ensures Rewrite(s, replace) == AfterToken(s, replace)
  {
    var t, tail := TokenOf(s);
    RewriteSplit(t, tail, replace);
  }

  lemma {:induction false} NotACoin(s: Bytes, replace: Bytes)
    requires s != [] && s[0] != SEVEN && s[0] != SPACE
    ensures Rewrite(s, replace) == AfterToken(s, replace)
  {
    var t := s[..IndexOf(s, SPACE)];
    assert t != [] ==> t[0] == s[0];
    CopyToken(s, replace);
  }

  /** What the outer loop writes for a byte that starts no token to be scanned. */
  lemma {:induction false} ByteStep(start: bool, b: Byte, rest: Bytes, replace: Bytes)
    requires !(b == SEVEN && start)
    ensures Remaining(start, [b] + rest, replace) == [b] + Remaining(b == SPACE, rest, replace)
  {
    var s := [b] + rest;
    if b == SPACE {
      AfterSpace(rest, replace);
      RewriteFirst([], rest, replace);
      assert [] + [SPACE] + rest == s;
    } else {
      if start {
        NotACoin(s, replace);
      }
      AfterTokenSkips([b], rest, replace);
    }
  }

  /** The inner loop read t, all alphanumeric from a 7 on, and stopped at the end of the token or at another byte. */
  ghost predicate Scanned(t: Bytes, rest: Bytes, isBC: bool) {
    && t != [] && t[0] == SEVEN && AllAlphanumeric(t)
    && (if isBC then rest == [] || rest[0] == SPACE
        else rest != [] && rest[0] != SPACE && !Alphanumeric(rest[0]))
  }

  lemma NoSpaceIn(t: Bytes)
    requires AllAlphanumeric(t)
    ensures SPACE !in t
  {
  }

  /** A token cut short by a byte that is not alphanumeric is no coin. */
  lemma {:induction false} CutShort(t: Bytes, rest: Bytes, replace: Bytes)
    requires Scanned(t, rest, false)
    ensures Rewrite(t + rest, replace) == AfterToken(t + rest, replace)
  {
    NoSpaceIn(t);
    var s, j := t + rest, |t|;
    assert s[..j] == t && s[j] == rest[0];
    IndexOfSkips(s, SPACE, j);
    assert s[j..] == rest;
    assert s[..IndexOf(s, SPACE)][j] == s[j];
    CopyToken(s, replace);
  }

  /** What the outer loop writes for the token the inner loop read. */
  function Written(t: Bytes, isBC: bool, replace: Bytes): Bytes {
    if isBC && 26 <= |t| <= 35 then replace else t
  }

  /** That is what rewriting the token gives. */
  lemma {:induction false} TokenStep(t: Bytes, rest: Bytes, isBC: bool, replace: Bytes)
    requires Scanned(t, rest, isBC)
    ensures Rewrite(t + rest, replace) == Written(t, isBC, replace) + AfterToken(rest, replace)
  {
    NoSpaceIn(t);
    if isBC {
      RewriteSplit(t, rest, replace);
    } else {
      CutShort(t, rest, replace);
      AfterTokenSkips(t, rest, replace);
    }
  }

  predicate Same(a: Bytes, b: Bytes) {
    a == b
  }

  /** With `res` written and `rest` to read, the outer loop is heading for `goal`; said of whatever equals `rest`. */
  ghost predicate Heading(res: Bytes, start: bool, rest: Bytes, replace: Bytes, goal: Bytes) {
    forall r: Bytes {:trigger Same(r, rest)} :: Same(r, rest) ==> res + Remaining(start, r, replace) == goal
  }

  lemma {:induction false} HeadingByte(res: Bytes, start: bool, b: Byte, rest: Bytes, replace: Bytes, goal: Bytes)
    requires !(b == SEVEN && start) && Heading(res, start, [b] + rest, replace, goal)
    ensures Heading(res + [b], b == SPACE, rest, replace, goal)
  {
    assert Same([b] + rest, [b] + rest);
    ByteStep(start, b, rest, replace);
    ConcatAssoc(res, [b], Remaining(b == SPACE, rest, replace));
  }

  lemma {:induction false} HeadingToken(res: Bytes, t: Bytes, rest: Bytes, isBC: bool, replace: Bytes, goal: Bytes)
    requires Scanned(t, rest, isBC) && Heading(res, true, t + rest, replace, goal)
    ensures Heading(res + Written(t, isBC, replace), false, rest, replace, goal)
  {
    var written := Written(t, isBC, replace);
    assert Same(t + rest, t + rest);
    TokenStep(t, rest, isBC, replace);
    ConcatAssoc(res, written, AfterToken(rest, replace));
  }

  lemma {:induction false} HeadingEnd(res: Bytes, start: bool, replace: Bytes, goal: Bytes)
    requires Heading(res, start, [], replace, goal)
    ensures res == goal
  {
    assert Same([], []);
    RewriteFirst([], [], replace);
  }

  lemma {:induction false} HeadingStart(message: Bytes, replace: Bytes)
    ensures Heading([], true, message, replace, SplitSwapJoin(message, replace))
  {
    RewriteIsSplitSwapJoin(message, replace);
  }

  predicate AtStart(message: Bytes, i: nat)
    requires i <= |message|
  {
    i == 0 || message[i - 1] == SPACE
  }

  lemma {:induction false} ByteAt(message: Bytes, i: nat, res: Bytes, replace: Bytes, goal: Bytes)
    requires i < |message| && !(message[i] == SEVEN && AtStart(message, i))
    requires Heading(res, AtStart(message, i), message[i..], replace, goal)
    ensures Heading(res + [message[i]], AtStart(message, i + 1), message[i + 1..], replace, goal)
  {
    assert message[i..] == [message[i]] + message[i + 1..];
    HeadingByte(res, AtStart(message, i), message[i], message[i + 1..], replace, goal);
  }

  /** The inner loop: the token it reads, and what it leaves. */
  method ScanToken(message: Bytes, i: nat) returns (t: Bytes, ghost rest: Bytes, isBC: bool)
    requires i < |message| && message[i] == SEVEN
    ensures 1 <= |t| <= |message| - i && message[i + |t| - 1] != SPACE
    ensures rest == message[i + |t|..] && message[i..] == t + rest && Scanned(t, rest, isBC)
  {
    var j := 0;
    isBC := true;
    while true
      invariant 0 <= j < |message| - i
      invariant forall k :: i <= k <= i + j ==> Alphanumeric(message[k])
      decreases |message| - j
    {
      j := j + 1;
      if j >= |message| - i || message[i + j] == SPACE {
        break;
      }
      if Alphanumeric(message[i + j]) {
        continue;
      }
      isBC := false;
      break;
    }
    t, rest := message[i..i + j], message[i + j..];
  }

  lemma {:induction false} TokenAt(message: Bytes, i: nat, t: Bytes, rest: Bytes, isBC: bool, res: Bytes,
                                   replace: Bytes, goal: Bytes)
    requires i + |t| <= |message| && rest == message[i + |t|..] && message[i..] == t + rest && Scanned(t, rest, isBC)
    requires Heading(res, true, message[i..], replace, goal)
    ensures Heading(res + Written(t, isBC, replace), false, message[i + |t|..], replace, goal)
  {
    HeadingToken(res, t, rest, isBC, replace, goal);
  }

  /** The outer loop's branch for a token that starts with a 7. */
  method TokenBranch(message: Bytes, i: nat, res: Bytes, replace: Bytes, ghost goal: Bytes)
    returns (written: Bytes, j: nat)
    requires i < |message| && message[i] == SEVEN
    requires Heading(res, true, message[i..], replace, goal)
    ensures 1 <= j <= |message| - i && message[i + j - 1] != SPACE
    ensures Heading(res + written, false, message[i + j..], replace, goal)
  {
    var t, rest, isBC := ScanToken(message, i);
    TokenAt(message, i, t, rest, isBC, res, replace, goal);
    written, j := Written(t, isBC, replace), |t|;
  }

  /** The outer loop. */
  method RewriteLoop(message: Bytes, replace: Bytes, ghost goal: Bytes) returns (res: Bytes)
    requires Heading([], true, message[0..], replace, goal)
    ensures Heading(res, AtStart(message, |message|), message[|message|..], replace, goal)
  {
    res := [];
    var i := 0;
    while i < |message|
      invariant 0 <= i <= |message|
      invariant Heading(res, AtStart(message, i), message[i..], replace, goal)
    {
      if message[i] == SEVEN && AtStart(message, i) {
        var written, j := TokenBranch(message, i, res, replace, goal);
        res, i := res + written, i + j;
      } else {
        ByteAt(message, i, res, replace, goal);
        res, i := res + [message[i]], i + 1;
      }
    }
  }

  /** The rewriter is split, swap and join, on every message. */
  method ReplaceBogusCoin(message: Bytes, replace: Bytes) returns (res: Bytes)
    ensures res == SplitSwapJoin(message, replace)
  {
    ghost var goal := SplitSwapJoin(message, replace);
    HeadingStart(message, replace);
    assert message[0..] == message && message[|message|..] == [];
    res := RewriteLoop(message, replace, goal);
    HeadingEnd(res, AtStart(message, |message|), replace, goal);
  }
}
