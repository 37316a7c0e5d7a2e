/** Byte stuffing: the per-byte rule and the in-place loop that implements it. */
module Stuffing {
  import opened Bytes

  predicate Special(b: byte) {
    b == MAGIC || b == ESC
  }

  function StuffByte(b: byte): seq<byte> {
    if b == MAGIC then [ESC, 2] else if b == ESC then [ESC, 1] else [b]
  }

  /** The stuffing map: every byte is replaced by its own code, independently of the others. */
  function Stuff(s: seq<byte>): seq<byte> {
    if s == [] then [] else Stuff(s[..|s| - 1]) + StuffByte(s[|s| - 1])
  }

  function SpecialCount(s: seq<byte>): nat {
    if s == [] then 0 else SpecialCount(s[..|s| - 1]) + if Special(s[|s| - 1]) then 1 else 0
  }

  /** A message with everything but its first and last byte stuffed. */
  function Escaped(msg: seq<byte>): seq<byte> {
    if |msg| <= 2 then msg else [msg[0]] + Stuff(msg[1..|msg| - 1]) + [msg[|msg| - 1]]
  }

  lemma {:induction false} StuffShape(s: seq<byte>)
    ensures MAGIC !in Stuff(s)
    ensures |Stuff(s)| == |s| + SpecialCount(s)
    ensures SpecialCount(s) <= |s|
  {
    if s != [] {
      StuffShape(s[..|s| - 1]);
    }
  }

  lemma {:induction false} StuffConcat(a: seq<byte>, b: seq<byte>)
    ensures Stuff(a + b) == Stuff(a) + Stuff(b)
  {
    if b == [] {
      ConcatEmpty(a);
    } else {
      DropLastOfConcat(a, b);
      StuffConcat(a, b[..|b| - 1]);
      ConcatAssociative(Stuff(a), Stuff(b[..|b| - 1]), StuffByte(b[|b| - 1]));
    }
  }

  lemma StuffFirst(s: seq<byte>)
    requires s != []
    ensures Stuff(s) == StuffByte(s[0]) + Stuff(s[1..])
  {
    FirstAndRest(s);
    StuffConcat([s[0]], s[1..]);
    assert [s[0]][..0] == [];
    ConcatEmpty(StuffByte(s[0]));
  }

  /** Head and tail survive, no raw frame mark is left between them, and the new length counts
      the special bytes, so it never exceeds twice the interior plus the two marks. */
  lemma EscapedShape(msg: seq<byte>)
    requires |msg| >= 2
    ensures var e := Escaped(msg);
            && |e| == |msg| + SpecialCount(msg[1..|msg| - 1]) <= 2 * (|msg| - 2) + 2
            && e[0] == msg[0] && e[|e| - 1] == msg[|msg| - 1]
            && MAGIC !in e[1..|e| - 1]
  {
    var mid := msg[1..|msg| - 1];
    StuffShape(mid);
    var e := Escaped(msg);
    assert Stuff([]) == [];
    assert e[1..|e| - 1] == Stuff(mid);
  }

  /** memmove(&a[i + 1], &a[i], n) */
  method ShiftUp(a: array<byte>, i: nat, n: nat)
    requires i + n + 1 <= a.Length
    modifies a
    ensures a[..] == old(a[..])[..i + 1] + old(a[..])[i..i + n] + old(a[..])[i + 1 + n..]
  {
    forall j | i + 1 <= j < i + 1 + n {
      a[j] := a[j - 1];
    }
  }

  lemma ShiftedParts(p: seq<byte>, r: seq<byte>, t: seq<byte>)
    requires r != [] && t != []
    ensures var w, i := p + r + t, |p|;
            w[..i + 1] + w[i..i + |r|] + w[i + 1 + |r|..] == p + ([r[0]] + r + t[1..])
  {
  }

  lemma StoredPair(p: seq<byte>, r: seq<byte>, t: seq<byte>, low: byte)
    requires r != []
    ensures (p + ([r[0]] + r + t))[|p| := ESC][|p| + 1 := low] == p + [ESC, low] + r[1..] + t
  {
  }

  /** One turn of the stuffing loop on a buffer made of p (finished), r (to do) and t (spare). */
  method StuffOne(a: array<byte>, i: nat, len: nat,
                  ghost p: seq<byte>, ghost r: seq<byte>, ghost t: seq<byte>)
    returns (grown: nat)
    requires a[..] == p + r + t && i == |p| && r != [] && len == i + |r|
    requires |StuffByte(r[0])| - 1 <= |t|
    modifies a
    ensures grown == |StuffByte(r[0])| - 1
    ensures a[..] == p + StuffByte(r[0]) + r[1..] + t[grown..]
  {
    grown := 0;
    assert a[i] == (p + r + t)[i] == r[0];
    if a[i] == MAGIC {
      ShiftedParts(p, r, t);
      StoredPair(p, r, t[1..], 2);
      ShiftUp(a, i, len - i);
      a[i] := ESC;
      a[i + 1] := 2;
      grown := 1;
    } else if a[i] == ESC {
      ShiftedParts(p, r, t);
      StoredPair(p, r, t[1..], 1);
      ShiftUp(a, i, len - i);
      a[i] := ESC;
      a[i + 1] := 1;
      grown := 1;
    } else {
      assert p + [r[0]] + r[1..] + t[0..] == p + r + t;
    }
  }

  /** What the buffer p + r + t becomes when all of r but its last byte has been stuffed. */
  ghost function Finished(p: seq<byte>, r: seq<byte>, t: seq<byte>): seq<byte>
    decreases |r|
  {
    if |r| <= 1 then p + r + t
    else
      var grown := |StuffByte(r[0])| - 1;
      Finished(p + StuffByte(r[0]), r[1..], if grown <= |t| then t[grown..] else t)
  }

  /** The spare room the rest of the loop needs. */
  ghost function Growth(r: seq<byte>): nat
    requires r != []
  {
    SpecialCount(r[..|r| - 1])
  }

  lemma {:induction false} GrowthStep(r: seq<byte>)
    requires |r| > 1
    ensures Growth(r) == |StuffByte(r[0])| - 1 + Growth(r[1..])
  {
    var m := r[..|r| - 1];
    assert r[1..][..|r| - 2] == m[1..];
    StuffShape(m);
    StuffShape(m[1..]);
    StuffFirst(m);
  }

  lemma RestOfMessage(r: seq<byte>)
    requires |r| > 1
    ensures var rest, m := r[1..], r[..|r| - 1];
            rest[..|rest| - 1] == m[1..] && rest[|rest| - 1] == r[|r| - 1] && m[0] == r[0]
  {
  }

  lemma DropTwice(t: seq<byte>, j: nat, k: nat)
    requires j + k <= |t|
    ensures t[j..][k..] == t[j + k..]
  {
  }

  /** p + r + t with all of r but its last byte stuffed at once. */
  ghost function Assembled(p: seq<byte>, r: seq<byte>, t: seq<byte>): seq<byte>
    requires r != [] && Growth(r) <= |t|
  {
    p + Stuff(r[..|r| - 1]) + [r[|r| - 1]] + t[Growth(r)..]
  }

  lemma AssembledStep(p: seq<byte>, r: seq<byte>, t: seq<byte>)
    requires |r| > 1 && Growth(r) <= |t|
    ensures var c, rest := StuffByte(r[0]), r[1..];
            && |c| - 1 + Growth(rest) == Growth(r)
            && Assembled(p + c, rest, t[|c| - 1..]) == Assembled(p, r, t)
  {
    var m, c, rest := r[..|r| - 1], StuffByte(r[0]), r[1..];
    GrowthStep(r);
    RestOfMessage(r);
    DropTwice(t, |c| - 1, Growth(rest));
    StuffFirst(m);
    ConcatAssociative(p, c, Stuff(m[1..]));
  }

  lemma FinishedUnfolds(p: seq<byte>, r: seq<byte>, t: seq<byte>)
    requires |r| > 1 && Growth(r) <= |t|
    ensures var c, rest := StuffByte(r[0]), r[1..];
            && |c| - 1 + Growth(rest) == Growth(r)
            && Finished(p, r, t) == Finished(p + c, rest, t[|c| - 1..])
  {
    GrowthStep(r);
  }

  lemma FinishedOne(p: seq<byte>, r: seq<byte>, t: seq<byte>)
    requires |r| == 1
    ensures Growth(r) == 0 && Finished(p, r, t) == Assembled(p, r, t)
  {
    assert r == [r[0]] && r[..0] == [] && t[0..] == t;
    ConcatEmpty(p);
  }

  lemma {:induction false} FinishedIsAssembled(p: seq<byte>, r: seq<byte>, t: seq<byte>)
    requires r != [] && Growth(r) <= |t|
    ensures Finished(p, r, t) == Assembled(p, r, t)
    decreases |r|
  {
    if |r| == 1 {
      FinishedOne(p, r, t);
    } else {
      var c := StuffByte(r[0]);
      FinishedUnfolds(p, r, t);
      AssembledStep(p, r, t);
      FinishedIsAssembled(p + c, r[1..], t[|c| - 1..]);
    }
  }

  lemma MessageParts(w: seq<byte>, n: nat, g: nat)
    requires 2 < n && n + g <= |w|
    ensures [w[0]] + w[..n][1..] + w[n..] == w
    ensures w[n..][g..] == w[n + g..]
  {
  }

  lemma EscapedOfTail(s: seq<byte>)
    requires 2 < |s|
    ensures var r := s[1..];
            && Escaped(s) == [s[0]] + Stuff(r[..|r| - 1]) + [r[|r| - 1]]
            && |Escaped(s)| == |s| + Growth(r)
  {
    assert s[1..][..|s| - 2] == s[1..|s| - 1];
    StuffShape(s[1..|s| - 1]);
  }

  lemma FinishedMessage(s: seq<byte>, t: seq<byte>)
    requires 2 < |s| && Growth(s[1..]) <= |t|
    ensures Finished([s[0]], s[1..], t) == Escaped(s) + t[Growth(s[1..])..]
  {
    EscapedOfTail(s);
    FinishedIsAssembled([s[0]], s[1..], t);
  }

  lemma WholeMessage(w: seq<byte>, n: nat)
    requires 2 < n <= |w| && |Escaped(w[..n])| <= |w|
    ensures var s := w[..n];
            && [w[0]] + s[1..] + w[n..] == w
            && n + Growth(s[1..]) == |Escaped(s)|
            && Finished([w[0]], s[1..], w[n..]) == Escaped(s) + w[|Escaped(s)|..]
  {
    var s, t := w[..n], w[n..];
    var g := Growth(s[1..]);
    EscapedOfTail(s);
    MessageParts(w, n, g);
    FinishedMessage(s, t);
    assert s[0] == w[0] && t[g..] == w[|Escaped(s)|..];
  }

  /** The stuffing loop, shifting the rest of the buffer up by one at every special byte. The
      buffer need only hold the result, and nothing beyond the result is touched. */
  method EscapeInPlace(a: array<byte>, msgLen: nat) returns (escapedLen: nat)
    requires msgLen <= a.Length && |Escaped(a[..msgLen])| <= a.Length
    modifies a
    ensures escapedLen == |Escaped(old(a[..msgLen]))|
    ensures a[..] == Escaped(old(a[..msgLen])) + old(a[..])[escapedLen..]
  {
    escapedLen := msgLen;
    ghost var w := a[..];
    assert a[..msgLen] == w[..msgLen];
    if msgLen <= 2 { return; }
    WholeMessage(w, msgLen);
    ghost var p, r, t := [w[0]], w[..msgLen][1..], w[msgLen..];
    var i := 1;
    while i < escapedLen - 1
      invariant r != [] && i == |p| && escapedLen == i + |r| && Growth(r) <= |t|
      invariant escapedLen + Growth(r) == |Escaped(w[..msgLen])|
      invariant a[..] == p + r + t
      invariant Finished(p, r, t) == Escaped(w[..msgLen]) + w[|Escaped(w[..msgLen])|..]
    {
      GrowthStep(r);
      var grown := StuffOne(a, i, escapedLen, p, r, t);
      p, r, t := p + StuffByte(r[0]), r[1..], t[grown..];
      i, escapedLen := i + 1 + grown, escapedLen + grown;
    }
    assert r[..0] == [];
  }
}
