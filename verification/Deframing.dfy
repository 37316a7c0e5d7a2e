/** The receive side of the framing: a byte-at-a-time decoder with persistent state, its class
    form over a fixed message buffer, and what it does on whole streams. */
module Deframing {
  import opened Bytes
  import opened Stuffing

  const MIN_BODY := 6  // bytes that must precede a tail mark for it to close a frame

  type Frame = seq<byte>

  /** inFrame, escaped and |buf| are get_head, got_esc_char and cnt. */
  datatype State = State(inFrame: bool, escaped: bool, buf: seq<byte>) {
    ghost predicate Valid(limit: nat) {
      && |buf| <= limit
      && (inFrame <==> buf != [])
      && (!inFrame ==> !escaped)
    }
  }

  const IDLE := State(false, false, [])
  const HEAD := State(true, false, [MAGIC])

  /** The state after one received byte. The restart on an early mark keeps the escape flag, as the
      code does. */
  function Next(st: State, ch: byte, limit: nat): (r: State)
    requires st.Valid(limit)
    ensures r.Valid(limit)
  {
    if |st.buf| + 1 > limit then
      IDLE
    else if !st.inFrame then
      if ch == MAGIC then State(true, st.escaped, [MAGIC]) else st
    else if ch == MAGIC then
      if |st.buf| < MIN_BODY then State(true, st.escaped, [MAGIC]) else IDLE
    else if ch == ESC && !st.escaped then
      State(true, true, st.buf + [ESC])
    else if st.escaped && ch == 2 then
      State(true, false, st.buf[|st.buf| - 1 := MAGIC])
    else if st.escaped && ch == 1 then
      State(true, false, st.buf[|st.buf| - 1 := ESC])
    else
      State(true, false, st.buf + [ch])
  }

  /** The frames (none or one) that byte delivers. */
  function Emit(st: State, ch: byte, limit: nat): seq<Frame> {
    if |st.buf| + 1 <= limit && st.inFrame && ch == MAGIC && MIN_BODY <= |st.buf|
    then [st.buf + [MAGIC]] else []
  }

  function After(st: State, s: seq<byte>, limit: nat): (r: State)
    requires st.Valid(limit)
    ensures r.Valid(limit)
  {
    if s == [] then st else Next(After(st, s[..|s| - 1], limit), s[|s| - 1], limit)
  }

  function Delivered(st: State, s: seq<byte>, limit: nat): seq<Frame>
    requires st.Valid(limit)
  {
    if s == [] then []
    else Delivered(st, s[..|s| - 1], limit) + Emit(After(st, s[..|s| - 1], limit), s[|s| - 1], limit)
  }

  lemma {:induction false} RunConcat(st: State, a: seq<byte>, b: seq<byte>, limit: nat)
    requires st.Valid(limit)
    ensures After(st, a + b, limit) == After(After(st, a, limit), b, limit)
    ensures Delivered(st, a + b, limit) == Delivered(st, a, limit) + Delivered(After(st, a, limit), b, limit)
  {
    if b == [] {
      ConcatEmpty(a);
      ConcatEmpty(Delivered(st, a, limit));
    } else {
      var init, last := b[..|b| - 1], b[|b| - 1];
      DropLastOfConcat(a, b);
      RunConcat(st, a, init, limit);
      var st1 := After(st, a, limit);
      ConcatAssociative(Delivered(st, a, limit), Delivered(st1, init, limit),
                        Emit(After(st1, init, limit), last, limit));
    }
  }

  lemma RunOne(st: State, ch: byte, limit: nat)
    requires st.Valid(limit)
    ensures After(st, [ch], limit) == Next(st, ch, limit)
    ensures Delivered(st, [ch], limit) == Emit(st, ch, limit)
  {
  }

  lemma RunSnoc(st: State, s: seq<byte>, i: nat, limit: nat)
    requires st.Valid(limit) && i < |s|
    ensures After(st, s[..i + 1], limit) == Next(After(st, s[..i], limit), s[i], limit)
    ensures Delivered(st, s[..i + 1], limit)
            == Delivered(st, s[..i], limit) + Emit(After(st, s[..i], limit), s[i], limit)
  {
    assert s[..i + 1][..i] == s[..i];
  }

  lemma RunTwo(st: State, c: byte, d: byte, limit: nat)
    requires st.Valid(limit)
    ensures After(st, [c, d], limit) == Next(Next(st, c, limit), d, limit)
    ensures Delivered(st, [c, d], limit) == Emit(st, c, limit) + Emit(Next(st, c, limit), d, limit)
  {
    RunOne(st, c, limit);
    assert [c, d][..1] == [c];
  }

  // ----- what one encoded frame does -----

  /** A frame the decoder can deliver whole: marks at both ends and a length it accepts. */
  predicate WellFormed(f: Frame, limit: nat) {
    7 <= |f| <= limit && f[0] == MAGIC && f[|f| - 1] == MAGIC
  }

  function Interior(f: Frame): seq<byte>
    requires |f| >= 2
  {
    f[1..|f| - 1]
  }

  lemma Reassembled(f: Frame, limit: nat)
    requires WellFormed(f, limit)
    ensures [MAGIC] + Interior(f) + [MAGIC] == f && f[..|f| - 1] + [MAGIC] == f
    ensures Escaped(f) == [MAGIC] + Stuff(Interior(f)) + [MAGIC]
  {
  }

  lemma StuffedByte(b: seq<byte>, c: byte, limit: nat)
    requires b != [] && |b| + 1 <= limit
    ensures var st := State(true, false, b);
            && Delivered(st, StuffByte(c), limit) == []
            && After(st, StuffByte(c), limit)
               == if |b| + 1 == limit && Special(c) then IDLE else State(true, false, b + [c])
  {
    var st := State(true, false, b);
    if Special(c) {
      RunTwo(st, ESC, StuffByte(c)[1], limit);
      assert (b + [ESC])[|b| := c] == b + [c];
    } else {
      RunOne(st, c, limit);
    }
  }

  /** A body that fills the buffer to the brim and ends in a stuffed pair, whose second byte then finds
      no room. */
  predicate Overflows(b: seq<byte>, x: seq<byte>, limit: nat) {
    |b| + |x| == limit && x != [] && Special(x[|x| - 1])
  }

  /** Stuffed bytes are appended one for one; on overflow all is dropped instead. */
  lemma {:induction false} StuffedBody(b: seq<byte>, x: seq<byte>, limit: nat)
    requires b != [] && |b| + |x| <= limit
    ensures var st := State(true, false, b);
            && Delivered(st, Stuff(x), limit) == []
            && After(st, Stuff(x), limit) == if Overflows(b, x, limit) then IDLE else State(true, false, b + x)
  {
    if x == [] {
      ConcatEmpty(b);
    } else {
      var y, c := x[..|x| - 1], x[|x| - 1];
      SnocOfConcat(b, x);
      StuffedBody(b, y, limit);
      RunConcat(State(true, false, b), Stuff(y), StuffByte(c), limit);
      StuffedByte(b + y, c, limit);
    }
  }

  lemma {:induction false} IdleSkips(y: seq<byte>, limit: nat)
    requires MAGIC !in y
    ensures After(IDLE, y, limit) == IDLE && Delivered(IDLE, y, limit) == []
  {
    if y != [] {
      IdleSkips(y[..|y| - 1], limit);
    }
  }

  /** The three phases of an encoded frame: mark, stuffed body, mark. */
  lemma RunFrame(st: State, f: Frame, limit: nat)
    requires st.Valid(limit) && WellFormed(f, limit)
    ensures var st1 := Next(st, MAGIC, limit);
            var st2 := After(st1, Stuff(Interior(f)), limit);
            && After(st, Escaped(f), limit) == Next(st2, MAGIC, limit)
            && Delivered(st, Escaped(f), limit)
               == Emit(st, MAGIC, limit) + Delivered(st1, Stuff(Interior(f)), limit) + Emit(st2, MAGIC, limit)
  {
    var body := Stuff(Interior(f));
    Reassembled(f, limit);
    RunConcat(st, [MAGIC] + body, [MAGIC], limit);
    RunConcat(st, [MAGIC], body, limit);
    RunOne(st, MAGIC, limit);
    RunOne(After(Next(st, MAGIC, limit), body, limit), MAGIC, limit);
  }

  /** The states from which the next encoded frame is certainly received. */
  predicate Synced(st: State) {
    st == IDLE || st == HEAD
  }

  lemma FrameReceived(st: State, f: Frame, limit: nat)
    requires Synced(st) && WellFormed(f, limit)
    ensures After(st, Escaped(f), limit) == IDLE
    ensures Delivered(st, Escaped(f), limit) == [f]
  {
    Reassembled(f, limit);
    RunFrame(st, f, limit);
    StuffedBody([MAGIC], Interior(f), limit);
  }

  /** What a restart with a stale escape flag makes of the head mark and the first body byte. */
  function Misread(c: byte): seq<byte> {
    if c == 1 then [ESC] else if c == 2 then [MAGIC] else [MAGIC] + StuffByte(c)
  }

  lemma StaleEscape(c: byte, limit: nat)
    requires limit >= 4
    ensures var st := State(true, true, [MAGIC]);
            && Delivered(st, StuffByte(c), limit) == []
            && After(st, StuffByte(c), limit) == State(true, false, Misread(c))
  {
    var st := State(true, true, [MAGIC]);
    if Special(c) {
      RunTwo(st, ESC, StuffByte(c)[1], limit);
      assert [MAGIC] + [ESC] + [StuffByte(c)[1]] == [MAGIC] + StuffByte(c);
    } else {
      RunOne(st, c, limit);
      assert [MAGIC][0 := c] == [c];
    }
  }

  /** Where a stale escape leaves the decoder just before the tail mark of f: only the first body byte
      is misread, and everything after it is as sent. */
  lemma StaleBody(f: Frame, limit: nat)
    requires WellFormed(f, limit)
    ensures var st := State(true, true, [MAGIC]);
            var rest := f[2..|f| - 1];
            && Delivered(st, Stuff(Interior(f)), limit) == []
            && After(st, Stuff(Interior(f)), limit)
               == (if Overflows(Misread(f[1]), rest, limit) then IDLE else State(true, false, Misread(f[1]) + rest))
            && (f[1] !in {1, 2, MAGIC, ESC} ==> Misread(f[1]) + rest == f[..|f| - 1])
  {
    var x := Interior(f);
    var rest := f[2..|f| - 1];
    assert x[1..] == rest && [f[0]] + [f[1]] + rest == f[..|f| - 1];
    var st := State(true, true, [MAGIC]);
    StuffFirst(x);
    RunConcat(st, StuffByte(x[0]), Stuff(rest), limit);
    StaleEscape(x[0], limit);
    StuffedBody(Misread(f[1]), rest, limit);
  }

  /** The condition under which the first frame after arbitrary line noise is itself received. */
  predicate FirstFrameKept(st: State, f: Frame)
    requires |f| > MIN_BODY
  {
    || st == IDLE
    || (|st.buf| < MIN_BODY && (st.escaped ==> f[1] !in {1, 2, MAGIC, ESC}))
  }

  lemma AfterStaleEscape(st: State, f: Frame, limit: nat)
    requires st.Valid(limit) && WellFormed(f, limit)
    requires st.escaped && |st.buf| < MIN_BODY
    ensures Synced(After(st, Escaped(f), limit)) && |Delivered(st, Escaped(f), limit)| <= 1
    ensures Delivered(st, Escaped(f), limit) == [f] <==> f[1] !in {1, 2, MAGIC, ESC}
    ensures f[1] !in {1, 2, MAGIC, ESC} ==> After(st, Escaped(f), limit) == IDLE
  {
    Reassembled(f, limit);
    RunFrame(st, f, limit);
    StaleBody(f, limit);
    var st2 := After(State(true, true, [MAGIC]), Stuff(Interior(f)), limit);
    assert Delivered(st, Escaped(f), limit) == Emit(st2, MAGIC, limit);
    if f[1] in {1, 2, MAGIC, ESC} && Emit(st2, MAGIC, limit) != [] {
      assert |Emit(st2, MAGIC, limit)[0]| != |f|;
    }
  }

  /** Whatever the decoder was doing, one encoded frame leaves it synchronised and costs at most
      one delivery; the frame itself is received exactly under FirstFrameKept. */
  lemma OneFrameSynchronises(st: State, f: Frame, limit: nat)
    requires st.Valid(limit) && WellFormed(f, limit)
    ensures Synced(After(st, Escaped(f), limit)) && |Delivered(st, Escaped(f), limit)| <= 1
    ensures After(st, Escaped(f), limit) == IDLE && Delivered(st, Escaped(f), limit) == [f]
            <==> FirstFrameKept(st, f)
  {
    if Synced(st) {
      FrameReceived(st, f, limit);
    } else if |st.buf| < MIN_BODY && st.escaped {
      AfterStaleEscape(st, f, limit);
    } else {
      RunFrame(st, f, limit);
      if |st.buf| < MIN_BODY {
        FrameReceived(HEAD, f, limit);
        RunFrame(HEAD, f, limit);
      } else {
        StuffShape(Interior(f));
        IdleSkips(Stuff(Interior(f)), limit);
      }
    }
  }

  /** A lone mark and escape byte on the line, and the frame after them is lost whenever its checksum
      byte is 1, 2 or a framing byte. */
  lemma StaleEscapeLosesFrame(f: Frame, limit: nat)
    requires WellFormed(f, limit)
    ensures Delivered(IDLE, [MAGIC, ESC] + Escaped(f), limit) == [f] <==> f[1] !in {1, 2, MAGIC, ESC}
  {
    RunConcat(IDLE, [MAGIC, ESC], Escaped(f), limit);
    RunTwo(IDLE, MAGIC, ESC, limit);
    var st := After(IDLE, [MAGIC, ESC], limit);
    AfterStaleEscape(st, f, limit);
    ConcatEmpty(Delivered(st, Escaped(f), limit));
  }

  // ----- whole streams -----

  function EncodeAll(frames: seq<Frame>): seq<byte> {
    if frames == [] then [] else EncodeAll(frames[..|frames| - 1]) + Escaped(frames[|frames| - 1])
  }

  lemma EncodeSnoc(frames: seq<Frame>, f: Frame)
    ensures EncodeAll(frames + [f]) == EncodeAll(frames) + Escaped(f)
  {
  }

  ghost predicate AllWellFormed(frames: seq<Frame>, limit: nat) {
    forall f | f in frames :: WellFormed(f, limit)
  }

  /** Round trip: encoded frames come back unchanged, in order, with nothing else. */
  lemma {:induction false} StreamRoundTrip(st: State, frames: seq<Frame>, limit: nat)
    requires Synced(st) && st.Valid(limit) && AllWellFormed(frames, limit)
    ensures Delivered(st, EncodeAll(frames), limit) == frames
    ensures After(st, EncodeAll(frames), limit) == if frames == [] then st else IDLE
  {
    if frames != [] {
      var init, last := frames[..|frames| - 1], frames[|frames| - 1];
      SnocOfConcat([], frames);
      StreamRoundTrip(st, init, limit);
      RunConcat(st, EncodeAll(init), Escaped(last), limit);
      FrameReceived(After(st, EncodeAll(init), limit), last, limit);
    }
  }

  /** Self-synchronisation: from any decoder state and after any noise, every well-formed frame but
      possibly the first is delivered, in order, and nothing else follows. */
  lemma SelfSynchronises(st: State, noise: seq<byte>, first: Frame, rest: seq<Frame>, limit: nat)
    requires st.Valid(limit)
    requires WellFormed(first, limit) && AllWellFormed(rest, limit)
    ensures var stream := noise + Escaped(first) + EncodeAll(rest);
            var before := Delivered(st, noise, limit);
            var mid := Delivered(After(st, noise, limit), Escaped(first), limit);
            && Delivered(st, stream, limit) == before + mid + rest && |mid| <= 1
            && (rest != [] ==> After(st, stream, limit) == IDLE)
            && (FirstFrameKept(After(st, noise, limit), first) ==> mid == [first])
  {
    var st1 := After(st, noise, limit);
    OneFrameSynchronises(st1, first, limit);
    RunConcat(st, noise, Escaped(first), limit);
    RunConcat(st, noise + Escaped(first), EncodeAll(rest), limit);
    StreamRoundTrip(After(st1, Escaped(first), limit), rest, limit);
  }

  /** A stream as it arrives, one read after the other. */
  function AfterReads(st: State, chunks: seq<seq<byte>>, limit: nat): (r: State)
    requires st.Valid(limit)
    ensures r.Valid(limit)
  {
    if chunks == [] then st
    else After(AfterReads(st, chunks[..|chunks| - 1], limit), chunks[|chunks| - 1], limit)
  }

  function DeliveredByReads(st: State, chunks: seq<seq<byte>>, limit: nat): seq<Frame>
    requires st.Valid(limit)
  {
    if chunks == [] then []
    else DeliveredByReads(st, chunks[..|chunks| - 1], limit)
         + Delivered(AfterReads(st, chunks[..|chunks| - 1], limit), chunks[|chunks| - 1], limit)
  }

  lemma {:induction false} ReadBoundariesInvisible(st: State, chunks: seq<seq<byte>>, limit: nat)
    requires st.Valid(limit)
    ensures AfterReads(st, chunks, limit) == After(st, Flatten(chunks), limit)
    ensures DeliveredByReads(st, chunks, limit) == Delivered(st, Flatten(chunks), limit)
  {
    if chunks != [] {
      ReadBoundariesInvisible(st, chunks[..|chunks| - 1], limit);
      RunConcat(st, Flatten(chunks[..|chunks| - 1]), chunks[|chunks| - 1], limit);
    }
  }

  /** However a stream of frames is cut into reads, exactly those frames come out. */
  lemma SplitStreamRoundTrip(frames: seq<Frame>, chunks: seq<seq<byte>>, limit: nat)
    requires AllWellFormed(frames, limit) && Flatten(chunks) == EncodeAll(frames)
    ensures AfterReads(IDLE, chunks, limit) == IDLE
    ensures DeliveredByReads(IDLE, chunks, limit) == frames
  {
    ReadBoundariesInvisible(IDLE, chunks, limit);
    StreamRoundTrip(IDLE, frames, limit);
  }

  /** Every delivered frame respects the length bounds and ends in a mark, from any state. */
  lemma {:induction false} DeliveredShape(st: State, s: seq<byte>, limit: nat)
    requires st.Valid(limit)
    ensures forall f | f in Delivered(st, s, limit) :: 7 <= |f| <= limit && f[|f| - 1] == MAGIC
  {
    if s != [] {
      DeliveredShape(st, s[..|s| - 1], limit);
    }
  }

  // ----- the decoder as written -----

  class Deframer {
    var getHead: bool
    var gotEsc: bool
    var cnt: nat
    const msg: array<byte>
    const msgLen: nat

    ghost predicate Valid()
      reads this, msg
    {
      msgLen <= msg.Length && cnt <= msgLen && Abs().Valid(msgLen)
    }

    ghost function Abs(): State
      requires cnt <= msg.Length
      reads this, msg
    {
      State(getHead, gotEsc, msg[..cnt])
    }

    constructor (msg: array<byte>, msgLen: nat)
      requires msgLen <= msg.Length
      ensures Valid() && Abs() == IDLE && this.msg == msg && this.msgLen == msgLen
    {
      this.msg, this.msgLen := msg, msgLen;
      getHead, gotEsc, cnt := false, false, 0;
    }

    method ClearFrameFlag()
      requires Valid()
      modifies this
      ensures Valid() && Abs() == IDLE
    {
      getHead, gotEsc, cnt := false, false, 0;
    }

    /** Takes one byte; a positive result is the length of the frame now at the start of msg. */
    method Unescape(ch: byte) returns (frameLen: nat)
      requires Valid()
      modifies this, msg
      ensures Valid() && frameLen <= msgLen
      ensures Abs() == Next(old(Abs()), ch, msgLen)
      ensures Emit(old(Abs()), ch, msgLen) == if frameLen == 0 then [] else [msg[..frameLen]]
      ensures frameLen > 0 ==> cnt == 0
    {
      frameLen := 0;
      if cnt + 1 > msgLen {
        ClearFrameFlag();
        return;
      }
      if !getHead {
        if ch == MAGIC && cnt == 0 {
          msg[cnt] := MAGIC;
          cnt := cnt + 1;
          getHead := true;
        }
      } else if ch == MAGIC && cnt > 0 {
        if cnt < MIN_BODY {
          cnt := 0;
          msg[cnt] := MAGIC;
          cnt := cnt + 1;
          getHead := true;
        } else {
          msg[cnt] := MAGIC;
          cnt := cnt + 1;
          frameLen := cnt;
          assert msg[..frameLen] == old(msg[..cnt]) + [MAGIC];
          ClearFrameFlag();
        }
      } else if ch == ESC && !gotEsc {
        gotEsc := true;
        msg[cnt] := ch;
        cnt := cnt + 1;
      } else if gotEsc && ch == 2 {
        msg[cnt - 1] := MAGIC;
        gotEsc := false;
      } else if gotEsc && ch == 1 {
        msg[cnt - 1] := ESC;
        gotEsc := false;
      } else {
        msg[cnt] := ch;
        cnt := cnt + 1;
        gotEsc := false;
      }
    }
  }
}
