/** The receive loop: bytes in, command handlers run, replies built inside the receive buffer. */
module Receiving {
  import opened Bytes
  import opened Stuffing
  import opened Deframing
  import opened Frames
  import Serials

  /** What handling commands changes: the serial counters, the replies built in place (as escaped
      frames, in the order they are offered to the send queue), the devices whose parameters were
      reset to the factory values, and how many media requests have come. Whether the k-th media
      request is answered depends on the upload's state and the file store: hit(k). */
  datatype Station = Station(counters: Serials.Counters, outbox: seq<seq<byte>>, resets: seq<byte>, asked: nat)

  function SerialOf(f: Frame): u16
    requires |f| > MIN_BODY
  {
    FromBe16(f[2], f[3])
  }

  predicate Addressed(f: Frame, self: DeviceId)
    requires |f| > MIN_BODY
  {
    ChecksumOk(f) && (f[6] == self || f[6] == DEVICE_BROADCAST)
  }

  /** The reply written over the command, carrying its serial and command byte. */
  function ReplyTo(f: Frame, self: DeviceId): seq<byte>
    requires |f| >= HEADER_LEN
  {
    Escaped(FrameOf(Message(SerialOf(f), self, f[7], [])))
  }

  predicate RepliesInPlace(f: Frame, found: bool)
    requires |f| >= HEADER_LEN
  {
    f[7] == CMD_QUERY || f[7] == CMD_FACTORY_RESET || (f[7] == CMD_REQ_MM_DATA && found)
  }

  /** After its reply, a factory reset reads the device id back from the seventh byte of the receive
      buffer, which by then holds the escaped reply. */
  function ResetBy(f: Frame, self: DeviceId): seq<byte>
    requires |f| >= HEADER_LEN
  {
    var reply := ReplyTo(f, self);
    if f[7] == CMD_FACTORY_RESET && |reply| > 6 && reply[6] in {DEVICE_ADAS, DEVICE_DMS}
    then [reply[6]] else []
  }

  function Handle(s: Station, f: Frame, self: DeviceId, hit: nat -> bool): Station {
    if |f| <= MIN_BODY || !Addressed(f, self) then s
    else
      var counters := Serials.Apply(s.counters, Serials.RecordRecv(SerialOf(f)));
      if |f| < HEADER_LEN then s.(counters := counters)
      else
        var asked := s.asked + if f[7] == CMD_REQ_MM_DATA then 1 else 0;
        if RepliesInPlace(f, hit(s.asked))
        then Station(counters, s.outbox + [ReplyTo(f, self)], s.resets + ResetBy(f, self), asked)
        else s.(counters := counters, asked := asked)
  }

  function HandleAll(s: Station, frames: seq<Frame>, self: DeviceId, hit: nat -> bool): Station {
    if frames == [] then s
    else Handle(HandleAll(s, frames[..|frames| - 1], self, hit), frames[|frames| - 1], self, hit)
  }

  lemma HandleSnoc(s: Station, frames: seq<Frame>, f: Frame, self: DeviceId, hit: nat -> bool)
    ensures HandleAll(s, frames + [f], self, hit) == Handle(HandleAll(s, frames, self, hit), f, self, hit)
  {
  }

  lemma ResetBody(a: byte, b: byte, c: byte, fixed: seq<byte>)
    requires !Special(a) && forall i | 0 <= i < |fixed| :: !Special(fixed[i])
    ensures Stuff([a, b, c] + fixed) == Stuff([a, b, c]) + fixed
    ensures |Stuff([a, b, c])| == 3 + (if Special(b) then 1 else 0) + (if Special(c) then 1 else 0)
  {
    StuffConcat([a, b, c], fixed);
    StuffPlain(fixed);
    StuffShape([a, b, c]);
    SpecialsOfThree(a, b, c);
  }

  lemma SeventhByte(a: seq<byte>, fixed: seq<byte>, reply: seq<byte>)
    requires 3 <= |a| <= 5 && |fixed| == 4 && reply == [MAGIC] + (a + fixed) + [MAGIC]
    ensures |reply| > 6 && reply[6] == fixed[5 - |a|]
  {
  }

  lemma EmptyFrame(m: Message)
    requires m.payload == []
    ensures Escaped(FrameOf(m))
         == [MAGIC] + Stuff([Sum(Covered(m)) % 0x100] + Be16(m.serial) + Covered(m)) + [MAGIC]
  {
    var g := FrameOf(m);
    assert g[1..|g| - 1] == [Sum(Covered(m)) % 0x100] + Be16(m.serial) + Covered(m);
  }

  lemma SumOfFour(a: byte, b: byte, c: byte, d: byte)
    ensures Sum([a, b, c, d]) == a + b + c + d
  {
    var s: seq<byte> := [a, b, c, d];
    SumPrefix(s, 3);
    SumPrefix(s, 2);
    SumPrefix(s, 1);
    SumPrefix(s, 0);
    assert s[..4] == s && s[..0] == [];
  }

  lemma SerialBytes(f: Frame)
    requires |f| > MIN_BODY
    ensures Be16(SerialOf(f)) == [f[2], f[3]]
  {
  }

  lemma ResetInterior(serial: u16, self: DeviceId)
    ensures var m := Message(serial, self, CMD_FACTORY_RESET, []);
            && Covered(m) == [0x12, 0x34, self, CMD_FACTORY_RESET]
            && Sum(Covered(m)) % 0x100 == 0x76 + self
  {
    SumOfFour(0x12, 0x34, self, CMD_FACTORY_RESET);
    assert Be16(VENDOR_ID) == [0x12, 0x34];
  }

  lemma ResetReply(f: Frame, self: DeviceId)
    requires |f| >= HEADER_LEN && f[7] == CMD_FACTORY_RESET
    ensures var varying: seq<byte>, fixed: seq<byte> :=
              [0x76 + self, f[2], f[3]], [0x12, 0x34, self, CMD_FACTORY_RESET];
            ReplyTo(f, self) == [MAGIC] + Stuff(varying + fixed) + [MAGIC]
  {
    var m := Message(SerialOf(f), self, CMD_FACTORY_RESET, []);
    ResetInterior(SerialOf(f), self);
    SerialBytes(f);
    EmptyFrame(m);
    assert [0x76 + self] + Be16(m.serial) == [0x76 + self, f[2], f[3]];
  }

  lemma SpecialsOfThree(a: byte, b: byte, c: byte)
    requires !Special(a)
    ensures SpecialCount([a, b, c]) == (if Special(b) then 1 else 0) + (if Special(c) then 1 else 0)
  {
    var one: seq<byte>, two: seq<byte>, three: seq<byte> := [a], [a, b], [a, b, c];
    assert three[..2] == two && two[..1] == one && one[..0] == [];
    assert SpecialCount(one) == 0;
    assert SpecialCount(two) == if Special(b) then 1 else 0;
  }

  lemma {:induction false} StuffPlain(x: seq<byte>)
    requires forall i | 0 <= i < |x| :: !Special(x[i])
    ensures Stuff(x) == x
  {
    if x != [] {
      StuffPlain(x[..|x| - 1]);
      SnocOfConcat([], x);
      assert StuffByte(x[|x| - 1]) == [x[|x| - 1]];
    }
  }

  /** A factory reset order resets this device exactly when neither byte of its serial number needs
      stuffing; otherwise it is acknowledged and nothing is reset. */
  lemma FactoryResetTakesEffect(f: Frame, self: DeviceId)
    requires |f| >= HEADER_LEN && f[7] == CMD_FACTORY_RESET
    ensures ResetBy(f, self) == if Special(f[2]) || Special(f[3]) then [] else [self]
  {
    var sum: byte := 0x76 + self;
    var varying: seq<byte>, fixed: seq<byte> := [sum, f[2], f[3]], [0x12, 0x34, self, CMD_FACTORY_RESET];
    ResetReply(f, self);
    ResetBody(sum, f[2], f[3], fixed);
    SeventhByte(Stuff(varying), fixed, ReplyTo(f, self));
  }

  // ----- conversations -----

  function FramesOf(ms: seq<Message>): seq<Frame> {
    if ms == [] then [] else FramesOf(ms[..|ms| - 1]) + [FrameOf(ms[|ms| - 1])]
  }

  lemma FramesOfSnoc(ms: seq<Message>, m: Message)
    ensures FramesOf(ms + [m]) == FramesOf(ms) + [FrameOf(m)]
  {
  }

  predicate Fits(m: Message, limit: nat) {
    HEADER_LEN + |m.payload| + 1 <= limit
  }

  lemma {:induction false} FramesWellFormed(ms: seq<Message>, limit: nat)
    requires forall i | 0 <= i < |ms| :: Fits(ms[i], limit)
    ensures AllWellFormed(FramesOf(ms), limit)
  {
    if ms != [] {
      FramesWellFormed(ms[..|ms| - 1], limit);
      BuiltFrameAccepted(ms[|ms| - 1]);
      assert Fits(ms[|ms| - 1], limit);
    }
  }

  predicate ForUs(m: Message, self: DeviceId) {
    m.device == self || m.device == DEVICE_BROADCAST
  }

  function Asks(m: Message, self: DeviceId): nat {
    if ForUs(m, self) && m.cmd == CMD_REQ_MM_DATA then 1 else 0
  }

  /** Media requests to this device among the messages. */
  function Asked(ms: seq<Message>, self: DeviceId): nat {
    if ms == [] then 0
    else Asked(ms[..|ms| - 1], self) + Asks(ms[|ms| - 1], self)
  }

  /** What the host should hear back to one message, the media verdict given. */
  function AnswerTo(m: Message, self: DeviceId, found: bool): seq<Message> {
    if ForUs(m, self) && (m.cmd in {CMD_QUERY, CMD_FACTORY_RESET} || (m.cmd == CMD_REQ_MM_DATA && found))
    then [Message(m.serial, self, m.cmd, [])] else []
  }

  /** One empty message per query, reset and successful media request, with the command's serial. */
  function Answers(ms: seq<Message>, self: DeviceId, hit: nat -> bool, asked: nat): seq<Message> {
    if ms == [] then []
    else
      var init := ms[..|ms| - 1];
      Answers(init, self, hit, asked) + AnswerTo(ms[|ms| - 1], self, hit(asked + Asked(init, self)))
  }

  /** The resets ordered that take effect: those whose serial needs no stuffing. */
  function ResetsDone(ms: seq<Message>, self: DeviceId): seq<byte> {
    if ms == [] then []
    else ResetsDone(ms[..|ms| - 1], self) + ResetDone(ms[|ms| - 1], self)
  }

  function ResetDone(m: Message, self: DeviceId): seq<byte> {
    if ForUs(m, self) && m.cmd == CMD_FACTORY_RESET
       && !Special(m.serial / 0x100) && !Special(m.serial % 0x100)
    then [self] else []
  }

  /** Messages as they go out, each framed and escaped. */
  function Wire(ms: seq<Message>): seq<seq<byte>> {
    if ms == [] then [] else Wire(ms[..|ms| - 1]) + [Escaped(FrameOf(ms[|ms| - 1]))]
  }

  lemma WireOne(m: Message)
    ensures Wire([m]) == [Escaped(FrameOf(m))]
  {
    assert [m][..0] == [];
  }

  lemma {:induction false} WireConcat(a: seq<Message>, b: seq<Message>)
    ensures Wire(a + b) == Wire(a) + Wire(b)
  {
    if b == [] {
      ConcatEmpty(a);
      ConcatEmpty(Wire(a));
    } else {
      DropLastOfConcat(a, b);
      WireConcat(a, b[..|b| - 1]);
      ConcatAssociative(Wire(a), Wire(b[..|b| - 1]), [Escaped(FrameOf(b[|b| - 1]))]);
    }
  }

  lemma {:induction false} FlattenWire(ms: seq<Message>)
    ensures Flatten(Wire(ms)) == EncodeAll(FramesOf(ms))
  {
    if ms != [] {
      var init, f := ms[..|ms| - 1], FrameOf(ms[|ms| - 1]);
      FlattenWire(init);
      FlattenSnoc(Wire(init), Escaped(f));
      EncodeSnoc(FramesOf(init), f);
    }
  }

  lemma ReplyToMessage(m: Message, self: DeviceId)
    ensures ReplyTo(FrameOf(m), self) == Escaped(FrameOf(Message(m.serial, self, m.cmd, [])))
    ensures m.cmd == CMD_FACTORY_RESET && ForUs(m, self) ==> ResetBy(FrameOf(m), self) == ResetDone(m, self)
    ensures m.cmd != CMD_FACTORY_RESET ==> ResetBy(FrameOf(m), self) == ResetDone(m, self) == []
  {
    BuiltFrameAccepted(m);
    if m.cmd == CMD_FACTORY_RESET {
      FactoryResetTakesEffect(FrameOf(m), self);
    }
  }

  /** s' is s after these answers, effective resets and media requests. */
  predicate Responds(s: Station, s': Station, answers: seq<Message>, resets: seq<byte>, asked: nat) {
    && s'.outbox == s.outbox + Wire(answers)
    && s'.resets == s.resets + resets
    && s'.asked == s.asked + asked
  }

  lemma RespondsConcat(s: Station, s1: Station, s2: Station, answers1: seq<Message>, answers2: seq<Message>,
                       resets1: seq<byte>, resets2: seq<byte>, asked1: nat, asked2: nat)
    requires Responds(s, s1, answers1, resets1, asked1) && Responds(s1, s2, answers2, resets2, asked2)
    ensures Responds(s, s2, answers1 + answers2, resets1 + resets2, asked1 + asked2)
  {
    WireConcat(answers1, answers2);
    ConcatAssociative(s.outbox, Wire(answers1), Wire(answers2));
    ConcatAssociative(s.resets, resets1, resets2);
  }

  lemma HandledMessage(s: Station, m: Message, self: DeviceId, hit: nat -> bool)
    ensures Responds(s, Handle(s, FrameOf(m), self, hit),
                     AnswerTo(m, self, hit(s.asked)), ResetDone(m, self), Asks(m, self))
  {
    BuiltFrameAccepted(m);
    ReplyToMessage(m, self);
    ConcatEmpty(s.outbox);
    ConcatEmpty(s.resets);
    WireOne(Message(m.serial, self, m.cmd, []));
  }

  lemma HandledLast(s: Station, ms: seq<Message>, m: Message, self: DeviceId, hit: nat -> bool)
    ensures var s1 := HandleAll(s, FramesOf(ms), self, hit);
            Responds(s1, HandleAll(s, FramesOf(ms + [m]), self, hit),
                     AnswerTo(m, self, hit(s1.asked)), ResetDone(m, self), Asks(m, self))
  {
    FramesOfSnoc(ms, m);
    HandleSnoc(s, FramesOf(ms), FrameOf(m), self, hit);
    HandledMessage(HandleAll(s, FramesOf(ms), self, hit), m, self, hit);
  }

  /** The replies to any stream of commands are the answers, framed and escaped, in order; and the
      resets that took effect are those whose serial needs no stuffing. */
  lemma {:induction false} OutboxOfAnswered(s: Station, ms: seq<Message>, self: DeviceId, hit: nat -> bool)
    ensures Responds(s, HandleAll(s, FramesOf(ms), self, hit),
                     Answers(ms, self, hit, s.asked), ResetsDone(ms, self), Asked(ms, self))
  {
    if ms == [] {
      ConcatEmpty(s.outbox);
      ConcatEmpty(s.resets);
    } else {
      var init, m := ms[..|ms| - 1], ms[|ms| - 1];
      SnocOfConcat([], ms);
      OutboxOfAnswered(s, init, self, hit);
      HandledLast(s, init, m, self, hit);
      var s1, asked := HandleAll(s, FramesOf(init), self, hit), Asked(init, self);
      RespondsConcat(s, s1, HandleAll(s, FramesOf(ms), self, hit),
                     Answers(init, self, hit, s.asked), AnswerTo(m, self, hit(s.asked + asked)),
                     ResetsDone(init, self), ResetDone(m, self), asked, Asks(m, self));
    }
  }

  /** The accesses to the serial counters that a stream of commands makes: one receipt per message for
      this device, whether or not it is answered. */
  function Receipts(ms: seq<Message>, self: DeviceId): seq<Serials.Access> {
    if ms == [] then []
    else Receipts(ms[..|ms| - 1], self)
         + if ForUs(ms[|ms| - 1], self) then [Serials.RecordRecv(ms[|ms| - 1].serial)] else []
  }

  lemma HandledCounters(s: Station, m: Message, self: DeviceId, hit: nat -> bool)
    ensures Handle(s, FrameOf(m), self, hit).counters
            == if ForUs(m, self) then Serials.Apply(s.counters, Serials.RecordRecv(m.serial)) else s.counters
  {
    BuiltFrameAccepted(m);
  }

  /** After any stream of commands the counters are those of the receipts alone: replies take their
      serial from the command and use up none. */
  lemma {:induction false} CountersAfter(s: Station, ms: seq<Message>, self: DeviceId, hit: nat -> bool)
    ensures HandleAll(s, FramesOf(ms), self, hit).counters == Serials.ApplyAll(s.counters, Receipts(ms, self))
  {
    if ms != [] {
      var init, m := ms[..|ms| - 1], ms[|ms| - 1];
      CountersAfter(s, init, self, hit);
      HandleSnoc(s, FramesOf(init), FrameOf(m), self, hit);
      HandledCounters(HandleAll(s, FramesOf(init), self, hit), m, self, hit);
      if ForUs(m, self) {
        SnocParts(Receipts(init, self), Serials.RecordRecv(m.serial));
      } else {
        ConcatEmpty(Receipts(init, self));
      }
    }
  }

  lemma {:induction false} AnswersFit(ms: seq<Message>, self: DeviceId, hit: nat -> bool, asked: nat, limit: nat)
    requires limit > HEADER_LEN
    ensures forall i | 0 <= i < |Answers(ms, self, hit, asked)| :: Fits(Answers(ms, self, hit, asked)[i], limit)
  {
    if ms != [] {
      AnswersFit(ms[..|ms| - 1], self, hit, asked, limit);
    }
  }

  /** A conversation: whatever commands arrive, to whatever device, the host, decoding the joined
      replies, reads back exactly one frame per query, reset and successful media request, in order,
      each with its command's serial; and the resets that took effect are exactly those ordered with
      a serial that needs no stuffing. */
  lemma ConversationAnswered(st: State, s: Station, ms: seq<Message>, self: DeviceId,
                             hit: nat -> bool, limit: nat)
    requires Synced(st) && st.Valid(limit) && s.outbox == [] && limit > HEADER_LEN
    requires forall i | 0 <= i < |ms| :: Fits(ms[i], limit)
    ensures var after := HandleAll(s, Delivered(st, EncodeAll(FramesOf(ms)), limit), self, hit);
            && Delivered(IDLE, Flatten(after.outbox), limit) == FramesOf(Answers(ms, self, hit, s.asked))
            && after.resets == s.resets + ResetsDone(ms, self)
  {
    var answers := Answers(ms, self, hit, s.asked);
    FramesWellFormed(ms, limit);
    StreamRoundTrip(st, FramesOf(ms), limit);
    OutboxOfAnswered(s, ms, self, hit);
    ConcatEmpty(Wire(answers));
    FlattenWire(answers);
    AnswersFit(ms, self, hit, s.asked, limit);
    FramesWellFormed(answers, limit);
    StreamRoundTrip(IDLE, FramesOf(answers), limit);
  }

  // ----- the receive loop as written -----

  class Receiver {
    const deframer: Deframer
    const serials: Serials.SerialNumbers
    const self: DeviceId
    var outbox: seq<seq<byte>>
    var resets: seq<byte>
    var asked: nat

    ghost predicate Valid()
      reads this, deframer, deframer.msg
    {
      deframer.Valid() && 16 <= deframer.msg.Length
    }

    ghost function Abs(): Station
      reads this, serials
    {
      Station(serials.Abs(), outbox, resets, asked)
    }

    constructor (deframer: Deframer, self: DeviceId)
      requires deframer.Valid() && 16 <= deframer.msg.Length
      ensures Valid() && Abs() == Station(Serials.ZERO, [], [], 0)
      ensures this.deframer == deframer && this.self == self && fresh(serials)
    {
      this.deframer, this.self := deframer, self;
      serials := new Serials.SerialNumbers();
      outbox, resets, asked := [], [], 0;
    }

    method ReplyInPlace(cmd: byte, ghost f: Frame)
      requires Valid() && deframer.cnt == 0 && |f| >= HEADER_LEN
      requires cmd == f[7] && serials.recvSerialNum == SerialOf(f)
      modifies this`outbox, deframer.msg
      ensures Valid() && deframer.Abs() == old(deframer.Abs())
      ensures outbox == old(outbox) + [ReplyTo(f, self)]
      ensures |ReplyTo(f, self)| <= deframer.msg.Length
      ensures deframer.msg[..|ReplyTo(f, self)|] == ReplyTo(f, self)
    {
      var serial := serials.GetRecvNum();
      var len := BuildMessage(deframer.msg, Message(serial, self, cmd, []));
      outbox := outbox + [deframer.msg[..len]];
    }

    method FactoryReset(ghost f: Frame)
      requires Valid() && deframer.cnt == 0 && |f| >= HEADER_LEN
      requires f[7] == CMD_FACTORY_RESET && serials.recvSerialNum == SerialOf(f)
      modifies this`outbox, this`resets, deframer.msg
      ensures Valid() && deframer.Abs() == old(deframer.Abs())
      ensures outbox == old(outbox) + [ReplyTo(f, self)]
      ensures resets == old(resets) + ResetBy(f, self)
    {
      ReplyInPlace(CMD_FACTORY_RESET, f);
      EscapedShape(FrameOf(Message(SerialOf(f), self, CMD_FACTORY_RESET, [])));
      var device := deframer.msg[6];
      assert device == deframer.msg[..|ReplyTo(f, self)|][6];
      if device == DEVICE_ADAS || device == DEVICE_DMS {
        resets := resets + [device];
      }
    }

    method OnCmd(len: nat, hit: nat -> bool)
      requires Valid() && deframer.cnt == 0 && MIN_BODY < len <= deframer.msgLen
      requires deframer.msg[len - 1] == MAGIC && ChecksumOk(deframer.msg[..len])
      modifies this`outbox, this`resets, this`asked, serials, deframer.msg
      ensures Valid() && deframer.Abs() == old(deframer.Abs())
      ensures Abs() == Handle(old(Abs()), old(deframer.msg[..len]), self, hit)
    {
      var msg := deframer.msg;
      ghost var f := msg[..len];
      if msg[6] != self && msg[6] != DEVICE_BROADCAST {
        return;
      }
      serials.RecordRecvNum(FromBe16(msg[2], msg[3]));
      var cmd := msg[7];
      assert cmd == f[7];
      if cmd == CMD_QUERY {
        ReplyInPlace(cmd, f);
      } else if cmd == CMD_FACTORY_RESET {
        FactoryReset(f);
      } else if cmd == CMD_REQ_MM_DATA {
        asked := asked + 1;
        if hit(asked - 1) {
          ReplyInPlace(cmd, f);
        }
      }
    }

    method TakeByte(ch: byte, hit: nat -> bool)
      requires Valid()
      modifies this`outbox, this`resets, this`asked, serials, deframer, deframer.msg
      ensures Valid()
      ensures deframer.Abs() == Next(old(deframer.Abs()), ch, deframer.msgLen)
      ensures var got := Emit(old(deframer.Abs()), ch, deframer.msgLen);
              Abs() == if got == [] then old(Abs()) else Handle(old(Abs()), got[0], self, hit)
    {
      var frameLen := deframer.Unescape(ch);
      if frameLen > 0 {
        assert Emit(old(deframer.Abs()), ch, deframer.msgLen)[0] == deframer.msg[..frameLen];
        var sum := CalcSum(deframer.msg, frameLen);
        if sum == deframer.msg[1] {
          OnCmd(frameLen, hit);
        }
      }
    }

    lemma ParseStep(st: State, s: Station, input: seq<byte>, i: nat, limit: nat, hit: nat -> bool)
      requires st.Valid(limit) && i < |input|
      ensures var st1 := After(st, input[..i], limit);
              var handled := HandleAll(s, Delivered(st, input[..i], limit), self, hit);
              var next := Emit(st1, input[i], limit);
              && After(st, input[..i + 1], limit) == Next(st1, input[i], limit)
              && HandleAll(s, Delivered(st, input[..i + 1], limit), self, hit)
                 == if next == [] then handled else Handle(handled, next[0], self, hit)
    {
      var got, next := Delivered(st, input[..i], limit), Emit(After(st, input[..i], limit), input[i], limit);
      RunSnoc(st, input, i, limit);
      if next == [] {
        ConcatEmpty(got);
      } else {
        assert next == [next[0]];
        HandleSnoc(s, got, next[0], self, hit);
      }
    }

    /** One read. What is delivered and handled depends on the byte stream alone, although replies
        overwrite the buffer frames are assembled in. */
    method ProtParse(input: seq<byte>, hit: nat -> bool)
      requires Valid()
      modifies this`outbox, this`resets, this`asked, serials, deframer, deframer.msg
      ensures Valid()
      ensures deframer.Abs() == After(old(deframer.Abs()), input, deframer.msgLen)
      ensures Abs() == HandleAll(old(Abs()), Delivered(old(deframer.Abs()), input, deframer.msgLen), self, hit)
    {
      ghost var st, s, limit := deframer.Abs(), Abs(), deframer.msgLen;
      var i := 0;
      assert input[..0] == [];
      while i < |input|
        invariant i <= |input| && Valid()
        invariant deframer.Abs() == After(st, input[..i], limit)
        invariant Abs() == HandleAll(s, Delivered(st, input[..i], limit), self, hit)
      {
        ParseStep(st, s, input, i, limit, hit);
        TakeByte(input[i], hit);
        i := i + 1;
      }
      assert input[..i] == input;
    }
  }
}
