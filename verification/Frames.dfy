/** Whole frames: layout, additive checksum, construction, acceptance and dispatch. */
module Frames {
  import opened Bytes
  import opened Stuffing
  import opened Deframing

  const VENDOR_ID := 0x1234
  const DEVICE_BROADCAST: byte := 0x00
  const DEVICE_ADAS: byte := 0x64
  const DEVICE_DMS: byte := 0x65
  const CMD_QUERY: byte := 0x2F
  const CMD_FACTORY_RESET: byte := 0x30
  const CMD_SPEED_INFO: byte := 0x31
  const CMD_DEVICE_INFO: byte := 0x32
  const CMD_UPGRADE: byte := 0x33
  const CMD_GET_PARAM: byte := 0x34
  const CMD_SET_PARAM: byte := 0x35
  const CMD_WARNING_REPORT: byte := 0x36
  const CMD_REQ_STATUS: byte := 0x37
  const CMD_UPLOAD_STATUS: byte := 0x38
  const CMD_REQ_MM_DATA: byte := 0x50
  const CMD_UPLOAD_MM_DATA: byte := 0x51
  const CMD_SNAP_SHOT: byte := 0x52

  const HEADER_LEN := 8
  const SUM_START := 4  // offset of the vendor id, the first byte the checksum covers

  /** A build of the device answers to one id. */
  type DeviceId = d: byte | d == DEVICE_ADAS || d == DEVICE_DMS witness DEVICE_ADAS

  datatype Message = Message(serial: u16, device: byte, cmd: byte, payload: seq<byte>)

  function Checksum(f: seq<byte>): byte
    requires |f| > SUM_START
  {
    Sum(f[SUM_START..|f| - 1]) % 0x100
  }

  function Covered(m: Message): seq<byte> {
    Be16(VENDOR_ID) + [m.device, m.cmd] + m.payload
  }

  function FrameOf(m: Message): seq<byte>
  {
    [MAGIC, Sum(Covered(m)) % 0x100] + Be16(m.serial) + Covered(m) + [MAGIC]
  }

  function Parsed(f: seq<byte>): Message
    requires |f| > HEADER_LEN
  {
    Message(FromBe16(f[2], f[3]), f[6], f[7], f[HEADER_LEN..|f| - 1])
  }

  predicate ChecksumOk(f: seq<byte>)
    requires |f| > SUM_START
  {
    f[1] == Checksum(f)
  }

  /** Every built frame is well formed, passes the receiver's checksum and carries its message. */
  lemma BuiltFrameAccepted(m: Message)
    ensures var f := FrameOf(m);
            && |f| == HEADER_LEN + |m.payload| + 1
            && f[0] == MAGIC && f[|f| - 1] == MAGIC
            && ChecksumOk(f) && Parsed(f) == m
            && (f[2] as int) * 0x100 + f[3] == m.serial && f[4] == 0x12 && f[5] == 0x34
            && f[6] == m.device && f[7] == m.cmd && f[8..|f| - 1] == m.payload
  {
  }

  /** The same across the line: encoded, decoded, checked and parsed, the message is unchanged. */
  lemma MessageCrossesLine(m: Message, st: State, limit: nat)
    requires HEADER_LEN + |m.payload| + 1 <= limit && Synced(st)
    ensures var out := Delivered(st, Escaped(FrameOf(m)), limit);
            && After(st, Escaped(FrameOf(m)), limit) == IDLE
            && out == [FrameOf(m)] && ChecksumOk(out[0]) && Parsed(out[0]) == m
  {
    BuiltFrameAccepted(m);
    FrameReceived(st, FrameOf(m), limit);
  }

  /** One altered byte is noticed exactly when it is the checksum itself or lies under it, from the
      vendor id up to the tail; head, tail and serial are not protected. */
  lemma AlteredByteDetected(f: seq<byte>, i: nat, v: byte)
    requires |f| > MIN_BODY && ChecksumOk(f) && i < |f| && v != f[i]
    ensures ChecksumOk(f[i := v]) <==> !(i == 1 || SUM_START <= i < |f| - 1)
  {
    var g := f[i := v];
    var body := f[SUM_START..|f| - 1];
    if SUM_START <= i < |f| - 1 {
      assert g[SUM_START..|f| - 1] == body[i - SUM_START := v];
      SumUpdate(body, i - SUM_START, v);
    } else {
      assert g[SUM_START..|f| - 1] == body;
    }
  }

  predicate Known(cmd: byte) {
    cmd in {CMD_QUERY, CMD_FACTORY_RESET, CMD_SPEED_INFO, CMD_DEVICE_INFO, CMD_UPGRADE, CMD_GET_PARAM,
            CMD_SET_PARAM, CMD_WARNING_REPORT, CMD_REQ_STATUS, CMD_UPLOAD_STATUS, CMD_REQ_MM_DATA,
            CMD_UPLOAD_MM_DATA, CMD_SNAP_SHOT}
  }

  /** The command handler prot_parse runs on a delivered frame, if any. The code reads the command byte
      without a length test; the guard here never decides, as ShortFrameNotAddressed shows. */
  function Dispatched(f: seq<byte>, self: DeviceId): Option<byte>
    requires |f| > MIN_BODY
  {
    if !ChecksumOk(f) then None
    else if f[6] != self && f[6] != DEVICE_BROADCAST then None
    else if 7 < |f| && Known(f[7]) then Some(f[7])
    else None
  }

  /** The handler of a built message is that of its command byte, if the message is for this device or
      for all and the byte is a command the device knows; a frame that fails its checksum has none. */
  lemma DispatchExactly(m: Message, self: DeviceId)
    ensures Dispatched(FrameOf(m), self)
            == if (m.device == self || m.device == 0x00) && (0x2F <= m.cmd <= 0x38 || 0x50 <= m.cmd <= 0x52)
               then Some(m.cmd) else None
    ensures forall f: seq<byte> | |f| > MIN_BODY && !ChecksumOk(f) :: Dispatched(f, self) == None
  {
    BuiltFrameAccepted(m);
  }

  /** A delivered frame of seven bytes has its tail where the device id stands, and no device has that
      id: it is never addressed. */
  lemma ShortFrameNotAddressed(st: State, s: seq<byte>, limit: nat, self: DeviceId, f: seq<byte>)
    requires st.Valid(limit) && f in Delivered(st, s, limit) && |f| <= HEADER_LEN - 1
    ensures |f| == HEADER_LEN - 1 && f[6] == MAGIC && f[6] !in {self, DEVICE_BROADCAST}
  {
    DeliveredShape(st, s, limit);
  }

  /** No handler ever sees a frame too short to hold a header and a tail. */
  lemma {:induction false} NoHandlerOnShortFrame(st: State, s: seq<byte>, limit: nat, self: DeviceId, f: seq<byte>)
    requires st.Valid(limit) && f in Delivered(st, s, limit)
    ensures |f| > MIN_BODY && f[|f| - 1] == MAGIC
    ensures Dispatched(f, self).Some? ==> |f| >= HEADER_LEN + 1
  {
    DeliveredShape(st, s, limit);
  }

  lemma AccumulatorWraps(x: nat, b: byte)
    ensures (x % 0x1_0000_0000 + b) % 0x1_0000_0000 == (x + b) % 0x1_0000_0000
  {
  }

  lemma LowByteOfWord(x: nat)
    ensures x % 0x1_0000_0000 % 0x100 == x % 0x100
  {
  }

  lemma SumPrefix(s: seq<byte>, i: nat)
    requires i < |s|
    ensures Sum(s[..i + 1]) == Sum(s[..i]) + s[i]
  {
    assert s[..i + 1][..i] == s[..i];
  }

  /** The checksum loop: a 32-bit accumulator cut down to a byte. */
  method CalcSum(a: array<byte>, msgLen: nat) returns (sum: byte)
    requires SUM_START < msgLen <= a.Length
    ensures sum == Checksum(a[..msgLen])
  {
    ghost var s := a[SUM_START..msgLen - 1];
    assert a[..msgLen][SUM_START..msgLen - 1] == s;
    var acc: int := 0;
    var i := 0;
    while i < msgLen - 5
      invariant 0 <= i <= |s|
      invariant acc == Sum(s[..i]) % 0x1_0000_0000
    {
      SumPrefix(s, i);
      AccumulatorWraps(Sum(s[..i]), s[i]);
      acc := (acc + a[SUM_START + i]) % 0x1_0000_0000;
      i := i + 1;
    }
    assert s[..i] == s;
    LowByteOfWord(Sum(s));
    sum := acc % 0x100;
  }

  /** Everything but the checksum. */
  method WriteFields(a: array<byte>, m: Message)
    requires HEADER_LEN + 1 + |m.payload| <= a.Length
    modifies a
    ensures a[..HEADER_LEN + 1 + |m.payload|] == [MAGIC, 0] + Be16(m.serial) + Covered(m) + [MAGIC]
  {
    a[0], a[1] := MAGIC, 0;
    a[2], a[3] := m.serial / 0x100, m.serial % 0x100;
    a[4], a[5] := VENDOR_ID / 0x100, VENDOR_ID % 0x100;
    a[6], a[7] := m.device, m.cmd;
    forall i | 0 <= i < |m.payload| {
      a[HEADER_LEN + i] := m.payload[i];
    }
    a[HEADER_LEN + |m.payload|] := MAGIC;
  }

  lemma ChecksumPatched(m: Message, g: seq<byte>)
    requires g == [MAGIC, 0] + Be16(m.serial) + Covered(m) + [MAGIC]
    ensures g[1 := Checksum(g)] == FrameOf(m)
  {
  }

  /** Writes the frame of m into the front of a buffer and escapes it there. */
  method BuildMessage(a: array<byte>, m: Message) returns (len: nat)
    requires 2 * (HEADER_LEN + |m.payload| - 1) + 2 <= a.Length
    modifies a
    ensures len <= a.Length && a[..len] == Escaped(FrameOf(m))
  {
    var msgLen := HEADER_LEN + 1 + |m.payload|;
    WriteFields(a, m);
    ChecksumPatched(m, a[..msgLen]);
    ghost var g := a[..msgLen];
    var sum := CalcSum(a, msgLen);
    a[1] := sum;
    assert a[..msgLen] == g[1 := sum];
    EscapedShape(FrameOf(m));
    len := EscapeInPlace(a, msgLen);
    assert a[..len] == a[..][..len];
  }
}
