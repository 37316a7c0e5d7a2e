/** The parameter stores: packed records merged byte by byte, where 0xFF means "keep". */
module Params {
  import opened Bytes

  const ADAS_LEN := 50
  const DMS_LEN := 43

  datatype Kind = Adas | Dms

  function Len(kind: Kind): nat {
    if kind.Adas? then ADAS_LEN else DMS_LEN
  }

  /** The 16-bit fields: two periods, and for the DMS record two interval thresholds. */
  predicate InWord(kind: Kind, i: nat) {
    3 <= i < 7 || (kind.Dms? && 21 <= i < 25)
  }

  /** The first byte of the 16-bit field that holds byte i (they all start at odd offsets). */
  function WordStart(i: nat): nat
    requires i > 0
  {
    if i % 2 == 1 then i else i - 1
  }

  function Word(s: seq<byte>, i: nat): u16
    requires i + 1 < |s|
  {
    (s[i + 1] as int) * 0x100 + s[i]
  }

  type Record = seq<byte>

  // ----- the field-level rule -----

  /** A 16-bit field is kept on 0xFFFF, any other byte on 0xFF. */
  predicate Keeps(kind: Kind, input: Record, i: nat)
    requires |input| == Len(kind) && i < |input|
  {
    if InWord(kind, i) then Word(input, WordStart(i)) == 0xFFFF else input[i] == 0xFF
  }

  function Merged(kind: Kind, store: Record, input: Record): (r: Record)
    requires |store| == |input| == Len(kind)
    ensures |r| == Len(kind)
    ensures forall i | 0 <= i < |r| :: r[i] == if Keeps(kind, input, i) then store[i] else input[i]
  {
    seq(Len(kind), i requires 0 <= i < Len(kind) => if Keeps(kind, input, i) then store[i] else input[i])
  }

  // ----- range checks (ADAS only) -----

  datatype Range = Range(lo: byte, hi: byte, default: byte)

  const FREE := Range(0, 0xFF, 0)
  const VIDEO_TIME := Range(0, 60, 5)
  const PHOTO_NUM := Range(0, 10, 3)
  const PHOTO_PERIOD := Range(1, 10, 2)

  /** The admissible range and default of every single-byte field. */
  function Rule(i: nat): (r: Range)
    ensures r.lo <= r.default <= r.hi && r.default != 0xFF
  {
    match i
    case 0 => Range(0, 60, 30)    // warning_speed_val
    case 1 => Range(0, 8, 6)      // warning_volume
    case 2 => Range(0, 3, 0)      // auto_photo_mode
    case 7 => Range(1, 10, 3)     // photo_num
    case 8 => Range(1, 5, 2)      // photo_time_period
    case 9 => Range(1, 6, 1)      // image_Resolution
    case 10 => Range(1, 7, 1)     // video_Resolution
    case 20 => Range(10, 50, 30)  // obstacle_distance_threshold
    case 24 => Range(30, 120, 60) // FLC_time_threshold
    case 25 => Range(3, 10, 5)    // FLC_times_threshold
    case 32 => Range(10, 50, 27)  // FCW_time_threshold
    case 36 => Range(0, 50, 30)   // PCW_time_threshold
    case 40 => Range(0, 50, 30)   // HW_time_threshold
    case _ =>
      if i in {21, 26, 29, 33, 37, 41} then VIDEO_TIME
      else if i in {22, 27, 30, 34, 38, 42, 44} then PHOTO_NUM
      else if i in {23, 28, 31, 35, 39, 43, 45} then PHOTO_PERIOD
      else FREE
  }

  const TIME_PERIOD_MAX := 3600
  const TIME_PERIOD_DEFAULT := 1800
  const DISTANCE_MAX := 60000
  const DISTANCE_DEFAULT := 100

  predicate ByteOk(i: nat, b: byte) {
    Rule(i).lo <= b <= Rule(i).hi
  }

  /** All checked fields of an ADAS record are in range. */
  ghost predicate AllInRange(s: Record)
    requires |s| == ADAS_LEN
  {
    && (forall i | 0 <= i < ADAS_LEN && !InWord(Adas, i) :: ByteOk(i, s[i]))
    && Word(s, 3) <= TIME_PERIOD_MAX && Word(s, 5) <= DISTANCE_MAX
  }

  function CheckedByte(s: Record, i: nat): byte
    requires |s| == ADAS_LEN && i < |s|
  {
    if i == 3 || i == 4 then
      if Word(s, 3) <= TIME_PERIOD_MAX then s[i]
      else if i == 3 then TIME_PERIOD_DEFAULT % 0x100 else TIME_PERIOD_DEFAULT / 0x100
    else if i == 5 || i == 6 then
      if Word(s, 5) <= DISTANCE_MAX then s[i]
      else if i == 5 then DISTANCE_DEFAULT % 0x100 else DISTANCE_DEFAULT / 0x100
    else if ByteOk(i, s[i]) then s[i]
    else Rule(i).default
  }

  function Checked(s: Record): (r: Record)
    requires |s| == ADAS_LEN
    ensures |r| == ADAS_LEN && forall i | 0 <= i < ADAS_LEN :: r[i] == CheckedByte(s, i)
  {
    seq(ADAS_LEN, i requires 0 <= i < ADAS_LEN => CheckedByte(s, i))
  }

  function Written(kind: Kind, store: Record, input: Record): (r: Record)
    requires |store| == |input| == Len(kind)
    ensures |r| == Len(kind)
  {
    if kind.Adas? then Checked(Merged(kind, store, input)) else Merged(kind, store, input)
  }

  // ----- what writes achieve -----

  /** Checking repairs every record, and leaves exactly the good ones alone. */
  lemma CheckRepairs(s: Record)
    requires |s| == ADAS_LEN
    ensures AllInRange(Checked(s))
    ensures Checked(s) == s <==> AllInRange(s)
  {
  }

  /** Every ADAS write, from any state and with any input, ends with all checked fields in range. */
  lemma WriteEndsInRange(store: Record, input: Record)
    requires |store| == |input| == ADAS_LEN
    ensures AllInRange(Written(Adas, store, input))
  {
  }

  /** The photo counts an ADAS report can be built from, in every state the store can reach: zero
      before the first write, in range after it. */
  predicate PhotoCountsBounded(s: Record)
    requires |s| == ADAS_LEN
  {
    forall i | i in {7, 27, 30, 34, 38, 42} :: s[i] <= 10
  }

  const ZEROS: Record := seq(ADAS_LEN, _ => 0)

  /** The records reports are built from. */
  type AdasPara = p: Record | |p| == ADAS_LEN && PhotoCountsBounded(p) witness seq(ADAS_LEN, _ => 0)

  function AllWritten(store: Record, inputs: seq<Record>): (r: Record)
    requires |store| == ADAS_LEN && forall input | input in inputs :: |input| == ADAS_LEN
    ensures |r| == ADAS_LEN
  {
    if inputs == [] then store
    else Written(Adas, AllWritten(store, inputs[..|inputs| - 1]), inputs[|inputs| - 1])
  }

  lemma {:induction false} PhotoCountsAlwaysBounded(inputs: seq<Record>)
    requires forall input | input in inputs :: |input| == ADAS_LEN
    ensures PhotoCountsBounded(AllWritten(ZEROS, inputs))
  {
    if inputs != [] {
      var input := inputs[|inputs| - 1];
      WriteEndsInRange(AllWritten(ZEROS, inputs[..|inputs| - 1]), input);
    }
  }

  // ----- over the wire -----

  /** The other byte of the 16-bit field that holds byte i; a single byte is its own partner. */
  function Partner(kind: Kind, i: nat): (p: nat)
    ensures i < Len(kind) ==> p < Len(kind)
  {
    if !InWord(kind, i) then i else if i % 2 == 1 then i + 1 else i - 1
  }

  lemma PartnerTwice(kind: Kind, i: nat)
    ensures Partner(kind, Partner(kind, i)) == i
  {
  }

  /** 16-bit fields travel with their bytes swapped. */
  function Swapped(kind: Kind, s: Record): (r: Record)
    requires |s| == Len(kind)
    ensures |r| == Len(kind)
    ensures forall i | 0 <= i < |r| :: r[i] == s[Partner(kind, i)]
  {
    seq(Len(kind), i requires 0 <= i < Len(kind) => s[Partner(kind, i)])
  }

  lemma SwapTwice(kind: Kind, s: Record)
    requires |s| == Len(kind)
    ensures Swapped(kind, Swapped(kind, s)) == s
  {
    var r := Swapped(kind, Swapped(kind, s));
    forall i | 0 <= i < |s|
      ensures r[i] == s[i]
    {
      PartnerTwice(kind, i);
    }
  }

  function GetParamReply(kind: Kind, store: Record): Record
    requires |store| == Len(kind)
  {
    Swapped(kind, store)
  }

  /** A set-parameter command; a payload of any other length is refused and changes nothing. */
  function SetParam(kind: Kind, store: Record, payload: seq<byte>): Record
    requires |store| == Len(kind)
  {
    if |payload| != Len(kind) then store else Written(kind, store, Swapped(kind, payload))
  }

  /** A 16-bit field of a payload, high byte first. */
  function WireWord(s: Record, w: nat): u16
    requires w + 1 < |s|
  {
    FromBe16(s[w], s[w + 1])
  }

  predicate IsWord(kind: Kind, w: nat) {
    w == 3 || w == 5 || (kind.Dms? && (w == 21 || w == 23))
  }

  lemma SwappedWord(kind: Kind, s: Record, w: nat)
    requires |s| == Len(kind) && IsWord(kind, w)
    ensures Word(Swapped(kind, s), w) == WireWord(s, w) && WireWord(Swapped(kind, s), w) == Word(s, w)
  {
  }

  lemma MergedWord(kind: Kind, store: Record, input: Record, w: nat)
    requires |store| == |input| == Len(kind) && IsWord(kind, w)
    ensures Word(Merged(kind, store, input), w) == if Word(input, w) == 0xFFFF then Word(store, w) else Word(input, w)
  {
    assert WordStart(w) == WordStart(w + 1) == w;
  }

  lemma CheckedWords(s: Record)
    requires |s| == ADAS_LEN
    ensures Word(Checked(s), 3) == if Word(s, 3) <= 3600 then Word(s, 3) else 1800
    ensures Word(Checked(s), 5) == if Word(s, 5) <= 60000 then Word(s, 5) else 100
  {
  }

  /** The 16-bit fields travel high byte first: two periods at bytes 3 and 5, and for the DMS record two
      thresholds at bytes 21 and 23. 0xFFFF keeps the stored value; an ADAS period out of range becomes
      1800 seconds or 100 metres. */
  lemma WordsOnTheWire(kind: Kind, store: Record, payload: seq<byte>, w: nat)
    requires |store| == |payload| == Len(kind) && IsWord(kind, w)
    ensures var v := if WireWord(payload, w) == 0xFFFF then Word(store, w) else WireWord(payload, w);
            Word(SetParam(kind, store, payload), w)
            == if kind.Dms? then v
               else if w == 3 then if v <= 3600 then v else 1800
               else if v <= 60000 then v else 100
    ensures WireWord(GetParamReply(kind, store), w) == Word(store, w)
  {
    var input := Swapped(kind, payload);
    SwappedWord(kind, payload, w);
    SwappedWord(kind, store, w);
    MergedWord(kind, store, input, w);
    if kind.Adas? {
      CheckedWords(Merged(kind, store, input));
    }
  }

  /** 0x07, 0x08 at bytes 3 and 4 stores the period 1800. */
  lemma PeriodExample(kind: Kind, store: Record, payload: seq<byte>)
    requires |store| == |payload| == Len(kind) && payload[3] == 0x07 && payload[4] == 0x08
    ensures Word(SetParam(kind, store, payload), 3) == 1800
  {
    WordsOnTheWire(kind, store, payload, 3);
  }

  /** Every single-byte field is taken from the payload at its own place unless it is 0xFF, and a
      payload of another length changes nothing. */
  lemma BytesOnTheWire(kind: Kind, store: Record, payload: seq<byte>, i: nat)
    requires |store| == Len(kind) && i < Len(kind) && !(3 <= i < 7) && !(kind.Dms? && 21 <= i < 25)
    ensures |payload| != Len(kind) ==> SetParam(kind, store, payload) == store
    ensures |payload| == Len(kind) ==>
              var b := if payload[i] == 0xFF then store[i] else payload[i];
              var r := SetParam(kind, store, payload)[i];
              r == b || (kind.Adas? && !ByteOk(i, b) && r == DefaultByte(Adas, i))
    ensures |payload| == Len(kind) && kind.Adas? ==> ByteOk(i, SetParam(kind, store, payload)[i])
  {
  }

  /** The admissible ranges of the ADAS record, field by field. */
  lemma RangesAre(s: Record)
    requires |s| == ADAS_LEN
    ensures AllInRange(s)
            <==> && s[0] <= 60 && s[1] <= 8 && s[2] <= 3 && Word(s, 3) <= 3600 && Word(s, 5) <= 60000
                 && 1 <= s[7] <= 10 && 1 <= s[8] <= 5 && 1 <= s[9] <= 6 && 1 <= s[10] <= 7
                 && 10 <= s[20] <= 50 && s[21] <= 60 && s[22] <= 10 && 1 <= s[23] <= 10
                 && 30 <= s[24] <= 120 && 3 <= s[25] <= 10 && s[26] <= 60 && s[27] <= 10 && 1 <= s[28] <= 10
                 && s[29] <= 60 && s[30] <= 10 && 1 <= s[31] <= 10
                 && 10 <= s[32] <= 50 && s[33] <= 60 && s[34] <= 10 && 1 <= s[35] <= 10
                 && s[36] <= 50 && s[37] <= 60 && s[38] <= 10 && 1 <= s[39] <= 10
                 && s[40] <= 50 && s[41] <= 60 && s[42] <= 10 && 1 <= s[43] <= 10
                 && s[44] <= 10 && 1 <= s[45] <= 10
  {
  }

  lemma MergeSelf(kind: Kind, s: Record)
    requires |s| == Len(kind)
    ensures Merged(kind, s, s) == s
  {
  }

  /** Feeding a parameter reply back changes nothing: always for the DMS store, and for the ADAS
      store exactly when it is in range already, as it is after any write. */
  lemma GetThenSet(kind: Kind, store: Record)
    requires |store| == Len(kind)
    ensures kind.Dms? ==> SetParam(kind, store, GetParamReply(kind, store)) == store
    ensures kind.Adas? ==> (SetParam(kind, store, GetParamReply(kind, store)) == store <==> AllInRange(store))
  {
    SwapTwice(kind, store);
    MergeSelf(kind, store);
    if kind.Adas? {
      CheckRepairs(store);
    }
  }

  lemma RoundTripAfterWrite(store: Record, input: Record)
    requires |store| == |input| == ADAS_LEN
    ensures var s := Written(Adas, store, input);
            SetParam(Adas, s, GetParamReply(Adas, s)) == s
  {
    WriteEndsInRange(store, input);
    GetThenSet(Adas, Written(Adas, store, input));
  }

  /** Repeating a set-parameter command has no further effect. */
  lemma SetTwice(kind: Kind, store: Record, payload: seq<byte>)
    requires |store| == Len(kind)
    ensures var once := SetParam(kind, store, payload);
            SetParam(kind, once, payload) == once
  {
    if |payload| == Len(kind) {
      var input := Swapped(kind, payload);
      WriteTwice(kind, store, input);
    }
  }

  lemma WriteTwice(kind: Kind, store: Record, input: Record)
    requires |store| == |input| == Len(kind)
    ensures Written(kind, Written(kind, store, input), input) == Written(kind, store, input)
  {
  }

  /** The factory values, byte by byte. */
  function DefaultByte(kind: Kind, i: nat): byte {
    match i
    case 0 => 30
    case 1 => 6
    case 3 => 0x08  // 1800 s
    case 4 => 0x07
    case 5 => 100   // 100 m
    case 7 => 3
    case 8 => 2
    case 9 => 1
    case 10 => 1
    case _ =>
      if kind.Adas? then
        if i in {20, 36, 40} then 30
        else if i == 24 then 60
        else if i == 32 then 27
        else if i in {21, 25, 26, 29, 33, 37, 41} then 5
        else if i in {22, 27, 30, 34, 38, 42, 44} then 3
        else if i in {23, 28, 31, 35, 39, 43, 45} then 2
        else 0
      else
        if i == 21 then 180
        else if i == 23 then 120
        else if i in {25, 29, 32, 35, 38} then 5
        else if i in {26, 30, 33, 36, 39} then 3
        else if i in {27, 31, 34, 37, 40} then 2
        else 0
  }

  function Default(kind: Kind): (r: Record)
    ensures |r| == Len(kind) && forall i | 0 <= i < |r| :: r[i] == DefaultByte(kind, i)
  {
    seq(Len(kind), i requires 0 <= i < Len(kind) => DefaultByte(kind, i))
  }

  /** A factory reset restores every byte, whatever the store held, and its values pass the
      device's own checks. */
  lemma FactoryDefaults(kind: Kind, store: Record)
    requires |store| == Len(kind)
    ensures Written(kind, store, Default(kind)) == Default(kind)
    ensures kind.Adas? ==> AllInRange(Default(kind))
  {
  }

  /** The factory records in full: these bytes, and 0 elsewhere. */
  lemma FactoryRecords()
    ensures var r := Default(Adas);
            && (forall i | i in {2, 6, 11, 12, 13, 14, 15, 16, 17, 18, 19, 46, 47, 48, 49} :: r[i] == 0)
            && r[0] == 30 && r[1] == 6 && r[3] == 8 && r[4] == 7 && r[5] == 100 && r[7] == 3 && r[8] == 2
            && r[9] == 1 && r[10] == 1 && r[20] == 30 && r[21] == 5 && r[22] == 3 && r[23] == 2 && r[24] == 60
            && r[25] == 5 && r[26] == 5 && r[27] == 3 && r[28] == 2 && r[29] == 5 && r[30] == 3 && r[31] == 2
            && r[32] == 27 && r[33] == 5 && r[34] == 3 && r[35] == 2 && r[36] == 30 && r[37] == 5 && r[38] == 3
            && r[39] == 2 && r[40] == 30 && r[41] == 5 && r[42] == 3 && r[43] == 2 && r[44] == 3 && r[45] == 2
    ensures var r := Default(Dms);
            && (forall i | i in {2, 6, 11, 12, 13, 14, 15, 16, 17, 18, 19, 20, 22, 24, 28, 41, 42} :: r[i] == 0)
            && r[0] == 30 && r[1] == 6 && r[3] == 8 && r[4] == 7 && r[5] == 100 && r[7] == 3 && r[8] == 2
            && r[9] == 1 && r[10] == 1 && r[21] == 180 && r[23] == 120 && r[25] == 5 && r[26] == 3 && r[27] == 2
            && r[29] == 5 && r[30] == 3 && r[31] == 2 && r[32] == 5 && r[33] == 3 && r[34] == 2 && r[35] == 5
            && r[36] == 3 && r[37] == 2 && r[38] == 5 && r[39] == 3 && r[40] == 2
  {
  }

  /** A checked field is kept or set to its factory value, nothing else. */
  lemma KeptOrFactory(s: Record, i: nat)
    requires |s| == ADAS_LEN && i < ADAS_LEN
    ensures Checked(s)[i] == s[i] || Checked(s)[i] == DefaultByte(Adas, i)
  {
  }

  // ----- the store as written -----

  class ParaStore {
    const adas: array<byte>
    const dms: array<byte>

    ghost predicate Valid() {
      adas.Length == ADAS_LEN && dms.Length == DMS_LEN && adas != dms
    }

    constructor ()
      ensures Valid() && fresh(adas) && fresh(dms)
      ensures forall i | 0 <= i < ADAS_LEN :: adas[i] == 0
      ensures forall i | 0 <= i < DMS_LEN :: dms[i] == 0
    {
      adas := new byte[ADAS_LEN](_ => 0);
      dms := new byte[DMS_LEN](_ => 0);
    }

    function Bytes(kind: Kind): array<byte> {
      if kind.Adas? then adas else dms
    }

    method ReadDevPara(kind: Kind) returns (para: Record)
      requires Valid()
      ensures para == Bytes(kind)[..]
    {
      para := if kind.Adas? then adas[..] else dms[..];
    }

    method WriteWord(out: array<byte>, input: Record, w: nat)
      requires w + 1 < |input| == out.Length
      modifies out
      ensures forall j | 0 <= j < out.Length ::
                out[j] == if (j == w || j == w + 1) && Word(input, w) != 0xFFFF then input[j] else old(out[j])
    {
      if Word(input, w) != 0xFFFF {
        out[w], out[w + 1] := input[w], input[w + 1];
      }
    }

    /** The byte loop, which jumps over the 16-bit fields. */
    method MergeBytes(kind: Kind, out: array<byte>, input: Record)
      requires |input| == out.Length == Len(kind)
      modifies out
      ensures forall j | 0 <= j < out.Length ::
                out[j] == if InWord(kind, j) || input[j] == 0xFF then old(out[j]) else input[j]
    {
      var i := 0;
      while i < Len(kind)
        invariant 0 <= i <= Len(kind)
        invariant InWord(kind, i) ==> i == 3 || i == 21
        invariant forall j | 0 <= j < out.Length ::
                    out[j] == if j >= i || InWord(kind, j) || input[j] == 0xFF then old(out[j]) else input[j]
      {
        if i == 3 {
          i := i + 4;
        }
        if kind.Dms? && i == 21 {
          i := i + 4;
        }
        if input[i] != 0xFF {
          out[i] := input[i];
        }
        i := i + 1;
      }
    }

    /** The range checks, field after field in record order. */
    method AdasParaCheck()
      requires Valid()
      modifies adas
      ensures adas[..] == Checked(old(adas[..]))
    {
      ghost var w := adas[..];
      var i := 0;
      while i < ADAS_LEN
        invariant 0 <= i <= ADAS_LEN && i != 4 && i != 6
        invariant forall j | 0 <= j < ADAS_LEN :: adas[j] == if j < i then CheckedByte(w, j) else w[j]
      {
        if i == 3 {
          if (adas[4] as int) * 0x100 + adas[3] > TIME_PERIOD_MAX {
            adas[3], adas[4] := TIME_PERIOD_DEFAULT % 0x100, TIME_PERIOD_DEFAULT / 0x100;
          }
          i := i + 2;
        } else if i == 5 {
          if (adas[6] as int) * 0x100 + adas[5] > DISTANCE_MAX {
            adas[5], adas[6] := DISTANCE_DEFAULT % 0x100, DISTANCE_DEFAULT / 0x100;
          }
          i := i + 2;
        } else {
          if adas[i] < Rule(i).lo || adas[i] > Rule(i).hi {
            adas[i] := Rule(i).default;
          }
          i := i + 1;
        }
      }
    }

    /** The 16-bit fields, each written unless it is 0xFFFF. */
    method WriteWords(kind: Kind, out: array<byte>, input: Record)
      requires |input| == out.Length == Len(kind)
      modifies out
      ensures forall j | 0 <= j < out.Length ::
                out[j] == if InWord(kind, j) && !Keeps(kind, input, j) then input[j] else old(out[j])
    {
      WriteWord(out, input, 3);
      WriteWord(out, input, 5);
      if kind.Dms? {
        WriteWord(out, input, 21);
        WriteWord(out, input, 23);
      }
      forall j | 0 <= j < out.Length && InWord(kind, j)
        ensures WordStart(j) in {3, 5, 21, 23}
      {
      }
    }

    method MergeInto(kind: Kind, out: array<byte>, input: Record)
      requires |input| == out.Length == Len(kind)
      modifies out
      ensures out[..] == Merged(kind, old(out[..]), input)
    {
      WriteWords(kind, out, input);
      MergeBytes(kind, out, input);
    }

    /** The byte loop with its jumps implements the field-level rule, and an ADAS write ends with
        the range checks; the other store is not touched. */
    method WriteDevPara(kind: Kind, input: Record)
      requires Valid() && |input| == Len(kind)
      modifies Bytes(kind)
      ensures Bytes(kind)[..] == Written(kind, old(Bytes(kind)[..]), input)
    {
      MergeInto(kind, Bytes(kind), input);
      if kind.Adas? {
        AdasParaCheck();
      }
    }
  }
}
