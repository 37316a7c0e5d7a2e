/** Reception of an upgrade image in numbered packets, with a 32-bit byte sum as check. */
module Upgrade {
  import opened Bytes

  const WORD := 0x1_0000_0000

  /** The function's static variables and the image file; a removed file reads as empty. */
  datatype State = State(sum: u32, sumNew: u32, offset: u32, file: seq<byte>)

  const FRESH := State(0, 0, 0, [])

  /** Of the transfer packets number 0 announces the byte sum and the others carry data. Clean removes
      the file, Run ends the process, and every other message id changes nothing. */
  datatype Packet =
    | Announce(sum: u32)
    | Data(count: u16, index: u16, data: seq<byte>)
    | Clean
    | Run
    | Other(known: bool)

  function Zeros(n: nat): (z: seq<byte>)
    ensures |z| == n
  {
    seq(n, _ => 0)
  }

  /** write() at a position: what lies before is kept, a gap is filled with zero bytes, and writing
      nothing leaves the file as it is. */
  function WriteAt(file: seq<byte>, pos: nat, data: seq<byte>): seq<byte> {
    if data == [] then file
    else if pos >= |file| then file + Zeros(pos - |file|) + data
    else file[..pos] + data + if pos + |data| < |file| then file[pos + |data|..] else []
  }

  /** 32-bit wrap-around. */
  function Wrap(x: nat): u32 {
    x % WORD
  }

  lemma WrapAdd(x: nat, b: nat)
    ensures Wrap(Wrap(x) + b) == Wrap(x + b)
  {
  }

  lemma WrapSmall(x: u32)
    ensures Wrap(x) == x
  {
  }

  lemma ShiftedSum(a: u32, x: nat)
    ensures Wrap(a + x) == Wrap(x) <==> a == 0
  {
  }

  /** Run exits; the next packet meets a new process, and the file is still there. */
  function Receive(s: State, p: Packet): State {
    match p
    case Announce(sum) => s.(sum := sum, file := [])
    case Data(_, _, data) =>
      State(s.sum, Wrap(s.sumNew + Sum(data)), Wrap(s.offset + |data|), WriteAt(s.file, s.offset, data))
    case Clean => s.(file := [])
    case Run => FRESH.(file := s.file)
    case Other(_) => s
  }

  predicate IsLast(p: Packet) {
    p.Data? && p.index + 1 == p.count
  }

  /** Whether the packet completes an image that passes the check and is installed. */
  predicate Installs(s: State, p: Packet) {
    IsLast(p) && Receive(s, p).sumNew == s.sum
  }

  function ReceiveAll(s: State, run: seq<Packet>): State {
    if run == [] then s else Receive(ReceiveAll(s, run[..|run| - 1]), run[|run| - 1])
  }

  predicate EndsInLast(run: seq<Packet>) {
    run != [] && IsLast(run[|run| - 1])
  }

  /** Whether a run ends in a packet that installs what was received. */
  predicate EndInstalls(s: State, run: seq<Packet>) {
    EndsInLast(run) && ReceiveAll(s, run).sumNew == ReceiveAll(s, run).sum
  }

  lemma EndInstallsMeans(s: State, run: seq<Packet>)
    requires run != []
    ensures EndInstalls(s, run) <==> Installs(ReceiveAll(s, run[..|run| - 1]), run[|run| - 1])
  {
  }

  lemma {:induction false} ReceiveConcat(s: State, a: seq<Packet>, b: seq<Packet>)
    ensures ReceiveAll(s, a + b) == ReceiveAll(ReceiveAll(s, a), b)
  {
    if b == [] {
      ConcatEmpty(a);
    } else {
      DropLastOfConcat(a, b);
      ReceiveConcat(s, a, b[..|b| - 1]);
    }
  }

  lemma ReceiveOne(s: State, p: Packet)
    ensures ReceiveAll(s, [p]) == Receive(s, p)
  {
    assert [p][..0] == [];
  }

  lemma ReceiveFirst(s: State, p: Packet, rest: seq<Packet>)
    ensures ReceiveAll(s, [p] + rest) == ReceiveAll(Receive(s, p), rest)
  {
    ReceiveConcat(s, [p], rest);
    ReceiveOne(s, p);
  }

  // ----- the parts of an image -----

  /** Data packets carrying the parts in order, numbered after the first ones. */
  function Parts(parts: seq<seq<byte>>, first: nat, count: u16): seq<Packet>
    requires first + |parts| < 0x1_0000
  {
    if parts == [] then []
    else Parts(parts[..|parts| - 1], first, count) + [Data(count, first + |parts|, parts[|parts| - 1])]
  }

  lemma PartsEnd(parts: seq<seq<byte>>, first: nat, count: u16)
    requires parts != [] && first + |parts| < 0x1_0000
    ensures var run := Parts(parts, first, count);
            run != [] && run[|run| - 1] == Data(count, first + |parts|, parts[|parts| - 1])
  {
  }

  lemma PartsSnoc(s: State, parts: seq<seq<byte>>, first: nat, count: u16)
    requires parts != [] && first + |parts| < 0x1_0000
    ensures var s1 := ReceiveAll(s, Parts(parts[..|parts| - 1], first, count));
            ReceiveAll(s, Parts(parts, first, count)) == Receive(s1, Data(count, first + |parts|, parts[|parts| - 1]))
  {
    var init, p := Parts(parts[..|parts| - 1], first, count), Data(count, first + |parts|, parts[|parts| - 1]);
    SnocParts(init, p);
  }

  lemma FlattenLast(parts: seq<seq<byte>>)
    requires parts != []
    ensures Flatten(parts) == Flatten(parts[..|parts| - 1]) + parts[|parts| - 1]
  {
  }

  /** s' is s after these data bytes, the file aside. */
  predicate Counted(s: State, s': State, data: seq<byte>) {
    s'.sum == s.sum && s'.sumNew == Wrap(s.sumNew + Sum(data)) && s'.offset == Wrap(s.offset + |data|)
  }

  lemma CountedMore(s: State, s1: State, s2: State, a: seq<byte>, b: seq<byte>)
    requires Counted(s, s1, a) && Counted(s1, s2, b)
    ensures Counted(s, s2, a + b)
  {
    SumConcat(a, b);
    WrapAdd(s.sumNew + Sum(a), Sum(b));
    WrapAdd(s.offset + |a|, |b|);
  }

  lemma DataCounted(s: State, count: u16, index: u16, data: seq<byte>)
    ensures Counted(s, Receive(s, Data(count, index, data)), data)
  {
  }

  lemma {:induction false} PartsCounted(s: State, parts: seq<seq<byte>>, first: nat, count: u16)
    requires first + |parts| < 0x1_0000
    ensures Counted(s, ReceiveAll(s, Parts(parts, first, count)), Flatten(parts))
  {
    if parts == [] {
      WrapSmall(s.sumNew);
      WrapSmall(s.offset);
    } else {
      var init, last := parts[..|parts| - 1], parts[|parts| - 1];
      var s1, s2 := ReceiveAll(s, Parts(init, first, count)), ReceiveAll(s, Parts(parts, first, count));
      PartsCounted(s, init, first, count);
      PartsSnoc(s, parts, first, count);
      DataCounted(s1, count, first + |parts|, last);
      CountedMore(s, s1, s2, Flatten(init), last);
      FlattenLast(parts);
    }
  }

  /** What data written from an offset on leaves in an empty file. */
  function Placed(offset: nat, data: seq<byte>): seq<byte> {
    if data == [] then [] else Zeros(offset) + data
  }

  lemma PlacedMore(offset: nat, data: seq<byte>, more: seq<byte>)
    ensures WriteAt(Placed(offset, data), offset + |data|, more) == Placed(offset, data + more)
  {
    if more == [] {
      ConcatEmpty(data);
    } else {
      ConcatAssociative(Zeros(offset), data, more);
      ConcatEmpty(more);
      ConcatEmpty(Zeros(offset) + data);
    }
  }

  lemma PlacedByData(s: State, offset: nat, data: seq<byte>, count: u16, index: u16, more: seq<byte>)
    requires s.file == Placed(offset, data) && s.offset == offset + |data|
    ensures Receive(s, Data(count, index, more)).file == Placed(offset, data + more)
  {
    PlacedMore(offset, data, more);
  }

  lemma PartsOffset(s: State, parts: seq<seq<byte>>, first: nat, count: u16)
    requires first + |parts| < 0x1_0000 && s.offset + |Flatten(parts)| < WORD
    ensures ReceiveAll(s, Parts(parts, first, count)).offset == s.offset + |Flatten(parts)|
  {
    PartsCounted(s, parts, first, count);
    WrapSmall(s.offset + |Flatten(parts)|);
  }

  /** Parts written into an empty file land, in order, behind as many zeros as bytes came before. */
  lemma {:induction false} PartsFile(s: State, parts: seq<seq<byte>>, first: nat, count: u16)
    requires first + |parts| < 0x1_0000 && s.file == [] && s.offset + |Flatten(parts)| < WORD
    ensures ReceiveAll(s, Parts(parts, first, count)).file == Placed(s.offset, Flatten(parts))
  {
    if parts != [] {
      var init, last := parts[..|parts| - 1], parts[|parts| - 1];
      FlattenLast(parts);
      PartsFile(s, init, first, count);
      PartsOffset(s, init, first, count);
      PartsSnoc(s, parts, first, count);
      var s1 := ReceiveAll(s, Parts(init, first, count));
      PlacedByData(s1, s.offset, Flatten(init), count, first + |parts|, last);
    }
  }

  // ----- a session -----

  /** The announcement, then the parts of the image in order. */
  function Session(sum: u32, parts: seq<seq<byte>>): seq<Packet>
    requires |parts| < 0xFFFF
  {
    [Announce(sum)] + Parts(parts, 0, |parts| + 1)
  }

  /** The state the parts meet after the announcement. */
  lemma Announced(s: State, sum: u32, parts: seq<seq<byte>>) returns (s1: State)
    requires |parts| < 0xFFFF
    ensures s1 == State(sum, s.sumNew, s.offset, [])
    ensures ReceiveAll(s, Session(sum, parts)) == ReceiveAll(s1, Parts(parts, 0, |parts| + 1))
  {
    s1 := Receive(s, Announce(sum));
    ReceiveFirst(s, Announce(sum), Parts(parts, 0, |parts| + 1));
  }

  /** The image lands behind the bytes of earlier sessions, which read as zeros. */
  lemma SessionFile(s: State, sum: u32, parts: seq<seq<byte>>)
    requires |parts| < 0xFFFF && s.offset + |Flatten(parts)| < WORD
    ensures ReceiveAll(s, Session(sum, parts)).file == Placed(s.offset, Flatten(parts))
  {
    var s1 := Announced(s, sum, parts);
    PartsFile(s1, parts, 0, |parts| + 1);
  }

  lemma {:induction false} PartAt(parts: seq<seq<byte>>, first: nat, count: u16, k: nat)
    requires first + |parts| < 0x1_0000
    ensures |Parts(parts, first, count)| == |parts|
    ensures k < |parts| ==> Parts(parts, first, count)[k] == Data(count, first + k + 1, parts[k])
  {
    if parts != [] {
      PartAt(parts[..|parts| - 1], first, count, k);
    }
  }

  /** Only the last packet of a session decides on the image: no earlier one can install it or be
      answered with a refusal. */
  lemma OnlyLastDecides(sum: u32, parts: seq<seq<byte>>, k: nat)
    requires |parts| < 0xFFFF && k <= |parts|
    ensures var run := Session(sum, parts);
            && |run| == |parts| + 1 && run[0] == Announce(sum)
            && (k > 0 ==> run[k] == Data(|parts| + 1, k, parts[k - 1]))
            && (IsLast(run[k]) <==> k > 0 && k == |parts|)
  {
    if k > 0 {
      PartAt(parts, 0, |parts| + 1, k - 1);
    } else {
      PartAt(parts, 0, |parts| + 1, 0);
    }
  }

  /** An image sent in order with its true byte sum. */
  predicate Honest(sum: u32, parts: seq<seq<byte>>) {
    sum == Wrap(Sum(Flatten(parts)))
  }

  lemma SessionEnd(sum: u32, parts: seq<seq<byte>>)
    requires 0 < |parts| < 0xFFFF
    ensures EndsInLast(Session(sum, parts))
  {
    PartsEnd(parts, 0, |parts| + 1);
  }

  lemma SessionTotals(s: State, sum: u32, parts: seq<seq<byte>>)
    requires |parts| < 0xFFFF
    ensures var s' := ReceiveAll(s, Session(sum, parts));
            s'.sum == sum && s'.sumNew == Wrap(s.sumNew + Sum(Flatten(parts)))
    ensures parts != [] ==> EndsInLast(Session(sum, parts))
  {
    if parts != [] {
      SessionEnd(sum, parts);
    }
    var s1 := Announced(s, sum, parts);
    PartsCounted(s1, parts, 0, |parts| + 1);
  }

  lemma ZerosAhead(n: nat, s: seq<byte>)
    ensures Zeros(n) + s == s <==> n == 0
  {
  }

  /** The image is rebuilt exactly when the write offset was zero or the image is empty. */
  lemma RebuiltAtZero(s: State, sum: u32, parts: seq<seq<byte>>)
    requires |parts| < 0xFFFF && s.offset + |Flatten(parts)| < WORD
    ensures ReceiveAll(s, Session(sum, parts)).file == Flatten(parts) <==> s.offset == 0 || Flatten(parts) == []
  {
    SessionFile(s, sum, parts);
    ZerosAhead(s.offset, Flatten(parts));
  }

  /** An honest image is installed exactly when the running sum was zero. */
  lemma InstalledAtZero(s: State, sum: u32, parts: seq<seq<byte>>)
    requires 0 < |parts| < 0xFFFF && Honest(sum, parts)
    ensures EndInstalls(s, Session(sum, parts)) <==> s.sumNew == 0
  {
    SessionTotals(s, sum, parts);
    ShiftedSum(s.sumNew, Sum(Flatten(parts)));
  }

  /** An image that was never announced is checked against zero. */
  lemma UnannouncedImage(count: u16, index: u16, data: seq<byte>)
    requires index + 1 == count
    ensures EndInstalls(FRESH, [Data(count, index, data)]) <==> Wrap(Sum(data)) == 0
  {
    ReceiveOne(FRESH, Data(count, index, data));
  }

  /** A run command starts a new process, which finds the image file as it was left. */
  lemma RunStartsAnew(before: seq<Packet>)
    ensures ReceiveAll(FRESH, before + [Run]) == FRESH.(file := ReceiveAll(FRESH, before).file)
  {
    SnocParts(before, Run);
  }

  /** The first session of a process rebuilds the image exactly. */
  lemma FirstSessionRebuilds(sum: u32, parts: seq<seq<byte>>)
    requires |parts| < 0xFFFF && |Flatten(parts)| < WORD
    ensures ReceiveAll(FRESH, Session(sum, parts)).file == Flatten(parts)
  {
    RebuiltAtZero(FRESH, sum, parts);
  }

  /** Its last packet installs it if and only if the announced sum is the image's. */
  lemma FirstSessionInstalls(sum: u32, parts: seq<seq<byte>>)
    requires 0 < |parts| < 0xFFFF
    ensures EndInstalls(FRESH, Session(sum, parts)) <==> Honest(sum, parts)
  {
    SessionTotals(FRESH, sum, parts);
  }

  // ----- a session cleaned in the middle -----

  function CleanedSession(sum: u32, parts: seq<seq<byte>>, rest: seq<seq<byte>>): seq<Packet>
    requires |parts| + |rest| < 0xFFFF
  {
    var count := |parts| + |rest| + 1;
    [Announce(sum)] + Parts(parts, 0, count) + [Clean] + Parts(rest, |parts|, count)
  }

  lemma CleanThen(s: State, head: seq<Packet>, tail: seq<Packet>, s2: State)
    requires ReceiveAll(s, head) == s2
    ensures ReceiveAll(s, head + [Clean] + tail) == ReceiveAll(s2.(file := []), tail)
  {
    ReceiveConcat(s, head + [Clean], tail);
    ReceiveConcat(s, head, [Clean]);
    ReceiveOne(s2, Clean);
  }

  /** The state left by the clean command. */
  lemma CleanedSteps(sum: u32, parts: seq<seq<byte>>, rest: seq<seq<byte>>) returns (mid: State)
    requires |parts| + |rest| < 0xFFFF
    ensures var count := |parts| + |rest| + 1;
            && mid == ReceiveAll(State(sum, 0, 0, []), Parts(parts, 0, count)).(file := [])
            && ReceiveAll(FRESH, CleanedSession(sum, parts, rest)) == ReceiveAll(mid, Parts(rest, |parts|, count))
  {
    var count := |parts| + |rest| + 1;
    var head := [Announce(sum)] + Parts(parts, 0, count);
    ReceiveFirst(FRESH, Announce(sum), Parts(parts, 0, count));
    var s2 := ReceiveAll(Receive(FRESH, Announce(sum)), Parts(parts, 0, count));
    mid := s2.(file := []);
    CleanThen(FRESH, head, Parts(rest, |parts|, count), s2);
  }

  lemma CleanedEnd(sum: u32, parts: seq<seq<byte>>, rest: seq<seq<byte>>)
    requires |parts| + |rest| < 0xFFFF && rest != []
    ensures EndsInLast(CleanedSession(sum, parts, rest))
  {
    PartsEnd(rest, |parts|, |parts| + |rest| + 1);
  }

  lemma CleanedTotals(sum: u32, parts: seq<seq<byte>>, rest: seq<seq<byte>>)
    requires |parts| + |rest| < 0xFFFF && rest != []
    ensures var s' := ReceiveAll(FRESH, CleanedSession(sum, parts, rest));
            s'.sum == sum && s'.sumNew == Wrap(Sum(Flatten(parts) + Flatten(rest)))
    ensures EndsInLast(CleanedSession(sum, parts, rest))
  {
    CleanedEnd(sum, parts, rest);
    var mid := CleanedSteps(sum, parts, rest);
    var s1, s' := State(sum, 0, 0, []), ReceiveAll(FRESH, CleanedSession(sum, parts, rest));
    PartsCounted(s1, parts, 0, |parts| + |rest| + 1);
    PartsCounted(mid, rest, |parts|, |parts| + |rest| + 1);
    CountedMore(s1, mid, s', Flatten(parts), Flatten(rest));
  }

  lemma PlacedIs(a: seq<byte>, b: seq<byte>)
    ensures Placed(|a|, b) == a + b <==> if b == [] then a == [] else a == Zeros(|a|)
  {
    if b == [] {
      ConcatEmpty(a);
    } else if Zeros(|a|) + b == a + b {
      assert a == (a + b)[..|a|] == (Zeros(|a|) + b)[..|a|] == Zeros(|a|);
    }
  }

  lemma CleanedFile(sum: u32, parts: seq<seq<byte>>, rest: seq<seq<byte>>)
    requires |parts| + |rest| < 0xFFFF && |Flatten(parts)| + |Flatten(rest)| < WORD
    ensures ReceiveAll(FRESH, CleanedSession(sum, parts, rest)).file == Placed(|Flatten(parts)|, Flatten(rest))
  {
    var mid := CleanedSteps(sum, parts, rest);
    PartsOffset(State(sum, 0, 0, []), parts, 0, |parts| + |rest| + 1);
    PartsFile(mid, rest, |parts|, |parts| + |rest| + 1);
  }

  /** A clean command within a session removes what was written, but resets neither sum nor offset: the
      check passes if and only if the announced sum is that of the whole image, yet the file is the
      image if and only if the part lost was all zeros (or, with nothing after it, empty). */
  lemma CleanedSessionInstalls(sum: u32, parts: seq<seq<byte>>, rest: seq<seq<byte>>)
    requires |parts| + |rest| < 0xFFFF && rest != [] && |Flatten(parts)| + |Flatten(rest)| < WORD
    ensures var run, a, b := CleanedSession(sum, parts, rest), Flatten(parts), Flatten(rest);
            && (EndInstalls(FRESH, run) <==> sum == Wrap(Sum(a + b)))
            && (ReceiveAll(FRESH, run).file == a + b <==> if b == [] then a == [] else a == Zeros(|a|))
  {
    CleanedTotals(sum, parts, rest);
    CleanedFile(sum, parts, rest);
    PlacedIs(Flatten(parts), Flatten(rest));
  }

  // ----- later sessions -----

  /** All data bytes since the process was started, sessions complete or not. */
  function DataOf(run: seq<Packet>): seq<byte> {
    if run == [] || run[|run| - 1].Run? then []
    else DataOf(run[..|run| - 1]) + if run[|run| - 1].Data? then run[|run| - 1].data else []
  }

  lemma TotalsStep(s: State, got: seq<byte>, p: Packet)
    requires s.sumNew == Wrap(Sum(got)) && s.offset == Wrap(|got|)
    ensures var s' := Receive(s, p);
            var got' := if p.Run? then [] else got + if p.Data? then p.data else [];
            s'.sumNew == Wrap(Sum(got')) && s'.offset == Wrap(|got'|)
  {
    if p.Data? {
      SumConcat(got, p.data);
      WrapAdd(Sum(got), Sum(p.data));
      WrapAdd(|got|, |p.data|);
    } else {
      ConcatEmpty(got);
    }
  }

  /** Sum and offset run on over everything received since the process started. */
  lemma {:induction false} TotalsRunOn(run: seq<Packet>)
    ensures var s := ReceiveAll(FRESH, run);
            s.sumNew == Wrap(Sum(DataOf(run))) && s.offset == Wrap(|DataOf(run)|)
  {
    if run != [] {
      var init := run[..|run| - 1];
      TotalsRunOn(init);
      TotalsStep(ReceiveAll(FRESH, init), DataOf(init), run[|run| - 1]);
    }
  }

  lemma {:induction false} DataOfParts(before: seq<Packet>, parts: seq<seq<byte>>, first: nat, count: u16)
    requires first + |parts| < 0x1_0000
    ensures DataOf(before + Parts(parts, first, count)) == DataOf(before) + Flatten(parts)
  {
    if parts == [] {
      ConcatEmpty(before);
      ConcatEmpty(DataOf(before));
    } else {
      var init, last := parts[..|parts| - 1], parts[|parts| - 1];
      DataOfParts(before, init, first, count);
      DropLastOfConcat(before, Parts(parts, first, count));
      SnocParts(Parts(init, first, count), Data(count, first + |parts|, last));
      ConcatAssociative(DataOf(before), Flatten(init), last);
    }
  }

  lemma DataOfSession(sum: u32, parts: seq<seq<byte>>)
    requires |parts| < 0xFFFF
    ensures DataOf(Session(sum, parts)) == Flatten(parts)
  {
    DataOfParts([Announce(sum)], parts, 0, |parts| + 1);
    assert DataOf([Announce(sum)]) == DataOf([]) + [] == [];
    ConcatEmpty(Flatten(parts));
  }

  /** After any packets at all, a session rebuilds its image if and only if the image is empty or the
      bytes received before it number zero (modulo the 32-bit offset). */
  lemma SessionRebuilds(before: seq<Packet>, sum: u32, parts: seq<seq<byte>>)
    requires |parts| < 0xFFFF && Wrap(|DataOf(before)|) + |Flatten(parts)| < WORD
    ensures ReceiveAll(ReceiveAll(FRESH, before), Session(sum, parts)).file == Flatten(parts)
            <==> Wrap(|DataOf(before)|) == 0 || Flatten(parts) == []
  {
    TotalsRunOn(before);
    RebuiltAtZero(ReceiveAll(FRESH, before), sum, parts);
  }

  /** An honest session is installed if and only if all bytes received before it sum to zero (modulo
      the 32-bit sum). */
  lemma HonestSessionInstalls(before: seq<Packet>, sum: u32, parts: seq<seq<byte>>)
    requires 0 < |parts| < 0xFFFF && Honest(sum, parts)
    ensures EndInstalls(ReceiveAll(FRESH, before), Session(sum, parts)) <==> Wrap(Sum(DataOf(before))) == 0
  {
    TotalsRunOn(before);
    InstalledAtZero(ReceiveAll(FRESH, before), sum, parts);
  }

  /** So after one honest session, an honest second one is refused unless the first image's bytes sum
      to zero, and does not leave its image in the file unless one of the two is empty. */
  lemma SecondSession(sum1: u32, parts1: seq<seq<byte>>, sum: u32, parts: seq<seq<byte>>)
    requires |parts1| < 0xFFFF && Honest(sum1, parts1)
    requires 0 < |parts| < 0xFFFF && Honest(sum, parts) && |Flatten(parts1)| + |Flatten(parts)| < WORD
    ensures var s := ReceiveAll(FRESH, Session(sum1, parts1));
            && (EndInstalls(s, Session(sum, parts)) <==> sum1 == 0)
            && (ReceiveAll(s, Session(sum, parts)).file == Flatten(parts)
                <==> Flatten(parts1) == [] || Flatten(parts) == [])
  {
    var first := Session(sum1, parts1);
    DataOfSession(sum1, parts1);
    WrapSmall(|Flatten(parts1)|);
    HonestSessionInstalls(first, sum, parts);
    SessionRebuilds(first, sum, parts);
  }

  lemma SessionOffset(s: State, sum: u32, parts: seq<seq<byte>>)
    requires |parts| < 0xFFFF && s.offset + |Flatten(parts)| < WORD
    ensures ReceiveAll(s, Session(sum, parts)).offset == s.offset + |Flatten(parts)|
  {
    var s1 := Announced(s, sum, parts);
    PartsOffset(s1, parts, 0, |parts| + 1);
  }

  lemma SecondFile(sum1: u32, parts1: seq<seq<byte>>, sum: u32, parts: seq<seq<byte>>)
    requires |parts1| < 0xFFFF && |parts| < 0xFFFF && |Flatten(parts1)| + |Flatten(parts)| < WORD
    ensures ReceiveAll(ReceiveAll(FRESH, Session(sum1, parts1)), Session(sum, parts)).file
            == Placed(|Flatten(parts1)|, Flatten(parts))
  {
    SessionOffset(FRESH, sum1, parts1);
    SessionFile(ReceiveAll(FRESH, Session(sum1, parts1)), sum, parts);
  }

  lemma OneByteImage()
    ensures Flatten([[1]]) == [1] && Honest(1, [[1]]) && Placed(1, [1]) == [0, 1]
  {
    assert Flatten([[1]]) == Flatten([]) + [1];
    assert Sum([1]) == Sum([]) + 1;
  }

  /** The same one-byte image sent twice: refused the second time, behind a zero byte in the file. */
  lemma RepeatedImageRefused()
    ensures var s := ReceiveAll(FRESH, Session(1, [[1]]));
            && EndInstalls(FRESH, Session(1, [[1]])) && !EndInstalls(s, Session(1, [[1]]))
            && ReceiveAll(s, Session(1, [[1]])).file == [0, 1]
  {
    var image := [[1]];
    OneByteImage();
    FirstSessionInstalls(1, image);
    SecondSession(1, image, 1, image);
    SecondFile(1, image, 1, image);
  }

  // ----- the receiver as written -----

  /** get_sum */
  method GetSum(data: seq<byte>) returns (sum: u32)
    ensures sum == Wrap(Sum(data))
  {
    sum := 0;
    var i := 0;
    while i < |data|
      invariant 0 <= i <= |data| && sum == Wrap(Sum(data[..i]))
    {
      assert data[..i + 1][..i] == data[..i];
      WrapAdd(Sum(data[..i]), data[i]);
      sum := (sum + data[i]) % WORD;
      i := i + 1;
    }
    assert data[..i] == data;
  }

  class UpgradeReceiver {
    var sum: u32
    var sumNew: u32
    var offset: u32
    var file: seq<byte>

    ghost function Abs(): State
      reads this
    {
      State(sum, sumNew, offset, file)
    }

    constructor ()
      ensures Abs() == FRESH
    {
      sum, sumNew, offset, file := 0, 0, 0, [];
    }

    /** ack is the status byte of the reply; an unknown message id gets none. */
    method RecvUpgradeFile(p: Packet) returns (ack: Option<byte>, install: bool)
      modifies this
      ensures Abs() == Receive(old(Abs()), p)
      ensures install == Installs(old(Abs()), p)
      ensures ack == if p == Other(false) then None else if IsLast(p) && !install then Some(1) else Some(0)
    {
      ack, install := Some(0), false;
      match p {
        case Other(known) =>
          if !known {
            ack := None;
          }
        case Clean =>
          file := [];
        case Run =>
          sum, sumNew, offset := 0, 0, 0;
        case Announce(s) =>
          file := [];
          sum := s;
        case Data(count, index, data) =>
          file := WriteAt(file, offset, data);
          if |data| > 0 {
            offset := Wrap(offset + |data|);
          }
          var more := GetSum(data);
          WrapAdd(Sum(data), sumNew);
          sumNew := Wrap(sumNew + more);
          if index + 1 == count {
            if sumNew == sum {
              install := true;
            } else {
              ack := Some(1);
            }
          }
      }
    }
  }
}
