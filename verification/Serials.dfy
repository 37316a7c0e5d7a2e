/** The two 16-bit serial counters shared by all threads. */
module Serials {
  import opened Bytes

  datatype Counters = Counters(send: u16, recv: u16)

  const ZERO := Counters(0, 0)

  /** One locked access: a number for the device's own message, the receipt of a command, or the
      number for a reply. */
  datatype Access = NextSend | RecordRecv(n: u16) | GetRecv

  function NextSendNum(send: u16): u16 {
    if send == 0xFF then 0 else (send + 1) % 0x1_0000
  }

  function Apply(c: Counters, a: Access): Counters {
    match a
    case NextSend => c.(send := NextSendNum(c.send))
    case RecordRecv(n) => Counters(if n > c.send then n else c.send, n)
    case GetRecv => c
  }

  function ApplyAll(c: Counters, run: seq<Access>): Counters {
    if run == [] then c else Apply(ApplyAll(c, run[..|run| - 1]), run[|run| - 1])
  }

  lemma ApplyPrefix(c: Counters, run: seq<Access>, k: nat)
    requires k < |run|
    ensures ApplyAll(c, run[..k + 1]) == Apply(ApplyAll(c, run[..k]), run[k])
  {
    assert run[..k + 1][..k] == run[..k];
  }

  /** The serials handed to the device's own messages in a run, in order. */
  function OwnSerials(c: Counters, run: seq<Access>): seq<u16> {
    if run == [] then []
    else
      var init := run[..|run| - 1];
      OwnSerials(c, init)
      + if run[|run| - 1].NextSend? then [NextSendNum(ApplyAll(c, init).send)] else []
  }

  ghost predicate NoReceive(run: seq<Access>) {
    forall a | a in run :: !a.RecordRecv?
  }

  /** The k-th own serial after send: the counter cycles through one byte, after first running out
      the 16-bit range if a received serial had pushed it above a byte. */
  function Kth(send: u16, k: nat): u16 {
    if send <= 0xFF then (send + k) % 0x100
    else if send + k <= 0xFFFF then send + k
    else (send + k - 0x1_0000) % 0x100
  }

  lemma KthStep(send: u16, k: nat)
    ensures NextSendNum(Kth(send, k)) == Kth(send, k + 1) && Kth(send, 0) == send
  {
  }

  lemma {:induction false} OwnSerialsClosedForm(c: Counters, run: seq<Access>)
    requires NoReceive(run)
    ensures var own := OwnSerials(c, run);
            && (forall k | 0 <= k < |own| :: own[k] == Kth(c.send, k + 1))
            && ApplyAll(c, run) == Counters(Kth(c.send, |own|), c.recv)
  {
    if run != [] {
      var init := run[..|run| - 1];
      assert NoReceive(init) && run[|run| - 1] in run;
      OwnSerialsClosedForm(c, init);
      KthStep(c.send, |OwnSerials(c, init)|);
    }
  }

  /** Any 256 consecutive own messages with no receipt in between carry distinct serials. */
  lemma OwnSerialsDistinct(c: Counters, run: seq<Access>, i: nat, j: nat)
    requires NoReceive(run) && i < j < |OwnSerials(c, run)| && j - i < 0x100
    ensures OwnSerials(c, run)[i] != OwnSerials(c, run)[j]
  {
    OwnSerialsClosedForm(c, run);
  }

  lemma KthPeriod(send: u16, k: nat)
    requires send <= 0xFF
    ensures Kth(send, k + 0x100) == Kth(send, k)
  {
  }

  /** The window of 256 is tight: below 0x100 the 257th message repeats the first. */
  lemma OwnSerialsRepeat(c: Counters, run: seq<Access>, i: nat)
    requires NoReceive(run) && c.send <= 0xFF && i + 0x100 < |OwnSerials(c, run)|
    ensures OwnSerials(c, run)[i] == OwnSerials(c, run)[i + 0x100]
  {
    OwnSerialsClosedForm(c, run);
    KthPeriod(c.send, i + 1);
  }

  /** A reply carries the serial of the command received last, whatever was sent in between. */
  lemma {:induction false} ReplySerial(c: Counters, before: seq<Access>, n: u16, since: seq<Access>)
    requires NoReceive(since)
    ensures ApplyAll(c, before + [RecordRecv(n)] + since).recv == n
  {
    var run := before + [RecordRecv(n)] + since;
    if since == [] {
      assert run[..|run| - 1] == before;
    } else {
      var init := since[..|since| - 1];
      assert since[|since| - 1] in since;
      ReplySerial(c, before, n, init);
      assert run[..|run| - 1] == before + [RecordRecv(n)] + init;
    }
  }

  /** Every serial a run has handed out or received. */
  ghost predicate Used(c: Counters, run: seq<Access>, n: u16) {
    n in OwnSerials(c, run) || RecordRecv(n) in run
  }

  predicate AtWrap(send: u16) {
    send == 0xFF || send == 0xFFFF
  }

  /** No own serial has been handed out at a wrap of the counter. */
  predicate NeverWrapped(c: Counters, run: seq<Access>) {
    run == []
    || (&& NeverWrapped(c, run[..|run| - 1])
        && !(run[|run| - 1].NextSend? && AtWrap(ApplyAll(c, run[..|run| - 1]).send)))
  }

  lemma UsedLast(c: Counters, run: seq<Access>, n: u16)
    requires run != [] && Used(c, run, n)
    ensures || Used(c, run[..|run| - 1], n)
            || run[|run| - 1] == RecordRecv(n)
            || (run[|run| - 1].NextSend? && n == ApplyAll(c, run).send)
  {
  }

  /** Without a wrap the counter never falls below a serial already used. */
  lemma {:induction false} UsedBelowCounter(run: seq<Access>, n: u16)
    requires NeverWrapped(ZERO, run) && Used(ZERO, run, n)
    ensures n <= ApplyAll(ZERO, run).send
  {
    UsedLast(ZERO, run, n);
    if Used(ZERO, run[..|run| - 1], n) {
      UsedBelowCounter(run[..|run| - 1], n);
    }
  }

  /** The counter itself is a serial already used, unless nothing was sent or received at all. */
  lemma {:induction false} CounterIsUsed(run: seq<Access>)
    ensures ApplyAll(ZERO, run).send == 0 || Used(ZERO, run, ApplyAll(ZERO, run).send)
  {
    if run != [] {
      var init, send := run[..|run| - 1], ApplyAll(ZERO, run[..|run| - 1]).send;
      CounterIsUsed(init);
      if Used(ZERO, init, send) && RecordRecv(send) in init {
        assert RecordRecv(send) in run;
      }
    }
  }

  /** Over every run in which the counter has not wrapped yet: the next own serial is above all serials
      sent and received so far if and only if the counter is not at a wrap now. */
  lemma OwnSerialAboveReceived(run: seq<Access>)
    requires NeverWrapped(ZERO, run)
    ensures var send := ApplyAll(ZERO, run).send;
            (forall n: u16 | Used(ZERO, run, n) :: n < NextSendNum(send)) <==> !AtWrap(send)
  {
    var send := ApplyAll(ZERO, run).send;
    CounterIsUsed(run);
    forall n: u16 | Used(ZERO, run, n)
      ensures n <= send
    {
      UsedBelowCounter(run, n);
    }
  }

  /** A wrap breaks this for good: a command 0xFD, three own messages and a command 5, and the next own
      serial is 6, although 0xFD, 0xFE and 0xFF have been used and the counter is at no wrap. */
  lemma BelowUsedAfterWrap()
    ensures var run := [RecordRecv(0xFD), NextSend, NextSend, NextSend, RecordRecv(5)];
            && NextSendNum(ApplyAll(ZERO, run).send) == 6 && !AtWrap(ApplyAll(ZERO, run).send)
            && Used(ZERO, run, 0xFD)
  {
    var run := [RecordRecv(0xFD), NextSend, NextSend, NextSend, RecordRecv(5)];
    ApplyPrefix(ZERO, run, 0);
    ApplyPrefix(ZERO, run, 1);
    ApplyPrefix(ZERO, run, 2);
    ApplyPrefix(ZERO, run, 3);
    ApplyPrefix(ZERO, run, 4);
    assert run[..0] == [] && run[..5] == run;
    assert run[0] in run;
  }

  class SerialNumbers {
    var sendSerialNum: u16
    var recvSerialNum: u16

    ghost function Abs(): Counters
      reads this
    {
      Counters(sendSerialNum, recvSerialNum)
    }

    constructor ()
      ensures Abs() == ZERO
    {
      sendSerialNum, recvSerialNum := 0, 0;
    }

    /** The caller passes 0; at 0xFF the counter restarts and the caller's 0 is left standing. */
    method GetNextSendNum(given: u16) returns (num: u16)
      requires given == 0
      modifies this
      ensures Abs() == Apply(old(Abs()), NextSend) && num == Abs().send
    {
      num := given;
      if sendSerialNum == 0xFF {
        sendSerialNum := 0;
      } else {
        sendSerialNum := if sendSerialNum == 0xFFFF then 0 else sendSerialNum + 1;
        num := sendSerialNum;
      }
    }

    method RecordRecvNum(num: u16)
      modifies this
      ensures Abs() == Apply(old(Abs()), RecordRecv(num))
    {
      recvSerialNum := num;
      if num > sendSerialNum {
        sendSerialNum := num;
      }
    }

    method GetRecvNum() returns (num: u16)
      ensures num == Abs().recv
    {
      num := recvSerialNum;
    }
  }
}
