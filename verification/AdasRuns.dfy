/** What the ADAS alarm machine reports over a run, stated on the raw CAN bytes, the clock readings and
    the parameter bytes alone, without the machine's own variables. */
module AdasRuns {
  import opened Bytes
  import opened AdasAlerts
  import WR = WarningReports
  import Params

  const CLEAR: Can := [0, 0, 0, 0, 0, 0, 0, 0]

  /** The bytes of the last frame received, all clear before the first. */
  function LastFrame(run: seq<Event>): Can {
    if run == [] then CLEAR
    else if run[|run| - 1].Frame? then run[|run| - 1].i.can
    else LastFrame(run[..|run| - 1])
  }

  /** Bits 1 to 3 of byte 4: left lane 1, right lane 2, forward collision 4. */
  function Triggers(c: Can): nat {
    c[4] % 16 / 2
  }

  predicate NewTriggers(p: Can, c: Can) {
    Triggers(c) != 0 && Triggers(c) != Triggers(p)
  }

  // ----- the time filters -----

  /** A new lane departure whose time filter passes: byte 29 of the parameters plus the extra seconds
      have gone by since the filter last passed. */
  predicate LanePasses(run: seq<Event>, i: Input)
    decreases |run|, 1
  {
    && NewTriggers(LastFrame(run), i.can) && Triggers(i.can) % 4 != 0
    && i.ldwClock - LaneClock(run) >= i.para[29] + i.extra
  }

  /** When the lane departure filter last passed, whether or not a report followed. */
  function LaneClock(run: seq<Event>): int
    decreases |run|, 0
  {
    if run == [] then 0
    else
      var init, e := run[..|run| - 1], run[|run| - 1];
      if e.Frame? && LanePasses(init, e.i) then e.i.ldwClock else LaneClock(init)
  }

  /** The speed filter holds the lane departure back, and with it the rest of the frame. */
  predicate LaneCut(run: seq<Event>, i: Input) {
    LanePasses(run, i) && !i.ldwSpeedOk
  }

  predicate CollisionPasses(run: seq<Event>, i: Input)
    decreases |run|, 1
  {
    && NewTriggers(LastFrame(run), i.can) && Triggers(i.can) >= 4
    && i.fcwClock - CollisionClock(run) >= i.para[33] + i.extra
  }

  function CollisionClock(run: seq<Event>): int
    decreases |run|, 0
  {
    if run == [] then 0
    else
      var init, e := run[..|run| - 1], run[|run| - 1];
      if e.Frame? && CollisionPasses(init, e.i) && !LaneCut(init, e.i) then e.i.fcwClock else CollisionClock(init)
  }

  predicate CutOff(run: seq<Event>, i: Input) {
    LaneCut(run, i) || (CollisionPasses(run, i) && !i.fcwSpeedOk)
  }

  /** Headway enters or leaves RED (byte 7, low two bits equal to 2) between two frames. */
  predicate Enters(p: Can, c: Can) {
    c[7] % 4 == 2 && p[7] % 4 != 2
  }

  predicate HeadwayPasses(run: seq<Event>, i: Input)
    decreases |run|, 1
  {
    Enters(LastFrame(run), i.can) && !CutOff(run, i) && i.hwClock - HeadwayClock(run) >= i.para[41] + i.extra
  }

  /** An alarm that was begun and not ended ends when a frame leaves RED. */
  predicate HeadwayEnds(run: seq<Event>, i: Input) {
    Enters(i.can, LastFrame(run)) && !CutOff(run, i) && LastHw(Exec(run).log).Begin?
  }

  /** When the headway filter last passed or an alarm ended. */
  function HeadwayClock(run: seq<Event>): int
    decreases |run|, 0
  {
    if run == [] then 0
    else
      var init, e := run[..|run| - 1], run[|run| - 1];
      if e.Frame? && (HeadwayPasses(init, e.i) || HeadwayEnds(init, e.i)) then e.i.hwClock else HeadwayClock(init)
  }

  // ----- the machine follows the run -----

  lemma TriggerBits(c: Can)
    ensures var m := MaskOf(c);
            Triggers(c) == (if m.left then 1 else 0) + (if m.right then 2 else 0) + (if m.fcw then 4 else 0)
  {
    ThreeBits(c[4]);
  }

  lemma NewTriggerBits(s: State, p: Can, c: Can)
    requires s.last == MaskOf(p)
    ensures NewTrigger(s, MaskOf(c)) <==> NewTriggers(p, c)
    ensures MaskOf(c).left || MaskOf(c).right <==> Triggers(c) % 4 != 0
    ensures MaskOf(c).fcw <==> Triggers(c) >= 4
  {
    TriggerBits(p);
    TriggerBits(c);
  }

  /** The machine's variables are what the run says. */
  predicate Follows(s: State, run: seq<Event>) {
    && s.last == MaskOf(LastFrame(run)) && s.ldwAt == LaneClock(run) && s.fcwAt == CollisionClock(run)
    && s.hwAt == HeadwayClock(run) && s.open == LastHw(Exec(run).log).Begin?
  }

  lemma DueBits(s: State, run: seq<Event>, i: Input)
    requires Follows(s, run)
    ensures LdwDue(s, i) <==> LanePasses(run, i)
    ensures FcwDue(s, i) <==> CollisionPasses(run, i)
    ensures Cut(s, i) <==> CutOff(run, i)
  {
    NewTriggerBits(s, LastFrame(run), i.can);
  }

  /** How one frame moves the variables. */
  lemma DealMoves(s: State, i: Input)
    ensures var s', laneCut := Deal(s, i), LdwDue(s, i) && !i.ldwSpeedOk;
            var red, wasRed := i.can[7] % 4 == RED, s.last.level == RED;
            && s'.last == MaskOf(i.can)
            && s'.ldwAt == (if LdwDue(s, i) then i.ldwClock else s.ldwAt)
            && s'.fcwAt == (if FcwDue(s, i) && !laneCut then i.fcwClock else s.fcwAt)
            && s'.hwAt == if !Cut(s, i) && ((red && !wasRed && Passes(i.hwClock, s.hwAt, HwSecs(i)))
                                            || (!red && wasRed && s.open))
                          then i.hwClock else s.hwAt
  {
    TriggersMove(s, i);
    HeadwayMoves(Fcw(Ldw(s, i), i), i);
  }

  lemma TriggersMove(s: State, i: Input)
    ensures var s1 := Ldw(s, i);
            var s2 := Fcw(s1, i);
            && s1.last == s2.last == s.last && s1.open == s2.open == s.open && s1.hwAt == s2.hwAt == s.hwAt
            && s1.fcwAt == s.fcwAt && s2.ldwAt == s1.ldwAt == (if LdwDue(s, i) then i.ldwClock else s.ldwAt)
            && s2.fcwAt == (if FcwDue(s, i) then i.fcwClock else s.fcwAt)
  {
    assert FcwDue(Ldw(s, i), i) <==> FcwDue(s, i);
  }

  lemma HeadwayMoves(s: State, i: Input)
    ensures var s', red, wasRed := Headway(s, i), i.can[7] % 4 == RED, s.last.level == RED;
            && s'.ldwAt == s.ldwAt && s'.fcwAt == s.fcwAt
            && s'.hwAt == if (red && !wasRed && Passes(i.hwClock, s.hwAt, HwSecs(i))) || (!red && wasRed && s.open)
                          then i.hwClock else s.hwAt
  {
  }

  lemma FollowsFrame(s: State, run: seq<Event>, i: Input)
    requires Follows(s, run)
    ensures var s', run' := Deal(s, i), run + [Frame(i)];
            && s'.last == MaskOf(LastFrame(run')) && s'.ldwAt == LaneClock(run')
            && s'.fcwAt == CollisionClock(run') && s'.hwAt == HeadwayClock(run')
  {
    SnocParts(run, Frame(i));
    DueBits(s, run, i);
    DealMoves(s, i);
  }

  lemma FollowsSnap(s: State, run: seq<Event>, e: Event)
    requires Follows(s, run) && e.Snap?
    ensures var s', run' := Do(s, e), run + [e];
            && s'.last == MaskOf(LastFrame(run')) && s'.ldwAt == LaneClock(run')
            && s'.fcwAt == CollisionClock(run') && s'.hwAt == HeadwayClock(run')
  {
    SnocParts(run, e);
  }

  /** Over every run, the stored frame is the last one received, and the three clocks and the start flag
      are those of the run. */
  lemma {:induction false} MachineFollows(run: seq<Event>)
    ensures Follows(Exec(run), run)
  {
    ExecGood(run);
    if run != [] {
      var init, e := run[..|run| - 1], run[|run| - 1];
      MachineFollows(init);
      SnocOfConcat([], run);
      match e
      case Frame(i) => FollowsFrame(Exec(init), init, i);
      case Snap(_, _) => FollowsSnap(Exec(init), init, e);
    }
  }

  /** Exactly what the next frame reports after any run: lane departure, collision, headway BEGIN and
      headway END, each if and only if its condition on the bytes, clocks and parameters holds. */
  lemma ReportedExactly(run: seq<Event>, i: Input)
    ensures var s, s' := Exec(run), Deal(Exec(run), i);
            && (Added(s, s', WR.LDW, WR.Single) <==> LanePasses(run, i) && i.ldwSpeedOk)
            && (Added(s, s', WR.FCW, WR.Single) <==> CollisionPasses(run, i) && i.fcwSpeedOk && !LaneCut(run, i))
            && (Added(s, s', WR.HW, WR.Begin) <==> HeadwayPasses(run, i) && i.hwSpeedOk)
            && (Added(s, s', WR.HW, WR.End) <==> HeadwayEnds(run, i))
  {
    MachineFollows(run);
    DueBits(Exec(run), run, i);
    TriggersReportedExactly(Exec(run), i);
    HeadwayReportedExactly(Exec(run), i);
  }

  lemma TriggerCount(s: State, i: Input)
    ensures var s1 := Ldw(s, i);
            && |s1.log| == |s.log| + (if LdwDue(s, i) && i.ldwSpeedOk then 1 else 0)
            && |Fcw(s1, i).log| == |s1.log| + if FcwDue(s, i) && i.fcwSpeedOk then 1 else 0
  {
    assert FcwDue(Ldw(s, i), i) <==> FcwDue(s, i);
  }

  lemma HeadwayCount(s: State, i: Input)
    ensures var red, wasRed := i.can[7] % 4 == RED, s.last.level == RED;
            |Headway(s, i).log| == |s.log|
            + if (red && !wasRed && Passes(i.hwClock, s.hwAt, HwSecs(i)) && i.hwSpeedOk) || (!red && wasRed && s.open)
              then 1 else 0
  {
  }

  /** No more than one of each: the frame adds as many reports as conditions hold. */
  lemma ReportCount(run: seq<Event>, i: Input)
    ensures |Deal(Exec(run), i).log| == |Exec(run).log|
            + (if LanePasses(run, i) && i.ldwSpeedOk then 1 else 0)
            + (if CollisionPasses(run, i) && i.fcwSpeedOk && !LaneCut(run, i) then 1 else 0)
            + (if (HeadwayPasses(run, i) && i.hwSpeedOk) || HeadwayEnds(run, i) then 1 else 0)
  {
    var s := Exec(run);
    MachineFollows(run);
    DueBits(s, run, i);
    TriggerCount(s, i);
    TriggersMove(s, i);
    HeadwayCount(Fcw(Ldw(s, i), i), i);
    DealLog(s, i);
  }

  /** A frame repeated byte for byte in its masked bits reports nothing, whatever the clocks say. */
  lemma RepeatReportsNothing(run: seq<Event>, i: Input)
    requires Triggers(i.can) == Triggers(LastFrame(run)) && i.can[7] % 4 == LastFrame(run)[7] % 4
    ensures Deal(Exec(run), i).log == Exec(run).log
  {
    MachineFollows(run);
    DueBits(Exec(run), run, i);
  }

  /** A snapshot is reported at once, by itself, and moves none of the machine's variables. */
  lemma SnapReported(run: seq<Event>, para: Params.AdasPara, time: int)
    ensures var s, s' := Exec(run), Exec(run + [Snap(para, time)]);
            && |s'.log| == |s.log| + 1 && s.log <= s'.log
            && s'.log[|s.log|].warning == WR.SNAP && s'.log[|s.log|].status == WR.Single
            && s'.log[|s.log|].time == time && s'.log[|s.log|].para == para
            && s' == s.(rec := s'.rec, log := s'.log)
  {
    SnocParts(run, Snap(para, time));
  }

  // ----- what the reports list -----

  /** Media announced by a log; an END only repeats its BEGIN's. */
  function Announced(log: seq<Report>): nat {
    if log == [] then 0
    else Announced(log[..|log| - 1]) + if log[|log| - 1].status.End? then 0 else |log[|log| - 1].media|
  }

  /** The report lists what the bytes of its own warning ask for, from this id on. */
  predicate ListsOwn(r: Report, first: nat) {
    if r.warning == WR.LDW then WR.Lists(r.media, first, r.para[30], r.para[29])
    else if r.warning == WR.FCW then WR.Lists(r.media, first, r.para[34], r.para[33])
    else if r.warning == WR.HW then WR.Lists(r.media, first, r.para[42], r.para[41])
    else WR.ListsPhotos(r.media, first, r.para[7])
  }

  predicate AllListed(log: seq<Report>) {
    log == []
    || (&& AllListed(log[..|log| - 1])
        && (log[|log| - 1].status.End? || ListsOwn(log[|log| - 1], Announced(log[..|log| - 1]) + 1)))
  }

  predicate Listed(s: State) {
    AllListed(s.log) && s.rec.lastId == Announced(s.log)
  }

  lemma OwnList(r: Report, last: nat)
    requires r.warning in {WR.LDW, WR.FCW, WR.HW, WR.SNAP}
    requires r.media == WR.MediaOf(WR.AdasPlan(r.warning, r.para), last)
    ensures ListsOwn(r, last + 1)
  {
    WR.AdasMedia(r.para, last);
  }

  lemma SendListed(s: State, warning: byte, status: WR.Status, time: int, extra: nat, para: Params.AdasPara)
    requires Listed(s) && warning in {WR.LDW, WR.FCW, WR.HW, WR.SNAP}
    ensures Listed(Send(s, warning, status, time, extra, para))
  {
    var s' := Send(s, warning, status, time, extra, para);
    var r := s'.log[|s.log|];
    if !status.End? {
      OwnList(r, s.rec.lastId);
    }
    SnocParts(s.log, r);
  }

  lemma LdwListed(s: State, i: Input)
    requires Listed(s)
    ensures Listed(Ldw(s, i))
  {
    SendListed(s.(ldwAt := i.ldwClock), WR.LDW, WR.Single, i.ldwClock, i.extra, i.para);
  }

  lemma FcwListed(s: State, i: Input)
    requires Listed(s)
    ensures Listed(Fcw(s, i))
  {
    SendListed(s.(fcwAt := i.fcwClock), WR.FCW, WR.Single, i.fcwClock, i.extra, i.para);
  }

  lemma HeadwayListed(s: State, i: Input)
    requires Listed(s)
    ensures Listed(Headway(s, i))
  {
    SendListed(s.(hwAt := i.hwClock, open := true), WR.HW, WR.Begin, i.hwClock, i.extra, i.para);
    SendListed(s.(hwAt := i.hwClock, open := false), WR.HW, WR.End, i.hwClock, i.extra, i.para);
  }

  lemma Relisted(s: State, last: Masked, now: int)
    requires Listed(s)
    ensures Listed(s.(last := last, now := now)) && Listed(s.(now := now))
  {
  }

  lemma DealListed(s: State, i: Input)
    requires Listed(s)
    ensures Listed(Deal(s, i))
  {
    var m, s1 := MaskOf(i.can), Ldw(s, i);
    if m == s.last {
      Relisted(s, m, i.hwClock);
    } else {
      var s2 := Fcw(s1, i);
      LdwListed(s, i);
      Relisted(s1, m, i.hwClock);
      FcwListed(s1, i);
      Relisted(s2, m, i.hwClock);
      HeadwayListed(s2, i);
      Relisted(Headway(s2, i), m, i.hwClock);
    }
  }

  lemma {:induction false} EveryRunListed(run: seq<Event>)
    ensures Listed(Exec(run))
  {
    if run != [] {
      var s, e := Exec(run[..|run| - 1]), run[|run| - 1];
      EveryRunListed(run[..|run| - 1]);
      match e
      case Frame(i) => DealListed(s, i);
      case Snap(para, time) => SendListed(s, WR.SNAP, WR.Single, time, 0, para);
    }
  }

  lemma {:induction false} ListedAt(log: seq<Report>, n: nat)
    requires AllListed(log) && n < |log| && !log[n].status.End?
    ensures ListsOwn(log[n], Announced(log[..n]) + 1)
  {
    if n < |log| - 1 {
      ListedAt(log[..|log| - 1], n);
      assert log[..|log| - 1][..n] == log[..n];
    }
  }

  /** In every run, each report but an END lists photos and videos as the bytes of its own warning say,
      with ids that go on where the reports before it stopped: no id is announced twice, except by an
      END, and none is left out. */
  lemma ReportsList(run: seq<Event>, n: nat)
    requires n < |Exec(run).log| && !Exec(run).log[n].status.End?
    ensures var log := Exec(run).log; ListsOwn(log[n], Announced(log[..n]) + 1)
  {
    EveryRunListed(run);
    ListedAt(Exec(run).log, n);
  }
}
