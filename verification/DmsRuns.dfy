/** What the driver-monitoring machine reports over a run, stated on the raw alert bytes, the clock
    readings and the parameter bytes. */
module DmsRuns {
  import opened Bytes
  import opened DmsAlerts
  import WR = WarningReports

  const CLEAR: Can := [0, 0, 0, 0, 0, 0, 0, 0]

  /** The bytes of the last frame received, all clear before the first. */
  function LastFrame(run: seq<Input>): Can {
    if run == [] then CLEAR else run[|run| - 1].can
  }

  predicate Rose(before: nat, now: nat) {
    before == 0 && now != 0
  }

  /** Fatigue: either eye field or yawning, the two-bit fields 0, 1 and 3 of byte 0. */
  predicate Fatigue(p: Can, c: Can) {
    Rose(p[0] % 4, c[0] % 4) || Rose(p[0] / 4 % 4, c[0] / 4 % 4) || Rose(p[0] / 64, c[0] / 64)
  }

  /** Distraction: looking around, field 2 of byte 0, or bowing, field 3 of byte 1. */
  predicate Distraction(p: Can, c: Can) {
    Rose(p[0] / 16 % 4, c[0] / 16 % 4) || Rose(p[1] / 64, c[1] / 64)
  }

  predicate Phone(p: Can, c: Can) {
    Rose(p[1] % 4, c[1] % 4)
  }

  predicate Smoke(p: Can, c: Can) {
    Rose(p[1] / 4 % 4, c[1] / 4 % 4)
  }

  predicate Absence(p: Can, c: Can) {
    Rose(p[1] / 16 % 4, c[1] / 16 % 4)
  }

  predicate NewDriver(p: Can, c: Can) {
    Rose(p[2] / 4 % 4, c[2] / 4 % 4)
  }

  // ----- which warning an edge raises -----

  lemma EdgesAreBytes(p: Can, c: Can)
    ensures Rising(0, MaskOf(p), MaskOf(c)) <==> Fatigue(p, c)
    ensures Rising(1, MaskOf(p), MaskOf(c)) <==> Distraction(p, c)
    ensures Rising(2, MaskOf(p), MaskOf(c)) <==> Phone(p, c)
    ensures Rising(3, MaskOf(p), MaskOf(c)) <==> Smoke(p, c)
    ensures Rising(4, MaskOf(p), MaskOf(c)) <==> Absence(p, c)
    ensures Up(MaskOf(p).faceId, MaskOf(c).faceId) <==> NewDriver(p, c)
    ensures Up(MaskOf(c).absence, MaskOf(p).absence) <==> Absence(c, p)
  {
  }

  /** The machine remembers exactly the last frame. */
  lemma LastIsInput(run: seq<Input>)
    ensures Exec(run).last == MaskOf(LastFrame(run))
  {
    ExecGood(run, 0);
    FramesAreInputs(run);
  }

  lemma PreviousIsFrame(run: seq<Input>, n: nat)
    requires n < |run|
    ensures PreviousInput(run, n) == MaskOf(LastFrame(run[..n]))
  {
  }

  /** In every run, each warning is caused by a rise of its own fields between the frame before and the
      frame it was sent for. */
  lemma WarningsCaused(run: seq<Input>, n: nat)
    requires n < |Exec(run).log|
    requires Exec(run).log[n].warning in {WR.FATIGUE, WR.DISTRACT, WR.CALLING, WR.SMOKING, WR.ABNORMAL}
    ensures var r := Exec(run).log[n];
            && r.frame < |run|
            && var p, c := LastFrame(run[..r.frame]), run[r.frame].can;
               && (r.warning == WR.FATIGUE ==> Fatigue(p, c))
               && (r.warning == WR.DISTRACT ==> Distraction(p, c))
               && (r.warning == WR.CALLING ==> Phone(p, c))
               && (r.warning == WR.SMOKING ==> Smoke(p, c))
               && (r.warning == WR.ABNORMAL ==> Absence(p, c))
  {
    var r := Exec(run).log[n];
    var k := if r.warning == WR.FATIGUE then 0 else if r.warning == WR.DISTRACT then 1
             else if r.warning == WR.CALLING then 2 else if r.warning == WR.SMOKING then 3 else 4;
    WarningCaused(run, k, n);
    PreviousIsFrame(run, r.frame);
    EdgesAreBytes(LastFrame(run[..r.frame]), run[r.frame].can);
  }

  // ----- exactly what a frame reports -----

  /** One of the first n warnings in order of priority is held back by its speed check, which ends the
      call. */
  predicate HeldBack(p: Can, i: Input, n: nat) {
    || (n > 0 && Fatigue(p, i.can) && !i.speedOk(0))
    || (n > 1 && Distraction(p, i.can) && !i.speedOk(1))
    || (n > 2 && Phone(p, i.can) && !i.speedOk(2))
    || (n > 3 && Smoke(p, i.can) && !i.speedOk(3))
    || (n > 4 && Absence(p, i.can) && !i.speedOk(4))
  }

  lemma HeldBackBytes(s: State, p: Can, i: Input, k: nat)
    requires s.last == MaskOf(p) && k < CLASSES
    ensures NoneStops(s, i, k) <==> !HeldBack(p, i, k + 1)
  {
    EdgesAreBytes(p, i.can);
    assert Stops(s, i, 0) <==> Fatigue(p, i.can) && !i.speedOk(0);
    assert Stops(s, i, 1) <==> Distraction(p, i.can) && !i.speedOk(1);
    assert Stops(s, i, 2) <==> Phone(p, i.can) && !i.speedOk(2);
    assert Stops(s, i, 3) <==> Smoke(p, i.can) && !i.speedOk(3);
    assert Stops(s, i, 4) <==> Absence(p, i.can) && !i.speedOk(4);
  }

  lemma ClassExactly(run: seq<Input>, i: Input, k: nat)
    requires k < CLASSES
    ensures var s, p := Exec(run), LastFrame(run);
            Added(s, Deal(s, i), Warning(k))
            <==> && Rising(k, MaskOf(p), MaskOf(i.can)) && !HeldBack(p, i, k + 1)
                 && i.clock(k) - LastTime(s.log, Warning(k)) >= Secs(k, i)
  {
    LastIsInput(run);
    EdgeReportedExactly(run, i, k);
    HeldBackBytes(Exec(run), LastFrame(run), i, k);
  }

  /** After any run, the next frame raises each warning if and only if its fields rise, no warning of
      higher or equal priority is held back by its speed check, and its last report (or the start of
      the clock) is its filter time away. */
  lemma WarningsExactly(run: seq<Input>, i: Input)
    ensures var s, s', p, c := Exec(run), Deal(Exec(run), i), LastFrame(run), i.can;
            && (Added(s, s', WR.FATIGUE)
                <==> && Fatigue(p, c) && !HeldBack(p, i, 1)
                     && i.clock(0) - LastTime(s.log, WR.FATIGUE) >= i.para[25] + i.extra)
            && (Added(s, s', WR.DISTRACT)
                <==> && Distraction(p, c) && !HeldBack(p, i, 2)
                     && i.clock(1) - LastTime(s.log, WR.DISTRACT) >= i.para[35] + i.extra)
            && (Added(s, s', WR.CALLING)
                <==> && Phone(p, c) && !HeldBack(p, i, 3)
                     && i.clock(2) - LastTime(s.log, WR.CALLING) >= i.para[29] + i.extra)
            && (Added(s, s', WR.SMOKING)
                <==> && Smoke(p, c) && !HeldBack(p, i, 4)
                     && i.clock(3) - LastTime(s.log, WR.SMOKING) >= i.para[32] + i.extra)
            && (Added(s, s', WR.ABNORMAL)
                <==> && Absence(p, c) && !HeldBack(p, i, 5)
                     && i.clock(4) - LastTime(s.log, WR.ABNORMAL) >= i.para[38] + i.extra)
  {
    EdgesAreBytes(LastFrame(run), i.can);
    ClassExactly(run, i, 0);
    ClassExactly(run, i, 1);
    ClassExactly(run, i, 2);
    ClassExactly(run, i, 3);
    ClassExactly(run, i, 4);
  }

  // ----- driver change and end of absence -----

  /** The timer of the end-of-absence snapshot holds its last report. */
  predicate ReleaseTimed(s: State)
    requires ValidTimers(s)
  {
    s.timers[RELEASE] == LastTime(s.log, WR.SNAPSHOT_EVENT)
  }

  lemma SendKeepsRelease(s: State, warning: byte, time: int, extra: nat, para: DmsPara)
    requires ValidTimers(s)
    requires if warning == WR.SNAPSHOT_EVENT then s.timers[RELEASE] == time else ReleaseTimed(s)
    ensures ReleaseTimed(Send(s, warning, time, extra, para))
  {
  }

  lemma {:induction false} ClassesKeepRelease(s: State, i: Input, n: nat)
    requires ValidTimers(s) && ReleaseTimed(s) && n <= CLASSES
    ensures ReleaseTimed(Classes(s, i, n))
  {
    if n > 0 {
      ClassesKeepRelease(s, i, n - 1);
      var s1, k := Classes(s, i, n - 1), n - 1;
      SendKeepsRelease(s1.(timers := s1.timers[k := i.clock(k)]), Warning(k), i.clock(k), i.extra, i.para);
    }
  }

  lemma RestKeepsRelease(s: State, i: Input)
    requires ValidTimers(s) && ReleaseTimed(s)
    ensures ReleaseTimed(Rest(s, i))
  {
    SendKeepsRelease(s, WR.DRIVER_CHANGE, i.clock(RELEASE), i.extra, i.para);
    SendKeepsRelease(s.(timers := s.timers[RELEASE := i.clock(RELEASE)]), WR.SNAPSHOT_EVENT, i.clock(RELEASE),
                     i.extra, i.para);
  }

  lemma {:induction false} ReleaseKept(run: seq<Input>)
    ensures ReleaseTimed(Exec(run))
  {
    if run != [] {
      var s, i := Exec(run[..|run| - 1]), run[|run| - 1];
      ReleaseKept(run[..|run| - 1]);
      ClassesKeepRelease(s, i, CLASSES);
      RestKeepsRelease(Classes(s, i, CLASSES), i);
    }
  }

  /** After any run, unless a warning was held back: a change of driver is reported if and only if its
      field rises, and the end of an absence if and only if the absence field falls, no driver is
      recognised, the speed check passes and the last such report is ten seconds away. */
  lemma OthersExactly(run: seq<Input>, i: Input)
    ensures var s, s', p, c := Exec(run), Deal(Exec(run), i), LastFrame(run), i.can;
            && (Added(s, s', WR.DRIVER_CHANGE) <==> NewDriver(p, c) && !HeldBack(p, i, 5))
            && (Added(s, s', WR.SNAPSHOT_EVENT)
                <==> && Absence(c, p) && !NewDriver(p, c) && !HeldBack(p, i, 5)
                     && i.speedOk(5) && i.clock(5) - LastTime(s.log, WR.SNAPSHOT_EVENT) >= 10)
  {
    var s := Exec(run);
    LastIsInput(run);
    ReleaseKept(run);
    EdgesAreBytes(LastFrame(run), i.can);
    HeldBackBytes(s, LastFrame(run), i, CLASSES - 1);
    OthersReportedExactly(s, i);
  }

  // ----- one report each -----

  /** No two of the reports a frame adds are of the same warning. */
  predicate OneEach(s: State, s': State) {
    forall a, b | |s.log| <= a < b < |s'.log| :: s'.log[a].warning != s'.log[b].warning
  }

  lemma SendOneEach(s: State, s1: State, warning: byte, time: int, extra: nat, para: DmsPara)
    requires OneEach(s, s1) && |s.log| <= |s1.log| && !Added(s, s1, warning)
    ensures OneEach(s, Send(s1, warning, time, extra, para))
  {
  }

  lemma {:induction false} ClassesOneEach(s: State, i: Input, n: nat)
    requires ValidTimers(s) && n <= CLASSES
    ensures OneEach(s, Classes(s, i, n))
  {
    if n > 0 {
      var k := n - 1;
      ClassesOneEach(s, i, k);
      ClassesAdd(s, i, k, k);
      var s1 := Classes(s, i, k);
      SendOneEach(s, s1.(timers := s1.timers[k := i.clock(k)]), Warning(k), i.clock(k), i.extra, i.para);
    }
  }

  lemma RestOneEach(s: State, i: Input)
    requires ValidTimers(s)
    ensures OneEach(s, Rest(Classes(s, i, CLASSES), i))
  {
    var s1 := Classes(s, i, CLASSES);
    ClassesOneEach(s, i, CLASSES);
    ClassesAddNothingElse(s, i, CLASSES, WR.DRIVER_CHANGE);
    ClassesAddNothingElse(s, i, CLASSES, WR.SNAPSHOT_EVENT);
    SendOneEach(s, s1, WR.DRIVER_CHANGE, i.clock(RELEASE), i.extra, i.para);
    SendOneEach(s, s1.(timers := s1.timers[RELEASE := i.clock(RELEASE)]), WR.SNAPSHOT_EVENT, i.clock(RELEASE),
                i.extra, i.para);
  }

  /** A frame makes at most one report of each warning. */
  lemma FrameReportsOneEach(s: State, i: Input)
    requires ValidTimers(s)
    ensures s.log <= Deal(s, i).log && OneEach(s, Deal(s, i))
  {
    ClassesOneEach(s, i, CLASSES);
    ClassesAdd(s, i, CLASSES, 0);
    RestOneEach(s, i);
  }

  // ----- what the reports list -----

  /** Media announced by a log. */
  function Announced(log: seq<Report>): nat {
    if log == [] then 0 else Announced(log[..|log| - 1]) + |log[|log| - 1].media|
  }

  /** The report lists what the bytes of its own warning ask for, from this id on. */
  predicate ListsOwn(r: Report, first: nat) {
    if r.warning == WR.FATIGUE then WR.Lists(r.media, first, r.para[26], r.para[25])
    else if r.warning == WR.CALLING then WR.Lists(r.media, first, r.para[30], r.para[29])
    else if r.warning == WR.SMOKING then WR.Lists(r.media, first, r.para[33], r.para[32])
    else if r.warning == WR.DISTRACT then WR.Lists(r.media, first, r.para[36], r.para[35])
    else if r.warning == WR.ABNORMAL then WR.Lists(r.media, first, r.para[39], r.para[38])
    else WR.ListsPhotos(r.media, first, r.para[7])
  }

  predicate AllListed(log: seq<Report>) {
    log == [] || (AllListed(log[..|log| - 1]) && ListsOwn(log[|log| - 1], Announced(log[..|log| - 1]) + 1))
  }

  predicate Listed(s: State) {
    AllListed(s.log) && s.rec.lastId == Announced(s.log)
  }

  predicate IsWarning(w: byte) {
    w in {WR.FATIGUE, WR.CALLING, WR.SMOKING, WR.DISTRACT, WR.ABNORMAL, WR.SNAPSHOT_EVENT, WR.DRIVER_CHANGE}
  }

  lemma OwnList(r: Report, last: nat)
    requires IsWarning(r.warning) && r.media == WR.MediaOf(WR.DmsPlan(r.warning, r.para), last)
    ensures ListsOwn(r, last + 1)
  {
    WR.DmsMedia(r.para, last);
  }

  lemma SendListed(s: State, warning: byte, time: int, extra: nat, para: DmsPara)
    requires Listed(s) && IsWarning(warning)
    ensures Listed(Send(s, warning, time, extra, para))
  {
    var s' := Send(s, warning, time, extra, para);
    OwnList(s'.log[|s.log|], s.rec.lastId);
    SnocParts(s.log, s'.log[|s.log|]);
  }

  lemma {:induction false} ClassesListed(s: State, i: Input, n: nat)
    requires ValidTimers(s) && Listed(s) && n <= CLASSES
    ensures Listed(Classes(s, i, n))
  {
    if n > 0 {
      ClassesListed(s, i, n - 1);
      var s1, k := Classes(s, i, n - 1), n - 1;
      SendListed(s1.(timers := s1.timers[k := i.clock(k)]), Warning(k), i.clock(k), i.extra, i.para);
    }
  }

  lemma RestListed(s: State, i: Input)
    requires ValidTimers(s) && Listed(s)
    ensures Listed(Rest(s, i))
  {
    SendListed(s, WR.DRIVER_CHANGE, i.clock(RELEASE), i.extra, i.para);
    SendListed(s.(timers := s.timers[RELEASE := i.clock(RELEASE)]), WR.SNAPSHOT_EVENT, i.clock(RELEASE),
               i.extra, i.para);
  }

  lemma {:induction false} EveryRunListed(run: seq<Input>)
    ensures Listed(Exec(run))
  {
    if run != [] {
      var s, i := Exec(run[..|run| - 1]), run[|run| - 1];
      EveryRunListed(run[..|run| - 1]);
      ClassesListed(s, i, CLASSES);
      RestListed(Classes(s, i, CLASSES), i);
    }
  }

  lemma {:induction false} ListedAt(log: seq<Report>, n: nat)
    requires AllListed(log) && n < |log|
    ensures ListsOwn(log[n], Announced(log[..n]) + 1)
  {
    if n < |log| - 1 {
      ListedAt(log[..|log| - 1], n);
      assert log[..|log| - 1][..n] == log[..n];
    }
  }

  /** In every run, report n lists photos and videos as the bytes of its own warning say, with ids that
      go on where the reports before it stopped: no id is announced twice and none is left out. */
  lemma ReportsList(run: seq<Input>, n: nat)
    requires n < |Exec(run).log|
    ensures var log := Exec(run).log; ListsOwn(log[n], Announced(log[..n]) + 1)
  {
    EveryRunListed(run);
    ListedAt(Exec(run).log, n);
  }
}
