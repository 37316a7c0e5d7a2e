/** The driver-monitoring alarm machine: rising edges of the alert fields, taken in order of priority
    behind a speed filter and a time filter per class. */
module DmsAlerts {
  import opened Bytes
  import opened WarningReports
  import Params

  const CLASSES := 5           // fatigue, distraction, calling, smoking, absence
  const RELEASE := 5           // timer of the end-of-absence snapshot
  const RELEASE_SECS := 10

  /** The two-bit alert fields that survive the mask FF FF 0F 00 00 00 00 00. */
  datatype Alert = Alert(eyes1: nat, eyes2: nat, around: nat, yawn: nat,
                         phone: nat, smoking: nat, absence: nat, bow: nat,
                         lookUp: nat, faceId: nat)

  const CALM := Alert(0, 0, 0, 0, 0, 0, 0, 0, 0, 0)

  function MaskOf(can: Can): Alert {
    Alert(can[0] % 4, can[0] / 4 % 4, can[0] / 16 % 4, can[0] / 64,
          can[1] % 4, can[1] / 4 % 4, can[1] / 16 % 4, can[1] / 64,
          can[2] % 4, can[2] / 4 % 4)
  }

  /** The fields are the masked bytes, two bits each. */
  lemma FieldsAreMaskedBits(can: Can)
    ensures var a := MaskOf(can);
            && a.eyes1 + 4 * a.eyes2 + 16 * a.around + 64 * a.yawn == can[0]
            && a.phone + 4 * a.smoking + 16 * a.absence + 64 * a.bow == can[1]
            && a.lookUp + 4 * a.faceId == can[2] % 16
            && a.eyes1 < 4 && a.eyes2 < 4 && a.around < 4 && a.phone < 4 && a.smoking < 4
            && a.absence < 4 && a.lookUp < 4
  {
    FourFields(can[0]);
    FourFields(can[1]);
    FourFields(can[2]);
  }

  type DmsPara = p: Params.Record | |p| == Params.DMS_LEN && p[PHOTO_NUM_AT] <= SNAP_MAX
    witness seq(Params.DMS_LEN, _ => 0)

  /** One call; clock and speedOk hold what the six checks would read, in program order. */
  datatype Input = Input(can: Can, para: DmsPara, extra: nat, clock: int -> int, speedOk: int -> bool)

  /** A report as sent, with the parameters and extra filter seconds in force and the frame that caused
      it. */
  datatype Report = Report(warning: byte, time: int, para: DmsPara, extra: nat, frame: nat, media: seq<Entry>)

  datatype State = State(last: Alert, timers: seq<int>, rec: Recorder,
                         log: seq<Report>, frames: seq<Alert>)

  const START := State(CALM, [0, 0, 0, 0, 0, 0], EMPTY, [], [])

  function Warning(k: nat): byte {
    match k
    case 0 => FATIGUE
    case 1 => DISTRACT
    case 2 => CALLING
    case 3 => SMOKING
    case _ => ABNORMAL
  }

  predicate Up(before: nat, now: nat) {
    now != 0 && before == 0
  }

  /** The rising edge that class k looks for. */
  predicate Rising(k: nat, p: Alert, c: Alert) {
    match k
    case 0 => Up(p.eyes1, c.eyes1) || Up(p.eyes2, c.eyes2) || Up(p.yawn, c.yawn)
    case 1 => Up(p.around, c.around) || Up(p.bow, c.bow)
    case 2 => Up(p.phone, c.phone)
    case 3 => Up(p.smoking, c.smoking)
    case _ => Up(p.absence, c.absence)
  }

  /** The filter time of class k: its recording time plus the configured extra. */
  function Secs(k: nat, i: Input): nat {
    i.extra + i.para[DmsVideoAt(Warning(k))]
  }

  function Send(s: State, warning: byte, time: int, extra: nat, para: DmsPara): State {
    var plan := DmsPlan(warning, para);
    s.(rec := Build(s.rec, plan, Single),
       log := s.log + [Report(warning, time, para, extra, |s.frames|, MediaOf(plan, s.rec.lastId))])
  }

  predicate Passes(s: State, k: nat, now: int, secs: nat)
    requires k < |s.timers|
  {
    now - s.timers[k] >= secs
  }

  predicate ValidTimers(s: State) {
    |s.timers| == CLASSES + 1
  }

  /** A class whose edge rises but whose speed check fails ends the whole call. */
  predicate Stops(s: State, i: Input, k: nat) {
    Rising(k, s.last, MaskOf(i.can)) && !i.speedOk(k)
  }

  predicate StoppedBy(s: State, i: Input, k: nat) {
    k > 0 && (StoppedBy(s, i, k - 1) || Stops(s, i, k - 1))
  }

  function Class(s: State, i: Input, k: nat): (r: State)
    requires ValidTimers(s) && k < CLASSES
    ensures ValidTimers(r) && r.last == s.last && r.frames == s.frames
  {
    if !Rising(k, s.last, MaskOf(i.can)) || !i.speedOk(k) || !Passes(s, k, i.clock(k), Secs(k, i)) then s
    else Send(s.(timers := s.timers[k := i.clock(k)]), Warning(k), i.clock(k), i.extra, i.para)
  }

  /** The first k classes in order, up to one that stops the call. */
  function Classes(s: State, i: Input, k: nat): (r: State)
    requires ValidTimers(s) && k <= CLASSES
    ensures ValidTimers(r) && r.last == s.last && r.frames == s.frames
  {
    if k == 0 then s
    else if StoppedBy(s, i, k - 1) then Classes(s, i, k - 1)
    else Class(Classes(s, i, k - 1), i, k - 1)
  }

  /** A recognised driver, or else the end of an absence. */
  function Rest(s: State, i: Input): (r: State)
    requires ValidTimers(s)
    ensures ValidTimers(r) && r.frames == s.frames
  {
    var c := MaskOf(i.can);
    if Up(s.last.faceId, c.faceId) then Send(s, DRIVER_CHANGE, i.clock(RELEASE), i.extra, i.para)
    else if c.absence == 0 && s.last.absence != 0 && i.speedOk(RELEASE)
            && Passes(s, RELEASE, i.clock(RELEASE), RELEASE_SECS)
    then Send(s.(timers := s.timers[RELEASE := i.clock(RELEASE)]),
              SNAPSHOT_EVENT, i.clock(RELEASE), i.extra, i.para)
    else s
  }

  function Deal(s: State, i: Input): (r: State)
    requires ValidTimers(s)
    ensures ValidTimers(r)
  {
    var c := MaskOf(i.can);
    var s' := if c == s.last then s
              else if StoppedBy(s, i, CLASSES) then Classes(s, i, CLASSES)
              else Rest(Classes(s, i, CLASSES), i);
    s'.(last := c, frames := s.frames + [c])
  }

  function Exec(run: seq<Input>): (r: State)
    ensures ValidTimers(r)
  {
    if run == [] then START else Deal(Exec(run[..|run| - 1]), run[|run| - 1])
  }

  // ----- what every run keeps -----

  function PreviousFrame(frames: seq<Alert>, n: nat): Alert
    requires n <= |frames|
  {
    if n == 0 then CALM else frames[n - 1]
  }

  /** The report was caused by a rising edge of its own class between two consecutive frames. */
  predicate Caused(r: Report, k: nat, frames: seq<Alert>) {
    r.frame < |frames| && Rising(k, PreviousFrame(frames, r.frame), frames[r.frame])
  }

  /** The time of the last report of a warning, or 0. */
  function LastTime(log: seq<Report>, warning: byte): int {
    if log == [] then 0
    else if log[|log| - 1].warning == warning then log[|log| - 1].time
    else LastTime(log[..|log| - 1], warning)
  }

  /** The recording time of the warning, in its own byte of the parameters, plus the configured extra. */
  function FilterTime(r: Report): nat {
    r.extra + if r.warning == FATIGUE then r.para[25]
              else if r.warning == CALLING then r.para[29]
              else if r.warning == SMOKING then r.para[32]
              else if r.warning == DISTRACT then r.para[35]
              else r.para[38]
  }

  /** Every report of class k has its filter time between it and the one before. */
  predicate Spaced(log: seq<Report>, k: nat) {
    log == []
    || (&& Spaced(log[..|log| - 1], k)
        && (log[|log| - 1].warning == Warning(k) ==>
              log[|log| - 1].time - LastTime(log[..|log| - 1], Warning(k)) >= FilterTime(log[|log| - 1])))
  }

  /** The timer of class k holds its last report, and its reports are spaced and caused. */
  predicate Good(s: State, k: nat, frames: seq<Alert>)
    requires ValidTimers(s) && k < CLASSES
  {
    && s.timers[k] == LastTime(s.log, Warning(k)) && Spaced(s.log, k)
    && (forall n | 0 <= n < |s.log| && s.log[n].warning == Warning(k) :: Caused(s.log[n], k, frames))
  }

  lemma SendGood(s: State, k: nat, frames: seq<Alert>, warning: byte, time: int, extra: nat, para: DmsPara,
                 timers: seq<int>)
    requires ValidTimers(s) && k < CLASSES && Good(s, k, frames) && |timers| == CLASSES + 1
    requires if warning == Warning(k)
             then var r := Report(warning, time, para, extra, |s.frames|, []);
                  timers[k] == time && time - s.timers[k] >= FilterTime(r) && Caused(r, k, frames)
             else timers[k] == s.timers[k]
    ensures Good(Send(s.(timers := timers), warning, time, extra, para), k, frames)
  {
  }

  lemma ClassGood(s: State, i: Input, j: nat, k: nat)
    requires ValidTimers(s) && k < CLASSES && j < CLASSES
    requires s.last == PreviousFrame(s.frames, |s.frames|)
    requires Good(s, k, s.frames + [MaskOf(i.can)])
    ensures Good(Class(s, i, j), k, s.frames + [MaskOf(i.can)])
  {
    var frames := s.frames + [MaskOf(i.can)];
    assert PreviousFrame(frames, |s.frames|) == s.last;
    if Rising(j, s.last, MaskOf(i.can)) && i.speedOk(j) && Passes(s, j, i.clock(j), Secs(j, i)) {
      SendGood(s, k, frames, Warning(j), i.clock(j), i.extra, i.para, s.timers[j := i.clock(j)]);
    }
  }

  lemma {:induction false} ClassesGood(s: State, i: Input, n: nat, k: nat)
    requires ValidTimers(s) && k < CLASSES && n <= CLASSES
    requires s.last == PreviousFrame(s.frames, |s.frames|)
    requires Good(s, k, s.frames + [MaskOf(i.can)])
    ensures Good(Classes(s, i, n), k, s.frames + [MaskOf(i.can)])
  {
    if n > 0 {
      var s1 := Classes(s, i, n - 1);
      ClassesGood(s, i, n - 1, k);
      if !StoppedBy(s, i, n - 1) {
        ClassGood(s1, i, n - 1, k);
      }
    }
  }

  lemma RestGood(s: State, i: Input, k: nat, frames: seq<Alert>)
    requires ValidTimers(s) && k < CLASSES && Good(s, k, frames)
    ensures Good(Rest(s, i), k, frames)
  {
    SendGood(s, k, frames, DRIVER_CHANGE, i.clock(RELEASE), i.extra, i.para, s.timers);
    SendGood(s, k, frames, SNAPSHOT_EVENT, i.clock(RELEASE), i.extra, i.para,
             s.timers[RELEASE := i.clock(RELEASE)]);
  }

  lemma MoreFrames(s: State, k: nat, c: Alert)
    requires ValidTimers(s) && k < CLASSES && Good(s, k, s.frames)
    ensures Good(s, k, s.frames + [c])
  {
  }

  lemma {:induction false} ExecGood(run: seq<Input>, k: nat)
    requires k < CLASSES
    ensures var s := Exec(run);
            s.last == PreviousFrame(s.frames, |s.frames|) && Good(s, k, s.frames)
  {
    if run != [] {
      var s, i := Exec(run[..|run| - 1]), run[|run| - 1];
      ExecGood(run[..|run| - 1], k);
      var frames := s.frames + [MaskOf(i.can)];
      MoreFrames(s, k, MaskOf(i.can));
      ClassesGood(s, i, CLASSES, k);
      RestGood(Classes(s, i, CLASSES), i, k, frames);
    }
  }

  lemma {:induction false} FramesAreInputs(run: seq<Input>)
    ensures |Exec(run).frames| == |run|
    ensures forall n | 0 <= n < |run| :: Exec(run).frames[n] == MaskOf(run[n].can)
  {
    if run != [] {
      FramesAreInputs(run[..|run| - 1]);
    }
  }

  lemma {:induction false} SpacedPair(log: seq<Report>, k: nat, a: nat)
    requires Spaced(log, k) && a < |log| && log[a].warning == Warning(k)
    ensures log[a].time <= LastTime(log, Warning(k))
    ensures forall b | a < b < |log| && log[b].warning == Warning(k) ::
              log[b].time - log[a].time >= FilterTime(log[b])
  {
    if a < |log| - 1 {
      SpacedPair(log[..|log| - 1], k, a);
    }
  }

  /** The masked frame before the n-th, all calm at the start. */
  function PreviousInput(run: seq<Input>, n: nat): Alert
    requires n <= |run|
  {
    if n == 0 then CALM else MaskOf(run[n - 1].can)
  }

  lemma FramesAt(run: seq<Input>, n: nat)
    requires n < |run|
    ensures |Exec(run).frames| == |run| && Exec(run).frames[n] == MaskOf(run[n].can)
    ensures PreviousFrame(Exec(run).frames, n) == PreviousInput(run, n)
  {
    FramesAreInputs(run);
  }

  /** In every run, each warning of the five classes is caused by a rising edge of its class between
      the frame received before and the frame it was sent for. */
  lemma WarningCaused(run: seq<Input>, k: nat, n: nat)
    requires k < CLASSES && n < |Exec(run).log| && Exec(run).log[n].warning == Warning(k)
    ensures var at := Exec(run).log[n].frame;
            at < |run| && Rising(k, PreviousInput(run, at), MaskOf(run[at].can))
  {
    var s := Exec(run);
    var at := s.log[n].frame;
    assert Caused(s.log[n], k, s.frames) by { ExecGood(run, k); }
    assert at < |run| by { FramesAreInputs(run); }
    FramesAt(run, at);
  }

  /** Two warnings of a class are at least the filter time in force at the second apart. */
  lemma WarningsSpaced(run: seq<Input>, k: nat, a: nat, b: nat)
    requires k < CLASSES && a < b < |Exec(run).log|
    requires Exec(run).log[a].warning == Exec(run).log[b].warning == Warning(k)
    ensures var r, elapsed := Exec(run).log[b], Exec(run).log[b].time - Exec(run).log[a].time;
            && (r.warning == FATIGUE ==> elapsed >= r.para[25] + r.extra)
            && (r.warning == DISTRACT ==> elapsed >= r.para[35] + r.extra)
            && (r.warning == CALLING ==> elapsed >= r.para[29] + r.extra)
            && (r.warning == SMOKING ==> elapsed >= r.para[32] + r.extra)
            && (r.warning == ABNORMAL ==> elapsed >= r.para[38] + r.extra)
  {
    ExecGood(run, k);
    SpacedPair(Exec(run).log, k, a);
  }

  // ----- exactly which edges are reported -----

  ghost predicate Added(s: State, s': State, warning: byte) {
    exists n :: |s.log| <= n < |s'.log| && s'.log[n].warning == warning
  }

  predicate Due(s: State, i: Input, k: nat)
    requires ValidTimers(s) && k < CLASSES
  {
    && Rising(k, s.last, MaskOf(i.can)) && !StoppedBy(s, i, k) && i.speedOk(k)
    && Passes(s, k, i.clock(k), Secs(k, i))
  }

  lemma SendAdds(s: State, s1: State, w: byte, warning: byte, time: int, extra: nat, para: DmsPara)
    requires s.log <= s1.log
    ensures s.log <= Send(s1, warning, time, extra, para).log
    ensures Added(s, Send(s1, warning, time, extra, para), w) <==> Added(s, s1, w) || warning == w
  {
    var s2 := Send(s1, warning, time, extra, para);
    assert forall n | 0 <= n < |s1.log| :: s2.log[n] == s1.log[n];
    assert s2.log[|s1.log|].warning == warning;
  }

  lemma {:induction false} ClassesAdd(s: State, i: Input, n: nat, k: nat)
    requires ValidTimers(s) && k < CLASSES && n <= CLASSES
    ensures var s' := Classes(s, i, n);
            && s.log <= s'.log && (n <= k ==> s'.timers[k] == s.timers[k])
            && (Added(s, s', Warning(k)) <==> k < n && Due(s, i, k))
  {
    if n > 0 {
      ClassesAdd(s, i, n - 1, k);
      var s1, j := Classes(s, i, n - 1), n - 1;
      var timed := s1.(timers := s1.timers[j := i.clock(j)]);
      SendAdds(s, timed, Warning(k), Warning(j), i.clock(j), i.extra, i.para);
      assert Added(s, timed, Warning(k)) <==> Added(s, s1, Warning(k));
      if StoppedBy(s, i, k) && k <= j {
        StoppedMonotone(s, i, k, j);
      }
    }
  }

  lemma {:induction false} StoppedMonotone(s: State, i: Input, a: nat, b: nat)
    requires a <= b && StoppedBy(s, i, a)
    ensures StoppedBy(s, i, b)
  {
    if a < b {
      StoppedMonotone(s, i, a, b - 1);
    }
  }

  /** No class of priority k or higher is held back by the speed filter. */
  predicate NoneStops(s: State, i: Input, k: nat) {
    forall j | 0 <= j <= k :: !Stops(s, i, j)
  }

  lemma DueMeans(s: State, i: Input, k: nat)
    requires ValidTimers(s) && k < CLASSES
    ensures Due(s, i, k) <==> && Rising(k, s.last, MaskOf(i.can)) && NoneStops(s, i, k)
                              && i.clock(k) - s.timers[k] >= Secs(k, i)
  {
    StoppedByMeans(s, i, k);
    assert NoneStops(s, i, k) <==> !StoppedBy(s, i, k) && !Stops(s, i, k);
  }

  /** After any run, the next frame makes a class report exactly when its edge rises, no class of
      higher or equal priority is held back by the speed filter, and its last report (or the start
      of the clock) is the filter time away. */
  lemma EdgeReportedExactly(run: seq<Input>, i: Input, k: nat)
    requires k < CLASSES
    ensures var s := Exec(run);
            Added(s, Deal(s, i), Warning(k))
            <==> && Rising(k, s.last, MaskOf(i.can)) && NoneStops(s, i, k)
                 && i.clock(k) - LastTime(s.log, Warning(k)) >= Secs(k, i)
  {
    ExecGood(run, k);
    DealAdds(Exec(run), i, k);
    DueMeans(Exec(run), i, k);
  }

  lemma RestAdds(s: State, s1: State, i: Input, k: nat)
    requires ValidTimers(s1) && s.log <= s1.log && k < CLASSES
    ensures Added(s, Rest(s1, i), Warning(k)) <==> Added(s, s1, Warning(k))
  {
    SendAdds(s, s1, Warning(k), DRIVER_CHANGE, i.clock(RELEASE), i.extra, i.para);
    var timed := s1.(timers := s1.timers[RELEASE := i.clock(RELEASE)]);
    SendAdds(s, timed, Warning(k), SNAPSHOT_EVENT, i.clock(RELEASE), i.extra, i.para);
    assert Added(s, timed, Warning(k)) <==> Added(s, s1, Warning(k));
  }

  lemma DealAdds(s: State, i: Input, k: nat)
    requires ValidTimers(s) && k < CLASSES
    ensures Added(s, Deal(s, i), Warning(k)) <==> Due(s, i, k)
  {
    ClassesAdd(s, i, CLASSES, k);
    var s1 := Classes(s, i, CLASSES);
    RestAdds(s, s1, i, k);
    var s' := Deal(s, i);
    assert s'.log == (if MaskOf(i.can) == s.last then s.log
                      else if StoppedBy(s, i, CLASSES) then s1.log else Rest(s1, i).log);
  }

  lemma {:induction false} ClassesAddNothingElse(s: State, i: Input, n: nat, w: byte)
    requires ValidTimers(s) && n <= CLASSES && w in {DRIVER_CHANGE, SNAPSHOT_EVENT}
    ensures var s' := Classes(s, i, n);
            s.log <= s'.log && !Added(s, s', w) && s'.timers[RELEASE] == s.timers[RELEASE]
  {
    if n > 0 {
      ClassesAddNothingElse(s, i, n - 1, w);
      var s1, j := Classes(s, i, n - 1), n - 1;
      var timed := s1.(timers := s1.timers[j := i.clock(j)]);
      SendAdds(s, timed, w, Warning(j), i.clock(j), i.extra, i.para);
      assert Added(s, timed, w) <==> Added(s, s1, w);
    }
  }

  /** A change of driver is reported exactly on its rising edge, and the end of an absence exactly on
      its falling edge when no driver is recognised and both filters pass, unless the speed filter
      has stopped the call before. */
  lemma OthersReportedExactly(s: State, i: Input)
    requires ValidTimers(s)
    ensures var c := MaskOf(i.can);
            && (Added(s, Deal(s, i), DRIVER_CHANGE)
                <==> NoneStops(s, i, CLASSES - 1) && Up(s.last.faceId, c.faceId))
            && (Added(s, Deal(s, i), SNAPSHOT_EVENT)
                <==> && NoneStops(s, i, CLASSES - 1) && !Up(s.last.faceId, c.faceId)
                     && Up(c.absence, s.last.absence) && i.speedOk(RELEASE)
                     && i.clock(RELEASE) - s.timers[RELEASE] >= RELEASE_SECS)
  {
    StoppedByMeans(s, i, CLASSES);
    assert NoneStops(s, i, CLASSES - 1) <==> !StoppedBy(s, i, CLASSES);
    RestAddsExactly(s, i, DRIVER_CHANGE);
    RestAddsExactly(s, i, SNAPSHOT_EVENT);
    var s1 := Classes(s, i, CLASSES);
    assert Deal(s, i).log == (if MaskOf(i.can) == s.last then s.log
                              else if StoppedBy(s, i, CLASSES) then s1.log else Rest(s1, i).log);
  }

  lemma RestAddsExactly(s: State, i: Input, w: byte)
    requires ValidTimers(s) && w in {DRIVER_CHANGE, SNAPSHOT_EVENT}
    ensures var s1, c := Classes(s, i, CLASSES), MaskOf(i.can);
            && !Added(s, s1, w)
            && (Added(s, Rest(s1, i), w)
                <==> if w == DRIVER_CHANGE then Up(s.last.faceId, c.faceId)
                     else !Up(s.last.faceId, c.faceId) && Up(c.absence, s.last.absence) && i.speedOk(RELEASE)
                          && i.clock(RELEASE) - s.timers[RELEASE] >= RELEASE_SECS)
  {
    ClassesAddNothingElse(s, i, CLASSES, w);
    var s1 := Classes(s, i, CLASSES);
    SendAdds(s, s1, w, DRIVER_CHANGE, i.clock(RELEASE), i.extra, i.para);
    var timed := s1.(timers := s1.timers[RELEASE := i.clock(RELEASE)]);
    SendAdds(s, timed, w, SNAPSHOT_EVENT, i.clock(RELEASE), i.extra, i.para);
    assert Added(s, timed, w) <==> Added(s, s1, w);
  }

  lemma {:induction false} StoppedByMeans(s: State, i: Input, k: nat)
    ensures StoppedBy(s, i, k) <==> exists j | 0 <= j < k :: Stops(s, i, j)
  {
    if k > 0 {
      StoppedByMeans(s, i, k - 1);
    }
  }

  // ----- the handler as written -----

  class DmsMonitor {
    var alertLast: Alert
    var timers: seq<int>
    const reporter: Reporter
    var log: seq<Report>
    ghost var frames: seq<Alert>

    ghost predicate Valid()
      reads this, reporter
    {
      reporter.Valid() && |timers| == CLASSES + 1
    }

    ghost function Abs(): State
      reads this, reporter
    {
      State(alertLast, timers, reporter.Abs(), log, frames)
    }

    constructor ()
      ensures Valid() && Abs() == START && fresh(reporter)
    {
      alertLast, timers := CALM, [0, 0, 0, 0, 0, 0];
      reporter := new Reporter();
      log, frames := [], [];
    }

    method SendReport(warning: byte, time: int, extra: nat, para: DmsPara, frame: nat, mm: array<Entry>)
      requires Valid() && 20 <= mm.Length && frame == |frames|
      modifies this`log, reporter, mm
      ensures Valid() && Abs() == Send(old(Abs()), warning, time, extra, para)
    {
      var mmNum := reporter.BuildDmsWarnFrame(warning, para, mm);
      log := log + [Report(warning, time, para, extra, frame, mm[..mmNum])];
    }

    /** One class; the result says whether the speed filter ends the call. */
    method OneClass(i: Input, k: nat, cur: Alert, frame: nat, mm: array<Entry>) returns (stop: bool)
      requires Valid() && 20 <= mm.Length && k < CLASSES && cur == MaskOf(i.can) && frame == |frames|
      modifies this`log, this`timers, reporter, mm
      ensures Valid() && Abs() == Class(old(Abs()), i, k)
      ensures stop == Stops(old(Abs()), i, k)
    {
      stop := false;
      if Rising(k, alertLast, cur) {
        if !i.speedOk(k) {
          return true;
        }
        if i.clock(k) - timers[k] >= Secs(k, i) {
          timers := timers[k := i.clock(k)];
          SendReport(Warning(k), i.clock(k), i.extra, i.para, frame, mm);
        }
      }
    }

    /** The five classes, highest priority first. */
    method AllClasses(i: Input, cur: Alert, frame: nat, mm: array<Entry>) returns (stop: bool)
      requires Valid() && 20 <= mm.Length && cur == MaskOf(i.can) && frame == |frames|
      modifies this`log, this`timers, reporter, mm
      ensures Valid() && Abs() == Classes(old(Abs()), i, CLASSES)
      ensures stop == StoppedBy(old(Abs()), i, CLASSES)
    {
      ghost var s := Abs();
      stop := false;
      var k := 0;
      while k < CLASSES && !stop
        invariant 0 <= k <= CLASSES && Valid()
        invariant Abs() == Classes(s, i, k) && stop == StoppedBy(s, i, k)
        decreases CLASSES - k
      {
        stop := OneClass(i, k, cur, frame, mm);
        k := k + 1;
      }
      if stop {
        SkipsRest(s, i, k, CLASSES);
      }
    }

    method Others(i: Input, cur: Alert, frame: nat, mm: array<Entry>)
      requires Valid() && 20 <= mm.Length && cur == MaskOf(i.can) && frame == |frames|
      modifies this`log, this`timers, reporter, mm
      ensures Valid() && Abs() == Rest(old(Abs()), i)
    {
      if cur.faceId != 0 && alertLast.faceId == 0 {
        SendReport(DRIVER_CHANGE, i.clock(RELEASE), i.extra, i.para, frame, mm);
        return;
      }
      if cur.absence == 0 && alertLast.absence != 0 {
        if !i.speedOk(RELEASE) {
          return;
        }
        if i.clock(RELEASE) - timers[RELEASE] >= RELEASE_SECS {
          timers := timers[RELEASE := i.clock(RELEASE)];
          SendReport(SNAPSHOT_EVENT, i.clock(RELEASE), i.extra, i.para, frame, mm);
        }
      }
    }

    method DealWsiDmsInfo(i: Input, frame: nat, mm: array<Entry>)
      requires Valid() && 20 <= mm.Length && frame == |frames|
      modifies this, reporter, mm
      ensures Valid() && Abs() == Deal(old(Abs()), i)
    {
      var cur := MaskOf(i.can);
      if cur != alertLast {
        var stop := AllClasses(i, cur, frame, mm);
        if !stop {
          Others(i, cur, frame, mm);
        }
      }
      alertLast := cur;
      frames := frames + [cur];
    }
  }

  lemma {:induction false} SkipsRest(s: State, i: Input, a: nat, b: nat)
    requires ValidTimers(s) && a <= b <= CLASSES && StoppedBy(s, i, a)
    ensures Classes(s, i, b) == Classes(s, i, a) && StoppedBy(s, i, b)
  {
    if a < b {
      SkipsRest(s, i, a, b - 1);
    }
  }
}
