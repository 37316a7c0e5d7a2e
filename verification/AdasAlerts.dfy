/** The ADAS alarm machine: lane departure and collision events, and the headway alarm with its
    BEGIN and END reports, behind a time filter and a speed filter. */
module AdasAlerts {
  import opened Bytes
  import opened Stuffing
  import opened Frames
  import opened WarningReports
  import Params

  const RED := 2  // HW_LEVEL_RED_CAR

  /** The fields of a CAN 0x700 frame that survive the masks 0x01, 0x0E and 0x03 on bytes 2, 4
      and 7. */
  datatype Masked = Masked(headwayValid: bool, left: bool, right: bool, fcw: bool, level: nat)

  const NO_WARNING := Masked(false, false, false, false, 0)

  function MaskOf(can: Can): Masked {
    Masked(can[2] % 2 == 1, can[4] / 2 % 2 == 1, can[4] / 4 % 2 == 1, can[4] / 8 % 2 == 1, can[7] % 4)
  }

  /** The fields are the bits the masks let through, so comparing fields compares masked frames. */
  lemma FieldsAreMaskedBits(can: Can)
    ensures var m := MaskOf(can);
            && (if m.headwayValid then 1 else 0) == can[2] % 2
            && (if m.left then 2 else 0) + (if m.right then 4 else 0) + (if m.fcw then 8 else 0)
               == can[4] % 16 / 2 * 2
            && m.level == can[7] % 4
  {
    ThreeBits(can[4]);
  }

  /** One call: the frame, the parameters and configured extra filter seconds in force, and what each
      of the up to three clock readings and speed checks returns. */
  datatype Input = Input(can: Can, para: Params.AdasPara, extra: nat,
                         ldwClock: int, fcwClock: int, hwClock: int,
                         ldwSpeedOk: bool, fcwSpeedOk: bool, hwSpeedOk: bool)

  /** A report as sent, with the parameters and the extra filter seconds in force when it was made. */
  datatype Report = Report(warning: byte, status: Status, time: int, para: Params.AdasPara, extra: nat,
                           media: seq<Entry>)

  datatype State = State(
    last: Masked,                               // g_last_warning_data
    ldwAt: int, fcwAt: int, hwAt: int, open: bool,  // the function's static variables
    rec: Recorder, log: seq<Report>,
    now: int)                                   // history: the latest clock reading

  const START := State(NO_WARNING, 0, 0, 0, false, EMPTY, [], 0)

  predicate Passes(now: int, last: int, secs: nat) {
    now - last >= secs
  }

  function Send(s: State, warning: byte, status: Status, time: int, extra: nat, para: Params.AdasPara): State {
    var plan := AdasPlan(warning, para);
    s.(rec := Build(s.rec, plan, status),
       log := s.log + [Report(warning, status, time, para, extra, ReportMedia(s.rec, plan, status))])
  }

  predicate NewTrigger(s: State, m: Masked) {
    (m.left || m.right || m.fcw) && (m.left, m.right, m.fcw) != (s.last.left, s.last.right, s.last.fcw)
  }

  // The filter times: the recording time plus the configured extra.
  function LdwSecs(i: Input): nat { i.para[AdasVideoAt(LDW)] + i.extra }
  function FcwSecs(i: Input): nat { i.para[AdasVideoAt(FCW)] + i.extra }
  function HwSecs(i: Input): nat { i.para[AdasVideoAt(HW)] + i.extra }

  /** Whether the lane departure branch is entered and its time filter passes. */
  predicate LdwDue(s: State, i: Input) {
    var m := MaskOf(i.can);
    NewTrigger(s, m) && (m.left || m.right) && Passes(i.ldwClock, s.ldwAt, LdwSecs(i))
  }

  predicate FcwDue(s: State, i: Input) {
    var m := MaskOf(i.can);
    NewTrigger(s, m) && m.fcw && Passes(i.fcwClock, s.fcwAt, FcwSecs(i))
  }

  /** The speed filter then jumps over the rest of the function, headway included. */
  predicate Cut(s: State, i: Input) {
    (LdwDue(s, i) && !i.ldwSpeedOk) || (FcwDue(s, i) && !i.fcwSpeedOk)
  }

  function Ldw(s: State, i: Input): State {
    if !LdwDue(s, i) then s
    else if !i.ldwSpeedOk then s.(ldwAt := i.ldwClock)
    else Send(s.(ldwAt := i.ldwClock), LDW, Single, i.ldwClock, i.extra, i.para)
  }

  function Fcw(s: State, i: Input): State {
    if !FcwDue(s, i) then s
    else if !i.fcwSpeedOk then s.(fcwAt := i.fcwClock)
    else Send(s.(fcwAt := i.fcwClock), FCW, Single, i.fcwClock, i.extra, i.para)
  }

  function Headway(s: State, i: Input): State {
    var level := i.can[7] % 4;
    if level == s.last.level then s
    else if level == RED then
      if !Passes(i.hwClock, s.hwAt, HwSecs(i)) then s
      else if !i.hwSpeedOk then s.(hwAt := i.hwClock)
      else Send(s.(hwAt := i.hwClock, open := true), HW, Begin, i.hwClock, i.extra, i.para)
    else if s.last.level == RED && s.open then
      Send(s.(hwAt := i.hwClock, open := false), HW, End, i.hwClock, i.extra, i.para)
    else s
  }

  /** One frame. */
  function Deal(s: State, i: Input): State {
    var m := MaskOf(i.can);
    if m == s.last then s.(now := i.hwClock)
    else
      var s1 := Ldw(s, i);
      if LdwDue(s, i) && !i.ldwSpeedOk then s1.(last := m, now := i.hwClock)
      else
        var s2 := Fcw(s1, i);
        if FcwDue(s, i) && !i.fcwSpeedOk then s2.(last := m, now := i.hwClock)
        else Headway(s2, i).(last := m, now := i.hwClock)
  }

  /** A frame, or a snapshot taken on command or by the timer thread. */
  datatype Event = Frame(i: Input) | Snap(para: Params.AdasPara, time: int)

  function Do(s: State, e: Event): State {
    match e
    case Frame(i) => Deal(s, i)
    case Snap(para, time) => Send(s, SNAP, Single, time, 0, para)
  }

  function Exec(run: seq<Event>): State {
    if run == [] then START else Do(Exec(run[..|run| - 1]), run[|run| - 1])
  }

  // ----- BEGIN and END -----

  /** The status of the last headway report. */
  function LastHw(log: seq<Report>): Status {
    if log == [] then Single
    else if log[|log| - 1].warning == HW then log[|log| - 1].status
    else LastHw(log[..|log| - 1])
  }

  /** The media of the last headway BEGIN. */
  function LastBegun(log: seq<Report>): seq<Entry> {
    if log == [] then []
    else if log[|log| - 1].warning == HW && log[|log| - 1].status.Begin? then log[|log| - 1].media
    else LastBegun(log[..|log| - 1])
  }

  /** How the machine's flag and saved media follow from its log. */
  predicate Tracks(s: State) {
    && (s.open <==> LastHw(s.log).Begin?)
    && s.rec.begun == LastBegun(s.log)
  }

  /** What each END of a log must satisfy. */
  predicate EndsAnswered(log: seq<Report>) {
    log == []
    || (&& EndsAnswered(log[..|log| - 1])
        && (log[|log| - 1].status.End? ==>
              && log[|log| - 1].warning == HW
              && LastHw(log[..|log| - 1]).Begin?
              && log[|log| - 1].media == LastBegun(log[..|log| - 1])))
  }

  lemma SendTracks(s: State, warning: byte, status: Status, time: int, extra: nat, para: Params.AdasPara, open: bool)
    requires Tracks(s) && EndsAnswered(s.log)
    requires warning != HW ==> status.Single? && open == s.open
    requires warning == HW ==> open == status.Begin? && (status.End? ==> s.open)
    ensures var s' := Send(s.(open := open), warning, status, time, extra, para);
            Tracks(s') && EndsAnswered(s'.log)
  {
  }

  predicate Good(s: State) {
    Tracks(s) && EndsAnswered(s.log)
  }

  lemma LdwGood(s: State, i: Input)
    requires Good(s)
    ensures Good(Ldw(s, i))
  {
    SendTracks(s.(ldwAt := i.ldwClock), LDW, Single, i.ldwClock, i.extra, i.para, s.open);
  }

  lemma FcwGood(s: State, i: Input)
    requires Good(s)
    ensures Good(Fcw(s, i))
  {
    SendTracks(s.(fcwAt := i.fcwClock), FCW, Single, i.fcwClock, i.extra, i.para, s.open);
  }

  lemma HeadwayGood(s: State, i: Input)
    requires Good(s)
    ensures Good(Headway(s, i))
  {
    var s1 := s.(hwAt := i.hwClock);
    SendTracks(s1, HW, Begin, i.hwClock, i.extra, i.para, true);
    if s.open {
      SendTracks(s1, HW, End, i.hwClock, i.extra, i.para, false);
    }
  }

  lemma DealGood(s: State, i: Input)
    requires Good(s)
    ensures Good(Deal(s, i))
  {
    var m, s1 := MaskOf(i.can), Ldw(s, i);
    if m == s.last {
      Relabelled(s, s.last, i.hwClock);
    } else {
      LdwGood(s, i);
      Relabelled(s1, m, i.hwClock);
      var s2 := Fcw(s1, i);
      FcwGood(s1, i);
      Relabelled(s2, m, i.hwClock);
      HeadwayGood(s2, i);
      Relabelled(Headway(s2, i), m, i.hwClock);
    }
  }

  lemma Relabelled(s: State, last: Masked, now: int)
    requires Good(s)
    ensures Good(s.(last := last, now := now)) && Good(s.(now := now))
  {
  }

  lemma {:induction false} ExecGood(run: seq<Event>)
    ensures Good(Exec(run))
  {
    if run != [] {
      var s, e := Exec(run[..|run| - 1]), run[|run| - 1];
      ExecGood(run[..|run| - 1]);
      match e
      case Frame(i) => DealGood(s, i);
      case Snap(para, time) => SendTracks(s, SNAP, Single, time, 0, para, s.open);
    }
  }

  lemma {:induction false} EndsAnsweredAt(log: seq<Report>, j: nat)
    requires EndsAnswered(log) && j < |log| && log[j].status.End?
    ensures log[j].warning == HW && LastHw(log[..j]).Begin? && log[j].media == LastBegun(log[..j])
  {
    if j < |log| - 1 {
      EndsAnsweredAt(log[..|log| - 1], j);
      assert log[..|log| - 1][..j] == log[..j];
    }
  }

  /** In every run, with any lane departure, collision and snapshot reports in between: an END comes
      only after a BEGIN not yet ended, and announces exactly that BEGIN's media. */
  lemma EndAnswersBegin(run: seq<Event>, j: nat)
    requires j < |Exec(run).log| && Exec(run).log[j].status.End?
    ensures var log := Exec(run).log;
            LastHw(log[..j]) == Begin && log[j].media == LastBegun(log[..j])
  {
    ExecGood(run);
    EndsAnsweredAt(Exec(run).log, j);
  }

  // ----- when BEGIN and END alternate -----

  /** An open alarm was last seen at level RED. */
  predicate OpenIsRed(s: State) {
    s.open ==> s.last.level == RED
  }

  /** A frame leaves RED with the alarm open, but the speed filter of another warning jumps over the
      headway branch: the END is lost, yet the new level is stored. */
  predicate LosesEnd(s: State, e: Event) {
    && e.Frame? && MaskOf(e.i.can) != s.last
    && s.open && MaskOf(e.i.can).level != RED && Cut(s, e.i)
  }

  predicate NoEndLost(run: seq<Event>) {
    run == [] || (NoEndLost(run[..|run| - 1]) && !LosesEnd(Exec(run[..|run| - 1]), run[|run| - 1]))
  }

  /** Losing an END is the one way the invariant breaks. */
  lemma OpenIsRedStep(s: State, e: Event)
    requires OpenIsRed(s)
    ensures OpenIsRed(Do(s, e)) <==> !LosesEnd(s, e)
  {
  }

  lemma {:induction false} OpenIsRedKept(run: seq<Event>)
    requires NoEndLost(run)
    ensures OpenIsRed(Exec(run))
  {
    if run != [] {
      OpenIsRedKept(run[..|run| - 1]);
      OpenIsRedStep(Exec(run[..|run| - 1]), run[|run| - 1]);
    }
  }

  /** No headway report repeats the status of the one before it. */
  predicate Alternates(log: seq<Report>) {
    log == []
    || (&& Alternates(log[..|log| - 1])
        && (log[|log| - 1].warning == HW ==> log[|log| - 1].status != LastHw(log[..|log| - 1])))
  }

  lemma SendAlternates(s: State, warning: byte, status: Status, time: int, extra: nat, para: Params.AdasPara)
    requires Alternates(s.log) && (warning == HW ==> status != LastHw(s.log))
    ensures Alternates(Send(s, warning, status, time, extra, para).log)
  {
  }

  lemma LdwAlternates(s: State, i: Input)
    requires Alternates(s.log)
    ensures Alternates(Ldw(s, i).log) && Ldw(s, i).open == s.open && Ldw(s, i).last == s.last
  {
  }

  lemma FcwAlternates(s: State, i: Input)
    requires Alternates(s.log)
    ensures Alternates(Fcw(s, i).log) && Fcw(s, i).open == s.open && Fcw(s, i).last == s.last
  {
  }

  lemma HeadwayAlternates(s: State, i: Input)
    requires Alternates(s.log) && Tracks(s) && OpenIsRed(s)
    ensures Alternates(Headway(s, i).log)
  {
  }

  lemma DealAlternates(s: State, i: Input)
    requires Alternates(s.log) && Good(s) && OpenIsRed(s)
    ensures Alternates(Deal(s, i).log)
  {
    LdwAlternates(s, i);
    LdwGood(s, i);
    FcwAlternates(Ldw(s, i), i);
    FcwGood(Ldw(s, i), i);
    HeadwayAlternates(Fcw(Ldw(s, i), i), i);
  }

  /** In every run that loses no END, BEGIN and END strictly alternate. */
  lemma {:induction false} BeginEndAlternate(run: seq<Event>)
    requires NoEndLost(run)
    ensures Alternates(Exec(run).log)
  {
    if run != [] {
      var init, e := run[..|run| - 1], run[|run| - 1];
      BeginEndAlternate(init);
      ExecGood(init);
      OpenIsRedKept(init);
      match e
      case Frame(i) => DealAlternates(Exec(init), i);
      case Snap(para, time) => SendAlternates(Exec(init), SNAP, Single, time, 0, para);
    }
  }

  predicate SpeedAlwaysOk(run: seq<Event>) {
    forall k | 0 <= k < |run| :: run[k].Frame? ==> run[k].i.ldwSpeedOk && run[k].i.fcwSpeedOk
  }

  /** In particular when the speed filter lets every lane departure and collision warning pass. */
  lemma {:induction false} SpeedOkLosesNothing(run: seq<Event>)
    requires SpeedAlwaysOk(run)
    ensures NoEndLost(run)
  {
    if run != [] {
      SpeedOkLosesNothing(run[..|run| - 1]);
      assert run[|run| - 1].Frame? ==> run[|run| - 1].i.ldwSpeedOk;
    }
  }

  // ----- rate limiting -----

  predicate ClockForward(s: State, e: Event) {
    e.Frame? ==> s.now <= e.i.ldwClock <= e.i.fcwClock <= e.i.hwClock
  }

  predicate ClockMonotone(run: seq<Event>) {
    run == [] || (ClockMonotone(run[..|run| - 1]) && ClockForward(Exec(run[..|run| - 1]), run[|run| - 1]))
  }

  /** Reports whose spacing is limited: lane departures, collisions and headway BEGINs. */
  predicate Limited(r: Report) {
    r.warning == LDW || r.warning == FCW || (r.warning == HW && r.status.Begin?)
  }

  /** The recording time of the warning's own class, in bytes 29, 33 and 41 of the parameters, plus the
      configured extra. */
  function FilterTime(r: Report): nat {
    r.extra + if r.warning == LDW then r.para[29] else if r.warning == FCW then r.para[33] else r.para[41]
  }

  /** r keeps its distance from every earlier report of its class (for headway, BEGIN or END). */
  predicate Spaced(log: seq<Report>, r: Report) {
    Limited(r) ==> forall k | 0 <= k < |log| && log[k].warning == r.warning :: r.time - log[k].time >= FilterTime(r)
  }

  predicate AllSpaced(log: seq<Report>) {
    forall j | 0 <= j < |log| :: Spaced(log[..j], log[j])
  }

  predicate NotAfter(log: seq<Report>, warning: byte, at: int) {
    forall k | 0 <= k < |log| && log[k].warning == warning :: log[k].time <= at
  }

  predicate Timed(s: State) {
    && AllSpaced(s.log) && s.hwAt <= s.now
    && NotAfter(s.log, LDW, s.ldwAt) && NotAfter(s.log, FCW, s.fcwAt) && NotAfter(s.log, HW, s.hwAt)
  }

  lemma SendTimed(s: State, warning: byte, status: Status, time: int, extra: nat, para: Params.AdasPara, at: int)
    requires var r := Report(warning, status, time, para, extra, []);
             Timed(s) && (Limited(r) ==> time - at >= FilterTime(r))
    requires warning == SNAP || (warning in {LDW, FCW, HW} && NotAfter(s.log, warning, at) && at <= time)
    ensures var s' := Send(s, warning, status, time, extra, para);
            && AllSpaced(s'.log)
            && (forall w: byte, a: int | w != warning && NotAfter(s.log, w, a) :: NotAfter(s'.log, w, a))
            && (warning != SNAP ==> NotAfter(s'.log, warning, time))
  {
  }

  lemma LdwTimed(s: State, i: Input)
    requires Timed(s)
    ensures Timed(Ldw(s, i)) && Ldw(s, i).now == s.now
  {
  }

  lemma FcwTimed(s: State, i: Input)
    requires Timed(s)
    ensures Timed(Fcw(s, i)) && Fcw(s, i).now == s.now
  {
  }

  lemma HeadwayTimed(s: State, i: Input)
    requires Timed(s) && s.now <= i.hwClock
    ensures Timed(Headway(s, i).(now := i.hwClock))
  {
  }

  lemma DealTimed(s: State, i: Input)
    requires Timed(s) && s.now <= i.ldwClock <= i.fcwClock <= i.hwClock
    ensures Timed(Deal(s, i))
  {
    LdwTimed(s, i);
    FcwTimed(Ldw(s, i), i);
    HeadwayTimed(Fcw(Ldw(s, i), i), i);
  }

  lemma {:induction false} ExecTimed(run: seq<Event>)
    requires ClockMonotone(run)
    ensures Timed(Exec(run))
  {
    if run != [] {
      var s, e := Exec(run[..|run| - 1]), run[|run| - 1];
      ExecTimed(run[..|run| - 1]);
      match e
      case Frame(i) => DealTimed(s, i);
      case Snap(para, time) =>
        SendTimed(s, SNAP, Single, time, 0, para, 0);
    }
  }

  /** Rate limiting over whole runs: a lane departure or collision report is at least the filter time
      then in force after every earlier one of its kind, and a headway BEGIN is that far from every
      earlier headway BEGIN and END. */
  lemma ReportsSpaced(run: seq<Event>, i: nat, j: nat)
    requires ClockMonotone(run) && i < j < |Exec(run).log|
    requires var log := Exec(run).log; log[i].warning == log[j].warning && Limited(log[j])
    ensures var r, elapsed := Exec(run).log[j], Exec(run).log[j].time - Exec(run).log[i].time;
            && (r.warning == LDW ==> elapsed >= r.para[29] + r.extra)
            && (r.warning == FCW ==> elapsed >= r.para[33] + r.extra)
            && (r.warning == HW ==> elapsed >= r.para[41] + r.extra)
  {
    ExecTimed(run);
    var log := Exec(run).log;
    assert Spaced(log[..j], log[j]);
    assert log[..j][i] == log[i];
  }

  // ----- the size of a report -----

  const MAX_MEDIA := 11

  ghost predicate Small(s: State) {
    |s.rec.begun| <= MAX_MEDIA && forall j | 0 <= j < |s.log| :: |s.log[j].media| <= MAX_MEDIA
  }

  lemma SendSmall(s: State, warning: byte, status: Status, time: int, extra: nat, para: Params.AdasPara)
    requires Small(s)
    ensures Small(Send(s, warning, status, time, extra, para))
  {
    AtMostEleven(warning, para, s.rec.lastId);
  }

  lemma LdwSmall(s: State, i: Input)
    requires Small(s)
    ensures Small(Ldw(s, i))
  {
    SendSmall(s.(ldwAt := i.ldwClock), LDW, Single, i.ldwClock, i.extra, i.para);
  }

  lemma FcwSmall(s: State, i: Input)
    requires Small(s)
    ensures Small(Fcw(s, i))
  {
    SendSmall(s.(fcwAt := i.fcwClock), FCW, Single, i.fcwClock, i.extra, i.para);
  }

  lemma HeadwaySmall(s: State, i: Input)
    requires Small(s)
    ensures Small(Headway(s, i))
  {
    SendSmall(s.(hwAt := i.hwClock, open := true), HW, Begin, i.hwClock, i.extra, i.para);
    SendSmall(s.(hwAt := i.hwClock, open := false), HW, End, i.hwClock, i.extra, i.para);
  }

  lemma DealSmall(s: State, i: Input)
    requires Small(s)
    ensures Small(Deal(s, i))
  {
    LdwSmall(s, i);
    FcwSmall(Ldw(s, i), i);
    HeadwaySmall(Fcw(Ldw(s, i), i), i);
  }

  lemma {:induction false} ExecSmall(run: seq<Event>)
    ensures Small(Exec(run))
  {
    if run != [] {
      var s, e := Exec(run[..|run| - 1]), run[|run| - 1];
      ExecSmall(run[..|run| - 1]);
      match e
      case Frame(i) => DealSmall(s, i);
      case Snap(para, time) => SendSmall(s, SNAP, Single, time, 0, para);
    }
  }

  /** Every report of every run, an END with its remembered list included, names at most eleven media
      and as an escaped frame fits its 512-byte buffer. */
  lemma ReportsFit(run: seq<Event>, j: nat, m: Message)
    requires j < |Exec(run).log| && |m.payload| == REPORT_HEADER + ENTRY_LEN * |Exec(run).log[j].media|
    ensures |Exec(run).log[j].media| <= MAX_MEDIA && |Escaped(FrameOf(m))| <= 188 <= TX_BUF
  {
    ExecSmall(run);
    SmallFrameFits(m, REPORT_HEADER + ENTRY_LEN * MAX_MEDIA);
  }

  // ----- exactly what a frame reports -----

  ghost predicate Added(s: State, s': State, warning: byte, status: Status) {
    exists n :: |s.log| <= n < |s'.log| && s'.log[n].warning == warning && s'.log[n].status == status
  }

  lemma SendAdds(s: State, s1: State, w: byte, st: Status, warning: byte, status: Status,
                 time: int, extra: nat, para: Params.AdasPara)
    requires s.log <= s1.log
    ensures s.log <= Send(s1, warning, status, time, extra, para).log
    ensures Added(s, Send(s1, warning, status, time, extra, para), w, st)
            <==> Added(s, s1, w, st) || (warning == w && status == st)
  {
    var s2 := Send(s1, warning, status, time, extra, para);
    assert forall n | 0 <= n < |s1.log| :: s2.log[n] == s1.log[n];
    assert s2.log[|s1.log|].warning == warning && s2.log[|s1.log|].status == status;
  }

  lemma TriggersAdd(s: State, i: Input, w: byte, st: Status)
    ensures var s1 := Ldw(s, i);
            var s2 := Fcw(s1, i);
            && s.log <= s1.log <= s2.log && s2.last == s.last && s2.open == s.open && s2.hwAt == s.hwAt
            && (Added(s, s1, w, st) <==> LdwDue(s, i) && i.ldwSpeedOk && w == LDW && st.Single?)
            && (Added(s, s2, w, st) <==> Added(s, s1, w, st)
                                         || (FcwDue(s, i) && i.fcwSpeedOk && w == FCW && st.Single?))
  {
    var s0 := s.(ldwAt := i.ldwClock);
    SendAdds(s, s0, w, st, LDW, Single, i.ldwClock, i.extra, i.para);
    var s1 := Ldw(s, i);
    var t1 := s1.(fcwAt := i.fcwClock);
    SendAdds(s, t1, w, st, FCW, Single, i.fcwClock, i.extra, i.para);
    assert Added(s, t1, w, st) <==> Added(s, s1, w, st);
    assert FcwDue(s1, i) <==> FcwDue(s, i);
  }

  lemma HeadwayAdds(s: State, s2: State, i: Input, w: byte, st: Status)
    requires s.log <= s2.log
    ensures var level := i.can[7] % 4;
            Added(s, Headway(s2, i), w, st)
            <==> || Added(s, s2, w, st)
                 || (&& w == HW && level != s2.last.level
                     && if level == RED
                        then st.Begin? && Passes(i.hwClock, s2.hwAt, HwSecs(i)) && i.hwSpeedOk
                        else st.End? && s2.last.level == RED && s2.open)
  {
    var begun, ended := s2.(hwAt := i.hwClock, open := true), s2.(hwAt := i.hwClock, open := false);
    SendAdds(s, begun, w, st, HW, Begin, i.hwClock, i.extra, i.para);
    SendAdds(s, ended, w, st, HW, End, i.hwClock, i.extra, i.para);
    var held := s2.(hwAt := i.hwClock);
    assert Added(s, begun, w, st) <==> Added(s, s2, w, st);
    assert Added(s, ended, w, st) <==> Added(s, s2, w, st);
    assert Added(s, held, w, st) <==> Added(s, s2, w, st);
  }

  /** The headway alarm, exactly: a BEGIN is reported when a frame enters RED and both filters pass, an
      END when a frame leaves RED with the alarm open; in both cases only if neither trigger's speed
      filter cut the frame off. The END itself is not filtered. */
  lemma HeadwayReportedExactly(s: State, i: Input)
    ensures var level := MaskOf(i.can).level;
            && (Added(s, Deal(s, i), HW, Begin)
                <==> && !Cut(s, i) && level == RED && s.last.level != RED
                     && i.hwClock - s.hwAt >= HwSecs(i) && i.hwSpeedOk)
            && (Added(s, Deal(s, i), HW, End)
                <==> !Cut(s, i) && level != RED && s.last.level == RED && s.open)
  {
    TriggersAdd(s, i, HW, Begin);
    TriggersAdd(s, i, HW, End);
    var s2 := Fcw(Ldw(s, i), i);
    HeadwayAdds(s, s2, i, HW, Begin);
    HeadwayAdds(s, s2, i, HW, End);
    DealLog(s, i);
  }

  /** Lane departure and collision, exactly: a new trigger whose time filter passes is reported when
      its speed check passes, a collision only if the lane departure did not cut the frame off. */
  lemma TriggersReportedExactly(s: State, i: Input)
    ensures var m := MaskOf(i.can);
            var changed := (m.left, m.right, m.fcw) != (s.last.left, s.last.right, s.last.fcw);
            var ldw := changed && (m.left || m.right) && i.ldwClock - s.ldwAt >= LdwSecs(i);
            && (Added(s, Deal(s, i), LDW, Single) <==> ldw && i.ldwSpeedOk)
            && (Added(s, Deal(s, i), FCW, Single)
                <==> && changed && m.fcw && i.fcwClock - s.fcwAt >= FcwSecs(i) && i.fcwSpeedOk
                     && !(ldw && !i.ldwSpeedOk))
  {
    TriggersAdd(s, i, LDW, Single);
    TriggersAdd(s, i, FCW, Single);
    var s2 := Fcw(Ldw(s, i), i);
    HeadwayAdds(s, s2, i, LDW, Single);
    HeadwayAdds(s, s2, i, FCW, Single);
    DealLog(s, i);
  }

  lemma DealLog(s: State, i: Input)
    ensures var s1 := Ldw(s, i);
            Deal(s, i).log == if MaskOf(i.can) == s.last then s.log
                              else if LdwDue(s, i) && !i.ldwSpeedOk then s1.log
                              else if FcwDue(s, i) && !i.fcwSpeedOk then Fcw(s1, i).log
                              else Headway(Fcw(s1, i), i).log
  {
  }

  /** A frame that enters RED with no trigger set, at a speed that passes. */
  function Approach(time: int, para: Params.AdasPara, extra: nat): Input {
    Input([0, 0, 0, 0, 0, 0, 0, 2], para, extra, time, time, time, true, true, true)
  }

  lemma ApproachReports(s: State, time: int, para: Params.AdasPara, extra: nat) returns (r: Report)
    requires s.last.level != RED && time - s.hwAt >= HwSecs(Approach(time, para, extra))
    ensures r.warning == HW && r.status == Begin && Deal(s, Approach(time, para, extra)).log == s.log + [r]
  {
    var i := Approach(time, para, extra);
    assert MaskOf(i.can) == Masked(false, false, false, false, RED);
    assert !LdwDue(s, i) && !FcwDue(s, i);
    DealLog(s, i);
    r := Headway(s, i).log[|s.log|];
  }

  lemma SecondBegin(log: seq<Report>, r: Report)
    requires LastHw(log).Begin? && r.warning == HW && r.status == Begin
    ensures !Alternates(log + [r])
  {
    SnocParts(log, r);
  }

  lemma ApproachBegins(s: State, time: int, para: Params.AdasPara, extra: nat)
    requires Good(s) && s.open && s.last.level != RED && time - s.hwAt >= HwSecs(Approach(time, para, extra))
    ensures !Alternates(Deal(s, Approach(time, para, extra)).log)
  {
    var r := ApproachReports(s, time, para, extra);
    SecondBegin(s.log, r);
  }

  lemma LostEndLeavesOpen(s: State, e: Event)
    requires LosesEnd(s, e)
    ensures Do(s, e).open && Do(s, e).last.level != RED
  {
  }

  /** A lost END does break the alternation: after any run and a frame that loses an END, the next
      close approach once the filter time is over reports a second BEGIN. */
  lemma LostEndRepeatsBegin(run: seq<Event>, e: Event, time: int, para: Params.AdasPara, extra: nat)
    requires LosesEnd(Exec(run), e) && time - Do(Exec(run), e).hwAt >= HwSecs(Approach(time, para, extra))
    ensures !Alternates(Exec(run + [e] + [Frame(Approach(time, para, extra))]).log)
  {
    SnocParts(run, e);
    SnocParts(run + [e], Frame(Approach(time, para, extra)));
    LostEndLeavesOpen(Exec(run), e);
    ExecGood(run + [e]);
    ApproachBegins(Exec(run + [e]), time, para, extra);
  }

  /** No step of the continuation loses an END. */
  predicate NoneLostAfter(run: seq<Event>, more: seq<Event>) {
    more == []
    || (&& NoneLostAfter(run, more[..|more| - 1])
        && !LosesEnd(Exec(run + more[..|more| - 1]), more[|more| - 1]))
  }

  lemma DoAlternates(s: State, e: Event)
    requires Alternates(s.log) && Good(s) && OpenIsRed(s)
    ensures Alternates(Do(s, e).log)
  {
    match e
    case Frame(i) => DealAlternates(s, i);
    case Snap(para, time) => SendAlternates(s, SNAP, Single, time, 0, para);
  }

  lemma {:induction false} AlternatesOn(run: seq<Event>, more: seq<Event>)
    requires Alternates(Exec(run).log) && OpenIsRed(Exec(run)) && NoneLostAfter(run, more)
    ensures Alternates(Exec(run + more).log) && OpenIsRed(Exec(run + more))
  {
    if more == [] {
      ConcatEmpty(run);
    } else {
      var init, e := more[..|more| - 1], more[|more| - 1];
      DropLastOfConcat(run, more);
      AlternatesOn(run, init);
      ExecGood(run + init);
      OpenIsRedStep(Exec(run + init), e);
      DoAlternates(Exec(run + init), e);
    }
  }

  lemma ApproachLosesNothing(run: seq<Event>, time: int, para: Params.AdasPara, extra: nat)
    ensures NoneLostAfter(run, [Frame(Approach(time, para, extra))])
  {
    var more := [Frame(Approach(time, para, extra))];
    assert more[..0] == [] && MaskOf(Approach(time, para, extra).can).level == RED;
  }

  /** The exact condition: after a run that alternated so far, every continuation that loses no END
      alternates if and only if the alarm is not open away from RED. */
  lemma AlternatesExactly(run: seq<Event>)
    requires Alternates(Exec(run).log)
    ensures OpenIsRed(Exec(run)) <==> forall more | NoneLostAfter(run, more) :: Alternates(Exec(run + more).log)
  {
    var s := Exec(run);
    if OpenIsRed(s) {
      forall more | NoneLostAfter(run, more)
        ensures Alternates(Exec(run + more).log)
      {
        AlternatesOn(run, more);
      }
    } else {
      var para: Params.AdasPara := Params.ZEROS;
      var time := s.hwAt + HwSecs(Approach(0, para, 0));
      var more := [Frame(Approach(time, para, 0))];
      ApproachLosesNothing(run, time, para, 0);
      ExecGood(run);
      ApproachBegins(s, time, para, 0);
      SnocParts(run, more[0]);
      assert !Alternates(Exec(run + more).log);
    }
  }

  // A close approach, a lane change at low speed that ends it, and a second close approach.
  const NEAR := Input([0, 0, 0, 0, 0, 0, 0, 2], Params.ZEROS, 10, 100, 100, 100, true, true, true)
  const SLOW := Input([0, 0, 0, 0, 2, 0, 0, 0], Params.ZEROS, 10, 200, 200, 200, false, true, true)
  const AGAIN := Input([0, 0, 0, 0, 0, 0, 0, 2], Params.ZEROS, 10, 300, 300, 300, true, true, true)

  lemma NearBegins()
    ensures var s := Deal(START, NEAR);
            && s.open && s.last == Masked(false, false, false, false, RED) && s.hwAt == 100 && s.ldwAt == 0
            && s.now == 100 && |s.log| == 1 && s.log[0].warning == HW && s.log[0].status == Begin
  {
  }

  lemma SlowIsCut()
    ensures var s1, s2 := Deal(START, NEAR), Deal(Deal(START, NEAR), SLOW);
            && LosesEnd(s1, Frame(SLOW))
            && s2.open && s2.last == Masked(false, true, false, false, 0) && s2.hwAt == 100
            && s2.now == 200 && s2.log == s1.log
  {
    NearBegins();
    assert LdwSecs(SLOW) == 10;
  }

  /** Without that condition the law fails: a slow car leaves RED while crossing a lane, the END is
      jumped over, and the next close approach reports a second BEGIN. */
  lemma SpeedFilterLosesEnd()
    ensures var run := [Frame(NEAR), Frame(SLOW), Frame(AGAIN)];
            var log := Exec(run).log;
            && !NoEndLost(run) && !Alternates(log)
            && |log| == 2 && log[0].status == Begin && log[1].status == Begin
  {
    var run := [Frame(NEAR), Frame(SLOW), Frame(AGAIN)];
    assert run[..2][..1] == run[..1] && run[..1][..0] == [];
    var s1, s2 := Deal(START, NEAR), Deal(Deal(START, NEAR), SLOW);
    assert Exec(run[..1]) == s1;
    assert Exec(run[..2]) == s2;
    NearBegins();
    SlowIsCut();
    assert HwSecs(AGAIN) == 10;
    var log := Exec(run).log;
    assert log == Deal(s2, AGAIN).log && |log| == 2;
    assert log[..1] == s1.log && log[..1][..0] == [];
  }

  // ----- the handler as written -----

  class AdasMonitor {
    var lastWarning: Masked
    var ldwAlert: int
    var fcwAlert: int
    var hwAlert: int
    var startFlag: bool
    const reporter: Reporter
    var log: seq<Report>
    ghost var now: int

    ghost predicate Valid()
      reads this, reporter
    {
      reporter.Valid()
    }

    ghost function Abs(): State
      reads this, reporter
    {
      State(lastWarning, ldwAlert, fcwAlert, hwAlert, startFlag, reporter.Abs(), log, now)
    }

    constructor ()
      ensures Valid() && Abs() == START && fresh(reporter)
    {
      lastWarning := NO_WARNING;
      ldwAlert, fcwAlert, hwAlert, startFlag := 0, 0, 0, false;
      reporter := new Reporter();
      log, now := [], 0;
    }

    method SendReport(warning: byte, status: Status, time: int, extra: nat, para: Params.AdasPara, mm: array<Entry>)
      requires Valid() && 20 <= mm.Length
      modifies this`log, reporter, mm
      ensures Valid() && Abs() == Send(old(Abs()), warning, status, time, extra, para)
    {
      var mmNum := reporter.BuildAdasWarnFrame(warning, status, para, mm);
      log := log + [Report(warning, status, time, para, extra, mm[..mmNum])];
    }

    /** The result says whether the rest of the frame is skipped. */
    method LdwPart(i: Input, mm: array<Entry>) returns (skip: bool)
      requires Valid() && 20 <= mm.Length
      requires NewTrigger(Abs(), MaskOf(i.can)) && (MaskOf(i.can).left || MaskOf(i.can).right)
      modifies this`log, this`ldwAlert, reporter, mm
      ensures Valid() && Abs() == Ldw(old(Abs()), i)
      ensures skip == (LdwDue(old(Abs()), i) && !i.ldwSpeedOk)
    {
      skip := false;
      if i.ldwClock - ldwAlert >= LdwSecs(i) {
        ldwAlert := i.ldwClock;
        if !i.ldwSpeedOk {
          return true;
        }
        SendReport(LDW, Single, i.ldwClock, i.extra, i.para, mm);
      }
    }

    method FcwPart(i: Input, mm: array<Entry>) returns (skip: bool)
      requires Valid() && 20 <= mm.Length
      requires NewTrigger(Abs(), MaskOf(i.can)) && MaskOf(i.can).fcw
      modifies this`log, this`fcwAlert, reporter, mm
      ensures Valid() && Abs() == Fcw(old(Abs()), i)
      ensures skip == (FcwDue(old(Abs()), i) && !i.fcwSpeedOk)
    {
      skip := false;
      if i.fcwClock - fcwAlert >= FcwSecs(i) {
        fcwAlert := i.fcwClock;
        if !i.fcwSpeedOk {
          return true;
        }
        SendReport(FCW, Single, i.fcwClock, i.extra, i.para, mm);
      }
    }

    method Triggers(i: Input, can: Masked, mm: array<Entry>) returns (skip: bool)
      requires Valid() && 20 <= mm.Length && can == MaskOf(i.can)
      modifies this`log, this`ldwAlert, this`fcwAlert, reporter, mm
      ensures Valid() && skip == Cut(old(Abs()), i)
      ensures Abs() == if LdwDue(old(Abs()), i) && !i.ldwSpeedOk then Ldw(old(Abs()), i)
                       else Fcw(Ldw(old(Abs()), i), i)
    {
      skip := false;
      if (can.left || can.right || can.fcw)
         && (can.left, can.right, can.fcw) != (lastWarning.left, lastWarning.right, lastWarning.fcw) {
        if can.left || can.right {
          skip := LdwPart(i, mm);
          if skip {
            return;
          }
        }
        if can.fcw {
          skip := FcwPart(i, mm);
        }
      }
    }

    method HeadwayPart(i: Input, can: Masked, mm: array<Entry>)
      requires Valid() && 20 <= mm.Length && can == MaskOf(i.can)
      modifies this`log, this`hwAlert, this`startFlag, reporter, mm
      ensures Valid() && Abs() == Headway(old(Abs()), i)
    {
      if lastWarning.level != can.level {
        if can.level == RED {
          if i.hwClock - hwAlert >= HwSecs(i) {
            hwAlert := i.hwClock;
            if !i.hwSpeedOk {
              return;
            }
            startFlag := true;
            SendReport(HW, Begin, i.hwClock, i.extra, i.para, mm);
          }
        } else if lastWarning.level == RED && startFlag {
          startFlag := false;
          hwAlert := i.hwClock;
          SendReport(HW, End, i.hwClock, i.extra, i.para, mm);
        }
      }
    }

    method DealWsiAdasCan700(i: Input, mm: array<Entry>)
      requires Valid() && 20 <= mm.Length
      modifies this, reporter, mm
      ensures Valid() && Abs() == Deal(old(Abs()), i)
    {
      var can := MaskOf(i.can);
      if can == lastWarning {
        now := i.hwClock;
        return;
      }
      var skip := Triggers(i, can, mm);
      if !skip {
        HeadwayPart(i, can, mm);
      }
      lastWarning := can;
      now := i.hwClock;
    }
  }
}
