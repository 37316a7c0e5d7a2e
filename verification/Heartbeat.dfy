/** The heartbeat watchdog: once a second it looks for a speed message and closes a silent link. */
module Heartbeat {
  import opened Bytes

  /** What happened, in order: a speed message arrived, or a due check found one since the previous
      check, or a due check found none (and perhaps closed the link). */
  datatype Mark = Seen | Heard | Quiet(closed: bool)

  datatype State = State(lastCheck: int, count: nat, alive: bool, connected: bool, log: seq<Mark>)

  const START := State(0, 0, false, false, [])

  datatype Event = Check(now: int) | SpeedMessage | Connect

  /** check_heart_period; a period of zero behaves as one. */
  function Patience(period: nat): nat {
    if period == 0 then 1 else period
  }

  predicate Due(s: State, now: int) {
    s.connected && now - s.lastCheck >= 1
  }

  function Do(s: State, e: Event, period: nat): State {
    match e
    case SpeedMessage => s.(alive := true, log := s.log + [Seen])
    case Connect => s.(connected := true)
    case Check(now) =>
      if !s.connected then s.(lastCheck := now)
      else if !Due(s, now) then s
      else if s.alive then s.(lastCheck := now, count := 0, alive := false, log := s.log + [Heard])
      else
        var closes := s.count + 1 >= period;
        s.(lastCheck := now, count := if closes then 0 else s.count + 1,
           connected := !closes, log := s.log + [Quiet(closes)])
  }

  function Exec(s: State, run: seq<Event>, period: nat): State {
    if run == [] then s else Do(Exec(s, run[..|run| - 1], period), run[|run| - 1], period)
  }

  /** Quiet checks since the last speed message, heard check or closed link. */
  function Silence(log: seq<Mark>): nat {
    if log != [] && log[|log| - 1] == Quiet(false) then 1 + Silence(log[..|log| - 1])
    else 0
  }

  lemma {:induction false} SilenceMeans(log: seq<Mark>, k: nat)
    requires |log| - Silence(log) <= k < |log|
    ensures log[k] == Quiet(false)
  {
    if k < |log| - 1 {
      SilenceMeans(log[..|log| - 1], k);
    }
  }

  lemma {:induction false} SilenceBounded(log: seq<Mark>)
    ensures Silence(log) <= |log|
  {
    if log != [] {
      SilenceBounded(log[..|log| - 1]);
    }
  }

  /** A speed message pending is one that arrived after the last check; the count is the silence so
      far, or stale behind a speed message the next check will find. */
  predicate Inv(s: State, period: nat) {
    && s.count < Patience(period)
    && (s.alive <==> s.log != [] && s.log[|s.log| - 1].Seen?)
    && (!s.alive ==> s.count == Silence(s.log))
  }

  /** Each closing mark ends a silence of exactly the configured length. */
  predicate ClosesDue(log: seq<Mark>, period: nat) {
    log == []
    || (&& ClosesDue(log[..|log| - 1], period)
        && (log[|log| - 1] == Quiet(true) ==> Silence(log[..|log| - 1]) == Patience(period) - 1)
        && Silence(log) < Patience(period))
  }

  lemma DoKeeps(s: State, e: Event, period: nat)
    requires Inv(s, period) && ClosesDue(s.log, period)
    ensures Inv(Do(s, e, period), period) && ClosesDue(Do(s, e, period).log, period)
  {
  }

  lemma {:induction false} ExecKeeps(run: seq<Event>, period: nat)
    ensures var s := Exec(START, run, period);
            Inv(s, period) && ClosesDue(s.log, period)
  {
    if run != [] {
      ExecKeeps(run[..|run| - 1], period);
      DoKeeps(Exec(START, run[..|run| - 1], period), run[|run| - 1], period);
    }
  }

  lemma {:induction false} ClosesDueAt(log: seq<Mark>, j: nat, period: nat)
    requires ClosesDue(log, period) && j < |log|
    ensures log[j] == Quiet(true) ==> Silence(log[..j]) == Patience(period) - 1
    ensures Silence(log[..j + 1]) < Patience(period)
  {
    if j < |log| - 1 {
      ClosesDueAt(log[..|log| - 1], j, period);
      assert log[..|log| - 1][..j] == log[..j] && log[..|log| - 1][..j + 1] == log[..j + 1];
    } else {
      assert log[..j + 1] == log;
    }
  }

  /** The link is closed only after check_heart_period due checks in a row that found no speed message,
      with none arriving in between and no earlier closing among them. */
  lemma ClosedOnlyAfterSilence(run: seq<Event>, j: nat, period: nat)
    requires j < |Exec(START, run, period).log| && Exec(START, run, period).log[j] == Quiet(true)
    ensures var log := Exec(START, run, period).log;
            && Patience(period) <= j + 1
            && forall k | j + 1 - Patience(period) <= k < j :: log[k] == Quiet(false)
  {
    var log := Exec(START, run, period).log;
    ExecKeeps(run, period);
    ClosesDueAt(log, j, period);
    SilenceBounded(log[..j]);
    forall k | j + 1 - Patience(period) <= k < j
      ensures log[k] == Quiet(false)
    {
      SilenceMeans(log[..j], k);
    }
  }

  lemma {:induction false} NotAllQuiet(log: seq<Mark>, n: nat) returns (k: nat)
    requires Silence(log) < n <= |log|
    ensures |log| - n <= k < |log| && log[k] != Quiet(false)
  {
    if log[|log| - 1] != Quiet(false) {
      k := |log| - 1;
    } else {
      k := NotAllQuiet(log[..|log| - 1], n - 1);
    }
  }

  /** And it is closed within that many: no such row of quiet checks leaves the link open. */
  lemma SilenceIsPunished(run: seq<Event>, j: nat, period: nat)
    requires Patience(period) <= j <= |Exec(START, run, period).log|
    ensures var log := Exec(START, run, period).log;
            exists k | j - Patience(period) <= k < j :: log[k] != Quiet(false)
  {
    var log := Exec(START, run, period).log;
    ExecKeeps(run, period);
    ClosesDueAt(log, j - 1, period);
    var k := NotAllQuiet(log[..j], Patience(period));
    assert log[k] != Quiet(false);
  }

  // ----- once a second -----

  /** The last check that counted: one that was due, or that found the link down. */
  function LastLook(run: seq<Event>, period: nat): int {
    if run == [] then 0
    else
      var init, e := run[..|run| - 1], run[|run| - 1];
      var s := Exec(START, init, period);
      if e.Check? && (!s.connected || e.now - LastLook(init, period) >= 1) then e.now else LastLook(init, period)
  }

  lemma {:induction false} LastCheckIsLook(run: seq<Event>, period: nat)
    ensures Exec(START, run, period).lastCheck == LastLook(run, period)
  {
    if run != [] {
      LastCheckIsLook(run[..|run| - 1], period);
    }
  }

  /** Whether this check is due after the run. */
  predicate DueAfter(run: seq<Event>, now: int, period: nat) {
    Exec(START, run, period).connected && now - LastLook(run, period) >= 1
  }

  /** A speed message has arrived since the last due check. */
  predicate HeardSince(run: seq<Event>, period: nat) {
    run != []
    && var init, e := run[..|run| - 1], run[|run| - 1];
       e.SpeedMessage? || (HeardSince(init, period) && !(e.Check? && DueAfter(init, e.now, period)))
  }

  lemma {:induction false} AliveIsHeard(run: seq<Event>, period: nat)
    ensures Exec(START, run, period).alive <==> HeardSince(run, period)
  {
    if run != [] {
      AliveIsHeard(run[..|run| - 1], period);
      LastCheckIsLook(run[..|run| - 1], period);
    }
  }

  /** After any run, a check counts if and only if the link is up and the last check that counted was at
      least a second ago; it counts as heard if and only if a speed message arrived since. */
  lemma MarkedExactly(run: seq<Event>, now: int, period: nat)
    ensures var s, s' := Exec(START, run, period), Exec(START, run + [Check(now)], period);
            if !DueAfter(run, now, period) then s'.log == s.log
            else |s'.log| == |s.log| + 1 && s.log <= s'.log
                 && (s'.log[|s.log|] == Heard <==> HeardSince(run, period))
  {
    SnocParts(run, Check(now));
    LastCheckIsLook(run, period);
    AliveIsHeard(run, period);
  }

  /** Before the first connection no check counts. */
  lemma {:induction false} QuietUntilConnected(run: seq<Event>, period: nat)
    requires Connect !in run
    ensures var s := Exec(START, run, period);
            !s.connected && forall k | 0 <= k < |s.log| :: s.log[k] == Seen
  {
    if run != [] {
      QuietUntilConnected(run[..|run| - 1], period);
      assert run[|run| - 1] in run;
    }
  }

  // ----- a fresh connection -----

  /** n due checks, a second apart, with no speed message. */
  function QuietChecks(s: State, n: nat, period: nat): State {
    if n == 0 then s
    else
      var s1 := QuietChecks(s, n - 1, period);
      Do(s1, Check(s1.lastCheck + 1), period)
  }

  /** From any state a silent link survives exactly the checks its count leaves it. */
  lemma {:induction false} GraceLeft(s: State, n: nat, period: nat)
    requires s.connected && !s.alive && s.count < Patience(period) && n <= Patience(period) - s.count
    ensures var s' := QuietChecks(s, n, period);
            && (s'.connected <==> s.count + n < Patience(period))
            && (s'.connected ==> s'.count == s.count + n && !s'.alive)
  {
    if n > 0 {
      GraceLeft(s, n - 1, period);
    }
  }

  /** A speed message not yet checked for gives one check more and a count from zero. */
  lemma {:induction false} GraceAfterMessage(s: State, n: nat, period: nat)
    requires s.connected && s.alive && 1 <= n <= Patience(period)
    ensures var s' := QuietChecks(s, n, period);
            s'.connected && !s'.alive && s'.count == n - 1
  {
    if n > 1 {
      GraceAfterMessage(s, n - 1, period);
    } else {
      assert QuietChecks(s, 0, period) == s;
    }
  }

  /** Silence does not close the link before check_heart_period checks have found it. */
  ghost predicate FullPatience(s: State, period: nat) {
    forall n: nat | n < Patience(period) :: QuietChecks(s, n, period).connected
  }

  lemma PatienceExactly(s: State, period: nat)
    requires s.connected && s.count < Patience(period)
    ensures FullPatience(s, period) <==> s.alive || s.count == 0
  {
    if s.alive || s.count == 0 {
      forall n: nat | n < Patience(period)
        ensures QuietChecks(s, n, period).connected
      {
        if s.alive && n > 0 {
          GraceAfterMessage(s, n, period);
        } else if !s.alive {
          GraceLeft(s, n, period);
        }
      }
    } else {
      GraceLeft(s, Patience(period) - s.count, period);
    }
  }

  lemma {:induction false} DownCountsNothing(run: seq<Event>, period: nat)
    ensures var s := Exec(START, run, period);
            !s.connected ==> s.count == 0
  {
    if run != [] {
      DownCountsNothing(run[..|run| - 1], period);
    }
  }

  /** What a new connection gets, after any run: the whole patience if and only if no quiet check was
      counted against the link before, or a speed message is waiting. That holds whenever the link was
      marked down; it can fail where a receive error reconnects a link still marked up. */
  lemma ConnectPatience(run: seq<Event>, period: nat)
    ensures var s := Exec(START, run, period);
            && (FullPatience(Do(s, Connect, period), period) <==> s.alive || s.count == 0)
            && (!s.connected ==> FullPatience(Do(s, Connect, period), period))
  {
    ExecKeeps(run, period);
    DownCountsNothing(run, period);
    PatienceExactly(Do(Exec(START, run, period), Connect, period), period);
  }

  /** Such a reconnection: with any patience above one check, the second connection starts one short. */
  lemma ReconnectInheritsCount(period: nat)
    requires period >= 2
    ensures var s := Exec(START, [Connect, Check(1), Connect], period);
            s.connected && s.count == 1 && !FullPatience(s, period)
  {
    var r := [Connect, Check(1), Connect];
    assert r[..2][..1] == r[..1] && r[..1][..0] == [];
    assert Exec(START, r[..1], period) == START.(connected := true);
    assert Exec(START, r[..2], period) == State(1, 1, false, true, [Quiet(false)]);
    PatienceExactly(Exec(START, r, period), period);
  }

  class Watchdog {
    var recordLast: int
    var count: nat
    var heartAlive: bool
    var connectOn: bool
    const useHeart: bool
    const period: nat
    ghost var log: seq<Mark>

    ghost function Abs(): State
      reads this
    {
      State(recordLast, count, heartAlive, connectOn, log)
    }

    constructor (useHeart: bool, period: nat)
      ensures Abs() == START && this.useHeart == useHeart && this.period == period
    {
      recordLast, count, heartAlive, connectOn := 0, 0, false, false;
      this.useHeart, this.period := useHeart, period;
      log := [];
    }

    method LimitRecordTime(now: int, secs: nat) returns (due: bool)
      modifies this`recordLast
      ensures due <==> now - old(recordLast) >= secs
      ensures recordLast == if due then now else old(recordLast)
    {
      if now - recordLast < secs {
        return false;
      }
      recordLast := now;
      due := true;
    }

    method CheckHeartBeat(now: int)
      modifies this
      ensures Abs() == if useHeart then Do(old(Abs()), Check(now), period) else old(Abs())
    {
      if !useHeart {
        return;
      }
      if !connectOn {
        recordLast := now;
        return;
      }
      var due := LimitRecordTime(now, 1);
      if due {
        if !heartAlive {
          count := count + 1;
          if count >= period {
            count := 0;
            connectOn := false;
            log := log + [Quiet(true)];
          } else {
            log := log + [Quiet(false)];
          }
        } else {
          count := 0;
          heartAlive := false;
          log := log + [Heard];
        }
      }
    }

    method SpeedInfo()
      modifies this
      ensures Abs() == Do(old(Abs()), SpeedMessage, period)
    {
      heartAlive := true;
      log := log + [Seen];
    }
  }
}
