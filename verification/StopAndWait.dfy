/** What the send log of every interleaving looks like: one message at a time, in enqueue order, at
    most three transmissions each, and one acknowledgement notice per acknowledged message. */
module StopAndWait {
  import opened Bytes
  import opened Sending

  /** What matters of a log so far: the ack-requiring message under way and how often it was sent,
      one more than the largest id sent, and whether a notice is waiting to be used. */
  datatype Summary = Summary(open: Option<(Msg, nat)>, frontier: nat, unused: bool)

  function Advance(sum: Summary, e: Event): Summary {
    match e
    case Sent(m, k) =>
      Summary(if m.needsAck then Some((m, k)) else None,
              if m.id >= sum.frontier then m.id + 1 else sum.frontier, sum.unused)
    case Noticed => sum.(unused := true)
    case Acked(_) => sum.(open := None, unused := false)
    case GaveUp(_) => sum.(open := None)
  }

  function Summarise(log: seq<Event>): Summary {
    if log == [] then Summary(None, 0, false)
    else Advance(Summarise(log[..|log| - 1]), log[|log| - 1])
  }

  /** May e come next? */
  predicate May(sum: Summary, e: Event) {
    match e
    case Sent(m, k) =>
      if k == 1 then sum.open == None && sum.frontier <= m.id
      else 2 <= k <= MAX_SENDS && m.needsAck && sum.open == Some((m, k - 1))
    case Noticed => true
    case Acked(id) => sum.open.Some? && sum.open.value.0.id == id && sum.unused
    case GaveUp(id) => sum.open.Some? && sum.open.value.0.id == id && sum.open.value.1 == MAX_SENDS
  }

  predicate Disciplined(log: seq<Event>) {
    log == [] || (Disciplined(log[..|log| - 1]) && May(Summarise(log[..|log| - 1]), log[|log| - 1]))
  }

  // ----- every reachable system keeps a disciplined log -----

  predicate Below(id: nat, queue: seq<Msg>) {
    forall i | 0 <= i < |queue| :: id < queue[i].id
  }

  predicate Ordered(queue: seq<Msg>, low: nat, high: nat) {
    && (forall i, j | 0 <= i < j < |queue| :: queue[i].id < queue[j].id)
    && (forall i | 0 <= i < |queue| :: low <= queue[i].id < high)
  }

  /** How the system's state agrees with the summary of its log. */
  predicate Agrees(s: System, sum: Summary) {
    && s.notice == sum.unused && sum.frontier <= s.nextId && Ordered(s.queue, sum.frontier, s.nextId)
    && match s.sender
       case Transmitting(m, k) =>
         && m.needsAck && k < MAX_SENDS && m.id < s.nextId && Below(m.id, s.queue)
         && (if k == 0 then sum.open == None && sum.frontier <= m.id else sum.open == Some((m, k)))
       case Listening(m, k) =>
         sum.open == Some((m, k)) && 1 <= k <= MAX_SENDS && m.needsAck && m.id < s.nextId && Below(m.id, s.queue)
       case Blocked(m, k) =>
         sum.open == Some((m, k)) && 1 <= k <= MAX_SENDS && m.needsAck && m.id < s.nextId && Below(m.id, s.queue)
       case _ => sum.open == None
  }

  /** The step keeps the agreement, adding at most one event, and that a permitted one. */
  ghost predicate KeepsAgreement(s: System, sum: Summary, step: Step) {
    var s' := Do(s, step);
    || (s'.log == s.log && Agrees(s', sum))
    || (exists e :: s'.log == s.log + [e] && May(sum, e) && Agrees(s', Advance(sum, e)))
  }

  lemma PushAgrees(s: System, sum: Summary, needsAck: bool)
    requires Agrees(s, sum)
    ensures Agrees(Do(s, Push(needsAck)), sum)
  {
    var s' := Do(s, Push(needsAck));
    assert forall i | 0 <= i < |s.queue| :: s'.queue[i] == s.queue[i];
  }

  lemma RestAgrees(s: System, sum: Summary)
    requires Agrees(s, sum) && s.queue != []
    ensures Ordered(s.queue[1..], s.queue[0].id + 1, s.nextId) && Below(s.queue[0].id, s.queue[1..])
    ensures Agrees(s.(queue := s.queue[1..]), sum)
  {
  }

  lemma PopAgrees(s: System, sum: Summary)
    requires Agrees(s, sum) && s.sender.Connected?
    ensures KeepsAgreement(s, sum, Pop)
  {
  }

  lemma TransmitAgrees(s: System, sum: Summary)
    requires Agrees(s, sum) && s.sender.Transmitting?
    ensures KeepsAgreement(s, sum, Transmit)
  {
  }

  lemma AckAgrees(s: System, sum: Summary, step: Step)
    requires Agrees(s, sum) && step in {Look, Wake, Timeout, Notice}
    ensures KeepsAgreement(s, sum, step)
  {
  }

  lemma AgreesStep(s: System, sum: Summary, step: Step)
    requires Agrees(s, sum)
    ensures KeepsAgreement(s, sum, step)
  {
    if Enabled(s, step) {
      match step
      case Push(needsAck) => PushAgrees(s, sum, needsAck);
      case Pop => PopAgrees(s, sum);
      case DrainPop => RestAgrees(s, sum);
      case Transmit => TransmitAgrees(s, sum);
      case Look => AckAgrees(s, sum, step);
      case Wake => AckAgrees(s, sum, step);
      case Timeout => AckAgrees(s, sum, step);
      case Notice => AckAgrees(s, sum, step);
      case _ =>
    }
  }

  lemma {:induction false} LogDisciplined(run: seq<Step>)
    ensures var s := Exec(START, run);
            Disciplined(s.log) && Agrees(s, Summarise(s.log))
  {
    if run != [] {
      var s, step := Exec(START, run[..|run| - 1]), run[|run| - 1];
      LogDisciplined(run[..|run| - 1]);
      AgreesStep(s, Summarise(s.log), step);
      var s' := Do(s, step);
      if s'.log != s.log {
        var e :| s'.log == s.log + [e] && May(Summarise(s.log), e) && Agrees(s', Advance(Summarise(s.log), e));
        SnocParts(s.log, e);
      }
    }
  }

  // ----- what discipline means, event by event -----

  predicate Closes(e: Event, id: nat) {
    e == Acked(id) || e == GaveUp(id)
  }

  /** Whether some event in log[from..to] has property Noticed, or closes id. */
  ghost predicate NoticedBetween(log: seq<Event>, from: nat, to: nat) {
    exists k :: from < k < to <= |log| && log[k] == Noticed
  }

  ghost predicate ClosedBetween(log: seq<Event>, from: nat, to: nat, id: nat) {
    exists k :: from < k < to <= |log| && Closes(log[k], id)
  }

  /** Everything a transmission at i implies about the end of a disciplined log. */
  lemma {:induction false} SentSoFar(log: seq<Event>, i: nat)
    requires Disciplined(log) && i < |log| && log[i].Sent?
    ensures var m, k, sum := log[i].m, log[i].attempt, Summarise(log);
            && 1 <= k <= MAX_SENDS && m.id < sum.frontier
            && (sum.open.Some? && sum.open.value.0.id == m.id ==> k <= sum.open.value.1)
            && (m.needsAck ==> ClosedBetween(log, i, |log|, m.id)
                               || (sum.open.Some? && sum.open.value.0 == m))
            && (sum.open.Some? ==> sum.open.value.0.id + 1 == sum.frontier && sum.open.value.1 <= MAX_SENDS)
  {
    var init, e := log[..|log| - 1], log[|log| - 1];
    if i < |log| - 1 {
      SentSoFar(init, i);
      var m := log[i].m;
      if m.needsAck && ClosedBetween(init, i, |init|, m.id) {
        var k :| i < k < |init| && Closes(init[k], m.id);
        assert Closes(log[k], m.id);
      } else if m.needsAck && (e.Acked? || e.GaveUp?) {
        assert Closes(log[|log| - 1], m.id);
      }
    } else {
      OpenIsLast(init);
    }
  }

  lemma {:induction false} OpenIsLast(log: seq<Event>)
    requires Disciplined(log)
    ensures var sum := Summarise(log);
            sum.open.Some? ==>
              && sum.open.value.0.needsAck && sum.open.value.0.id + 1 == sum.frontier
              && 1 <= sum.open.value.1 <= MAX_SENDS
  {
    if log != [] {
      OpenIsLast(log[..|log| - 1]);
    }
  }

  lemma {:induction false} DisciplinedPrefix(log: seq<Event>, n: nat)
    requires Disciplined(log) && n <= |log|
    ensures Disciplined(log[..n])
  {
    if n < |log| {
      DisciplinedPrefix(log[..|log| - 1], n);
      assert log[..|log| - 1][..n] == log[..n];
    } else {
      assert log[..n] == log;
    }
  }

  lemma DisciplinedAt(log: seq<Event>, j: nat)
    requires Disciplined(log) && j < |log|
    ensures Disciplined(log[..j]) && May(Summarise(log[..j]), log[j])
  {
    DisciplinedPrefix(log, j);
    DisciplinedPrefix(log, j + 1);
    assert log[..j + 1][..j] == log[..j];
  }

  /** Stop and wait, over every interleaving: transmissions follow enqueue order; the same message is
      sent at most three times, each time counted one up; and between transmissions of two messages
      the first, if it wants an acknowledgement, was acknowledged or given up. */
  lemma TransmissionsInOrder(run: seq<Step>, i: nat, j: nat)
    requires var log := Exec(START, run).log;
             i < j < |log| && log[i].Sent? && log[j].Sent?
    ensures var log := Exec(START, run).log;
            var a, b := log[i], log[j];
            && a.m.id <= b.m.id
            && 1 <= a.attempt <= 3 && 1 <= b.attempt <= 3
            && (a.m.id == b.m.id ==> a.attempt < b.attempt)
            && (a.m.id != b.m.id && a.m.needsAck ==> ClosedBetween(log, i, j, a.m.id))
  {
    var log := Exec(START, run).log;
    LogDisciplined(run);
    DisciplinedAt(log, j);
    SentSoFar(log[..j], i);
    var a := log[i];
    if a.m.needsAck && ClosedBetween(log[..j], i, j, a.m.id) {
      var k :| i < k < j && Closes(log[..j][k], a.m.id);
      assert Closes(log[k], a.m.id);
    }
  }

  /** Positions at which m was sent for the first, second, ... n-th time, with nothing after the first
      of them but transmissions of m and notices. */
  predicate Attempts(log: seq<Event>, m: Msg, n: nat, at: seq<nat>) {
    && |at| == n >= 1
    && (forall k | 0 <= k < n :: at[k] < |log| && log[at[k]] == Sent(m, k + 1))
    && (forall k, l | 0 <= k < l < n :: at[k] < at[l])
    && (forall p | at[0] <= p < |log| :: log[p] == Noticed || (log[p].Sent? && log[p].m == m))
  }

  lemma AttemptsMore(log: seq<Event>, m: Msg, n: nat, at: seq<nat>, e: Event)
    requires Attempts(log, m, n, at)
    ensures e == Noticed ==> Attempts(log + [e], m, n, at)
    ensures e == Sent(m, n + 1) ==> Attempts(log + [e], m, n + 1, at + [|log|])
  {
  }

  /** The message under way was sent exactly as often as the summary counts. */
  lemma {:induction false} OpenHistory(log: seq<Event>) returns (at: seq<nat>)
    requires Disciplined(log) && Summarise(log).open.Some?
    ensures Attempts(log, Summarise(log).open.value.0, Summarise(log).open.value.1, at)
  {
    var init, e := log[..|log| - 1], log[|log| - 1];
    SnocOfConcat([], log);
    if e.Sent? && e.attempt == 1 {
      at := [|init|];
    } else {
      at := OpenHistory(init);
      var open := Summarise(init).open.value;
      AttemptsMore(init, open.0, open.1, at, e);
      if e.Sent? {
        at := at + [|init|];
      }
    }
  }

  /** A message is given up only after its first, second and third transmission, and acknowledged only
      after its first; until then nothing else is transmitted or closed. */
  lemma ClosedOnlyWhenDue(run: seq<Step>, j: nat) returns (m: Msg, at: seq<nat>)
    requires var log := Exec(START, run).log;
             j < |log| && (log[j].Acked? || log[j].GaveUp?)
    ensures var log := Exec(START, run).log;
            && Closes(log[j], m.id) && m.needsAck
            && Attempts(log[..j], m, |at|, at) && |at| <= 3
            && (log[j].GaveUp? ==> |at| == 3)
  {
    var log := Exec(START, run).log;
    LogDisciplined(run);
    DisciplinedAt(log, j);
    m := Summarise(log[..j]).open.value.0;
    OpenIsLast(log[..j]);
    at := OpenHistory(log[..j]);
  }

  lemma {:induction false} UsedUpSince(log: seq<Event>, i: nat)
    requires Disciplined(log) && i < |log| && (log[i].Acked? || !Summarise(log[..i]).unused)
    requires !log[i].Noticed?
    ensures Summarise(log).unused ==> NoticedBetween(log, i, |log|)
  {
    var init := log[..|log| - 1];
    if i == |log| - 1 {
      assert log[..i] == init;
    } else {
      assert init[..i] == log[..i];
      UsedUpSince(init, i);
      if Summarise(init).unused && NoticedBetween(init, i, |init|) {
        var k :| i < k < |init| && init[k] == Noticed;
        assert log[k] == Noticed;
      } else if log[|log| - 1].Noticed? {
        assert log[|log| - 1] == Noticed;
      }
    }
  }

  /** One notice releases at most one message: two acknowledged messages have a notice in between. */
  lemma OneNoticeOneRelease(run: seq<Step>, i: nat, j: nat)
    requires var log := Exec(START, run).log;
             i < j < |log| && log[i].Acked? && log[j].Acked?
    ensures NoticedBetween(Exec(START, run).log, i, j)
  {
    var log := Exec(START, run).log;
    LogDisciplined(run);
    DisciplinedAt(log, j);
    UsedUpSince(log[..j], i);
    var k :| i < k < j && log[..j][k] == Noticed;
    assert log[k] == Noticed;
  }

  /** A message counted as acknowledged was noticed after its first transmission, provided no
      notice was left over when that transmission began. */
  lemma AcknowledgementIsFresh(run: seq<Step>, i: nat, j: nat)
    requires var log := Exec(START, run).log;
             i < j < |log| && log[i].Sent? && log[j].Acked? && !Summarise(log[..i]).unused
    ensures NoticedBetween(Exec(START, run).log, i, j)
  {
    var log := Exec(START, run).log;
    LogDisciplined(run);
    DisciplinedAt(log, j);
    assert log[..j][..i] == log[..i];
    UsedUpSince(log[..j], i);
    var k :| i < k < j && log[..j][k] == Noticed;
    assert log[k] == Noticed;
  }

  // ----- what a pending notice does -----

  /** From position `from` on, the log neither transmits the message nor gives it up. */
  ghost predicate LeftAlone(log: seq<Event>, from: nat, id: nat) {
    forall p | from <= p < |log| :: !(log[p].Sent? && log[p].m.id == id) && log[p] != GaveUp(id)
  }

  predicate Holds(sender: Sender, id: nat) {
    (sender.Transmitting? || sender.Listening? || sender.Blocked?) && sender.m.id == id
  }

  /** The message was sent for the last time: it is done with, or a notice is there to release it. */
  predicate Settled(s: System, id: nat) {
    && id < s.nextId && Below(id, s.queue)
    && (Holds(s.sender, id) ==> s.sender.Listening? && s.notice)
  }

  lemma SettledPop(s: System, id: nat)
    requires Settled(s, id) && s.sender.Connected?
    ensures var s' := Do(s, Pop);
            Settled(s', id) && s.log <= s'.log && LeftAlone(s'.log, |s.log|, id)
  {
  }

  lemma SettledPush(s: System, needsAck: bool, id: nat)
    requires Settled(s, id)
    ensures Settled(Do(s, Push(needsAck)), id)
  {
  }

  lemma SettledStep(s: System, step: Step, id: nat)
    requires Settled(s, id)
    ensures var s' := Do(s, step);
            Settled(s', id) && s.log <= s'.log && LeftAlone(s'.log, |s.log|, id)
  {
    match step
    case Pop =>
      if s.sender.Connected? {
        SettledPop(s, id);
      }
    case Push(needsAck) => SettledPush(s, needsAck, id);
    case _ =>
  }

  lemma {:induction false} SettledRun(s: System, run: seq<Step>, id: nat)
    requires Settled(s, id)
    ensures var s' := Exec(s, run);
            Settled(s', id) && s.log <= s'.log && LeftAlone(s'.log, |s.log|, id)
  {
    if run != [] {
      SettledRun(s, run[..|run| - 1], id);
      SettledStep(Exec(s, run[..|run| - 1]), run[|run| - 1], id);
    }
  }

  ghost predicate NoticeFree(run: seq<Step>) {
    forall i | 0 <= i < |run| :: run[i] != Notice
  }

  ghost predicate AckedFrom(log: seq<Event>, from: nat, id: nat) {
    exists p :: from <= p < |log| && log[p] == Acked(id)
  }

  lemma UnnoticedStep(s: System, step: Step)
    requires !s.notice && step != Notice
    ensures var s' := Do(s, step);
            !s'.notice && s.log <= s'.log && |s'.log| <= |s.log| + 1
            && (|s'.log| > |s.log| ==> !s'.log[|s.log|].Acked?)
  {
  }

  lemma {:induction false} UnnoticedRun(s: System, run: seq<Step>, id: nat)
    requires !s.notice && NoticeFree(run)
    ensures var s' := Exec(s, run);
            !s'.notice && s.log <= s'.log && !AckedFrom(s'.log, |s.log|, id)
  {
    if run != [] {
      UnnoticedRun(s, run[..|run| - 1], id);
      var t := Exec(s, run[..|run| - 1]);
      UnnoticedStep(t, run[|run| - 1]);
      assert forall p | |s.log| <= p < |t.log| :: Do(t, run[|run| - 1]).log[p] == t.log[p];
    }
  }

  lemma ThreeSteps(s: System, a: Step, b: Step, c: Step)
    ensures Exec(s, [a, b, c]) == Do(Do(Do(s, a), b), c)
  {
    var run := [a, b, c];
    ExecPrefix(s, run, 0);
    ExecPrefix(s, run, 1);
    ExecPrefix(s, run, 2);
    assert run[..0] == [] && run[..3] == run;
  }

  /** Timing out once more: the message is transmitted again or, after the third time, given up. */
  lemma TimedOut(s: System) returns (run: seq<Step>)
    requires s.sender.Listening? && !s.notice
    ensures !LeftAlone(Exec(s, run).log, |s.log|, s.sender.m.id)
  {
    run := [Look, Timeout, Transmit];
    ThreeSteps(s, Look, Timeout, Transmit);
    OutOfTime(s);
  }

  lemma OutOfTime(s: System)
    requires s.sender.Listening? && !s.notice
    ensures !LeftAlone(Do(Do(Do(s, Look), Timeout), Transmit).log, |s.log|, s.sender.m.id)
  {
    var id, s1 := s.sender.m.id, Do(s, Look);
    assert s1.sender == Blocked(s.sender.m, s.sender.sent) && s1.log == s.log;
    var s2 := Do(s1, Timeout);
    var log := Do(s2, Transmit).log;
    if s.sender.sent >= MAX_SENDS {
      assert log[|s.log|] == GaveUp(id);
    } else {
      assert log[|s.log|] == Sent(s.sender.m, s.sender.sent + 1);
    }
  }

  /** Exactly what a pending notice decides. After any interleaving, while the sender has transmitted m
      and not yet looked: a notice is pending if and only if, in every continuation, m is neither sent
      again nor given up; and if and only if m can still be acknowledged without a further notice. */
  lemma PendingNoticeExactly(run: seq<Step>)
    requires Exec(START, run).sender.Listening?
    ensures var s := Exec(START, run);
            s.notice <==> forall more :: LeftAlone(Exec(s, more).log, |s.log|, s.sender.m.id)
    ensures var s := Exec(START, run);
            s.notice <==> exists more :: NoticeFree(more) && AckedFrom(Exec(s, more).log, |s.log|, s.sender.m.id)
  {
    var s := Exec(START, run);
    var id := s.sender.m.id;
    LogDisciplined(run);
    if s.notice {
      forall more
        ensures LeftAlone(Exec(s, more).log, |s.log|, id)
      {
        SettledRun(s, more, id);
      }
      ExecCons(s, Look, []);
      assert Exec(s, [Look]).log[|s.log|] == Acked(id);
      assert NoticeFree([Look]);
    } else {
      var more := TimedOut(s);
      assert !LeftAlone(Exec(s, more).log, |s.log|, id);
      forall more | NoticeFree(more)
        ensures !AckedFrom(Exec(s, more).log, |s.log|, id)
      {
        UnnoticedRun(s, more, id);
      }
    }
  }

  /** The next event of the log is the message's acknowledgement. */
  ghost predicate NextIsAcked(s: System, s': System, id: nat) {
    |s.log| < |s'.log| && s'.log[|s.log|] == Acked(id)
  }

  lemma ReleasedAtOnce(s: System)
    requires s.notice && (s.sender.Listening? || s.sender.Blocked?)
    ensures var step := if s.sender.Listening? then Look else Wake;
            NextIsAcked(s, Do(s, step), s.sender.m.id) && !Do(s, step).notice && Do(s, step).sender == Waiting
  {
  }

  /** A notice at any time after a transmission: after any interleaving with the sender about to look or
      inside its timed wait, a notice is pending if and only if the message can be acknowledged as the
      very next event, with no further notice and no transmission in between. */
  lemma NoticeReleasesExactly(run: seq<Step>)
    requires Exec(START, run).sender.Listening? || Exec(START, run).sender.Blocked?
    ensures var s := Exec(START, run);
            s.notice <==> exists more :: NoticeFree(more) && NextIsAcked(s, Exec(s, more), s.sender.m.id)
  {
    var s := Exec(START, run);
    var id := s.sender.m.id;
    if s.notice {
      var step := if s.sender.Listening? then Look else Wake;
      ReleasedAtOnce(s);
      ExecCons(s, step, []);
      assert Exec(s, [step]) == Do(s, step) && NoticeFree([step]);
    } else {
      forall more | NoticeFree(more)
        ensures !NextIsAcked(s, Exec(s, more), id)
      {
        UnnoticedRun(s, more, id);
      }
    }
  }

  lemma LogStep(s: System, step: Step)
    ensures s.log <= Do(s, step).log && |Do(s, step).log| <= |s.log| + 1
  {
  }

  /** The step that wrote event i. */
  lemma {:induction false} WrittenBy(run: seq<Step>, i: nat) returns (n: nat)
    requires i < |Exec(START, run).log|
    ensures n < |run|
    ensures var log, s := Exec(START, run).log, Exec(START, run[..n]);
            s.log == log[..i] && Do(s, run[n]).log == log[..i + 1]
  {
    var init, step := run[..|run| - 1], run[|run| - 1];
    var s := Exec(START, init);
    LogStep(s, step);
    if i < |s.log| {
      n := WrittenBy(init, i);
      assert init[..n] == run[..n];
      assert s.log[..i] == Exec(START, run).log[..i] && s.log[..i + 1] == Exec(START, run).log[..i + 1];
    } else {
      n := |run| - 1;
    }
  }

  lemma {:induction false} ExecConcat(s: System, a: seq<Step>, b: seq<Step>)
    ensures Exec(s, a + b) == Exec(Exec(s, a), b)
  {
    if b == [] {
      ConcatEmpty(a);
    } else {
      DropLastOfConcat(a, b);
      ExecConcat(s, a, b[..|b| - 1]);
    }
  }

  lemma SplitRun(s: System, run: seq<Step>, n: nat)
    requires n < |run|
    ensures Exec(s, run) == Exec(Do(Exec(s, run[..n]), run[n]), run[n + 1..])
  {
    ExecPrefix(s, run, n);
    ExecConcat(s, run[..n + 1], run[n + 1..]);
    assert run[..n + 1] + run[n + 1..] == run;
  }

  lemma TransmittedWithNotice(s: System, sum: Summary, step: Step)
    requires Agrees(s, sum) && s.notice && |Do(s, step).log| > |s.log|
    requires var e := Do(s, step).log[|s.log|]; e.Sent? && e.m.needsAck
    ensures Settled(Do(s, step), Do(s, step).log[|s.log|].m.id)
  {
  }

  /** A notice already pending when a message is transmitted settles it: in every interleaving that
      message is never transmitted again and never given up, whatever the terminal does. */
  lemma PendingNoticeReleases(run: seq<Step>, i: nat)
    requires var log := Exec(START, run).log;
             i < |log| && log[i].Sent? && log[i].m.needsAck && Summarise(log[..i]).unused
    ensures LeftAlone(Exec(START, run).log, i + 1, Exec(START, run).log[i].m.id)
  {
    var log := Exec(START, run).log;
    var n := WrittenBy(run, i);
    var s := Exec(START, run[..n]);
    LogDisciplined(run[..n]);
    SplitRun(START, run, n);
    var s' := Do(s, run[n]);
    assert |s'.log| == i + 1 && s'.log[i] == log[i];
    TransmittedWithNotice(s, Summarise(s.log), run[n]);
    SettledRun(s', run[n + 1..], log[i].m.id);
  }

  lemma SixSteps(s: System, a: Step, b: Step, c: Step, d: Step, e: Step, f: Step)
    ensures Exec(s, [a, b, c] + [d, e, f]) == Do(Do(Do(Do(Do(Do(s, a), b), c), d), e), f)
  {
    ThreeSteps(s, a, b, c);
    ThreeSteps(Exec(s, [a, b, c]), d, e, f);
    ExecConcat(s, [a, b, c], [d, e, f]);
  }

  /** A notice comes in, the link comes up, a message is queued and the sender takes it up. */
  lemma StrayTaken(s: System)
    requires s.sender == Waiting && s.queue == []
    ensures var s' := Exec(s, [Notice, SetLink(true), Push(true)] + [Post, SemWait, Check]);
            && s'.queue == [Msg(s.nextId, true)] && s'.sender == Connected && s'.notice
            && s'.log == s.log + [Noticed]
  {
    SixSteps(s, Notice, SetLink(true), Push(true), Post, SemWait, Check);
  }

  lemma StraySent(s: System, m: Msg)
    requires s.sender == Connected && s.queue == [m] && m.needsAck && s.notice
    ensures var s' := Exec(s, [Pop, Transmit, Look]);
            s'.log == s.log + [Sent(m, 1), Acked(m.id)] && s'.sender == Waiting
  {
    ThreeSteps(s, Pop, Transmit, Look);
  }

  const STRAY := [Notice, SetLink(true), Push(true)] + [Post, SemWait, Check] + [Pop, Transmit, Look]

  /** Without that proviso it fails, after any run that leaves the sender at rest with nothing queued: a
      stray notice then counts the next message as acknowledged straight after its first transmission. */
  lemma StrayNoticeReleases(run: seq<Step>)
    requires Exec(START, run).sender == Waiting && Exec(START, run).queue == []
    ensures var s := Exec(START, run);
            Exec(s, STRAY).log == s.log + [Noticed, Sent(Msg(s.nextId, true), 1), Acked(s.nextId)]
  {
    var s := Exec(START, run);
    var first := [Notice, SetLink(true), Push(true)] + [Post, SemWait, Check];
    StrayTaken(s);
    StraySent(Exec(s, first), Msg(s.nextId, true));
    ExecConcat(s, first, [Pop, Transmit, Look]);
  }
}
