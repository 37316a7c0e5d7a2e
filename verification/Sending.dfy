/** The send path as interleaved steps: producers that push and then post a permit, the sender
    thread, the receiver thread that signals acknowledgements, and a reset that drains the queue. */
module Sending {
  import opened Bytes
  import SendQueue

  const MAX_SENDS := 3

  /** id is the message's place in enqueue order. */
  datatype Msg = Msg(id: nat, needsAck: bool)

  /** Where the sender thread stands. Listening is just after a transmission, before the lock is
      taken; Blocked is inside the timed wait. */
  datatype Sender =
    | Waiting
    | GotPermit
    | Connected
    | Transmitting(m: Msg, sent: nat)
    | Listening(m: Msg, sent: nat)
    | Blocked(m: Msg, sent: nat)

  datatype Event =
    | Sent(m: Msg, attempt: nat)
    | Noticed
    | Acked(id: nat)
    | GaveUp(id: nat)

  datatype System = System(
    queue: seq<Msg>, nextId: nat,
    permits: nat,    // the semaphore
    posting: nat,    // producers between their push and their post
    sender: Sender,
    notice: bool,    // recv_ack == NOTICE_MSG
    linkOn: bool,
    log: seq<Event>,
    drained: set<nat>)  // history: ids thrown away when the link was set up again

  const START := System([], 0, 0, 0, Waiting, false, false, [], {})

  datatype Step =
    | Push(needsAck: bool) | Post | ExitPost
    | SemWait | Check | Pop | Transmit | Look | Wake | Timeout
    | Notice | DrainPop | SetLink(on: bool)

  predicate Enabled(s: System, step: Step) {
    match step
    case Post => s.posting > 0
    case SemWait => s.sender.Waiting? && s.permits > 0
    case Check => s.sender.GotPermit?
    case Pop => s.sender.Connected?
    case Transmit => s.sender.Transmitting?
    case Look => s.sender.Listening?
    case Wake => s.sender.Blocked? && s.notice
    case Timeout => s.sender.Blocked?
    case DrainPop => s.queue != []
    case _ => true
  }

  function Log(s: System, e: Event): System {
    s.(log := s.log + [e])
  }

  /** One step of one thread; a step that is not enabled changes nothing. */
  function Do(s: System, step: Step): System {
    if !Enabled(s, step) then s else
    match step
    case Push(needsAck) =>
      // A push onto a full queue fails, and the permit is posted all the same.
      if |s.queue| == SendQueue.QUEUE_CNT then s.(posting := s.posting + 1)
      else s.(queue := s.queue + [Msg(s.nextId, needsAck)], nextId := s.nextId + 1, posting := s.posting + 1)
    case Post => s.(posting := s.posting - 1, permits := s.permits + 1)
    case ExitPost => s.(permits := s.permits + 1)
    case SemWait => s.(permits := s.permits - 1, sender := GotPermit)
    case Check => s.(sender := if s.linkOn then Connected else Waiting)
    case Pop =>
      if s.queue == [] then s.(sender := Waiting)
      else
        var m, popped := s.queue[0], s.(queue := s.queue[1..]);
        if m.needsAck then popped.(sender := Transmitting(m, 0))
        else Log(popped.(sender := Waiting), Sent(m, 1))
    case Transmit =>
      var k := s.sender.sent + 1;
      Log(s.(sender := Listening(s.sender.m, k)), Sent(s.sender.m, k))
    case Look =>
      if s.notice then Log(s.(notice := false, sender := Waiting), Acked(s.sender.m.id))
      else s.(sender := Blocked(s.sender.m, s.sender.sent))
    case Wake => Log(s.(notice := false, sender := Waiting), Acked(s.sender.m.id))
    case Timeout =>
      if s.sender.sent >= MAX_SENDS then Log(s.(sender := Waiting), GaveUp(s.sender.m.id))
      else s.(sender := Transmitting(s.sender.m, s.sender.sent))
    case Notice => Log(s.(notice := true), Noticed)
    case DrainPop => s.(queue := s.queue[1..], drained := s.drained + {s.queue[0].id})
    case SetLink(on) => s.(linkOn := on)
  }

  /** Any interleaving. */
  function Exec(s: System, run: seq<Step>): System {
    if run == [] then s else Do(Exec(s, run[..|run| - 1]), run[|run| - 1])
  }

  lemma ExecPrefix(s: System, run: seq<Step>, k: nat)
    requires k < |run|
    ensures Exec(s, run[..k + 1]) == Do(Exec(s, run[..k]), run[k])
  {
    assert run[..k + 1][..k] == run[..k];
  }

  // ----- conservation -----

  /** Pushes that found room. */
  function AcceptedPushes(s: System, run: seq<Step>): nat {
    if run == [] then 0
    else
      var init := run[..|run| - 1];
      AcceptedPushes(s, init)
      + if run[|run| - 1].Push? && |Exec(s, init).queue| != SendQueue.QUEUE_CNT then 1 else 0
  }

  ghost predicate SentId(log: seq<Event>, id: nat) {
    exists n :: 0 <= n < |log| && log[n].Sent? && log[n].m.id == id
  }

  ghost predicate Queued(queue: seq<Msg>, id: nat) {
    exists n :: 0 <= n < |queue| && queue[n].id == id
  }

  predicate InHand(sender: Sender, id: nat) {
    sender.Transmitting? && sender.m.id == id
  }

  ghost predicate Accounted(s: System, id: nat) {
    Queued(s.queue, id) || InHand(s.sender, id) || SentId(s.log, id) || id in s.drained
  }

  lemma AccountedStep(s: System, step: Step, id: nat)
    requires Accounted(s, id)
    ensures Accounted(Do(s, step), id)
  {
    var s' := Do(s, step);
    if SentId(s.log, id) {
      var n :| 0 <= n < |s.log| && s.log[n].Sent? && s.log[n].m.id == id;
      assert s'.log[n] == s.log[n];
    } else if id !in s.drained {
      if |s'.log| > |s.log| {
        assert s'.log[|s.log|].Sent? ==> SentId(s'.log, s'.log[|s.log|].m.id);
      }
      if Queued(s.queue, id) {
        var n :| 0 <= n < |s.queue| && s.queue[n].id == id;
        assert s'.queue == s.queue[1..] ==> n == 0 || s'.queue[n - 1].id == id;
        assert s.queue <= s'.queue ==> s'.queue[n].id == id;
      }
    }
  }

  lemma PushAccounted(s: System, needsAck: bool)
    requires |s.queue| != SendQueue.QUEUE_CNT
    ensures Accounted(Do(s, Push(needsAck)), s.nextId)
  {
    assert Do(s, Push(needsAck)).queue[|s.queue|].id == s.nextId;
  }

  ghost predicate AllAccounted(s: System) {
    |s.queue| <= SendQueue.QUEUE_CNT && forall id: nat | id < s.nextId :: Accounted(s, id)
  }

  lemma AllAccountedStep(s: System, step: Step)
    requires AllAccounted(s)
    ensures AllAccounted(Do(s, step))
  {
    var s' := Do(s, step);
    forall id: nat | id < s'.nextId
      ensures Accounted(s', id)
    {
      if id < s.nextId {
        AccountedStep(s, step, id);
      } else {
        PushAccounted(s, step.needsAck);
      }
    }
  }

  lemma NextIdStep(s: System, step: Step)
    ensures Do(s, step).nextId
            == s.nextId + if step.Push? && |s.queue| != SendQueue.QUEUE_CNT then 1 else 0
  {
  }

  lemma {:induction false} IdsCountPushes(run: seq<Step>)
    ensures Exec(START, run).nextId == AcceptedPushes(START, run)
  {
    if run != [] {
      IdsCountPushes(run[..|run| - 1]);
      NextIdStep(Exec(START, run[..|run| - 1]), run[|run| - 1]);
    }
  }

  lemma {:induction false} RunsAccounted(run: seq<Step>)
    ensures AllAccounted(Exec(START, run))
  {
    if run != [] {
      RunsAccounted(run[..|run| - 1]);
      AllAccountedStep(Exec(START, run[..|run| - 1]), run[|run| - 1]);
    }
  }

  /** No message is lost silently: in every interleaving at most sixteen wait, and each accepted push
      is still queued, in the sender's hands, transmitted, or drained by a reset. */
  lemma NothingLost(run: seq<Step>, id: nat)
    requires id < AcceptedPushes(START, run)
    ensures |Exec(START, run).queue| <= SendQueue.QUEUE_CNT && Accounted(Exec(START, run), id)
  {
    RunsAccounted(run);
    IdsCountPushes(run);
  }

  function Drains(n: nat): seq<Step> {
    if n == 0 then [] else Drains(n - 1) + [DrainPop]
  }

  lemma DrainOne(s: System)
    requires s.queue != []
    ensures var s' := Do(s, DrainPop);
            s'.queue == s.queue[1..] && s'.drained == s.drained + {s.queue[0].id}
  {
  }

  lemma {:induction false} DrainSome(s: System, n: nat)
    requires n <= |s.queue|
    ensures var s' := Exec(s, Drains(n));
            && s'.queue == s.queue[n..]
            && (forall m | m in s.queue[..n] :: m.id in s'.drained) && s.drained <= s'.drained
  {
    if n > 0 {
      DrainSome(s, n - 1);
      SnocParts(Drains(n - 1), DrainPop);
      DrainOne(Exec(s, Drains(n - 1)));
      assert s.queue[..n] == s.queue[..n - 1] + [s.queue[n - 1]];
    }
  }

  /** Clearing the queue when the link is set up again leaves it empty, and all it held is drained. */
  lemma ClearQueue(s: System)
    ensures var s' := Exec(s, Drains(|s.queue|));
            s'.queue == [] && forall m | m in s.queue :: m.id in s'.drained
  {
    DrainSome(s, |s.queue|);
    assert s.queue[..|s.queue|] == s.queue;
  }

  /** A push is queued behind all others if and only if fewer than sixteen wait. */
  lemma PushExactly(run: seq<Step>, needsAck: bool)
    ensures var s := Exec(START, run);
            Do(s, Push(needsAck)).queue
            == if |s.queue| < 16 then s.queue + [Msg(s.nextId, needsAck)] else s.queue
  {
    RunsAccounted(run);
  }

  // ----- permits -----

  function Held(sender: Sender): nat {
    if sender.GotPermit? || sender.Connected? then 1 else 0
  }

  predicate DownCheck(s: System, step: Step) {
    step.Check? && Enabled(s, step) && !s.linkOn
  }

  /** Checks that found the link down since the queue was last empty; each burns a permit. */
  function Missed(s: System, run: seq<Step>): nat {
    if run == [] || Exec(s, run).queue == [] then 0
    else
      var init := run[..|run| - 1];
      Missed(s, init) + if DownCheck(Exec(s, init), run[|run| - 1]) then 1 else 0
  }

  predicate Covered(s: System, missed: nat) {
    |s.queue| <= s.permits + s.posting + Held(s.sender) + missed
  }

  lemma CoveredStep(s: System, step: Step, missed: nat)
    requires Covered(s, missed)
    ensures Covered(Do(s, step), missed + if DownCheck(s, step) then 1 else 0)
  {
  }

  /** In every interleaving the queue is covered by the semaphore, the sender's permit, the posts
      under way and the permits burnt by failed link checks. */
  lemma {:induction false} PermitInvariant(run: seq<Step>)
    ensures Covered(Exec(START, run), Missed(START, run))
  {
    if run != [] {
      var init := run[..|run| - 1];
      PermitInvariant(init);
      CoveredStep(Exec(START, init), run[|run| - 1], Missed(START, init));
    }
  }

  function Count(run: seq<Step>, kinds: set<Step>): nat {
    if run == [] then 0 else Count(run[..|run| - 1], kinds) + if run[|run| - 1] in kinds then 1 else 0
  }

  /** Permits taken by the sender. */
  function Taken(s: System, run: seq<Step>): nat {
    if run == [] then 0
    else Taken(s, run[..|run| - 1])
         + if run[|run| - 1].SemWait? && Enabled(Exec(s, run[..|run| - 1]), SemWait) then 1 else 0
  }

  lemma PermitStep(s: System, step: Step)
    ensures var s' := Do(s, step);
            s'.permits + s'.posting
            == s.permits + s.posting + (if step in {Push(true), Push(false), ExitPost} then 1 else 0)
               - if step.SemWait? && Enabled(s, step) then 1 else 0
  {
  }

  /** Permits are conserved: every push, accepted or refused, and every exit request brings one, and only
      the sender's wait takes one. */
  lemma {:induction false} PermitsConserved(run: seq<Step>)
    ensures var s := Exec(START, run);
            s.permits + s.posting + Taken(START, run) == Count(run, {Push(true), Push(false), ExitPost})
  {
    if run != [] {
      PermitsConserved(run[..|run| - 1]);
      PermitStep(Exec(START, run[..|run| - 1]), run[|run| - 1]);
    }
  }

  predicate EveryCheckConnected(s: System, run: seq<Step>) {
    run == []
    || (EveryCheckConnected(s, run[..|run| - 1]) && !DownCheck(Exec(s, run[..|run| - 1]), run[|run| - 1]))
  }

  lemma {:induction false} NoneMissed(run: seq<Step>)
    requires EveryCheckConnected(START, run)
    ensures Missed(START, run) == 0
  {
    if run != [] {
      NoneMissed(run[..|run| - 1]);
    }
  }

  /** If no link check has failed since the queue was last empty, in particular if none ever failed,
      nothing is stranded: with the sender asleep, no permit available and no post outstanding, the
      queue is empty. */
  lemma NothingStranded(run: seq<Step>)
    ensures EveryCheckConnected(START, run) ==> Missed(START, run) == 0
    ensures var s := Exec(START, run);
            Missed(START, run) == 0 ==>
              && Covered(s, 0)
              && (s.sender == Waiting && s.permits == 0 && s.posting == 0 ==> s.queue == [])
  {
    PermitInvariant(run);
    if EveryCheckConnected(START, run) {
      NoneMissed(run);
    }
  }

  /** One link check that fails is enough to strand a message, even once the link is back. */
  lemma DownCheckStrands()
    ensures var s := Exec(START, [Push(true), Post, SemWait, Check, SetLink(true)]);
            s.linkOn && s.sender == Waiting && s.permits == 0 && s.posting == 0 && |s.queue| == 1
  {
    var r := [Push(true), Post, SemWait, Check, SetLink(true)];
    ExecPrefix(START, r, 0);
    ExecPrefix(START, r, 1);
    ExecPrefix(START, r, 2);
    ExecPrefix(START, r, 3);
    ExecPrefix(START, r, 4);
    assert r[..5] == r && r[..0] == [];
  }

  // ----- the sender empties the queue -----

  predicate OwnStep(step: Step) {
    step in {Post, SemWait, Check, Pop, Transmit, Look, Timeout}
  }

  ghost predicate OwnRun(run: seq<Step>) {
    forall i | 0 <= i < |run| :: OwnStep(run[i])
  }

  function SendsLeft(k: nat): nat {
    if k < MAX_SENDS then MAX_SENDS - k else 0
  }

  /** Steps the sender still needs before it next touches the queue, or rests on an empty one. */
  function Rank(s: System): nat {
    match s.sender
    case Waiting => if s.queue == [] then 0 else if s.permits > 0 then 2 else 3
    case GotPermit => if s.queue == [] then 2 else 1
    case Connected => if s.queue == [] then 1 else 0
    case Transmitting(_, k) => 4 + 3 * SendsLeft(k + 1) + 3
    case Listening(_, k) => 4 + 3 * SendsLeft(k) + 2
    case Blocked(_, k) => 4 + 3 * SendsLeft(k) + 1
  }

  function NextOwn(s: System): Step {
    match s.sender
    case Waiting => if s.permits > 0 then SemWait else Post
    case GotPermit => Check
    case Connected => Pop
    case Transmitting(_, _) => Transmit
    case Listening(_, _) => Look
    case Blocked(_, _) => Timeout
  }

  lemma {:induction false} ExecCons(s: System, step: Step, run: seq<Step>)
    ensures Exec(s, [step] + run) == Exec(Do(s, step), run)
  {
    var all := [step] + run;
    if run == [] {
      assert all[..0] == [] && all == [step];
      assert Exec(s, all) == Do(Exec(s, all[..0]), step);
    } else {
      ExecCons(s, step, run[..|run| - 1]);
      DropLastOfConcat([step], run);
    }
  }

  ghost predicate Transmitted(m: Msg, log: seq<Event>) {
    exists k :: Sent(m, k) in log
  }

  /** The messages queued or popped but not yet transmitted. */
  predicate Pending(s: System, m: Msg) {
    m in s.queue || (s.sender.Transmitting? && s.sender.m == m)
  }

  lemma OwnStepProgress(s: System)
    requires Covered(s, 0) && s.linkOn && !(s.queue == [] && s.sender == Waiting)
    ensures var s' := Do(s, NextOwn(s));
            && Covered(s', 0) && s'.linkOn && s.log <= s'.log
            && (|s'.queue| < |s.queue| || (s'.queue == s.queue && Rank(s') < Rank(s)))
            && (forall m | Pending(s, m) :: Pending(s', m) || Transmitted(m, s'.log))
  {
    var s' := Do(s, NextOwn(s));
    CoveredStep(s, NextOwn(s), 0);
    if s.sender.Connected? && s.queue != [] {
      FirstAndRest(s.queue);
      assert !s.queue[0].needsAck ==> s'.log[|s.log|] == Sent(s.queue[0], 1);
    } else if s.sender.Transmitting? {
      assert s'.log[|s.log|] == Sent(s.sender.m, s.sender.sent + 1);
    }
  }

  /** Progress: with the link up, the producers' outstanding posts and the sender's own steps, even
      if no acknowledgement ever arrives, empty the queue and transmit everything in it. */
  lemma {:induction false} SenderDrains(s: System) returns (run: seq<Step>)
    requires Covered(s, 0) && s.linkOn
    ensures OwnRun(run)
    ensures var s' := Exec(s, run);
            && s'.queue == [] && s'.sender == Waiting && s.log <= s'.log
            && (forall m | Pending(s, m) :: Transmitted(m, s'.log))
    decreases |s.queue|, Rank(s)
  {
    if s.queue == [] && s.sender == Waiting {
      run := [];
    } else {
      var s1 := Do(s, NextOwn(s));
      OwnStepProgress(s);
      var rest := SenderDrains(s1);
      run := [NextOwn(s)] + rest;
      ExecCons(s, NextOwn(s), rest);
    }
  }

  /** What the own steps have in hand beyond the queue; negative when messages are stranded. */
  function Surplus(s: System): int {
    s.permits + s.posting + Held(s.sender) - |s.queue|
  }

  lemma OwnStepsAddNothing(s: System, step: Step)
    requires OwnStep(step)
    ensures Surplus(Do(s, step)) <= Surplus(s)
  {
  }

  lemma {:induction false} OwnRunAddsNothing(s: System, run: seq<Step>)
    requires OwnRun(run)
    ensures Surplus(Exec(s, run)) <= Surplus(s)
  {
    if run != [] {
      OwnRunAddsNothing(s, run[..|run| - 1]);
      OwnStepsAddNothing(Exec(s, run[..|run| - 1]), run[|run| - 1]);
    }
  }

  /** The exact condition: with the link up, the outstanding posts and the sender can empty the queue
      if and only if it is covered by permits, posts and the sender's own permit. */
  lemma DrainableExactly(s: System)
    requires s.linkOn
    ensures (exists run :: OwnRun(run) && Exec(s, run).queue == []) <==> Covered(s, 0)
  {
    if Covered(s, 0) {
      var run := SenderDrains(s);
    }
    forall run | OwnRun(run) && Exec(s, run).queue == []
      ensures Covered(s, 0)
    {
      OwnRunAddsNothing(s, run);
    }
  }

  /** Hence after any interleaving that leaves the queue covered and the link up, in particular if no
      check has failed since the queue was last empty, everything queued is still sent. */
  lemma QueuedIsEventuallySent(run: seq<Step>) returns (more: seq<Step>)
    requires Exec(START, run).linkOn && (Missed(START, run) == 0 || Covered(Exec(START, run), 0))
    ensures OwnRun(more)
    ensures var s, s' := Exec(START, run), Exec(Exec(START, run), more);
            s'.queue == [] && forall m | m in s.queue :: Transmitted(m, s'.log)
  {
    PermitInvariant(run);
    var s := Exec(START, run);
    more := SenderDrains(s);
    assert forall m | m in s.queue :: Pending(s, m);
  }
}
