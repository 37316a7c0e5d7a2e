/** The receive loop and the media upload together: which media requests are answered in place follows
    from the commands received and the stored files. */
module MediaRequests {
  import opened Bytes
  import opened Frames
  import opened Receiving
  import Serials
  import MT = MediaTransfer

  /** Both components, and what the host should have heard back so far. */
  datatype Joint = Joint(station: Station, upload: MT.Transfer, answers: seq<Message>)

  /** A command that arrives, or an event that concerns the upload alone: an acknowledgement, a give-up,
      a reset or a file stored or removed. */
  datatype Step = Command(m: Message, replyRoom: bool, room: bool) | Local(e: MT.Event)

  /** The event a media request is to the upload. */
  function RequestOf(m: Message, replyRoom: bool, room: bool): MT.Event {
    var p, len := m.payload, HEADER_LEN + |m.payload| + 1;
    if |p| < 5 then MT.Request(len, 0, 0, replyRoom, room)
    else MT.Request(len, p[0], FromBe16(p[1], p[2]) * 0x1_0000 + FromBe16(p[3], p[4]), replyRoom, room)
  }

  /** A request names the media type in its first byte and the id in the next four, high byte first. */
  lemma RequestRoundTrip(m: Message, kind: byte, id: u32, replyRoom: bool, room: bool)
    requires m.payload == [kind] + Be32(id)
    ensures RequestOf(m, replyRoom, room) == MT.Request(MT.REQUEST_LEN, kind, id, replyRoom, room)
    ensures (((m.payload[1] as int) * 0x100 + m.payload[2]) * 0x100 + m.payload[3]) * 0x100 + m.payload[4] == id
  {
  }

  predicate IsRequest(step: Step, self: DeviceId) {
    step.Command? && ForUs(step.m, self) && step.m.cmd == CMD_REQ_MM_DATA
  }

  /** Whether the step is a media request that the upload accepts in this state. */
  predicate Begins(upload: MT.Transfer, step: Step, self: DeviceId) {
    IsRequest(step, self) && MT.Accepts(upload, RequestOf(step.m, step.replyRoom, step.room))
  }

  function Upload(upload: MT.Transfer, step: Step, self: DeviceId): MT.Transfer {
    match step
    case Command(m, replyRoom, room) =>
      if IsRequest(step, self) then MT.Do(upload, RequestOf(m, replyRoom, room)) else upload
    case Local(e) => if e.Request? then upload else MT.Do(upload, e)
  }

  function Do(j: Joint, step: Step, self: DeviceId): Joint {
    match step
    case Command(m, _, _) =>
      var verdict := Begins(j.upload, step, self);
      Joint(Handle(j.station, FrameOf(m), self, (k: nat) => verdict), Upload(j.upload, step, self),
            j.answers + AnswerTo(m, self, verdict))
    case Local(_) => j.(upload := Upload(j.upload, step, self))
  }

  const START := Joint(Station(Serials.ZERO, [], [], 0), MT.START, [])

  function Exec(run: seq<Step>, self: DeviceId): Joint {
    if run == [] then START else Do(Exec(run[..|run| - 1], self), run[|run| - 1], self)
  }

  // ----- the replies -----

  lemma AnsweredStep(j: Joint, step: Step, self: DeviceId)
    requires j.station.outbox == Wire(j.answers)
    ensures Do(j, step, self).station.outbox == Wire(Do(j, step, self).answers)
  {
    if step.Command? {
      var verdict := Begins(j.upload, step, self);
      HandledMessage(j.station, step.m, self, (k: nat) => verdict);
      WireConcat(j.answers, AnswerTo(step.m, self, verdict));
    }
  }

  /** In every run the replies built in the receive buffer are exactly the answers: one per query, per
      factory reset, and per media request that begins a transfer. */
  lemma {:induction false} RepliesAreAnswers(run: seq<Step>, self: DeviceId)
    ensures Exec(run, self).station.outbox == Wire(Exec(run, self).answers)
  {
    if run != [] {
      RepliesAreAnswers(run[..|run| - 1], self);
      AnsweredStep(Exec(run[..|run| - 1], self), run[|run| - 1], self);
    }
  }

  /** What the run is to the upload: the media requests for this device and the local events. */
  function UploadEvents(run: seq<Step>, self: DeviceId): seq<MT.Event> {
    if run == [] then []
    else
      var init, step := run[..|run| - 1], run[|run| - 1];
      UploadEvents(init, self)
      + match step
        case Command(m, replyRoom, room) =>
          if ForUs(m, self) && m.cmd == CMD_REQ_MM_DATA then [RequestOf(m, replyRoom, room)] else []
        case Local(e) => if e.Request? then [] else [e]
  }

  /** Within the joint run, the upload is the transfer machine on its own events. */
  lemma {:induction false} UploadFollows(run: seq<Step>, self: DeviceId)
    ensures Exec(run, self).upload == MT.Exec(MT.START, UploadEvents(run, self))
  {
    if run != [] {
      var init, step := run[..|run| - 1], run[|run| - 1];
      UploadFollows(init, self);
      var before := UploadEvents(init, self);
      ConcatEmpty(before);
      if IsRequest(step, self) {
        MT.ExecSnoc(MT.START, before, RequestOf(step.m, step.replyRoom, step.room));
      } else if step.Local? && !step.e.Request? {
        MT.ExecSnoc(MT.START, before, step.e);
      }
    }
  }

  /** After any run, a media request for this device is answered if and only if the transfer machine, run
      on the requests and local events so far, accepts it. */
  lemma MediaRequestAnswered(run: seq<Step>, m: Message, replyRoom: bool, room: bool, self: DeviceId)
    requires ForUs(m, self) && m.cmd == CMD_REQ_MM_DATA
    ensures var upload := MT.Exec(MT.START, UploadEvents(run, self));
            Exec(run + [Command(m, replyRoom, room)], self).answers
            == Exec(run, self).answers
               + if MT.Accepts(upload, RequestOf(m, replyRoom, room)) then [Message(m.serial, self, m.cmd, [])] else []
  {
    SnocParts(run, Command(m, replyRoom, room));
    UploadFollows(run, self);
  }

  // ----- one transfer at a time -----

  /** The step at position i is a media request answered with a transfer. */
  predicate BeginsAt(run: seq<Step>, i: nat, self: DeviceId) {
    i < |run| && Begins(Exec(run[..i], self).upload, run[i], self)
  }

  /** The step ends the transfer under way: its last acknowledgement, a give-up or a reset. */
  predicate Ends(upload: MT.Transfer, step: Step) {
    step.Local? && (step.e.GaveUp? || step.e.Reset? || (MT.Matches(upload, step.e) && upload.index == upload.total))
  }

  lemma ExecPrefix(run: seq<Step>, k: nat, self: DeviceId)
    requires k < |run|
    ensures Exec(run[..k + 1], self) == Do(Exec(run[..k], self), run[k], self)
  {
    SnocParts(run[..k], run[k]);
    assert run[..k + 1] == run[..k] + [run[k]];
  }

  lemma BegunWaits(upload: MT.Transfer, step: Step, self: DeviceId)
    requires Begins(upload, step, self)
    ensures Upload(upload, step, self).waiting && !upload.waiting
  {
  }

  lemma WaitsOn(upload: MT.Transfer, step: Step, self: DeviceId)
    requires upload.waiting
    ensures Upload(upload, step, self).waiting || Ends(upload, step)
  {
    if step.Local? && !step.e.Request? {
      MT.WaitingEnds(upload, step.e);
    }
  }

  predicate WaitingAt(run: seq<Step>, k: nat, self: DeviceId) {
    k <= |run| && Exec(run[..k], self).upload.waiting
  }

  predicate EndsAt(run: seq<Step>, k: nat, self: DeviceId) {
    k < |run| && Ends(Exec(run[..k], self).upload, run[k])
  }

  lemma BegunAt(run: seq<Step>, k: nat, self: DeviceId)
    requires BeginsAt(run, k, self)
    ensures !WaitingAt(run, k, self) && WaitingAt(run, k + 1, self)
  {
    ExecPrefix(run, k, self);
    BegunWaits(Exec(run[..k], self).upload, run[k], self);
  }

  lemma WaitsAt(run: seq<Step>, k: nat, self: DeviceId)
    requires k < |run| && WaitingAt(run, k, self)
    ensures WaitingAt(run, k + 1, self) || EndsAt(run, k, self)
  {
    ExecPrefix(run, k, self);
    WaitsOn(Exec(run[..k], self).upload, run[k], self);
  }

  ghost predicate EndsBetween(run: seq<Step>, from: nat, to: nat, self: DeviceId) {
    exists k :: from <= k < to && EndsAt(run, k, self)
  }

  lemma EndsWider(run: seq<Step>, from: nat, to: nat, self: DeviceId)
    requires EndsBetween(run, from, to, self)
    ensures EndsBetween(run, from, to + 1, self)
  {
    var k :| from <= k < to && EndsAt(run, k, self);
    assert from <= k < to + 1;
  }

  lemma {:induction false} WaitsUntil(run: seq<Step>, from: nat, to: nat, self: DeviceId)
    requires from <= to <= |run| && WaitingAt(run, from, self)
    ensures WaitingAt(run, to, self) || EndsBetween(run, from, to, self)
  {
    if from < to {
      WaitsUntil(run, from, to - 1, self);
      if EndsBetween(run, from, to - 1, self) {
        EndsWider(run, from, to - 1, self);
      } else {
        WaitsAt(run, to - 1, self);
      }
    }
  }

  /** Between two media requests that are answered, the first transfer came to its end: its last chunk
      was acknowledged, or the sender gave up, or the link was set up again. A request repeated before
      that gets no reply. */
  lemma OneTransferAtATime(run: seq<Step>, i: nat, j: nat, self: DeviceId)
    requires i < j && BeginsAt(run, i, self) && BeginsAt(run, j, self)
    ensures EndsBetween(run, i + 1, j, self)
  {
    BegunAt(run, i, self);
    BegunAt(run, j, self);
    WaitsUntil(run, i + 1, j, self);
  }
}
