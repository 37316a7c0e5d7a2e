/** Upload of a stored media file in 64 KiB chunks, one chunk per matching acknowledgement. */
module MediaTransfer {
  import opened Bytes
  import opened Frames

  const CHUNK := 0x1_0000
  const MAX_FILE := 0x8000_0000 - CHUNK  // sizes for which the chunk count is computed without overflow
  const REQUEST_LEN := HEADER_LEN + 5 + 1

  type File = f: seq<byte> | |f| <= MAX_FILE

  datatype Chunk = Chunk(kind: byte, id: u32, total: u16, index: u16, data: seq<byte>)

  /** What the upload puts into the send queue. */
  datatype Outgoing = RequestReply | ChunkOut(chunk: Chunk)

  /** History since the last accepted request: whether its reply was taken by the send queue, the
      chunks offered, the numbers of those refused by a full queue, the file as it was then and whether
      it has stayed so. */
  datatype History = History(replied: bool, offered: seq<Chunk>, refused: set<nat>, original: File, stable: bool)

  const NONE := History(false, [], {}, [], false)

  /** g_pkg_status, the file store, what the send queue took and the notices given to the sender. */
  datatype Transfer = Transfer(
    waiting: bool, kind: byte, id: u32, index: u16, total: u16,
    files: map<u32, File>, queued: seq<Outgoing>, notices: nat, past: History)

  /** replyRoom and room say whether the queue has room when the reply and the chunk are pushed. */
  datatype Event =
    | Request(len: nat, kind: byte, id: u32, replyRoom: bool, room: bool)
    | Ack(error: byte, id: u32, index: u16, room: bool)
    | GaveUp                          // the sender thread exhausted its retries
    | Reset                           // the link was set up again
    | Store(id: u32, file: File)      // the recorder wrote a file
    | Remove(id: u32)

  const START := Transfer(false, 0, 0, 0, 0, map[], [], 0, NONE)

  /** Up to CHUNK bytes of f from a given position, as fseek and fread return them. */
  function ReadAt(f: seq<byte>, pos: nat): seq<byte> {
    f[Min(pos, |f|)..Min(pos + CHUNK, |f|)]
  }

  function ChunkCount(f: File): u16
    ensures f != [] ==> (ChunkCount(f) - 1) * CHUNK < |f| <= ChunkCount(f) * CHUNK
    ensures ChunkCount(f) <= 0x7FFF
  {
    (|f| + CHUNK - 1) / CHUNK
  }

  function Offer(past: History, c: Chunk, room: bool): History {
    past.(offered := past.offered + [c], refused := past.refused + if room then {} else {c.index as nat})
  }

  /** The result of the push is ignored: a refused chunk is counted as sent. */
  function SendImage(s: Transfer, room: bool): Transfer {
    if s.id !in s.files then s
    else
      var data := ReadAt(s.files[s.id], s.index * CHUNK);
      if data == [] then s
      else
        var c := Chunk(s.kind, s.id, s.total, s.index, data);
        s.(queued := s.queued + (if room then [ChunkOut(c)] else []), past := Offer(s.past, c, room),
           index := (s.index + 1) % 0x1_0000)
  }

  predicate Accepts(s: Transfer, e: Event) {
    e.Request? && !s.waiting && e.len == REQUEST_LEN && e.id in s.files && s.files[e.id] != []
  }

  function Started(s: Transfer, kind: byte, id: u32, replyRoom: bool): Transfer
    requires id in s.files
  {
    s.(waiting := true, kind := kind, id := id, index := 0, total := ChunkCount(s.files[id]),
       queued := s.queued + ReplyPart(replyRoom), past := History(replyRoom, [], {}, s.files[id], true))
  }

  function ReplyPart(replied: bool): seq<Outgoing> {
    if replied then [RequestReply] else []
  }

  /** The acknowledgement's media id is not looked at. */
  predicate Matches(s: Transfer, e: Event) {
    e.Ack? && e.error == 0 && s.index == e.index + 1
  }

  function Do(s: Transfer, e: Event): Transfer {
    match e
    case Request(_, kind, id, replyRoom, room) =>
      if Accepts(s, e) then SendImage(Started(s, kind, id, replyRoom), room) else s
    case Ack(_, _, _, room) =>
      if !Matches(s, e) then s
      else
        var noticed := s.(notices := s.notices + 1);
        if s.total == s.index then noticed.(waiting := false) else SendImage(noticed, room)
    case GaveUp => s.(waiting := false)
    case Reset =>
      s.(waiting := false, kind := 0, id := 0, index := 0, total := 0, past := NONE)
    case Store(id, file) =>
      var stable := s.past.stable && (id != s.id || file == s.past.original);
      s.(files := s.files[id := file], past := s.past.(stable := stable))
    case Remove(id) => s.(files := s.files - {id}, past := s.past.(stable := s.past.stable && id != s.id))
  }

  function Exec(s: Transfer, run: seq<Event>): Transfer {
    if run == [] then s else Do(Exec(s, run[..|run| - 1]), run[|run| - 1])
  }

  // ----- what every run keeps -----

  function DataOf(chunks: seq<Chunk>): seq<byte> {
    if chunks == [] then [] else DataOf(chunks[..|chunks| - 1]) + chunks[|chunks| - 1].data
  }

  ghost predicate Numbered(s: Transfer) {
    && |s.past.offered| == s.index
    && forall k | 0 <= k < |s.past.offered| ::
         var c := s.past.offered[k];
         c.index == k && c.total == s.total && c.id == s.id && c.kind == s.kind && 0 < |c.data| <= CHUNK
  }

  /** While the file is unchanged, the chunks out so far are its beginning. */
  ghost predicate Faithful(s: Transfer) {
    s.past.stable ==>
      && s.id in s.files && s.files[s.id] == s.past.original != [] && s.total == ChunkCount(s.past.original)
      && DataOf(s.past.offered) == s.past.original[..Min(s.index * CHUNK, |s.past.original|)]
  }

  ghost predicate Inv(s: Transfer) {
    s.index <= s.total <= 0x7FFF && Numbered(s) && Faithful(s)
  }

  lemma SlicesJoin(f: seq<byte>, pos: nat)
    ensures f[..Min(pos, |f|)] + ReadAt(f, pos) == f[..Min(pos + CHUNK, |f|)]
  {
  }

  lemma DataSnoc(chunks: seq<Chunk>, c: Chunk)
    ensures DataOf(chunks + [c]) == DataOf(chunks) + c.data
  {
    SnocParts(chunks, c);
  }

  lemma NumberedOffer(s: Transfer, s': Transfer, c: Chunk, room: bool)
    requires Numbered(s) && s' == s.(queued := s'.queued, past := Offer(s.past, c, room), index := s'.index)
    requires s'.index == s.index + 1 && c == Chunk(s.kind, s.id, s.total, s.index, c.data) && 0 < |c.data| <= CHUNK
    ensures Numbered(s')
  {
  }

  lemma FaithfulOffer(s: Transfer, s': Transfer, c: Chunk, room: bool)
    requires Faithful(s) && s' == s.(queued := s'.queued, past := Offer(s.past, c, room), index := s'.index)
    requires s'.index == s.index + 1 && s.id in s.files && c.data == ReadAt(s.files[s.id], s.index * CHUNK)
    ensures Faithful(s')
  {
    DataSnoc(s.past.offered, c);
    SlicesJoin(s.files[s.id], s.index * CHUNK);
  }

  lemma SendImageKeeps(s: Transfer, room: bool)
    requires Inv(s) && s.index < s.total
    ensures Inv(SendImage(s, room))
    ensures s.past.stable ==> SendImage(s, room).index == s.index + 1
  {
    if s.id in s.files && ReadAt(s.files[s.id], s.index * CHUNK) != [] {
      var c := Chunk(s.kind, s.id, s.total, s.index, ReadAt(s.files[s.id], s.index * CHUNK));
      NumberedOffer(s, SendImage(s, room), c, room);
      FaithfulOffer(s, SendImage(s, room), c, room);
    }
  }

  lemma StartedKeeps(s: Transfer, kind: byte, id: u32, replyRoom: bool)
    requires id in s.files && s.files[id] != []
    ensures Inv(Started(s, kind, id, replyRoom))
    ensures Started(s, kind, id, replyRoom).index < Started(s, kind, id, replyRoom).total
  {
  }

  lemma StoreKeeps(s: Transfer, e: Event)
    requires Inv(s) && (e.Store? || e.Remove?)
    ensures Inv(Do(s, e))
  {
  }

  lemma RequestKeeps(s: Transfer, e: Event)
    requires Accepts(s, e)
    ensures Inv(Do(s, e))
  {
    StartedKeeps(s, e.kind, e.id, e.replyRoom);
    SendImageKeeps(Started(s, e.kind, e.id, e.replyRoom), e.room);
  }

  lemma AckKeeps(s: Transfer, e: Event)
    requires Inv(s) && Matches(s, e)
    ensures Inv(Do(s, e))
  {
    if s.index < s.total {
      SendImageKeeps(s.(notices := s.notices + 1), e.room);
    }
  }

  lemma DoKeeps(s: Transfer, e: Event)
    requires Inv(s)
    ensures Inv(Do(s, e))
  {
    if Accepts(s, e) {
      RequestKeeps(s, e);
    } else if Matches(s, e) {
      AckKeeps(s, e);
    } else if e.Store? || e.Remove? {
      StoreKeeps(s, e);
    }
  }

  /** The history calls a file changed only when it was: writing the same bytes again or touching other
      files leaves it unchanged. */
  lemma StableWhileSame(s: Transfer, e: Event)
    requires Inv(s) && s.past.stable && !Accepts(s, e) && !e.Reset?
    ensures var s' := Do(s, e);
            s'.past.stable <==> s.id in s'.files && s'.files[s.id] == s.past.original
  {
  }

  lemma {:induction false} EveryRunKeeps(run: seq<Event>)
    ensures Inv(Exec(START, run))
  {
    if run != [] {
      EveryRunKeeps(run[..|run| - 1]);
      DoKeeps(Exec(START, run[..|run| - 1]), run[|run| - 1]);
    }
  }

  /** Whatever requests, acknowledgements, give-ups, resets and file changes occurred: the chunks of
      the current transfer are numbered 0, 1, 2, ... without gap or repeat, never past the total,
      and once all are out, those of an unchanged file concatenate to exactly that file. */
  lemma TransferSafe(run: seq<Event>)
    ensures var s := Exec(START, run);
            && s.index <= s.total <= 0x7FFF && s.index * CHUNK < 0x8000_0000 && |s.past.offered| == s.index
            && (forall k | 0 <= k < |s.past.offered| :: s.past.offered[k].index == k && s.past.offered[k].id == s.id)
            && (s.past.stable ==> s.id in s.files && s.files[s.id] == s.past.original)
            && (s.past.stable && s.index == s.total ==> DataOf(s.past.offered) == s.past.original)
  {
    EveryRunKeeps(run);
    var s := Exec(START, run);
    if s.past.stable && s.index == s.total {
      assert s.past.original[..|s.past.original|] == s.past.original;
    }
  }

  // ----- acknowledgements -----

  /** Once an acknowledgement has advanced the transfer, that one and all earlier ones, repeated in
      any order and number, change nothing. */
  lemma {:induction false} OldAcksIgnored(s: Transfer, k: u16, repeats: seq<Event>)
    requires s.index == k + 2
    requires forall i | 0 <= i < |repeats| :: repeats[i].Ack? && repeats[i].index <= k
    ensures Exec(s, repeats) == s
  {
    if repeats != [] {
      OldAcksIgnored(s, k, repeats[..|repeats| - 1]);
      assert repeats[|repeats| - 1].index <= k;
    }
  }

  /** Whether there is a next chunk to read. */
  predicate MoreToRead(s: Transfer) {
    s.index < s.total && s.id in s.files && ReadAt(s.files[s.id], s.index * CHUNK) != []
  }

  /** One acknowledgement advances by at most one chunk, and does so exactly when it is the awaited one,
      whatever media id it carries, and a chunk is left; the last one ends the transfer. */
  lemma AckAdvances(s: Transfer, e: Event)
    requires Inv(s) && e.Ack?
    ensures Do(s, e).index == if Matches(s, e) && MoreToRead(s) then s.index + 1 else s.index
    ensures Matches(s, e) && s.index == s.total ==> !Do(s, e).waiting
    ensures Matches(s, e) && s.index < s.total && s.past.stable ==> MoreToRead(s)
    ensures forall other: u32 :: Do(s, Ack(e.error, other, e.index, e.room)) == Do(s, e)
  {
  }

  /** A repeat of the acknowledgement just taken is ignored if and only if that one advanced the
      transfer; a repeated last acknowledgement is noticed every time. */
  lemma RepeatNoticed(s: Transfer, e: Event)
    requires Inv(s) && Matches(s, e)
    ensures Do(Do(s, e), e).notices == s.notices + if MoreToRead(s) then 1 else 2
  {
    AckAdvances(s, e);
  }

  predicate Restarts(s: Transfer, e: Event) {
    e.Reset? || Accepts(s, e)
  }

  predicate RestartsAt(run: seq<Event>, k: nat) {
    k < |run| && Restarts(Exec(START, run[..k]), run[k])
  }

  ghost predicate RestartBetween(run: seq<Event>, from: nat, to: nat) {
    exists k :: from <= k < to && RestartsAt(run, k)
  }

  /** The packet index after the first k events. */
  function IndexAfter(run: seq<Event>, k: nat): nat
    requires k <= |run|
  {
    Exec(START, run[..k]).index
  }

  lemma IndexStep(s: Transfer, e: Event)
    requires Inv(s) && !Restarts(s, e)
    ensures s.index <= Do(s, e).index
  {
  }

  lemma ExecPrefix(s: Transfer, run: seq<Event>, k: nat)
    requires k < |run|
    ensures Exec(s, run[..k + 1]) == Do(Exec(s, run[..k]), run[k])
  {
    SnocParts(run[..k], run[k]);
    assert run[..k + 1] == run[..k] + [run[k]];
  }

  /** The index does not fall at position k, or the transfer starts anew there. */
  lemma IndexAt(run: seq<Event>, k: nat)
    requires k < |run|
    ensures RestartsAt(run, k) || IndexAfter(run, k) <= IndexAfter(run, k + 1)
  {
    var s := Exec(START, run[..k]);
    ExecPrefix(START, run, k);
    EveryRunKeeps(run[..k]);
    if !Restarts(s, run[k]) {
      IndexStep(s, run[k]);
    }
  }

  lemma RestartWider(run: seq<Event>, from: nat, to: nat)
    requires RestartBetween(run, from, to)
    ensures RestartBetween(run, from, to + 1)
  {
    var k :| from <= k < to && RestartsAt(run, k);
    assert from <= k < to + 1;
  }

  lemma {:induction false} IndexNeverFalls(run: seq<Event>, from: nat, to: nat)
    requires from <= to <= |run|
    ensures IndexAfter(run, from) <= IndexAfter(run, to) || RestartBetween(run, from, to)
  {
    if from < to {
      IndexNeverFalls(run, from, to - 1);
      if RestartBetween(run, from, to - 1) {
        RestartWider(run, from, to - 1);
      } else {
        IndexAt(run, to - 1);
      }
    }
  }

  /** The acknowledgement at position i of the run advances the transfer. */
  predicate AdvancesAt(run: seq<Event>, i: nat) {
    i < |run| && run[i].Ack? && Exec(START, run[..i + 1]).index != Exec(START, run[..i]).index
  }

  lemma AdvanceFrom(run: seq<Event>, i: nat)
    requires AdvancesAt(run, i)
    ensures Exec(START, run[..i]).index == run[i].index + 1 && Exec(START, run[..i + 1]).index == run[i].index + 2
  {
    EveryRunKeeps(run[..i]);
    ExecPrefix(START, run, i);
    AckAdvances(Exec(START, run[..i]), run[i]);
  }

  /** Over every run, two advances on the same chunk number are separated by a new transfer: an
      accepted request or a reset. */
  lemma OneAdvancePerChunk(run: seq<Event>, i: nat, j: nat)
    requires i < j && AdvancesAt(run, i) && AdvancesAt(run, j) && run[i].index == run[j].index
    ensures RestartBetween(run, i + 1, j)
  {
    AdvanceFrom(run, i);
    AdvanceFrom(run, j);
    IndexNeverFalls(run, i + 1, j);
  }

  /** The acknowledgements of chunks 0, 1, ..., n - 1, each answered with room in the queue. */
  function Acks(n: nat, id: u32): seq<Event>
    requires n <= 0x1_0000
  {
    if n == 0 then [] else Acks(n - 1, id) + [Ack(0, id, n - 1, true)]
  }

  lemma ExecSnoc(s: Transfer, run: seq<Event>, e: Event)
    ensures Exec(s, run + [e]) == Do(Exec(s, run), e)
  {
    SnocParts(run, e);
  }

  /** Under way: this many chunks of the whole unchanged file are out, none refused. */
  ghost predicate UnderWay(s: Transfer, file: File, n: nat) {
    && Inv(s) && s.past.stable && s.waiting && s.index == n && s.past.original == file && s.total == ChunkCount(file)
    && s.past.refused == {} && s.past.replied
  }

  lemma AckedOnce(s: Transfer, file: File, n: nat, id: u32)
    requires UnderWay(s, file, n) && 1 <= n < ChunkCount(file)
    ensures UnderWay(Do(s, Ack(0, id, n - 1, true)), file, n + 1)
  {
    var e := Ack(0, id, n - 1, true);
    DoKeeps(s, e);
    AckAdvances(s, e);
  }

  lemma {:induction false} AckedInOrder(s: Transfer, file: File, n: nat, id: u32)
    requires UnderWay(s, file, 1) && n < ChunkCount(file)
    ensures UnderWay(Exec(s, Acks(n, id)), file, n + 1)
  {
    if n > 0 {
      AckedInOrder(s, file, n - 1, id);
      ExecSnoc(s, Acks(n - 1, id), Ack(0, id, n - 1, true));
      AckedOnce(Exec(s, Acks(n - 1, id)), file, n, id);
    }
  }

  lemma LastAck(s: Transfer, file: File, id: u32)
    requires 1 <= ChunkCount(file) && UnderWay(s, file, ChunkCount(file))
    ensures var s' := Do(s, Ack(0, id, ChunkCount(file) - 1, true));
            && !s'.waiting && |s'.past.offered| == ChunkCount(file) && DataOf(s'.past.offered) == file
            && s'.past.refused == {} && s'.past.replied
  {
    assert file[..|file|] == file;
  }

  lemma StartedReads(s: Transfer, kind: byte, id: u32, replyRoom: bool)
    requires id in s.files && s.files[id] != []
    ensures var begun := Started(s, kind, id, replyRoom);
            && begun.id in begun.files
            && ReadAt(begun.files[begun.id], begun.index * CHUNK) == ReadAt(s.files[id], 0) != []
  {
  }

  /** An accepted request starts the transfer and pushes its reply and chunk 0; each enters the queue if
      there is room. */
  lemma RequestBegins(s: Transfer, kind: byte, id: u32, replyRoom: bool, room: bool)
    requires !s.waiting && id in s.files && s.files[id] != []
    ensures var begun := Do(s, Request(REQUEST_LEN, kind, id, replyRoom, room));
            var c := Chunk(kind, id, ChunkCount(s.files[id]), 0, ReadAt(s.files[id], 0));
            && Inv(begun) && begun.past.stable && begun.waiting && begun.id == id && begun.index == 1
            && begun.past.original == s.files[id] && begun.total == ChunkCount(s.files[id])
            && begun.past.replied == replyRoom && begun.past.refused == (if room then {} else {0})
            && begun.past.offered == [c]
            && begun.queued == s.queued + ReplyPart(replyRoom) + if room then [ChunkOut(c)] else []
  {
    StartedKeeps(s, kind, id, replyRoom);
    SendImageKeeps(Started(s, kind, id, replyRoom), room);
    StartedReads(s, kind, id, replyRoom);
  }

  lemma BegunUnderWay(s: Transfer, kind: byte, id: u32)
    requires !s.waiting && id in s.files && s.files[id] != []
    ensures UnderWay(Do(s, Request(REQUEST_LEN, kind, id, true, true)), s.files[id], 1)
  {
    RequestBegins(s, kind, id, true, true);
  }

  lemma AckedToTheEnd(s: Transfer, file: File, id: u32)
    requires file != [] && UnderWay(s, file, 1)
    ensures var s' := Exec(s, Acks(ChunkCount(file), id));
            && !s'.waiting && |s'.past.offered| == ChunkCount(file) && DataOf(s'.past.offered) == file
            && s'.past.refused == {} && s'.past.replied
  {
    var n := ChunkCount(file);
    AckedInOrder(s, file, n - 1, id);
    ExecSnoc(s, Acks(n - 1, id), Ack(0, id, n - 1, true));
    LastAck(Exec(s, Acks(n - 1, id)), file, id);
  }

  /** A host that acknowledges each chunk gets every stored file whole, while the queue has room: the
      request and one acknowledgement per chunk end the transfer with exactly the file's bytes
      offered and none refused. */
  lemma TransferCompletes(s: Transfer, kind: byte, id: u32)
    requires !s.waiting && id in s.files && s.files[id] != []
    ensures var f := s.files[id];
            var s' := Exec(Do(s, Request(REQUEST_LEN, kind, id, true, true)), Acks(ChunkCount(f), id));
            && !s'.waiting && |s'.past.offered| == ChunkCount(f) && DataOf(s'.past.offered) == f
            && s'.past.refused == {} && s'.past.replied
  {
    BegunUnderWay(s, kind, id);
    AckedToTheEnd(Do(s, Request(REQUEST_LEN, kind, id, true, true)), s.files[id], id);
  }

  lemma FourSteps(s: Transfer, e1: Event, e2: Event, e3: Event, e4: Event)
    ensures Exec(s, [e1, e2, e3, e4]) == Do(Do(Do(Do(s, e1), e2), e3), e4)
  {
    var run := [e1, e2, e3, e4];
    ExecPrefix(s, run, 0);
    ExecPrefix(s, run, 1);
    ExecPrefix(s, run, 2);
    ExecPrefix(s, run, 3);
    assert run[..0] == [] && run[..4] == run;
  }

  lemma LateAck(s: Transfer, kind: byte, a: u32, b: u32)
    requires !s.waiting && b in s.files && |s.files[b]| > CHUNK
    ensures var s' := Do(Do(s, Request(REQUEST_LEN, kind, b, true, true)), Ack(0, a, 0, true));
            s'.id == b && s'.index == 2 && |s'.past.offered| == 2
  {
    var e := Ack(0, a, 0, true);
    RequestBegins(s, kind, b, true, true);
    var begun := Do(s, Request(REQUEST_LEN, kind, b, true, true));
    assert begun.index < begun.total;
    AckAdvances(begun, e);
    DoKeeps(begun, e);
  }

  /** The media id in an acknowledgement is not compared: after a transfer of a was given up and one of
      b begun, a late acknowledgement of a's first chunk sends b's second, with b's first unconfirmed. */
  lemma LateAckAdvances(s: Transfer, kind: byte, a: u32, b: u32)
    requires !s.waiting && a in s.files && s.files[a] != [] && b in s.files && |s.files[b]| > CHUNK
    ensures var s' := Exec(s, [Request(REQUEST_LEN, kind, a, true, true), GaveUp,
                               Request(REQUEST_LEN, kind, b, true, true), Ack(0, a, 0, true)]);
            s'.id == b && s'.index == 2 && |s'.past.offered| == 2
  {
    var e1, e3 := Request(REQUEST_LEN, kind, a, true, true), Request(REQUEST_LEN, kind, b, true, true);
    FourSteps(s, e1, GaveUp, e3, Ack(0, a, 0, true));
    RequestBegins(s, kind, a, true, true);
    LateAck(Do(Do(s, e1), GaveUp), kind, a, b);
  }

  // ----- setting up the link again -----

  /** No request of the continuation is accepted. */
  predicate NoneAccepted(s: Transfer, more: seq<Event>) {
    more == []
    || (NoneAccepted(s, more[..|more| - 1]) && !Accepts(Exec(s, more[..|more| - 1]), more[|more| - 1]))
  }

  lemma ForgottenStep(s: Transfer, e: Event)
    requires s.index == 0 && !s.waiting && !Accepts(s, e)
    ensures var s' := Do(s, e);
            s'.index == 0 && !s'.waiting && s'.queued == s.queued && s'.notices == s.notices
  {
  }

  lemma {:induction false} ForgottenRun(s: Transfer, more: seq<Event>)
    requires s.index == 0 && !s.waiting && NoneAccepted(s, more)
    ensures var s' := Exec(s, more);
            s'.index == 0 && !s'.waiting && s'.queued == s.queued && s'.notices == s.notices
  {
    if more != [] {
      ForgottenRun(s, more[..|more| - 1]);
      ForgottenStep(Exec(s, more[..|more| - 1]), more[|more| - 1]);
    }
  }

  /** Setting up the link again forgets the transfer: after any run and a reset the record is as at the
      start, and until the next accepted request no acknowledgement of any chunk is taken, nothing is
      queued and no notice is given. */
  lemma ResetForgets(run: seq<Event>, more: seq<Event>)
    requires NoneAccepted(Do(Exec(START, run), Reset), more)
    ensures var s := Exec(START, run);
            var s' := Exec(Do(s, Reset), more);
            && s'.index == 0 && !s'.waiting && s'.queued == s.queued && s'.notices == s.notices
            && Do(s, Reset) == START.(files := s.files, queued := s.queued, notices := s.notices)
  {
    ForgottenRun(Do(Exec(START, run), Reset), more);
  }

  /** The file stored last under an id, unless it was removed since. */
  function StoredFile(run: seq<Event>, id: u32): Option<File> {
    if run == [] then None
    else
      match run[|run| - 1]
      case Store(i, file) => if i == id then Some(file) else StoredFile(run[..|run| - 1], id)
      case Remove(i) => if i == id then None else StoredFile(run[..|run| - 1], id)
      case _ => StoredFile(run[..|run| - 1], id)
  }

  lemma FilesStep(s: Transfer, e: Event)
    requires !e.Store? && !e.Remove?
    ensures Do(s, e).files == s.files
  {
  }

  /** The upload reads from the files as stored and removed, and changes none. */
  lemma {:induction false} FilesFollow(run: seq<Event>, id: u32)
    ensures var files := Exec(START, run).files;
            match StoredFile(run, id)
            case None => id !in files
            case Some(file) => id in files && files[id] == file
  {
    if run != [] {
      FilesFollow(run[..|run| - 1], id);
      var e := run[|run| - 1];
      if !e.Store? && !e.Remove? {
        FilesStep(Exec(START, run[..|run| - 1]), e);
      }
    }
  }

  // ----- a full send queue -----

  /** The chunks that were not refused. */
  function Kept(chunks: seq<Chunk>, refused: set<nat>): seq<Chunk> {
    if chunks == [] then []
    else
      var c := chunks[|chunks| - 1];
      Kept(chunks[..|chunks| - 1], refused) + if c.index as nat in refused then [] else [c]
  }

  function Enqueued(s: Transfer): seq<Chunk> {
    Kept(s.past.offered, s.past.refused)
  }

  function AsQueued(chunks: seq<Chunk>): seq<Outgoing> {
    if chunks == [] then [] else AsQueued(chunks[..|chunks| - 1]) + [ChunkOut(chunks[|chunks| - 1])]
  }

  /** Of all the upload put into the send queue, the last is the reply (if there was room) and then
      these chunks. */
  ghost predicate EndsWith(queued: seq<Outgoing>, replied: bool, chunks: seq<Chunk>) {
    exists before :: queued == before + (ReplyPart(replied) + AsQueued(chunks))
  }

  lemma EndsWithOneMore(queued: seq<Outgoing>, replied: bool, chunks: seq<Chunk>, c: Chunk)
    requires EndsWith(queued, replied, chunks)
    ensures EndsWith(queued + [ChunkOut(c)], replied, chunks + [c])
  {
    var before :| queued == before + (ReplyPart(replied) + AsQueued(chunks));
    SnocParts(chunks, c);
    ConcatAssociative(before, ReplyPart(replied) + AsQueued(chunks), [ChunkOut(c)]);
    ConcatAssociative(ReplyPart(replied), AsQueued(chunks), [ChunkOut(c)]);
    assert queued + [ChunkOut(c)] == before + (ReplyPart(replied) + AsQueued(chunks + [c]));
  }

  lemma EndsWithReply(queued: seq<Outgoing>, replied: bool)
    ensures EndsWith(queued + ReplyPart(replied), replied, [])
  {
    ConcatEmpty(ReplyPart(replied));
    assert queued + ReplyPart(replied) == queued + (ReplyPart(replied) + AsQueued([]));
  }

  /** Later refusals do not change which earlier chunks were kept. */
  lemma {:induction false} KeptBelow(chunks: seq<Chunk>, refused: set<nat>, n: nat)
    requires forall k | 0 <= k < |chunks| :: chunks[k].index < n
    ensures Kept(chunks, refused + {n}) == Kept(chunks, refused)
  {
    if chunks != [] {
      KeptBelow(chunks[..|chunks| - 1], refused, n);
      assert chunks[|chunks| - 1].index < n;
    }
  }

  /** The queue holds the reply and the kept chunks, and only chunks already offered were refused. */
  ghost predicate Follows(s: Transfer) {
    EndsWith(s.queued, s.past.replied, Enqueued(s)) && forall k | k in s.past.refused :: k < s.index
  }

  lemma KeptOneMore(chunks: seq<Chunk>, refused: set<nat>, c: Chunk, room: bool)
    requires (forall k | 0 <= k < |chunks| :: chunks[k].index < c.index) && c.index as nat !in refused
    ensures Kept(chunks + [c], refused + (if room then {} else {c.index as nat}))
            == Kept(chunks, refused) + if room then [c] else []
  {
    SnocParts(chunks, c);
    if room {
      assert refused + {} == refused;
    } else {
      KeptBelow(chunks, refused, c.index);
    }
  }

  lemma OfferFollows(s: Transfer, s': Transfer, c: Chunk, room: bool)
    requires Inv(s) && Follows(s) && c.index == s.index
    requires s'.queued == s.queued + (if room then [ChunkOut(c)] else [])
    requires s'.past == Offer(s.past, c, room) && s'.index == s.index + 1
    ensures Follows(s')
  {
    KeptOneMore(s.past.offered, s.past.refused, c, room);
    if room {
      EndsWithOneMore(s.queued, s.past.replied, Enqueued(s), c);
    } else {
      ConcatEmpty(s.queued);
      ConcatEmpty(Enqueued(s));
    }
  }

  lemma SendImageFollows(s: Transfer, room: bool)
    requires Inv(s) && Follows(s) && s.index < s.total
    ensures Follows(SendImage(s, room))
  {
    var s' := SendImage(s, room);
    if s.id in s.files && ReadAt(s.files[s.id], s.index * CHUNK) != [] {
      var c := Chunk(s.kind, s.id, s.total, s.index, ReadAt(s.files[s.id], s.index * CHUNK));
      OfferFollows(s, s', c, room);
    }
  }

  lemma RequestFollows(s: Transfer, e: Event)
    requires Accepts(s, e)
    ensures Follows(Do(s, e))
  {
    StartedKeeps(s, e.kind, e.id, e.replyRoom);
    EndsWithReply(s.queued, e.replyRoom);
    SendImageFollows(Started(s, e.kind, e.id, e.replyRoom), e.room);
  }

  lemma AckFollows(s: Transfer, e: Event)
    requires Inv(s) && Follows(s) && Matches(s, e)
    ensures Follows(Do(s, e))
  {
    if s.index < s.total {
      SendImageFollows(s.(notices := s.notices + 1), e.room);
    }
  }

  lemma FollowsStep(s: Transfer, e: Event)
    requires Inv(s) && Follows(s)
    ensures Follows(Do(s, e))
  {
    if Accepts(s, e) {
      RequestFollows(s, e);
    } else if Matches(s, e) {
      AckFollows(s, e);
    } else if e.Reset? {
      EndsWithReply(s.queued, false);
      ConcatEmpty(s.queued);
    }
  }

  lemma {:induction false} EveryRunFollows(run: seq<Event>)
    ensures Follows(Exec(START, run))
  {
    if run == [] {
      EndsWithReply([], false);
    } else {
      EveryRunFollows(run[..|run| - 1]);
      EveryRunKeeps(run[..|run| - 1]);
      FollowsStep(Exec(START, run[..|run| - 1]), run[|run| - 1]);
    }
  }

  lemma {:induction false} KeptHolds(chunks: seq<Chunk>, refused: set<nat>, c: Chunk)
    ensures c in Kept(chunks, refused) <==> c in chunks && c.index as nat !in refused
  {
    if chunks != [] {
      KeptHolds(chunks[..|chunks| - 1], refused, c);
      SnocOfConcat([], chunks);
    }
  }

  lemma {:induction false} KeptAll(chunks: seq<Chunk>)
    ensures Kept(chunks, {}) == chunks
  {
    if chunks != [] {
      KeptAll(chunks[..|chunks| - 1]);
      SnocOfConcat([], chunks);
    }
  }

  lemma ChunkKept(s: Transfer, k: nat)
    requires Inv(s) && Follows(s) && k < s.index
    ensures s.past.offered[k] in Enqueued(s) <==> k !in s.past.refused
  {
    KeptHolds(s.past.offered, s.past.refused, s.past.offered[k]);
  }

  /** What the send queue took, over every run: the reply to the current request, if there was room,
      and then in order exactly those chunks that found room. They are the chunks 0, 1, 2, ... without
      a gap up to the last one offered if and only if every push found room. */
  lemma QueuedExactly(run: seq<Event>)
    ensures var s := Exec(START, run);
            && EndsWith(s.queued, s.past.replied, Enqueued(s))
            && |s.past.offered| == s.index
            && (forall k | 0 <= k < s.index :: s.past.offered[k] in Enqueued(s) <==> k !in s.past.refused)
            && (Enqueued(s) == s.past.offered <==> s.past.refused == {})
  {
    var s := Exec(START, run);
    EveryRunKeeps(run);
    EveryRunFollows(run);
    forall k | 0 <= k < s.index
      ensures s.past.offered[k] in Enqueued(s) <==> k !in s.past.refused
    {
      ChunkKept(s, k);
    }
    if s.past.refused == {} {
      KeptAll(s.past.offered);
    } else {
      var k :| k in s.past.refused;
      assert s.past.offered[k] !in Enqueued(s);
    }
  }

  /** When a transfer that waits stops waiting. */
  lemma WaitingEnds(s: Transfer, e: Event)
    requires s.waiting
    ensures !Do(s, e).waiting <==> e.GaveUp? || e.Reset? || (Matches(s, e) && s.index == s.total)
    ensures !Accepts(s, e)
  {
  }

  /** An event that can move a transfer whose chunk k is out. */
  predicate Moves(e: Event, k: nat) {
    e.GaveUp? || e.Reset? || (e.Ack? && e.error == 0 && e.index == k)
  }

  lemma StalledStep(s: Transfer, k: nat, e: Event)
    requires s.waiting && s.index == k + 1 && !Moves(e, k)
    ensures var s' := Do(s, e);
            && s'.waiting && s'.index == s.index && s'.queued == s.queued && s'.past.refused == s.past.refused
            && !Accepts(s, e)
  {
  }

  lemma {:induction false} StalledRun(s: Transfer, k: nat, run: seq<Event>)
    requires s.waiting && s.index == k + 1 && forall i | 0 <= i < |run| :: !Moves(run[i], k)
    ensures var s' := Exec(s, run);
            s'.waiting && s'.index == s.index && s'.queued == s.queued && s'.past.refused == s.past.refused
  {
    if run != [] {
      StalledRun(s, k, run[..|run| - 1]);
      assert !Moves(run[|run| - 1], k);
      StalledStep(Exec(s, run[..|run| - 1]), k, run[|run| - 1]);
    }
  }

  /** A refused chunk stalls the upload. After any run that leaves a transfer waiting with its last
      chunk k refused, that chunk is not in the queue, and until an acknowledgement of k (which the
      host has no reason to send), a give-up or a reset, nothing more is queued, the transfer stays
      waiting and every request is refused. */
  lemma RefusedChunkStalls(run: seq<Event>, k: nat, more: seq<Event>, request: Event)
    requires var s := Exec(START, run); s.waiting && s.index == k + 1 && k in s.past.refused
    requires request.Request? && forall i | 0 <= i < |more| :: !Moves(more[i], k)
    ensures var s, s' := Exec(START, run), Exec(Exec(START, run), more);
            && |s.past.offered| == k + 1 && s.past.offered[k] !in Enqueued(s)
            && s'.waiting && s'.index == k + 1 && s'.queued == s.queued && Do(s', request) == s'
  {
    EveryRunKeeps(run);
    EveryRunFollows(run);
    ChunkKept(Exec(START, run), k);
    StalledRun(Exec(START, run), k, more);
  }

  /** Such a run: the queue has room for the reply to a request, but not for chunk 0. */
  lemma FullQueueLosesChunk(kind: byte, id: u32, file: File)
    requires file != []
    ensures var s := Exec(START, [Store(id, file), Request(REQUEST_LEN, kind, id, true, false)]);
            s.waiting && s.index == 1 && s.past.refused == {0} && s.queued == [RequestReply]
  {
    var e1, e2 := Store(id, file), Request(REQUEST_LEN, kind, id, true, false);
    var run := [e1, e2];
    ExecPrefix(START, run, 0);
    ExecPrefix(START, run, 1);
    assert run[..0] == [] && run[..2] == run;
    RequestBegins(Do(START, e1), kind, id, true, false);
  }

  // ----- the upload as written -----

  class MediaSender {
    var waiting: bool
    var kind: byte
    var id: u32
    var packetIndex: u16
    var packetTotal: u16
    var files: map<u32, File>
    var queued: seq<Outgoing>
    var notices: nat
    ghost var past: History

    ghost function Abs(): Transfer
      reads this
    {
      Transfer(waiting, kind, id, packetIndex, packetTotal, files, queued, notices, past)
    }

    constructor ()
      ensures Abs() == START
    {
      waiting, kind, id, packetIndex, packetTotal := false, 0, 0, 0, 0;
      files, queued, notices := map[], [], 0;
      past := NONE;
    }

    /** message_queue_send: a push onto a full queue fails, and its result is ignored. */
    method MessageQueueSend(out: Outgoing, room: bool)
      modifies this`queued
      ensures queued == old(queued) + if room then [out] else []
    {
      if room {
        queued := queued + [out];
      }
    }

    method SampleSendImage(room: bool)
      modifies this
      ensures Abs() == SendImage(old(Abs()), room)
    {
      if id !in files {
        return;
      }
      var offset := packetIndex * CHUNK;
      var data := ReadAt(files[id], offset);
      if |data| > 0 {
        var c := Chunk(kind, id, packetTotal, packetIndex, data);
        MessageQueueSend(ChunkOut(c), room);
        past := Offer(past, c, room);
        packetIndex := (packetIndex + 1) % 0x1_0000;
      }
    }

    method SendMmReqAck(len: nat, mmType: byte, mmId: u32, replyRoom: bool, room: bool) returns (ret: int)
      modifies this
      ensures Abs() == Do(old(Abs()), Request(len, mmType, mmId, replyRoom, room))
      ensures ret == if !old(waiting) && len == REQUEST_LEN then 0 else -1
    {
      if waiting {
        return -1;
      }
      if len != REQUEST_LEN {
        return -1;
      }
      var fileSize := if mmId in files then |files[mmId]| else -1;
      if fileSize > 0 {
        MessageQueueSend(RequestReply, replyRoom);
        waiting := true;
        kind, id := mmType, mmId;
        packetIndex := 0;
        packetTotal := (fileSize + CHUNK - 1) / CHUNK;
        past := History(replyRoom, [], {}, files[mmId], true);
        assert Abs() == Started(old(Abs()), mmType, mmId, replyRoom);
        SampleSendImage(room);
      }
      ret := 0;
    }

    method RecvAckAndSendImage(error: byte, ackId: u32, ackIndex: u16, room: bool) returns (ret: int)
      modifies this
      ensures Abs() == Do(old(Abs()), Ack(error, ackId, ackIndex, room))
      ensures ret == if error == 0 then 0 else -1
    {
      if error != 0 {
        return -1;
      }
      if packetIndex == ackIndex + 1 {
        notices := notices + 1;
        if packetTotal == packetIndex {
          waiting := false;
        } else {
          SampleSendImage(room);
        }
      }
      ret := 0;
    }

    method DoStatReset()
      modifies this
      ensures Abs() == Do(old(Abs()), Reset)
    {
      waiting, kind, id, packetIndex, packetTotal := false, 0, 0, 0, 0;
      past := NONE;
    }
  }
}
