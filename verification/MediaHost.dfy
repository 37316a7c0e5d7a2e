/** The media upload on the wire: chunk messages, and what a host makes of them. */
module MediaHost {
  import opened Bytes
  import opened Stuffing
  import opened Deframing
  import opened Frames
  import opened SendQueue
  import opened MediaTransfer
  import Receiving

  const CHUNK_HEADER := 9
  const TX_BUF := 2 * (CHUNK + HEADER_LEN + 10 + 64)

  function Payload(c: Chunk): seq<byte> {
    [c.kind] + Be32(c.id) + Be16(c.total) + Be16(c.index) + c.data
  }

  /** Every media frame, even with its whole interior stuffed, fits the build buffer and a queue
      slot, so it is queued and popped unharmed. */
  lemma MediaFrameFits(c: Chunk, serial: u16, device: byte)
    requires |c.data| <= CHUNK
    ensures var e := Escaped(FrameOf(Message(serial, device, CMD_UPLOAD_MM_DATA, Payload(c))));
            && |e| <= 131106 <= SLOT_SIZE <= TX_BUF
            && Clamped(Clamped(Bytes(e), SLOT_SIZE), SLOT_SIZE) == Bytes(e)
  {
    var m := Message(serial, device, CMD_UPLOAD_MM_DATA, Payload(c));
    BuiltFrameAccepted(m);
    EscapedShape(FrameOf(m));
    SlotRoundTrip(Escaped(FrameOf(m)), SLOT_SIZE);
  }

  function ParseChunk(p: seq<byte>): Chunk
    requires |p| >= CHUNK_HEADER
  {
    Chunk(p[0], FromBe16(p[1], p[2]) * 0x1_0000 + FromBe16(p[3], p[4]),
          FromBe16(p[5], p[6]), FromBe16(p[7], p[8]), p[CHUNK_HEADER..])
  }

  lemma ChunkRoundTrip(c: Chunk)
    ensures |Payload(c)| == CHUNK_HEADER + |c.data| && ParseChunk(Payload(c)) == c
    ensures var p := Payload(c);
            && p[0] == c.kind && FromBe16(p[1], p[2]) * 0x1_0000 + FromBe16(p[3], p[4]) == c.id
            && FromBe16(p[5], p[6]) == c.total && FromBe16(p[7], p[8]) == c.index && p[9..] == c.data
  {
  }

  predicate IsChunk(f: Frame) {
    |f| > HEADER_LEN + CHUNK_HEADER && Parsed(f).cmd == CMD_UPLOAD_MM_DATA
  }

  /** What a host that asked for a file makes of the frames it decodes: it keeps the chunks of that file
      in order and drops repeats and everything else. */
  function HostChunks(frames: seq<Frame>, id: u32): seq<Chunk> {
    if frames == [] then []
    else HostTakes(HostChunks(frames[..|frames| - 1], id), frames[|frames| - 1], id)
  }

  function HostTakes(got: seq<Chunk>, f: Frame, id: u32): seq<Chunk> {
    if !IsChunk(f) then got
    else
      var c := ParseChunk(Parsed(f).payload);
      if c.id == id && c.index == |got| then got + [c] else got
  }

  /** Traffic that is no chunk of this file: replies, warnings, chunks of another file. */
  predicate Foreign(m: Message, id: u32) {
    || m.cmd != CMD_UPLOAD_MM_DATA || |m.payload| < CHUNK_HEADER
    || ParseChunk(m.payload).id != id
  }

  predicate Carries(m: Message, c: Chunk) {
    m.cmd == CMD_UPLOAD_MM_DATA && m.payload == Payload(c)
  }

  ghost predicate Repeats(m: Message, chunks: seq<Chunk>, n: nat) {
    exists k :: 0 <= k < n <= |chunks| && Carries(m, chunks[k])
  }

  /** A message may follow when the first n chunks are out, of which it may be the last itself. */
  ghost predicate MayFollow(m: Message, chunks: seq<Chunk>, id: u32, before: nat, n: nat) {
    if before == n then (Receiving.Fits(m, SLOT_SIZE) && Foreign(m, id)) || Repeats(m, chunks, n)
    else before + 1 == n <= |chunks| && Carries(m, chunks[before])
  }

  /** The messages transmit the first n chunks in order, each as often as the retries had it, with any
      foreign traffic in between. */
  ghost predicate Transmits(ms: seq<Message>, chunks: seq<Chunk>, id: u32, n: nat) {
    if ms == [] then n == 0
    else
      var init, m := ms[..|ms| - 1], ms[|ms| - 1];
      || (Transmits(init, chunks, id, n) && MayFollow(m, chunks, id, n, n))
      || (n > 0 && Transmits(init, chunks, id, n - 1) && MayFollow(m, chunks, id, n - 1, n))
  }

  ghost predicate ChunksOf(chunks: seq<Chunk>, id: u32) {
    forall k | 0 <= k < |chunks| :: chunks[k].id == id && 0 < |chunks[k].data| <= CHUNK
  }

  ghost predicate InOrder(chunks: seq<Chunk>) {
    forall k | 0 <= k < |chunks| :: chunks[k].index == k
  }

  lemma HostTakesForeign(got: seq<Chunk>, m: Message, id: u32)
    requires Foreign(m, id)
    ensures HostTakes(got, FrameOf(m), id) == got
  {
    BuiltFrameAccepted(m);
  }

  lemma HostTakesChunk(got: seq<Chunk>, m: Message, c: Chunk)
    requires Carries(m, c) && 0 < |c.data| <= CHUNK
    ensures HostTakes(got, FrameOf(m), c.id) == if c.index == |got| then got + [c] else got
    ensures Receiving.Fits(m, SLOT_SIZE)
  {
    BuiltFrameAccepted(m);
    ChunkRoundTrip(c);
  }

  lemma HostTakesLast(ms: seq<Message>, id: u32)
    requires ms != []
    ensures HostChunks(Receiving.FramesOf(ms), id)
            == HostTakes(HostChunks(Receiving.FramesOf(ms[..|ms| - 1]), id), FrameOf(ms[|ms| - 1]), id)
  {
    SnocParts(Receiving.FramesOf(ms[..|ms| - 1]), FrameOf(ms[|ms| - 1]));
  }

  lemma OneMore(chunks: seq<Chunk>, k: nat)
    requires k < |chunks|
    ensures chunks[..k] + [chunks[k]] == chunks[..k + 1]
  {
  }

  lemma HostStep(m: Message, chunks: seq<Chunk>, id: u32, before: nat, n: nat)
    requires ChunksOf(chunks, id) && InOrder(chunks) && before <= n <= |chunks|
    requires MayFollow(m, chunks, id, before, n)
    ensures HostTakes(chunks[..before], FrameOf(m), id) == chunks[..n]
  {
    if before < n {
      HostTakesChunk(chunks[..before], m, chunks[before]);
      OneMore(chunks, before);
    } else if Repeats(m, chunks, n) {
      var k :| 0 <= k < n && Carries(m, chunks[k]);
      HostTakesChunk(chunks[..n], m, chunks[k]);
    } else {
      HostTakesForeign(chunks[..n], m, id);
    }
  }

  /** A host takes a chunk only at its own number, and only chunks that are transmitted. */
  lemma HostStepBelow(got: seq<Chunk>, m: Message, chunks: seq<Chunk>, id: u32, before: nat, n: nat, gap: nat)
    requires ChunksOf(chunks, id) && before <= n <= |chunks| && MayFollow(m, chunks, id, before, n)
    requires |got| <= gap && forall k | 0 <= k < |chunks| :: chunks[k].index != gap
    ensures |HostTakes(got, FrameOf(m), id)| <= gap && Receiving.Fits(m, SLOT_SIZE)
  {
    if before < n {
      HostTakesChunk(got, m, chunks[before]);
    } else if Repeats(m, chunks, n) {
      var k :| 0 <= k < n && Carries(m, chunks[k]);
      HostTakesChunk(got, m, chunks[k]);
    } else {
      HostTakesForeign(got, m, id);
    }
  }

  lemma StepFits(m: Message, chunks: seq<Chunk>, id: u32, before: nat, n: nat)
    requires ChunksOf(chunks, id) && before <= n <= |chunks| && MayFollow(m, chunks, id, before, n)
    ensures Receiving.Fits(m, SLOT_SIZE)
  {
    if before < n {
      HostTakesChunk([], m, chunks[before]);
    } else if Repeats(m, chunks, n) {
      var k :| 0 <= k < n && Carries(m, chunks[k]);
      HostTakesChunk([], m, chunks[k]);
    }
  }

  lemma BeforeLast(ms: seq<Message>, chunks: seq<Chunk>, id: u32, n: nat) returns (before: nat)
    requires ms != [] && Transmits(ms, chunks, id, n)
    ensures before <= n && Transmits(ms[..|ms| - 1], chunks, id, before)
    ensures MayFollow(ms[|ms| - 1], chunks, id, before, n)
  {
    if Transmits(ms[..|ms| - 1], chunks, id, n) && MayFollow(ms[|ms| - 1], chunks, id, n, n) {
      before := n;
    } else {
      before := n - 1;
    }
  }

  lemma {:induction false} HostFollows(ms: seq<Message>, chunks: seq<Chunk>, id: u32, n: nat)
    requires ChunksOf(chunks, id) && InOrder(chunks) && n <= |chunks| && Transmits(ms, chunks, id, n)
    ensures HostChunks(Receiving.FramesOf(ms), id) == chunks[..n]
  {
    if ms != [] {
      var before := BeforeLast(ms, chunks, id, n);
      HostFollows(ms[..|ms| - 1], chunks, id, before);
      HostTakesLast(ms, id);
      HostStep(ms[|ms| - 1], chunks, id, before, n);
    }
  }

  lemma {:induction false} HostStopsAtGap(ms: seq<Message>, chunks: seq<Chunk>, id: u32, n: nat, gap: nat)
    requires ChunksOf(chunks, id) && n <= |chunks| && Transmits(ms, chunks, id, n)
    requires forall k | 0 <= k < |chunks| :: chunks[k].index != gap
    ensures |HostChunks(Receiving.FramesOf(ms), id)| <= gap
  {
    if ms != [] {
      var init := ms[..|ms| - 1];
      var before := BeforeLast(ms, chunks, id, n);
      HostStopsAtGap(init, chunks, id, before, gap);
      HostTakesLast(ms, id);
      HostStepBelow(HostChunks(Receiving.FramesOf(init), id), ms[|ms| - 1], chunks, id, before, n, gap);
    }
  }

  lemma {:induction false} FitsAt(ms: seq<Message>, chunks: seq<Chunk>, id: u32, n: nat, k: nat)
    requires ChunksOf(chunks, id) && n <= |chunks| && Transmits(ms, chunks, id, n) && k < |ms|
    ensures Receiving.Fits(ms[k], SLOT_SIZE)
  {
    var before := BeforeLast(ms, chunks, id, n);
    if k < |ms| - 1 {
      FitsAt(ms[..|ms| - 1], chunks, id, before, k);
    } else {
      StepFits(ms[k], chunks, id, before, n);
    }
  }

  lemma EnqueuedChunks(s: Transfer)
    requires Inv(s) && Follows(s)
    ensures ChunksOf(Enqueued(s), s.id)
    ensures forall k | 0 <= k < |Enqueued(s)| :: Enqueued(s)[k].index as nat !in s.past.refused
  {
    forall k | 0 <= k < |Enqueued(s)|
      ensures Enqueued(s)[k] in s.past.offered && Enqueued(s)[k].index as nat !in s.past.refused
    {
      KeptHolds(s.past.offered, s.past.refused, Enqueued(s)[k]);
    }
  }

  /** What the host decodes is what it would make of the frames themselves. */
  lemma HostDecodes(ms: seq<Message>, chunks: seq<Chunk>, id: u32, st: State)
    requires Synced(st) && ChunksOf(chunks, id) && Transmits(ms, chunks, id, |chunks|)
    ensures Delivered(st, EncodeAll(Receiving.FramesOf(ms)), SLOT_SIZE) == Receiving.FramesOf(ms)
  {
    forall k | 0 <= k < |ms|
      ensures Receiving.Fits(ms[k], SLOT_SIZE)
    {
      FitsAt(ms, chunks, id, |chunks|, k);
    }
    Receiving.FramesWellFormed(ms, SLOT_SIZE);
    StreamRoundTrip(st, Receiving.FramesOf(ms), SLOT_SIZE);
  }

  /** What the host keeps of a line that carries the queued chunks of a transfer. */
  function HostKeeps(ms: seq<Message>, id: u32, st: State): seq<Chunk>
    requires st.Valid(SLOT_SIZE)
  {
    HostChunks(Delivered(st, EncodeAll(Receiving.FramesOf(ms)), SLOT_SIZE), id)
  }

  lemma HostGetsWhole(ms: seq<Message>, chunks: seq<Chunk>, id: u32, st: State)
    requires Synced(st) && ChunksOf(chunks, id) && InOrder(chunks) && Transmits(ms, chunks, id, |chunks|)
    ensures HostKeeps(ms, id, st) == chunks
  {
    HostDecodes(ms, chunks, id, st);
    HostFollows(ms, chunks, id, |chunks|);
    assert chunks[..|chunks|] == chunks;
  }

  lemma HostGetsAll(s: Transfer, ms: seq<Message>, st: State)
    requires Synced(st) && Inv(s) && Follows(s) && s.past.refused == {}
    requires Transmits(ms, Enqueued(s), s.id, |Enqueued(s)|)
    ensures HostKeeps(ms, s.id, st) == s.past.offered
  {
    KeptAll(s.past.offered);
    EnqueuedChunks(s);
    HostGetsWhole(ms, s.past.offered, s.id, st);
  }

  lemma HostGetsLess(s: Transfer, ms: seq<Message>, st: State, k: nat)
    requires Synced(st) && Inv(s) && Follows(s) && k in s.past.refused
    requires Transmits(ms, Enqueued(s), s.id, |Enqueued(s)|)
    ensures |HostKeeps(ms, s.id, st)| <= k < s.index == |s.past.offered|
  {
    EnqueuedChunks(s);
    HostDecodes(ms, Enqueued(s), s.id, st);
    HostStopsAtGap(ms, Enqueued(s), s.id, |Enqueued(s)|, k);
  }

  /** End to end: the queued chunks of a finished transfer of an unchanged file go down the line, framed
      with any serials, escaped, retransmitted any number of times and mixed with any other messages.
      If no push was refused, the host decodes their headers intact and the data it keeps is exactly
      the file. If any was, the host cannot get past it. */
  lemma HostRecoversFile(run: seq<Event>, ms: seq<Message>, st: State)
    requires Synced(st)
    requires var s := Exec(START, run);
             s.past.stable && s.index == s.total && Transmits(ms, Enqueued(s), s.id, |Enqueued(s)|)
    ensures var s := Exec(START, run);
            var received := HostKeeps(ms, s.id, st);
            && (received == s.past.offered <==> s.past.refused == {})
            && (s.past.refused == {} ==> s.id in s.files && DataOf(received) == s.files[s.id])
            && (forall k | k in s.past.refused :: |received| <= k < s.index)
  {
    var s := Exec(START, run);
    EveryRunKeeps(run);
    EveryRunFollows(run);
    TransferSafe(run);
    if s.past.refused == {} {
      HostGetsAll(s, ms, st);
    } else {
      var gap :| gap in s.past.refused;
      HostGetsLess(s, ms, st, gap);
    }
    forall k | k in s.past.refused
      ensures |HostKeeps(ms, s.id, st)| <= k < s.index
    {
      HostGetsLess(s, ms, st, k);
    }
  }
}
