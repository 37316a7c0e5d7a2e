/** Warning reports: the media ids they announce, the recorder jobs offered for them, and the window
    of files kept on disk. */
module WarningReports {
  import opened Bytes
  import opened Stuffing
  import opened Frames
  import Params

  const KEEP := 1000          // files kept
  const SNAP_MAX := 10        // photo ids a job can hold
  const REPORT_HEADER := 31   // packed report without its media list
  const ENTRY_LEN := 5
  const TX_BUF := 512

  const FCW: byte := 0x01
  const LDW: byte := 0x02
  const HW: byte := 0x03
  const PCW: byte := 0x04
  const FLC: byte := 0x05
  const SNAP: byte := 0x11

  const FATIGUE: byte := 0x01
  const CALLING: byte := 0x02
  const SMOKING: byte := 0x03
  const DISTRACT: byte := 0x04
  const ABNORMAL: byte := 0x05
  const SNAPSHOT_EVENT: byte := 0x10
  const DRIVER_CHANGE: byte := 0x11

  datatype Status = Single | Begin | End
  datatype MediaKind = Photo | Video
  datatype Entry = Entry(kind: MediaKind, id: nat)

  /** A recorder job: photos and at most one video, from this camera or the other one. */
  datatype Job = Job(photoIds: seq<nat>, videoIds: seq<nat>, otherCamera: bool)

  /** What a warning type records under the current parameters. */
  datatype Plan = Nothing | Alarm(photos: nat, video: bool) | Snapshot(photos: nat)

  /** Photos are taken only for a count from 1 to 9. */
  function PhotosTaken(num: byte): nat {
    if num != 0 && num < SNAP_MAX then num else 0
  }

  /** Where the record holds the video time of an alarm; its photo count is the next byte. */
  function AdasVideoAt(warning: byte): (at: nat)
    ensures 25 <= at < 42
  {
    if warning == FCW then 33
    else if warning == LDW then 29
    else if warning == HW then 41
    else if warning == PCW then 37
    else 26
  }

  function DmsVideoAt(warning: byte): (at: nat)
    ensures 25 <= at < 42
  {
    if warning == FATIGUE then 25
    else if warning == CALLING then 29
    else if warning == SMOKING then 32
    else if warning == DISTRACT then 35
    else 38
  }

  const PHOTO_NUM_AT := 7

  function AdasPlan(warning: byte, para: Params.Record): Plan
    requires |para| == Params.ADAS_LEN
  {
    var at := AdasVideoAt(warning);
    if FCW <= warning <= FLC then Alarm(PhotosTaken(para[at + 1]), para[at] != 0)
    else if warning == SNAP then Snapshot(para[PHOTO_NUM_AT])
    else Nothing
  }

  function DmsPlan(warning: byte, para: Params.Record): Plan
    requires |para| == Params.DMS_LEN
  {
    var at := DmsVideoAt(warning);
    if FATIGUE <= warning <= ABNORMAL then Alarm(PhotosTaken(para[at + 1]), para[at] != 0)
    else if warning == SNAPSHOT_EVENT || warning == DRIVER_CHANGE then Snapshot(para[PHOTO_NUM_AT])
    else Nothing
  }

  // ----- what a report announces and what the recorder is asked for -----

  function IdsFrom(last: nat, n: nat): (ids: seq<nat>)
    ensures |ids| == n && forall i | 0 <= i < n :: ids[i] == last + 1 + i
  {
    seq(n, i requires 0 <= i < n => last + 1 + i)
  }

  function Photos(last: nat, n: nat): (es: seq<Entry>)
    ensures |es| == n && forall i | 0 <= i < n :: es[i] == Entry(Photo, last + 1 + i)
  {
    seq(n, i requires 0 <= i < n => Entry(Photo, last + 1 + i))
  }

  function MediaOf(plan: Plan, last: nat): seq<Entry> {
    match plan
    case Nothing => []
    case Snapshot(n) => Photos(last, n)
    case Alarm(n, video) =>
      Photos(last, n) + if video then [Entry(Video, last + n + 1), Entry(Video, last + n + 2)] else []
  }

  function JobsOf(plan: Plan, last: nat): seq<Job> {
    match plan
    case Nothing => []
    case Snapshot(n) => [Job(IdsFrom(last, n), [], false)]
    case Alarm(n, video) =>
      if video then [Job(IdsFrom(last, n), [last + n + 1], false), Job([], [last + n + 2], true)]
      else [Job(IdsFrom(last, n), [], false)]
  }

  function EntryIds(media: seq<Entry>): (ids: seq<nat>)
    ensures |ids| == |media| && forall i | 0 <= i < |media| :: ids[i] == media[i].id
  {
    seq(|media|, i requires 0 <= i < |media| => media[i].id)
  }

  function JobIds(jobs: seq<Job>): seq<nat> {
    if jobs == [] then []
    else JobIds(jobs[..|jobs| - 1]) + jobs[|jobs| - 1].photoIds + jobs[|jobs| - 1].videoIds
  }

  /** Report and recorder agree: both name exactly the next consecutive ids, in the same order. */
  lemma ReportAndRecorderAgree(plan: Plan, last: nat)
    ensures var media := MediaOf(plan, last);
            && EntryIds(media) == IdsFrom(last, |media|)
            && JobIds(JobsOf(plan, last)) == IdsFrom(last, |media|)
  {
    var jobs := JobsOf(plan, last);
    match plan
    case Nothing =>
    case Snapshot(n) => assert jobs[..0] == [];
    case Alarm(n, video) =>
      assert jobs[..1][..0] == [];
      if video {
        assert jobs[..1] == [jobs[0]];
        assert JobIds(jobs[..1]) == IdsFrom(last, n) + [last + n + 1];
      } else {
        assert jobs[..0] == [];
      }
  }

  /** The list holds the photos of one count byte (1 to 9, else none) and two videos if the time byte is
      not 0, with consecutive ids. */
  predicate Lists(media: seq<Entry>, first: nat, count: byte, video: byte) {
    var n := if 1 <= count <= 9 then count else 0;
    && |media| == n + (if video == 0 then 0 else 2)
    && forall k | 0 <= k < |media| :: media[k] == Entry(if k < n then Photo else Video, first + k)
  }

  predicate ListsPhotos(media: seq<Entry>, first: nat, n: nat) {
    |media| == n && forall k | 0 <= k < n :: media[k] == Entry(Photo, first + k)
  }

  lemma AlarmMedia(plan: Plan, last: nat, count: byte, video: byte)
    requires plan == Alarm(PhotosTaken(count), video != 0)
    ensures Lists(MediaOf(plan, last), last + 1, count, video)
  {
  }

  lemma SnapshotMedia(plan: Plan, last: nat, n: nat)
    requires plan == Snapshot(n)
    ensures ListsPhotos(MediaOf(plan, last), last + 1, n)
  {
  }

  /** What an ADAS report lists, on the bytes of the parameter record. */
  lemma AdasMedia(para: Params.Record, last: nat)
    requires |para| == Params.ADAS_LEN
    ensures Lists(MediaOf(AdasPlan(FCW, para), last), last + 1, para[34], para[33])
    ensures Lists(MediaOf(AdasPlan(LDW, para), last), last + 1, para[30], para[29])
    ensures Lists(MediaOf(AdasPlan(HW, para), last), last + 1, para[42], para[41])
    ensures Lists(MediaOf(AdasPlan(PCW, para), last), last + 1, para[38], para[37])
    ensures Lists(MediaOf(AdasPlan(FLC, para), last), last + 1, para[27], para[26])
    ensures ListsPhotos(MediaOf(AdasPlan(SNAP, para), last), last + 1, para[7])
  {
    AlarmMedia(AdasPlan(FCW, para), last, para[34], para[33]);
    AlarmMedia(AdasPlan(LDW, para), last, para[30], para[29]);
    AlarmMedia(AdasPlan(HW, para), last, para[42], para[41]);
    AlarmMedia(AdasPlan(PCW, para), last, para[38], para[37]);
    AlarmMedia(AdasPlan(FLC, para), last, para[27], para[26]);
    SnapshotMedia(AdasPlan(SNAP, para), last, para[7]);
  }

  /** What a driver-monitoring report lists. */
  lemma DmsMedia(para: Params.Record, last: nat)
    requires |para| == Params.DMS_LEN
    ensures Lists(MediaOf(DmsPlan(FATIGUE, para), last), last + 1, para[26], para[25])
    ensures Lists(MediaOf(DmsPlan(CALLING, para), last), last + 1, para[30], para[29])
    ensures Lists(MediaOf(DmsPlan(SMOKING, para), last), last + 1, para[33], para[32])
    ensures Lists(MediaOf(DmsPlan(DISTRACT, para), last), last + 1, para[36], para[35])
    ensures Lists(MediaOf(DmsPlan(ABNORMAL, para), last), last + 1, para[39], para[38])
    ensures ListsPhotos(MediaOf(DmsPlan(SNAPSHOT_EVENT, para), last), last + 1, para[7])
    ensures ListsPhotos(MediaOf(DmsPlan(DRIVER_CHANGE, para), last), last + 1, para[7])
  {
    AlarmMedia(DmsPlan(FATIGUE, para), last, para[26], para[25]);
    AlarmMedia(DmsPlan(CALLING, para), last, para[30], para[29]);
    AlarmMedia(DmsPlan(SMOKING, para), last, para[33], para[32]);
    AlarmMedia(DmsPlan(DISTRACT, para), last, para[36], para[35]);
    AlarmMedia(DmsPlan(ABNORMAL, para), last, para[39], para[38]);
    SnapshotMedia(DmsPlan(SNAPSHOT_EVENT, para), last, para[7]);
    SnapshotMedia(DmsPlan(DRIVER_CHANGE, para), last, para[7]);
  }

  /** Each photo listed is a photo of some job and each video a video; of two videos the first is this
      camera's and the second the other's, and nothing else is asked of the other camera. */
  lemma JobsRecordTheList(plan: Plan, last: nat)
    ensures forall e | e in MediaOf(plan, last) ::
              exists job | job in JobsOf(plan, last) :: e.id in if e.kind.Photo? then job.photoIds else job.videoIds
    ensures forall k | 0 <= k < |JobsOf(plan, last)| :: JobsOf(plan, last)[k].otherCamera <==> k == 1
    ensures plan.Alarm? && plan.video ==>
              var jobs, v := JobsOf(plan, last), last + plan.photos + 1;
              && |jobs| == 2 && !jobs[0].otherCamera && jobs[0].videoIds == [v]
              && jobs[1].otherCamera && jobs[1].videoIds == [v + 1]
  {
    var jobs := JobsOf(plan, last);
    forall e | e in MediaOf(plan, last)
      ensures exists job | job in jobs :: e.id in if e.kind.Photo? then job.photoIds else job.videoIds
    {
      if e.kind.Photo? {
        assert IdsFrom(last, |jobs[0].photoIds|)[e.id - last - 1] == e.id;
        assert jobs[0] in jobs && e.id in jobs[0].photoIds;
      } else {
        assert jobs[0] in jobs && jobs[1] in jobs;
        assert e.id in jobs[0].videoIds || e.id in jobs[1].videoIds;
      }
    }
  }

  lemma AtMostEleven(warning: byte, para: Params.Record, last: nat)
    requires |para| == Params.ADAS_LEN && Params.PhotoCountsBounded(para)
    ensures |MediaOf(AdasPlan(warning, para), last)| <= 11
  {
  }

  lemma SmallFrameFits(m: Message, n: nat)
    requires |m.payload| <= n
    ensures |Escaped(FrameOf(m))| <= 2 * (n + 7) + 2
  {
    BuiltFrameAccepted(m);
    EscapedShape(FrameOf(m));
  }

  /** From every parameter state the device can reach, an ADAS report lists at most eleven media, and
      escaped as a whole frame it fits its 512-byte buffer. */
  lemma AdasReportFits(inputs: seq<Params.Record>, warning: byte, last: nat, m: Message)
    requires forall input | input in inputs :: |input| == Params.ADAS_LEN
    requires var media := MediaOf(AdasPlan(warning, Params.AllWritten(Params.ZEROS, inputs)), last);
             |m.payload| == REPORT_HEADER + ENTRY_LEN * |media|
    ensures |MediaOf(AdasPlan(warning, Params.AllWritten(Params.ZEROS, inputs)), last)| <= 11
    ensures |Escaped(FrameOf(m))| <= 188 <= TX_BUF
  {
    Params.PhotoCountsAlwaysBounded(inputs);
    AtMostEleven(warning, Params.AllWritten(Params.ZEROS, inputs), last);
    SmallFrameFits(m, REPORT_HEADER + ENTRY_LEN * 11);
  }

  // ----- the recorder's books -----

  /** s_mm_id, the files on disk, the jobs offered so far and the media of the last BEGIN report. */
  datatype Recorder = Recorder(lastId: nat, files: set<nat>, jobs: seq<Job>, begun: seq<Entry>)

  const EMPTY := Recorder(0, {}, [], [])

  /** Before recording, each new id removes the file a thousand ids back and any namesake. */
  function Cleared(files: set<nat>, ids: seq<nat>): set<nat> {
    set f | f in files && f !in ids && !(0 < f && f + KEEP in ids)
  }

  function ReportMedia(r: Recorder, plan: Plan, status: Status): seq<Entry> {
    if status.End? then r.begun else MediaOf(plan, r.lastId)
  }

  function Build(r: Recorder, plan: Plan, status: Status): Recorder {
    if status.End? then r
    else
      var media := MediaOf(plan, r.lastId);
      Recorder(r.lastId + |media|, Cleared(r.files, EntryIds(media)), r.jobs + JobsOf(plan, r.lastId),
               if status.Begin? then media else r.begun)
  }

  datatype Event =
    | Reported(plan: Plan, status: Status)
    | FileWritten(id: nat)  // the recorder finishes a file
    | Restart               // the last id is recomputed from the directory

  function MaxId(files: set<nat>): (m: nat)
    ensures forall f | f in files :: f <= m
    ensures m == 0 || m in files
  {
    if files == {} then 0
    else
      HasMax(files);
      var m :| m in files && forall f | f in files :: f <= m;
      m
  }

  lemma HasMax(files: set<nat>)
    requires files != {}
    ensures exists m :: m in files && forall f | f in files :: f <= m
  {
    var x :| x in files;
    var rest := files - {x};
    if rest == {} {
      assert files == {x};
    } else {
      HasMax(rest);
      var m :| m in rest && forall f | f in rest :: f <= m;
      var top := if x > m then x else m;
      assert top in files && forall f | f in files :: f <= top by {
        forall f | f in files ensures f <= top { assert f == x || f in rest; }
      }
    }
  }

  function Do(r: Recorder, e: Event): Recorder {
    match e
    case Reported(plan, status) => Build(r, plan, status)
    case FileWritten(id) => r.(files := r.files + {id})
    case Restart => Recorder(MaxId(r.files), r.files, [], [])
  }

  function Exec(run: seq<Event>): Recorder {
    if run == [] then EMPTY else Do(Exec(run[..|run| - 1]), run[|run| - 1])
  }

  /** A file appears only for an assigned id, before a thousand further ids are assigned. */
  predicate Timely(r: Recorder, e: Event) {
    e.FileWritten? ==> 0 < e.id <= r.lastId < e.id + KEEP
  }

  predicate AllTimely(run: seq<Event>) {
    run == [] || (AllTimely(run[..|run| - 1]) && Timely(Exec(run[..|run| - 1]), run[|run| - 1]))
  }

  predicate InWindow(r: Recorder) {
    forall f | f in r.files :: 0 < f <= r.lastId < f + KEEP
  }

  lemma BuildKeepsWindow(r: Recorder, plan: Plan, status: Status)
    requires InWindow(r)
    ensures InWindow(Build(r, plan, status))
  {
    if !status.End? {
      var media := MediaOf(plan, r.lastId);
      ReportAndRecorderAgree(plan, r.lastId);
      forall f | f in Cleared(r.files, EntryIds(media))
        ensures r.lastId + |media| < f + KEEP
      {
        InIdsFrom(r.lastId, |media|, f + KEEP);
      }
    }
  }

  lemma InIdsFrom(last: nat, n: nat, x: nat)
    ensures x in IdsFrom(last, n) <==> last < x <= last + n
  {
    if last < x <= last + n {
      assert IdsFrom(last, n)[x - last - 1] == x;
    }
  }

  lemma {:induction false} WindowKept(run: seq<Event>)
    requires AllTimely(run)
    ensures InWindow(Exec(run))
  {
    if run != [] {
      var r, e := Exec(run[..|run| - 1]), run[|run| - 1];
      WindowKept(run[..|run| - 1]);
      if e.Reported? {
        BuildKeepsWindow(r, e.plan, e.status);
      }
    }
  }

  lemma {:induction false} IntervalBounds(files: set<nat>, low: nat, n: nat)
    requires forall f | f in files :: low <= f < low + n
    ensures |files| <= n
  {
    if n > 0 {
      var rest := files - {low + n - 1};
      IntervalBounds(rest, low, n - 1);
      assert files <= rest + {low + n - 1};
    } else {
      assert files == {};
    }
  }

  /** Retention: if every file is written in time, then after any run of reports, writes and
      restarts all stored ids lie in (last - 1000, last], so at most a thousand files remain. */
  lemma RetentionWindow(run: seq<Event>)
    requires AllTimely(run)
    ensures var r := Exec(run);
            && (forall f | f in r.files :: r.lastId - 1000 < f <= r.lastId)
            && |r.files| <= 1000
  {
    WindowKept(run);
    var r := Exec(run);
    var low := if r.lastId < KEEP then 0 else r.lastId + 1 - KEEP;
    if r.lastId < KEEP {
      IntervalBounds(r.files, 1, KEEP);
    } else {
      IntervalBounds(r.files, low, KEEP);
    }
  }

  /** A file keeps the window exactly when it is written in time: a late one stays outside it. */
  lemma LateFileLeavesWindow(r: Recorder, id: nat)
    requires InWindow(r) && 0 < id <= r.lastId
    ensures InWindow(Do(r, FileWritten(id))) <==> Timely(r, FileWritten(id))
  {
  }

  // ----- which files survive -----

  /** One event after another leaves a stored file alone exactly while no id a thousand above it has been
      assigned. */
  lemma KeptStep(r: Recorder, e: Event, f: nat)
    requires InWindow(r) && Timely(r, e)
    ensures f in r.files ==> (f in Do(r, e).files <==> Do(r, e).lastId < f + KEEP)
    ensures f !in r.files && e != FileWritten(f) ==> f !in Do(r, e).files
  {
    if e.Reported? && !e.status.End? {
      var media := MediaOf(e.plan, r.lastId);
      ReportAndRecorderAgree(e.plan, r.lastId);
      InIdsFrom(r.lastId, |media|, f);
      InIdsFrom(r.lastId, |media|, f + KEEP);
    }
  }

  /** No id a thousand above f is assigned at any point of the continuation. */
  predicate NeverReached(run: seq<Event>, more: seq<Event>, f: nat) {
    more == [] || (NeverReached(run, more[..|more| - 1], f) && Exec(run + more).lastId < f + 1000)
  }

  /** Retention, the other half: after any timely run, a stored file survives any further timely reports,
      writes and restarts if and only if no id a thousand above its own is assigned meanwhile. */
  lemma {:induction false} KeptExactly(run: seq<Event>, more: seq<Event>, f: nat)
    requires AllTimely(run + more) && f in Exec(run).files && FileWritten(f) !in more
    ensures f in Exec(run + more).files <==> NeverReached(run, more, f)
  {
    if more == [] {
      ConcatEmpty(run);
    } else {
      var init, e := more[..|more| - 1], more[|more| - 1];
      DropLastOfConcat(run, more);
      KeptExactly(run, init, f);
      WindowKept(run + init);
      KeptStep(Exec(run + init), e, f);
    }
  }

  /** From any state, timely or not, a report assigns ids after the last one and removes exactly the files
      that carry one of them or lie a thousand below one. */
  lemma ReportRemovesExactly(r: Recorder, plan: Plan, status: Status, f: nat)
    requires !status.End?
    ensures var r' := Build(r, plan, status);
            && r'.lastId == r.lastId + |MediaOf(plan, r.lastId)|
            && (f in r'.files <==> && f in r.files && !(r.lastId < f <= r'.lastId)
                                   && !(0 < f && r.lastId < f + 1000 <= r'.lastId))
  {
    var n := |MediaOf(plan, r.lastId)|;
    ReportAndRecorderAgree(plan, r.lastId);
    ClearedMeans(r.files, r.lastId, n, f);
  }

  lemma ClearedMeans(files: set<nat>, last: nat, n: nat, f: nat)
    ensures f in Cleared(files, IdsFrom(last, n))
            <==> f in files && !(last < f <= last + n) && !(0 < f && last < f + 1000 <= last + n)
  {
    InIdsFrom(last, n, f);
    InIdsFrom(last, n, f + 1000);
  }

  /** A restart takes up the largest id on disk and forgets jobs and the remembered list. */
  lemma RestartExactly(run: seq<Event>)
    ensures var r, r' := Exec(run), Exec(run + [Restart]);
            && r'.files == r.files && r'.jobs == [] && r'.begun == []
            && (forall f | f in r.files :: f <= r'.lastId) && (r'.lastId == 0 || r'.lastId in r.files)
  {
    SnocParts(run, Restart);
  }

  // ----- the jobs of a process -----

  /** The ids 1, 2, ..., last. */
  predicate FirstIds(ids: seq<nat>, last: nat) {
    |ids| == last && forall k | 0 <= k < last :: ids[k] == k + 1
  }

  lemma MoreIds(ids: seq<nat>, more: seq<nat>, last: nat, n: nat)
    requires FirstIds(ids, last) && more == IdsFrom(last, n)
    ensures FirstIds(ids + more, last + n)
  {
  }

  lemma {:induction false} JobIdsConcat(a: seq<Job>, b: seq<Job>)
    ensures JobIds(a + b) == JobIds(a) + JobIds(b)
  {
    if b == [] {
      ConcatEmpty(a);
      ConcatEmpty(JobIds(a));
    } else {
      var init, job := b[..|b| - 1], b[|b| - 1];
      DropLastOfConcat(a, b);
      JobIdsConcat(a, init);
      ConcatAssociative(JobIds(a), JobIds(init), job.photoIds);
      ConcatAssociative(JobIds(a), JobIds(init) + job.photoIds, job.videoIds);
    }
  }

  lemma JobsExtended(jobs: seq<Job>, more: seq<Job>, last: nat, n: nat)
    requires FirstIds(JobIds(jobs), last) && JobIds(more) == IdsFrom(last, n)
    ensures FirstIds(JobIds(jobs + more), last + n)
  {
    JobIdsConcat(jobs, more);
    MoreIds(JobIds(jobs), JobIds(more), last, n);
  }

  lemma BuildJobs(r: Recorder, plan: Plan)
    requires FirstIds(JobIds(r.jobs), r.lastId)
    ensures FirstIds(JobIds(r.jobs + JobsOf(plan, r.lastId)), r.lastId + |MediaOf(plan, r.lastId)|)
  {
    ReportAndRecorderAgree(plan, r.lastId);
    JobsExtended(r.jobs, JobsOf(plan, r.lastId), r.lastId, |MediaOf(plan, r.lastId)|);
  }

  /** Until a restart, the recorder is asked for every id assigned, 1, 2, 3, ..., once and in order. */
  lemma {:induction false} EveryIdRecorded(run: seq<Event>)
    requires Restart !in run
    ensures FirstIds(JobIds(Exec(run).jobs), Exec(run).lastId)
  {
    if run != [] {
      EveryIdRecorded(run[..|run| - 1]);
      var e := run[|run| - 1];
      if e.Reported? {
        BuildJobs(Exec(run[..|run| - 1]), e.plan);
      }
    }
  }

  // ----- report building as written -----

  lemma ClearedTwice(files: set<nat>, a: seq<nat>, b: seq<nat>)
    ensures Cleared(Cleared(files, a), b) == Cleared(files, a + b)
    ensures Cleared(files, []) == files
  {
  }

  class Reporter {
    var lastId: nat
    var files: set<nat>
    var jobs: seq<Job>
    var begun: seq<Entry>  // s_media_begin, room for twenty entries

    ghost predicate Valid()
      reads this
    {
      |begun| <= 20
    }

    ghost function Abs(): Recorder
      reads this
    {
      Recorder(lastId, files, jobs, begun)
    }

    constructor ()
      ensures Valid() && Abs() == EMPTY
    {
      lastId, files, jobs, begun := 0, {}, [], [];
    }

    method GetNextIds(ids: array<nat>, num: nat)
      requires num <= ids.Length
      modifies this`lastId, ids
      ensures lastId == old(lastId) + num && ids[..num] == IdsFrom(old(lastId), num)
    {
      var i := 0;
      while i < num
        invariant i <= num && lastId == old(lastId) + i
        invariant forall j | 0 <= j < i :: ids[j] == old(lastId) + 1 + j
      {
        lastId := lastId + 1;
        ids[i] := lastId;
        i := i + 1;
      }
    }

    /** Removes the files a thousand ids back, then any file with one of the new ids. */
    method RemoveFor(ids: seq<nat>)
      modifies this`files
      ensures files == Cleared(old(files), ids)
    {
      var i := 0;
      while i < |ids|
        invariant i <= |ids|
        invariant files == set f | f in old(files) && !(0 < f && f + KEEP in ids[..i])
      {
        if ids[i] > KEEP {
          files := files - {ids[i] - KEEP};
        }
        i := i + 1;
      }
      assert ids[..i] == ids;
      ghost var kept := files;
      i := 0;
      while i < |ids|
        invariant i <= |ids|
        invariant files == set f | f in kept && f !in ids[..i]
      {
        files := files - {ids[i]};
        i := i + 1;
      }
      assert ids[..i] == ids;
    }

    method ClearOldMediaFile(job: Job)
      modifies this`files
      ensures files == Cleared(old(files), job.photoIds + job.videoIds)
    {
      ClearedTwice(files, job.photoIds, job.videoIds);
      ClearedTwice(files, [], []);
      if job.photoIds != [] {
        RemoveFor(job.photoIds);
      }
      if job.videoIds != [] {
        ClearedTwice(files, [], []);
        RemoveFor(job.videoIds);
      } else {
        ClearedTwice(files, [], []);
      }
    }

    method RecordPhotos(num: nat, mm: array<Entry>) returns (ids: seq<nat>)
      requires num <= SNAP_MAX && num <= mm.Length
      modifies this`lastId, mm
      ensures lastId == old(lastId) + num && ids == IdsFrom(old(lastId), num)
      ensures mm[..num] == Photos(old(lastId), num)
    {
      var photoId := new nat[SNAP_MAX](_ => 0);
      GetNextIds(photoId, num);
      ids := photoId[..num];
      var i := 0;
      while i < num
        invariant i <= num && ids == IdsFrom(old(lastId), num) == photoId[..num]
        invariant lastId == old(lastId) + num
        invariant mm[..i] == Photos(old(lastId), i)
      {
        mm[i] := Entry(Photo, photoId[i]);
        assert mm[..i + 1] == mm[..i] + [mm[i]];
        i := i + 1;
      }
    }

    method RecordVideo(mm: array<Entry>, i: nat) returns (id: nat)
      requires i < mm.Length
      modifies this`lastId, mm
      ensures id == lastId == old(lastId) + 1
      ensures mm[..i + 1] == old(mm[..i]) + [Entry(Video, id)]
    {
      lastId := lastId + 1;
      id := lastId;
      mm[i] := Entry(Video, id);
    }

    method Offer(job: Job)
      modifies this`files, this`jobs
      ensures files == Cleared(old(files), job.photoIds + job.videoIds)
      ensures jobs == old(jobs) + [job]
    {
      ClearOldMediaFile(job);
      jobs := jobs + [job];
    }

    /** Photos, then this camera's video, then the other camera's, each with its recorder job. */
    method BuildAlarm(photos: nat, video: bool, mm: array<Entry>) returns (mmNum: nat)
      requires photos < SNAP_MAX && 20 <= mm.Length
      modifies this`lastId, this`files, this`jobs, mm
      ensures Abs() == Build(old(Abs()), Alarm(photos, video), Single)
      ensures mmNum <= 11 && mm[..mmNum] == MediaOf(Alarm(photos, video), old(lastId))
    {
      ghost var last, was := lastId, files;
      AlarmIds(photos, video, last);
      var ids := RecordPhotos(photos, mm);
      mmNum := photos;
      if !video {
        Offer(Job(ids, [], false));
        ConcatEmpty(ids);
        ConcatEmpty(Photos(last, photos));
        return;
      }
      var first := RecordVideo(mm, mmNum);
      mmNum := mmNum + 1;
      Offer(Job(ids, [first], false));
      var second := RecordVideo(mm, mmNum);
      mmNum := mmNum + 1;
      Offer(Job([], [second], true));
      ClearedTwice(was, ids + [first], [] + [second]);
    }

    /** Photos only, for a snapshot or a change of driver. */
    method BuildSnapshot(photos: nat, mm: array<Entry>) returns (mmNum: nat)
      requires photos <= SNAP_MAX && 20 <= mm.Length
      modifies this`lastId, this`files, this`jobs, mm
      ensures Abs() == Build(old(Abs()), Snapshot(photos), Single)
      ensures mmNum <= 11 && mm[..mmNum] == MediaOf(Snapshot(photos), old(lastId))
    {
      ReportAndRecorderAgree(Snapshot(photos), lastId);
      var ids := RecordPhotos(photos, mm);
      Offer(Job(ids, [], false));
      ConcatEmpty(ids);
      mmNum := photos;
    }

    /** The media part of either report builder. */
    method BuildMedia(plan: Plan, status: Status, mm: array<Entry>) returns (mmNum: nat)
      requires Valid() && 20 <= mm.Length
      requires plan.Alarm? ==> plan.photos < SNAP_MAX
      requires plan.Snapshot? ==> plan.photos <= SNAP_MAX
      modifies this, mm
      ensures Valid() && Abs() == Build(old(Abs()), plan, status)
      ensures mmNum <= mm.Length && mm[..mmNum] == ReportMedia(old(Abs()), plan, status)
    {
      mmNum := 0;
      if status.End? {
        forall i | 0 <= i < |begun| {
          mm[i] := begun[i];
        }
        mmNum := |begun|;
        return;
      }
      match plan {
        case Nothing =>
          ClearedTwice(files, [], []);
          ConcatEmpty(jobs);
        case Alarm(photos, video) =>
          mmNum := BuildAlarm(photos, video, mm);
        case Snapshot(photos) =>
          mmNum := BuildSnapshot(photos, mm);
      }
      if status.Begin? {
        begun := mm[..mmNum];
      }
    }

    method BuildAdasWarnFrame(warning: byte, status: Status, para: Params.Record, mm: array<Entry>)
      returns (mmNum: nat)
      requires Valid() && 20 <= mm.Length
      requires |para| == Params.ADAS_LEN && para[PHOTO_NUM_AT] <= SNAP_MAX
      modifies this, mm
      ensures Valid() && Abs() == Build(old(Abs()), AdasPlan(warning, para), status)
      ensures mmNum <= mm.Length && mm[..mmNum] == ReportMedia(old(Abs()), AdasPlan(warning, para), status)
    {
      mmNum := BuildMedia(AdasPlan(warning, para), status, mm);
    }

    method BuildDmsWarnFrame(warning: byte, para: Params.Record, mm: array<Entry>) returns (mmNum: nat)
      requires Valid() && 20 <= mm.Length
      requires |para| == Params.DMS_LEN && para[PHOTO_NUM_AT] <= SNAP_MAX
      modifies this, mm
      ensures Valid() && Abs() == Build(old(Abs()), DmsPlan(warning, para), Single)
      ensures mmNum <= mm.Length && mm[..mmNum] == MediaOf(DmsPlan(warning, para), old(lastId))
    {
      mmNum := BuildMedia(DmsPlan(warning, para), Single, mm);
    }
  }

  lemma AlarmIds(photos: nat, video: bool, last: nat)
    ensures EntryIds(MediaOf(Alarm(photos, video), last))
            == IdsFrom(last, photos) + if video then [last + photos + 1] + ([] + [last + photos + 2]) else []
  {
  }
}
