/** Whole runs of the store, crashes and recoveries among them: what a recovery would find
    at any point shows what the flushes show whose entries reached the log whole. What the
    methods of the store ensure makes steps of such runs. */
module StoreRuns {
  import opened Bytes
  import opened Order
  import opened RunReader
  import opened RunFile
  import opened CompactRun
  import opened Archetypes
  import opened RunMeaning
  import opened Picker
  import opened Executor
  import opened Manifest
  import opened EntryCodec
  import opened ManifestLog
  import opened LogRecovery
  import opened Protocol
  import opened Engine
  import opened CompactionLoop
  import opened StoreView
  import opened OutputNames
  import Recency
  import H = RunHistory

  // ── What operations write ──────────────────────────────────────────────────

  /** The file of a flushed run, in sequence, described and named as it: a run of the
      universe with rows in every archetype and no signature twice. */
  ghost predicate FlushFits(u: Universe, dir: Path, flushed: seq<H.Run>, file: bytes, meta: SortedRunMeta, r: Reader) {
    && Opens(file, r) && RunIn(u, r) && Plain(r) && FlushMeta(meta, FlushPath(dir, r.lo, r.hi), file, r)
    && InSequence(flushed, Seen(r))
  }

  ghost predicate FlushOffered(u: Universe, dir: Path, flushed: seq<H.Run>, file: bytes, e: ManifestEntry) {
    exists meta: SortedRunMeta, next, r :: e == AddRunAndSequence(FLUSH_LEVEL, meta, next) && FlushFits(u, dir, flushed, file, meta, r)
  }

  /** The output of the scheduler's job, and the entry that commits it. */
  ghost predicate OutputFits(dir: Path, disk: Disk, m: ManifestState, file: bytes, e: ManifestEntry, l: nat, job: Job,
                             o: Output, out: Reader) {
    NextJob(disk, m.levels, l, job) && OutputIs(disk, job, dir, o, out) && e == CommitOf(job, o) && file == o.file
  }

  ghost predicate OutputOffered(dir: Path, disk: Disk, m: ManifestState, file: bytes, e: ManifestEntry) {
    exists l, job, o, out :: OutputFits(dir, disk, m, file, e, l, job, o, out)
  }

  ghost predicate Offered(u: Universe, dir: Path, disk: Disk, m: ManifestState, flushed: seq<H.Run>, file: bytes,
                          e: ManifestEntry) {
    FlushOffered(u, dir, flushed, file, e) || OutputOffered(dir, disk, m, file, e)
  }

  // ── Steps ──────────────────────────────────────────────────────────────────

  /** A state of the store, the flushes whose entries are in the log, and the number of
      rows in the outputs of the compactions whose commits are. */
  datatype Point = Point(state: State, flushed: seq<H.Run>, rewritten: nat)

  /** A run file is written, and its entry passed the checks and fits a frame. */
  ghost predicate BeginStep(u: Universe, dir: Path, a: Point, b: Point, file: bytes, e: ManifestEntry) {
    && a.state.phase.Idle? && Offered(u, dir, a.state.disk, a.state.mem, a.flushed, file, e)
    && NewPath(e).Some? && Loggable(e) && Apply(a.state.mem, e).Some?
    && b == Point(WithFile(a.state, PathOf(e), file).(phase := Writing(e)), a.flushed, a.rewritten)
  }

  /** A run file is written, and the operation fails. */
  ghost predicate LeaveStep(u: Universe, dir: Path, a: Point, b: Point, file: bytes, e: ManifestEntry) {
    && a.state.phase.Idle? && Offered(u, dir, a.state.disk, a.state.mem, a.flushed, file, e) && NewPath(e).Some?
    && b == Point(WithFile(a.state, PathOf(e), file), a.flushed, a.rewritten)
  }

  /** A temporary file is written, whole or in part. */
  ghost predicate TemporaryStep(u: Universe, a: Point, b: Point, p: Path, file: bytes) {
    && a.state.phase.Idle? && EndsWith(p, TMP_SUFFIX) && (forall r :: Opens(file, r) ==> RunIn(u, r))
    && b == Point(WithFile(a.state, p, file), a.flushed, a.rewritten)
  }

  /** The flush that an entry records. */
  ghost function FlushedBy(disk: Disk, e: ManifestEntry): seq<H.Run> {
    match e case AddRunAndSequence(_, meta, _) => [SeenAt(disk, meta.path)] case _ => []
  }

  /** The rows of the output that an entry commits: one for each of its entities. */
  ghost function RewrittenBy(disk: Disk, e: ManifestEntry): nat {
    if e.CompactionCommit? then |SeenAt(disk, e.output.path).view| else 0
  }

  /** The entry has become durable. */
  ghost predicate Counted(a: Point, b: Point, e: ManifestEntry) {
    b.flushed == a.flushed + FlushedBy(a.state.disk, e) && b.rewritten == a.rewritten + RewrittenBy(a.state.disk, e)
  }

  ghost predicate Uncounted(a: Point, b: Point) { b.flushed == a.flushed && b.rewritten == a.rewritten }

  ghost predicate LogStep(a: Point, b: Point) {
    AppendStep(a.state, b.state) && Counted(a, b, Entry(a.state))
  }

  ghost predicate WholeFrame(s: State, cut: nat) { s.phase.Writing? && cut == |EntryFrame(Entry(s))| }

  /** The process dies; an entry counts when its whole frame is in the log. */
  ghost predicate DieStep(a: Point, b: Point, cut: nat) {
    && CrashStep(a.state, b.state, cut)
    && if WholeFrame(a.state, cut) then Counted(a, b, Entry(a.state)) else Uncounted(a, b)
  }

  /** Steps that change neither what is durable nor any file that is tracked. */
  ghost predicate QuietStep(n: nat, a: Point, b: Point) {
    Uncounted(a, b) && (
      || AbortStep(a.state, b.state) || MirrorStep(a.state, b.state) || RecoverStep(n, a.state, b.state)
      || (exists gone :: DeleteStep(a.state, b.state, gone)) || exists gone :: SweepStep(a.state, b.state, gone))
  }

  ghost predicate StoreStep(u: Universe, n: nat, dir: Path, a: Point, b: Point) {
    || (exists file, e :: BeginStep(u, dir, a, b, file, e))
    || (exists file, e :: LeaveStep(u, dir, a, b, file, e))
    || (exists p, file :: TemporaryStep(u, a, b, p, file))
    || LogStep(a, b) || (exists cut :: DieStep(a, b, cut)) || QuietStep(n, a, b)
  }

  ghost predicate AreSteps(u: Universe, n: nat, dir: Path, points: seq<Point>) {
    forall i :: 0 <= i < |points| - 1 ==> StoreStep(u, n, dir, points[i], points[i + 1])
  }

  /** A store created empty. */
  predicate IsStart(n: nat, p: Point) { 0 < n <= MAX_LEVELS && p == Point(Start(n), [], 0) }

  predicate Begins(n: nat, points: seq<Point>) { |points| > 0 && IsStart(n, points[0]) }

  /** A store created empty, and any steps from there. */
  ghost predicate StoreRun(u: Universe, n: nat, dir: Path, points: seq<Point>) {
    UniverseOk(u) && Begins(n, points) && AreSteps(u, n, dir, points)
  }

  // ── The invariant ──────────────────────────────────────────────────────────

  /** The name of no output the scheduler's job may have is tracked. */
  ghost predicate OutputsFresh(dir: Path, s: State) {
    s.phase.Idle? ==> forall l, job, o, out :: NextJob(s.disk, s.mem.levels, l, job) && OutputIs(s.disk, job, dir, o, out) ==> o.path !in Tracked(s.mem)
  }

  /** The run is named by its range, and its metadata has the range of its file. */
  ghost predicate NameFits(dir: Path, disk: Disk, r: RunMeta) {
    OutputNames.Named(dir, r) && SeenAt(disk, r.path).lo == r.lo && SeenAt(disk, r.path).hi == r.hi
  }

  ghost predicate NamesFit(dir: Path, disk: Disk, m: ManifestState) {
    forall l, i :: 0 <= l < |m.levels| && 0 <= i < |m.levels[l]| ==> NameFits(dir, disk, m.levels[l][i])
  }

  /** The file in place and the entry to be logged are those of an operation. */
  ghost predicate Pending(u: Universe, dir: Path, p: Point, e: ManifestEntry) {
    exists before, file :: PendingFrom(u, dir, p, e, before, file)
  }

  ghost predicate PendingFrom(u: Universe, dir: Path, p: Point, e: ManifestEntry, before: Disk, file: bytes) {
    && NewPath(e).Some? && Offered(u, dir, before, p.state.mem, p.flushed, file, e) && DiskIn(u, before)
    && p.state.disk == before[PathOf(e) := file]
  }

  /** Disk and manifest show the levels of a history of these flushes. */
  ghost predicate Shows(n: nat, dir: Path, disk: Disk, m: ManifestState, flushed: seq<H.Run>, sys: H.Sys) {
    && Shown(disk, m, sys) && sys.flushed == flushed && H.Reach(n, sys) && |m.levels| == n <= MAX_LEVELS && NamesFit(dir, disk, m)
  }

  /** What a run of the store keeps, whatever happens. */
  ghost predicate Kept(u: Universe, n: nat, dir: Path, p: Point, sys: H.Sys) {
    && Inv(n, p.state) && UniverseOk(u) && DiskIn(u, p.state.disk)
    && Shows(n, dir, p.state.disk, Durable(n, p.state), p.flushed, sys) && sys.rewritten == p.rewritten
    && (p.state.phase.Writing? ==> Pending(u, dir, p, Entry(p.state)))
  }

  // ── Fresh names ────────────────────────────────────────────────────────────

  lemma TrackedMeta(m: ManifestState, p: Path) returns (l: nat, i: nat)
    requires p in Tracked(m)
    ensures l < |m.levels| && i < |m.levels[l]| && m.levels[l][i].path == p
  {
    TrackedAt(m, p);
    l :| 0 <= l < |m.levels| && p in PathsOf(m.levels[l]);
    var r :| r in m.levels[l] && r.path == p;
    i :| 0 <= i < |m.levels[l]| && m.levels[l][i] == r;
  }

  lemma ShowsParts(n: nat, dir: Path, disk: Disk, m: ManifestState, flushed: seq<H.Run>, sys: H.Sys)
    requires Shows(n, dir, disk, m, flushed, sys)
    ensures Shown(disk, m, sys) && sys.flushed == flushed && H.Reach(n, sys) && |m.levels| == n <= MAX_LEVELS && NamesFit(dir, disk, m)
    ensures UniquePaths(m) && forall p :: p in Tracked(m) ==> RunViewable(disk, p) && p in disk
  {
    hide Shown, H.Reach, NamesFit, RunViewable, Tracked, UniquePaths;
    ShownParts(disk, m, sys);
    forall p | p in Tracked(m) ensures p in disk {
      ViewableFile(disk, p);
    }
  }

  lemma TrackedFromFlush(disk: Disk, m: ManifestState, sys: H.Sys, p: Path)
    requires Shown(disk, m, sys) && p in Tracked(m)
    ensures Recency.FromFlush(sys.flushed, SeenAt(disk, p).hi)
  {
    hide UniquePaths, RunViewable, SeenAt, Tracked, Recency.FromFlush;
  }

  lemma AfterAllFlushes(flushed: seq<H.Run>, x: H.Run, hi: nat)
    requires InSequence(flushed, x) && Recency.FromFlush(flushed, hi)
    ensures hi < x.hi
  {
  }

  /** The name of a flush in sequence is fresh. */
  lemma FlushFresh(u: Universe, n: nat, dir: Path, disk: Disk, m: ManifestState, flushed: seq<H.Run>, sys: H.Sys, file: bytes,
                   meta: SortedRunMeta, r: Reader)
    requires Shows(n, dir, disk, m, flushed, sys) && FlushFits(u, dir, flushed, file, meta, r)
    ensures meta.path !in Tracked(m)
  {
    hide Opens, RunIn, Plain, RunWf, Seen, SeenAt, Tracked, H.Reach, Shown, RunViewable, InSequence, ArchetypeIds,
      FlushPath, OutputPath, Recency.FromFlush;
    ShowsParts(n, dir, disk, m, flushed, sys);
    if meta.path in Tracked(m) {
      var l, i := TrackedMeta(m, meta.path);
      var q := m.levels[l][i];
      assert NameFits(dir, disk, q);
      FlushIsNoOutput(dir, r.lo, r.hi, q.lo, q.hi);
      FlushPathInjective(dir, q.lo, q.hi, r.lo, r.hi);
      TrackedFromFlush(disk, m, sys, meta.path);
      assert RunWf(r) by { FitsWf(u, r); }
      SeenHi(r);
      AfterAllFlushes(flushed, Seen(r), r.hi);
    }
  }

  lemma FitsWf(u: Universe, r: Reader)
    requires RunIn(u, r)
    ensures RunWf(r)
  {
    hide RunWf;
  }

  ghost predicate FreshEntry(m: ManifestState, e: ManifestEntry) {
    NewPath(e).Some? && PathOf(e) !in Tracked(m) && !EndsWith(PathOf(e), TMP_SUFFIX)
    && (e.AddRunAndSequence? || e.CompactionCommit?)
  }

  lemma FlushOfferedFresh(u: Universe, n: nat, dir: Path, disk: Disk, m: ManifestState, flushed: seq<H.Run>, sys: H.Sys,
                          file: bytes, e: ManifestEntry)
    requires Shows(n, dir, disk, m, flushed, sys) && FlushOffered(u, dir, flushed, file, e)
    ensures FreshEntry(m, e)
  {
    hide Shows, Tracked, FlushFits, EndsWith, FlushPath, OutputPath, RunWf, Plain, RunIn;
    var meta: SortedRunMeta, next: u64, r :| e == AddRunAndSequence(FLUSH_LEVEL, meta, next) && FlushFits(u, dir, flushed, file, meta, r);
    FlushFresh(u, n, dir, disk, m, flushed, sys, file, meta, r);
    FitsPath(u, dir, flushed, file, meta, r);
    NotTemporary(dir, r.lo, r.hi);
  }

  lemma OutputOfferedFresh(dir: Path, s: State, file: bytes, e: ManifestEntry)
    requires s.phase.Idle? && OutputOffered(dir, s.disk, s.mem, file, e) && OutputsFresh(dir, s)
    ensures FreshEntry(s.mem, e)
  {
    hide Tracked, NextJob, OutputIs, EndsWith, FlushPath, OutputPath;
    var l: nat, job, o, out :| OutputFits(dir, s.disk, s.mem, file, e, l, job, o, out);
    OutputIsNamed(s.disk, job, dir, o, out);
    NotTemporary(dir, out.lo, out.hi);
  }

  /** What is offered has a fresh name, as long as the scheduler's outputs have. */
  lemma OfferedFresh(u: Universe, n: nat, dir: Path, s: State, flushed: seq<H.Run>, sys: H.Sys, file: bytes, e: ManifestEntry)
    requires Shows(n, dir, s.disk, s.mem, flushed, sys) && Offered(u, dir, s.disk, s.mem, flushed, file, e)
    requires s.phase.Idle? && OutputsFresh(dir, s)
    ensures FreshEntry(s.mem, e)
  {
    hide Shows, FlushOffered, OutputOffered, OutputsFresh, FreshEntry;
    if FlushOffered(u, dir, flushed, file, e) {
      FlushOfferedFresh(u, n, dir, s.disk, s.mem, flushed, sys, file, e);
    } else {
      OutputOfferedFresh(dir, s, file, e);
    }
  }

  lemma FitsPath(u: Universe, dir: Path, flushed: seq<H.Run>, file: bytes, meta: SortedRunMeta, r: Reader)
    requires FlushFits(u, dir, flushed, file, meta, r)
    ensures meta.path == FlushPath(dir, r.lo, r.hi) && meta.lo == r.lo && meta.hi == r.hi
    ensures Opens(file, r) && RunIn(u, r) && Plain(r) && RunWf(r) && InSequence(flushed, Seen(r))
  {
    hide Opens, Plain, RunWf, Seen, InSequence, ArchetypeIds, FlushPath;
  }

  lemma OutputIsNamed(disk: Disk, job: Job, dir: Path, o: Output, out: Reader)
    requires OutputIs(disk, job, dir, o, out)
    ensures o.path == OutputPath(dir, out.lo, out.hi) == o.meta.path && o.meta.lo == out.lo && o.meta.hi == out.hi && Opens(o.file, out)
  {
    hide Opens, CompactedFrom, OutputPath;
  }

  // ── What an entry makes durable ────────────────────────────────────────────

  lemma NamesStay(dir: Path, a: Disk, b: Disk, r: RunMeta)
    requires NameFits(dir, a, r) && r.path in a && r.path in b && a[r.path] == b[r.path]
    ensures NameFits(dir, b, r)
  {
    hide SeenAt, OutputNames.Named;
    SameFile(a, b, r.path);
  }

  /** Names fit after a change that keeps the runs it keeps and adds one that fits. */
  lemma NamesAfter(dir: Path, a: Disk, m: ManifestState, b: Disk, m': ManifestState, meta: SortedRunMeta)
    requires NamesFit(dir, a, m) && NameFits(dir, b, meta) && |m'.levels| == |m.levels|
    requires forall l, i :: 0 <= l < |m'.levels| && 0 <= i < |m'.levels[l]| ==> m'.levels[l][i] == meta || m'.levels[l][i] in m.levels[l]
    requires forall p :: p in Tracked(m) ==> p in a && (p != meta.path ==> p in b && b[p] == a[p])
    requires meta.path !in Tracked(m)
    ensures NamesFit(dir, b, m')
  {
    hide NameFits, Tracked;
    forall l, i | 0 <= l < |m'.levels| && 0 <= i < |m'.levels[l]| ensures NameFits(dir, b, m'.levels[l][i]) {
      var r := m'.levels[l][i];
      if r != meta {
        var k :| 0 <= k < |m.levels[l]| && m.levels[l][k] == r;
        TrackedIn(m, l, k);
        NamesStay(dir, a, b, r);
      }
    }
  }

  lemma FlushKeeps(u: Universe, n: nat, dir: Path, a: Disk, m: ManifestState, flushed: seq<H.Run>, sys: H.Sys, file: bytes,
                   meta: SortedRunMeta, next: u64, r: Reader, m': ManifestState) returns (sys': H.Sys)
    requires Shows(n, dir, a, m, flushed, sys) && FlushFits(u, dir, flushed, file, meta, r)
    requires Apply(m, AddRunAndSequence(FLUSH_LEVEL, meta, next)) == Some(m')
    ensures RunWf(r) && sys' == AfterFlush(sys, Seen(r)) && sys'.rewritten == sys.rewritten && SeenAt(a[meta.path := file], meta.path) == Seen(r)
    ensures H.FlushStep(sys, sys', Seen(r))
    ensures Shows(n, dir, a[meta.path := file], m', flushed + [Seen(r)], sys')
  {
    hide Opens, RunIn, Plain, RunWf, Seen, SeenAt, Tracked, H.Reach, Shown, RunViewable, InSequence, FlushFits, Shows,
      NamesFit, H.FlushStep, NameFits, UniquePaths;
    ShowsParts(n, dir, a, m, flushed, sys);
    FitsPath(u, dir, flushed, file, meta, r);
    FlushFresh(u, n, dir, a, m, flushed, sys, file, meta, r);
    var b := a[meta.path := file];
    OpenedReader(b, meta.path, r);
    FlushSimulated(a, m, b, m', meta, next, sys, Seen(r));
    sys' := AfterFlush(sys, Seen(r));
    H.ReachStep(n, sys, sys') by { assert H.FlushStep(sys, sys', Seen(r)); assert H.Step(sys, sys'); }
    FlushNameFits(dir, b, meta, r);
    AddedLevels(m, meta, next, m');
    NamesAfter(dir, a, m, b, m', meta);
    ShowsIs(n, dir, b, m', flushed + [Seen(r)], sys');
  }

  lemma ShowsIs(n: nat, dir: Path, disk: Disk, m: ManifestState, flushed: seq<H.Run>, sys: H.Sys)
    requires Shown(disk, m, sys) && sys.flushed == flushed && H.Reach(n, sys) && |m.levels| == n <= MAX_LEVELS && NamesFit(dir, disk, m)
    ensures Shows(n, dir, disk, m, flushed, sys)
  {
    hide Shown, H.Reach, NamesFit;
  }

  lemma FlushNameFits(dir: Path, b: Disk, meta: SortedRunMeta, r: Reader)
    requires RunWf(r) && SeenAt(b, meta.path) == Seen(r) && meta.path == FlushPath(dir, r.lo, r.hi) && meta.lo == r.lo && meta.hi == r.hi
    ensures NameFits(dir, b, meta)
  {
    hide RunWf, SeenAt, FlushPath, OutputPath, Seen;
    SeenHi(r);
  }

  lemma AddedLevels(m: ManifestState, meta: SortedRunMeta, next: u64, m': ManifestState)
    requires Apply(m, AddRunAndSequence(FLUSH_LEVEL, meta, next)) == Some(m')
    ensures |m'.levels| == |m.levels|
    ensures forall l, i :: 0 <= l < |m'.levels| && 0 <= i < |m'.levels[l]| ==> m'.levels[l][i] == meta || m'.levels[l][i] in m.levels[l]
  {
  }

  lemma OutputNameFits(dir: Path, b: Disk, meta: SortedRunMeta, r: Reader)
    requires RunWf(r) && SeenAt(b, meta.path) == Seen(r) && meta.path == OutputPath(dir, r.lo, r.hi) && meta.lo == r.lo && meta.hi == r.hi
    ensures NameFits(dir, b, meta)
  {
    hide RunWf, SeenAt, FlushPath, OutputPath, Seen;
    SeenHi(r);
  }

  lemma {:induction false} SurvivorIn(runs: seq<SortedRunMeta>, gone: set<Path>, i: nat)
    requires i < |Survivors(runs, gone)|
    ensures Survivors(runs, gone)[i] in runs
  {
    if |runs| != 0 {
      if runs[0].path in gone {
        SurvivorIn(runs[1..], gone - {runs[0].path}, i);
      } else if i > 0 {
        SurvivorIn(runs[1..], gone, i - 1);
      }
    }
  }

  lemma CommittedRuns(m: ManifestState, out: Level, output: SortedRunMeta, inputs: seq<(Level, Path)>)
    requires Committable(m, out, inputs)
    ensures
      var m' := Committed(m, out, output, inputs);
      |m'.levels| == |m.levels| && forall l, i :: 0 <= l < |m'.levels| && 0 <= i < |m'.levels[l]| ==>
        m'.levels[l][i] == output || m'.levels[l][i] in m.levels[l]
  {
    hide Committable, Survivors, GoneAt;
    var m' := Committed(m, out, output, inputs);
    forall l, i | 0 <= l < |m'.levels| && 0 <= i < |m'.levels[l]| ensures m'.levels[l][i] == output || m'.levels[l][i] in m.levels[l] {
      SurvivorIn(m.levels[l] + (if l == out then [output] else []), GoneAt(inputs, l), i);
    }
  }

  lemma CommitApplies(m: ManifestState, job: Job, o: Output, m': ManifestState)
    requires Apply(m, CommitOf(job, o)) == Some(m')
    ensures Committable(m, job.to, CommitInputs(job)) && m' == Committed(m, job.to, o.meta, CommitInputs(job))
  {
    hide Committable, Committed;
  }

  lemma OutputKeeps(u: Universe, n: nat, dir: Path, a: Disk, m: ManifestState, flushed: seq<H.Run>, sys: H.Sys, l: nat,
                    sig: Signature, job: Job, o: Output, out: Reader, m': ManifestState) returns (sys': H.Sys)
    requires UniverseOk(u) && DiskIn(u, a) && Shows(n, dir, a, m, flushed, sys)
    requires l + 1 < |m.levels| && JobFor(a, LevelOf(m.levels, l), l, sig, job) && OutputIs(a, job, dir, o, out)
    requires Apply(m, CommitOf(job, o)) == Some(m') && o.path !in Tracked(m)
    ensures RunWf(out) && sys' == AfterCompaction(sys, l, sig, Seen(out)) && H.CompactStep(sys, sys', l, sig, Seen(out))
    ensures Shows(n, dir, a[o.path := o.file], m', flushed, sys')
    ensures sys'.rewritten == sys.rewritten + RewrittenBy(a[o.path := o.file], CommitOf(job, o))
  {
    hide UniverseOk, DiskIn, Opens, RunIn, Plain, RunWf, Seen, SeenAt, Tracked, H.Reach, Shown, RunViewable, Shows, NamesFit,
      H.CompactStep, NameFits, UniquePaths, JobFor, OutputIs, Committable, Committed, Survivors, Retired, OutputPath;
    ShowsParts(n, dir, a, m, flushed, sys);
    CommitApplies(m, job, o, m');
    OutputIsNamed(a, job, dir, o, out);
    var b := a[o.path := o.file];
    var after := b - Retired(CommitOf(job, o));
    assert Replaces(a, m, after, m', job, o);
    CompactionSimulated(u, a, m, after, m', l, sig, job, dir, o, out, sys);
    sys' := AfterCompaction(sys, l, sig, Seen(out));
    H.ReachStep(n, sys, sys') by { assert H.CompactStep(sys, sys', l, sig, Seen(out)); assert H.Step(sys, sys'); }
    TrackedKept(after, b, m', sys');
    OnlyTrackedShow(after, b, m', sys');
    OpenedReader(b, o.path, out);
    LevelsShown(a, m, sys);
    OutputNameFits(dir, b, o.meta, out);
    CommittedRuns(m, job.to, o.meta, CommitInputs(job));
    NamesAfter(dir, a, m, b, m', o.meta);
    ShowsIs(n, dir, b, m', flushed, sys');
  }

  lemma LevelsShown(disk: Disk, m: ManifestState, sys: H.Sys)
    requires Shown(disk, m, sys)
    ensures |sys.levels| == |m.levels|
  {
    hide UniquePaths, RunViewable, Tracked, Recency.FromFlush, SeenAt;
  }

  lemma TrackedKept(after: Disk, b: Disk, m: ManifestState, sys: H.Sys)
    requires Shown(after, m, sys) && after.Keys <= b.Keys && forall p :: p in after ==> after[p] == b[p]
    ensures forall p :: p in Tracked(m) ==> p in after && p in b && after[p] == b[p]
  {
    hide Shown, Tracked, RunViewable, UniquePaths;
    ShownParts(after, m, sys);
    forall p | p in Tracked(m) ensures p in after {
      ViewableFile(after, p);
    }
  }

  lemma FlushOfferedKeeps(u: Universe, n: nat, dir: Path, a: Disk, m: ManifestState, flushed: seq<H.Run>, sys: H.Sys,
                          file: bytes, e: ManifestEntry, m': ManifestState) returns (sys': H.Sys)
    requires Shows(n, dir, a, m, flushed, sys) && FlushOffered(u, dir, flushed, file, e) && Apply(m, e) == Some(m')
    ensures e.AddRunAndSequence? && NewPath(e).Some? && H.Step(sys, sys')
    ensures
      var b := a[PathOf(e) := file];
      Shows(n, dir, b, m', flushed + FlushedBy(b, e), sys') && sys'.rewritten == sys.rewritten + RewrittenBy(b, e)
  {
    hide Shows, FlushFits, Apply, Seen, RunWf, SeenAt, H.FlushStep, H.CompactStep, AfterFlush;
    var meta: SortedRunMeta, next: u64, r :| e == AddRunAndSequence(FLUSH_LEVEL, meta, next) && FlushFits(u, dir, flushed, file, meta, r);
    sys' := FlushKeeps(u, n, dir, a, m, flushed, sys, file, meta, next, r, m');
  }

  lemma OutputOfferedKeeps(u: Universe, n: nat, dir: Path, a: Disk, m: ManifestState, flushed: seq<H.Run>, sys: H.Sys,
                           file: bytes, e: ManifestEntry, m': ManifestState) returns (sys': H.Sys)
    requires UniverseOk(u) && DiskIn(u, a) && Shows(n, dir, a, m, flushed, sys) && OutputOffered(dir, a, m, file, e)
    requires FreshEntry(m, e) && Apply(m, e) == Some(m')
    ensures e.CompactionCommit? && H.Step(sys, sys') && Shows(n, dir, a[PathOf(e) := file], m', flushed, sys')
    ensures sys'.rewritten == sys.rewritten + RewrittenBy(a[PathOf(e) := file], e)
  {
    hide UniverseOk, DiskIn, Shows, NextJob, OutputIs, Tracked, EndsWith, Apply, Seen, RunWf, SeenAt, H.FlushStep,
      H.CompactStep, AfterCompaction, JobFor, JobSound, JobAt;
    var l: nat, job, o, out :| OutputFits(dir, a, m, file, e, l, job, o, out);
    OutputIsNamed(a, job, dir, o, out);
    NextParts(a, m.levels, l, job);
    var sig := PickedJob(u, a, m.levels[l], l, job);
    sys' := OutputKeeps(u, n, dir, a, m, flushed, sys, l, sig, job, o, out, m');
  }

  /** Once its entry is durable the operation is a step of the history. */
  lemma OfferedKeeps(u: Universe, n: nat, dir: Path, a: Disk, m: ManifestState, flushed: seq<H.Run>, sys: H.Sys, file: bytes,
                     e: ManifestEntry, m': ManifestState) returns (sys': H.Sys)
    requires UniverseOk(u) && DiskIn(u, a) && Shows(n, dir, a, m, flushed, sys) && Offered(u, dir, a, m, flushed, file, e)
    requires FreshEntry(m, e) && Apply(m, e) == Some(m')
    ensures H.Step(sys, sys')
    ensures
      var b := a[PathOf(e) := file];
      Shows(n, dir, b, m', flushed + FlushedBy(b, e), sys') && sys'.rewritten == sys.rewritten + RewrittenBy(b, e)
  {
    hide UniverseOk, DiskIn, Shows, FlushOffered, OutputOffered, Tracked, EndsWith, Apply, SeenAt, H.Step;
    if FlushOffered(u, dir, flushed, file, e) {
      sys' := FlushOfferedKeeps(u, n, dir, a, m, flushed, sys, file, e, m');
    } else {
      sys' := OutputOfferedKeeps(u, n, dir, a, m, flushed, sys, file, e, m');
      assert flushed + [] == flushed;
    }
  }

  lemma NextParts(disk: Disk, levels: seq<seq<SortedRunMeta>>, l: nat, job: Job)
    requires NextJob(disk, levels, l, job)
    ensures l + 1 < |levels| && JobAt(disk, LevelOf(levels, l), l, job)
  {
    hide JobAt, Quiet;
  }

  // ── Every step keeps it ────────────────────────────────────────────────────

  /** What is shown depends on the tracked files only. */
  lemma ShowsIgnores(n: nat, dir: Path, a: Disk, b: Disk, m: ManifestState, flushed: seq<H.Run>, sys: H.Sys)
    requires Shows(n, dir, a, m, flushed, sys) && forall p :: p in Tracked(m) && p in a ==> p in b && b[p] == a[p]
    ensures Shows(n, dir, b, m, flushed, sys)
  {
    hide Shows, Shown, Tracked, NameFits, H.Reach, RunViewable, UniquePaths;
    ShowsParts(n, dir, a, m, flushed, sys);
    OnlyTrackedShow(a, b, m, sys);
    forall l, i | 0 <= l < |m.levels| && 0 <= i < |m.levels[l]| ensures NameFits(dir, b, m.levels[l][i]) {
      TrackedIn(m, l, i);
      NamesStay(dir, a, b, m.levels[l][i]);
    }
    ShowsIs(n, dir, b, m, flushed, sys);
  }

  lemma KeptParts(u: Universe, n: nat, dir: Path, p: Point, sys: H.Sys)
    requires Kept(u, n, dir, p, sys)
    ensures Inv(n, p.state) && UniverseOk(u) && DiskIn(u, p.state.disk) && RecoverFile(p.state.log, n).Some?
    ensures Shows(n, dir, p.state.disk, Durable(n, p.state), p.flushed, sys) && sys.rewritten == p.rewritten
    ensures p.state.phase.Idle? || p.state.phase.Writing? || p.state.phase.Deleting? ==> p.state.mem == Durable(n, p.state)
    ensures p.state.phase.Writing? ==> Pending(u, dir, p, Entry(p.state))
    ensures p.state.phase.Writing? ==> Admissible(p.state.mem, Entry(p.state))
    ensures Present(p.state, Durable(n, p.state))
  {
    hide UniverseOk, DiskIn, RecoverFile, Shows, Pending, Present, Clean, Admissible, Tracked;
  }

  lemma KeptIs(u: Universe, n: nat, dir: Path, p: Point, sys: H.Sys)
    requires Inv(n, p.state) && UniverseOk(u) && DiskIn(u, p.state.disk)
    requires RecoverFile(p.state.log, n).Some? && Shows(n, dir, p.state.disk, Durable(n, p.state), p.flushed, sys)
    requires sys.rewritten == p.rewritten
    requires p.state.phase.Writing? ==> Pending(u, dir, p, Entry(p.state))
    ensures Kept(u, n, dir, p, sys)
  {
    hide UniverseOk, DiskIn, RecoverFile, Shows, Pending, Inv;
  }

  lemma InvRecovers(n: nat, s: State)
    requires Inv(n, s)
    ensures RecoverFile(s.log, n).Some?
  {
    hide RecoverFile, Present, Clean, Admissible;
  }

  /** Whatever is offered opens as a run of the universe. */
  lemma OfferedIn(u: Universe, dir: Path, disk: Disk, m: ManifestState, flushed: seq<H.Run>, file: bytes, e: ManifestEntry,
                  p: Path)
    requires UniverseOk(u) && DiskIn(u, disk) && Offered(u, dir, disk, m, flushed, file, e)
    ensures DiskIn(u, disk[p := file])
  {
    hide UniverseOk, DiskIn, FlushFits, NextJob, OutputIs, JobFor, JobSound, RunIn, Opens, JobAt;
    if meta: SortedRunMeta, next: u64, r :| e == AddRunAndSequence(FLUSH_LEVEL, meta, next) && FlushFits(u, dir, flushed, file, meta, r) {
      FitsPath(u, dir, flushed, file, meta, r);
      DiskStaysIn(u, disk, p, file, r, {});
    } else {
      var l: nat, job, o, out :| OutputFits(dir, disk, m, file, e, l, job, o, out);
      OutputIsNamed(disk, job, dir, o, out);
      NextParts(disk, m.levels, l, job);
      var sig := PickedJob(u, disk, m.levels[l], l, job);
      OutputRunIn(u, disk, job, dir, o, out, m.levels[l], l, sig);
      DiskStaysIn(u, disk, p, file, out, {});
    }
  }

  lemma FreshWrites(u: Universe, n: nat, dir: Path, a: Point, sys: H.Sys, p: Path, file: bytes)
    requires Kept(u, n, dir, a, sys) && a.state.phase.Idle? && p !in Tracked(a.state.mem)
    ensures RecoverFile(a.state.log, n).Some?
    ensures Shows(n, dir, a.state.disk[p := file], Durable(n, a.state), a.flushed, sys)
  {
    hide Kept, Inv, UniverseOk, DiskIn, RecoverFile, Shows, Pending, Present, Clean, Admissible, Tracked;
    KeptParts(u, n, dir, a, sys);
    ShowsIgnores(n, dir, a.state.disk, a.state.disk[p := file], a.state.mem, a.flushed, sys);
  }

  lemma BeginKept(u: Universe, n: nat, dir: Path, a: Point, b: Point, sys: H.Sys, file: bytes, e: ManifestEntry)
    requires Kept(u, n, dir, a, sys) && BeginStep(u, dir, a, b, file, e) && OutputsFresh(dir, a.state)
    ensures Kept(u, n, dir, b, sys)
  {
    hide Kept, Inv, UniverseOk, DiskIn, RecoverFile, Shows, Pending, Present, Clean, Admissible, Tracked, Offered,
      OutputsFresh, FreshEntry, Loggable, Apply;
    KeptParts(u, n, dir, a, sys);
    OfferedFresh(u, n, dir, a.state, a.flushed, sys, file, e);
    OfferedIn(u, dir, a.state.disk, a.state.mem, a.flushed, file, e, PathOf(e));
    EntryIsAdmissible(a.state.mem, e);
    WriteStepKeeps(n, a.state, b.state, file, e);
    InvRecovers(n, b.state);
    FreshWrites(u, n, dir, a, sys, PathOf(e), file);
    assert PendingFrom(u, dir, b, e, a.state.disk, file);
    assert Pending(u, dir, b, e) by { PendingIs(u, dir, b, e, a.state.disk, file); }
    KeptIs(u, n, dir, b, sys);
  }

  lemma PendingIs(u: Universe, dir: Path, p: Point, e: ManifestEntry, before: Disk, file: bytes)
    requires PendingFrom(u, dir, p, e, before, file)
    ensures Pending(u, dir, p, e)
  {
    hide PendingFrom;
  }

  lemma EntryIsAdmissible(m: ManifestState, e: ManifestEntry)
    requires FreshEntry(m, e) && Loggable(e) && Apply(m, e).Some?
    ensures Admissible(m, e) && NewPath(e).Some? && PathOf(e) !in Tracked(m)
  {
    hide Loggable, Apply, Tracked, EndsWith;
  }

  lemma FreshIs(m: ManifestState, e: ManifestEntry)
    requires FreshEntry(m, e)
    ensures NewPath(e).Some? && PathOf(e) !in Tracked(m)
  {
    hide Tracked, EndsWith;
  }

  lemma LeaveKept(u: Universe, n: nat, dir: Path, a: Point, b: Point, sys: H.Sys, file: bytes, e: ManifestEntry)
    requires Kept(u, n, dir, a, sys) && LeaveStep(u, dir, a, b, file, e) && OutputsFresh(dir, a.state)
    ensures Kept(u, n, dir, b, sys)
  {
    hide Kept, Inv, UniverseOk, DiskIn, RecoverFile, Shows, Pending, Present, Clean, Admissible, Tracked, Offered,
      OutputsFresh, FreshEntry;
    KeptParts(u, n, dir, a, sys);
    OfferedFresh(u, n, dir, a.state, a.flushed, sys, file, e);
    FreshIs(a.state.mem, e);
    OfferedIn(u, dir, a.state.disk, a.state.mem, a.flushed, file, e, PathOf(e));
    StrayKeeps(n, a.state, b.state, PathOf(e), file);
    InvRecovers(n, b.state);
    FreshWrites(u, n, dir, a, sys, PathOf(e), file);
    KeptIs(u, n, dir, b, sys);
  }

  lemma TemporaryUntracked(s: State, m: ManifestState, p: Path)
    requires Present(s, m) && EndsWith(p, TMP_SUFFIX)
    ensures p !in Tracked(m)
  {
    hide Tracked, UniquePaths, EndsWith;
  }

  lemma DiskWith(u: Universe, disk: Disk, p: Path, file: bytes)
    requires DiskIn(u, disk) && forall r :: Opens(file, r) ==> RunIn(u, r)
    ensures DiskIn(u, disk[p := file])
  {
    hide Opens, RunIn;
  }

  lemma TemporaryKept(u: Universe, n: nat, dir: Path, a: Point, b: Point, sys: H.Sys, p: Path, file: bytes)
    requires Kept(u, n, dir, a, sys) && TemporaryStep(u, a, b, p, file)
    ensures Kept(u, n, dir, b, sys)
  {
    hide Kept, Inv, UniverseOk, DiskIn, RecoverFile, Shows, Pending, Present, Clean, Admissible, Tracked, EndsWith, Opens, RunIn;
    KeptParts(u, n, dir, a, sys);
    TemporaryUntracked(a.state, a.state.mem, p);
    DiskWith(u, a.state.disk, p, file);
    StrayKeeps(n, a.state, b.state, p, file);
    InvRecovers(n, b.state);
    FreshWrites(u, n, dir, a, sys, p, file);
    KeptIs(u, n, dir, b, sys);
  }

  lemma AdmissibleFresh(m: ManifestState, e: ManifestEntry)
    requires Admissible(m, e)
    ensures FreshEntry(m, e) && Apply(m, e).Some?
  {
    hide Loggable, Apply, Tracked, EndsWith;
  }

  /** What the pending entry will make durable. */
  lemma PendingKeeps(u: Universe, n: nat, dir: Path, a: Point, sys: H.Sys) returns (sys': H.Sys)
    requires Kept(u, n, dir, a, sys) && a.state.phase.Writing?
    ensures Apply(a.state.mem, Entry(a.state)).Some? && H.Step(sys, sys')
    ensures Shows(n, dir, a.state.disk, Applied(a.state.mem, Entry(a.state)),
              a.flushed + FlushedBy(a.state.disk, Entry(a.state)), sys')
    ensures sys'.rewritten == sys.rewritten + RewrittenBy(a.state.disk, Entry(a.state))
  {
    hide Kept, Inv, UniverseOk, DiskIn, RecoverFile, Shows, Present, Clean, Admissible, Tracked, Offered,
      FreshEntry, Apply, SeenAt, H.Step;
    KeptParts(u, n, dir, a, sys);
    var e := Entry(a.state);
    AdmissibleFresh(a.state.mem, e);
    FreshIs(a.state.mem, e);
    var before, file :| PendingFrom(u, dir, a, e, before, file);
    ShowsIgnoresBack(n, dir, a.state.disk, before, PathOf(e), file, a.state.mem, a.flushed, sys);
    sys' := OfferedKeeps(u, n, dir, before, a.state.mem, a.flushed, sys, file, e, Applied(a.state.mem, e));
  }

  lemma ShowsIgnoresBack(n: nat, dir: Path, a: Disk, before: Disk, p: Path, file: bytes, m: ManifestState,
                         flushed: seq<H.Run>, sys: H.Sys)
    requires Shows(n, dir, a, m, flushed, sys) && a == before[p := file] && p !in Tracked(m)
    ensures Shows(n, dir, before, m, flushed, sys)
  {
    hide Shows, Tracked;
    ShowsIgnores(n, dir, a, before, m, flushed, sys);
  }

  lemma LogKept(u: Universe, n: nat, dir: Path, a: Point, b: Point, sys: H.Sys) returns (sys': H.Sys)
    requires Kept(u, n, dir, a, sys) && LogStep(a, b)
    ensures Kept(u, n, dir, b, sys') && H.Step(sys, sys')
  {
    hide Kept, Inv, UniverseOk, DiskIn, RecoverFile, Shows, Pending, Present, Clean, Admissible, Tracked, Apply,
      EntryFrame, Overwrite, FlushedBy, RewrittenBy, H.Step;
    KeptParts(u, n, dir, a, sys);
    sys' := PendingKeeps(u, n, dir, a, sys);
    AppendKeeps(n, a.state, b.state);
    InvRecovers(n, b.state);
    KeptIs(u, n, dir, b, sys');
  }

  lemma DieKept(u: Universe, n: nat, dir: Path, a: Point, b: Point, sys: H.Sys, cut: nat) returns (sys': H.Sys)
    requires Kept(u, n, dir, a, sys) && DieStep(a, b, cut)
    ensures Kept(u, n, dir, b, sys') && (sys' == sys || H.Step(sys, sys'))
  {
    hide Kept, Inv, UniverseOk, DiskIn, RecoverFile, Shows, Pending, Present, Clean, Admissible, Tracked, Apply,
      EntryFrame, FlushedBy, RewrittenBy, H.Step;
    KeptParts(u, n, dir, a, sys);
    CrashKeeps(n, a.state, b.state, cut);
    InvRecovers(n, b.state);
    if WholeFrame(a.state, cut) {
      sys' := PendingKeeps(u, n, dir, a, sys);
    } else {
      sys' := sys;
      assert a.flushed + [] == a.flushed;
    }
    KeptIs(u, n, dir, b, sys');
  }

  lemma DiskWithout(u: Universe, disk: Disk, gone: set<Path>)
    requires DiskIn(u, disk)
    ensures DiskIn(u, disk - gone)
  {
    hide Opens, RunIn;
  }

  lemma GoneKept(u: Universe, n: nat, dir: Path, a: Point, b: Point, sys: H.Sys, gone: set<Path>)
    requires Kept(u, n, dir, a, sys) && Inv(n, b.state) && Uncounted(a, b) && b.state.log == a.state.log
    requires b.state.disk == a.state.disk - gone && b.state.phase.Idle?
    requires RecoverFile(a.state.log, n).Some? && gone !! Tracked(Durable(n, a.state))
    ensures Kept(u, n, dir, b, sys)
  {
    hide Kept, Inv, UniverseOk, DiskIn, RecoverFile, Shows, Pending, Present, Tracked;
    KeptParts(u, n, dir, a, sys);
    DiskWithout(u, a.state.disk, gone);
    ShowsIgnores(n, dir, a.state.disk, b.state.disk, Durable(n, a.state), a.flushed, sys);
    KeptIs(u, n, dir, b, sys);
  }

  lemma DeletingUntracked(n: nat, s: State)
    requires Inv(n, s) && s.phase.Deleting?
    ensures RecoverFile(s.log, n).Some? && s.phase.paths !! Tracked(Durable(n, s))
  {
    hide RecoverFile, Present, Clean, Tracked;
  }

  lemma QuietKept(u: Universe, n: nat, dir: Path, a: Point, b: Point, sys: H.Sys)
    requires Kept(u, n, dir, a, sys) && QuietStep(n, a, b)
    ensures Kept(u, n, dir, b, sys)
  {
    hide Kept, Inv, UniverseOk, DiskIn, RecoverFile, Shows, Pending, Present, Clean, Admissible, Tracked, Apply, Orphans,
      Retired;
    KeptParts(u, n, dir, a, sys);
    if AbortStep(a.state, b.state) {
      AbortKeeps(n, a.state, b.state);
      KeptIs(u, n, dir, b, sys);
    } else if MirrorStep(a.state, b.state) {
      MirrorKeeps(n, a.state, b.state);
      KeptIs(u, n, dir, b, sys);
    } else if RecoverStep(n, a.state, b.state) {
      RecoverKeeps(n, a.state, b.state);
      InvRecovers(n, b.state);
      KeptIs(u, n, dir, b, sys);
    } else if gone :| DeleteStep(a.state, b.state, gone) {
      DeletingUntracked(n, a.state);
      DeleteKeeps(n, a.state, b.state, gone);
      GoneKept(u, n, dir, a, b, sys, gone);
    } else {
      var gone :| SweepStep(a.state, b.state, gone);
      OrphansUntracked(a.state, a.state.mem);
      SweepKeeps(n, a.state, b.state, gone);
      GoneKept(u, n, dir, a, b, sys, gone);
    }
  }

  /** Every step of the store keeps what is kept, and is a step of the history or none. */
  lemma StepKept(u: Universe, n: nat, dir: Path, a: Point, b: Point, sys: H.Sys) returns (sys': H.Sys)
    requires Kept(u, n, dir, a, sys) && StoreStep(u, n, dir, a, b) && OutputsFresh(dir, a.state)
    ensures Kept(u, n, dir, b, sys') && (sys' == sys || H.Step(sys, sys'))
  {
    hide Kept, BeginStep, LeaveStep, TemporaryStep, LogStep, DieStep, QuietStep, OutputsFresh, H.Step;
    sys' := sys;
    if file, e :| BeginStep(u, dir, a, b, file, e) {
      BeginKept(u, n, dir, a, b, sys, file, e);
    } else if file, e :| LeaveStep(u, dir, a, b, file, e) {
      LeaveKept(u, n, dir, a, b, sys, file, e);
    } else if p, file :| TemporaryStep(u, a, b, p, file) {
      TemporaryKept(u, n, dir, a, b, sys, p, file);
    } else if LogStep(a, b) {
      sys' := LogKept(u, n, dir, a, b, sys);
    } else if cut :| DieStep(a, b, cut) {
      sys' := DieKept(u, n, dir, a, b, sys, cut);
    } else {
      QuietKept(u, n, dir, a, b, sys);
    }
  }

  lemma StartShown(n: nat)
    requires 0 < n <= MAX_LEVELS
    ensures Shown(map[], EmptyState(n), H.EmptySys(n))
  {
    var sys := H.EmptySys(n);
    var m := EmptyState(n);
    forall q ensures q !in Tracked(m) {
      TrackedAt(m, q);
    }
    forall l | 0 <= l < n ensures sys.levels[l] == SeenLevel(map[], m.levels[l]) {
    }
    hide Recency.FromFlush, Tracked, RunViewable, SeenAt;
  }

  lemma StartKept(u: Universe, n: nat, dir: Path, p: Point) returns (sys: H.Sys)
    requires UniverseOk(u) && IsStart(n, p)
    ensures Kept(u, n, dir, p, sys) && sys == H.EmptySys(n)
  {
    hide UniverseOk, RecoverFile, Inv, Shown, H.Reach, NamesFit, DiskIn, Kept, Shows, Pending;
    StartInv(n);
    StartDurable(n);
    StartShown(n);
    H.ReachStart(n);
    sys := H.EmptySys(n);
    NothingIn(u);
    NoNames(n, dir);
    ShowsIs(n, dir, map[], EmptyState(n), [], sys);
    KeptIs(u, n, dir, p, sys);
  }

  lemma NothingIn(u: Universe)
    ensures DiskIn(u, map[])
  {
    hide RunIn, Opens;
  }

  lemma NoNames(n: nat, dir: Path)
    requires n <= MAX_LEVELS
    ensures NamesFit(dir, map[], EmptyState(n))
  {
  }

  lemma StartDurable(n: nat)
    requires n <= MAX_LEVELS
    ensures RecoverFile(Start(n).log, n).Some? && Durable(n, Start(n)) == EmptyState(n)
  {
    HeaderIsClean(n);
    CleanDurable(n, Start(n), EmptyState(n));
  }

  // ── Every run keeps it ─────────────────────────────────────────────────────

  ghost predicate FreshBefore(dir: Path, points: seq<Point>, i: nat) {
    forall j, p :: j < i && IsAt(points, j, p) ==> OutputsFresh(dir, p.state)
  }

  /** Every run of the store, whatever it interleaves, is a history of what lookups see, as
      long as no output of the scheduler's jobs has the name of a tracked run. */
  lemma {:induction false} RunIsHistory(u: Universe, n: nat, dir: Path, points: seq<Point>, i: nat, p: Point)
    returns (sys: H.Sys)
    requires StoreRun(u, n, dir, points) && IsAt(points, i, p) && FreshBefore(dir, points, i)
    ensures Kept(u, n, dir, p, sys)
  {
    hide Kept, StoreStep, OutputsFresh, H.Step, UniverseOk, IsStart;
    if i == 0 {
      sys := StartKept(u, n, dir, p);
    } else {
      var a := points[i - 1];
      assert IsAt(points, i - 1, a);
      var before := RunIsHistory(u, n, dir, points, i - 1, a);
      assert StoreStep(u, n, dir, points[i - 1], points[i]);
      sys := StepKept(u, n, dir, a, p, before);
    }
  }

  // ── Flushes of one signature set ───────────────────────────────────────────

  lemma HistoryIsSound(sigs: set<Signature>, n: nat, sys: H.Sys)
    requires H.Reach(n, sys) && Recency.Uniform(sigs, sys.flushed)
    ensures Recency.Sound(sigs, sys)
  {
    hide Recency.Sound, H.Step, H.SigsOf;
    var states :| H.IsHistory(n, states) && states[|states| - 1] == sys;
    Recency.HistorySound(sigs, n, states, |states| - 1);
  }

  lemma SoundLevel(sigs: set<Signature>, sys: H.Sys, l: nat)
    requires Recency.Sound(sigs, sys) && l < |sys.levels|
    ensures Recency.Ascends(sys.levels[l]) && forall r :: r in sys.levels[l] ==> H.SigsOf(r) == sigs
  {
    hide Recency.SameView, Recency.FromFlush, Recency.Ascends, H.SigsOf;
    forall r | r in sys.levels[l] ensures H.SigsOf(r) == sigs {
      assert r in H.All(sys.levels);
    }
  }

  /** When one run of a level has the signature, all have. */
  lemma AllRunsHave(sigs: set<Signature>, sys: H.Sys, disk: Disk, m: ManifestState, l: nat, sig: Signature, job: Job)
    requires Recency.Sound(sigs, sys) && Shown(disk, m, sys) && l < |m.levels| && JobFor(disk, m.levels[l], l, sig, job)
    ensures forall k :: 0 <= k < |m.levels[l]| ==> RunHas(disk, m.levels[l][k], sig)
  {
    var runs := m.levels[l];
    hide Recency.Sound, Shown, JobFor, RunViewable, RunHas, SeenAt, H.SigsOf, ArchCount, UniquePaths, Tracked, Recency.Ascends;
    ShownParts(disk, m, sys);
    LevelParts(disk, m, sys, l);
    SoundLevel(sigs, sys, l);
    JobEnough(disk, runs, l, sig, job);
    var i := CountNeedsRun(disk, runs, sig);
    forall k | 0 <= k < |runs| ensures RunHas(disk, runs[k], sig) {
      SigAtSeen(disk, runs[i], sig);
      SigAtSeen(disk, runs[k], sig);
      assert sys.levels[l][i] in sys.levels[l] && sys.levels[l][k] in sys.levels[l];
    }
  }

  lemma FitsAt(dir: Path, disk: Disk, m: ManifestState, l: nat, i: nat)
    requires NamesFit(dir, disk, m) && l < |m.levels| && i < |m.levels[l]|
    ensures NameFits(dir, disk, m.levels[l][i])
  {
    hide NameFits;
  }

  lemma FitsRange(dir: Path, disk: Disk, r: RunMeta)
    requires NameFits(dir, disk, r)
    ensures SeenAt(disk, r.path).lo == r.lo && SeenAt(disk, r.path).hi == r.hi && OutputNames.Named(dir, r)
  {
    hide SeenAt, OutputNames.Named;
  }

  ghost function LevelMetas(m: ManifestState, l: nat): set<RunMeta>
    requires l < |m.levels|
  {
    set r: RunMeta | r in m.levels[l]
  }

  /** The inputs of the job span the range of its output. */
  lemma JobSpans(dir: Path, disk: Disk, m: ManifestState, l: nat, sig: Signature, job: Job, readers: seq<Reader>, lo: u64, hi: u64)
    requires l < |m.levels| && AllViewable(disk, m.levels[l]) && NamesFit(dir, disk, m)
    requires JobFor(disk, m.levels[l], l, sig, job) && OpenedAs(disk, job.paths, readers) && IsSpan(readers, lo, hi)
    requires forall k :: 0 <= k < |m.levels[l]| ==> RunHas(disk, m.levels[l][k], sig)
    ensures SpanOf(LevelMetas(m, l), lo, hi)
  {
    hide JobFor, AllViewable, NamesFit, NameFits, OpenedAs, RunHas, RunWf, Plain, SeenAt, Seen;
    var runs := m.levels[l];
    forall r | r in LevelMetas(m, l) ensures lo <= r.lo && r.hi <= hi {
      var k :| 0 <= k < |runs| && runs[k] == r;
      var i := JobReaderOf(disk, runs, l, sig, job, readers, k);
      SeenHi(readers[i]);
      FitsAt(dir, disk, m, l, k);
      FitsRange(dir, disk, r);
    }
    var i :| 0 <= i < |readers| && readers[i].lo == lo;
    var j :| 0 <= j < |readers| && readers[j].hi == hi;
    var a := JobReaders(disk, runs, l, sig, job, readers, i);
    var b := JobReaders(disk, runs, l, sig, job, readers, j);
    SeenHi(readers[i]);
    SeenHi(readers[j]);
    FitsAt(dir, disk, m, l, a);
    FitsAt(dir, disk, m, l, b);
    FitsRange(dir, disk, runs[a]);
    FitsRange(dir, disk, runs[b]);
    assert runs[a] in LevelMetas(m, l) && runs[b] in LevelMetas(m, l);
  }

  ghost function AllMetas(m: ManifestState): set<RunMeta> {
    set l, i | 0 <= l < |m.levels| && 0 <= i < |m.levels[l]| :: m.levels[l][i]
  }

  /** Of all tracked runs the hi differ. */
  lemma MetasApart(dir: Path, disk: Disk, m: ManifestState, sys: H.Sys, a: RunMeta, b: RunMeta)
    requires Shown(disk, m, sys) && NamesFit(dir, disk, m) && a in AllMetas(m) && b in AllMetas(m) && a.hi == b.hi
    ensures a == b
  {
    hide NamesFit, NameFits, SeenAt, RunViewable, Tracked, Recency.FromFlush, PathsOf;
    var l, i :| 0 <= l < |m.levels| && 0 <= i < |m.levels[l]| && m.levels[l][i] == a;
    var k, j :| 0 <= k < |m.levels| && 0 <= j < |m.levels[k]| && m.levels[k][j] == b;
    FitsAt(dir, disk, m, l, i);
    FitsAt(dir, disk, m, k, j);
    FitsRange(dir, disk, a);
    FitsRange(dir, disk, b);
    TrackedIn(m, l, i);
    TrackedIn(m, k, j);
    assert a.path == b.path;
    PathIn(m.levels[l], i);
    PathIn(m.levels[k], j);
    OneLevel(m, a.path, l, k);
  }

  lemma PathIn(runs: seq<SortedRunMeta>, i: nat)
    requires i < |runs|
    ensures runs[i].path in PathsOf(runs)
  {
    assert runs[i] in runs;
  }

  /** In a level that ascends, runs follow each other. */
  lemma MetasAscend(dir: Path, disk: Disk, m: ManifestState, sys: H.Sys, l: nat, i: nat, j: nat)
    requires Shown(disk, m, sys) && NamesFit(dir, disk, m) && l < |m.levels| && i < j < |m.levels[l]|
    requires Recency.Ascends(SeenLevel(disk, m.levels[l]))
    ensures After(m.levels[l][j], m.levels[l][i])
  {
    hide NamesFit, NameFits, SeenAt, Shown;
    FitsAt(dir, disk, m, l, i);
    FitsAt(dir, disk, m, l, j);
    FitsRange(dir, disk, m.levels[l][i]);
    FitsRange(dir, disk, m.levels[l][j]);
    assert H.Newer(SeenLevel(disk, m.levels[l])[j], SeenLevel(disk, m.levels[l])[i]);
  }

  lemma LevelInSequence(dir: Path, disk: Disk, m: ManifestState, sys: H.Sys, l: nat)
    requires Shown(disk, m, sys) && NamesFit(dir, disk, m) && l < |m.levels| && Recency.Ascends(SeenLevel(disk, LevelOf(m.levels, l)))
    ensures forall r, q :: r in LevelOf(m.levels, l) && q in LevelOf(m.levels, l) && r != q ==> After(r, q) || After(q, r)
  {
    hide NamesFit, SeenAt, Shown, Recency.Ascends, After;
    var runs := m.levels[l];
    forall r, q | r in runs && q in runs && r != q ensures After(r, q) || After(q, r) {
      var i :| 0 <= i < |runs| && runs[i] == r;
      var j :| 0 <= j < |runs| && runs[j] == q;
      if i < j { MetasAscend(dir, disk, m, sys, l, i, j); } else { MetasAscend(dir, disk, m, sys, l, j, i); }
    }
  }

  lemma MetaOfPath(m: ManifestState, p: Path)
    ensures p in Tracked(m) ==> exists r :: r in AllMetas(m) && r.path == p
  {
    hide Tracked;
    if p in Tracked(m) {
      var l, i := TrackedMeta(m, p);
      assert m.levels[l][i] in AllMetas(m);
    }
  }

  lemma SpanNotTaken(dir: Path, disk: Disk, m: ManifestState, sys: H.Sys, l: nat, lo: u64, hi: u64)
    requires Shown(disk, m, sys) && NamesFit(dir, disk, m) && l < |m.levels| && |m.levels[l]| >= 3
    requires Recency.Ascends(SeenLevel(disk, m.levels[l])) && SpanOf(LevelMetas(m, l), lo, hi)
    ensures OutputPath(dir, lo, hi) !in Tracked(m)
  {
    hide NamesFit, NameFits, SeenAt, Shown, Recency.Ascends, After, Tracked, OutputPath, FlushPath, OutputNames.Named, SpanOf;
    var runs := m.levels[l];
    var tracked: set<RunMeta> := AllMetas(m);
    var inputs := LevelMetas(m, l);
    LevelInSequence(dir, disk, m, sys, l);
    MetasAscend(dir, disk, m, sys, l, 0, 1);
    MetasAscend(dir, disk, m, sys, l, 1, 2);
    forall a, b | a in tracked && b in tracked && a.hi == b.hi ensures a == b {
      MetasApart(dir, disk, m, sys, a, b);
    }
    forall r | r in tracked ensures OutputNames.Named(dir, r) {
      var k, i :| 0 <= k < |m.levels| && 0 <= i < |m.levels[k]| && m.levels[k][i] == r;
      FitsAt(dir, disk, m, k, i);
      FitsRange(dir, disk, r);
    }
    forall r | r in inputs ensures r in tracked && r.lo <= r.hi {
      var i :| 0 <= i < |runs| && runs[i] == r;
      assert m.levels[l][i] == r;
    }
    assert runs[0] in inputs && runs[1] in inputs && runs[2] in inputs;
    SequenceHasNoSpan(dir, tracked, inputs, lo, hi, runs[0], runs[1], runs[2]);
    MetaOfPath(m, OutputPath(dir, lo, hi));
  }

  lemma UniformOutput(u: Universe, n: nat, dir: Path, disk: Disk, m: ManifestState, flushed: seq<H.Run>, sys: H.Sys,
                      sigs: set<Signature>, l: nat, job: Job, o: Output, out: Reader)
    requires UniverseOk(u) && DiskIn(u, disk) && Shows(n, dir, disk, m, flushed, sys) && Recency.Uniform(sigs, flushed)
    requires NextJob(disk, m.levels, l, job) && OutputIs(disk, job, dir, o, out)
    ensures o.path !in Tracked(m)
  {
    hide UniverseOk, DiskIn, Shows, JobFor, JobAt, Shown, NamesFit, H.Reach, Recency.Uniform, Recency.Sound, Tracked, Opens,
      IsSpan, IsCompaction, OpenedAs, Describes, OutputPath, RunHas, JobSound, NextJob, AllViewable, HisApart,
      DistinctPaths, Recency.Ascends, SpanOf;
    ShowsParts(n, dir, disk, m, flushed, sys);
    NextParts(disk, m.levels, l, job);
    var sig := PickedJob(u, disk, m.levels[l], l, job);
    HistoryIsSound(sigs, n, sys);
    AllRunsHave(sigs, sys, disk, m, l, sig, job);
    LevelParts(disk, m, sys, l);
    ShownParts(disk, m, sys);
    SoundLevel(sigs, sys, l);
    var readers, table :| CompactedFrom(disk, job, readers, table, out);
    JobSpans(dir, disk, m, l, sig, job, readers, out.lo, out.hi);
    JobLevel(disk, m.levels[l], l, sig, job);
    SpanNotTaken(dir, disk, m, sys, l, out.lo, out.hi);
  }

  lemma JobLevel(disk: Disk, runs: seq<SortedRunMeta>, l: nat, sig: Signature, job: Job)
    requires JobFor(disk, runs, l, sig, job)
    ensures |runs| >= COMPACTION_TRIGGER
  {
    hide HavingPath, HavingSig, SigLe, ArchCount;
  }

  /** Where all flushes carry the same signatures, the scheduler's outputs have fresh
      names. */
  lemma UniformFresh(u: Universe, n: nat, dir: Path, p: Point, sys: H.Sys, sigs: set<Signature>)
    requires Kept(u, n, dir, p, sys) && Recency.Uniform(sigs, p.flushed)
    ensures OutputsFresh(dir, p.state)
  {
    hide Kept, Inv, UniverseOk, DiskIn, RecoverFile, Shows, Pending, Present, Tracked, NextJob, OutputIs, Recency.Uniform;
    if p.state.phase.Idle? {
      KeptParts(u, n, dir, p, sys);
      forall l: nat, job, o, out | NextJob(p.state.disk, p.state.mem.levels, l, job) && OutputIs(p.state.disk, job, dir, o, out)
        ensures o.path !in Tracked(p.state.mem)
      {
        UniformOutput(u, n, dir, p.state.disk, p.state.mem, p.flushed, sys, sigs, l, job, o, out);
      }
    }
  }

  lemma FlushedGrows(u: Universe, n: nat, dir: Path, a: Point, b: Point)
    requires StoreStep(u, n, dir, a, b)
    ensures forall r :: r in a.flushed ==> r in b.flushed
  {
    hide UniverseOk, Offered, EntryFrame, FlushedBy, RewrittenBy, Overwrite, Retired, Orphans, Loggable, Apply, RunIn, Opens, RecoverFile;
    if cut :| DieStep(a, b, cut) {
    }
  }

  /** Every run of the store whose flushes all carry the same signatures is a history. */
  lemma {:induction false} UniformIsHistory(u: Universe, n: nat, dir: Path, points: seq<Point>, i: nat, p: Point,
                                           sigs: set<Signature>) returns (sys: H.Sys)
    requires StoreRun(u, n, dir, points) && IsAt(points, i, p) && Recency.Uniform(sigs, p.flushed)
    ensures Kept(u, n, dir, p, sys)
  {
    hide Kept, StoreStep, OutputsFresh, H.Step, UniverseOk, H.SigsOf, IsStart;
    if i == 0 {
      sys := StartKept(u, n, dir, p);
    } else {
      var a := points[i - 1];
      assert StoreStep(u, n, dir, points[i - 1], points[i]);
      FlushedGrows(u, n, dir, a, p);
      var before := UniformIsHistory(u, n, dir, points, i - 1, a, sigs);
      UniformFresh(u, n, dir, a, before, sigs);
      sys := StepKept(u, n, dir, a, p, before);
    }
  }

  // ── What lookups find ──────────────────────────────────────────────────────

  /** What lookups see of the runs a manifest tracks. */
  ghost function SeenRuns(disk: Disk, m: ManifestState): set<H.Run> {
    set p | p in Tracked(m) :: SeenAt(disk, p)
  }

  lemma SeenRunsAre(disk: Disk, m: ManifestState, sys: H.Sys)
    requires Shown(disk, m, sys)
    ensures SeenRuns(disk, m) == H.All(sys.levels)
  {
    hide SeenAt, RunViewable, Tracked, Recency.FromFlush, UniquePaths;
    forall x ensures x in SeenRuns(disk, m) <==> x in H.All(sys.levels) {
      if x in SeenRuns(disk, m) {
        var p :| p in Tracked(m) && SeenAt(disk, p) == x;
        var l, i := TrackedMeta(m, p);
        assert sys.levels[l][i] == x && x in sys.levels[l];
      }
      if x in H.All(sys.levels) {
        var l :| 0 <= l < |sys.levels| && x in sys.levels[l];
        var i :| 0 <= i < |sys.levels[l]| && sys.levels[l][i] == x;
        TrackedIn(m, l, i);
      }
    }
  }

  /** At every point of every run of the store, with any crashes and recoveries, recovery
      would find a manifest whose runs are all there, and lookup over them is lookup over
      the flushes whose entries are in the log whole; as long as all flushes carry the same
      signatures. In a store at rest that manifest is the one in memory. */
  lemma RunKeepsView(u: Universe, n: nat, dir: Path, points: seq<Point>, p: Point, sigs: set<Signature>, e: u64, img: Image)
    requires StoreRun(u, n, dir, points) && p in points && Recency.Uniform(sigs, p.flushed)
    ensures RecoverFile(p.state.log, n).Some?
    ensures
      var s, m := p.state, Durable(n, p.state);
      && (forall q :: q in Tracked(m) ==> RunViewable(s.disk, q)) && (s.phase.Idle? ==> s.mem == m)
      && (H.Shows(SeenRuns(s.disk, m), e, img) <==> H.Shows(H.SetOf(p.flushed), e, img))
  {
    hide StoreRun, Kept, Inv, Shows, RecoverFile, Shown, H.Shows, H.Reach, Recency.Uniform, Tracked, RunViewable, SeenRuns,
      NamesFit, Pending, Present, DiskIn, UniverseOk;
    var i :| 0 <= i < |points| && points[i] == p;
    var sys := UniformIsHistory(u, n, dir, points, i, p, sigs);
    var s := p.state;
    KeptParts(u, n, dir, p, sys);
    var m := Durable(n, s);
    ShowsParts(n, dir, s.disk, m, p.flushed, sys);
    SeenRunsAre(s.disk, m, sys);
    ReachKeepsView(sigs, n, sys, e, img);
  }

  lemma ReachKeepsView(sigs: set<Signature>, n: nat, sys: H.Sys, e: u64, img: Image)
    requires H.Reach(n, sys) && Recency.Uniform(sigs, sys.flushed)
    ensures H.Shows(H.All(sys.levels), e, img) <==> H.Shows(H.SetOf(sys.flushed), e, img)
  {
    hide H.Step, H.Shows, H.All, H.SetOf, H.SigsOf;
    var states :| H.IsHistory(n, states) && states[|states| - 1] == sys;
    Recency.HistoryKeepsView(sigs, n, states, |states| - 1, e, img);
  }

  lemma KeptBound(u: Universe, n: nat, dir: Path, p: Point, sys: H.Sys)
    requires Kept(u, n, dir, p, sys)
    ensures n > 0 && p.rewritten <= H.Rows(p.flushed) * (n - 1)
  {
    hide Kept, Inv, Shows, RecoverFile, Shown, H.Rows, H.Step, NamesFit, Pending, Present, DiskIn, UniverseOk;
    KeptParts(u, n, dir, p, sys);
    ShowsParts(n, dir, p.state.disk, Durable(n, p.state), p.flushed, sys);
    var states :| H.IsHistory(n, states) && states[|states| - 1] == sys;
    H.RewritingBound(n, states, |states| - 1);
  }

  /** Committed compactions have written at most n - 1 rows for each row flushed, at every
      point of every run, whatever the signatures, as long as no output has the name of a
      tracked run. */
  lemma RunRewritingBound(u: Universe, n: nat, dir: Path, points: seq<Point>, i: nat, p: Point)
    requires StoreRun(u, n, dir, points) && IsAt(points, i, p) && FreshBefore(dir, points, i)
    ensures p.rewritten <= H.Rows(p.flushed) * (n - 1)
  {
    hide StoreRun, Kept, H.Rows, FreshBefore;
    var sys := RunIsHistory(u, n, dir, points, i, p);
    KeptBound(u, n, dir, p, sys);
  }

  /** For flushes of one signature set without that condition. */
  lemma UniformRewritingBound(u: Universe, n: nat, dir: Path, points: seq<Point>, p: Point, sigs: set<Signature>)
    requires StoreRun(u, n, dir, points) && p in points && Recency.Uniform(sigs, p.flushed)
    ensures p.rewritten <= H.Rows(p.flushed) * (n - 1)
  {
    hide StoreRun, Kept, H.Rows, Recency.Uniform;
    var i :| 0 <= i < |points| && points[i] == p;
    var sys := UniformIsHistory(u, n, dir, points, i, p, sigs);
    KeptBound(u, n, dir, p, sys);
  }

  // ── What the methods ensure ────────────────────────────────────────────────

  predicate Joins(points: seq<Point>, a: Point, b: Point) { |points| > 0 && points[0] == a && points[|points| - 1] == b }

  /** Steps lead from one point to the other. */
  ghost predicate LeadsTo(u: Universe, n: nat, dir: Path, a: Point, b: Point) {
    exists points :: Joins(points, a, b) && AreSteps(u, n, dir, points)
  }

  lemma NoStep(u: Universe, n: nat, dir: Path, a: Point)
    ensures LeadsTo(u, n, dir, a, a)
  {
    hide StoreStep;
    assert Joins([a], a, a) && AreSteps(u, n, dir, [a]);
  }

  lemma OneStep(u: Universe, n: nat, dir: Path, a: Point, b: Point)
    requires StoreStep(u, n, dir, a, b)
    ensures LeadsTo(u, n, dir, a, b)
  {
    hide StoreStep;
    assert Joins([a, b], a, b) && AreSteps(u, n, dir, [a, b]);
  }

  lemma LeadsOn(u: Universe, n: nat, dir: Path, a: Point, b: Point, c: Point)
    requires LeadsTo(u, n, dir, a, b) && LeadsTo(u, n, dir, b, c)
    ensures LeadsTo(u, n, dir, a, c)
  {
    hide StoreStep;
    var s :| Joins(s, a, b) && AreSteps(u, n, dir, s);
    var t :| Joins(t, b, c) && AreSteps(u, n, dir, t);
    var r := s + t[1..];
    forall i | 0 <= i < |r| - 1 ensures StoreStep(u, n, dir, r[i], r[i + 1]) {
      if i < |s| - 1 {
        assert r[i] == s[i] && r[i + 1] == s[i + 1];
      } else {
        assert r[i] == t[i - (|s| - 1)] && r[i + 1] == t[i + 1 - (|s| - 1)];
      }
    }
    assert Joins(r, a, c) && AreSteps(u, n, dir, r);
  }

  lemma TraceBegins(u: Universe, n: nat, dir: Path, a: Point, p: Point, file: bytes, e: ManifestEntry)
    requires a.state.phase.Idle? && Offered(u, dir, a.state.disk, a.state.mem, a.flushed, file, e)
    requires NewPath(e).Some? && Loggable(e) && Apply(a.state.mem, e).Some?
    requires IsAt(CommitTrace(a.state, e, file), 1, p.state) && Uncounted(a, p)
    ensures StoreStep(u, n, dir, a, p)
  {
    hide Offered, Loggable, Apply, EntryFrame, Overwrite, Retired, LogStep, QuietStep, LeaveStep, TemporaryStep, DieStep;
    assert BeginStep(u, dir, a, p, file, e);
  }

  lemma TraceLogs(u: Universe, n: nat, dir: Path, start: State, p: Point, q: Point, file: bytes, e: ManifestEntry)
    requires NewPath(e).Some? && Apply(start.mem, e).Some? && IsAt(CommitTrace(start, e, file), 1, p.state)
    requires IsAt(CommitTrace(start, e, file), 2, q.state) && Counted(p, q, e)
    ensures StoreStep(u, n, dir, p, q)
  {
    hide Apply, EntryFrame, Overwrite, Retired, Counted, BeginStep, QuietStep, LeaveStep, TemporaryStep, DieStep;
    assert LogStep(p, q);
  }

  lemma TraceEnds(u: Universe, n: nat, dir: Path, start: State, q: Point, r: Point, b: Point, file: bytes, e: ManifestEntry)
    requires NewPath(e).Some? && Apply(start.mem, e).Some? && IsAt(CommitTrace(start, e, file), 2, q.state)
    requires IsAt(CommitTrace(start, e, file), 3, r.state) && Uncounted(q, r)
    requires IsAt(CommitTrace(start, e, file), 4, b.state) && Uncounted(r, b)
    ensures StoreStep(u, n, dir, q, r) && StoreStep(u, n, dir, r, b)
  {
    hide Apply, EntryFrame, Overwrite, Retired, BeginStep, LogStep, LeaveStep, TemporaryStep, DieStep;
    assert MirrorStep(q.state, r.state) && QuietStep(n, q, r);
    assert DeleteStep(r.state, b.state, Retired(e)) && QuietStep(n, r, b);
    hide QuietStep;
  }

  /** The states an operation goes through are steps. */
  lemma TraceLeads(u: Universe, n: nat, dir: Path, a: Point, b: Point, file: bytes, e: ManifestEntry)
    requires a.state.phase.Idle? && Offered(u, dir, a.state.disk, a.state.mem, a.flushed, file, e)
    requires NewPath(e).Some? && Loggable(e) && Apply(a.state.mem, e).Some? && IsAt(CommitTrace(a.state, e, file), 4, b.state)
    requires b.flushed == a.flushed + FlushedBy(a.state.disk[PathOf(e) := file], e)
    requires b.rewritten == a.rewritten + RewrittenBy(a.state.disk[PathOf(e) := file], e)
    ensures LeadsTo(u, n, dir, a, b)
  {
    hide Offered, Loggable, Apply, EntryFrame, Overwrite, Retired, FlushedBy, RewrittenBy, StoreStep;
    var t := CommitTrace(a.state, e, file);
    var p := Point(t[1], a.flushed, a.rewritten);
    var q, r := Point(t[2], b.flushed, b.rewritten), Point(t[3], b.flushed, b.rewritten);
    TraceBegins(u, n, dir, a, p, file, e);
    TraceLogs(u, n, dir, a.state, p, q, file, e);
    TraceEnds(u, n, dir, a.state, q, r, b, file, e);
    assert Joins([a, p, q, r, b], a, b) && AreSteps(u, n, dir, [a, p, q, r, b]);
  }

  /** Every commit that the scheduler's next job may get fits a frame. */
  ghost predicate CommitsFit(s: State, dir: Path) {
    forall l, job, o, out :: NextJob(s.disk, s.mem.levels, l, job) && OutputIs(s.disk, job, dir, o, out) ==> Loggable(CommitOf(job, o))
  }

  ghost predicate AllFit(states: seq<State>, dir: Path) {
    forall i, s :: IsAt(states, i, s) && i < |states| - 1 ==> CommitsFit(s, dir)
  }

  /** What `CompactOne` ensures when it has compacted, if the commit fits a frame: steps
      that count the rows of the output, and no flush. */
  lemma CompactedLeads(u: Universe, n: nat, dir: Path, a: Point, after: State) returns (b: Point)
    requires a.state.phase.Idle? && Advances(a.state, after, dir) && CommitsFit(a.state, dir)
    ensures b.state == after && after.phase.Idle? && b.flushed == a.flushed && LeadsTo(u, n, dir, a, b)
  {
    hide NextJob, JobRefused, OutputIs, Executed, Loggable, Apply, FlushOffered, EntryFrame, Overwrite, LeadsTo, SeenAt, Retired;
    var l: nat, job :| Advanced(a.state, after, l, job, dir);
    var trace :| ExecutedAs(a.state, after, job, dir, trace);
    var o, out :| OutputIs(a.state.disk, job, dir, o, out) && ExecutedTraced(a.state, after, job, o, trace);
    var e := CommitOf(job, o);
    assert OutputFits(dir, a.state.disk, a.state.mem, o.file, e, l, job, o, out);
    assert a.flushed + [] == a.flushed;
    b := Point(after, a.flushed, a.rewritten + RewrittenBy(a.state.disk[PathOf(e) := o.file], e));
    TraceLeads(u, n, dir, a, b, o.file, e);
  }

  /** A flush as the flusher hands it to `RecordFlush`: in sequence, named by its range,
      with rows in every archetype and no signature twice. */
  ghost predicate Flushable(u: Universe, dir: Path, flushed: seq<H.Run>, path: Path, file: bytes) {
    exists r :: Opens(file, r) && RunIn(u, r) && Plain(r) && path == FlushPath(dir, r.lo, r.hi) && InSequence(flushed, Seen(r))
  }

  lemma FlushableFits(u: Universe, dir: Path, flushed: seq<H.Run>, path: Path, file: bytes, meta: RunMeta, r: Reader)
    requires Flushable(u, dir, flushed, path, file) && Opens(file, r) && FlushMeta(meta, path, file, r)
    ensures meta.Ok() && FlushFits(u, dir, flushed, file, meta, r)
  {
    hide Opens, RunIn, RunWf, Populated, DistinctSigs, Seen, InSequence, FlushPath, ArchetypeIds;
    var q :| Opens(file, q) && RunIn(u, q) && Plain(q) && path == FlushPath(dir, q.lo, q.hi) && InSequence(flushed, Seen(q));
    OpensUnique(file, r, q);
  }

  /** What `RecordFlush` ensures when it is done, if the entry fits a frame. */
  lemma RecordedLeads(u: Universe, n: nat, dir: Path, a: Point, b: Point, path: Path, file: bytes, hi: u64, trace: seq<State>)
    requires a.state.phase.Idle? && Flushed(a.state, b.state, path, file, hi, trace)
    requires Flushable(u, dir, a.flushed, path, file) && b.flushed == a.flushed + [SeenAt(a.state.disk[path := file], path)]
    requires b.rewritten == a.rewritten
    requires forall meta: SortedRunMeta, r :: Opens(file, r) && FlushMeta(meta, path, file, r) ==> Loggable(AddRunAndSequence(FLUSH_LEVEL, meta, hi))
    ensures LeadsTo(u, n, dir, a, b)
  {
    hide Opens, ArchetypeIds, Loggable, Apply, FlushFits, CommitTrace, EntryFrame, Overwrite, OutputOffered, SeenAt, Flushable;
    var meta, r :| Opens(file, r) && FlushMeta(meta, path, file, r) && FlushedAs(a.state, b.state, file, meta, hi, trace);
    FlushableFits(u, dir, a.flushed, path, file, meta, r);
    var recorded: SortedRunMeta := meta;
    assert FlushOffered(u, dir, a.flushed, file, AddRunAndSequence(FLUSH_LEVEL, recorded, hi));
    MetaPath(meta, path, file, r);
    TraceLeads(u, n, dir, a, b, file, AddRunAndSequence(FLUSH_LEVEL, recorded, hi));
  }

  lemma MetaPath(meta: RunMeta, path: Path, file: bytes, r: Reader)
    requires FlushMeta(meta, path, file, r)
    ensures meta.path == path
  {
    hide ArchetypeIds;
  }

  lemma LeftIsStep(u: Universe, n: nat, dir: Path, a: Point, b: Point, l: nat, job: Job, o: Output, out: Reader)
    requires a.state.phase.Idle? && LeftOf(a.state, b.state, dir, l, job, o, out) && Uncounted(a, b)
    ensures StoreStep(u, n, dir, a, b) && b.state.phase.Idle?
  {
    hide NextJob, OutputIs, FlushOffered, BeginStep, LogStep, QuietStep, TemporaryStep, DieStep, OutputPath, Opens;
    assert OutputFits(dir, a.state.disk, a.state.mem, o.file, CommitOf(job, o), l, job, o, out);
    OutputIsNamed(a.state.disk, job, dir, o, out);
    assert LeaveStep(u, dir, a, b, o.file, CommitOf(job, o));
  }

  /** What `CompactOne` ensures when it has stopped: nothing has happened, or one step. */
  lemma StoppedLeads(u: Universe, n: nat, dir: Path, a: Point, b: Point)
    requires a.state.phase.Idle? && LeftBehind(a.state, b.state, dir) && Uncounted(a, b)
    ensures LeadsTo(u, n, dir, a, b) && b.state.phase.Idle?
  {
    hide StoreStep, LeadsTo, LeftOf;
    if b.state == a.state {
      NoStep(u, n, dir, a);
    } else {
      var l: nat, job, o, out :| LeftOf(a.state, b.state, dir, l, job, o, out);
      LeftIsStep(u, n, dir, a, b, l, job, o, out);
      OneStep(u, n, dir, a, b);
    }
  }

  // ── The whole loop ─────────────────────────────────────────────────────────

  lemma {:induction false} TurnsLead(u: Universe, n: nat, dir: Path, a: Point, states: seq<State>, k: nat, s: State)
    returns (b: Point)
    requires a.state.phase.Idle? && Turns(a.state, states, dir) && IsAt(states, k, s) && AllFit(states, dir)
    ensures b.state == s && b.state.phase.Idle? && b.flushed == a.flushed && LeadsTo(u, n, dir, a, b)
  {
    hide Advances, CommitsFit, LeadsTo, TotalWeight;
    if k == 0 {
      NoStep(u, n, dir, a);
      b := a;
    } else {
      assert IsAt(states, k - 1, states[k - 1]);
      var before := TurnsLead(u, n, dir, a, states, k - 1, states[k - 1]);
      b := CompactedLeads(u, n, dir, before, s);
      LeadsOn(u, n, dir, a, before, b);
    }
  }

  /** What `CompactAll` ensures, settled or stuck, is a sequence of these steps, if the
      commits fit a frame. */
  lemma LoopLeads(u: Universe, n: nat, dir: Path, a: Point, states: seq<State>, last: State, after: State)
    returns (b: Point)
    requires a.state.phase.Idle? && Turns(a.state, states, dir) && AllFit(states, dir)
    requires IsAt(states, |states| - 1, last) && LeftBehind(last, after, dir)
    ensures b.state == after && b.state.phase.Idle? && b.flushed == a.flushed && LeadsTo(u, n, dir, a, b)
  {
    hide Turns, AllFit, LeadsTo, LeftBehind;
    var p := TurnsLead(u, n, dir, a, states, |states| - 1, last);
    b := Point(after, p.flushed, p.rewritten);
    StoppedLeads(u, n, dir, p, b);
    LeadsOn(u, n, dir, a, p, b);
  }

  /** What `CleanupOrphans` ensures. */
  lemma SweptLeads(u: Universe, n: nat, dir: Path, a: Point, b: Point)
    requires a.state.phase.Idle? && Uncounted(a, b)
    requires b.state == a.state.(disk := a.state.disk - Orphans(a.state.disk, a.state.mem))
    ensures LeadsTo(u, n, dir, a, b)
  {
    hide Orphans, BeginStep, LogStep, LeaveStep, TemporaryStep, DieStep, AbortStep, MirrorStep, RecoverStep, DeleteStep, LeadsTo;
    assert SweepStep(a.state, b.state, Orphans(a.state.disk, a.state.mem));
    OneStep(u, n, dir, a, b);
  }

  // ── Points a run of the store reaches ──────────────────────────────────────

  ghost predicate Reached(u: Universe, n: nat, dir: Path, p: Point) {
    UniverseOk(u) && exists a :: IsStart(n, a) && LeadsTo(u, n, dir, a, p)
  }

  /** What is reached is the last point of a run of the store. */
  lemma ReachedByRun(u: Universe, n: nat, dir: Path, p: Point) returns (points: seq<Point>)
    requires Reached(u, n, dir, p)
    ensures StoreRun(u, n, dir, points) && p in points
  {
    hide AreSteps, UniverseOk, IsStart;
    var a :| IsStart(n, a) && LeadsTo(u, n, dir, a, p);
    points :| Joins(points, a, p) && AreSteps(u, n, dir, points);
  }

  lemma ReachedOn(u: Universe, n: nat, dir: Path, a: Point, b: Point)
    requires Reached(u, n, dir, a) && LeadsTo(u, n, dir, a, b)
    ensures Reached(u, n, dir, b)
  {
    hide LeadsTo, UniverseOk, IsStart;
    var start :| IsStart(n, start) && LeadsTo(u, n, dir, start, a);
    LeadsOn(u, n, dir, start, a, b);
  }

  /** At rest, wherever a run of the store has got to, lookup over the runs the manifest
      tracks is lookup over the flushes. */
  lemma RestShows(u: Universe, n: nat, dir: Path, p: Point, sigs: set<Signature>, e: u64, img: Image)
    requires Reached(u, n, dir, p) && p.state.phase.Idle? && Recency.Uniform(sigs, p.flushed)
    ensures H.Shows(SeenRuns(p.state.disk, p.state.mem), e, img) <==> H.Shows(H.SetOf(p.flushed), e, img)
  {
    hide Reached, StoreRun, RecoverFile, H.Shows, Recency.Uniform, Tracked, RunViewable, SeenRuns;
    var points := ReachedByRun(u, n, dir, p);
    RunKeepsView(u, n, dir, points, p, sigs, e, img);
  }

  /** `CompactAll`, settled or stuck, changes what lookup finds for no entity, and has
      written at most n - 1 rows for each row ever flushed, together with all compactions
      before; where flushes carry the same signatures and the commits fit a frame. */
  lemma LoopKeepsLookups(u: Universe, n: nat, dir: Path, a: Point, states: seq<State>, last: State, after: State,
                         sigs: set<Signature>, e: u64, img: Image) returns (b: Point)
    requires Reached(u, n, dir, a) && a.state.phase.Idle? && Recency.Uniform(sigs, a.flushed)
    requires Turns(a.state, states, dir) && AllFit(states, dir)
    requires IsAt(states, |states| - 1, last) && LeftBehind(last, after, dir)
    ensures Reached(u, n, dir, b) && b.state == after && b.flushed == a.flushed
    ensures H.Shows(SeenRuns(a.state.disk, a.state.mem), e, img) <==> H.Shows(SeenRuns(after.disk, after.mem), e, img)
    ensures b.rewritten <= H.Rows(a.flushed) * (n - 1)
  {
    hide Reached, Turns, LeftBehind, AllFit, LeadsTo, H.Shows, Recency.Uniform, SeenRuns, StoreRun, H.Rows;
    b := LoopLeads(u, n, dir, a, states, last, after);
    ReachedOn(u, n, dir, a, b);
    RestShows(u, n, dir, a, sigs, e, img);
    RestShows(u, n, dir, b, sigs, e, img);
    var points := ReachedByRun(u, n, dir, b);
    UniformRewritingBound(u, n, dir, points, b, sigs);
  }
}
