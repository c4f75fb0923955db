/** Histories the store can have: from a state of a run of the store, a flush of a file
    and a compaction the scheduler picks lead to the next. */
module Realization {
  import opened Bytes
  import opened Order
  import opened Manifest
  import opened EntryCodec
  import opened ManifestLog
  import opened LogRecovery
  import opened Picker
  import opened Executor
  import opened Protocol
  import opened Engine
  import opened OutputNames
  import opened Schema
  import opened RunFormat
  import opened RunReader
  import opened RunFile
  import opened Merge
  import opened CompactionWriter
  import opened CompactRun
  import opened Archetypes
  import opened RunMeaning
  import opened CompactionMeaning
  import opened CompactionClosed
  import opened CompactionLoop
  import opened StoreView
  import opened StoreRuns
  import Recency
  import C = CompactionFile
  import H = RunHistory

  // ── Entries of small jobs ──────────────────────────────────────────────────

  predicate Ascii(s: bytes) { forall i :: 0 <= i < |s| ==> s[i] <= 0x7F }

  lemma {:induction false} AsciiIsUtf8(s: bytes)
    requires Ascii(s)
    ensures Utf8(s)
  {
    if |s| != 0 {
      AsciiIsUtf8(s[1..]);
    }
  }

  lemma {:induction false} Utf8Append(a: bytes, b: bytes)
    requires Utf8(a) && Utf8(b)
    ensures Utf8(a + b)
    decreases |a|
  {
    if |a| == 0 {
      assert a + b == b;
    } else {
      var n := CharLen(a);
      SameChar(a, b);
      assert (a + b)[n..] == a[n..] + b;
      Utf8Append(a[n..], b);
    }
  }

  lemma SameChar(a: bytes, b: bytes)
    requires CharLen(a) > 0
    ensures CharLen(a + b) == CharLen(a)
  {
  }

  predicate ShortDir(dir: Path) { Utf8(dir) && |dir| <= 0x400 }

  predicate ShortPath(p: Path) { Utf8(p) && |p| <= 0x500 }

  lemma {:induction false} DecShort(n: nat, k: nat)
    requires k > 0 && n < Power10(k)
    ensures |Dec(n)| <= k
  {
    if n >= 10 { DecShort(n / 10, k - 1); }
  }

  function Power10(k: nat): nat { if k == 0 then 1 else 10 * Power10(k - 1) }

  lemma DecOf64(n: u64)
    ensures |Dec(n)| <= 20 && Digits(Dec(n))
  {
    assert Power10(4) == 10_000;
    hide Dec;
    assert Power10(8) == 10_000 * Power10(4) by { PowerSum(4, 4); }
    assert Power10(16) == Power10(8) * Power10(8) by { PowerSum(8, 8); }
    assert Power10(20) == Power10(4) * Power10(16) by { PowerSum(4, 16); }
    DecShort(n, 20);
    DecDigits(n);
  }

  lemma {:induction false} PowerSum(a: nat, b: nat)
    ensures Power10(a + b) == Power10(a) * Power10(b)
  {
    if a != 0 {
      PowerSum(a - 1, b);
      assert Power10(a) * Power10(b) == 10 * (Power10(a - 1) * Power10(b));
    }
  }

  /** The paths of runs are short when that of their directory is. */
  lemma PathsAreShort(dir: Path, lo: u64, hi: u64)
    requires ShortDir(dir)
    ensures ShortPath(FlushPath(dir, lo, hi)) && ShortPath(OutputPath(dir, lo, hi))
  {
    DecOf64(lo);
    DecOf64(hi);
    hide Dec, Utf8;
    var f, o: bytes := [47] + Dec(lo) + [45] + Dec(hi) + [46, 114, 117, 110], [47] + Dec(lo) + [45] + Dec(hi) + COMPACT_SUFFIX;
    AsciiIsUtf8(f);
    AsciiIsUtf8(o);
    Utf8Append(dir, f);
    Utf8Append(dir, o);
    PathParts(dir, Dec(lo), Dec(hi), [46, 114, 117, 110]);
    PathParts(dir, Dec(lo), Dec(hi), COMPACT_SUFFIX);
  }

  lemma PathParts(dir: bytes, lo: bytes, hi: bytes, suffix: bytes)
    ensures dir + ([47] + lo + [45] + hi + suffix) == dir + [47] + lo + [45] + hi + suffix
  {
  }

  // ── Commits and flushes ────────────────────────────────────────────────────

  predicate ShortMeta(m: SortedRunMeta) { ShortPath(m.path) && |m.coverage| <= 0xFFFF }

  lemma MetaLength(m: SortedRunMeta)
    requires ShortMeta(m)
    ensures MetaEncodable(m) && |EncMeta(m)| <= 0x2_1000
  {
    MetaAt([], 0, m);
    hide Utf8;
    assert |EncPath(m.path)| == 2 + |m.path|;
  }

  lemma FlushLogs(meta: SortedRunMeta, next: u64)
    requires ShortMeta(meta)
    ensures Loggable(AddRunAndSequence(FLUSH_LEVEL, meta, next))
  {
    hide EncMeta, ShortMeta;
    MetaLength(meta);
  }

  lemma {:induction false} InputsLength(inputs: seq<(Level, Path)>)
    requires forall i :: 0 <= i < |inputs| ==> ShortPath(inputs[i].1)
    ensures EntryCodec.InputsOk(inputs) && |EncInputs(inputs)| <= |inputs| * 0x600
  {
    hide Utf8, EncInput;
    if |inputs| != 0 {
      var init, last := inputs[..|inputs| - 1], inputs[|inputs| - 1];
      assert inputs == init + [last];
      InputsLength(init);
      PartsPush(EncInput, init, last);
      InputLength(last);
      assert ShortPath(inputs[|inputs| - 1].1);
      forall i | 0 <= i < |inputs| ensures PathEncodable(inputs[i].1) {
        assert ShortPath(inputs[i].1);
      }
    }
  }

  lemma InputLength(e: (Level, Path))
    requires ShortPath(e.1)
    ensures |EncInput(e)| <= 0x600
  {
    hide Utf8;
  }

  /** The commit of a job of few inputs. */
  lemma CommitLogs(job: Job, o: Output)
    requires ShortMeta(o.meta) && |job.paths| <= 0x40 && forall i :: 0 <= i < |job.paths| ==> ShortPath(job.paths[i])
    ensures Loggable(CommitOf(job, o))
  {
    hide EncMeta, ShortMeta, ShortPath, EncInputs, EntryCodec.InputsOk;
    MetaLength(o.meta);
    var inputs := CommitInputs(job);
    forall i | 0 <= i < |inputs| ensures ShortPath(inputs[i].1) {
      assert inputs[i].1 == job.paths[i];
    }
    InputsLength(inputs);
  }

  /** Coverage holds at most every archetype id that is not reserved. */
  lemma {:induction false} CoverageIsShort(coverage: seq<u16>, n: nat)
    requires StrictlyAscending(coverage) && forall i :: 0 <= i < |coverage| ==> coverage[i] < n
    ensures |coverage| <= n
  {
    if |coverage| != 0 {
      var last := |coverage| - 1;
      forall i | 0 <= i < last ensures coverage[i] < coverage[last] {
        StrictlyBelow(coverage, i, last);
      }
      CoverageIsShort(coverage[..last], coverage[last]);
    }
  }

  lemma {:induction false} StrictlyBelow(s: seq<u16>, i: nat, j: nat)
    requires StrictlyAscending(s) && i < j < |s|
    ensures s[i] < s[j]
  {
    if i + 1 < j { StrictlyBelow(s, i, j - 1); }
  }

  /** A store at rest, reached by a run, that shows this history. */
  ghost predicate Now(u: Universe, n: nat, dir: Path, p: Point, sys: H.Sys) {
    Reached(u, n, dir, p) && p.state.phase.Idle? && Kept(u, n, dir, p, sys)
  }

  lemma NowParts(u: Universe, n: nat, dir: Path, p: Point, sys: H.Sys)
    requires Now(u, n, dir, p, sys)
    ensures Reached(u, n, dir, p) && p.state.phase.Idle? && Kept(u, n, dir, p, sys) && UniverseOk(u) && 0 < n <= MAX_LEVELS
    ensures Inv(n, p.state) && DiskIn(u, p.state.disk) && Shows(n, dir, p.state.disk, p.state.mem, p.flushed, sys)
    ensures sys.rewritten == p.rewritten
  {
    hide UniverseOk, LeadsTo, Kept, Shows, Inv, DiskIn, RecoverFile;
    KeptParts(u, n, dir, p, sys);
  }

  lemma AtStart(u: Universe, n: nat, dir: Path) returns (p: Point, sys: H.Sys)
    requires UniverseOk(u) && 0 < n <= MAX_LEVELS
    ensures Now(u, n, dir, p, sys) && IsStart(n, p) && sys == H.EmptySys(n)
  {
    hide UniverseOk, LeadsTo, Kept;
    p := Point(Start(n), [], 0);
    sys := StartKept(u, n, dir, p);
    NoStep(u, n, dir, p);
  }

  lemma TraceInv(n: nat, s: State, e: ManifestEntry, file: bytes)
    requires Inv(n, s) && s.phase.Idle? && Admissible(s.mem, e)
    ensures NewPath(e).Some? && Apply(s.mem, e).Some?
    ensures
      var t := Finished(s, e, file);
      Inv(n, t) && t.phase.Idle? && t.mem == Applied(s.mem, e) && RecoverFile(t.log, n).Some? && Durable(n, t) == t.mem
  {
    TraceFollows(n, s, e, file);
    AdmissibleParts(s.mem, e);
    hide Inv, Next, Admissible, Apply, EntryFrame, Overwrite, Retired, RecoverFile;
    var t := CommitTrace(s, e, file);
    NextKeeps(n, t[0], t[1]);
    NextKeeps(n, t[1], t[2]);
    NextKeeps(n, t[2], t[3]);
    NextKeeps(n, t[3], t[4]);
    IdleDurable(n, t[4]);
  }

  lemma IdleDurable(n: nat, s: State)
    requires Inv(n, s) && s.phase.Idle?
    ensures RecoverFile(s.log, n).Some? && Durable(n, s) == s.mem && Present(s, s.mem)
  {
    hide RecoverFile, Present, Clean;
  }

  lemma RetiredGone(n: nat, s: State, e: ManifestEntry)
    requires Inv(n, s) && s.phase.Idle? && Admissible(s.mem, e)
    ensures Apply(s.mem, e).Some? && Retired(e) !! Tracked(Applied(s.mem, e))
  {
    IdleDurable(n, s);
    AdmissibleParts(s.mem, e);
    hide Inv, Admissible, Apply, Tracked, UniquePaths, RecoverFile, Retired, EndsWith;
    ApplyTracks(s.mem, e);
  }

  /** An operation that is offered, carried out to its end. */
  lemma Happens(u: Universe, n: nat, dir: Path, p: Point, sys: H.Sys, file: bytes, e: ManifestEntry, sys': H.Sys)
    returns (p': Point)
    requires Now(u, n, dir, p, sys) && Offered(u, dir, p.state.disk, p.state.mem, p.flushed, file, e)
    requires FreshEntry(p.state.mem, e) && Loggable(e) && Apply(p.state.mem, e).Some?
    requires
      var disk := p.state.disk[PathOf(e) := file];
      Shows(n, dir, disk, Applied(p.state.mem, e), p.flushed + FlushedBy(disk, e), sys')
      && sys'.rewritten == sys.rewritten + RewrittenBy(disk, e)
    ensures
      var disk := p.state.disk[PathOf(e) := file];
      && p'.state == Finished(p.state, e, file) && p'.flushed == p.flushed + FlushedBy(disk, e)
      && p'.rewritten == p.rewritten + RewrittenBy(disk, e)
    ensures Now(u, n, dir, p', sys') && LeadsTo(u, n, dir, p, p')
  {
    hide UniverseOk, LeadsTo, Kept, Shows, Inv, DiskIn, RecoverFile, Offered, FreshEntry, Loggable, Apply, FlushedBy, RewrittenBy, Now,
      Retired, EntryFrame, Overwrite, Pending, Tracked, Admissible;
    NowParts(u, n, dir, p, sys);
    FreshIs(p.state.mem, e);
    EntryIsAdmissible(p.state.mem, e);
    var disk := p.state.disk[PathOf(e) := file];
    p' := Point(Finished(p.state, e, file), p.flushed + FlushedBy(disk, e), p.rewritten + RewrittenBy(disk, e));
    TraceLeads(u, n, dir, p, p', file, e);
    ReachedOn(u, n, dir, p, p');
    TraceInv(n, p.state, e, file);
    RetiredGone(n, p.state, e);
    OfferedIn(u, dir, p.state.disk, p.state.mem, p.flushed, file, e, PathOf(e));
    DiskWithout(u, disk, Retired(e));
    ShowsIgnores(n, dir, disk, p'.state.disk, p'.state.mem, p'.flushed, sys');
    KeptIs(u, n, dir, p', sys');
    NowIs(u, n, dir, p', sys');
  }

  lemma NowIs(u: Universe, n: nat, dir: Path, p: Point, sys: H.Sys)
    requires Reached(u, n, dir, p) && p.state.phase.Idle? && Kept(u, n, dir, p, sys)
    ensures Now(u, n, dir, p, sys)
  {
    hide Reached, Kept;
  }

  // ── A flush ────────────────────────────────────────────────────────────────

  lemma FlushMetaOf(dir: Path, file: bytes, r: Reader) returns (meta: SortedRunMeta)
    requires ShortDir(dir) && Opens(file, r) && |file| < TOO_LONG && r.pageCount != 0
    ensures FlushMeta(meta, FlushPath(dir, r.lo, r.hi), file, r) && ShortMeta(meta) && meta.path == FlushPath(dir, r.lo, r.hi)
  {
    hide Opens, FlushPath, Utf8, ArchetypeIds;
    OpensRange(file, r);
    CoverageAscends(r);
    PathsAreShort(dir, r.lo, r.hi);
    var ids := ArchetypeIds(r);
    forall i | 0 <= i < |ids| ensures ids[i] < 0xFFFF {
      assert ids[i] in ids;
      ArchetypeIdsAre(r, ids[i]);
    }
    CoverageIsShort(ids, 0xFFFF);
    meta := RunMeta(FlushPath(dir, r.lo, r.hi), r.lo, r.hi, ids, r.pageCount, |file|);
  }

  lemma AddApplies(m: ManifestState, meta: SortedRunMeta, next: u64)
    requires |m.levels| > 0
    ensures Apply(m, AddRunAndSequence(FLUSH_LEVEL, meta, next)).Some?
  {
  }

  /** A flush of a file that can be seen, newer than all before. */
  lemma FlushHappens(u: Universe, n: nat, dir: Path, p: Point, sys: H.Sys, file: bytes, r: Reader) returns (p': Point)
    requires Now(u, n, dir, p, sys) && ShortDir(dir) && Opens(file, r) && |file| < TOO_LONG && r.pageCount != 0
    requires RunIn(u, r) && Plain(r) && RunWf(r) && InSequence(p.flushed, Seen(r))
    ensures Now(u, n, dir, p', AfterFlush(sys, Seen(r))) && p'.flushed == p.flushed + [Seen(r)] && LeadsTo(u, n, dir, p, p')
    ensures p'.state.disk == p.state.disk[FlushPath(dir, r.lo, r.hi) := file]
    ensures Tracked(p'.state.mem) == Tracked(p.state.mem) + {FlushPath(dir, r.lo, r.hi)} && FlushPath(dir, r.lo, r.hi) !in Tracked(p.state.mem)
  {
    hide Now, Shows, Opens, RunIn, Plain, RunWf, Seen, SeenAt, InSequence, Offered, FreshEntry, Loggable, Apply, FlushPath,
      Tracked, AfterFlush, Kept, Reached, UniverseOk, DiskIn, Inv, FlushMeta, ShortMeta, OutputOffered, EntryFrame, Overwrite,
      H.FlushStep;
    NowParts(u, n, dir, p, sys);
    ShowsParts(n, dir, p.state.disk, p.state.mem, p.flushed, sys);
    var meta := FlushMetaOf(dir, file, r);
    var e := AddRunAndSequence(FLUSH_LEVEL, meta, r.hi);
    FlushIsOffered(u, dir, p.state.disk, p.state.mem, p.flushed, file, meta, r, e);
    FlushOfferedFresh(u, n, dir, p.state.disk, p.state.mem, p.flushed, sys, file, e);
    FreshIs(p.state.mem, e);
    FlushLogs(meta, r.hi);
    AddApplies(p.state.mem, meta, r.hi);
    var sys' := FlushKeeps(u, n, dir, p.state.disk, p.state.mem, p.flushed, sys, file, meta, r.hi, r, Applied(p.state.mem, e));
    p' := Happens(u, n, dir, p, sys, file, e, sys');
    NothingRetired(e, p.state.disk[meta.path := file]);
    TrackedAdded(p.state.mem, meta, e);
  }

  lemma TrackedAdded(m: ManifestState, meta: SortedRunMeta, e: ManifestEntry)
    requires UniquePaths(m) && |m.levels| > 0 && meta.path !in Tracked(m) && e.AddRunAndSequence? && e.level == 0 && e.meta == meta
    ensures Apply(m, e).Some? && Tracked(Applied(m, e)) == Tracked(m) + {meta.path}
  {
    AddTracks(m, 0, meta);
    SameTracked(AddedRun(m, 0, meta).value, e.next);
    hide Tracked, UniquePaths;
  }

  lemma FlushIsOffered(u: Universe, dir: Path, disk: Disk, m: ManifestState, flushed: seq<H.Run>, file: bytes,
                       meta: SortedRunMeta, r: Reader, e: ManifestEntry)
    requires Opens(file, r) && RunIn(u, r) && Plain(r) && RunWf(r) && InSequence(flushed, Seen(r))
    requires FlushMeta(meta, FlushPath(dir, r.lo, r.hi), file, r) && e == AddRunAndSequence(FLUSH_LEVEL, meta, r.hi)
    ensures FlushFits(u, dir, flushed, file, meta, r) && FlushOffered(u, dir, flushed, file, e) && Offered(u, dir, disk, m, flushed, file, e)
  {
    hide Opens, RunIn, Plain, RunWf, Seen, InSequence, FlushMeta, FlushPath, OutputOffered;
    assert FlushFits(u, dir, flushed, file, meta, r);
  }

  // ── A compaction ───────────────────────────────────────────────────────────

  /** Every component and image there is can be counted in a byte. */
  predicate SmallUniverse(u: Universe) { |u.sigs| <= 0x100 && |u.layouts.Keys| <= 0x100 }

  /** A run that no page limit and no missing cell keeps from being compacted. */
  ghost predicate Sturdy(r: Reader) { Complete(r) && C.Modest(r) }

  ghost predicate SturdyAt(disk: Disk, p: Path) { ReaderAt(disk, p).Some? && Sturdy(ReaderAt(disk, p).value) }

  ghost predicate SturdyRuns(disk: Disk, m: ManifestState) {
    forall p :: p in Tracked(m) ==> SturdyAt(disk, p)
  }

  ghost predicate Quietly(runs: seq<H.Run>) { forall s :: |H.Having(runs, s)| < H.TRIGGER }

  /** At level `l` this signature alone triggers, and none does above. */
  ghost predicate Due(sys: H.Sys, l: nat, sig: Signature) {
    && l + 1 < |sys.levels| && |sys.levels[l]| <= 0x40
    && (forall s {:trigger H.Having(sys.levels[l], s)} :: |H.Having(sys.levels[l], s)| >= H.TRIGGER <==> s == sig)
    && forall k :: 0 <= k < l ==> Quietly(sys.levels[k])
  }

  lemma ViewableReadable(disk: Disk, run: SortedRunMeta)
    requires RunViewable(disk, run.path)
    ensures RunReadable(disk, run)
  {
    hide ReaderAt, RunWf, Populated, DistinctSigs, SchemaOk, RunMeaning.Named;
    WfReadable(ReaderAt(disk, run.path).value);
  }

  /** The scheduler counts what lookups see. */
  lemma LevelCounts(disk: Disk, m: ManifestState, sys: H.Sys, l: nat)
    requires Shown(disk, m, sys) && l < |m.levels|
    ensures l < |sys.levels| && |LevelOf(m.levels, l)| == |LevelOf(sys.levels, l)| && LevelReadable(disk, LevelOf(m.levels, l)) && AllViewable(disk, LevelOf(m.levels, l))
    ensures forall s :: ArchCount(disk, LevelOf(m.levels, l), s) == |H.Having(LevelOf(sys.levels, l), s)|
  {
    hide Shown, RunViewable, RunReadable, H.Having, ArchCount, SeenAt, HisApart, DistinctPaths, UniquePaths, Tracked;
    ShownParts(disk, m, sys);
    LevelParts(disk, m, sys, l);
    forall i | 0 <= i < |m.levels[l]| ensures RunReadable(disk, m.levels[l][i]) {
      ViewableReadable(disk, m.levels[l][i]);
    }
    forall s ensures ArchCount(disk, m.levels[l], s) == |H.Having(sys.levels[l], s)| {
      EnoughSeen(disk, m.levels[l], s);
    }
  }

  lemma QuietlyQuiet(disk: Disk, m: ManifestState, sys: H.Sys, l: nat)
    requires Shown(disk, m, sys) && l < |m.levels| && l < |sys.levels| && Quietly(LevelOf(sys.levels, l))
    ensures Quiet(disk, LevelOf(m.levels, l))
  {
    hide Shown, LevelReadable, Quiet, H.Having, ArchCount, AllViewable;
    LevelCounts(disk, m, sys, l);
    QuietIff(disk, m.levels[l]);
  }

  /** Level `l` is the first that is not quiet, and this the first of its signatures that
      is in enough archetypes. */
  ghost predicate NextDue(disk: Disk, m: ManifestState, l: nat, sig: Signature) {
    && l + 1 < |m.levels| && !Quiet(disk, m.levels[l]) && FirstDue(disk, m.levels[l], sig)
    && forall k :: 0 <= k < l ==> Quiet(disk, m.levels[k])
  }

  /** What is due is the scheduler's next job. */
  lemma DueJob(disk: Disk, m: ManifestState, sys: H.Sys, l: nat, sig: Signature) returns (job: Job)
    requires Shown(disk, m, sys) && |m.levels| <= MAX_LEVELS && NextDue(disk, m, l, sig)
    ensures l + 1 < |m.levels| && NextJob(disk, m.levels, l, job) && JobFor(disk, LevelOf(m.levels, l), l, sig, job)
  {
    hide Shown, LevelReadable, Quiet, H.Having, ArchCount, AllViewable, JobAt, JobFor, FirstDue;
    LevelCounts(disk, m, sys, l);
    var first;
    first, job := JobExists(disk, m.levels[l], l);
    OneFirstDue(disk, m.levels[l], first, sig);
  }

  /** A signature that alone triggers is the one that is due. */
  lemma DueIsNext(disk: Disk, m: ManifestState, sys: H.Sys, l: nat, sig: Signature)
    requires Shown(disk, m, sys) && |m.levels| <= MAX_LEVELS && Due(sys, l, sig)
    ensures NextDue(disk, m, l, sig) && |LevelOf(m.levels, l)| <= 0x40
  {
    hide Shown, LevelReadable, Quiet, H.Having, ArchCount, AllViewable, Quietly, JobAt, JobFor, FirstDue, UniquePaths,
      RunViewable, Tracked;
    ShownParts(disk, m, sys);
    LevelCounts(disk, m, sys, l);
    H.HavingFew(sys.levels[l], sig);
    CountUnsettles(disk, m.levels[l], sig);
    var first, job := JobExists(disk, m.levels[l], l);
    assert first == sig by { JobCount(disk, m.levels[l], l, first, job); }
    forall k | 0 <= k < l ensures Quiet(disk, m.levels[k]) {
      QuietlyQuiet(disk, m, sys, k);
    }
  }

  lemma CountUnsettles(disk: Disk, runs: seq<SortedRunMeta>, sig: Signature)
    requires LevelReadable(disk, runs) && |runs| >= COMPACTION_TRIGGER && ArchCount(disk, runs, sig) >= COMPACTION_TRIGGER
    ensures !Quiet(disk, runs)
  {
    hide LevelReadable, Quiet, ArchCount;
    QuietIff(disk, runs);
  }

  lemma JobCount(disk: Disk, runs: seq<SortedRunMeta>, l: nat, sig: Signature, job: Job)
    requires JobFor(disk, runs, l, sig, job)
    ensures ArchCount(disk, runs, sig) >= COMPACTION_TRIGGER
  {
    hide ArchCount, HavingPath, HavingSig, SigLe;
  }

  lemma {:induction false} FirstLoud(disk: Disk, levels: seq<seq<SortedRunMeta>>, l: nat) returns (k: nat)
    requires l < |levels| && !Quiet(disk, levels[l])
    ensures k <= l && !Quiet(disk, levels[k]) && forall j :: 0 <= j < k ==> Quiet(disk, levels[j])
  {
    hide Quiet;
    if j :| 0 <= j < l && !Quiet(disk, levels[j]) {
      k := FirstLoud(disk, levels, j);
    } else {
      k := l;
    }
  }

  /** Unless all levels but the bottom one are quiet, something is due. */
  lemma SomethingDue(disk: Disk, m: ManifestState, sys: H.Sys, loud: nat) returns (l: nat, sig: Signature)
    requires Shown(disk, m, sys) && |m.levels| <= MAX_LEVELS && loud + 1 < |m.levels| && !Quiet(disk, LevelOf(m.levels, loud))
    ensures l <= loud && NextDue(disk, m, l, sig)
  {
    hide Shown, LevelReadable, Quiet, H.Having, ArchCount, AllViewable, JobAt, JobFor, FirstDue;
    l := FirstLoud(disk, m.levels, loud);
    LevelCounts(disk, m, sys, l);
    var job;
    sig, job := JobExists(disk, m.levels[l], l);
  }

  lemma JobPathViewable(disk: Disk, runs: seq<SortedRunMeta>, l: nat, sig: Signature, job: Job, i: nat) returns (k: nat)
    requires JobFor(disk, runs, l, sig, job) && i < |job.paths|
    ensures k < |runs| && runs[k].path == job.paths[i] && RunHas(disk, runs[k], sig) && ReaderAt(disk, job.paths[i]).Some?
  {
    hide ReaderAt, HasSig, ArchCount, SigLe, HavingSig;
    assert job.paths[i] in job.paths;
    k :| 0 <= k < |runs| && RunHas(disk, runs[k], sig) && runs[k].path == job.paths[i];
  }

  lemma OpenedExists(disk: Disk, runs: seq<SortedRunMeta>, l: nat, sig: Signature, job: Job) returns (readers: seq<Reader>)
    requires JobFor(disk, runs, l, sig, job)
    ensures OpenedAs(disk, job.paths, readers) && |readers| == |job.paths|
  {
    hide ReaderAt, JobFor, RunHas;
    forall i | 0 <= i < |job.paths| ensures ReaderAt(disk, job.paths[i]).Some? {
      var k := JobPathViewable(disk, runs, l, sig, job, i);
    }
    readers := seq(|job.paths|, i requires 0 <= i < |job.paths| => ReaderAt(disk, job.paths[i]).value);
  }

  lemma SturdyReader(disk: Disk, m: ManifestState, l: nat, sig: Signature, job: Job, readers: seq<Reader>, i: nat)
    requires SturdyRuns(disk, m) && l < |m.levels| && JobFor(disk, m.levels[l], l, sig, job)
    requires OpenedAs(disk, job.paths, readers) && i < |readers|
    ensures Sturdy(readers[i]) && HasSig(readers[i], sig)
  {
    hide JobFor, Sturdy, Tracked, ReaderAt, HasSig;
    OpenedLength(disk, job.paths, readers);
    var k := JobPathViewable(disk, m.levels[l], l, sig, job, i);
    TrackedIn(m, l, k);
    assert SturdyAt(disk, job.paths[i]) && ReaderAt(disk, job.paths[i]) == Some(readers[i]);
  }

  lemma SturdyInputs(disk: Disk, m: ManifestState, l: nat, sig: Signature, job: Job, readers: seq<Reader>)
    requires SturdyRuns(disk, m) && l < |m.levels| && JobFor(disk, m.levels[l], l, sig, job) && OpenedAs(disk, job.paths, readers)
    ensures C.AllModest(Inputs(readers)) && forall i :: 0 <= i < |Inputs(readers)| ==> Complete(Inputs(readers)[i]) && HasSig(Inputs(readers)[i], sig)
  {
    InputsAre(readers);
    hide JobFor, SturdyRuns, OpenedAs, Inputs, Complete, C.Modest, HasSig;
    forall i | 0 <= i < |Inputs(readers)|
      ensures Complete(Inputs(readers)[i]) && C.Modest(Inputs(readers)[i]) && HasSig(Inputs(readers)[i], sig)
    {
      assert Inputs(readers)[i] in readers;
      var j :| 0 <= j < |readers| && readers[j] == Inputs(readers)[i];
      SturdyReader(disk, m, l, sig, job, readers, j);
    }
  }

  lemma SigHasLead(r: Reader, sig: Signature) returns (e: u64)
    requires Plain(r) && HasSig(r, sig)
    ensures HasLead(r, e)
  {
    assert Populated(r) && DistinctSigs(r);
    hide RunWf, Populated, DistinctSigs, SigOf, ArchetypeIds, IsRow, Leads;
    var a :| a in ArchetypeIds(r) && SigOf(r, a) == Some(sig);
    PopulatedHas(r, a);
    var row: nat, x: u64 :| IsRow(r, a, row, x);
    e := x;
    DistinctLead(r, a);
    LeadRowHas(r, a, row, e);
  }

  lemma PopulatedHas(r: Reader, a: u16)
    requires Populated(r) && a in ArchetypeIds(r)
    ensures HasRow(r, a)
  {
    hide ArchetypeIds, IsRow;
  }

  lemma FewSigs(u: Universe, sigs: seq<Signature>)
    requires UniverseOk(u) && SmallUniverse(u) && NoDup(sigs) && forall sig :: sig in sigs ==> sig in u.sigs
    ensures |sigs| <= 0x100 && |AllNames(sigs)| <= 0x100
  {
    hide Ascending;
    SigSetSize(sigs);
    SubsetSize((set sig | sig in sigs), u.sigs);
    forall name | name in AllNames(sigs) ensures name in u.layouts.Keys {
      var s, i :| 0 <= s < |sigs| && 0 <= i < |sigs[s]| && sigs[s][i] == name;
      assert sigs[s] in sigs;
    }
    SubsetSize(AllNames(sigs), u.layouts.Keys);
  }

  lemma SigInJob(readers: seq<Reader>, sigs: seq<Signature>, sig: Signature)
    requires Covers(readers, sigs) && |readers| > 0 && HasSig(readers[0], sig)
    ensures |sigs| > 0
  {
    hide SigOf, ArchetypeIds;
  }

  /** The job that is due, over sturdy runs of a small universe, is neither refused nor too
      big. */
  lemma DueRunnable(u: Universe, disk: Disk, m: ManifestState, sys: H.Sys, l: nat, sig: Signature, job: Job)
    returns (readers: seq<Reader>, table: ArchTable)
    requires UniverseOk(u) && SmallUniverse(u) && DiskIn(u, disk) && Shown(disk, m, sys) && SturdyRuns(disk, m)
    requires l < |m.levels| && JobFor(disk, LevelOf(m.levels, l), l, sig, job)
    ensures C.Runnable(disk, job, readers, table) && JobWf(Inputs(readers), job.sigs, table) && C.AllModest(Inputs(readers))
  {
    hide UniverseOk, DiskIn, Shown, JobFor, SturdyRuns, OpenedAs, Inputs, Complete, C.AllModest, JobWf, Covers, IsTable, AllIn,
      Refusable, Unwritable, EmptyOrHuge, CellLacking, HasLead, AllNames, AllViewable, HisApart, DistinctPaths, Plain,
      HasSig, UniquePaths, RunViewable, Tracked, RunHas;
    readers := OpenedExists(disk, m.levels[l], l, sig, job);
    JobIsSound(u, disk, m.levels[l], l, sig, job);
    JobCovers(disk, m.levels[l], l, sig, job, readers);
    OpenedIn(u, disk, job.paths, readers);
    SortedJob(u, readers, job.sigs);
    table := TableExists(Inputs(readers), job.sigs);
    JobIsWf(u, Inputs(readers), job.sigs, table);
    SturdyInputs(disk, m, l, sig, job, readers);
    InputsCount(readers);
    ShownParts(disk, m, sys);
    LevelParts(disk, m, sys, l);
    var e := InputLead(disk, m.levels[l], l, sig, job, readers);
    SigInJob(Inputs(readers), job.sigs, sig);
    C.ModestFits(Inputs(readers), job.sigs, table, 0, e);
    CompleteLacksNothing(Inputs(readers));
    RefusedIff(Inputs(readers), job.sigs, table);
    FewSigs(u, job.sigs);
    C.ModestWritable(Inputs(readers), job.sigs, table);
  }

  lemma InputsCount(readers: seq<Reader>)
    ensures |Inputs(readers)| == |readers|
  {
    NewestFirstIs(readers);
  }

  lemma InputLead(disk: Disk, runs: seq<SortedRunMeta>, l: nat, sig: Signature, job: Job, readers: seq<Reader>) returns (e: u64)
    requires AllViewable(disk, runs) && JobFor(disk, runs, l, sig, job) && OpenedAs(disk, job.paths, readers) && |readers| > 0
    requires |Inputs(readers)| > 0 && HasSig(Inputs(readers)[0], sig)
    ensures HasLead(Inputs(readers)[0], e)
  {
    InputsAre(readers);
    hide JobFor, AllViewable, OpenedAs, Inputs, HasSig, HasLead, Plain, RunHas, RunWf, SeenAt, Seen;
    assert Inputs(readers)[0] in Inputs(readers);
    var i :| 0 <= i < |readers| && readers[i] == Inputs(readers)[0];
    var k := JobReaders(disk, runs, l, sig, job, readers, i);
    e := SigHasLead(readers[i], sig);
  }

  // ── The compaction happens ─────────────────────────────────────────────────

  /** No run has this range. */
  ghost predicate RangeFree(sys: H.Sys, lo: nat, hi: nat) {
    forall q :: q in H.All(sys.levels) ==> !(q.lo == lo && q.hi == hi)
  }

  lemma RangeNameFree(dir: Path, disk: Disk, m: ManifestState, sys: H.Sys, lo: u64, hi: u64)
    requires Shown(disk, m, sys) && NamesFit(dir, disk, m) && RangeFree(sys, lo, hi)
    ensures OutputPath(dir, lo, hi) !in Tracked(m)
  {
    hide Shown, NamesFit, NameFits, Tracked, SeenAt, OutputPath, FlushPath, H.All, RunViewable, UniquePaths, AllViewable, HisApart,
      DistinctPaths;
    if OutputPath(dir, lo, hi) in Tracked(m) {
      var l, i := TrackedMeta(m, OutputPath(dir, lo, hi));
      var q := m.levels[l][i];
      FitsAt(dir, disk, m, l, i);
      FitsRange(dir, disk, q);
      FlushIsNoOutput(dir, q.lo, q.hi, lo, hi);
      OutputPathInjective(dir, q.lo, q.hi, lo, hi);
      LevelParts(disk, m, sys, l);
      ShownParts(disk, m, sys);
      InAll(sys.levels, l, i);
    }
  }

  lemma InAll(levels: seq<seq<H.Run>>, l: nat, i: nat)
    requires l < |levels| && i < |levels[l]|
    ensures levels[l][i] in H.All(levels)
  {
    assert levels[l][i] in levels[l];
  }

  lemma NamedIsShort(dir: Path, disk: Disk, m: ManifestState, l: nat, i: nat)
    requires ShortDir(dir) && NamesFit(dir, disk, m) && l < |m.levels| && i < |m.levels[l]|
    ensures ShortPath(m.levels[l][i].path)
  {
    hide NamesFit, NameFits, SeenAt, ShortDir, ShortPath, FlushPath, OutputPath;
    FitsAt(dir, disk, m, l, i);
    FitsRange(dir, disk, m.levels[l][i]);
    PathsAreShort(dir, m.levels[l][i].lo, m.levels[l][i].hi);
  }

  lemma {:induction false} PathCount(runs: seq<SortedRunMeta>)
    ensures |PathsOf(runs)| <= |runs|
  {
    if |runs| == 0 {
      assert PathsOf(runs) == {};
    } else {
      var r, rest := runs[0], runs[1..];
      assert runs == [r] + rest;
      PathsOfCons(r, rest);
      PathCount(rest);
    }
  }

  lemma JobPathsFew(disk: Disk, runs: seq<SortedRunMeta>, l: nat, sig: Signature, job: Job)
    requires JobFor(disk, runs, l, sig, job)
    ensures |job.paths| <= |runs|
  {
    hide RunHas, ArchCount, SigLe, HavingSig, PathsOf;
    forall p | p in job.paths ensures p in PathsOf(runs) {
      var k :| 0 <= k < |runs| && RunHas(disk, runs[k], sig) && runs[k].path == p;
      PathIn(runs, k);
    }
    PathCount(runs);
    NoDupSize(job.paths);
    SubsetSize((set p | p in job.paths), PathsOf(runs));
  }

  lemma CommitFits(dir: Path, disk: Disk, m: ManifestState, l: nat, sig: Signature, job: Job, o: Output, out: Reader)
    requires ShortDir(dir) && NamesFit(dir, disk, m) && l < |m.levels| && |LevelOf(m.levels, l)| <= 0x40
    requires JobFor(disk, LevelOf(m.levels, l), l, sig, job) && OutputIs(disk, job, dir, o, out)
    ensures Loggable(CommitOf(job, o))
  {
    hide NamesFit, JobFor, ShortDir, ShortPath, Loggable, OutputPath, RunHas;
    forall i | 0 <= i < |job.paths| ensures ShortPath(job.paths[i]) {
      var k := JobPathViewable(disk, m.levels[l], l, sig, job, i);
      NamedIsShort(dir, disk, m, l, k);
    }
    JobPathsFew(disk, m.levels[l], l, sig, job);
    OutputMetaShort(dir, disk, job, o, out);
    CommitLogs(job, o);
  }

  lemma OutputMetaShort(dir: Path, disk: Disk, job: Job, o: Output, out: Reader)
    requires ShortDir(dir) && OutputIs(disk, job, dir, o, out)
    ensures ShortMeta(o.meta)
  {
    hide Opens, CompactedFrom, OutputPath, Utf8, PageOf;
    PathsAreShort(dir, out.lo, out.hi);
    forall i | 0 <= i < |o.meta.coverage| ensures o.meta.coverage[i] < 0xFFFD {
      assert o.meta.coverage[i] in o.meta.coverage;
    }
    CoverageIsShort(o.meta.coverage, 0xFFFD);
  }

  lemma CommitIsPossible(disk: Disk, m: ManifestState, l: nat, sig: Signature, job: Job, o: Output)
    requires l + 1 < |m.levels| <= MAX_LEVELS && JobFor(disk, LevelOf(m.levels, l), l, sig, job)
    ensures Committable(m, job.to, CommitInputs(job)) && Apply(m, CommitOf(job, o)).Some?
  {
    hide JobFor, ManifestState.Has, Committable, Committed, ReaderAt;
    JobForParts(disk, m.levels[l], l, sig, job);
    forall i | 0 <= i < |job.paths| ensures m.Has(job.from, job.paths[i]) {
      JobPathsThere(disk, m, l, sig, job, i);
    }
    InputsCommit(m, job);
  }

  lemma SturdyStay(a: Disk, m: ManifestState, b: Disk, m': ManifestState, path: Path, out: Reader)
    requires SturdyRuns(a, m) && path in b && Opens(b[path], out) && Sturdy(out)
    requires forall p :: p in Tracked(m') && p != path ==> p in Tracked(m) && p in a && p in b && b[p] == a[p]
    ensures SturdyRuns(b, m')
  {
    hide Tracked, Sturdy, Opens;
    forall p | p in Tracked(m') ensures SturdyAt(b, p) {
      if p == path {
        OpensUnique(b[path], out, ReaderAt(b, path).value);
      } else {
        assert SturdyAt(a, p);
        SameFile(a, b, p);
      }
    }
  }

  lemma OutputSturdy(u: Universe, disk: Disk, job: Job, readers: seq<Reader>, table: ArchTable, dir: Path, o: Output, out: Reader)
    requires UniverseOk(u) && DiskIn(u, disk) && C.Runnable(disk, job, readers, table) && OutputIs(disk, job, dir, o, out)
    requires C.AllModest(Inputs(readers)) && JobWf(Inputs(readers), job.sigs, table)
    ensures Sturdy(out)
  {
    hide UniverseOk, DiskIn, OpenedAs, Covers, IsTable, Inputs, JobWf, IsCompaction, C.AllModest, Complete, C.Modest, Opens, IsSpan,
      Describes, OutputPath, Refusable, Unwritable, RunWf, Populated, DistinctSigs, ImageIn, StoreImage, Behind;
    var others, t :| CompactedFrom(disk, job, others, t, out);
    OneJobTable(disk, job, readers, table, others, t);
    OutputMeaning(u, disk, job, readers, table, out);
    C.OutputModest(Inputs(readers), job.sigs, table, out);
  }

  /** The output of the due job is seen as the merge, which is unique. */
  lemma DueMerges(u: Universe, disk: Disk, m: ManifestState, sys: H.Sys, l: nat, sig: Signature, job: Job, dir: Path, o: Output,
                  out: Reader, x: H.Run)
    requires UniverseOk(u) && DiskIn(u, disk) && Shown(disk, m, sys) && l < |m.levels| && l < |sys.levels|
    requires JobFor(disk, LevelOf(m.levels, l), l, sig, job) && OutputIs(disk, job, dir, o, out)
    requires H.Merged(H.SetOf(H.Having(LevelOf(sys.levels, l), sig)), x)
    ensures RunWf(out) && Seen(out) == x
  {
    hide UniverseOk, DiskIn, Shown, JobFor, OutputIs, H.Merged, H.Having, AllViewable, HisApart, DistinctPaths, RunWf, Plain, Seen,
      SeenAt, RunHas, Opens;
    LevelParts(disk, m, sys, l);
    var k := JobMerges(u, disk, m.levels[l], l, sig, job, dir, o, out);
    H.MergedUnique(H.SetOf(H.Having(sys.levels[l], sig)), Seen(out), x);
  }

  lemma DueNow(u: Universe, n: nat, dir: Path, p: Point, sys: H.Sys, l: nat, sig: Signature)
    requires Now(u, n, dir, p, sys) && Due(sys, l, sig)
    ensures Shown(p.state.disk, p.state.mem, sys) && |p.state.mem.levels| <= MAX_LEVELS && l < |sys.levels|
    ensures NextDue(p.state.disk, p.state.mem, l, sig) && |LevelOf(p.state.mem.levels, l)| <= 0x40
  {
    hide Now, Due, Shows, Shown, NextDue, Inv, DiskIn, UniverseOk, Kept, Reached, H.Reach, NamesFit, UniquePaths, RunViewable,
      Tracked;
    NowParts(u, n, dir, p, sys);
    ShowsParts(n, dir, p.state.disk, p.state.mem, p.flushed, sys);
    DueIsNext(p.state.disk, p.state.mem, sys, l, sig);
    DueLevel(sys, l, sig);
  }

  lemma DueLevel(sys: H.Sys, l: nat, sig: Signature)
    requires Due(sys, l, sig)
    ensures l < |sys.levels|
  {
  }

  /** The scheduler's next job, whatever signatures are due, over at most 64 sturdy runs of
      a small universe, is carried out when no run has the range of its output. */
  lemma CompactHappens(u: Universe, n: nat, dir: Path, p: Point, sys: H.Sys, l: nat, sig: Signature, x: H.Run) returns (p': Point)
    requires Now(u, n, dir, p, sys) && SmallUniverse(u) && ShortDir(dir) && SturdyRuns(p.state.disk, p.state.mem)
    requires l < |sys.levels| && NextDue(p.state.disk, p.state.mem, l, sig) && |LevelOf(p.state.mem.levels, l)| <= 0x40
    requires H.Merged(H.SetOf(H.Having(LevelOf(sys.levels, l), sig)), x) && RangeFree(sys, x.lo, x.hi)
    ensures Now(u, n, dir, p', AfterCompaction(sys, l, sig, x)) && p'.flushed == p.flushed && LeadsTo(u, n, dir, p, p')
    ensures SturdyRuns(p'.state.disk, p'.state.mem)
    ensures HasOutput(dir, p'.state.mem, x.lo, x.hi)
  {
    hide Now, Shows, Opens, RunIn, Plain, RunWf, Seen, SeenAt, Offered, FreshEntry, Loggable, Apply, OutputPath, Committable,
      Committed, Tracked, AfterCompaction, Kept, Reached, UniverseOk, DiskIn, Inv, NextDue, H.Merged, H.Having, Shown, NamesFit,
      JobFor, NextJob, OutputIs, SturdyRuns, C.Runnable, JobWf, C.AllModest, Sturdy, RangeFree, EntryFrame, Overwrite,
      H.CompactStep, UniquePaths, RunViewable, SmallUniverse, ShortDir, FlushOffered, Retired, H.Reach, HasOutput, LeadsTo;
    var disk, m := p.state.disk, p.state.mem;
    NowParts(u, n, dir, p, sys);
    ShowsParts(n, dir, disk, m, p.flushed, sys);
    var job := DueJob(disk, m, sys, l, sig);
    var readers, table := DueRunnable(u, disk, m, sys, l, sig, job);
    var o, out := C.OutputExists(u, disk, job, dir, readers, table);
    OutputIsNamed(disk, job, dir, o, out);
    DueMerges(u, disk, m, sys, l, sig, job, dir, o, out, x);
    SeenHi(out);
    RangeNameFree(dir, disk, m, sys, out.lo, out.hi);
    NotTemporary(dir, out.lo, out.hi);
    CommitFits(dir, disk, m, l, sig, job, o, out);
    CommitIsPossible(disk, m, l, sig, job, o);
    var e := CommitOf(job, o);
    var m' := Applied(m, e);
    var sys' := OutputKeeps(u, n, dir, disk, m, p.flushed, sys, l, sig, job, o, out, m');
    assert OutputFits(dir, disk, m, o.file, e, l, job, o, out);
    assert Offered(u, dir, disk, m, p.flushed, o.file, e) by { OutputIsOffered(u, dir, disk, m, p.flushed, l, job, o, out); }
    CommitIsFresh(m, job, o);
    assert p.flushed + [] == p.flushed;
    p' := Happens(u, n, dir, p, sys, o.file, e, sys');
    OutputSturdy(u, disk, job, readers, table, dir, o, out);
    CommitApplies(m, job, o, m');
    SturdyAfter(disk, m, p'.state.disk, m', job, o, out);
    OutputTracked(disk, m, p'.state.disk, m', job, o, dir, out);
  }

  /** The name of a compaction output of this range is tracked. */
  ghost predicate HasOutput(dir: Path, m: ManifestState, lo: nat, hi: nat) {
    lo < 0x1_0000_0000_0000_0000 && hi < 0x1_0000_0000_0000_0000 && OutputPath(dir, lo, hi) in Tracked(m)
  }

  lemma OutputTracked(a: Disk, m: ManifestState, b: Disk, m': ManifestState, job: Job, o: Output, dir: Path,
                      out: Reader)
    requires UniquePaths(m) && |m.levels| <= MAX_LEVELS && Committable(m, job.to, CommitInputs(job))
    requires o.path == OutputPath(dir, out.lo, out.hi)
    requires m' == Committed(m, job.to, o.meta, CommitInputs(job)) && b == a[o.path := o.file] - Retired(CommitOf(job, o))
    requires o.meta.path == o.path && o.path !in Tracked(m) && forall p :: p in Tracked(m) ==> p in a
    ensures HasOutput(dir, m', out.lo, out.hi)
  {
    hide Tracked, UniquePaths, Committable, Committed, OutputPath;
    TrackedAfter(a, m, b, m', job, o);
    RetiredTracked(m, job, o);
  }

  lemma OutputIsOffered(u: Universe, dir: Path, disk: Disk, m: ManifestState, flushed: seq<H.Run>, l: nat, job: Job, o: Output,
                        out: Reader)
    requires OutputFits(dir, disk, m, o.file, CommitOf(job, o), l, job, o, out)
    ensures Offered(u, dir, disk, m, flushed, o.file, CommitOf(job, o))
  {
    hide FlushOffered, OutputFits;
  }

  lemma CommitIsFresh(m: ManifestState, job: Job, o: Output)
    requires o.meta.path == o.path && o.path !in Tracked(m) && !EndsWith(o.path, TMP_SUFFIX)
    ensures FreshEntry(m, CommitOf(job, o))
  {
    hide Tracked, EndsWith;
  }

  lemma SturdyAfter(a: Disk, m: ManifestState, b: Disk, m': ManifestState, job: Job, o: Output, out: Reader)
    requires SturdyRuns(a, m) && Opens(o.file, out) && Sturdy(out) && UniquePaths(m) && |m.levels| <= MAX_LEVELS
    requires Committable(m, job.to, CommitInputs(job)) && m' == Committed(m, job.to, o.meta, CommitInputs(job))
    requires b == a[o.path := o.file] - Retired(CommitOf(job, o)) && o.meta.path == o.path && o.path !in Tracked(m)
    requires forall p :: p in Tracked(m) ==> p in a
    ensures SturdyRuns(b, m')
  {
    hide Tracked, Sturdy, Opens, UniquePaths, SturdyRuns, Committable, Committed, Retired;
    TrackedAfter(a, m, b, m', job, o);
    SturdyStay(a, m, b, m', o.path, out);
  }
}
