/** The store as one object: run files, manifest log and in-memory manifest, with flush
    recording, one compaction and the orphan sweep. */
module Engine {
  import opened Bytes
  import opened Order
  import opened Schema
  import opened RunReader
  import opened RunFile
  import opened Merge
  import opened CompactRun
  import opened Archetypes
  import opened RunMeaning
  import opened CompactionMeaning
  import opened Picker
  import opened Executor
  import opened Manifest
  import opened EntryCodec
  import opened ManifestLog
  import opened LogRecovery
  import opened OutputNames
  import opened Protocol

  /** The entry that commits a job's output. */
  function CommitInputs(job: Job): (r: seq<(Level, Path)>)
    ensures |r| == |job.paths| && forall i :: 0 <= i < |r| ==> r[i] == (job.from, job.paths[i])
  {
    seq(|job.paths|, i requires 0 <= i < |job.paths| => (job.from, job.paths[i]))
  }

  function CommitOf(job: Job, o: Output): ManifestEntry {
    CompactionCommit(job.to, o.meta, CommitInputs(job))
  }

  /** Consecutive states are steps of the protocol. */
  ghost predicate Follows(n: nat, trace: seq<State>) {
    forall i :: 0 <= i < |trace| - 1 ==> Next(n, trace[i], trace[i + 1])
  }

  /** The states of an operation that logs `e` for the run written as `file`: file in
      place, entry appended, mirrored, inputs deleted. */
  ghost function CommitTrace(before: State, e: ManifestEntry, file: bytes): (trace: seq<State>)
    ensures |trace| == 5 && trace[0] == before
  {
    var p := PathOf(e);
    var s1 := before.(disk := before.disk[p := file], wrote := before.wrote[p := file], phase := Writing(e));
    var s2 := s1.(log := Overwrite(s1.log, |s1.log|, EntryFrame(e)), phase := Logged(e));
    var s3 := s2.(mem := Applied(before.mem, e), phase := Deleting(Retired(e)));
    [before, s1, s2, s3, s3.(disk := s3.disk - Retired(e), phase := Idle)]
  }

  /** The last of them. */
  ghost function Finished(before: State, e: ManifestEntry, file: bytes): State { CommitTrace(before, e, file)[4] }

  /** The state with a file written, and nothing else done. */
  ghost function WithFile(s: State, p: Path, file: bytes): State {
    s.(disk := s.disk[p := file], wrote := s.wrote[p := file])
  }

  ghost predicate JobSound(u: Universe, job: Job) {
    NoDup(job.sigs) && NoDup(job.paths) && forall sig :: sig in job.sigs ==> sig in u.sigs
  }

  /** What a finished compaction has changed: the output is there, its commit is in the
      log and in the manifest, the inputs are gone. */
  ghost predicate Executed(before: State, after: State, job: Job, o: Output) {
    && Encodable(CommitOf(job, o)) && Apply(before.mem, CommitOf(job, o)) == Some(after.mem)
    && after.log == Overwrite(before.log, |before.log|, EntryFrame(CommitOf(job, o)))
    && after.disk == before.disk[o.path := o.file] - Retired(CommitOf(job, o))
  }

  ghost predicate JobUnopened(disk: Disk, job: Job) {
    |job.paths| == 0 || exists i :: 0 <= i < |job.paths| && ReaderAt(disk, job.paths[i]).None?
  }

  /** Why a job is not carried out: an input cannot be opened, the writer refuses or
      cannot write, or the manifest or the log do not take the commit. */
  ghost predicate Halted(disk: Disk, m: ManifestState, job: Job, dir: Path) {
    || JobUnopened(disk, job) || JobRefused(disk, job) || JobUnwritable(disk, job)
    || exists o, out :: OutputIs(disk, job, dir, o, out) && !Accepted(m, job, o)
  }

  ghost predicate Accepted(m: ManifestState, job: Job, o: Output) {
    Committable(m, job.to, CommitInputs(job)) && Encodable(CommitOf(job, o))
  }

  class Store {
    const dir: Path
    const manifest: LsmManifest
    const log: Log
    var disk: Disk
    ghost var wrote: Disk

    ghost predicate Valid() reads this, manifest, log {
      manifest.Valid() && 1 <= manifest.n <= MAX_LEVELS && log.writePos == |log.file|
    }

    ghost function Snapshot(phase: Phase): State reads this, manifest, log {
      State(disk, log.file, manifest.State(), phase, wrote)
    }

    constructor (dir: Path, manifest: LsmManifest, log: Log, disk: Disk)
      requires manifest.Valid() && 1 <= manifest.n <= MAX_LEVELS && log.writePos == |log.file|
      ensures Valid() && this.dir == dir && this.manifest == manifest && this.log == log && this.disk == disk
    {
      this.dir, this.manifest, this.log, this.disk, this.wrote := dir, manifest, log, disk, disk;
    }

    /** The check before the commit point: the target level exists and every input is in
        the manifest at its level. */
    method Prevalidate(job: Job) returns (ok: bool)
      requires Valid()
      ensures ok == (job.to < manifest.n && forall i :: 0 <= i < |job.paths| ==> manifest.State().Has(job.from, job.paths[i]))
    {
      hide ManifestState.Has;
      if job.to >= manifest.n {
        return false;
      }
      for i := 0 to |job.paths|
        invariant forall j :: 0 <= j < i ==> manifest.State().Has(job.from, job.paths[j])
      {
        if !manifest.State().Has(job.from, job.paths[i]) {
          return false;
        }
      }
      return true;
    }

    /** Deletes what is left of the retired inputs. */
    method DeleteAll(paths: seq<Path>)
      requires Valid()
      modifies this`disk
      ensures Valid() && disk == old(disk) - (set p | p in paths)
    {
      for i := 0 to |paths|
        invariant Valid() && disk == old(disk) - (set p | p in paths[..i])
      {
        assert paths[..i + 1] == paths[..i] + [paths[i]];
        disk := disk - {paths[i]};
      }
      assert paths[..|paths|] == paths;
    }

    method AppendEntry(e: ManifestEntry) returns (ok: bool)
      requires Valid()
      modifies log
      ensures Valid() && ok == Encodable(e)
      ensures log.file == if ok then Overwrite(old(log.file), |old(log.file)|, EntryFrame(e)) else old(log.file)
    {
      hide EncEntry, Encodable, Overwrite, EntryFrame;
      FrameIs(e);
      AtEnd(log.file, EntryFrame(e));
      ok := log.Append(e);
    }

    /** From the written output to the end of the compaction: rename into place,
        prevalidate, append, mirror, delete, in that order. */
    method CommitOutput(job: Job, o: Output) returns (done: bool, ghost trace: seq<State>)
      requires Valid() && NoDup(job.paths) && o.meta.path == o.path
      modifies this, manifest, log
      ensures Valid() && done == Accepted(old(manifest.State()), job, o)
      ensures !done ==> Snapshot(Idle) == WithFile(old(Snapshot(Idle)), o.path, o.file)
      ensures done ==> Executed(old(Snapshot(Idle)), Snapshot(Idle), job, o)
      ensures done ==> Traced(old(Snapshot(Idle)), Snapshot(Idle), CommitOf(job, o), o.file, trace)
    {
      hide EncEntry, Encodable, Committed, Committable, EntryFrame, Overwrite;
      ghost var s0 := Snapshot(Idle);
      trace := [s0];
      disk := disk[o.path := o.file];
      wrote := wrote[o.path := o.file];
      var e := CommitOf(job, o);
      ghost var s1 := Snapshot(Writing(e));
      var ok := Prevalidate(job);
      InputsCommit(manifest.State(), job);
      if !ok {
        return false, trace;
      }
      var appended := AppendEntry(e);
      if !appended {
        return false, trace;
      }
      ghost var s2 := Snapshot(Logged(e));
      CommitChecked(manifest, job.to, o.meta, CommitInputs(job));
      ghost var s3 := Snapshot(Deleting(Retired(e)));
      DeleteAll(job.paths);
      RetiredPaths(job, o);
      ghost var s4 := Snapshot(Idle);
      trace := [s0, s1, s2, s3, s4];
      return true, trace;
    }

    /** execute_compaction_observed. What stops it is one of `Halted`; it leaves manifest
        and log alone, and at most the output file behind. */
    method Execute(job: Job, ghost u: Universe) returns (done: bool, ghost trace: seq<State>)
      requires Valid() && UniverseOk(u) && DiskIn(u, disk) && JobSound(u, job)
      modifies this, manifest, log
      ensures Valid()
      ensures !done ==> Halted(old(disk), old(manifest.State()), job, dir)
      ensures !done ==> Snapshot(Idle) == old(Snapshot(Idle)) || exists o, out ::
        OutputIs(old(disk), job, dir, o, out) && Snapshot(Idle) == WithFile(old(Snapshot(Idle)), o.path, o.file)
      ensures done ==> !JobRefused(old(disk), job)
      ensures done ==> ExecutedAs(old(Snapshot(Idle)), Snapshot(Idle), job, dir, trace)
    {
      hide UniverseOk, DiskIn, OutputIs, Executed, Traced, JobRefused, JobUnwritable, Accepted;
      var prepared := WriteOutput(disk, job, dir, u);
      if !prepared.Ready? {
        return false, [];
      }
      ghost var out :| OutputIs(disk, job, dir, prepared.output, out);
      OutputNamed(disk, job, dir, prepared.output, out);
      done, trace := CommitOutput(job, prepared.output);
    }

    /** flush_and_record, from the flushed file on: log first, then memory, in one entry
        with the sequence number. It is recorded if and only if it can be described. */
    method RecordFlush(path: Path, file: bytes, hi: u64) returns (done: bool, ghost trace: seq<State>)
      requires Valid()
      modifies this, manifest, log
      ensures Valid()
      ensures done <==> Recordable(path, file)
      ensures !done ==> Snapshot(Idle) == WithFile(old(Snapshot(Idle)), path, file)
      ensures done ==> Flushed(old(Snapshot(Idle)), Snapshot(Idle), path, file, hi, trace)
      ensures done ==> manifest.nextSequence == hi && FlushedInto(old(manifest.levels), manifest.levels, path, file)
      ensures disk == old(disk)[path := file]
    {
      hide Opens, EncEntry, Encodable, EntryFrame, Overwrite, ArchetypeIds;
      ghost var s0 := Snapshot(Idle);
      trace := [];
      disk := disk[path := file];
      wrote := wrote[path := file];
      var r := Open(file);
      if r.None? {
        return false, trace;
      }
      assert Opens(file, r.value);
      OneRecordable(path, file, r.value);
      if r.value.pageCount == 0 || |file| >= 0x1_0000_0000_0000_0000 {
        return false, trace;
      }
      OpensRange(file, r.value);
      CoverageAscends(r.value);
      var meta: SortedRunMeta := RunMeta(path, r.value.lo, r.value.hi, ArchetypeIds(r.value), r.value.pageCount, |file|);
      var e := AddRunAndSequence(FLUSH_LEVEL, meta, hi);
      ghost var s1 := Snapshot(Writing(e));
      AddEncodable(meta, hi);
      var ok := AppendEntry(e);
      if !ok {
        return false, trace;
      }
      ghost var s2 := Snapshot(Logged(e));
      var added := manifest.AddRun(0, meta);
      manifest.SetNextSequence(hi);
      ghost var s3 := Snapshot(Deleting(Retired(e)));
      ghost var s4 := Snapshot(Idle);
      trace := [s0, s1, s2, s3, s4];
      NothingRetired(e, disk);
      assert FlushMeta(meta, path, file, r.value) && FlushedAs(s0, s4, file, meta, hi, trace);
      assert manifest.levels == s0.mem.levels[0 := s0.mem.levels[0] + [meta]];
      FlushedIs(s0.mem.levels, meta, path, file, r.value);
      return true, trace;
    }

    /** cleanup_orphans: deletes exactly the orphans and counts them. */
    method CleanupOrphans() returns (deleted: nat)
      requires Valid()
      modifies this`disk
      ensures Valid() && disk == old(disk) - Orphans(old(disk), manifest.State())
      ensures forall stem {:trigger TmpFile(stem)} :: TmpFile(stem) !in disk
      ensures forall stem {:trigger RunFileAt(stem)} ::
        RunFileAt(stem) in disk <==> RunFileAt(stem) in old(disk) && Names(manifest.levels, RunFileAt(stem))
      ensures forall p {:trigger p in disk} {:trigger p in old(disk)} :: OtherFile(p) ==> (p in disk <==> p in old(disk))
      ensures forall p :: p in disk ==> p in old(disk) && disk[p] == old(disk)[p]
      ensures deleted + |disk| == |old(disk)|
    {
      hide IsOrphan, Tracked, TmpFile, RunFileAt, Names, OtherFile;
      ghost var before := disk;
      disk, deleted := Sweep(disk, Tracked(manifest.State()));
      SweptIs(before, manifest.State());
    }
  }

  // ── What the sweep leaves ──────────────────────────────────────────────────

  /** A path that ends in ".run.tmp", and one that ends in ".run". */
  function TmpFile(stem: Path): Path { stem + [46, 114, 117, 110, 46, 116, 109, 112] }
  function RunFileAt(stem: Path): Path { stem + [46, 114, 117, 110] }

  ghost predicate OtherFile(p: Path) {
    forall stem {:trigger TmpFile(stem)} {:trigger RunFileAt(stem)} :: p != TmpFile(stem) && p != RunFileAt(stem)
  }

  /** Some run of the manifest is at `p`. */
  ghost predicate Names(levels: seq<seq<SortedRunMeta>>, p: Path) {
    exists l, i :: 0 <= l < |levels| && 0 <= i < |levels[l]| && levels[l][i].path == p
  }

  lemma SuffixIs(stem: Path, suffix: bytes)
    ensures EndsWith(stem + suffix, suffix)
  {
    assert (stem + suffix)[|stem|..] == suffix;
  }

  lemma StemOf(p: Path, suffix: bytes) returns (stem: Path)
    requires EndsWith(p, suffix)
    ensures p == stem + suffix
  {
    stem := p[..|p| - |suffix|];
  }

  lemma RunIsNoTmp(stem: Path)
    ensures !EndsWith(RunFileAt(stem), TMP_SUFFIX)
  {
    var p := RunFileAt(stem);
    assert p[|p| - 1] == 110;
  }

  lemma TrackedIsNamed(m: ManifestState, p: Path)
    ensures p in Tracked(m) <==> Names(m.levels, p)
  {
    TrackedAt(m, p);
    hide Tracked;
    if l :| 0 <= l < |m.levels| && p in PathsOf(m.levels[l]) {
      var r :| r in m.levels[l] && r.path == p;
      var i :| 0 <= i < |m.levels[l]| && m.levels[l][i] == r;
    }
    if l, i :| 0 <= l < |m.levels| && 0 <= i < |m.levels[l]| && m.levels[l][i].path == p {
      assert m.levels[l][i] in m.levels[l];
    }
  }

  lemma OrphanFile(m: ManifestState, p: Path)
    ensures OtherFile(p) ==> !IsOrphan(p, Tracked(m))
  {
    hide Tracked, EndsWith;
    if EndsWith(p, TMP_SUFFIX) {
      var stem := StemOf(p, TMP_SUFFIX);
      assert p == TmpFile(stem);
    }
    if EndsWith(p, RUN_SUFFIX) {
      var stem := StemOf(p, RUN_SUFFIX);
      assert p == RunFileAt(stem);
    }
  }

  lemma OrphanStem(m: ManifestState, stem: Path)
    ensures IsOrphan(TmpFile(stem), Tracked(m))
    ensures IsOrphan(RunFileAt(stem), Tracked(m)) <==> !Names(m.levels, RunFileAt(stem))
  {
    SuffixIs(stem, TMP_SUFFIX);
    SuffixIs(stem, RUN_SUFFIX);
    RunIsNoTmp(stem);
    TrackedIsNamed(m, RunFileAt(stem));
    hide Tracked, Names, EndsWith;
  }

  /** Without its orphans a directory holds no temporary file, the run files the manifest
      names, and every file of another kind. */
  lemma SweptIs(before: Disk, m: ManifestState)
    ensures
      var after := before - Orphans(before, m);
      && (forall stem {:trigger TmpFile(stem)} :: TmpFile(stem) !in after)
      && (forall stem {:trigger RunFileAt(stem)} :: RunFileAt(stem) in after <==> RunFileAt(stem) in before && Names(m.levels, RunFileAt(stem)))
      && (forall p {:trigger p in after} {:trigger p in before} :: OtherFile(p) ==> (p in after <==> p in before))
      && |Orphans(before, m)| + |after| == |before|
  {
    hide IsOrphan, Tracked, TmpFile, RunFileAt, Names, OtherFile;
    forall stem ensures IsOrphan(TmpFile(stem), Tracked(m)) && (IsOrphan(RunFileAt(stem), Tracked(m)) <==> !Names(m.levels, RunFileAt(stem))) {
      OrphanStem(m, stem);
    }
    forall p ensures OtherFile(p) ==> !IsOrphan(p, Tracked(m)) {
      OrphanFile(m, p);
    }
    var after := before - Orphans(before, m);
    assert after.Keys == before.Keys - Orphans(before, m) && Orphans(before, m) <= before.Keys;
    assert |before.Keys - Orphans(before, m)| == |before.Keys| - |Orphans(before, m)|;
  }

  /** `left` is `files` without the orphans that are not in `todo`. */
  ghost predicate SweptBut(files: Disk, known: set<Path>, todo: set<Path>, left: Disk, deleted: nat) {
    var gone := set p | p in files && IsOrphan(p, known) && p !in todo;
    left == files - gone && deleted == |gone|
  }

  lemma SweepPath(files: Disk, known: set<Path>, todo: set<Path>, left: Disk, deleted: nat, p: Path)
    requires SweptBut(files, known, todo, left, deleted) && p in todo && p in files
    ensures
      if IsOrphan(p, known) then SweptBut(files, known, todo - {p}, left - {p}, deleted + 1)
      else SweptBut(files, known, todo - {p}, left, deleted)
  {
    hide IsOrphan;
    var gone := set q | q in files && IsOrphan(q, known) && q !in todo;
    var more := set q | q in files && IsOrphan(q, known) && q !in todo - {p};
    if IsOrphan(p, known) {
      assert more == gone + {p};
      assert files - more == (files - gone) - {p};
    } else {
      assert more == gone;
    }
  }

  /** The loop over the directory. */
  method Sweep(files: Disk, known: set<Path>) returns (left: Disk, deleted: nat)
    ensures
      var gone := set p | p in files && IsOrphan(p, known);
      left == files - gone && deleted == |gone|
  {
    hide IsOrphan, SweptBut;
    var todo := files.Keys;
    left, deleted := files, 0;
    SweepStart(files, known);
    while todo != {}
      invariant todo <= files.Keys && SweptBut(files, known, todo, left, deleted)
      decreases todo
    {
      var p :| p in todo;
      SweepPath(files, known, todo, left, deleted, p);
      if IsOrphan(p, known) {
        left := left - {p};
        deleted := deleted + 1;
      }
      todo := todo - {p};
    }
    SweepEnd(files, known, left, deleted);
  }

  lemma SweepStart(files: Disk, known: set<Path>)
    ensures SweptBut(files, known, files.Keys, files, 0)
  {
    hide IsOrphan;
    var gone := set p | p in files && IsOrphan(p, known) && p !in files.Keys;
    assert gone == {};
  }

  lemma SweepEnd(files: Disk, known: set<Path>, left: Disk, deleted: nat)
    requires SweptBut(files, known, {}, left, deleted)
    ensures
      var gone := set p | p in files && IsOrphan(p, known);
      left == files - gone && deleted == |gone|
  {
    hide IsOrphan;
    var none: set<Path> := {};
    var but, gone := set p | p in files && IsOrphan(p, known) && p !in none, set p | p in files && IsOrphan(p, known);
    assert but == gone;
  }

  /** A run that a manifest entry can describe: it has pages, its size is a 64-bit number,
      and path and coverage fit the entry. */
  ghost predicate Describable(path: Path, file: bytes, r: Reader) {
    r.pageCount != 0 && |file| < 0x1_0000_0000_0000_0000 && PathEncodable(path) && |ArchetypeIds(r)| < 0x1_0000
  }

  ghost predicate Recordable(path: Path, file: bytes) {
    exists r :: Opens(file, r) && Describable(path, file, r)
  }

  lemma OneRecordable(path: Path, file: bytes, r: Reader)
    requires Opens(file, r)
    ensures Recordable(path, file) <==> Describable(path, file, r)
  {
    hide Opens, Describable;
    if q :| Opens(file, q) && Describable(path, file, q) {
      OpensUnique(file, q, r);
    }
  }

  lemma AddEncodable(meta: SortedRunMeta, next: u64)
    ensures Encodable(AddRunAndSequence(FLUSH_LEVEL, meta, next)) <==> PathEncodable(meta.path) && |meta.coverage| < 0x1_0000
  {
    hide PathEncodable;
  }

  /** The metadata recorded for a flushed run. */
  ghost predicate FlushMeta(meta: RunMeta, path: Path, file: bytes, r: Reader) {
    && meta.Ok() && meta.path == path && meta.lo == r.lo && meta.hi == r.hi && meta.coverage == ArchetypeIds(r)
    && meta.pageCount == r.pageCount && meta.sizeBytes == |file|
  }

  /** The flushed run is the last of level 0; all runs that were there stay where they are. */
  ghost predicate FlushedInto(before: seq<seq<SortedRunMeta>>, after: seq<seq<SortedRunMeta>>, path: Path, file: bytes) {
    && |after| == |before| > 0 && after[1..] == before[1..] && |after[0]| == |before[0]| + 1
    && after[0][..|before[0]|] == before[0] && TrueOf(after[0][|before[0]|], path, file)
  }

  lemma FlushedIs(before: seq<seq<SortedRunMeta>>, meta: SortedRunMeta, path: Path, file: bytes, r: Reader)
    requires |before| > 0 && Opens(file, r) && FlushMeta(meta, path, file, r)
    ensures FlushedInto(before, before[0 := before[0] + [meta]], path, file)
  {
    hide Opens, ArchetypeIds;
    var m: RunMeta := meta;
    assert Reports(m, path, |file|, r);
    assert TrueOf(m, path, file);
  }

  ghost predicate Flushed(before: State, after: State, path: Path, file: bytes, hi: u64, trace: seq<State>) {
    exists meta, r :: Opens(file, r) && FlushMeta(meta, path, file, r) && FlushedAs(before, after, file, meta, hi, trace)
  }

  ghost predicate FlushedAs(before: State, after: State, file: bytes, meta: SortedRunMeta, hi: u64, trace: seq<State>) {
    Traced(before, after, AddRunAndSequence(FLUSH_LEVEL, meta, hi), file, trace)
  }

  ghost predicate ExecutedAs(before: State, after: State, job: Job, dir: Path, trace: seq<State>) {
    exists o, out :: OutputIs(before.disk, job, dir, o, out) && ExecutedTraced(before, after, job, o, trace)
  }

  ghost predicate ExecutedTraced(before: State, after: State, job: Job, o: Output, trace: seq<State>) {
    Executed(before, after, job, o) && Traced(before, after, CommitOf(job, o), o.file, trace)
  }

  /** The operation went through these states, one after the other. */
  ghost predicate Traced(before: State, after: State, e: ManifestEntry, file: bytes, trace: seq<State>) {
    NewPath(e).Some? && Encodable(e) && Apply(before.mem, e).Some? && trace == CommitTrace(before, e, file) && trace[4] == after
  }

  lemma OutputNamed(disk: Disk, job: Job, dir: Path, o: Output, out: Reader)
    requires OutputIs(disk, job, dir, o, out)
    ensures o.meta.path == o.path
  {
    hide Opens, CompactedFrom;
  }

  lemma CoverageAscends(r: Reader)
    ensures StrictlyAscending(ArchetypeIds(r))
  {
    hide ArchetypeIds;
    IdsAscend(r);
  }

  lemma NothingRetired(e: ManifestEntry, disk: Disk)
    requires e.AddRunAndSequence?
    ensures Retired(e) == {} && disk - Retired(e) == disk
  {
  }

  lemma FrameIs(e: ManifestEntry)
    ensures EntryFrame(e) == FrameOf(EncEntry(e))
  {
  }

  lemma InputsCommit(m: ManifestState, job: Job)
    requires NoDup(job.paths)
    ensures Committable(m, job.to, CommitInputs(job)) <==>
      job.to < |m.levels| && forall i :: 0 <= i < |job.paths| ==> m.Has(job.from, job.paths[i])
  {
    hide ManifestState.Has;
    var inputs := CommitInputs(job);
    if Committable(m, job.to, inputs) {
      forall i | 0 <= i < |job.paths| ensures m.Has(job.from, job.paths[i]) {
        assert m.Has(inputs[i].0, inputs[i].1);
      }
    }
  }

  lemma RetiredPaths(job: Job, o: Output)
    ensures Retired(CommitOf(job, o)) == set p | p in job.paths
  {
    var retired := OldPaths(CommitOf(job, o));
    assert retired == job.paths;
  }

  /** A finished compaction leaves its output and every file that was not an input, and no
      input; the log has grown by its entry, and the sequence number is what it was. */
  lemma ExecutedFiles(before: State, after: State, job: Job, o: Output, p: Path)
    requires Executed(before, after, job, o)
    ensures p in after.disk <==> (p in before.disk || p == o.path) && p !in job.paths
    ensures p in after.disk ==> after.disk[p] == if p == o.path then o.file else before.disk[p]
    ensures after.mem.nextSequence == before.mem.nextSequence
    ensures after.log == before.log + EntryFrame(CommitOf(job, o))
  {
    RetiredPaths(job, o);
    AtEnd(before.log, EntryFrame(CommitOf(job, o)));
    hide EntryFrame, Overwrite, Encodable, Retired;
  }

  lemma AdmissibleParts(m: ManifestState, e: ManifestEntry)
    requires Admissible(m, e)
    ensures NewPath(e).Some? && Apply(m, e).Some?
  {
    hide Apply, Tracked, Loggable;
  }

  /** Where the output path is not tracked and the entry fits a frame these states are
      steps of the protocol. */
  lemma TraceFollows(n: nat, before: State, e: ManifestEntry, file: bytes)
    requires before.phase.Idle? && Admissible(before.mem, e)
    ensures Follows(n, CommitTrace(before, e, file))
  {
    hide Admissible, Apply, EntryFrame, Overwrite, Retired;
    AdmissibleParts(before.mem, e);
    var t := CommitTrace(before, e, file);
    assert WriteStep(t[0], t[1], file, e);
    assert AppendStep(t[1], t[2]);
    assert MirrorStep(t[2], t[3]);
    assert DeleteStep(t[3], t[4], Retired(e));
  }
}
