/** The driver loop: compact while the scheduler finds a job. */
module CompactionLoop {
  import opened Bytes
  import opened Order
  import opened Schema
  import opened RunReader
  import opened RunFile
  import opened Merge
  import opened CompactRun
  import opened Archetypes
  import opened RunMeaning
  import opened CompactionMeaning
  import opened Picker
  import opened Executor
  import opened Manifest
  import opened EntryCodec
  import opened ManifestLog
  import opened Protocol
  import opened Engine

  // ── A picked job suits the executor ────────────────────────────────────────

  lemma LevelIsReadable(u: Universe, disk: Disk, runs: seq<SortedRunMeta>, infos: seq<seq<Signature>>)
    requires DiskIn(u, disk) && InfosOf(disk, runs, infos)
    ensures LevelReadable(disk, runs)
  {
    hide Opens, RunSigs, Named, EntitiesReadable, OneRow;
    forall i | 0 <= i < |runs| ensures RunReadable(disk, runs[i]) {
      var r := ReaderAt(disk, runs[i].path).value;
      assert RunIn(u, r);
      WfReadable(r);
    }
  }

  lemma WfReadable(r: Reader)
    requires RunWf(r)
    ensures SchemaOk(r.schema) && Named(r)
  {
    hide Named, EntitiesReadable, OneRow;
  }

  lemma PathOpened(disk: Disk, paths: seq<Path>, readers: seq<Reader>, p: Path) returns (i: nat)
    requires OpenedAs(disk, paths, readers) && p in paths
    ensures i < |readers| && paths[i] == p && ReaderAt(disk, p) == Some(readers[i])
  {
    hide ReaderAt;
    i :| 0 <= i < |paths| && paths[i] == p;
  }

  /** The signatures of a picked job are exactly those of its inputs. */
  lemma JobCovers(disk: Disk, runs: seq<SortedRunMeta>, l: nat, sig: Signature, job: Job, readers: seq<Reader>)
    requires JobFor(disk, runs, l, sig, job) && OpenedAs(disk, job.paths, readers)
    ensures Covers(readers, job.sigs)
  {
    hide ReaderAt, SigLe, SigOf, ArchetypeIds, ArchCount, Opens;
    forall s | 0 <= s < |job.sigs| ensures SomeInputHas(readers, job.sigs[s]) {
      assert job.sigs[s] in job.sigs;
      var k :| 0 <= k < |runs| && RunHas(disk, runs[k], sig) && RunHas(disk, runs[k], job.sigs[s]);
      assert HavingPath(disk, runs, sig, runs[k].path);
      var i := PathOpened(disk, job.paths, readers, runs[k].path);
      assert HasSig(readers[i], job.sigs[s]);
    }
    forall i, a | 0 <= i < |readers| && a in ArchetypeIds(readers[i]) && SigOf(readers[i], a).Some?
      ensures SigOf(readers[i], a).value in job.sigs
    {
      assert job.paths[i] in job.paths && ReaderAt(disk, job.paths[i]) == Some(readers[i]);
      var k :| 0 <= k < |runs| && RunHas(disk, runs[k], sig) && runs[k].path == job.paths[i];
      assert HasSig(readers[i], SigOf(readers[i], a).value);
      assert HavingSig(disk, runs, sig, SigOf(readers[i], a).value);
    }
  }

  lemma JobIsSound(u: Universe, disk: Disk, runs: seq<SortedRunMeta>, l: nat, sig: Signature, job: Job)
    requires DiskIn(u, disk) && JobFor(disk, runs, l, sig, job)
    ensures JobSound(u, job) && |job.paths| > 0
  {
    hide SigLe, SigOf, ArchetypeIds, RunWf, LaidOutIn, Opens, ArchCount;
    forall s | s in job.sigs ensures s in u.sigs {
      var k :| 0 <= k < |runs| && RunHas(disk, runs[k], sig) && RunHas(disk, runs[k], s);
      assert RunIn(u, ReaderAt(disk, runs[k].path).value);
    }
    var i := CountNeedsRun(disk, runs, sig);
    assert HavingPath(disk, runs, sig, runs[i].path);
  }

  // ── The disk stays in the universe ─────────────────────────────────────────

  lemma OutputRunIn(u: Universe, disk: Disk, job: Job, dir: Path, o: Output, out: Reader, runs: seq<SortedRunMeta>,
                    l: nat, sig: Signature)
    requires UniverseOk(u) && DiskIn(u, disk) && JobFor(disk, runs, l, sig, job) && OutputIs(disk, job, dir, o, out)
    ensures RunIn(u, out)
  {
    hide UniverseOk, DiskIn, JobFor, CompactedFrom, Opens, Covers, AllIn, JobWf, RunIn, OpenedAs, IsTable, IsSpan,
      IsCompaction, Inputs;
    var readers, table :| CompactedFrom(disk, job, readers, table, out);
    CompactedParts(disk, job, readers, table, out);
    JobCovers(disk, runs, l, sig, job, readers);
    JobIsSound(u, disk, runs, l, sig, job);
    OpenedIn(u, disk, job.paths, readers);
    SortedJob(u, readers, job.sigs);
    JobIsWf(u, Inputs(readers), job.sigs, table);
    OutputInUniverse(u, Inputs(readers), job.sigs, table, out);
  }

  lemma CompactedParts(disk: Disk, job: Job, readers: seq<Reader>, table: ArchTable, out: Reader)
    requires CompactedFrom(disk, job, readers, table, out)
    ensures OpenedAs(disk, job.paths, readers) && IsTable(Inputs(readers), job.sigs, table)
    ensures IsCompaction(Inputs(readers), table, job.sigs, out)
  {
  }

  lemma DiskStaysIn(u: Universe, disk: Disk, path: Path, file: bytes, out: Reader, gone: set<Path>)
    requires DiskIn(u, disk) && Opens(file, out) && RunIn(u, out)
    ensures DiskIn(u, disk[path := file]) && DiskIn(u, disk[path := file] - gone)
  {
    hide Opens, RunIn;
    forall r | Opens(file, r) ensures RunIn(u, r) {
      OpensUnique(file, r, out);
    }
  }

  // ── Termination ────────────────────────────────────────────────────────────

  /** Runs weighted by the levels left to descend, over the first `k` levels. */
  function Weight(levels: seq<seq<SortedRunMeta>>, k: nat): nat
    requires k <= |levels|
  {
    if k == 0 then 0 else Weight(levels, k - 1) + |levels[k - 1]| * (|levels| - (k - 1))
  }

  /** `drop` runs less on one level and one more on the next weigh less. */
  lemma {:induction false} WeightShift(a: seq<seq<SortedRunMeta>>, b: seq<seq<SortedRunMeta>>, from: nat, drop: nat,
                                       k: nat)
    requires k <= |a| == |b| && from + 1 < |a| && drop > 0
    requires |b[from]| + drop == |a[from]| && |b[from + 1]| == |a[from + 1]| + 1
    requires forall l :: 0 <= l < |a| && l != from && l != from + 1 ==> |b[l]| == |a[l]|
    ensures k <= from ==> Weight(b, k) == Weight(a, k)
    ensures k == from + 1 ==> Weight(b, k) + (|a| - from) <= Weight(a, k)
    ensures k >= from + 2 ==> Weight(b, k) + 1 <= Weight(a, k)
  {
    if k != 0 {
      WeightShift(a, b, from, drop, k - 1);
      var w := |a| - (k - 1);
      if k == from + 1 {
        ProductDrops(|a[from]|, |b[from]|, w);
      } else if k == from + 2 {
        ProductDrops(|b[from + 1]|, |a[from + 1]|, w);
      }
    }
  }

  lemma ProductDrops(x: nat, y: nat, w: nat)
    requires y < x
    ensures y * w + w <= x * w
    ensures x == y + 1 ==> x * w == y * w + w
  {
    ProductSum(y, x - y, w);
    ProductSum(1, x - y - 1, w);
  }

  lemma ProductSum(a: nat, b: nat, w: nat)
    ensures (a + b) * w == a * w + b * w && b * w >= 0
  {
  }

  lemma JobGone(job: Job, l: nat)
    requires l < MAX_LEVELS
    ensures GoneAt(CommitInputs(job), l) == if l == job.from then (set p | p in job.paths) else {}
  {
    var inputs := CommitInputs(job);
    forall p | l == job.from && p in job.paths ensures p in GoneAt(inputs, l) {
      var i :| 0 <= i < |job.paths| && job.paths[i] == p;
      assert inputs[i] in inputs;
    }
  }

  lemma NoPathsGone(job: Job)
    requires |job.paths| > 0
    ensures |set p | p in job.paths| > 0
  {
    var gone := set p | p in job.paths;
    assert job.paths[0] in gone;
    assert gone != {};
  }

  /** A committed job makes the manifest lighter. */
  lemma CommitLightens(m: ManifestState, job: Job, output: SortedRunMeta)
    requires |m.levels| <= MAX_LEVELS && job.to == job.from + 1 && |job.paths| > 0
    requires Committable(m, job.to, CommitInputs(job))
    ensures
      var m' := Committed(m, job.to, output, CommitInputs(job));
      Weight(m'.levels, |m'.levels|) < Weight(m.levels, |m.levels|)
  {
    hide Survivors, GoneAt, Committable;
    var inputs := CommitInputs(job);
    var m' := Committed(m, job.to, output, inputs);
    CommitOut(m, job.to, inputs);
    forall l | 0 <= l < |m.levels|
      ensures |m'.levels[l]| + |GoneAt(inputs, l)| == |m.levels[l]| + if l == job.to then 1 else 0
      ensures GoneAt(inputs, l) == if l == job.from then (set p | p in job.paths) else {}
    {
      CommitConserves(m, job.to, output, inputs, l);
      JobGone(job, l);
    }
    NoPathsGone(job);
    WeightShift(m.levels, m'.levels, job.from, |GoneAt(inputs, job.from)|, |m.levels|);
  }

  // ── The loop ───────────────────────────────────────────────────────────────

  /** The job the scheduler picks: at the first level that is not quiet. */
  ghost predicate NextJob(disk: Disk, levels: seq<seq<SortedRunMeta>>, l: nat, job: Job) {
    l + 1 < |levels| && JobAt(disk, levels[l], l, job) && forall k :: 0 <= k < l ==> Quiet(disk, levels[k])
  }

  ghost predicate NextBroken(disk: Disk, levels: seq<seq<SortedRunMeta>>) {
    exists l :: 0 <= l < |levels| - 1 && Broken(disk, levels[l]) && forall k :: 0 <= k < l ==> Quiet(disk, levels[k])
  }

  /** The picked job gets no commit: it is refused, or its output cannot be written, or
      the commit cannot be encoded. */
  ghost predicate Uncommitted(disk: Disk, job: Job, dir: Path) {
    || JobRefused(disk, job) || JobUnwritable(disk, job)
    || exists o, out :: OutputIs(disk, job, dir, o, out) && !Encodable(CommitOf(job, o))
  }

  /** Why compaction does not go on: the first level that is not quiet has a run that
      cannot be opened, or its job gets no commit. */
  ghost predicate Stuck(disk: Disk, levels: seq<seq<SortedRunMeta>>, dir: Path) {
    NextBroken(disk, levels) || exists l, job :: NextJob(disk, levels, l, job) && Uncommitted(disk, job, dir)
  }

  /** A job carried out: it was the scheduler's, and was not refused. */
  ghost predicate Advanced(before: State, after: State, l: nat, job: Job, dir: Path) {
    NextJob(before.disk, before.mem.levels, l, job) && !JobRefused(before.disk, job)
    && exists trace :: ExecutedAs(before, after, job, dir, trace)
  }

  lemma JobPathsThere(disk: Disk, m: ManifestState, l: nat, sig: Signature, job: Job, i: nat)
    requires l < |m.levels| <= MAX_LEVELS && JobFor(disk, m.levels[l], l, sig, job) && i < |job.paths|
    ensures m.Has(job.from, job.paths[i]) && ReaderAt(disk, job.paths[i]).Some?
  {
    hide ReaderAt, SigLe, HasSig, ArchCount, HavingSig, InLevelOrder, RunsHaving;
    assert job.paths[i] in job.paths;
    var k :| 0 <= k < |m.levels[l]| && RunHas(disk, m.levels[l][k], sig) && m.levels[l][k].path == job.paths[i];
    assert m.levels[l][k] in m.levels[l];
  }

  /** Of what may stop a job only refusal, size and encoding can stop a picked one. */
  lemma PickedHalts(disk: Disk, m: ManifestState, l: nat, sig: Signature, job: Job, dir: Path)
    requires l + 1 < |m.levels| <= MAX_LEVELS && JobFor(disk, LevelOf(m.levels, l), l, sig, job) && |job.paths| > 0
    requires Halted(disk, m, job, dir)
    ensures Uncommitted(disk, job, dir)
  {
    forall i | 0 <= i < |job.paths| ensures m.Has(job.from, job.paths[i]) && ReaderAt(disk, job.paths[i]).Some? {
      JobPathsThere(disk, m, l, sig, job, i);
    }
    JobForParts(disk, m.levels[l], l, sig, job);
    InputsCommit(m, job);
    hide ReaderAt, JobFor, ManifestState.Has, JobRefused, JobUnwritable, OutputIs, Encodable, Committable;
  }

  lemma JobForParts(disk: Disk, runs: seq<SortedRunMeta>, l: nat, sig: Signature, job: Job)
    requires JobFor(disk, runs, l, sig, job)
    ensures job.from == l && job.to == l + 1 && NoDup(job.paths)
  {
    hide HavingPath, HavingSig, SigLe, ArchCount;
  }

  /** The scheduler's job stopped: nothing has changed, or its output has been left behind. */
  ghost predicate LeftBehind(before: State, after: State, dir: Path) {
    after == before || exists l, job, o, out :: LeftOf(before, after, dir, l, job, o, out)
  }

  ghost predicate LeftOf(before: State, after: State, dir: Path, l: nat, job: Job, o: Output, out: Reader) {
    NextJob(before.disk, before.mem.levels, l, job) && OutputIs(before.disk, job, dir, o, out)
    && after == WithFile(before, o.path, o.file)
  }

  datatype Progress = Settled | Compacted | Stopped

  /** compact_one: one job, if there is one. */
  method CompactOne(s: Store, ghost u: Universe) returns (p: Progress)
    requires s.Valid() && UniverseOk(u) && DiskIn(u, s.disk)
    modifies s, s.manifest, s.log
    ensures s.Valid() && DiskIn(u, s.disk)
    ensures p.Settled? ==> s.Snapshot(Idle) == old(s.Snapshot(Idle)) && forall l :: 0 <= l < s.manifest.n - 1 ==> Quiet(s.disk, s.manifest.levels[l])
    ensures p.Stopped? ==> Stuck(old(s.disk), old(s.manifest.levels), s.dir)
    ensures p.Stopped? ==> LeftBehind(old(s.Snapshot(Idle)), s.Snapshot(Idle), s.dir) && s.manifest.State() == old(s.manifest.State())
    ensures p.Compacted? ==> exists l, job :: Advanced(old(s.Snapshot(Idle)), s.Snapshot(Idle), l, job, s.dir)
    ensures p.Compacted? ==> Weight(s.manifest.levels, s.manifest.n) < Weight(old(s.manifest.levels), s.manifest.n)
  {
    hide UniverseOk, DiskIn, Quiet, Broken, JobAt, Weight, Uncommitted, Advanced, Stuck;
    var pick := FindCandidate(s.manifest, s.disk);
    match pick
    case Nothing => p := Settled;
    case Unreadable =>
      assert NextBroken(s.disk, s.manifest.levels);
      BrokenStuck(s.disk, s.manifest.levels, s.dir);
      p := Stopped;
    case Picked(job) =>
      ghost var l :| 0 <= l < s.manifest.n - 1 && JobAt(s.disk, s.manifest.levels[l], l, job)
        && forall k :: 0 <= k < l ==> Quiet(s.disk, s.manifest.levels[k]);
      assert NextJob(s.disk, s.manifest.levels, l, job);
      hide NextJob;
      PickedNext(s.disk, s.manifest.levels, s.dir, l, job);
      var done := RunPicked(s, job, l, u);
      p := if done then Compacted else Stopped;
  }

  lemma PickedNext(disk: Disk, levels: seq<seq<SortedRunMeta>>, dir: Path, l: nat, job: Job)
    requires NextJob(disk, levels, l, job)
    ensures Uncommitted(disk, job, dir) ==> Stuck(disk, levels, dir)
  {
    hide NextJob, Uncommitted, NextBroken;
  }

  lemma BrokenStuck(disk: Disk, levels: seq<seq<SortedRunMeta>>, dir: Path)
    requires NextBroken(disk, levels)
    ensures Stuck(disk, levels, dir)
  {
    hide NextBroken, NextJob, Uncommitted;
  }

  method RunPicked(s: Store, job: Job, ghost l: nat, ghost u: Universe) returns (done: bool)
    requires s.Valid() && UniverseOk(u) && DiskIn(u, s.disk)
    requires NextJob(s.disk, s.manifest.levels, l, job)
    modifies s, s.manifest, s.log
    ensures s.Valid() && DiskIn(u, s.disk)
    ensures !done ==> Uncommitted(old(s.disk), job, s.dir)
    ensures !done ==> LeftBehind(old(s.Snapshot(Idle)), s.Snapshot(Idle), s.dir) && s.manifest.State() == old(s.manifest.State())
    ensures done ==> Advanced(old(s.Snapshot(Idle)), s.Snapshot(Idle), l, job, s.dir)
    ensures done ==> Weight(s.manifest.levels, s.manifest.n) < Weight(old(s.manifest.levels), s.manifest.n)
  {
    hide UniverseOk, DiskIn, JobAt, OutputIs, Executed, Traced, Weight, JobSound, JobFor, Halted, Uncommitted,
      JobRefused, Quiet;
    ghost var before := s.Snapshot(Idle);
    ghost var runs := s.manifest.levels[l];
    ghost var sig := PickedJob(u, s.disk, runs, l, job);
    ghost var trace;
    done, trace := s.Execute(job, u);
    if !done {
      PickedHalts(before.disk, before.mem, l, sig, job, s.dir);
      if s.disk != before.disk {
        ghost var o, out :| OutputIs(before.disk, job, s.dir, o, out) && s.Snapshot(Idle) == WithFile(before, o.path, o.file);
        WrittenKeeps(u, before.disk, job, s.dir, o, out, runs, l, sig);
      }
      if s.Snapshot(Idle) != before {
        ghost var o, out :| OutputIs(before.disk, job, s.dir, o, out) && s.Snapshot(Idle) == WithFile(before, o.path, o.file);
        assert LeftOf(before, s.Snapshot(Idle), s.dir, l, job, o, out);
      }
    } else {
      ghost var o, out :| OutputIs(before.disk, job, s.dir, o, out) && ExecutedTraced(before, s.Snapshot(Idle), job, o, trace);
      WrittenKeeps(u, before.disk, job, s.dir, o, out, runs, l, sig);
      ExecutedDisk(before, s.Snapshot(Idle), job, o);
      ExecutedLightens(before, s.Snapshot(Idle), job, o);
    }
  }

  lemma ExecutedDisk(before: State, after: State, job: Job, o: Output)
    requires Executed(before, after, job, o)
    ensures after.disk == before.disk[o.path := o.file] - Retired(CommitOf(job, o))
  {
  }

  lemma PickedJob(u: Universe, disk: Disk, runs: seq<SortedRunMeta>, l: nat, job: Job) returns (sig: Signature)
    requires DiskIn(u, disk) && JobAt(disk, runs, l, job)
    ensures JobFor(disk, runs, l, sig, job) && JobSound(u, job) && |job.paths| > 0 && job.to == job.from + 1
  {
    hide DiskIn, InfosOf, IsJob, LevelReadable, JobSound, ArchCount, HavingPath, HavingSig, SigLe;
    var infos, t :| InfosOf(disk, runs, infos) && IsJob(runs, infos, l, t, job);
    LevelIsReadable(u, disk, runs, infos);
    sig := JobIsFor(disk, runs, l, job);
    JobIsSound(u, disk, runs, l, sig, job);
  }

  lemma WrittenKeeps(u: Universe, disk: Disk, job: Job, dir: Path, o: Output, out: Reader, runs: seq<SortedRunMeta>,
                     l: nat, sig: Signature)
    requires UniverseOk(u) && DiskIn(u, disk) && JobFor(disk, runs, l, sig, job) && OutputIs(disk, job, dir, o, out)
    ensures DiskIn(u, disk[o.path := o.file]) && DiskIn(u, disk[o.path := o.file] - Retired(CommitOf(job, o)))
  {
    hide UniverseOk, DiskIn, JobFor, CompactedFrom, Opens, RunIn;
    OutputRunIn(u, disk, job, dir, o, out, runs, l, sig);
    DiskStaysIn(u, disk, o.path, o.file, out, Retired(CommitOf(job, o)));
  }

  lemma ExecutedLightens(before: State, after: State, job: Job, o: Output)
    requires Executed(before, after, job, o) && |job.paths| > 0
    requires job.to == job.from + 1 && |before.mem.levels| <= MAX_LEVELS
    ensures |after.mem.levels| == |before.mem.levels|
    ensures Weight(after.mem.levels, |after.mem.levels|) < Weight(before.mem.levels, |before.mem.levels|)
  {
    hide Committed, Committable, Weight, Encodable, Overwrite;
    CommitLightens(before.mem, job, o.meta);
  }

  /** One turn of the loop that compacted. */
  ghost predicate Advances(before: State, after: State, dir: Path) {
    exists l, job :: Advanced(before, after, l, job, dir)
  }

  /** The loop went through these states: the first is the one it was started in, each is
      the one before with the scheduler's job carried out, and every job made the manifest
      lighter. */
  ghost predicate Turns(start: State, states: seq<State>, dir: Path) {
    && |states| > 0 && states[0] == start
    && (forall i :: 0 <= i < |states| - 1 ==> Advances(states[i], states[i + 1], dir))
    && |states| - 1 + TotalWeight(states[|states| - 1]) <= TotalWeight(start)
  }

  function TotalWeight(s: State): nat { Weight(s.mem.levels, |s.mem.levels|) }

  lemma NoTurn(start: State, dir: Path)
    ensures Turns(start, [start], dir)
  {
    hide Advances, TotalWeight;
  }

  lemma NextTurn(start: State, states: seq<State>, dir: Path, last: State, after: State)
    requires Turns(start, states, dir) && IsAt(states, |states| - 1, last) && Advances(last, after, dir)
    requires TotalWeight(after) < TotalWeight(last)
    ensures Turns(start, states + [after], dir)
  {
    hide Advances, TotalWeight;
    var more := states + [after];
    forall i | 0 <= i < |more| - 1 ensures Advances(more[i], more[i + 1], dir) {
      if i < |states| - 1 {
        assert more[i] == states[i] && more[i + 1] == states[i + 1];
      }
    }
  }

  /** Compacting while there is a job ends, whatever the manifest, after at most as many
      jobs as the levels weigh. With no job left the store is in the last of the states gone
      through; otherwise it is stuck there, and at most the output of the next job has been
      left behind. */
  method CompactAll(s: Store, ghost u: Universe) returns (settled: bool, ghost states: seq<State>)
    requires s.Valid() && UniverseOk(u) && DiskIn(u, s.disk)
    modifies s, s.manifest, s.log
    ensures s.Valid() && DiskIn(u, s.disk)
    ensures Turns(old(s.Snapshot(Idle)), states, s.dir)
    ensures settled ==> s.Snapshot(Idle) == states[|states| - 1]
    ensures settled ==> forall l :: 0 <= l < s.manifest.n - 1 ==> Quiet(s.disk, s.manifest.levels[l])
    ensures !settled ==> var last := states[|states| - 1]; Stuck(last.disk, last.mem.levels, s.dir) && LeftBehind(last, s.Snapshot(Idle), s.dir)
  {
    hide UniverseOk, DiskIn, Quiet, Weight, Stuck, Advanced, Turns, LeftBehind;
    ghost var last := s.Snapshot(Idle);
    states := [last];
    NoTurn(last, s.dir);
    while true
      invariant s.Valid() && DiskIn(u, s.disk)
      invariant |states| > 0 && last == states[|states| - 1] == s.Snapshot(Idle)
      invariant Turns(old(s.Snapshot(Idle)), states, s.dir)
      decreases Weight(s.manifest.levels, s.manifest.n)
    {
      var p := CompactOne(s, u);
      match p {
        case Settled => return true, states;
        case Stopped => return false, states;
        case Compacted =>
          assert Advances(last, s.Snapshot(Idle), s.dir);
          NextTurn(old(s.Snapshot(Idle)), states, s.dir, last, s.Snapshot(Idle));
          last := s.Snapshot(Idle);
          states := states + [last];
      }
    }
  }

  /** When the loop has settled, no signature occurs in COMPACTION_TRIGGER archetypes of
      any readable level but the bottom one, unless the level has fewer runs than that;
      and where no run repeats a signature, in COMPACTION_TRIGGER runs. */
  lemma SettledMeans(disk: Disk, levels: seq<seq<SortedRunMeta>>, l: nat, sig: Signature)
    requires l < |levels| && LevelReadable(disk, levels[l]) && Quiet(disk, levels[l])
    ensures |levels[l]| < COMPACTION_TRIGGER || ArchCount(disk, levels[l], sig) < COMPACTION_TRIGGER
    ensures (forall i :: 0 <= i < |levels[l]| ==> RunDistinct(disk, levels[l][i].path)) ==>
      |RunsHaving(disk, levels[l], sig)| < COMPACTION_TRIGGER
  {
    hide RunHas, LevelReadable, Quiet, ArchCount, RunDistinct;
    QuietIff(disk, levels[l]);
    if forall i :: 0 <= i < |levels[l]| ==> RunDistinct(disk, levels[l][i].path) {
      CountIsRuns(disk, levels[l], sig);
      FewRuns(RunsHaving(disk, levels[l], sig), |levels[l]|);
    }
  }

  lemma {:induction false} FewRuns(s: set<nat>, n: nat)
    requires forall i :: i in s ==> i < n
    ensures |s| <= n
  {
    if n != 0 {
      FewRuns(s - {n - 1}, n - 1);
    } else {
      assert s == {};
    }
  }
}
