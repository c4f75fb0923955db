/** The commit protocol of flush and compaction as a step machine: run file, log
    append, in-memory mirror, deletion of inputs, with a crash between any two. */
module Protocol {
  import opened Bytes
  import opened Manifest
  import opened OutputNames
  import opened EntryCodec
  import opened ManifestLog
  import opened LogRecovery

  // ── Tracked paths ──────────────────────────────────────────────────────────

  /** Paths of all runs of all levels. */
  function Tracked(m: ManifestState): set<Path> {
    set l, p | 0 <= l < |m.levels| && p in PathsOf(m.levels[l]) :: p
  }

  predicate DistinctPaths(runs: seq<SortedRunMeta>) {
    forall i, j :: 0 <= i < j < |runs| ==> runs[i].path != runs[j].path
  }

  /** No two runs of the manifest share a path. */
  predicate UniquePaths(m: ManifestState) {
    && (forall l :: 0 <= l < |m.levels| ==> DistinctPaths(m.levels[l]))
    && forall l, k :: 0 <= l < k < |m.levels| ==> PathsOf(m.levels[l]) !! PathsOf(m.levels[k])
  }

  // ── Entries the protocol logs ──────────────────────────────────────────────

  /** The path of the run an entry introduces. */
  function NewPath(e: ManifestEntry): Option<Path> {
    match e
    case AddRunAndSequence(_, meta, _) => Some(meta.path)
    case CompactionCommit(_, output, _) => Some(output.path)
    case _ => None
  }

  /** The paths an entry retires. */
  function OldPaths(e: ManifestEntry): seq<Path> {
    match e
    case CompactionCommit(_, _, inputs) => seq(|inputs|, i requires 0 <= i < |inputs| => inputs[i].1)
    case _ => []
  }

  lemma {:induction false} SurvivorPaths(runs: seq<SortedRunMeta>, gone: set<Path>)
    requires DistinctPaths(runs)
    ensures PathsOf(Survivors(runs, gone)) == PathsOf(runs) - gone
    ensures DistinctPaths(Survivors(runs, gone))
  {
    if |runs| != 0 {
      var r, rest := runs[0], runs[1..];
      assert runs == [r] + rest;
      PathsOfCons(r, rest);
      HeadPath(runs);
      if r.path in gone {
        SurvivorPaths(rest, gone - {r.path});
      } else {
        SurvivorPaths(rest, gone);
        PathsOfCons(r, Survivors(rest, gone));
        PushDistinct(r, Survivors(rest, gone));
      }
    }
  }

  lemma HeadPath(runs: seq<SortedRunMeta>)
    requires |runs| > 0 && DistinctPaths(runs)
    ensures runs[0].path !in PathsOf(runs[1..])
  {
  }

  lemma PushDistinct(r: SortedRunMeta, rest: seq<SortedRunMeta>)
    requires DistinctPaths(rest) && r.path !in PathsOf(rest)
    ensures DistinctPaths([r] + rest)
  {
    assert forall i :: 0 <= i < |rest| ==> rest[i] in rest;
  }

  lemma AppendPath(runs: seq<SortedRunMeta>, r: SortedRunMeta)
    requires DistinctPaths(runs) && r.path !in PathsOf(runs)
    ensures DistinctPaths(runs + [r]) && PathsOf(runs + [r]) == PathsOf(runs) + {r.path}
  {
    assert forall i :: 0 <= i < |runs| ==> runs[i] in runs;
    forall p | p in PathsOf(runs) + {r.path} ensures p in PathsOf(runs + [r]) {
      if p == r.path {
        assert r in runs + [r];
      } else {
        var x :| x in runs && x.path == p;
        assert x in runs + [r];
      }
    }
  }

  lemma TrackedAt(m: ManifestState, p: Path)
    ensures p in Tracked(m) <==> exists l :: 0 <= l < |m.levels| && p in PathsOf(m.levels[l])
  {
  }

  /** Adding a run at an untracked path. */
  lemma AddTracks(m: ManifestState, l: Level, meta: SortedRunMeta)
    requires UniquePaths(m) && l < |m.levels| && meta.path !in Tracked(m)
    ensures UniquePaths(AddedRun(m, l, meta).value)
    ensures Tracked(AddedRun(m, l, meta).value) == Tracked(m) + {meta.path}
  {
    hide PathsOf;
    var m' := AddedRun(m, l, meta).value;
    AppendPath(m.levels[l], meta);
    forall p ensures p in Tracked(m') <==> p in Tracked(m) + {meta.path} {
      TrackedAt(m, p);
      TrackedAt(m', p);
      if k :| 0 <= k < |m.levels| && p in PathsOf(m.levels[k]) {
        assert p in PathsOf(m'.levels[k]);
      }
      if p == meta.path {
        assert p in PathsOf(m'.levels[l]);
      }
    }
  }

  /** A level after a commit holds what it held, and the output on its level, without
      the inputs named there. */
  lemma CommittedLevel(m: ManifestState, out: Level, output: SortedRunMeta, inputs: seq<(Level, Path)>, l: nat)
    requires UniquePaths(m) && Committable(m, out, inputs) && output.path !in Tracked(m) && l < |m.levels|
    ensures
      var after := Committed(m, out, output, inputs).levels[l];
      DistinctPaths(after)
      && PathsOf(after) == PathsOf(m.levels[l]) + (if l == out then {output.path} else {}) - GoneAt(inputs, l)
  {
    hide PathsOf, Survivors, GoneAt;
    if l == out {
      AppendPath(m.levels[l], output);
      SurvivorPaths(m.levels[l] + [output], GoneAt(inputs, l));
    } else {
      assert m.levels[l] + [] == m.levels[l];
      SurvivorPaths(m.levels[l], GoneAt(inputs, l));
    }
  }

  lemma InputAt(m: ManifestState, out: Level, inputs: seq<(Level, Path)>, l: nat, p: Path)
    requires Committable(m, out, inputs) && p in GoneAt(inputs, l)
    ensures l < |m.levels| && p in PathsOf(m.levels[l])
  {
    var i :| 0 <= i < |inputs| && inputs[i] == (l, p);
    assert m.Has(inputs[i].0, inputs[i].1);
  }

  lemma RetiredAt(inputs: seq<(Level, Path)>, out: Level, output: SortedRunMeta, p: Path)
    ensures p in OldPaths(CompactionCommit(out, output, inputs)) <==> exists l: Level :: p in GoneAt(inputs, l)
  {
    var retired := OldPaths(CompactionCommit(out, output, inputs));
    if p in retired {
      var i :| 0 <= i < |retired| && retired[i] == p;
      assert inputs[i] in inputs && p in GoneAt(inputs, inputs[i].0);
    }
    if l: Level :| p in GoneAt(inputs, l) {
      var i :| 0 <= i < |inputs| && inputs[i] == (l, p);
      assert retired[i] == p;
    }
  }

  /** A commit of an untracked output tracks it, and the inputs no longer. */
  lemma CommitTracks(m: ManifestState, out: Level, output: SortedRunMeta, inputs: seq<(Level, Path)>)
    requires UniquePaths(m) && Committable(m, out, inputs) && output.path !in Tracked(m) && |m.levels| <= MAX_LEVELS
    ensures
      var m' := Committed(m, out, output, inputs);
      var retired := OldPaths(CompactionCommit(out, output, inputs));
      UniquePaths(m') && Tracked(m') == Tracked(m) + {output.path} - (set p | p in retired)
  {
    hide PathsOf, GoneAt, Committable, OldPaths, DistinctPaths;
    var m' := Committed(m, out, output, inputs);
    var retired := OldPaths(CompactionCommit(out, output, inputs));
    forall l | 0 <= l < |m.levels|
      ensures DistinctPaths(m'.levels[l])
      ensures PathsOf(m'.levels[l]) == PathsOf(m.levels[l]) + (if l == out then {output.path} else {}) - GoneAt(inputs, l)
    {
      CommittedLevel(m, out, output, inputs, l);
    }
    forall l, k | 0 <= l < k < |m.levels| ensures PathsOf(m'.levels[l]) !! PathsOf(m'.levels[k]) {
      TrackedAt(m, output.path);
    }
    CommitOut(m, out, inputs);
    forall p ensures p in Tracked(m') <==> p in Tracked(m) + {output.path} - (set q | q in retired) {
      CommitTracksAt(m, out, output, inputs, p);
    }
  }

  lemma CommitOut(m: ManifestState, out: Level, inputs: seq<(Level, Path)>)
    requires Committable(m, out, inputs)
    ensures out < |m.levels|
  {
  }

  lemma CommitTracksAt(m: ManifestState, out: Level, output: SortedRunMeta, inputs: seq<(Level, Path)>, p: Path)
    requires UniquePaths(m) && Committable(m, out, inputs) && output.path !in Tracked(m) && |m.levels| <= MAX_LEVELS
    ensures
      p in Tracked(Committed(m, out, output, inputs)) <==>
        (p in Tracked(m) || p == output.path) && p !in OldPaths(CompactionCommit(out, output, inputs))
  {
    hide PathsOf, GoneAt, Committable, OldPaths, DistinctPaths;
    var m' := Committed(m, out, output, inputs);
    CommitOut(m, out, inputs);
    TrackedAt(m, p);
    TrackedAt(m, output.path);
    TrackedAt(m', p);
    RetiredAt(inputs, out, output, p);
    forall l | 0 <= l < |m.levels|
      ensures p in PathsOf(m'.levels[l]) <==> (p in PathsOf(m.levels[l]) || (l == out && p == output.path)) && p !in GoneAt(inputs, l)
      ensures p in GoneAt(inputs, l) ==> p in PathsOf(m.levels[l])
    {
      CommittedLevel(m, out, output, inputs, l);
      if p in GoneAt(inputs, l) { InputAt(m, out, inputs, l, p); }
    }
    forall l: Level | p in GoneAt(inputs, l) ensures l < |m.levels| {
      InputAt(m, out, inputs, l, p);
    }
    forall l, k | 0 <= l < |m.levels| && 0 <= k < |m.levels| && p in PathsOf(m.levels[l]) && p in PathsOf(m.levels[k]) ensures l == k {
      OneLevel(m, p, l, k);
    }
    if l :| 0 <= l < |m.levels| && p in PathsOf(m.levels[l]) {
      assert p in PathsOf(m'.levels[l]) <==> p !in GoneAt(inputs, l);
    }
    assert p == output.path ==> p !in GoneAt(inputs, out);
  }

  lemma OneLevel(m: ManifestState, p: Path, l: nat, k: nat)
    requires UniquePaths(m) && l < |m.levels| && k < |m.levels|
    requires p in PathsOf(m.levels[l]) && p in PathsOf(m.levels[k])
    ensures l == k
  {
    hide PathsOf;
  }

  // ── The machine ────────────────────────────────────────────────────────────

  /** Where an operation is. Writing: the new run's file is on disk, its entry not yet
      logged. Logged: appended, not yet mirrored. Deleting: mirrored, inputs not yet all
      deleted. Down: the process is gone and with it the in-memory manifest. */
  datatype Phase = Idle | Writing(entry: ManifestEntry) | Logged(entry: ManifestEntry) | Deleting(paths: set<Path>) | Down

  /** `wrote` is a history variable: what was last written at each path. */
  datatype State = State(disk: Disk, log: bytes, mem: ManifestState, phase: Phase, wrote: Disk)

  /** The entry an operation logs, the path it names and the manifest it makes, where there
      are such. */
  function Entry(s: State): ManifestEntry {
    match s.phase case Writing(e) => e case Logged(e) => e case _ => SetSequence(0)
  }

  function PathOf(e: ManifestEntry): Path {
    match NewPath(e) case Some(p) => p case None => []
  }

  function Applied(m: ManifestState, e: ManifestEntry): ManifestState {
    match Apply(m, e) case Some(m') => m' case None => m
  }

  /** An entry as flush and compaction make it, for a path that is not tracked. What the
      code checks before it appends, and two things it does not: that the path is not
      tracked and that the encoding fits a frame. */
  ghost predicate Admissible(m: ManifestState, e: ManifestEntry) {
    && (e.AddRunAndSequence? || e.CompactionCommit?) && Loggable(e) && Apply(m, e).Some?
    && PathOf(e) !in Tracked(m) && !EndsWith(PathOf(e), TMP_SUFFIX)
  }

  function Retired(e: ManifestEntry): set<Path> { set p | p in OldPaths(e) }

  /** A run file appears under its final name, all at once; the operation goes on with
      its entry, or fails and leaves the file. */
  ghost predicate WriteStep(s: State, t: State, file: bytes, e: ManifestEntry) {
    && s.phase.Idle? && Admissible(s.mem, e)
    && t == s.(disk := s.disk[PathOf(e) := file], wrote := s.wrote[PathOf(e) := file], phase := Writing(e))
  }

  /** Anything that fails before the log append: a file under a name no run has, be it
      a temporary one or a finished one whose entry was then refused. */
  ghost predicate StrayStep(s: State, t: State, p: Path, file: bytes) {
    s.phase.Idle? && p !in Tracked(s.mem) && t == s.(disk := s.disk[p := file], wrote := s.wrote[p := file])
  }

  ghost predicate AbortStep(s: State, t: State) {
    s.phase.Writing? && t == s.(phase := Idle)
  }

  ghost predicate AppendStep(s: State, t: State) {
    s.phase.Writing? && t == s.(log := Overwrite(s.log, |s.log|, EntryFrame(Entry(s))), phase := Logged(Entry(s)))
  }

  ghost predicate MirrorStep(s: State, t: State) {
    s.phase.Logged? && Apply(s.mem, Entry(s)).Some?
    && t == s.(mem := Applied(s.mem, Entry(s)), phase := Deleting(Retired(Entry(s))))
  }

  /** Some of the retired inputs are deleted; any of them may be left to the sweep. */
  ghost predicate DeleteStep(s: State, t: State, gone: set<Path>) {
    s.phase.Deleting? && gone <= s.phase.paths && t == s.(disk := s.disk - gone, phase := Idle)
  }

  /** A temporary file, or a run file that is not among the known ones. */
  predicate IsOrphan(p: Path, known: set<Path>) {
    EndsWith(p, TMP_SUFFIX) || (EndsWith(p, RUN_SUFFIX) && p !in known)
  }

  /** The files cleanup_orphans deletes. */
  function Orphans(disk: Disk, m: ManifestState): set<Path> {
    set p | p in disk && IsOrphan(p, Tracked(m))
  }

  ghost predicate SweepStep(s: State, t: State, gone: set<Path>) {
    s.phase.Idle? && gone <= Orphans(s.disk, s.mem) && t == s.(disk := s.disk - gone)
  }

  /** The process dies. Inside an append any prefix of the frame may have reached the
      file; elsewhere the log is what it was. */
  ghost predicate CrashStep(s: State, t: State, cut: nat) {
    && t.phase.Down? && t.disk == s.disk && t.wrote == s.wrote
    && t.log == if s.phase.Writing? && cut <= |EntryFrame(Entry(s))| then s.log + EntryFrame(Entry(s))[..cut] else s.log
  }

  ghost predicate RecoverStep(n: nat, s: State, t: State) {
    s.phase.Down? && RecoverFile(s.log, n).Some?
    && t == s.(log := RecoverFile(s.log, n).value.file, mem := RecoverFile(s.log, n).value.state, phase := Idle)
  }

  ghost predicate Next(n: nat, s: State, t: State) {
    || (exists file, e :: WriteStep(s, t, file, e))
    || (exists p, file :: StrayStep(s, t, p, file))
    || AbortStep(s, t) || AppendStep(s, t) || MirrorStep(s, t)
    || (exists gone :: DeleteStep(s, t, gone))
    || (exists gone :: SweepStep(s, t, gone))
    || (exists cut :: CrashStep(s, t, cut))
    || RecoverStep(n, s, t)
  }

  // ── The invariant ──────────────────────────────────────────────────────────

  /** The manifest a recovery would find, where it finds one. */
  ghost function Durable(n: nat, s: State): ManifestState {
    match RecoverFile(s.log, n) case Some(r) => r.state case None => s.mem
  }

  /** Every run the manifest names is on disk, as it was written, under a path of its
      own that the sweep spares. */
  ghost predicate Present(s: State, m: ManifestState) {
    && UniquePaths(m) && |m.levels| <= MAX_LEVELS
    && forall p :: p in Tracked(m) ==> p in s.disk && p in s.wrote && s.disk[p] == s.wrote[p] && !EndsWith(p, TMP_SUFFIX)
  }

  ghost predicate Inv(n: nat, s: State) {
    && RecoverFile(s.log, n).Some? && Present(s, Durable(n, s))
    && (!s.phase.Down? ==> Clean(s.log, n, Durable(n, s)))
    && match s.phase
       case Idle => s.mem == Durable(n, s)
       case Writing(e) => s.mem == Durable(n, s) && Admissible(s.mem, e) && NewFile(s, PathOf(e))
       case Logged(e) => Apply(s.mem, e) == Some(Durable(n, s)) && Retired(e) !! Tracked(Durable(n, s))
       case Deleting(paths) => s.mem == Durable(n, s) && paths !! Tracked(s.mem)
       case Down => true
  }

  predicate NewFile(s: State, p: Path) { p in s.disk && p in s.wrote && s.disk[p] == s.wrote[p] }

  /** What an applied entry tracks: the new run's path, and no longer the retired ones. */
  lemma ApplyTracks(m: ManifestState, e: ManifestEntry)
    requires UniquePaths(m) && |m.levels| <= MAX_LEVELS && Admissible(m, e)
    ensures
      var m' := Applied(m, e);
      UniquePaths(m') && |m'.levels| == |m.levels| && Tracked(m') == Tracked(m) + {PathOf(e)} - Retired(e)
  {
    hide UniquePaths, Tracked, Committed, Committable, Loggable, EndsWith;
    match e
    case AddRunAndSequence(l, meta, next) =>
      AddTracks(m, l, meta);
      SameTracked(AddedRun(m, l, meta).value, next);
    case CompactionCommit(out, output, inputs) =>
      CommitTracks(m, out, output, inputs);
  }

  lemma SameTracked(m: ManifestState, next: u64)
    ensures UniquePaths(m.(nextSequence := next)) == UniquePaths(m) && Tracked(m.(nextSequence := next)) == Tracked(m)
  {
  }

  // ── Steps keep it ──────────────────────────────────────────────────────────

  /** A clean log recovers its own manifest, whole. */
  lemma CleanDurable(n: nat, s: State, m: ManifestState)
    requires Clean(s.log, n, m)
    ensures RecoverFile(s.log, n) == Some(Recovered(m, s.log, |s.log|)) && Durable(n, s) == m
  {
    hide Replay, HeaderOk;
    CleanRecovers(s.log, n, m);
  }

  /** A file at an untracked path disturbs no run. */
  lemma WriteKeeps(s: State, m: ManifestState, p: Path, file: bytes)
    requires Present(s, m) && p !in Tracked(m)
    ensures Present(s.(disk := s.disk[p := file], wrote := s.wrote[p := file]), m)
  {
    hide Tracked, UniquePaths, EndsWith;
  }

  lemma PresentIgnores(s: State, t: State, m: ManifestState)
    requires Present(s, m) && t.wrote == s.wrote
    requires forall p :: p in Tracked(m) && p in s.disk ==> p in t.disk && t.disk[p] == s.disk[p]
    ensures Present(t, m)
  {
    hide Tracked, UniquePaths, EndsWith;
  }

  /** The new file is on disk before its entry is logged, so the manifest that the entry
      makes durable names only runs that exist. */
  lemma AppendKeeps(n: nat, s: State, t: State)
    requires Inv(n, s) && AppendStep(s, t)
    ensures Inv(n, t)
    ensures Durable(n, t) == Applied(s.mem, Entry(s))
  {
    hide Tracked, UniquePaths, EndsWith, Clean, Apply, Loggable, RecoverFile, EntryFrame, Overwrite, Encodable,
      NewPath, Retired;
    var e := Entry(s);
    var m' := Applied(s.mem, e);
    LoggableIs(e);
    AppendToClean(s.log, n, s.mem, e);
    CleanDurable(n, t, m');
    ApplyTracks(s.mem, e);
  }

  lemma LoggableIs(e: ManifestEntry)
    ensures Loggable(e) ==> Encodable(e)
  {
  }

  lemma CrashKeeps(n: nat, s: State, t: State, cut: nat)
    requires Inv(n, s) && CrashStep(s, t, cut)
    ensures Inv(n, t)
    ensures Durable(n, t) ==
      if s.phase.Writing? && cut == |EntryFrame(Entry(s))| then Applied(s.mem, Entry(s)) else Durable(n, s)
  {
    hide Tracked, UniquePaths, EndsWith, Clean, Apply, Loggable, RecoverFile, EntryFrame, Overwrite, Encodable,
      NewPath, Retired, Admissible;
    if s.phase.Writing? && cut <= |EntryFrame(Entry(s))| {
      TornCrash(n, s, t, cut);
    } else {
      PresentIgnores(s, t, Durable(n, s));
    }
  }

  lemma TornCrash(n: nat, s: State, t: State, cut: nat)
    requires Inv(n, s) && CrashStep(s, t, cut) && s.phase.Writing? && cut <= |EntryFrame(Entry(s))|
    ensures Inv(n, t)
    ensures Durable(n, t) == if cut == |EntryFrame(Entry(s))| then Applied(s.mem, Entry(s)) else s.mem
  {
    hide Tracked, UniquePaths, EndsWith, Clean, Apply, Loggable, RecoverFile, EntryFrame, Overwrite, Encodable,
      NewPath, Retired;
    var e := Entry(s);
    LoggableIs(e);
    if cut == |EntryFrame(e)| {
      assert EntryFrame(e)[..cut] == EntryFrame(e);
      AppendToClean(s.log, n, s.mem, e);
      CleanDurable(n, t, Applied(s.mem, e));
      ApplyTracks(s.mem, e);
    } else {
      TornAppend(s.log, n, s.mem, e, cut);
      PresentIgnores(s, t, s.mem);
    }
  }

  lemma RecoverKeeps(n: nat, s: State, t: State)
    requires Inv(n, s) && RecoverStep(n, s, t)
    ensures Inv(n, t)
    ensures t.mem == Durable(n, s) == Durable(n, t)
  {
    hide Tracked, UniquePaths, EndsWith, Clean, RecoverFile;
    RecoveredIsClean(s.log, n);
    CleanDurable(n, t, t.mem);
    PresentIgnores(s, t, t.mem);
  }

  lemma MirrorKeeps(n: nat, s: State, t: State)
    requires Inv(n, s) && MirrorStep(s, t)
    ensures Inv(n, t)
  {
    hide Tracked, UniquePaths, EndsWith, Clean, Apply, RecoverFile, Retired;
    PresentIgnores(s, t, Durable(n, s));
  }

  lemma WriteStepKeeps(n: nat, s: State, t: State, file: bytes, e: ManifestEntry)
    requires Inv(n, s) && WriteStep(s, t, file, e)
    ensures Inv(n, t)
  {
    hide Tracked, UniquePaths, EndsWith, Clean, Apply, Loggable, RecoverFile;
    WriteKeeps(s, s.mem, PathOf(e), file);
    PresentIgnores(s.(disk := t.disk, wrote := t.wrote), t, s.mem);
  }

  lemma DeletionKeeps(n: nat, s: State, t: State, gone: set<Path>)
    requires Inv(n, s) && !s.phase.Down? && s.mem == Durable(n, s) && gone !! Tracked(s.mem)
    requires t == s.(disk := s.disk - gone, phase := Idle)
    ensures Inv(n, t)
  {
    hide Tracked, UniquePaths, EndsWith, Clean, RecoverFile;
    PresentIgnores(s, t, s.mem);
  }

  /** The sweep never touches a tracked run. */
  lemma OrphansUntracked(s: State, m: ManifestState)
    requires Present(s, m)
    ensures Orphans(s.disk, m) !! Tracked(m)
  {
    hide Tracked, UniquePaths, EndsWith;
  }

  lemma StrayKeeps(n: nat, s: State, t: State, p: Path, file: bytes)
    requires Inv(n, s) && StrayStep(s, t, p, file)
    ensures Inv(n, t)
  {
    hide Tracked, UniquePaths, EndsWith, Clean, RecoverFile;
    WriteKeeps(s, s.mem, p, file);
  }

  lemma AbortKeeps(n: nat, s: State, t: State)
    requires Inv(n, s) && AbortStep(s, t)
    ensures Inv(n, t)
  {
    hide Tracked, UniquePaths, EndsWith, Clean, RecoverFile, Admissible;
    PresentIgnores(s, t, s.mem);
  }

  /** Every step keeps the invariant. */
  lemma NextKeeps(n: nat, s: State, t: State)
    requires Inv(n, s) && Next(n, s, t)
    ensures Inv(n, t)
  {
    hide Inv, WriteStep, StrayStep, AbortStep, AppendStep, MirrorStep, DeleteStep, SweepStep, CrashStep, RecoverStep;
    if file, e :| WriteStep(s, t, file, e) {
      WriteStepKeeps(n, s, t, file, e);
    } else if p, file :| StrayStep(s, t, p, file) {
      StrayKeeps(n, s, t, p, file);
    } else if AbortStep(s, t) {
      AbortKeeps(n, s, t);
    } else if AppendStep(s, t) {
      AppendKeeps(n, s, t);
    } else if MirrorStep(s, t) {
      MirrorKeeps(n, s, t);
    } else if gone :| DeleteStep(s, t, gone) {
      DeleteKeeps(n, s, t, gone);
    } else if gone :| SweepStep(s, t, gone) {
      SweepKeeps(n, s, t, gone);
    } else if cut :| CrashStep(s, t, cut) {
      CrashKeeps(n, s, t, cut);
    } else {
      RecoverKeeps(n, s, t);
    }
  }

  lemma DeleteKeeps(n: nat, s: State, t: State, gone: set<Path>)
    requires Inv(n, s) && DeleteStep(s, t, gone)
    ensures Inv(n, t)
  {
    hide Tracked, Present, Clean, RecoverFile;
    DeletionKeeps(n, s, t, gone);
  }

  lemma SweepKeeps(n: nat, s: State, t: State, gone: set<Path>)
    requires Inv(n, s) && SweepStep(s, t, gone)
    ensures Inv(n, t)
  {
    OrphansUntracked(s, s.mem);
    hide Tracked, Present, Clean, RecoverFile, Orphans;
    DeletionKeeps(n, s, t, gone);
  }

  // ── Safety over whole runs ─────────────────────────────────────────────────

  function Start(n: nat): State
    requires n <= MAX_LEVELS
  {
    State(map[], Header(n), EmptyState(n), Idle, map[])
  }

  lemma StartInv(n: nat)
    requires n <= MAX_LEVELS
    ensures Inv(n, Start(n))
  {
    HeaderIsClean(n);
    CleanDurable(n, Start(n), EmptyState(n));
    hide Clean, RecoverFile;
    assert forall l :: 0 <= l < n ==> PathsOf(EmptyState(n).levels[l]) == {};
    assert Tracked(EmptyState(n)) == {};
  }

  ghost predicate IsRun(n: nat, states: seq<State>) {
    && n <= MAX_LEVELS && |states| > 0 && states[0] == Start(n)
    && forall i :: 0 <= i < |states| - 1 ==> Next(n, states[i], states[i + 1])
  }

  lemma {:induction false} RunInv(n: nat, states: seq<State>, i: nat)
    requires IsRun(n, states) && i < |states|
    ensures Inv(n, states[i])
  {
    hide Next, Inv;
    if i == 0 {
      StartInv(n);
    } else {
      RunInv(n, states, i - 1);
      NextKeeps(n, states[i - 1], states[i]);
    }
  }

  /** Crash safety: in every run of flushes, compactions, failures, sweeps, crashes and
      recoveries, what a recovery would find names only runs that are on disk as they
      were written, and when nothing is in flight it is the in-memory manifest. */
  lemma CrashSafe(n: nat, states: seq<State>, i: nat)
    requires IsRun(n, states) && i < |states|
    ensures RecoverFile(states[i].log, n).Some?
    ensures
      var s, m := states[i], RecoverFile(states[i].log, n).value.state;
      && (forall p :: p in Tracked(m) ==> p in s.disk && p in s.wrote && s.disk[p] == s.wrote[p])
      && (s.phase.Idle? ==> s.mem == m)
  {
    hide Tracked, UniquePaths, EndsWith, Clean, RecoverFile, IsRun;
    RunInv(n, states, i);
  }

  /** A crash loses nothing and invents nothing: the manifest recovered after it is the
      one before the operation or the one after it, and the latter exactly when the
      whole frame of its entry reached the log. */
  lemma CrashIsAtomic(n: nat, s: State, down: State, up: State, cut: nat)
    requires Inv(n, s) && !s.phase.Down? && CrashStep(s, down, cut) && RecoverStep(n, down, up)
    ensures match s.phase
      case Writing(e) => up.mem == if cut == |EntryFrame(e)| then Applied(s.mem, e) else s.mem
      case Logged(e) => Apply(s.mem, e) == Some(up.mem)
      case _ => up.mem == s.mem
    ensures Inv(n, up)
  {
    hide Tracked, Present, Clean, RecoverFile, Apply, EntryFrame, Admissible, CrashStep;
    CrashKeeps(n, s, down, cut);
    RecoverKeeps(n, down, up);
  }

  // ── When the output path is tracked already ────────────────────────────────

  ghost predicate AllPresent(disk: Disk, m: ManifestState) {
    UniquePaths(m) && forall p :: p in Tracked(m) ==> p in disk
  }

  lemma OutputLevelKept(m: ManifestState, out: Level, output: SortedRunMeta, inputs: seq<(Level, Path)>)
    requires Committable(m, out, inputs) && forall i :: 0 <= i < |inputs| ==> inputs[i].0 != out
    ensures Committed(m, out, output, inputs).levels[out] == m.levels[out] + [output]
    ensures output.path in PathsOf(Committed(m, out, output, inputs).levels[out])
  {
    assert GoneAt(inputs, out) == {};
    SurvivorsNone(m.levels[out] + [output], {});
    assert (m.levels[out] + [output])[|m.levels[out]|] == output;
  }

  /** An output path that another run has: either the file goes with the inputs, or two
      runs share it. */
  lemma TrackedOutput(disk: Disk, m: ManifestState, out: Level, output: SortedRunMeta, inputs: seq<(Level, Path)>)
    requires UniquePaths(m) && Committable(m, out, inputs) && forall i :: 0 <= i < |inputs| ==> inputs[i].0 != out
    requires output.path in Tracked(m)
    ensures !AllPresent(disk - Retired(CompactionCommit(out, output, inputs)), Committed(m, out, output, inputs))
  {
    var m', p := Committed(m, out, output, inputs), output.path;
    OutputLevelKept(m, out, output, inputs);
    hide PathsOf, Survivors, GoneAt, OldPaths, Committable, DistinctPaths;
    TrackedAt(m, p);
    TrackedAt(m', p);
    RetiredAt(inputs, out, output, p);
    if p !in Retired(CompactionCommit(out, output, inputs)) {
      var k :| 0 <= k < |m.levels| && p in PathsOf(m.levels[k]);
      SharedOutput(m, out, output, inputs, k);
    }
  }

  /** A run at the output's path that is no input still shares it after the commit. */
  lemma SharedOutput(m: ManifestState, out: Level, output: SortedRunMeta, inputs: seq<(Level, Path)>, k: nat)
    requires UniquePaths(m) && Committable(m, out, inputs) && forall i :: 0 <= i < |inputs| ==> inputs[i].0 != out
    requires k < |m.levels| && output.path in PathsOf(m.levels[k])
    requires output.path !in OldPaths(CompactionCommit(out, output, inputs))
    ensures !UniquePaths(Committed(m, out, output, inputs))
  {
    var m', p := Committed(m, out, output, inputs), output.path;
    OutputLevelKept(m, out, output, inputs);
    RetiredAt(inputs, out, output, p);
    hide PathsOf, Survivors, GoneAt, OldPaths, Committable;
    if k == out {
      TwoInLevel(m.levels[out], output);
    } else {
      SurvivorPaths(m.levels[k], GoneAt(inputs, k));
      assert m.levels[k] + [] == m.levels[k];
      SharedPath(m', p, k, out);
    }
  }

  lemma TwoInLevel(runs: seq<SortedRunMeta>, r: SortedRunMeta)
    requires r.path in PathsOf(runs)
    ensures !DistinctPaths(runs + [r])
  {
    var x :| x in runs && x.path == r.path;
    var i :| 0 <= i < |runs| && runs[i] == x;
    assert (runs + [r])[i].path == (runs + [r])[|runs|].path;
  }

  lemma SharedPath(m: ManifestState, p: Path, k: nat, l: nat)
    requires k != l && k < |m.levels| && l < |m.levels| && p in PathsOf(m.levels[k]) && p in PathsOf(m.levels[l])
    ensures !UniquePaths(m)
  {
    hide PathsOf;
    if UniquePaths(m) {
      OneLevel(m, p, k, l);
    }
  }

  /** A compaction whose inputs are on other levels than its output, run to its end,
      leaves every run of the manifest a file of its own if and only if the output path
      was not tracked before. The executor does not check it. */
  lemma OutputPathMustBeFresh(disk: Disk, m: ManifestState, out: Level, output: SortedRunMeta,
                              inputs: seq<(Level, Path)>, file: bytes)
    requires AllPresent(disk, m) && |m.levels| <= MAX_LEVELS && Committable(m, out, inputs)
    requires forall i :: 0 <= i < |inputs| ==> inputs[i].0 != out
    ensures
      var after := disk[output.path := file] - Retired(CompactionCommit(out, output, inputs));
      AllPresent(after, Committed(m, out, output, inputs)) <==> output.path !in Tracked(m)
  {
    hide Committable, Committed, Tracked, UniquePaths, OldPaths;
    if output.path in Tracked(m) {
      TrackedOutput(disk[output.path := file], m, out, output, inputs);
    } else {
      CommitTracks(m, out, output, inputs);
    }
  }
}
