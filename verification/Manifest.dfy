/** The in-memory manifest: sorted-run metadata arranged in N levels, the log
    entries that change it, and what applying an entry means. */
module Manifest {
  import opened Bytes

  type Path = bytes

  /** Files by path. */
  type Disk = map<Path, bytes>

  const MAX_LEVELS: nat := 32

  type Level = x: int | 0 <= x < MAX_LEVELS

  /** The level flushed runs go to. */
  const FLUSH_LEVEL: Level := 0

  predicate StrictlyAscending(s: seq<u16>) {
    forall i :: 0 <= i < |s| - 1 ==> s[i] < s[i + 1]
  }

  datatype RunMeta = RunMeta(path: Path, lo: u64, hi: u64, coverage: seq<u16>, pageCount: u64, sizeBytes: u64) {
    /** What SeqRange::new, PageCount::new and SortedRunMeta::new enforce together. */
    predicate Ok() {
      lo <= hi && pageCount != 0 && StrictlyAscending(coverage)
    }
  }

  type SortedRunMeta = m: RunMeta | m.Ok() witness RunMeta([], 0, 0, [], 1, 0)

  datatype ManifestEntry =
    | AddRun(level: Level, meta: SortedRunMeta)
    | RemoveRun(level: Level, path: Path)
    | PromoteRun(fromLevel: Level, toLevel: Level, path: Path)
    | SetSequence(next: u64)
    | AddRunAndSequence(level: Level, meta: SortedRunMeta, next: u64)
    | CompactionCommit(outputLevel: Level, output: SortedRunMeta, inputs: seq<(Level, Path)>)

  datatype ManifestState = ManifestState(levels: seq<seq<SortedRunMeta>>, nextSequence: u64) {
    /** The runs of a level; a level the manifest does not have holds none. */
    function RunsAt(l: Level): seq<SortedRunMeta> {
      if l < |levels| then levels[l] else []
    }

    predicate Has(l: Level, p: Path) {
      p in PathsOf(RunsAt(l))
    }
  }

  function EmptyState(n: nat): (m: ManifestState)
    ensures |m.levels| == n && forall i :: 0 <= i < n ==> m.levels[i] == []
  {
    ManifestState(seq(n, i => []), 0)
  }

  function PathsOf(runs: seq<SortedRunMeta>): set<Path> {
    set r | r in runs :: r.path
  }

  // ── What removal means ─────────────────────────────────────────────────────

  /** `runs` in order, without the first run at each path of `gone`. */
  function Survivors(runs: seq<SortedRunMeta>, gone: set<Path>): seq<SortedRunMeta> {
    if |runs| == 0 then []
    else if runs[0].path in gone then Survivors(runs[1..], gone - {runs[0].path})
    else [runs[0]] + Survivors(runs[1..], gone)
  }

  /** The runs that `Survivors` leaves out, in order. */
  function Removed(runs: seq<SortedRunMeta>, gone: set<Path>): seq<SortedRunMeta> {
    if |runs| == 0 then []
    else if runs[0].path in gone then [runs[0]] + Removed(runs[1..], gone - {runs[0].path})
    else Removed(runs[1..], gone)
  }

  lemma {:induction false} SurvivorsNone(runs: seq<SortedRunMeta>, gone: set<Path>)
    requires gone !! PathsOf(runs)
    ensures Survivors(runs, gone) == runs
  {
    if |runs| != 0 {
      assert runs[0] in runs && forall r :: r in runs[1..] ==> r in runs;
      SurvivorsNone(runs[1..], gone);
    }
  }

  /** Removing one more path from the survivors is surviving one path more: the
      step that ties one-at-a-time removal to the all-at-once meaning. */
  lemma {:induction false} SurvivorsStep(runs: seq<SortedRunMeta>, gone: set<Path>, p: Path)
    requires p !in gone
    ensures Survivors(Survivors(runs, gone), {p}) == Survivors(runs, gone + {p})
    ensures p in PathsOf(Survivors(runs, gone)) <==> p in PathsOf(runs)
  {
    if |runs| != 0 {
      var r := runs[0];
      var rest := runs[1..];
      assert runs == [r] + rest;
      if r.path in gone {
        SurvivorsStep(rest, gone - {r.path}, p);
        assert gone + {p} - {r.path} == gone - {r.path} + {p};
      } else if r.path == p {
        var tail := Survivors(rest, gone);
        assert Survivors(runs, gone) == [r] + tail && ([r] + tail)[1..] == tail;
        assert {p} - {r.path} == {};
        SurvivorsNone(tail, {});
        assert gone + {p} - {r.path} == gone;
        assert r in runs && r in Survivors(runs, gone);
      } else {
        SurvivorsStep(rest, gone, p);
        var tail := Survivors(rest, gone);
        assert Survivors(runs, gone) == [r] + tail && ([r] + tail)[1..] == tail;
        assert PathsOf([r] + tail) == {r.path} + PathsOf(tail);
        assert PathsOf(runs) == {r.path} + PathsOf(rest);
      }
    }
  }

  /** Conservation: survivors and removed runs together are the runs there were,
      and exactly one run goes for every path of `gone` that was present. */
  lemma SurvivorsConserve(runs: seq<SortedRunMeta>, gone: set<Path>)
    ensures multiset(Survivors(runs, gone)) + multiset(Removed(runs, gone)) == multiset(runs)
    ensures PathsOf(Removed(runs, gone)) == gone * PathsOf(runs)
    ensures |Removed(runs, gone)| == |gone * PathsOf(runs)|
  {
    SurvivorsMultiset(runs, gone);
    RemovedPaths(runs, gone);
  }

  lemma {:induction false} SurvivorsMultiset(runs: seq<SortedRunMeta>, gone: set<Path>)
    ensures multiset(Survivors(runs, gone)) + multiset(Removed(runs, gone)) == multiset(runs)
  {
    if |runs| != 0 {
      var r, rest := runs[0], runs[1..];
      assert runs == [r] + rest;
      var less := if r.path in gone then gone - {r.path} else gone;
      SurvivorsMultiset(rest, less);
      MultisetCons(r, rest);
      MultisetCons(r, if r.path in gone then Removed(rest, less) else Survivors(rest, less));
    }
  }

  lemma MultisetCons(r: SortedRunMeta, rest: seq<SortedRunMeta>)
    ensures multiset([r] + rest) == multiset{r} + multiset(rest)
  {
  }

  lemma {:induction false} RemovedPaths(runs: seq<SortedRunMeta>, gone: set<Path>)
    ensures PathsOf(Removed(runs, gone)) == gone * PathsOf(runs)
    ensures |Removed(runs, gone)| == |gone * PathsOf(runs)|
  {
    if |runs| != 0 {
      var r, rest := runs[0], runs[1..];
      assert runs == [r] + rest;
      PathsOfCons(r, rest);
      if r.path in gone {
        RemovedPaths(rest, gone - {r.path});
        PathsOfCons(r, Removed(rest, gone - {r.path}));
        assert gone * PathsOf(runs) == {r.path} + (gone - {r.path}) * PathsOf(rest);
      } else {
        RemovedPaths(rest, gone);
        assert gone * PathsOf(runs) == gone * PathsOf(rest);
      }
    }
  }

  lemma PathsOfCons(r: SortedRunMeta, rest: seq<SortedRunMeta>)
    ensures PathsOf([r] + rest) == {r.path} + PathsOf(rest)
  {
    forall p | p in {r.path} + PathsOf(rest) ensures p in PathsOf([r] + rest) {
      if p == r.path {
        assert ([r] + rest)[0] == r;
      } else {
        var x :| x in rest && x.path == p;
        assert x in [r] + rest;
      }
    }
  }

  /** Position of the first run at `path`. */
  function Position(runs: seq<SortedRunMeta>, path: Path): (r: Option<nat>)
    ensures r.None? ==> path !in PathsOf(runs)
    ensures r.Some? ==> r.value < |runs| && runs[r.value].path == path
    ensures r.Some? ==> path in PathsOf(runs) && path !in PathsOf(runs[..r.value])
  {
    if |runs| == 0 then None
    else if runs[0].path == path then assert runs[0] in runs; Some(0)
    else
      assert runs == [runs[0]] + runs[1..];
      var rest := Position(runs[1..], path);
      if rest.None? then None
      else
        assert runs[..rest.value + 1] == [runs[0]] + runs[1..][..rest.value];
        assert runs[rest.value + 1] in runs;
        Some(rest.value + 1)
  }

  lemma {:induction false} PositionSurvivors(runs: seq<SortedRunMeta>, i: nat)
    requires i < |runs| && runs[i].path !in PathsOf(runs[..i])
    ensures Survivors(runs, {runs[i].path}) == runs[..i] + runs[i + 1..]
    ensures Removed(runs, {runs[i].path}) == [runs[i]]
  {
    var p := runs[i].path;
    if i == 0 {
      assert {p} - {p} == {};
      SurvivorsNone(runs[1..], {});
      RemovedNone(runs[1..]);
    } else {
      assert runs[..i][0] == runs[0] && runs[0] in runs[..i];
      assert forall r :: r in runs[1..][..i - 1] ==> r in runs[..i];
      PositionSurvivors(runs[1..], i - 1);
      assert runs[..i] + runs[i + 1..] == [runs[0]] + (runs[1..][..i - 1] + runs[1..][i..]);
    }
  }

  lemma {:induction false} RemovedNone(runs: seq<SortedRunMeta>)
    ensures Removed(runs, {}) == []
  {
    if |runs| != 0 { RemovedNone(runs[1..]); }
  }

  // ── What applying an entry means ───────────────────────────────────────────

  function AddedRun(m: ManifestState, l: Level, meta: SortedRunMeta): Option<ManifestState> {
    if l >= |m.levels| then None
    else Some(m.(levels := m.levels[l := m.levels[l] + [meta]]))
  }

  function RemovedRun(m: ManifestState, l: Level, p: Path): Option<ManifestState> {
    if !m.Has(l, p) then None
    else Some(m.(levels := m.levels[l := Survivors(m.levels[l], {p})]))
  }

  predicate DistinctInputs(inputs: seq<(Level, Path)>) {
    forall i, j :: 0 <= i < j < |inputs| ==> inputs[i] != inputs[j]
  }

  /** The paths that `inputs` names at level `l`. */
  function GoneAt(inputs: seq<(Level, Path)>, l: int): set<Path> {
    set e: (Level, Path) | e in inputs && e.0 == l :: e.1
  }

  predicate Committable(m: ManifestState, out: Level, inputs: seq<(Level, Path)>) {
    && out < |m.levels|
    && DistinctInputs(inputs)
    && forall i :: 0 <= i < |inputs| ==> m.Has(inputs[i].0, inputs[i].1)
  }

  /** Every level as a commit leaves it: old runs (and the output, on its level)
      without the first run of each input named there. */
  function Committed(m: ManifestState, out: Level, output: SortedRunMeta, inputs: seq<(Level, Path)>): ManifestState {
    m.(levels := seq(|m.levels|, l requires 0 <= l < |m.levels| =>
      Survivors(m.levels[l] + (if l == out then [output] else []), GoneAt(inputs, l))))
  }

  /** The manifest after `e`, or nothing when `e` cannot apply. */
  function Apply(m: ManifestState, e: ManifestEntry): (r: Option<ManifestState>)
    ensures r.Some? ==> |r.value.levels| == |m.levels|
  {
    match e
    case AddRun(l, meta) => AddedRun(m, l, meta)
    case RemoveRun(l, p) => RemovedRun(m, l, p)
    case PromoteRun(from, to, p) =>
      if from >= |m.levels| || to >= |m.levels| || !m.Has(from, p) then None
      else
        var meta := m.levels[from][Position(m.levels[from], p).value];
        AddedRun(RemovedRun(m, from, p).value, to, meta)
    case SetSequence(s) => Some(m.(nextSequence := s))
    case AddRunAndSequence(l, meta, s) =>
      if l >= |m.levels| then None
      else Some(AddedRun(m, l, meta).value.(nextSequence := s))
    case CompactionCommit(out, output, inputs) =>
      if Committable(m, out, inputs) then Some(Committed(m, out, output, inputs)) else None
  }

  /** A successful commit conserves runs level by level: old plus output minus one
      run per input, survivors in their old order, sequence number untouched. */
  lemma CommitConserves(m: ManifestState, out: Level, output: SortedRunMeta, inputs: seq<(Level, Path)>, l: Level)
    requires Committable(m, out, inputs) && l < |m.levels|
    ensures
      var before := m.levels[l] + (if l == out then [output] else []);
      var after := Committed(m, out, output, inputs).levels[l];
      && after == Survivors(before, GoneAt(inputs, l))
      && multiset(after) + multiset(Removed(before, GoneAt(inputs, l))) == multiset(before)
      && PathsOf(Removed(before, GoneAt(inputs, l))) == GoneAt(inputs, l)
      && |after| + |GoneAt(inputs, l)| == |before|
    ensures Committed(m, out, output, inputs).nextSequence == m.nextSequence
  {
    var before := m.levels[l] + (if l == out then [output] else []);
    var gone := GoneAt(inputs, l);
    SurvivorsConserve(before, gone);
    forall p | p in gone ensures p in PathsOf(before) {
      assert m.Has(l, p);
      var r :| r in m.RunsAt(l) && r.path == p;
      assert r in before;
    }
    assert gone * PathsOf(before) == gone;
    assert |multiset(Survivors(before, gone)) + multiset(Removed(before, gone))| == |multiset(before)|;
  }

  // ── What each entry does, level by level ───────────────────────────────────

  /** The manifests differ at most on these levels, and not in the sequence number. */
  ghost predicate SameBut(a: ManifestState, b: ManifestState, changed: set<nat>) {
    && |b.levels| == |a.levels| && b.nextSequence == a.nextSequence
    && forall l: nat :: l < |a.levels| && l !in changed ==> b.levels[l] == a.levels[l]
  }

  /** Adding appends the run to its level. */
  lemma AddMeans(m: ManifestState, l: Level, meta: SortedRunMeta)
    ensures Apply(m, AddRun(l, meta)).Some? <==> l < |m.levels|
    ensures l < |m.levels| ==>
      var after := Apply(m, AddRun(l, meta)).value;
      SameBut(m, after, {l}) && after.levels[l] == m.levels[l] + [meta]
  {
  }

  /** Removing takes the first run at the path out of its level; it needs one there. */
  lemma RemoveMeans(m: ManifestState, l: Level, p: Path, i: nat)
    requires l < |m.levels| && i < |m.levels[l]| && m.levels[l][i].path == p && forall j :: 0 <= j < i ==> m.levels[l][j].path != p
    ensures Apply(m, RemoveRun(l, p)).Some?
    ensures
      var after := Apply(m, RemoveRun(l, p)).value;
      SameBut(m, after, {l}) && after.levels[l] == m.levels[l][..i] + m.levels[l][i + 1..]
  {
    PositionSurvivors(m.levels[l], i);
    assert m.levels[l][i] in m.RunsAt(l);
  }

  lemma RemoveNeeds(m: ManifestState, l: Level, p: Path)
    requires Apply(m, RemoveRun(l, p)).Some?
    ensures l < |m.levels| && exists i :: 0 <= i < |m.levels[l]| && m.levels[l][i].path == p
  {
    var r :| r in m.RunsAt(l) && r.path == p;
    var i :| 0 <= i < |m.levels[l]| && m.levels[l][i] == r;
  }

  lemma PositionIs(runs: seq<SortedRunMeta>, p: Path, i: nat)
    requires i < |runs| && runs[i].path == p && forall j :: 0 <= j < i ==> runs[j].path != p
    ensures Position(runs, p) == Some(i)
  {
    assert runs[i] in runs;
  }

  /** Promoting takes the first run at the path out of its level and appends it to the other,
      which may be the same. */
  lemma PromoteMeans(m: ManifestState, from: Level, to: Level, p: Path, i: nat)
    requires from < |m.levels| && to < |m.levels| && i < |m.levels[from]| && m.levels[from][i].path == p
    requires forall j :: 0 <= j < i ==> m.levels[from][j].path != p
    ensures Apply(m, PromoteRun(from, to, p)).Some?
    ensures
      var after, left := Apply(m, PromoteRun(from, to, p)).value, m.levels[from][..i] + m.levels[from][i + 1..];
      && SameBut(m, after, {from, to}) && (from != to ==> after.levels[from] == left)
      && after.levels[to] == (if from == to then left else m.levels[to]) + [m.levels[from][i]]
  {
    RemoveMeans(m, from, p, i);
    PositionIs(m.levels[from], p, i);
    assert m.Has(from, p);
  }

  lemma PromoteNeeds(m: ManifestState, from: Level, to: Level, p: Path)
    requires Apply(m, PromoteRun(from, to, p)).Some?
    ensures from < |m.levels| && to < |m.levels| && exists i :: 0 <= i < |m.levels[from]| && m.levels[from][i].path == p
  {
    RemoveNeeds(m, from, p);
  }

  /** Setting the sequence number moves no run. */
  lemma SequenceMeans(m: ManifestState, next: u64)
    ensures Apply(m, SetSequence(next)) == Some(ManifestState(m.levels, next))
  {
  }

  /** A flush's entry does both: the run at the end of its level, and the sequence number. */
  lemma AddAndSequenceMeans(m: ManifestState, l: Level, meta: SortedRunMeta, next: u64)
    ensures Apply(m, AddRunAndSequence(l, meta, next)).Some? <==> l < |m.levels|
    ensures l < |m.levels| ==>
      Apply(m, AddRunAndSequence(l, meta, next)) == Some(ManifestState(m.levels[l := m.levels[l] + [meta]], next))
  {
  }

  // ── The manifest object ────────────────────────────────────────────────────

  class LsmManifest {
    const n: nat
    var levels: seq<seq<SortedRunMeta>>
    var nextSequence: u64

    ghost predicate Valid() reads this {
      |levels| == n
    }

    function State(): ManifestState reads this {
      ManifestState(levels, nextSequence)
    }

    constructor (n: nat)
      ensures Valid() && this.n == n && State() == EmptyState(n)
    {
      this.n := n;
      levels := EmptyState(n).levels;
      nextSequence := 0;
    }

    method AddRun(l: Level, meta: SortedRunMeta) returns (ok: bool)
      requires Valid()
      modifies this
      ensures Valid()
      ensures ok == AddedRun(old(State()), l, meta).Some?
      ensures State() == if ok then AddedRun(old(State()), l, meta).value else old(State())
    {
      if l >= n {
        return false;
      }
      levels := levels[l := levels[l] + [meta]];
      return true;
    }

    method RemoveRun(l: Level, path: Path) returns (r: Option<SortedRunMeta>)
      requires Valid()
      modifies this
      ensures Valid()
      ensures r.Some? == RemovedRun(old(State()), l, path).Some?
      ensures State() == if r.Some? then RemovedRun(old(State()), l, path).value else old(State())
      ensures r.Some? ==> Position(old(levels)[l], path).Some? && r.value == old(levels)[l][Position(old(levels)[l], path).value]
    {
      if l >= n {
        return None;
      }
      var runs := levels[l];
      var pos := Position(runs, path);
      if pos.None? {
        return None;
      }
      PositionSurvivors(runs, pos.value);
      levels := levels[l := runs[..pos.value] + runs[pos.value + 1..]];
      return Some(runs[pos.value]);
    }

    method PromoteRun(from: Level, to: Level, path: Path) returns (ok: bool)
      requires Valid()
      modifies this
      ensures Valid()
      ensures ok == Apply(old(State()), ManifestEntry.PromoteRun(from, to, path)).Some?
      ensures State() == if ok then Apply(old(State()), ManifestEntry.PromoteRun(from, to, path)).value else old(State())
    {
      if from >= n || to >= n {
        return false;
      }
      var meta := RemoveRun(from, path);
      if meta.None? {
        return false;
      }
      ok := AddRun(to, meta.value);
    }

    method SetNextSequence(s: u64)
      requires Valid()
      modifies this
      ensures Valid() && State() == old(State()).(nextSequence := s)
    {
      nextSequence := s;
    }
  }

  /** manifest_log.rs apply_entry. The two `assert`s stand where the code panics. */
  method ApplyEntry(m: LsmManifest, e: ManifestEntry) returns (ok: bool)
    requires m.Valid()
    modifies m
    ensures m.Valid()
    ensures ok == Apply(old(m.State()), e).Some?
    ensures m.State() == if ok then Apply(old(m.State()), e).value else old(m.State())
  {
    match e
    case AddRun(l, meta) =>
      ok := m.AddRun(l, meta);
    case RemoveRun(l, p) =>
      var r := m.RemoveRun(l, p);
      ok := r.Some?;
    case PromoteRun(from, to, p) =>
      ok := m.PromoteRun(from, to, p);
    case SetSequence(s) =>
      m.SetNextSequence(s);
      ok := true;
    case AddRunAndSequence(l, meta, s) =>
      ok := m.AddRun(l, meta);
      if ok {
        m.SetNextSequence(s);
      }
    case CompactionCommit(out, output, inputs) =>
      ok := CheckCommit(m, out, inputs);
      if ok {
        CommitChecked(m, out, output, inputs);
      }
  }

  /** The validation half of the CompactionCommit arm. */
  method CheckCommit(m: LsmManifest, out: Level, inputs: seq<(Level, Path)>) returns (ok: bool)
    requires m.Valid()
    ensures ok == Committable(m.State(), out, inputs)
  {
    hide ManifestState.Has;
    if out >= m.n {
      return false;
    }
    var st := m.State();
    var seen: set<(Level, Path)> := {};
    for i := 0 to |inputs|
      invariant forall e: (Level, Path) :: e in seen <==> e in inputs[..i]
      invariant DistinctInputs(inputs[..i])
      invariant forall j :: 0 <= j < i ==> st.Has(inputs[j].0, inputs[j].1)
    {
      var e := inputs[i];
      if e in seen {
        ghost var j :| 0 <= j < i && inputs[..i][j] == e;
        assert inputs[j] == inputs[i];
        return false;
      }
      if !st.Has(e.0, e.1) {
        return false;
      }
      assert inputs[..i + 1] == inputs[..i] + [e];
      seen := seen + {e};
    }
    assert inputs[..|inputs|] == inputs;
    return true;
  }

  /** The mutation half of the CompactionCommit arm: once the checks have passed no
      step of it can fail. */
  method CommitChecked(m: LsmManifest, out: Level, output: SortedRunMeta, inputs: seq<(Level, Path)>)
    requires m.Valid()
    requires Committable(m.State(), out, inputs)
    modifies m
    ensures m.Valid()
    ensures m.State() == Committed(old(m.State()), out, output, inputs)
  {
    hide Survivors, PathsOf, GoneAt, Position, Committed, Committable;
    ghost var before := m.State();
    CommitStart(before, out, output, inputs);
    var added := m.AddRun(out, output);
    assert added;
    ghost var full := m.levels;
    for i := 0 to |inputs|
      invariant m.Valid() && m.nextSequence == before.nextSequence && |full| == |m.levels|
      invariant forall l :: 0 <= l < |full| ==> m.levels[l] == Survivors(full[l], GoneAt(inputs[..i], l))
    {
      var (l, p) := inputs[i];
      CommitStep(full, inputs, i);
      var removed := m.RemoveRun(l, p);
      assert removed.Some?;
    }
    assert inputs[..|inputs|] == inputs;
    assert m.State().levels == Committed(before, out, output, inputs).levels;
  }

  lemma CommitStart(m: ManifestState, out: Level, output: SortedRunMeta, inputs: seq<(Level, Path)>)
    requires Committable(m, out, inputs)
    ensures out < |m.levels| && DistinctInputs(inputs)
    ensures
      var full := AddedRun(m, out, output).value.levels;
      && (forall i :: 0 <= i < |inputs| ==> inputs[i].0 < |full| && inputs[i].1 in PathsOf(full[inputs[i].0]))
      && (forall l :: 0 <= l < |full| ==> full[l] == Survivors(full[l], GoneAt(inputs[..0], l)))
      && Committed(m, out, output, inputs).nextSequence == m.nextSequence
      && |Committed(m, out, output, inputs).levels| == |full|
      && (forall l :: 0 <= l < |full| ==>
        Committed(m, out, output, inputs).levels[l] == Survivors(full[l], GoneAt(inputs, l)))
  {
    var full := AddedRun(m, out, output).value.levels;
    forall l | 0 <= l < |full| ensures full[l] == Survivors(full[l], GoneAt(inputs[..0], l)) {
      assert GoneAt(inputs[..0], l) == {};
      SurvivorsNone(full[l], {});
    }
    forall l | 0 <= l < |full| ensures full[l] == m.levels[l] + (if l == out then [output] else []) {
    }
    forall i | 0 <= i < |inputs| ensures inputs[i].0 < |full| && inputs[i].1 in PathsOf(full[inputs[i].0]) {
      assert m.Has(inputs[i].0, inputs[i].1);
      var r :| r in m.RunsAt(inputs[i].0) && r.path == inputs[i].1;
      assert r in full[inputs[i].0];
    }
  }

  /** One removal of a commit: the run is still there, and removing it is surviving
      one input more. */
  lemma CommitStep(full: seq<seq<SortedRunMeta>>, inputs: seq<(Level, Path)>, i: nat)
    requires i < |inputs| && DistinctInputs(inputs)
    requires inputs[i].0 < |full| && inputs[i].1 in PathsOf(full[inputs[i].0])
    ensures
      var (l, p) := inputs[i];
      && p in PathsOf(Survivors(full[l], GoneAt(inputs[..i], l)))
      && Survivors(Survivors(full[l], GoneAt(inputs[..i], l)), {p}) == Survivors(full[l], GoneAt(inputs[..i + 1], l))
      && forall k :: k != l ==> GoneAt(inputs[..i + 1], k) == GoneAt(inputs[..i], k)
  {
    hide PathsOf, Survivors;
    var (l, p) := inputs[i];
    assert inputs[..i + 1] == inputs[..i] + [inputs[i]];
    assert p !in GoneAt(inputs[..i], l);
    SurvivorsStep(full[l], GoneAt(inputs[..i], l), p);
    assert GoneAt(inputs[..i + 1], l) == GoneAt(inputs[..i], l) + {p};
    assert forall k :: k != l ==> GoneAt(inputs[..i + 1], k) == GoneAt(inputs[..i], k);
  }
}
