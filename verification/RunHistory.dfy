/** Whole histories of flushes and compactions: recency of the levels, the newest-wins
    view, and the amount of rewriting. */
module RunHistory {
  import opened Bytes
  import opened Order
  import opened RunMeaning

  /** A run as lookups see it: its sequence range and the image of each of its entities. */
  datatype Run = Run(lo: nat, hi: nat, view: map<u64, Image>)

  const TRIGGER: nat := 4

  function SigsOf(r: Run): set<Signature> { set e | e in r.view :: r.view[e].sig }

  // ── The newest-wins view ───────────────────────────────────────────────────

  /** `r` is the newest run with an image of `e`. */
  ghost predicate IsTop(runs: set<Run>, e: u64, r: Run) {
    r in runs && e in r.view && forall q :: q in runs && e in q.view ==> q.hi <= r.hi
  }

  /** Lookup over `runs` finds this image of `e`. */
  ghost predicate Shows(runs: set<Run>, e: u64, img: Image) {
    exists r :: IsTop(runs, e, r) && r.view[e] == img
  }

  ghost predicate DistinctHi(runs: set<Run>) {
    forall a, b :: a in runs && b in runs && a.hi == b.hi ==> a == b
  }

  lemma {:induction false} TopExists(runs: set<Run>, e: u64, some: Run) returns (r: Run)
    requires some in runs && e in some.view
    ensures IsTop(runs, e, r)
    decreases runs
  {
    if q :| q in runs && e in q.view && q.hi > some.hi {
      r := TopExists(runs - {some}, e, q);
    } else {
      r := some;
    }
  }

  lemma TopUnique(runs: set<Run>, e: u64, a: Run, b: Run)
    requires DistinctHi(runs) && IsTop(runs, e, a) && IsTop(runs, e, b)
    ensures a == b
  {
  }

  // ── One compaction ─────────────────────────────────────────────────────────

  /** `out` is the compaction of `inputs`: their whole range, and for every entity the
      image lookup over them finds. */
  ghost predicate Merged(inputs: set<Run>, out: Run) {
    && (forall r :: r in inputs ==> out.lo <= r.lo && r.hi <= out.hi)
    && (exists r :: r in inputs && r.lo == out.lo) && (exists r :: r in inputs && r.hi == out.hi)
    && (forall e :: e in out.view <==> exists r :: r in inputs && e in r.view)
    && forall e, img {:trigger Shows(inputs, e, img)} :: Shows(inputs, e, img) <==> e in out.view && out.view[e] == img
  }

  /** Inputs have one compaction at most. */
  lemma MergedUnique(inputs: set<Run>, a: Run, b: Run)
    requires Merged(inputs, a) && Merged(inputs, b)
    ensures a == b
  {
    hide Shows;
    var x :| x in inputs && x.lo == a.lo;
    var y :| y in inputs && y.hi == a.hi;
    var z :| z in inputs && z.lo == b.lo;
    var w :| w in inputs && w.hi == b.hi;
    forall e | e in a.view ensures e in b.view && a.view[e] == b.view[e] {
      assert Shows(inputs, e, a.view[e]);
    }
    assert a.view.Keys == b.view.Keys;
    assert a.view == b.view;
  }

  function Replaced(runs: set<Run>, inputs: set<Run>, out: Run): set<Run> { runs - inputs + {out} }

  /** The newest image of `e` is in a run that is not an input but lies, by recency,
      among the inputs, and it is not the image the inputs show. */
  ghost predicate Overtaken(runs: set<Run>, inputs: set<Run>, out: Run, e: u64) {
    exists t, i :: IsTop(runs, e, t) && t !in inputs && t.hi < out.hi && IsTop(inputs, e, i) && t.view[e] != i.view[e]
  }

  lemma MergedShows(inputs: set<Run>, out: Run, e: u64, i: Run)
    requires Merged(inputs, out) && IsTop(inputs, e, i)
    ensures e in out.view && out.view[e] == i.view[e] && i.hi <= out.hi
  {
    assert Shows(inputs, e, i.view[e]);
  }

  lemma HiOfInput(runs: set<Run>, inputs: set<Run>, out: Run, q: Run)
    requires DistinctHi(runs) && inputs <= runs && Merged(inputs, out) && q in runs - inputs
    ensures q.hi != out.hi
  {
    var r :| r in inputs && r.hi == out.hi;
  }

  lemma ReplacedDistinct(runs: set<Run>, inputs: set<Run>, out: Run)
    requires DistinctHi(runs) && inputs <= runs && Merged(inputs, out)
    ensures DistinctHi(Replaced(runs, inputs, out))
  {
    forall q | q in runs - inputs ensures q.hi != out.hi {
      HiOfInput(runs, inputs, out, q);
    }
  }

  /** The newest run with `e` after a compaction. */
  lemma TopAfter(runs: set<Run>, inputs: set<Run>, out: Run, e: u64, t: Run)
    requires DistinctHi(runs) && inputs <= runs && Merged(inputs, out) && IsTop(runs, e, t)
    ensures
      if (t in inputs || t.hi < out.hi) && e in out.view then IsTop(Replaced(runs, inputs, out), e, out)
      else t !in inputs && IsTop(Replaced(runs, inputs, out), e, t)
  {
    hide Shows, DistinctHi;
    if t in inputs {
      assert e in out.view && t.hi <= out.hi;
    } else {
      HiOfInput(runs, inputs, out, t);
    }
  }

  ghost predicate SameAt(a: set<Run>, b: set<Run>, e: u64) {
    forall img {:trigger Shows(a, e, img)} {:trigger Shows(b, e, img)} :: Shows(a, e, img) <==> Shows(b, e, img)
  }

  lemma ShowsTop(runs: set<Run>, e: u64, t: Run, img: Image)
    requires DistinctHi(runs) && IsTop(runs, e, t)
    ensures Shows(runs, e, img) <==> t.view[e] == img
  {
    if Shows(runs, e, img) {
      var r :| IsTop(runs, e, r) && r.view[e] == img;
      TopUnique(runs, e, r, t);
    }
  }

  lemma ShowsNothing(runs: set<Run>, e: u64)
    requires forall r :: r in runs ==> e !in r.view
    ensures forall img :: !Shows(runs, e, img)
  {
  }

  /** One compaction, of any inputs, keeps what lookup finds for an entity if and only if
      the entity is not overtaken. */
  lemma ViewKeptIff(runs: set<Run>, inputs: set<Run>, out: Run, e: u64)
    requires DistinctHi(runs) && inputs <= runs && Merged(inputs, out)
    ensures SameAt(runs, Replaced(runs, inputs, out), e) <==> !Overtaken(runs, inputs, out, e)
  {
    hide Merged, DistinctHi;
    var after := Replaced(runs, inputs, out);
    ReplacedDistinct(runs, inputs, out);
    if some :| some in runs && e in some.view {
      var t := TopExists(runs, e, some);
      TopAfter(runs, inputs, out, e, t);
      ViewKeptWithTop(runs, inputs, out, e, t);
    } else {
      NotInOutput(inputs, out, e);
      ShowsNothing(runs, e);
      ShowsNothing(after, e);
    }
  }

  lemma NotInOutput(inputs: set<Run>, out: Run, e: u64)
    requires Merged(inputs, out) && forall r :: r in inputs ==> e !in r.view
    ensures e !in out.view
  {
  }

  lemma InputTop(inputs: set<Run>, out: Run, e: u64) returns (i: Run)
    requires Merged(inputs, out) && e in out.view
    ensures IsTop(inputs, e, i) && out.view[e] == i.view[e]
  {
    var some :| some in inputs && e in some.view;
    i := TopExists(inputs, e, some);
    MergedShows(inputs, out, e, i);
  }

  lemma ViewKeptWithTop(runs: set<Run>, inputs: set<Run>, out: Run, e: u64, t: Run)
    requires DistinctHi(runs) && inputs <= runs && Merged(inputs, out) && IsTop(runs, e, t)
    requires DistinctHi(Replaced(runs, inputs, out))
    ensures SameAt(runs, Replaced(runs, inputs, out), e) <==> !Overtaken(runs, inputs, out, e)
  {
    hide Merged, DistinctHi, Shows, IsTop;
    var after := Replaced(runs, inputs, out);
    TopAfter(runs, inputs, out, e, t);
    forall r | IsTop(runs, e, r) ensures r == t { TopUnique(runs, e, r, t); }
    forall img ensures Shows(runs, e, img) <==> TopShows(t, e, img) { TopIs(runs, e, t, img); }
    if (t in inputs || t.hi < out.hi) && e in out.view {
      var i := InputTop(inputs, out, e);
      InputsDistinct(runs, inputs);
      forall r | IsTop(inputs, e, r) ensures r == i { TopUnique(inputs, e, r, i); }
      if t in inputs {
        TopOfInputs(runs, inputs, e, t);
      }
      forall img ensures Shows(after, e, img) <==> TopShows(out, e, img) { TopIs(after, e, out, img); }
      TopHas(runs, e, t);
      assert TopShows(t, e, t.view[e]) && (TopShows(out, e, t.view[e]) <==> t.view[e] == i.view[e]);
    } else {
      forall img ensures Shows(after, e, img) <==> TopShows(t, e, img) { TopIs(after, e, t, img); }
      if i :| IsTop(inputs, e, i) {
        MergedShows(inputs, out, e, i);
      }
    }
  }

  predicate TopShows(t: Run, e: u64, img: Image) { e in t.view && t.view[e] == img }

  lemma TopIs(runs: set<Run>, e: u64, t: Run, img: Image)
    requires DistinctHi(runs) && IsTop(runs, e, t)
    ensures Shows(runs, e, img) <==> TopShows(t, e, img)
  {
    ShowsTop(runs, e, t, img);
  }

  lemma TopHas(runs: set<Run>, e: u64, t: Run)
    requires IsTop(runs, e, t)
    ensures e in t.view
  {
  }

  lemma InputsDistinct(runs: set<Run>, inputs: set<Run>)
    requires DistinctHi(runs) && inputs <= runs
    ensures DistinctHi(inputs)
  {
  }

  lemma TopOfInputs(runs: set<Run>, inputs: set<Run>, e: u64, t: Run)
    requires IsTop(runs, e, t) && inputs <= runs && t in inputs
    ensures IsTop(inputs, e, t)
  {
  }

  /** No run outside the inputs lies, by recency, among them. */
  ghost predicate Contiguous(runs: set<Run>, inputs: set<Run>) {
    forall q, a, b :: q in runs - inputs && a in inputs && b in inputs && a.hi < q.hi ==> b.hi < q.hi
  }

  /** Compacting a contiguous set of runs keeps every lookup. */
  lemma ContiguousKeepsView(runs: set<Run>, inputs: set<Run>, out: Run, e: u64)
    requires DistinctHi(runs) && inputs <= runs && Merged(inputs, out) && Contiguous(runs, inputs)
    ensures SameAt(runs, Replaced(runs, inputs, out), e)
  {
    ViewKeptIff(runs, inputs, out, e);
    hide SameAt, DistinctHi;
    if Overtaken(runs, inputs, out, e) {
      var t, i :| IsTop(runs, e, t) && t !in inputs && t.hi < out.hi && IsTop(inputs, e, i) && t.view[e] != i.view[e];
      NotAmong(runs, inputs, out, e, t, i);
    }
  }

  lemma NotAmong(runs: set<Run>, inputs: set<Run>, out: Run, e: u64, t: Run, i: Run)
    requires DistinctHi(runs) && inputs <= runs && Merged(inputs, out) && Contiguous(runs, inputs)
    requires IsTop(runs, e, t) && t !in inputs && IsTop(inputs, e, i)
    ensures t.hi > out.hi
  {
    var b :| b in inputs && b.hi == out.hi;
    assert i.hi <= t.hi && i.hi != t.hi;
  }

  // ── Histories ──────────────────────────────────────────────────────────────

  /** Levels of runs in manifest order, every run ever flushed, and the number of rows
      that compactions have written. */
  datatype Sys = Sys(levels: seq<seq<Run>>, flushed: seq<Run>, rewritten: nat)

  function Having(runs: seq<Run>, sig: Signature): seq<Run> {
    if |runs| == 0 then []
    else if sig in SigsOf(runs[0]) then [runs[0]] + Having(runs[1..], sig)
    else Having(runs[1..], sig)
  }

  function Without(runs: seq<Run>, sig: Signature): seq<Run> {
    if |runs| == 0 then []
    else if sig in SigsOf(runs[0]) then Without(runs[1..], sig)
    else [runs[0]] + Without(runs[1..], sig)
  }

  function SetOf(runs: seq<Run>): set<Run> { set r | r in runs }

  function All(levels: seq<seq<Run>>): set<Run> { set l, r | 0 <= l < |levels| && r in levels[l] :: r }

  /** `a` is newer than `b`: its range begins where that of `b` has ended. */
  predicate Newer(a: Run, b: Run) { b.hi <= a.lo && b.hi < a.hi }

  /** A flush adds a run newer than all flushed before. */
  ghost predicate FlushStep(s: Sys, t: Sys, r: Run) {
    && |s.levels| > 0 && r.lo <= r.hi && (forall q :: q in s.flushed ==> Newer(r, q))
    && t == s.(levels := s.levels[0 := s.levels[0] + [r]], flushed := s.flushed + [r])
  }

  /** A compaction merges all runs of a level that have a signature, if they are enough,
      into one run of the next level. */
  ghost predicate CompactStep(s: Sys, t: Sys, l: nat, sig: Signature, out: Run) {
    && l + 1 < |s.levels| && |Having(s.levels[l], sig)| >= TRIGGER
    && Merged(SetOf(Having(s.levels[l], sig)), out)
    && t == s.(levels := s.levels[l := Without(s.levels[l], sig)][l + 1 := s.levels[l + 1] + [out]],
               rewritten := s.rewritten + |out.view|)
  }

  ghost predicate Step(s: Sys, t: Sys) {
    (exists r :: FlushStep(s, t, r)) || exists l, sig, out :: CompactStep(s, t, l, sig, out)
  }

  ghost predicate IsHistory(n: nat, states: seq<Sys>) {
    && n > 0 && |states| > 0 && states[0] == Sys(seq(n, _ => []), [], 0)
    && forall i :: 0 <= i < |states| - 1 ==> Step(states[i], states[i + 1])
  }

  /** `s` can be reached on `n` levels. */
  ghost predicate Reach(n: nat, s: Sys) {
    exists states :: IsHistory(n, states) && states[|states| - 1] == s
  }

  /** No run on any level, nothing flushed, nothing rewritten. */
  function EmptySys(n: nat): Sys { Sys(seq(n, _ => []), [], 0) }

  lemma ReachStart(n: nat)
    requires n > 0
    ensures Reach(n, EmptySys(n))
  {
    assert IsHistory(n, [Sys(seq(n, _ => []), [], 0)]);
  }

  lemma ReachStep(n: nat, s: Sys, t: Sys)
    requires Reach(n, s) && Step(s, t)
    ensures Reach(n, t)
  {
    hide Step;
    var states :| IsHistory(n, states) && states[|states| - 1] == s;
    var more := states + [t];
    forall i | 0 <= i < |more| - 1 ensures Step(more[i], more[i + 1]) {
      if i < |states| - 1 {
        assert more[i] == states[i] && more[i + 1] == states[i + 1];
      }
    }
    assert IsHistory(n, more);
  }

  lemma {:induction false} HavingAppend(a: seq<Run>, b: seq<Run>, sig: Signature)
    ensures Having(a + b, sig) == Having(a, sig) + Having(b, sig)
  {
    hide SigsOf;
    if |a| == 0 {
      assert a + b == b;
    } else {
      HavingAppend(a[1..], b, sig);
      assert (a + b)[1..] == a[1..] + b && (a + b)[0] == a[0];
    }
  }

  lemma {:induction false} WithoutAppend(a: seq<Run>, b: seq<Run>, sig: Signature)
    ensures Without(a + b, sig) == Without(a, sig) + Without(b, sig)
  {
    hide SigsOf;
    if |a| == 0 {
      assert a + b == b;
    } else {
      WithoutAppend(a[1..], b, sig);
      assert (a + b)[1..] == a[1..] + b && (a + b)[0] == a[0];
    }
  }

  lemma {:induction false} HavingFew(runs: seq<Run>, sig: Signature)
    ensures |Having(runs, sig)| <= |runs|
  {
    hide SigsOf;
    if |runs| != 0 {
      HavingFew(runs[1..], sig);
    }
  }

  function PositionsOf(runs: seq<Run>, sig: Signature): set<nat> { set i: nat | i < |runs| && sig in SigsOf(runs[i]) }

  lemma {:induction false} HavingSize(runs: seq<Run>, sig: Signature)
    ensures |Having(runs, sig)| == |PositionsOf(runs, sig)|
  {
    hide SigsOf;
    if |runs| == 0 {
      assert PositionsOf(runs, sig) == {};
    } else {
      var init, last := runs[..|runs| - 1], runs[|runs| - 1];
      HavingSize(init, sig);
      assert runs == init + [last];
      HavingAppend(init, [last], sig);
      assert PositionsOf(runs, sig) == PositionsOf(init, sig) + if sig in SigsOf(last) then {|init|} else {};
    }
  }

  // ── Rewriting is bounded ───────────────────────────────────────────────────

  function Rows(runs: seq<Run>): nat {
    if |runs| == 0 then 0 else |runs[0].view| + Rows(runs[1..])
  }

  /** Each row counted once for every level it can still descend. */
  function Potential(levels: seq<seq<Run>>, k: nat): nat
    requires k <= |levels|
  {
    if k == 0 then 0 else Potential(levels, k - 1) + Rows(levels[k - 1]) * (|levels| - k)
  }

  lemma {:induction false} RowsAppend(a: seq<Run>, b: seq<Run>)
    ensures Rows(a + b) == Rows(a) + Rows(b)
  {
    if |a| == 0 {
      assert a + b == b;
    } else {
      assert (a + b)[1..] == a[1..] + b;
      RowsAppend(a[1..], b);
    }
  }

  lemma RowsOne(a: seq<Run>, r: Run)
    ensures Rows(a + [r]) == Rows(a) + |r.view|
  {
    RowsAppend(a, [r]);
    assert [r][1..] == [];
  }

  lemma {:induction false} RowsSplit(runs: seq<Run>, sig: Signature)
    ensures Rows(Having(runs, sig)) + Rows(Without(runs, sig)) == Rows(runs)
  {
    if |runs| != 0 {
      RowsSplit(runs[1..], sig);
      if sig in SigsOf(runs[0]) {
        assert ([runs[0]] + Having(runs[1..], sig))[1..] == Having(runs[1..], sig);
      } else {
        assert ([runs[0]] + Without(runs[1..], sig))[1..] == Without(runs[1..], sig);
      }
    }
  }

  lemma {:induction false} KeysBound(runs: seq<Run>, keys: set<u64>)
    requires forall e :: e in keys ==> exists r :: r in runs && e in r.view
    ensures |keys| <= Rows(runs)
  {
    if |runs| == 0 {
      assert keys == {};
    } else {
      var first, rest := runs[0], runs[1..];
      var head, tail := keys * first.view.Keys, keys - first.view.Keys;
      forall e | e in tail ensures exists r :: r in rest && e in r.view {
        var r :| r in runs && e in r.view;
        assert r in rest;
      }
      KeysBound(rest, tail);
      SubsetSize(head, first.view.Keys);
      assert keys == head + tail;
    }
  }

  /** A compaction writes no more rows than its inputs have. */
  lemma MergedRows(inputs: seq<Run>, out: Run)
    requires Merged(SetOf(inputs), out)
    ensures |out.view| <= Rows(inputs)
  {
    assert forall e :: e in out.view.Keys ==> exists r :: r in inputs && e in r.view;
    KeysBound(inputs, out.view.Keys);
  }

  lemma {:induction false} PotentialFlush(a: seq<seq<Run>>, b: seq<seq<Run>>, rows: nat, k: nat)
    requires 0 < k <= |a| == |b| && Rows(b[0]) == Rows(a[0]) + rows
    requires forall l :: 0 < l < |a| ==> b[l] == a[l]
    ensures Potential(b, k) == Potential(a, k) + rows * (|a| - 1)
  {
    if k == 1 {
      Distribute(Rows(a[0]), rows, |a| - 1);
      assert Potential(a, 0) == Potential(b, 0) == 0;
    } else {
      PotentialFlush(a, b, rows, k - 1);
    }
  }

  lemma Distribute(x: nat, y: nat, w: nat)
    ensures (x + y) * w == x * w + y * w
  {
  }

  /** `gone` rows leave level `l` and at most as many arrive one level further down. */
  lemma {:induction false} PotentialCompact(a: seq<seq<Run>>, b: seq<seq<Run>>, l: nat, gone: nat, rows: nat, k: nat)
    requires k <= |a| == |b| && l + 1 < |a| && rows <= gone
    requires Rows(b[l]) + gone == Rows(a[l]) && Rows(b[l + 1]) == Rows(a[l + 1]) + rows
    requires forall j :: 0 <= j < |a| && j != l && j != l + 1 ==> b[j] == a[j]
    ensures k <= l ==> Potential(b, k) == Potential(a, k)
    ensures k == l + 1 ==> Potential(b, k) + gone * (|a| - 1 - l) == Potential(a, k)
    ensures k >= l + 2 ==> Potential(b, k) + rows <= Potential(a, k)
  {
    if k != 0 {
      PotentialCompact(a, b, l, gone, rows, k - 1);
      PotentialStep(a, b, l, gone, rows, k);
    }
  }

  /** The k-th term of both potentials. */
  lemma PotentialStep(a: seq<seq<Run>>, b: seq<seq<Run>>, l: nat, gone: nat, rows: nat, k: nat)
    requires 0 < k <= |a| == |b| && l + 1 < |a| && rows <= gone
    requires Rows(b[l]) + gone == Rows(a[l]) && Rows(b[l + 1]) == Rows(a[l + 1]) + rows
    requires forall j :: 0 <= j < |a| && j != l && j != l + 1 ==> b[j] == a[j]
    ensures
      var w := |a| - k;
      var x, y := Rows(a[k - 1]) * w, Rows(b[k - 1]) * w;
      if k == l + 1 then x == y + gone * w
      else if k == l + 2 then y == x + rows * w && rows * w + rows <= gone * (w + 1)
      else x == y
  {
    hide Rows;
    if k == l + 1 {
      Distribute(Rows(b[l]), gone, |a| - k);
    } else if k == l + 2 {
      Distribute(Rows(a[l + 1]), rows, |a| - k);
      Descend(gone, rows, |a| - k + 1);
    }
  }

  lemma Descend(gone: nat, rows: nat, w: nat)
    requires rows <= gone && w > 0
    ensures rows * (w - 1) + rows <= gone * w
  {
    assert rows * (w - 1) + rows == rows * w;
    Distribute(rows, gone - rows, w);
  }

  ghost predicate Bounded(s: Sys) {
    |s.levels| > 0 && s.rewritten + Potential(s.levels, |s.levels|) <= Rows(s.flushed) * (|s.levels| - 1)
  }

  lemma BoundedFlush(s: Sys, t: Sys, r: Run)
    requires Bounded(s) && FlushStep(s, t, r)
    ensures Bounded(t)
  {
    RowsOne(s.levels[0], r);
    RowsOne(s.flushed, r);
    PotentialFlush(s.levels, t.levels, |r.view|, |s.levels|);
    Distribute(Rows(s.flushed), |r.view|, |s.levels| - 1);
  }

  lemma BoundedCompact(s: Sys, t: Sys, l: nat, sig: Signature, out: Run)
    requires Bounded(s) && CompactStep(s, t, l, sig, out)
    ensures Bounded(t)
  {
    var inputs := Having(s.levels[l], sig);
    MergedRows(inputs, out);
    hide Having, Without, Merged;
    RowsSplit(s.levels[l], sig);
    RowsOne(s.levels[l + 1], out);
    PotentialCompact(s.levels, t.levels, l, Rows(inputs), |out.view|, |s.levels|);
  }

  lemma {:induction false} StartBounded(n: nat, k: nat)
    requires k <= n
    ensures Potential(seq(n, _ => []), k) == 0
  {
    if k != 0 {
      StartBounded(n, k - 1);
      assert Rows((seq(n, _ => []))[k - 1]) == 0;
    }
  }

  lemma {:induction false} HistoryBounded(n: nat, states: seq<Sys>, i: nat)
    requires IsHistory(n, states) && i < |states|
    ensures Bounded(states[i]) && |states[i].levels| == n
  {
    hide Bounded, FlushStep, CompactStep;
    if i == 0 {
      FirstBounded(n);
    } else {
      HistoryBounded(n, states, i - 1);
      StepBounded(states[i - 1], states[i]);
    }
  }

  lemma FirstBounded(n: nat)
    requires n > 0
    ensures Bounded(Sys(seq(n, _ => []), [], 0))
  {
    StartBounded(n, n);
  }

  lemma StepBounded(s: Sys, t: Sys)
    requires Bounded(s) && Step(s, t)
    ensures Bounded(t) && |t.levels| == |s.levels|
  {
    if r :| FlushStep(s, t, r) {
      BoundedFlush(s, t, r);
    } else {
      var l: nat, sig: Signature, out: Run :| CompactStep(s, t, l, sig, out);
      BoundedCompact(s, t, l, sig, out);
    }
  }

  /** Amortised write bound: over any history on n levels, with any signatures,
      compactions write at most n - 1 rows for each row flushed. */
  lemma RewritingBound(n: nat, states: seq<Sys>, i: nat)
    requires IsHistory(n, states) && i < |states|
    ensures states[i].rewritten <= Rows(states[i].flushed) * (n - 1)
  {
    HistoryBounded(n, states, i);
  }
}
