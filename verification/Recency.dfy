/** Levels stay stratified by recency, and the store shows what all flushes together
    show, as long as every flush carries the same signatures; and what goes wrong when
    they differ. */
module Recency {
  import opened Bytes
  import opened Order
  import opened RunMeaning
  import opened RunHistory

  /** Manifest order within a level is order of recency. */
  ghost predicate Ascends(runs: seq<Run>) {
    forall i, j :: 0 <= i < j < |runs| ==> Newer(runs[j], runs[i])
  }

  /** Every run of a level is newer than every run of every deeper level. */
  ghost predicate Stratified(levels: seq<seq<Run>>) {
    && (forall l :: 0 <= l < |levels| ==> Ascends(levels[l]))
    && forall l, k, a, b :: 0 <= l < k < |levels| && a in levels[l] && b in levels[k] ==> Newer(a, b)
  }

  ghost predicate Uniform(sigs: set<Signature>, runs: seq<Run>) {
    forall r :: r in runs ==> SigsOf(r) == sigs
  }

  ghost predicate SameView(a: set<Run>, b: set<Run>) {
    forall e {:trigger SameAt(a, b, e)} :: SameAt(a, b, e)
  }

  /** What every history of flushes with one signature set keeps. */
  ghost predicate Sound(sigs: set<Signature>, s: Sys) {
    && Stratified(s.levels) && Ascends(s.flushed)
    && (forall r :: r in All(s.levels) ==> SigsOf(r) == sigs && r.lo <= r.hi && FromFlush(s.flushed, r.hi))
    && SameView(All(s.levels), SetOf(s.flushed))
  }

  ghost predicate FromFlush(flushed: seq<Run>, hi: nat) {
    exists f :: f in flushed && f.hi == hi
  }

  lemma AscendsDistinct(runs: seq<Run>)
    requires Ascends(runs)
    ensures DistinctHi(SetOf(runs))
  {
    forall i, j | 0 <= i < j < |runs| ensures runs[i].hi < runs[j].hi {
      assert Newer(runs[j], runs[i]);
    }
  }

  lemma StratifiedDistinct(levels: seq<seq<Run>>)
    requires Stratified(levels)
    ensures DistinctHi(All(levels))
  {
    hide Ascends;
    forall l, k, a, b | 0 <= l < k < |levels| && a in levels[l] && b in levels[k] ensures b.hi < a.hi {
      assert Newer(a, b);
    }
    forall l | 0 <= l < |levels| ensures DistinctHi(SetOf(levels[l])) {
      AscendsDistinct(levels[l]);
    }
  }

  // ── Flush ──────────────────────────────────────────────────────────────────

  lemma AddNewest(a: set<Run>, b: set<Run>, r: Run, e: u64)
    requires SameAt(a, b, e) && DistinctHi(a + {r}) && DistinctHi(b + {r})
    requires (forall q :: q in a ==> q.hi < r.hi) && forall q :: q in b ==> q.hi < r.hi
    ensures SameAt(a + {r}, b + {r}, e)
  {
    hide SameAt, DistinctHi;
    forall img ensures Shows(a + {r}, e, img) <==> Shows(b + {r}, e, img) {
      NewestShows(a, r, e, img);
      NewestShows(b, r, e, img);
      assert Shows(a, e, img) <==> Shows(b, e, img) by { SameAtShows(a, b, e, img); }
    }
    ShowsSame(a + {r}, b + {r}, e);
  }

  lemma SameAtShows(a: set<Run>, b: set<Run>, e: u64, img: Image)
    requires SameAt(a, b, e)
    ensures Shows(a, e, img) <==> Shows(b, e, img)
  {
    hide Shows;
  }

  lemma ShowsSame(a: set<Run>, b: set<Run>, e: u64)
    requires forall img :: Shows(a, e, img) <==> Shows(b, e, img)
    ensures SameAt(a, b, e)
  {
    hide Shows;
  }

  /** A newest run shows its own images and hides nothing else. */
  lemma NewestShows(a: set<Run>, r: Run, e: u64, img: Image)
    requires DistinctHi(a + {r}) && forall q :: q in a ==> q.hi < r.hi
    ensures Shows(a + {r}, e, img) <==> if e in r.view then r.view[e] == img else Shows(a, e, img)
  {
    hide DistinctHi;
    if e in r.view {
      assert IsTop(a + {r}, e, r);
      ShowsTop(a + {r}, e, r, img);
    } else {
      forall t ensures IsTop(a + {r}, e, t) <==> IsTop(a, e, t) {
      }
    }
  }

  lemma AllAdd(levels: seq<seq<Run>>, l: nat, r: Run)
    requires l < |levels|
    ensures All(levels[l := levels[l] + [r]]) == All(levels) + {r}
  {
    var more := levels[l := levels[l] + [r]];
    forall q ensures q in All(more) <==> q in All(levels) + {r} {
      if q in All(levels) {
        var k :| 0 <= k < |levels| && q in levels[k];
        assert q in more[k];
      }
      if q == r {
        assert q in more[l];
      }
    }
  }

  lemma AppendNewer(runs: seq<Run>, r: Run)
    requires Ascends(runs) && forall q :: q in runs ==> Newer(r, q)
    ensures Ascends(runs + [r])
  {
  }

  lemma FlushNewest(s: Sys, r: Run, q: Run)
    requires (forall q :: q in s.flushed ==> Newer(r, q)) && FromFlush(s.flushed, q.hi)
    ensures Newer(r, q)
  {
  }

  lemma FlushStratified(levels: seq<seq<Run>>, r: Run)
    requires Stratified(levels) && |levels| > 0 && forall q :: q in All(levels) ==> Newer(r, q)
    ensures Stratified(levels[0 := levels[0] + [r]])
  {
    hide Ascends;
    forall l, q | 0 <= l < |levels| && q in levels[l] ensures Newer(r, q) {
      assert q in All(levels);
    }
    AppendNewer(levels[0], r);
  }

  lemma SetAppend(runs: seq<Run>, r: Run)
    ensures SetOf(runs + [r]) == SetOf(runs) + {r}
  {
  }

  lemma FlushSound(sigs: set<Signature>, s: Sys, t: Sys, r: Run)
    requires Sound(sigs, s) && FlushStep(s, t, r) && SigsOf(r) == sigs
    ensures Sound(sigs, t)
  {
    hide Stratified, Ascends, SameAt, SameView, All, SetOf, DistinctHi, FromFlush, Newer;
    forall q | q in All(s.levels) ensures Newer(r, q) {
      FlushNewest(s, r, q);
    }
    FlushStratified(s.levels, r);
    AppendNewer(s.flushed, r);
    AllAdd(s.levels, 0, r);
    SetAppend(s.flushed, r);
    StratifiedDistinct(t.levels);
    AscendsDistinct(t.flushed);
    FlushView(s, t, r);
    forall q | q in All(t.levels) ensures FromFlush(t.flushed, q.hi) {
      StillFlushed(s.flushed, r, q.hi);
    }
  }

  lemma StillFlushed(flushed: seq<Run>, r: Run, hi: nat)
    ensures FromFlush(flushed, hi) || hi == r.hi ==> FromFlush(flushed + [r], hi)
  {
    assert r in flushed + [r];
    if f :| f in flushed && f.hi == hi { assert f in flushed + [r]; }
  }

  lemma FlushView(s: Sys, t: Sys, r: Run)
    requires SameView(All(s.levels), SetOf(s.flushed))
    requires All(t.levels) == All(s.levels) + {r} && SetOf(t.flushed) == SetOf(s.flushed) + {r}
    requires DistinctHi(All(t.levels)) && DistinctHi(SetOf(t.flushed))
    requires (forall q :: q in All(s.levels) ==> Newer(r, q)) && forall q :: q in s.flushed ==> Newer(r, q)
    ensures SameView(All(t.levels), SetOf(t.flushed))
  {
    hide SameAt, All, DistinctHi;
    forall e {:trigger SameAt(All(t.levels), SetOf(t.flushed), e)} ensures SameAt(All(t.levels), SetOf(t.flushed), e) {
      assert SameAt(All(s.levels), SetOf(s.flushed), e);
      AddNewest(All(s.levels), SetOf(s.flushed), r, e);
    }
  }

  // ── Compaction ─────────────────────────────────────────────────────────────

  /** When every run has the signature, all of them are inputs. */
  lemma {:induction false} AllHave(runs: seq<Run>, sig: Signature)
    requires forall r :: r in runs ==> sig in SigsOf(r)
    ensures Having(runs, sig) == runs && Without(runs, sig) == []
  {
    hide SigsOf;
    if |runs| != 0 {
      assert runs == [runs[0]] + runs[1..];
      AllHave(runs[1..], sig);
    }
  }

  lemma {:induction false} HavingAre(runs: seq<Run>, sig: Signature)
    ensures forall r :: r in Having(runs, sig) <==> r in runs && sig in SigsOf(r)
    ensures forall r :: r in Without(runs, sig) <==> r in runs && sig !in SigsOf(r)
  {
    hide SigsOf;
    if |runs| != 0 {
      assert runs == [runs[0]] + runs[1..];
      HavingAre(runs[1..], sig);
    }
  }

  /** The output carries the signatures of its newest input, and only those of inputs. */
  lemma MergedSigs(sigs: set<Signature>, inputs: set<Run>, out: Run)
    requires DistinctHi(inputs) && Merged(inputs, out) && forall r :: r in inputs ==> SigsOf(r) == sigs && r.lo <= r.hi
    ensures SigsOf(out) == sigs && out.lo <= out.hi
  {
    var newest :| newest in inputs && newest.hi == out.hi;
    hide DistinctHi, SigsOf, Merged;
    NewestWins(inputs, out, newest);
    InputSigsOnly(sigs, inputs, out);
    SigsKept(newest, out);
  }

  /** The newest input's images all reach the output. */
  lemma NewestWins(inputs: set<Run>, out: Run, newest: Run)
    requires Merged(inputs, out) && newest in inputs && newest.hi == out.hi
    ensures forall e :: e in newest.view ==> e in out.view && out.view[e] == newest.view[e]
    ensures out.lo <= newest.lo
  {
    forall e | e in newest.view ensures e in out.view && out.view[e] == newest.view[e] {
      assert IsTop(inputs, e, newest);
      MergedShows(inputs, out, e, newest);
    }
  }

  lemma SigsKept(newest: Run, out: Run)
    requires forall e :: e in newest.view ==> e in out.view && out.view[e] == newest.view[e]
    ensures SigsOf(newest) <= SigsOf(out)
  {
  }

  lemma InputSigsOnly(sigs: set<Signature>, inputs: set<Run>, out: Run)
    requires Merged(inputs, out) && forall r :: r in inputs ==> SigsOf(r) == sigs
    ensures SigsOf(out) <= sigs
  {
    forall e | e in out.view ensures out.view[e].sig in sigs {
      hide Merged;
      var i := InputTop(inputs, out, e);
      assert i.view[e].sig in SigsOf(i);
    }
  }

  /** The output of a whole level fits between the levels above and those below. */
  lemma MergedBetween(inputs: set<Run>, out: Run, q: Run)
    requires Merged(inputs, out)
    ensures (forall r :: r in inputs ==> Newer(r, q)) ==> Newer(out, q)
    ensures (forall r :: r in inputs ==> Newer(q, r)) ==> Newer(q, out)
  {
    var a :| a in inputs && a.lo == out.lo;
    var b :| b in inputs && b.hi == out.hi;
  }

  lemma LevelMoves(levels: seq<seq<Run>>, l: nat, out: Run)
    requires Stratified(levels) && l + 1 < |levels| && Merged(SetOf(levels[l]), out)
    ensures Stratified(levels[l := []][l + 1 := levels[l + 1] + [out]])
  {
    hide Merged, Ascends, Newer;
    var after := levels[l := []][l + 1 := levels[l + 1] + [out]];
    forall k, q | 0 <= k < |levels| && q in levels[k]
      ensures k < l ==> Newer(q, out)
      ensures l < k ==> Newer(out, q)
    {
      MergedBetween(SetOf(levels[l]), out, q);
    }
    AppendNewer(levels[l + 1], out);
    EmptyAscends();
    forall i, k, a, b | 0 <= i < k < |after| && a in after[i] && b in after[k] ensures Newer(a, b) {
      assert i != l && k != l;
    }
  }

  lemma EmptyAscends()
    ensures Ascends([])
  {
  }

  lemma AllMoves(levels: seq<seq<Run>>, l: nat, out: Run)
    requires Stratified(levels) && l + 1 < |levels|
    ensures All(levels[l := []][l + 1 := levels[l + 1] + [out]]) == Replaced(All(levels), SetOf(levels[l]), out)
  {
    hide Ascends;
    var after := levels[l := []][l + 1 := levels[l + 1] + [out]];
    forall q ensures q in All(after) <==> q in Replaced(All(levels), SetOf(levels[l]), out) {
      if q in All(after) && q != out {
        var k :| 0 <= k < |after| && q in after[k];
        assert k != l && q in levels[k];
        assert q in levels[l] ==> Newer(q, q);
      }
      if q == out {
        assert q in after[l + 1];
      }
      if q in All(levels) && q !in levels[l] {
        var k :| 0 <= k < |levels| && q in levels[k];
        assert q in after[k];
      }
    }
  }

  lemma LevelContiguous(levels: seq<seq<Run>>, l: nat)
    requires Stratified(levels) && l < |levels|
    ensures Contiguous(All(levels), SetOf(levels[l])) && SetOf(levels[l]) <= All(levels)
  {
    hide Ascends;
    forall q, a, b | q in All(levels) - SetOf(levels[l]) && a in levels[l] && b in levels[l] && a.hi < q.hi ensures b.hi < q.hi {
      var k :| 0 <= k < |levels| && q in levels[k];
      assert l < k ==> Newer(a, q);
      assert k < l ==> Newer(q, b);
    }
  }

  lemma CompactView(s: Sys, l: nat, out: Run, after: set<Run>)
    requires Stratified(s.levels) && l < |s.levels| && Merged(SetOf(s.levels[l]), out)
    requires SameView(All(s.levels), SetOf(s.flushed)) && after == Replaced(All(s.levels), SetOf(s.levels[l]), out)
    ensures SameView(after, SetOf(s.flushed))
  {
    LevelContiguous(s.levels, l);
    StratifiedDistinct(s.levels);
    hide Stratified, SameAt, All, DistinctHi, Merged, Contiguous, Replaced;
    forall e {:trigger SameAt(after, SetOf(s.flushed), e)} ensures SameAt(after, SetOf(s.flushed), e) {
      assert SameAt(All(s.levels), SetOf(s.flushed), e);
      ContiguousKeepsView(All(s.levels), SetOf(s.levels[l]), out, e);
      SameTransitive(after, All(s.levels), SetOf(s.flushed), e);
    }
  }

  lemma SameTransitive(a: set<Run>, b: set<Run>, c: set<Run>, e: u64)
    requires SameAt(b, a, e) && SameAt(b, c, e)
    ensures SameAt(a, c, e)
  {
    hide Shows;
  }

  lemma CompactSound(sigs: set<Signature>, s: Sys, t: Sys, l: nat, sig: Signature, out: Run)
    requires Sound(sigs, s) && CompactStep(s, t, l, sig, out)
    ensures Sound(sigs, t)
  {
    hide Stratified, Ascends, SameView, All, Merged, Newer, FromFlush, Having, Without, SigsOf, Contiguous,
      DistinctHi;
    LevelSigs(sigs, s, l);
    SomeHas(s.levels[l], sig, sigs);
    AllHave(s.levels[l], sig);
    LevelMoves(s.levels, l, out);
    AllMoves(s.levels, l, out);
    StratifiedDistinct(s.levels);
    LevelDistinct(s.levels, l);
    MergedSigs(sigs, SetOf(s.levels[l]), out);
    CompactView(s, l, out, All(t.levels));
    OutFlushed(s, l, out);
    AllAfter(s.levels, l, out);
  }

  lemma AllAfter(levels: seq<seq<Run>>, l: nat, out: Run)
    requires Stratified(levels) && l + 1 < |levels|
    ensures forall q :: q in All(levels[l := []][l + 1 := levels[l + 1] + [out]]) ==> q in All(levels) || q == out
  {
    hide Stratified, All;
    AllMoves(levels, l, out);
  }

  lemma LevelSigs(sigs: set<Signature>, s: Sys, l: nat)
    requires Sound(sigs, s) && l < |s.levels|
    ensures forall r :: r in s.levels[l] ==> SigsOf(r) == sigs && r.lo <= r.hi && FromFlush(s.flushed, r.hi)
  {
    hide Stratified, Ascends, SameView, SigsOf, FromFlush;
    forall r | r in s.levels[l] ensures SigsOf(r) == sigs && r.lo <= r.hi && FromFlush(s.flushed, r.hi) {
      assert r in All(s.levels);
    }
  }

  lemma SomeHas(runs: seq<Run>, sig: Signature, sigs: set<Signature>)
    requires |Having(runs, sig)| > 0 && forall r :: r in runs ==> SigsOf(r) == sigs
    ensures sig in sigs
  {
    hide SigsOf;
    HavingAre(runs, sig);
    assert Having(runs, sig)[0] in Having(runs, sig);
  }

  lemma LevelDistinct(levels: seq<seq<Run>>, l: nat)
    requires Stratified(levels) && l < |levels|
    ensures DistinctHi(SetOf(levels[l]))
  {
    AscendsDistinct(levels[l]);
  }

  lemma OutFlushed(s: Sys, l: nat, out: Run)
    requires l < |s.levels| && Merged(SetOf(s.levels[l]), out)
    requires forall r :: r in s.levels[l] ==> FromFlush(s.flushed, r.hi)
    ensures FromFlush(s.flushed, out.hi)
  {
    hide FromFlush;
    var r :| r in SetOf(s.levels[l]) && r.hi == out.hi;
  }

  // ── Every history ──────────────────────────────────────────────────────────

  lemma {:induction false} HistorySound(sigs: set<Signature>, n: nat, states: seq<Sys>, i: nat)
    requires IsHistory(n, states) && i < |states| && Uniform(sigs, states[i].flushed)
    ensures Sound(sigs, states[i])
  {
    hide Sound, FlushStep, CompactStep, SigsOf, All;
    if i == 0 {
      StartSound(sigs, n);
    } else {
      FlushedGrows(states[i - 1], states[i]);
      HistorySound(sigs, n, states, i - 1);
      StepSound(sigs, states[i - 1], states[i]);
    }
  }

  lemma StartSound(sigs: set<Signature>, n: nat)
    ensures Sound(sigs, Sys(seq(n, _ => []), [], 0))
  {
    assert All(seq(n, _ => [])) == {} == SetOf([]);
  }

  lemma FlushedGrows(s: Sys, t: Sys)
    requires Step(s, t)
    ensures forall r :: r in s.flushed ==> r in t.flushed
  {
    hide Merged;
    if r :| FlushStep(s, t, r) {
    }
  }

  lemma StepSound(sigs: set<Signature>, s: Sys, t: Sys)
    requires Sound(sigs, s) && Step(s, t) && Uniform(sigs, t.flushed)
    ensures Sound(sigs, t)
  {
    hide Sound, CompactStep, SigsOf, All;
    if r :| FlushStep(s, t, r) {
      assert r in t.flushed;
      FlushSound(sigs, s, t, r);
    } else {
      var l: nat, sig: Signature, out: Run :| CompactStep(s, t, l, sig, out);
      CompactSound(sigs, s, t, l, sig, out);
    }
  }

  /** Over every history in which all flushes carry the same signatures, levels are
      stratified by recency, and lookup over the tracked runs finds for every entity
      what lookup over all flushes ever made finds. */
  lemma HistoryKeepsView(sigs: set<Signature>, n: nat, states: seq<Sys>, i: nat, e: u64, img: Image)
    requires IsHistory(n, states) && i < |states| && Uniform(sigs, states[i].flushed)
    ensures Stratified(states[i].levels)
    ensures Shows(All(states[i].levels), e, img) <==> Shows(SetOf(states[i].flushed), e, img)
  {
    HistorySound(sigs, n, states, i);
    hide Stratified, Shows, IsHistory;
    assert SameAt(All(states[i].levels), SetOf(states[i].flushed), e);
  }
}
