/** Flushes with different signatures can lead to a level on which one compaction output
    spans all inputs of the next job: the name of that job's output is then its own, and
    carrying it out loses the output. A run of the store that gets there. */
module SpanningRun {
  import opened Bytes
  import opened Order
  import opened RunMeaning
  import opened RunHistory
  import opened RowHistories
  import opened Realization
  import opened RunReader
  import opened Merge
  import opened Picker
  import opened OutputNames
  import opened Executor
  import CF = CompactionFile
  import L = CompactionLoop
  import M = Manifest
  import N = Engine
  import P = Protocol
  import R = Realization
  import S = StoreRuns
  import StoreView
  import T = StoreRuns
  import V = StoreView

  const LEVELS: nat := 3
  const UPPER: nat := 1

  const A: Signature := [[65]]
  const B: Signature := [[66]]
  const C: Signature := [[67]]
  const D: Signature := [[68]]
  const E: Signature := [[69]]

  function Img(sig: Signature): Image { Image(sig, [Some([0])]) }

  /** The one image each entity ever has. */
  const IMAGES: map<u64, Image> := map[0 := Img(A), 1 := Img(B), 2 := Img(D), 3 := Img(E), 9 := Img(C)]

  /** The entity that flush `k` writes besides that of C. */
  function Main(k: nat): u64 {
    if 4 <= k <= 7 then 1 else if 8 <= k <= 11 then 2 else if 12 <= k <= 15 then 3 else 0
  }

  function MainSig(k: nat): Signature {
    if 4 <= k <= 7 then B else if 8 <= k <= 11 then D else if 12 <= k <= 15 then E else A
  }

  lemma MainSigIs(k: nat)
    ensures IMAGES[Main(k)].sig == MainSig(k)
  {
  }

  predicate HasC(k: nat) { k == 4 || k == 8 || k == 12 || k == 16 }

  function Flush(k: nat): Run {
    Run(k, k, if HasC(k) then map[Main(k) := IMAGES[Main(k)], 9 := IMAGES[9]] else map[Main(k) := IMAGES[Main(k)]])
  }

  /** Its rows. */
  function RowsOf(k: nat): seq<Row> {
    [Row(Main(k), MainSig(k)[0], 0)] + if HasC(k) then [Row(9, [67], 0)] else []
  }

  lemma FlushIsRows(k: nat)
    requires k <= 16
    ensures Flush(k) == RowRunOf(RowsOf(k), k, k) && RowsOk(RowsOf(k))
  {
    var main := Row(Main(k), MainSig(k)[0], 0);
    assert RowImg(main) == IMAGES[Main(k)] && RowImg(Row(9, [67], 0)) == IMAGES[9];
    if HasC(k) {
      ViewTwo(main, Row(9, [67], 0));
      assert RowsOf(k) == [main, Row(9, [67], 0)];
    } else {
      ViewOne(main);
      assert RowsOf(k) == [main];
    }
  }

  function Flushes(k: nat): seq<Run> {
    if k == 0 then [] else Flushes(k - 1) + [Flush(k)]
  }

  lemma {:induction false} FlushesAre(k: nat)
    ensures forall q :: q in Flushes(k) <==> exists j :: 1 <= j <= k && q == Flush(j)
  {
    hide Flush;
    if k != 0 {
      FlushesAre(k - 1);
    }
  }

  // ── Which runs have which signature ────────────────────────────────────────

  lemma SigDiffers(a: Signature, b: Signature)
    requires a in [A, B, C, D, E] && b in [A, B, C, D, E] && a[0] != b[0]
    ensures a != b
  {
  }

  lemma FlushSigs(k: nat, sig: Signature)
    ensures sig in SigsOf(Flush(k)) <==> sig == MainSig(k) || (HasC(k) && sig == C)
  {
    MainSigIs(k);
    var view := Flush(k).view;
    assert Main(k) in view && view[Main(k)] == IMAGES[Main(k)];
    if HasC(k) {
      assert 9 in view && view[9].sig == C;
    }
  }

  lemma {:induction false} HavingAll(runs: seq<Run>, sig: Signature)
    requires forall i :: 0 <= i < |runs| ==> sig in SigsOf(runs[i])
    ensures Having(runs, sig) == runs && Without(runs, sig) == []
  {
    hide SigsOf;
    if |runs| != 0 {
      HavingAll(runs[1..], sig);
    }
  }

  lemma {:induction false} HavingNone(runs: seq<Run>, sig: Signature)
    requires forall i :: 0 <= i < |runs| ==> sig !in SigsOf(runs[i])
    ensures Having(runs, sig) == [] && Without(runs, sig) == runs
  {
    hide SigsOf;
    if |runs| != 0 {
      HavingNone(runs[1..], sig);
    }
  }

  // ── Merging runs that agree ────────────────────────────────────────────────

  predicate Agrees(r: Run) { forall e :: e in r.view ==> e in IMAGES && r.view[e] == IMAGES[e] }

  /** Where entities never change, a merge is a union. */
  lemma AgreeingMerge(inputs: set<Run>, out: Run)
    requires Agrees(out) && forall r :: r in inputs ==> Agrees(r) && out.lo <= r.lo && r.hi <= out.hi
    requires (exists r :: r in inputs && r.lo == out.lo) && exists r :: r in inputs && r.hi == out.hi
    requires forall e :: e in out.view <==> exists r :: r in inputs && e in r.view
    ensures Merged(inputs, out)
  {
    forall e, img {:trigger Shows(inputs, e, img)} ensures Shows(inputs, e, img) <==> e in out.view && out.view[e] == img {
      if e in out.view && out.view[e] == img {
        var some :| some in inputs && e in some.view;
        var t := TopExists(inputs, e, some);
        assert t.view[e] == img;
      }
    }
  }

  /** The output of four flushes like `k` of which one has C. */
  function Out(lo: nat, hi: nat, k: nat): Run { Run(lo, hi, map[Main(k) := IMAGES[Main(k)], 9 := IMAGES[9]]) }

  lemma FourMerge(a: nat, b: nat, c: nat, d: nat)
    requires a < b < c < d && Main(a) == Main(b) == Main(c) == Main(d) && (HasC(a) || HasC(d))
    ensures Merged(SetOf([Flush(a), Flush(b), Flush(c), Flush(d)]), Out(a, d, a))
  {
    var inputs, out := SetOf([Flush(a), Flush(b), Flush(c), Flush(d)]), Out(a, d, a);
    FlushIs(a);
    FlushIs(b);
    FlushIs(c);
    FlushIs(d);
    OutIs(a, d, a);
    forall r ensures r in inputs <==> r == Flush(a) || r == Flush(b) || r == Flush(c) || r == Flush(d) {
      FourMembers(Flush(a), Flush(b), Flush(c), Flush(d), r);
    }
    hide Flush, Main, Out, Agrees, SetOf, HasC;
    assert Flush(a) in inputs && Flush(d) in inputs;
    AgreeingMerge(inputs, out);
  }

  lemma FlushIs(k: nat)
    ensures Agrees(Flush(k)) && Flush(k).lo == k && Flush(k).hi == k
    ensures forall e :: e in Flush(k).view <==> e == Main(k) || (HasC(k) && e == 9)
  {
  }

  lemma OutIs(lo: nat, hi: nat, k: nat)
    ensures Agrees(Out(lo, hi, k)) && Out(lo, hi, k).lo == lo && Out(lo, hi, k).hi == hi
    ensures forall e :: e in Out(lo, hi, k).view <==> e == Main(k) || e == 9
  {
  }

  lemma FourMembers(a: Run, b: Run, c: Run, d: Run, r: Run)
    ensures r in SetOf([a, b, c, d]) <==> r == a || r == b || r == c || r == d
  {
    var s := [a, b, c, d];
    assert s[0] == a && s[1] == b && s[2] == c && s[3] == d;
  }

  // ── The states ─────────────────────────────────────────────────────────────

  function State(l0: seq<Run>, l1: seq<Run>, k: nat, rows: nat): Sys { Sys([l0, l1, []], Flushes(k), rows) }

  lemma NextInSequence(k: nat)
    ensures StoreView.InSequence(Flushes(k), Flush(k + 1))
  {
    FlushesAre(k);
  }

  lemma FlushedState(l0: seq<Run>, l1: seq<Run>, k: nat, rows: nat)
    ensures StoreView.AfterFlush(State(l0, l1, k, rows), Flush(k + 1)) == State(l0 + [Flush(k + 1)], l1, k + 1, rows)
  {
    hide Flush;
    assert [l0, l1, []][0 := l0 + [Flush(k + 1)]] == [l0 + [Flush(k + 1)], l1, []];
  }

  /** One more flush. */
  lemma FlushOne(dir: M.Path, p: S.Point, l0: seq<Run>, l1: seq<Run>, j: nat, k: nat, rows: nat) returns (p': S.Point)
    requires ShortDir(dir) && j + 1 == k <= 16 && Holding(LEVELS, dir, p, State(l0, l1, j, rows))
    ensures Holding(LEVELS, dir, p', State(l0 + [Flush(k)], l1, k, rows))
  {
    hide Holding, T.LeadsTo, Flush, ShortDir, RowsOk, Flushes, RowRunOf, Newer;
    FlushIsRows(k);
    NextInSequence(j);
    p' := FlushRows(LEVELS, dir, p, State(l0, l1, j, rows), RowsOf(k), k, k);
    FlushedState(l0, l1, j, rows);
  }

  lemma CompactedState(l0: seq<Run>, l1: seq<Run>, k: nat, rows: nat, keep: seq<Run>, sig: Signature, out: Run)
    requires Without(l0, sig) == keep
    ensures StoreView.AfterCompaction(State(l0, l1, k, rows), 0, sig, out) == State(keep, l1 + [out], k, rows + |out.view|)
  {
    hide Without, Flushes;
    assert [l0, l1, []][0 := keep][1 := l1 + [out]] == [keep, l1 + [out], []];
  }

  /** Flushes have one sequence number each, so a range of more is free unless level 1 has
      it. */
  lemma Free(l0: seq<Run>, l1: seq<Run>, k: nat, rows: nat, lo: nat, hi: nat)
    requires lo < hi && (forall q :: q in l0 ==> q.lo == q.hi) && forall q :: q in l1 ==> q.lo != lo
    ensures R.RangeFree(State(l0, l1, k, rows), lo, hi)
  {
    hide Flushes;
    var s := State(l0, l1, k, rows);
    forall q | q in All(s.levels) ensures !(q.lo == lo && q.hi == hi) {
      var l :| 0 <= l < |s.levels| && q in s.levels[l];
    }
  }

  lemma DueAt(l0: seq<Run>, l1: seq<Run>, k: nat, rows: nat, sig: Signature)
    requires |l0| <= 0x40 && forall s :: |Having(l0, s)| >= TRIGGER <==> s == sig
    ensures R.Due(State(l0, l1, k, rows), 0, sig)
  {
    hide Having, Flushes;
  }

  /** The compaction of the signature that alone triggers on level 0. */
  lemma CompactOne(dir: M.Path, p: S.Point, l0: seq<Run>, l1: seq<Run>, k: nat, rows: nat, keep: seq<Run>, block: seq<Run>,
                   sig: Signature, out: Run, all: nat) returns (p': S.Point)
    requires all == rows + |out.view| && ShortDir(dir) && Holding(LEVELS, dir, p, State(l0, l1, k, rows))
    requires Having(l0, sig) == block && Without(l0, sig) == keep && Merged(SetOf(block), out) && out.lo < out.hi
    requires |l0| <= 0x40 && forall s :: |Having(l0, s)| >= TRIGGER <==> s == sig
    requires (forall q :: q in l0 ==> q.lo == q.hi) && forall q :: q in l1 ==> q.lo != out.lo
    ensures Holding(LEVELS, dir, p', State(keep, l1 + [out], k, all)) && R.HasOutput(dir, p'.state.mem, out.lo, out.hi)
  {
    hide Holding, T.LeadsTo, ShortDir, Flushes, R.Due, R.RangeFree, Merged, Having, Without, R.HasOutput, SetOf;
    DueAt(l0, l1, k, rows, sig);
    Free(l0, l1, k, rows, out.lo, out.hi);
    CompactedState(l0, l1, k, rows, keep, sig, out);
    p' := CompactRows(LEVELS, dir, p, State(l0, l1, k, rows), 0, sig, out);
  }

  // ── The run ────────────────────────────────────────────────────────────────

  function First3(): seq<Run> { [Flush(1), Flush(2), Flush(3)] }

  function Block(k: nat): seq<Run> { [Flush(k + 1), Flush(k + 2), Flush(k + 3), Flush(k + 4)] }

  function BlockSig(k: nat): Signature { MainSig(k + 1) }

  function BlockOut(k: nat): Run { Out(k + 1, k + 4, k + 1) }

  lemma FlushFour(dir: M.Path, p: S.Point, l0: seq<Run>, l1: seq<Run>, k: nat, last: nat, rows: nat) returns (p': S.Point)
    requires ShortDir(dir) && k + 4 == last <= 16 && Holding(LEVELS, dir, p, State(l0, l1, k, rows))
    ensures Holding(LEVELS, dir, p', State(l0 + Block(k), l1, last, rows))
  {
    hide Holding, State, Flush, ShortDir;
    var q := FlushOne(dir, p, l0, l1, k, k + 1, rows);
    q := FlushOne(dir, q, l0 + [Flush(k + 1)], l1, k + 1, k + 2, rows);
    q := FlushOne(dir, q, l0 + [Flush(k + 1)] + [Flush(k + 2)], l1, k + 2, k + 3, rows);
    p' := FlushOne(dir, q, l0 + [Flush(k + 1)] + [Flush(k + 2)] + [Flush(k + 3)], l1, k + 3, k + 4, rows);
    assert l0 + [Flush(k + 1)] + [Flush(k + 2)] + [Flush(k + 3)] + [Flush(k + 4)] == l0 + Block(k);
  }

  /** Four flushes on top of the first three, of which the block alone has the signature,
      and their compaction. */
  lemma BlockMoves(dir: M.Path, p: S.Point, l1: seq<Run>, k: nat, rows: nat, sig: Signature, last: nat, all: nat)
    returns (p': S.Point)
    requires ShortDir(dir) && Holding(LEVELS, dir, p, State(First3(), l1, k, rows)) && (k == 3 || k == 7 || k == 11)
    requires sig == BlockSig(k) && last == k + 4 && all == rows + 2 && forall q :: q in l1 ==> q.lo != k + 1
    ensures Holding(LEVELS, dir, p', State(First3(), l1 + [BlockOut(k)], last, all))
  {
    hide Holding, State, Flush, Having, Without, Merged, ShortDir, R.HasOutput, Out, First3, MainSig, SetOf;
    BlockSplits(k, sig);
    BlockDue(k, sig);
    BlockMerges(k);
    OutRows(k + 1, k + 4, k + 1);
    BlockSize(k);
    var q := FlushFour(dir, p, First3(), l1, k, last, rows);
    SingleRanges(k);
    p' := CompactOne(dir, q, First3() + Block(k), l1, last, rows, First3(), Block(k), sig, BlockOut(k), all);
  }

  lemma BlockMerges(k: nat)
    requires k == 3 || k == 7 || k == 11
    ensures Merged(SetOf(Block(k)), Out(k + 1, k + 4, k + 1))
  {
    FourMerge(k + 1, k + 2, k + 3, k + 4);
    hide Flush, Merged, SetOf, Out;
  }

  lemma BlockSize(k: nat)
    ensures |First3() + Block(k)| == 7
  {
    hide Flush;
  }

  lemma SingleRanges(k: nat)
    ensures forall q :: q in First3() + Block(k) ==> q.lo == q.hi
    ensures forall q :: q in First3() + [Flush(k)] ==> q.lo == q.hi
  {
  }

  lemma OutRows(lo: nat, hi: nat, k: nat)
    ensures |Out(lo, hi, k).view| == 2 && Out(lo, hi, k).lo == lo && Out(lo, hi, k).hi == hi
  {
    assert Out(lo, hi, k).view.Keys == {Main(k), 9};
  }

  lemma BlockSplits(k: nat, sig: Signature)
    requires (k == 3 || k == 7 || k == 11) && sig == MainSig(k + 1)
    ensures Having(First3() + Block(k), sig) == Block(k) && Without(First3() + Block(k), sig) == First3()
  {
    hide Flush, SigsOf, Main, Having, Without;
    FlushSigs(1, sig);
    FlushSigs(2, sig);
    FlushSigs(3, sig);
    FlushSigs(k + 1, sig);
    FlushSigs(k + 2, sig);
    FlushSigs(k + 3, sig);
    FlushSigs(k + 4, sig);
    SigDiffers(A, sig);
    SigDiffers(C, sig);
    HavingAppend(First3(), Block(k), sig);
    WithoutAppend(First3(), Block(k), sig);
    HavingNone(First3(), sig);
    HavingAll(Block(k), sig);
    assert [] + Block(k) == Block(k) && First3() + [] == First3();
  }

  /** Besides the signature of the block, A is in three runs and C in one. */
  lemma BlockDue(k: nat, sig: Signature)
    requires (k == 3 || k == 7 || k == 11) && sig == MainSig(k + 1)
    ensures forall s :: |Having(First3() + Block(k), s)| >= TRIGGER <==> s == sig
  {
    hide Having, Flush, SigsOf;
    BlockSplits(k, sig);
    SigDiffers(A, sig);
    SigDiffers(C, sig);
    SigDiffers(A, C);
    var runs := First3() + Block(k);
    forall s ensures |Having(runs, s)| >= TRIGGER <==> s == sig {
      if s != sig {
        var few: set<nat> := if s == A then {0, 1, 2} else {3};
        forall i: nat | i < |runs| && s in SigsOf(runs[i]) ensures i in few {
          FlushSigs(if i < 3 then i + 1 else k + (i - 2), s);
        }
        FewHave(runs, s, few);
      }
    }
  }

  const X: Run := Out(1, 16, 1)
  const Y: Run := Out(4, 7, 4)
  const Z: Run := Out(8, 11, 8)
  const W: Run := Out(12, 15, 12)

  lemma StartState()
    ensures State([], [], 0, 0) == Sys(seq(3, _ => []), [], 0)
  {
    assert State([], [], 0, 0).levels == seq<seq<Run>>(3, _ => []);
  }

  lemma Lows()
    ensures Y.lo == 4 && Z.lo == 8 && W.lo == 12 && MainSig(4) == B && MainSig(8) == D && MainSig(12) == E
  {
  }

  lemma FirstAre()
    ensures [] + [Flush(1)] + [Flush(2)] + [Flush(3)] == First3()
  {
  }

  const BLOCKS: Sys := State(First3(), [Y, Z, W], 15, 6)

  lemma BlocksReached(dir: M.Path) returns (p: S.Point)
    requires ShortDir(dir)
    ensures Holding(LEVELS, dir, p, BLOCKS)
  {
    hide Holding, State, Flush, ShortDir, Out, First3;
    StartState();
    Lows();
    FirstAre();
    p := EmptyStore(LEVELS, dir);
    p := FlushOne(dir, p, [], [], 0, 1, 0);
    p := FlushOne(dir, p, [] + [Flush(1)], [], 1, 2, 0);
    p := FlushOne(dir, p, [] + [Flush(1)] + [Flush(2)], [], 2, 3, 0);
    p := BlockMoves(dir, p, [], 3, 0, B, 7, 2);
    p := BlockMoves(dir, p, [] + [Y], 7, 2, D, 11, 4);
    p := BlockMoves(dir, p, [] + [Y] + [Z], 11, 4, E, 15, 6);
    assert [] + [Y] + [Z] + [W] == [Y, Z, W];
  }

  lemma LastFour()
    ensures Having(First3() + [Flush(16)], A) == First3() + [Flush(16)] && Without(First3() + [Flush(16)], A) == []
    ensures forall s :: |Having(First3() + [Flush(16)], s)| >= TRIGGER <==> s == A
  {
    FlushSigs(1, A);
    FlushSigs(2, A);
    FlushSigs(3, A);
    FlushSigs(16, A);
    hide Flush, SigsOf;
    var runs := First3() + [Flush(16)];
    HavingAll(runs, A);
    forall s ensures |Having(runs, s)| >= TRIGGER <==> s == A {
      if s != A {
        forall i: nat | i < |runs| && s in SigsOf(runs[i]) ensures i in {3} {
          FlushSigs(if i < 3 then i + 1 else 16, s);
        }
        FewHave(runs, s, {3});
      }
    }
  }

  lemma LastMerge()
    ensures Merged(SetOf(First3() + [Flush(16)]), X) && |X.view| == 2 && X.lo == 1 && X.hi == 16
    ensures forall q :: q in [Y, Z, W] ==> q.lo != 1
  {
    FourMerge(1, 2, 3, 16);
    OutRows(1, 16, 1);
    OutRows(4, 7, 4);
    OutRows(8, 11, 8);
    OutRows(12, 15, 12);
    hide Flush, Merged, SetOf, Out;
    assert First3() + [Flush(16)] == [Flush(1), Flush(2), Flush(3), Flush(16)];
  }

  lemma SpanReached(dir: M.Path) returns (p: S.Point)
    requires ShortDir(dir)
    ensures Holding(LEVELS, dir, p, LAST) && HasX(dir, p.state.mem)
  {
    hide Holding, State, Flush, Having, Without, Merged, ShortDir, R.HasOutput, Out, SetOf;
    LastFour();
    LastMerge();
    SingleRanges(16);
    p := BlocksReached(dir);
    p := FlushOne(dir, p, First3(), [Y, Z, W], 15, 16, 6);
    p := CompactOne(dir, p, First3() + [Flush(16)], [Y, Z, W], 16, 6, [], First3() + [Flush(16)], A, X, 8);
    assert [Y, Z, W] + [X] == [Y, Z, W, X];
  }

  // ── The next job ───────────────────────────────────────────────────────────

  ghost predicate HasX(dir: M.Path, m: M.ManifestState) { R.HasOutput(dir, m, 1, 16) }

  const LAST: Sys := State([], [Y, Z, W, X], 16, 8)

  lemma OutSigs(lo: nat, hi: nat, k: nat, sig: Signature)
    ensures sig in SigsOf(Out(lo, hi, k)) <==> sig == MainSig(k) || sig == C
  {
    MainSigIs(k);
    var view := Out(lo, hi, k).view;
    assert Main(k) in view && view[Main(k)] == IMAGES[Main(k)];
    assert 9 in view && view[9].sig == C;
  }

  lemma LastSigs(i: nat, sig: Signature)
    requires i < 4
    ensures sig in SigsOf([Y, Z, W, X][i]) <==> sig == [B, D, E, A][i] || sig == C
  {
    OutSigs(4, 7, 4, sig);
    OutSigs(8, 11, 8, sig);
    OutSigs(12, 15, 12, sig);
    OutSigs(1, 16, 1, sig);
    hide SigsOf, Out;
  }

  /** C alone triggers on level 1. */
  lemma CDue()
    ensures R.Due(LAST, 1, C) && Having(LAST.levels[1], C) == [Y, Z, W, X]
  {
    hide SigsOf, Out, Flushes;
    var runs := [Y, Z, W, X];
    forall i | 0 <= i < 4 ensures C in SigsOf(runs[i]) {
      LastSigs(i, C);
    }
    HavingAll(runs, C);
    forall s {:trigger Having(LAST.levels[1], s)} ensures |Having(LAST.levels[1], s)| >= TRIGGER <==> s == C {
      OtherRuns(s);
    }
    assert R.Quietly([]);
  }

  lemma OtherRuns(s: Signature)
    ensures s != C ==> |Having([Y, Z, W, X], s)| < TRIGGER
  {
    SigDiffers(A, B);
    SigDiffers(A, D);
    SigDiffers(A, E);
    SigDiffers(B, D);
    SigDiffers(B, E);
    SigDiffers(D, E);
    hide SigsOf, Out, Having;
    if s != C {
      var few: set<nat> := {if s == B then 0 else if s == D then 1 else if s == E then 2 else 3};
      forall i: nat | i < 4 && s in SigsOf([Y, Z, W, X][i]) ensures i in few {
        LastSigs(i, s);
      }
      FewHave([Y, Z, W, X], s, few);
    }
  }

  /** What the job's output will be: everything, in the range of X. */
  const NEXT: Run := Run(1, 16, IMAGES)

  /** Four runs in the range of the last of them, that together have all entities. */
  lemma MergeOfAll(a: Run, b: Run, c: Run, d: Run, out: Run)
    requires Agrees(a) && Agrees(b) && Agrees(c) && Agrees(d) && Agrees(out) && d.lo == out.lo && d.hi == out.hi
    requires out.lo <= a.lo && out.lo <= b.lo && out.lo <= c.lo && a.hi <= out.hi && b.hi <= out.hi && c.hi <= out.hi
    requires forall e :: e in out.view <==> e in a.view || e in b.view || e in c.view || e in d.view
    ensures Merged(SetOf([a, b, c, d]), out)
  {
    var inputs := SetOf([a, b, c, d]);
    forall r ensures r in inputs <==> r == a || r == b || r == c || r == d {
      FourMembers(a, b, c, d, r);
    }
    hide SetOf, Agrees;
    assert a in inputs && b in inputs && c in inputs && d in inputs;
    AgreeingMerge(inputs, out);
  }

  lemma NextIs()
    ensures Agrees(NEXT) && NEXT.lo == 1 && NEXT.hi == 16
    ensures forall e :: e in NEXT.view <==> e == 0 || e == 1 || e == 2 || e == 3 || e == 9
  {
  }

  lemma NextMerge()
    ensures Merged(SetOf([Y, Z, W, X]), NEXT)
  {
    OutIs(4, 7, 4);
    OutIs(8, 11, 8);
    OutIs(12, 15, 12);
    OutIs(1, 16, 1);
    NextIs();
    hide Out, SetOf, Agrees, Merged;
    MergeOfAll(Y, Z, W, X, NEXT);
  }

  /** Every output of the job has the name of X. */
  lemma OutputIsTracked(dir: M.Path, p: S.Point, job: Job, o: Output, out: Reader)
    requires Holding(LEVELS, dir, p, LAST) && HasX(dir, p.state.mem)
    requires 1 < |p.state.mem.levels| && JobFor(p.state.disk, LevelOf(p.state.mem.levels, 1), UPPER, C, job) && OutputIs(p.state.disk, job, dir, o, out)
    ensures o.path in P.Tracked(p.state.mem) && o.meta.path == o.path
  {
    CDue();
    NextMerge();
    hide Holding, R.Now, T.Reached, S.Kept, UniverseOk, StoreView.Shown, S.Shows, DiskIn, P.Inv, JobFor, OutputIs, Merged, Having, Flushes, Out,
      V.Seen, RunWf, P.Tracked, R.Due, OutputPath;
    NowOf(dir, p);
    R.NowParts(LETTER_UNIVERSE, LEVELS, dir, p, LAST);
    S.ShowsParts(LEVELS, dir, p.state.disk, p.state.mem, p.flushed, LAST);
    R.DueMerges(LETTER_UNIVERSE, p.state.disk, p.state.mem, LAST, 1, C, job, dir, o, out, NEXT);
    StoreView.SeenHi(out);
    S.OutputIsNamed(p.state.disk, job, dir, o, out);
  }

  lemma NowOf(dir: M.Path, p: S.Point)
    requires Holding(LEVELS, dir, p, LAST)
    ensures R.Now(LETTER_UNIVERSE, LEVELS, dir, p, LAST) && R.SturdyRuns(p.state.disk, p.state.mem)
  {
    hide R.Now, R.SturdyRuns;
  }

  /** Carrying the job out with this output leaves a run of the manifest without its file,
      or two with one. */
  ghost predicate Destroys(s: P.State, job: Job, o: Output) {
    M.Committable(s.mem, job.to, N.CommitInputs(job))
    && !P.AllPresent(s.disk[o.path := o.file] - P.Retired(N.CommitOf(job, o)), M.Committed(s.mem, job.to, o.meta, N.CommitInputs(job)))
  }

  /** A run of the store, with files for all of it, after which the scheduler's next job is
      on level 1, can be carried out, and has no output whose name is free: whichever it
      has, its commit destroys a tracked run. */
  lemma SpanningJobReachable(dir: M.Path) returns (p: S.Point, job: Job)
    requires ShortDir(dir)
    ensures T.Reached(LETTER_UNIVERSE, LEVELS, dir, p) && p.state.phase.Idle?
    ensures L.NextJob(p.state.disk, p.state.mem.levels, UPPER, job) && !JobRefused(p.state.disk, job)
    ensures exists o, out :: OutputIs(p.state.disk, job, dir, o, out)
    ensures forall o, out :: OutputIs(p.state.disk, job, dir, o, out) ==> o.path in P.Tracked(p.state.mem) && Destroys(p.state, job, o)
  {
    CDue();
    hide Holding, R.Now, T.Reached, S.Kept, UniverseOk, StoreView.Shown, S.Shows, DiskIn, P.Inv, JobFor, OutputIs, Having, Flushes, Out,
      P.Tracked, R.Due, R.NextDue, OutputPath, R.HasOutput, L.NextJob, JobRefused, R.SturdyRuns, ShortDir, CF.Runnable,
      Destroys, P.UniquePaths, StoreView.RunViewable;
    p := SpanReached(dir);
    NowOf(dir, p);
    R.NowParts(LETTER_UNIVERSE, LEVELS, dir, p, LAST);
    S.ShowsParts(LEVELS, dir, p.state.disk, p.state.mem, p.flushed, LAST);
    R.DueNow(LETTER_UNIVERSE, LEVELS, dir, p, LAST, 1, C);
    job := R.DueJob(p.state.disk, p.state.mem, LAST, 1, C);
    LettersOk();
    var readers, table := R.DueRunnable(LETTER_UNIVERSE, p.state.disk, p.state.mem, LAST, 1, C, job);
    RunnableIsNotRefused(p.state.disk, job, readers, table);
    var o, out := CF.OutputExists(LETTER_UNIVERSE, p.state.disk, job, dir, readers, table);
    forall x, q | OutputIs(p.state.disk, job, dir, x, q) ensures x.path in P.Tracked(p.state.mem) && Destroys(p.state, job, x) {
      OutputIsTracked(dir, p, job, x, q);
      JobDestroys(p.state, job, x);
    }
  }

  lemma RunnableIsNotRefused(disk: M.Disk, job: Job, readers: seq<Reader>, table: ArchTable)
    requires CF.Runnable(disk, job, readers, table)
    ensures !JobRefused(disk, job)
  {
    hide OpenedAs, Inputs;
    forall others, t | OpenedAs(disk, job.paths, others) && IsTable(Inputs(others), job.sigs, t) ensures others == readers && t == table {
      OneJobTable(disk, job, readers, table, others, t);
    }
  }

  lemma JobDestroys(s: P.State, job: Job, o: Output)
    requires P.AllPresent(s.disk, s.mem) && 2 < |s.mem.levels| <= M.MAX_LEVELS && JobFor(s.disk, LevelOf(s.mem.levels, 1), UPPER, C, job)
    requires o.path in P.Tracked(s.mem) && o.meta.path == o.path
    ensures Destroys(s, job, o)
  {
    hide JobFor, P.Tracked, P.UniquePaths, M.Committable, M.Committed, P.Retired;
    L.JobForParts(s.disk, s.mem.levels[1], 1, C, job);
    R.CommitIsPossible(s.disk, s.mem, 1, C, job, o);
    var inputs := N.CommitInputs(job);
    forall i | 0 <= i < |inputs| ensures inputs[i].0 != job.to {
    }
    P.OutputPathMustBeFresh(s.disk, s.mem, job.to, o.meta, inputs, o.file);
  }
}
