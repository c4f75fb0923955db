/** Where flushes carry different signatures a compaction can take runs from both sides
    of one it leaves behind, and an older image comes out on top of a newer one: a run of
    the store that does so. */
module MixedSignatures {
  import opened Bytes
  import opened Order
  import opened RunMeaning
  import opened RunHistory
  import opened RowHistories
  import opened Realization
  import R = Realization
  import S = StoreRuns
  import T = StoreRuns
  import StoreView
  import Manifest

  const LEVELS: nat := 2

  /** The entity that both images are of. */
  const WHO: u64 := 0

  const A: Signature := [[65]]
  const B: Signature := [[66]]

  /** Entity 0 as a row of A, then, one flush later, as a row of B. */
  const OLD: Image := Image(A, [Some([1])])
  const NEW: Image := Image(B, [Some([2])])
  const OTHER: Image := Image(A, [Some([3])])

  /** The five flushes: entity 0 in the first two, entity 1 in the others. */
  function Flush(k: nat): Run {
    Run(k, k, if k == 1 then map[0 := OLD] else if k == 2 then map[0 := NEW] else map[1 := OTHER])
  }

  /** Its rows. */
  function RowsOf(k: nat): seq<Row> {
    [if k == 1 then Row(0, [65], 1) else if k == 2 then Row(0, [66], 2) else Row(1, [65], 3)]
  }

  lemma FlushIsRows(k: nat)
    requires k <= 16
    ensures Flush(k) == RowRunOf(RowsOf(k), k, k) && RowsOk(RowsOf(k))
  {
    ViewOne(RowsOf(k)[0]);
  }

  function Flushes(k: nat): seq<Run> {
    if k == 0 then [] else Flushes(k - 1) + [Flush(k)]
  }

  /** The compaction of flushes 1, 3, 4 and 5. */
  const OUT: Run := Run(1, 5, map[0 := OLD, 1 := OTHER])

  /** Two levels after `k` flushes, and after the compaction. */
  function After(k: nat): Sys { Sys([Flushes(k), []], Flushes(k), 0) }

  const COMPACTED: Sys := Sys([[Flush(2)], [OUT]], Flushes(5), 2)

  lemma {:induction false} FlushesAre(k: nat)
    ensures |Flushes(k)| == k && forall q :: q in Flushes(k) <==> exists j :: 1 <= j <= k && q == Flush(j)
  {
    if k != 0 {
      FlushesAre(k - 1);
    }
  }

  lemma FlushesNext(k: nat)
    ensures Flushes(k + 1) == Flushes(k) + [Flush(k + 1)]
  {
  }

  lemma FiveFlushes()
    ensures Flushes(5) == [Flush(1), Flush(2), Flush(3), Flush(4), Flush(5)]
  {
    assert Flushes(1) == [Flush(1)];
    assert Flushes(2) == [Flush(1), Flush(2)];
    assert Flushes(3) == [Flush(1), Flush(2), Flush(3)];
    assert Flushes(4) == [Flush(1), Flush(2), Flush(3), Flush(4)];
  }

  lemma HasA(k: nat)
    ensures A in SigsOf(Flush(k)) <==> k != 2
  {
    var view := Flush(k).view;
    if k == 1 {
      assert 0 in view && view[0].sig == A;
    } else if k != 2 {
      assert 1 in view && view[1].sig == A;
    } else {
      assert forall e :: e in view ==> view[e].sig == B;
      assert A[0] != B[0];
    }
  }

  lemma Split()
    ensures Having(Flushes(5), A) == [Flush(1), Flush(3), Flush(4), Flush(5)]
    ensures Without(Flushes(5), A) == [Flush(2)]
  {
    FiveFlushes();
    HasA(1);
    HasA(2);
    HasA(3);
    HasA(4);
    HasA(5);
    hide SigsOf, Flushes;
    var f := Flushes(5);
    assert f[1..] == [Flush(2), Flush(3), Flush(4), Flush(5)];
    assert f[1..][1..] == [Flush(3), Flush(4), Flush(5)];
    assert f[1..][1..][1..] == [Flush(4), Flush(5)];
    assert f[1..][1..][1..][1..] == [Flush(5)];
    assert f[1..][1..][1..][1..][1..] == [];
    SplitOne(f[1..][1..][1..][1..], [], []);
    SplitOne(f[1..][1..][1..], [Flush(5)], []);
    SplitOne(f[1..][1..], [Flush(4), Flush(5)], []);
    SplitOne(f[1..], [Flush(3), Flush(4), Flush(5)], []);
    SplitOne(f, [Flush(3), Flush(4), Flush(5)], [Flush(2)]);
  }

  lemma SplitOne(runs: seq<Run>, having: seq<Run>, without: seq<Run>)
    requires |runs| > 0 && Having(runs[1..], A) == having && Without(runs[1..], A) == without
    ensures Having(runs, A) == if A in SigsOf(runs[0]) then [runs[0]] + having else having
    ensures Without(runs, A) == if A in SigsOf(runs[0]) then without else [runs[0]] + without
  {
  }

  lemma OutIsMerged()
    ensures Merged(SetOf([Flush(1), Flush(3), Flush(4), Flush(5)]), OUT)
  {
    var inputs := SetOf([Flush(1), Flush(3), Flush(4), Flush(5)]);
    assert Flush(1) in inputs && Flush(3) in inputs && Flush(4) in inputs && Flush(5) in inputs;
    forall r | r in inputs ensures r == Flush(1) || r == Flush(3) || r == Flush(4) || r == Flush(5) {
    }
    forall e, img {:trigger Shows(inputs, e, img)} ensures Shows(inputs, e, img) <==> e in OUT.view && OUT.view[e] == img {
      if e == 0 {
        assert IsTop(inputs, 0, Flush(1));
      } else if e == 1 {
        assert IsTop(inputs, 1, Flush(5));
      }
    }
  }

  lemma TwoRows()
    ensures |OUT.view| == 2
  {
    assert OUT.view.Keys == {0, 1};
  }

  lemma LevelsMove(rest: seq<Run>, runs: seq<Run>, out: Run)
    ensures [runs, []][0 := rest][1 := [] + [out]] == [rest, [out]]
  {
    assert [] + [out] == [out];
  }

  lemma OnlyATriggers(sig: Signature)
    ensures |Having(After(5).levels[0], sig)| >= TRIGGER <==> sig == A
  {
    Split();
    FiveFlushes();
    if sig != A {
      forall i: nat | i < 5 && sig in SigsOf(Flushes(5)[i]) ensures i in {1} {
        OtherSig(i + 1, sig);
      }
      FewHave(Flushes(5), sig, {1});
    }
  }

  lemma OtherSig(k: nat, sig: Signature)
    requires sig in SigsOf(Flush(k)) && sig != A
    ensures k == 2
  {
    var e :| e in Flush(k).view && Flush(k).view[e].sig == sig;
  }

  lemma ADue()
    ensures R.Due(After(5), 0, A) && R.RangeFree(After(5), 1, 5)
  {
    FlushesAre(5);
    hide Flushes, Having;
    forall sig {:trigger Having(After(5).levels[0], sig)} ensures |Having(After(5).levels[0], sig)| >= TRIGGER <==> sig == A {
      OnlyATriggers(sig);
    }
    forall q | q in All(After(5).levels) ensures !(q.lo == 1 && q.hi == 5) {
      var l :| 0 <= l < 2 && q in After(5).levels[l];
    }
  }

  lemma CompactedIs()
    ensures StoreView.AfterCompaction(After(5), 0, A, OUT) == COMPACTED
  {
    Split();
    TwoRows();
    hide Having, Without, Flushes, Flush;
    LevelsMove([Flush(2)], Flushes(5), OUT);
  }

  /** The store after `k` of the flushes. */
  lemma {:induction false} FlushedStore(dir: Manifest.Path, k: nat) returns (p: S.Point)
    requires ShortDir(dir) && k <= 5
    ensures Holding(LEVELS, dir, p, After(k))
  {
    hide Holding, T.LeadsTo, Flush, ShortDir, RowsOk, Flushes, RowRunOf, Newer;
    if k == 0 {
      FirstState();
      p := EmptyStore(LEVELS, dir);
    } else {
      var q := FlushedStore(dir, k - 1);
      FlushIsRows(k);
      NextInSequence(k);
      p := FlushRows(LEVELS, dir, q, After(k - 1), RowsOf(k), k, k);
      AfterIs(k);
    }
  }

  lemma AfterIs(k: nat)
    requires k > 0
    ensures StoreView.AfterFlush(After(k - 1), Flush(k)) == After(k)
  {
    FlushesNext(k - 1);
    hide Flushes, Flush;
    assert [Flushes(k - 1), []][0 := Flushes(k)] == [Flushes(k), []];
  }

  lemma NextInSequence(k: nat)
    requires k > 0
    ensures StoreView.InSequence(Flushes(k - 1), Flush(k))
  {
    FlushesAre(k - 1);
  }

  lemma FirstState()
    ensures After(0) == Sys(seq(2, _ => []), [], 0)
  {
    assert [[], []] == seq<seq<Run>>(2, _ => []);
  }

  /** A run of the store with files for all of this: five flushes, and the compaction the
      scheduler picks. Lookup finds the new image before it and the old one after. */
  lemma OldImageReturns(dir: Manifest.Path) returns (a: S.Point, b: S.Point)
    requires ShortDir(dir)
    ensures T.Reached(LETTER_UNIVERSE, LEVELS, dir, a) && T.LeadsTo(LETTER_UNIVERSE, LEVELS, dir, a, b)
    ensures a.state.phase.Idle? && b.state.phase.Idle? && b.flushed == a.flushed
    ensures Shows(SetOf(a.flushed), WHO, NEW) && Shows(S.SeenRuns(a.state.disk, a.state.mem), WHO, NEW)
    ensures Shows(S.SeenRuns(b.state.disk, b.state.mem), WHO, OLD) && !Shows(S.SeenRuns(b.state.disk, b.state.mem), WHO, NEW)
  {
    hide Holding, T.LeadsTo, Flush, ShortDir, Flushes, R.Due, R.RangeFree, Merged, Having, Shows, All, T.Reached, R.HasOutput,
      S.SeenRuns;
    a := FlushedStore(dir, 5);
    ADue();
    Split();
    OutIsMerged();
    b := CompactRows(LEVELS, dir, a, After(5), 0, A, OUT);
    CompactedIs();
    SeenIs(LEVELS, dir, a, After(5));
    SeenIs(LEVELS, dir, b, COMPACTED);
    ShowsNew();
    ShowsOld();
  }

  lemma ShowsNew()
    ensures Shows(All(After(5).levels), 0, NEW) && Shows(SetOf(Flushes(5)), 0, NEW)
  {
    FlushesAre(5);
    hide Flushes;
    var all := All(After(5).levels);
    forall q ensures q in all <==> q in Flushes(5) {
      if q in Flushes(5) { assert q in After(5).levels[0]; }
    }
    forall q | q in Flushes(5) && 0 in q.view ensures q.hi <= 2 {
    }
    assert Flush(2) in Flushes(5);
    assert IsTop(all, 0, Flush(2)) && IsTop(SetOf(Flushes(5)), 0, Flush(2));
  }

  lemma ShowsOld()
    ensures Shows(All(COMPACTED.levels), 0, OLD) && !Shows(All(COMPACTED.levels), 0, NEW)
  {
    hide Flushes;
    var all := All(COMPACTED.levels);
    assert OUT in COMPACTED.levels[1] && OUT in all;
    forall q | q in all ensures q == Flush(2) || q == OUT {
    }
    assert IsTop(all, 0, OUT);
    assert OLD.sig[0] != NEW.sig[0];
  }
}
