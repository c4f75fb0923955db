/** The runs on disk seen as the runs of a history: a compaction carried out on files is
    a compaction step on what lookups see. */
module StoreView {
  import opened Bytes
  import opened Order
  import opened Schema
  import opened RunReader
  import opened Merge
  import opened CompactRun
  import opened RunMeaning
  import opened CompactionMeaning
  import opened Picker
  import opened Executor
  import opened RunFile
  import opened Archetypes
  import opened Manifest
  import opened EntryCodec
  import opened Protocol
  import opened Engine
  import opened CompactionLoop
  import Recency
  import H = RunHistory
  import M = Manifest
  import F = Flush

  /** The one image a well-formed run has of an entity. */
  ghost function ImageOf(r: Reader, e: u64): (img: Image)
    ensures RunWf(r) && HasEntity(r, e) ==> ImageIn(r, e, img) && forall other :: ImageIn(r, e, other) ==> other == img
  {
    if RunWf(r) && HasEntity(r, e) then
      ImageExists(r, e);
      var img :| ImageIn(r, e, img);
      img
    else Image([], [])
  }

  lemma ImageExists(r: Reader, e: u64)
    requires RunWf(r) && HasEntity(r, e)
    ensures exists img :: ImageIn(r, e, img) && forall other :: ImageIn(r, e, other) ==> other == img
  {
    hide RunWf, HasEntity, ImageIn;
    var img := OneImage(r, e);
  }

  /** What lookups see of a run. */
  ghost function Seen(r: Reader): H.Run {
    H.Run(r.lo, r.hi, map e: u64 | 0 <= e < 0x1_0000_0000_0000_0000 && HasEntity(r, e) :: ImageOf(r, e))
  }

  lemma SeenImages(r: Reader, e: u64, img: Image)
    requires RunWf(r)
    ensures e in Seen(r).view <==> HasEntity(r, e)
    ensures ImageIn(r, e, img) <==> e in Seen(r).view && Seen(r).view[e] == img
  {
    hide RunWf, ImageIn, HasEntity;
    if ImageIn(r, e, img) {
      ImageHasEntity(r, e, img);
    }
  }

  ghost function SeenAll(runs: seq<Reader>): set<H.Run> {
    set i | 0 <= i < |runs| :: Seen(runs[i])
  }

  /** Newest first, no two of the same hi. */
  predicate Descending(runs: seq<Reader>) {
    forall i, j :: 0 <= i < j < |runs| ==> runs[j].hi < runs[i].hi
  }

  lemma SeenIn(runs: seq<Reader>, i: nat)
    requires AllWf(runs) && i < |runs|
    ensures Seen(runs[i]) in SeenAll(runs) && Seen(runs[i]).lo == runs[i].lo && Seen(runs[i]).hi == runs[i].hi
  {
    hide RunWf, HasEntity;
  }

  /** The newest-wins lookup of the merge is that of the history. */
  lemma LookupSeen(runs: seq<Reader>, e: u64, img: Image)
    requires AllWf(runs) && Descending(runs)
    ensures StoreImage(runs, e, img) <==> H.Shows(SeenAll(runs), e, img)
  {
    hide RunWf, HasEntity, ImageIn, Seen;
    forall i | 0 <= i < |runs|
      ensures Seen(runs[i]).hi == runs[i].hi && (e in Seen(runs[i]).view <==> HasEntity(runs[i], e))
      ensures ImageIn(runs[i], e, img) <==> e in Seen(runs[i]).view && Seen(runs[i]).view[e] == img
    {
      SeenIn(runs, i);
      SeenImages(runs[i], e, img);
    }
    if StoreImage(runs, e, img) {
      var i :| 0 <= i < |runs| && ImageIn(runs[i], e, img) && forall j :: 0 <= j < i ==> !HasEntity(runs[j], e);
      FirstIsTop(runs, e, i);
    }
    if H.Shows(SeenAll(runs), e, img) {
      var t :| H.IsTop(SeenAll(runs), e, t) && t.view[e] == img;
      var i :| 0 <= i < |runs| && Seen(runs[i]) == t;
      forall j | 0 <= j < i ensures !HasEntity(runs[j], e) {
        SeenIn(runs, j);
      }
    }
  }

  lemma FirstIsTop(runs: seq<Reader>, e: u64, i: nat)
    requires AllWf(runs) && Descending(runs) && i < |runs|
    requires forall j :: 0 <= j < |runs| ==> Seen(runs[j]).hi == runs[j].hi && (e in Seen(runs[j]).view <==> HasEntity(runs[j], e))
    requires HasEntity(runs[i], e) || e in Seen(runs[i]).view
    requires forall j :: 0 <= j < i ==> !HasEntity(runs[j], e)
    ensures H.IsTop(SeenAll(runs), e, Seen(runs[i]))
  {
    hide RunWf, HasEntity, Seen;
    forall q | q in SeenAll(runs) && e in q.view ensures q.hi <= runs[i].hi {
      var j :| 0 <= j < |runs| && Seen(runs[j]) == q;
      assert i <= j;
    }
  }

  /** Files to history: when lookup in `out` is newest-wins lookup over the inputs, and
      the range is theirs, `out` is seen as the merge of what is seen of the inputs. */
  lemma SeenMerged(inputs: seq<Reader>, out: Reader)
    requires AllWf(inputs) && RunWf(out) && Descending(inputs) && IsSpan(inputs, out.lo, out.hi)
    requires forall e, img :: ImageIn(out, e, img) <==> StoreImage(inputs, e, img)
    ensures H.Merged(SeenAll(inputs), Seen(out))
  {
    hide RunWf, HasEntity, ImageIn, Seen, StoreImage, H.Shows;
    SeenIn([out], 0);
    SeenRange(inputs, out);
    forall e, img {:trigger H.Shows(SeenAll(inputs), e, img)}
      ensures H.Shows(SeenAll(inputs), e, img) <==> e in Seen(out).view && Seen(out).view[e] == img
    {
      LookupSeen(inputs, e, img);
      SeenImages(out, e, img);
    }
    forall e ensures e in Seen(out).view <==> exists r :: r in SeenAll(inputs) && e in r.view {
      SeenEntity(inputs, Seen(out), e);
    }
  }

  lemma SeenRange(inputs: seq<Reader>, out: Reader)
    requires AllWf(inputs) && RunWf(out) && IsSpan(inputs, out.lo, out.hi)
    ensures forall r :: r in SeenAll(inputs) ==> out.lo <= r.lo && r.hi <= out.hi
    ensures exists r :: r in SeenAll(inputs) && r.lo == out.lo
    ensures exists r :: r in SeenAll(inputs) && r.hi == out.hi
  {
    hide RunWf, HasEntity, Seen;
    forall i | 0 <= i < |inputs| ensures Seen(inputs[i]) in SeenAll(inputs) && Seen(inputs[i]).lo == inputs[i].lo
      && Seen(inputs[i]).hi == inputs[i].hi
    {
      SeenIn(inputs, i);
    }
  }

  lemma SeenEntity(inputs: seq<Reader>, out: H.Run, e: u64)
    requires AllWf(inputs)
    requires forall img {:trigger H.Shows(SeenAll(inputs), e, img)} ::
      H.Shows(SeenAll(inputs), e, img) <==> e in out.view && out.view[e] == img
    ensures e in out.view <==> exists r :: r in SeenAll(inputs) && e in r.view
  {
    hide RunWf, HasEntity, Seen;
    if e in out.view {
      assert H.Shows(SeenAll(inputs), e, out.view[e]);
    }
    if some :| some in SeenAll(inputs) && e in some.view {
      var t := H.TopExists(SeenAll(inputs), e, some);
      assert H.Shows(SeenAll(inputs), e, t.view[e]);
    }
  }

  lemma SpanOfSorted(readers: seq<Reader>, lo: u64, hi: u64)
    requires IsSpan(readers, lo, hi)
    ensures IsSpan(Inputs(readers), lo, hi)
  {
    hide NewestFirst;
    NewestFirstIs(readers);
    var pairs, inputs := NewestFirst(readers), Inputs(readers);
    var a :| 0 <= a < |readers| && readers[a].lo == lo;
    var b :| 0 <= b < |readers| && readers[b].hi == hi;
    assert (a, readers[a]) in pairs && (b, readers[b]) in pairs;
    var k :| 0 <= k < |pairs| && pairs[k] == (a, readers[a]);
    var l :| 0 <= l < |pairs| && pairs[l] == (b, readers[b]);
    assert inputs[k].lo == lo && inputs[l].hi == hi;
  }

  /** A compaction job carried out on files, of runs with distinct hi and none with a
      signature twice, is a merge in the history: same range, same newest-wins view. */
  lemma ExecutionIsMerge(u: Universe, disk: M.Disk, job: Job, readers: seq<Reader>, table: ArchTable, out: Reader)
    requires UniverseOk(u) && DiskIn(u, disk) && Covers(readers, job.sigs)
    requires CompactedFrom(disk, job, readers, table, out)
    requires Descending(Inputs(readers)) && forall i :: 0 <= i < |Inputs(readers)| ==> DistinctSigs(Inputs(readers)[i])
    ensures AllWf(Inputs(readers)) && RunWf(out) && H.Merged(SeenAll(Inputs(readers)), Seen(out))
  {
    OutputMeaning(u, disk, job, readers, table, out);
    JobRunsWf(Inputs(readers), job.sigs, table);
    SpanOfSorted(readers, out.lo, out.hi);
    hide UniverseOk, DiskIn, Covers, CompactedFrom, Descending, AllWf, RunWf, Inputs, JobWf, IsSpan, ImageIn,
      StoreImage, Behind, DistinctSigs;
    forall e ensures !Behind(Inputs(readers), e) {
      DistinctNotBehind(Inputs(readers), e);
    }
    SeenMerged(Inputs(readers), out);
  }

  // ── What lookups see of the manifest's runs ────────────────────────────────

  /** The run at `p` is well-formed, has rows in every archetype and no signature twice. */
  ghost predicate RunViewable(disk: Disk, p: Path) {
    ReaderAt(disk, p).Some? && Plain(ReaderAt(disk, p).value)
  }

  ghost predicate Plain(r: Reader) { RunWf(r) && Populated(r) && DistinctSigs(r) }

  ghost function SeenAt(disk: Disk, p: Path): H.Run {
    if RunViewable(disk, p) then Seen(ReaderAt(disk, p).value) else H.Run(0, 0, map[])
  }

  ghost function SeenLevel(disk: Disk, runs: seq<SortedRunMeta>): (r: seq<H.Run>)
    ensures |r| == |runs| && forall i :: 0 <= i < |r| ==> r[i] == SeenAt(disk, runs[i].path)
  {
    seq(|runs|, i requires 0 <= i < |runs| => SeenAt(disk, runs[i].path))
  }

  /** Disk and manifest show the levels of `sys`. */
  ghost predicate Shown(disk: Disk, m: ManifestState, sys: H.Sys) {
    && UniquePaths(m) && |sys.levels| == |m.levels|
    && (forall l :: 0 <= l < |m.levels| ==> sys.levels[l] == SeenLevel(disk, m.levels[l]))
    && (forall p :: p in Tracked(m) ==> RunViewable(disk, p) && Recency.FromFlush(sys.flushed, SeenAt(disk, p).hi))
    && forall p, q :: p in Tracked(m) && q in Tracked(m) && p != q ==> SeenAt(disk, p).hi != SeenAt(disk, q).hi
  }

  predicate SameAt(a: Disk, b: Disk, p: Path) { p in a && p in b && a[p] == b[p] }

  lemma SameFile(a: Disk, b: Disk, p: Path)
    requires SameAt(a, b, p)
    ensures ReaderAt(a, p) == ReaderAt(b, p) && RunViewable(a, p) == RunViewable(b, p) && SeenAt(a, p) == SeenAt(b, p)
  {
    hide Opens, Plain;
    if ReaderAt(a, p).Some? {
      assert Opens(b[p], ReaderAt(a, p).value);
      OpensUnique(a[p], ReaderAt(a, p).value, ReaderAt(b, p).value);
    }
  }

  lemma OpenedReader(disk: Disk, p: Path, r: Reader)
    requires p in disk && Opens(disk[p], r)
    ensures ReaderAt(disk, p) == Some(r)
    ensures Plain(r) ==> RunViewable(disk, p) && SeenAt(disk, p) == Seen(r)
  {
    hide Opens, Plain;
    OpensUnique(disk[p], r, ReaderAt(disk, p).value);
  }

  lemma TrackedIn(m: ManifestState, l: nat, i: nat)
    requires l < |m.levels| && i < |m.levels[l]|
    ensures m.levels[l][i].path in Tracked(m)
  {
    assert m.levels[l][i] in m.levels[l];
    TrackedAt(m, m.levels[l][i].path);
  }

  /** What is shown depends on the tracked files only. */
  lemma OnlyTrackedShow(a: Disk, b: Disk, m: ManifestState, sys: H.Sys)
    requires Shown(a, m, sys) && forall p :: p in Tracked(m) ==> p in a && p in b && a[p] == b[p]
    ensures Shown(b, m, sys)
  {
    hide UniquePaths, RunViewable, SeenAt, Tracked, Recency.FromFlush;
    forall p | p in Tracked(m) ensures RunViewable(a, p) == RunViewable(b, p) && SeenAt(a, p) == SeenAt(b, p) {
      SameFile(a, b, p);
    }
    forall l | 0 <= l < |m.levels| ensures SeenLevel(a, m.levels[l]) == SeenLevel(b, m.levels[l]) {
      forall i | 0 <= i < |m.levels[l]| ensures SeenAt(a, m.levels[l][i].path) == SeenAt(b, m.levels[l][i].path) {
        TrackedIn(m, l, i);
      }
    }
  }

  // ── Signatures ─────────────────────────────────────────────────────────────

  /** A run is seen to have the signatures of its archetypes. */
  lemma SigsSeen(r: Reader, sig: Signature)
    requires RunWf(r) && Populated(r)
    ensures sig in H.SigsOf(Seen(r)) <==> HasSig(r, sig)
  {
    assert OneRow(r);
    hide RunWf, IsRow, SigOf, ArchetypeIds, HasEntity, Seen;
    if HasSig(r, sig) {
      var a :| a in ArchetypeIds(r) && SigOf(r, a) == Some(sig);
      assert HasRow(r, a);
      var row, e :| IsRow(r, a, row, e);
      var img := RowHasImage(r, a, row, e);
      RowGivesImage(r, a, row, e, img);
      SeenImages(r, e, img);
    }
    if sig in H.SigsOf(Seen(r)) {
      var e :| e in Seen(r).view && Seen(r).view[e].sig == sig;
      SeenImages(r, e, Seen(r).view[e]);
      var a, row :| IsRow(r, a, row, e) && RowImage(r, a, row, Seen(r).view[e]);
      RowInArchetype(r, a, row, e);
    }
  }

  lemma SigAtSeen(disk: Disk, run: RunMeta, sig: Signature)
    requires RunViewable(disk, run.path)
    ensures sig in H.SigsOf(SeenAt(disk, run.path)) <==> RunHas(disk, run, sig)
  {
    hide RunWf, Populated, DistinctSigs, HasSig, Seen, ReaderAt;
    SigsSeen(ReaderAt(disk, run.path).value, sig);
  }

  // ── Flush ──────────────────────────────────────────────────────────────────

  /** A run newer than all that were flushed before. */
  predicate InSequence(flushed: seq<H.Run>, r: H.Run) {
    r.lo <= r.hi && forall q :: q in flushed ==> H.Newer(r, q)
  }

  function AfterFlush(sys: H.Sys, r: H.Run): H.Sys {
    sys.(levels := if |sys.levels| == 0 then [] else sys.levels[0 := sys.levels[0] + [r]], flushed := sys.flushed + [r])
  }

  lemma FlushedFrom(flushed: seq<H.Run>, r: H.Run, hi: nat)
    requires InSequence(flushed, r) && Recency.FromFlush(flushed, hi)
    ensures Recency.FromFlush(flushed + [r], hi) && hi < r.hi
  {
    Recency.StillFlushed(flushed, r, hi);
  }

  /** Recording a flushed run, in sequence and under a fresh path, is a flush step. */
  lemma FlushSimulated(a: Disk, m: ManifestState, b: Disk, m': ManifestState, meta: SortedRunMeta, hi: u64, sys: H.Sys,
                       x: H.Run)
    requires Shown(a, m, sys) && Apply(m, AddRunAndSequence(FLUSH_LEVEL, meta, hi)) == Some(m') && meta.path !in Tracked(m)
    requires meta.path in b && b == a[meta.path := b[meta.path]]
    requires RunViewable(b, meta.path) && SeenAt(b, meta.path) == x && InSequence(sys.flushed, x)
    ensures H.FlushStep(sys, AfterFlush(sys, x), x) && Shown(b, m', AfterFlush(sys, x))
  {
    hide UniquePaths, RunViewable, SeenAt, Tracked, Recency.FromFlush, H.Newer;
    var sys' := AfterFlush(sys, x);
    AddTracks(m, 0, meta);
    SameTracked(AddedRun(m, 0, meta).value, hi);
    forall p | p in Tracked(m)
      ensures RunViewable(b, p) && SeenAt(b, p) == SeenAt(a, p)
      ensures Recency.FromFlush(sys'.flushed, SeenAt(b, p).hi) && SeenAt(b, p).hi < x.hi
    {
      ViewableFile(a, p);
      SameFile(a, b, p);
      FlushedFrom(sys.flushed, x, SeenAt(a, p).hi);
    }
    Recency.StillFlushed(sys.flushed, x, x.hi);
    forall l | 0 <= l < |m.levels| ensures sys'.levels[l] == SeenLevel(b, m'.levels[l]) {
      forall i | 0 <= i < |m.levels[l]| ensures SeenAt(b, m.levels[l][i].path) == SeenAt(a, m.levels[l][i].path) {
        TrackedIn(m, l, i);
      }
    }
  }

  lemma ViewableFile(disk: Disk, p: Path)
    requires RunViewable(disk, p)
    ensures p in disk
  {
    hide Opens, Plain;
  }

  /** A flush that writes different columns in different archetypes can be seen. */
  lemma FlushIsPlain(w: F.World, r: Reader)
    requires F.WorldOk(w) && F.IsFlush(w, r) && F.Apart(w)
    ensures Plain(r)
  {
    hide F.WorldOk, F.IsFlush, F.Apart, RunWf, Populated, DistinctSigs;
    F.FlushIsWellFormed(w, r);
    F.FlushDistinctIff(w, r);
  }

  // ── Compaction ─────────────────────────────────────────────────────────────

  function AfterCompaction(sys: H.Sys, l: nat, sig: Signature, x: H.Run): H.Sys {
    if l + 1 >= |sys.levels| then sys
    else
      sys.(levels := sys.levels[l := H.Without(sys.levels[l], sig)][l + 1 := sys.levels[l + 1] + [x]],
           rewritten := sys.rewritten + |x.view|)
  }

  ghost predicate AllViewable(disk: Disk, runs: seq<SortedRunMeta>) {
    forall i :: 0 <= i < |runs| ==> RunViewable(disk, runs[i].path)
  }

  lemma SeenPush(disk: Disk, r: SortedRunMeta, rest: seq<SortedRunMeta>)
    ensures SeenLevel(disk, [r] + rest) == [SeenAt(disk, r.path)] + SeenLevel(disk, rest)
  {
    hide SeenAt;
  }

  /** Removing the runs that have a signature leaves those without it. */
  lemma {:induction false} WithoutSeen(disk: Disk, runs: seq<SortedRunMeta>, gone: set<Path>, sig: Signature)
    requires DistinctPaths(runs) && AllViewable(disk, runs)
    requires forall i :: 0 <= i < |runs| ==> (runs[i].path in gone <==> RunHas(disk, runs[i], sig))
    ensures SeenLevel(disk, Survivors(runs, gone)) == H.Without(SeenLevel(disk, runs), sig)
  {
    hide RunViewable, RunHas, SeenAt, H.SigsOf;
    if |runs| != 0 {
      var r, rest := runs[0], runs[1..];
      assert runs == [r] + rest;
      SeenPush(disk, r, rest);
      SigAtSeen(disk, r, sig);
      assert (SeenLevel(disk, runs))[1..] == SeenLevel(disk, rest);
      if r.path in gone {
        WithoutSeen(disk, rest, gone - {r.path}, sig);
      } else {
        WithoutSeen(disk, rest, gone, sig);
        SeenPush(disk, r, Survivors(rest, gone));
      }
    }
  }

  /** The signature is in as many seen runs as runs of the level. */
  lemma EnoughSeen(disk: Disk, runs: seq<SortedRunMeta>, sig: Signature)
    requires AllViewable(disk, runs)
    ensures |H.Having(SeenLevel(disk, runs), sig)| == ArchCount(disk, runs, sig)
  {
    hide RunViewable, RunHas, SeenAt, H.SigsOf, ArchCount, H.Having;
    forall i | 0 <= i < |runs|
      ensures RunDistinct(disk, runs[i].path)
      ensures sig in H.SigsOf(SeenAt(disk, runs[i].path)) <==> RunHas(disk, runs[i], sig)
    {
      SigAtSeen(disk, runs[i], sig);
      ViewableDistinct(disk, runs[i].path);
    }
    CountIsRuns(disk, runs, sig);
    H.HavingSize(SeenLevel(disk, runs), sig);
    assert H.PositionsOf(SeenLevel(disk, runs), sig) == RunsHaving(disk, runs, sig);
  }

  lemma ViewableDistinct(disk: Disk, p: Path)
    requires RunViewable(disk, p)
    ensures RunDistinct(disk, p) && ReaderAt(disk, p).Some? && RunWf(ReaderAt(disk, p).value)
    ensures DistinctSigs(ReaderAt(disk, p).value) && SeenAt(disk, p) == Seen(ReaderAt(disk, p).value)
  {
    hide ReaderAt, RunWf, Populated, DistinctSigs;
  }

  lemma InputsAre(readers: seq<Reader>)
    ensures forall r :: r in Inputs(readers) <==> r in readers
  {
    hide NewestFirst;
    NewestFirstIs(readers);
    var pairs, inputs := NewestFirst(readers), Inputs(readers);
    forall r | r in readers ensures r in inputs {
      var i :| 0 <= i < |readers| && readers[i] == r;
      assert (i, readers[i]) in pairs;
      var k :| 0 <= k < |pairs| && pairs[k] == (i, readers[i]);
      assert inputs[k] == r;
    }
  }

  predicate HisDiffer(readers: seq<Reader>) {
    forall i, j :: 0 <= i < j < |readers| ==> readers[i].hi != readers[j].hi
  }

  /** Where hi differs the order of the inputs is strict. */
  lemma InputsDescend(readers: seq<Reader>)
    requires HisDiffer(readers)
    ensures Descending(Inputs(readers))
  {
    NewestFirstIs(readers);
    SortNoDup(NewerFirst, Enumerate(readers));
    hide Sort;
    var pairs, inputs := NewestFirst(readers), Inputs(readers);
    forall k, l | 0 <= k < l < |inputs| ensures inputs[l].hi < inputs[k].hi {
      assert pairs[k] != pairs[l] && pairs[k].0 != pairs[l].0;
      assert readers[pairs[k].0].hi != readers[pairs[l].0].hi;
    }
  }

  ghost predicate AllPlain(readers: seq<Reader>) { forall i :: 0 <= i < |readers| ==> Plain(readers[i]) }

  lemma PlainInputs(readers: seq<Reader>)
    requires AllPlain(readers)
    ensures AllWf(Inputs(readers)) && forall i :: 0 <= i < |Inputs(readers)| ==> DistinctSigs(Inputs(readers)[i])
  {
    InputsAre(readers);
    hide Inputs, RunWf, Populated, DistinctSigs;
    forall i | 0 <= i < |Inputs(readers)| ensures Plain(Inputs(readers)[i]) {
      assert Inputs(readers)[i] in readers;
    }
  }

  /** The runs of a level opened as the inputs of its job. */
  lemma JobReaders(disk: Disk, runs: seq<SortedRunMeta>, l: nat, sig: Signature, job: Job, readers: seq<Reader>, i: nat)
    returns (k: nat)
    requires AllViewable(disk, runs) && JobFor(disk, runs, l, sig, job) && OpenedAs(disk, job.paths, readers)
    requires i < |readers|
    ensures i < |job.paths| && k < |runs| && runs[k].path == job.paths[i] && RunHas(disk, runs[k], sig)
    ensures Plain(readers[i]) && RunWf(readers[i]) && SeenAt(disk, runs[k].path) == Seen(readers[i])
  {
    hide ReaderAt, Plain, HasSig, ArchCount, SigLe, HavingSig;
    assert job.paths[i] in job.paths;
    k :| 0 <= k < |runs| && RunHas(disk, runs[k], sig) && runs[k].path == job.paths[i];
    assert RunViewable(disk, runs[k].path);
    ViewableDistinct(disk, runs[k].path);
  }

  /** The inputs of a job are seen as the runs of the level that have the signature. */
  lemma InputsSeen(disk: Disk, runs: seq<SortedRunMeta>, l: nat, sig: Signature, job: Job, readers: seq<Reader>)
    requires AllViewable(disk, runs) && JobFor(disk, runs, l, sig, job) && OpenedAs(disk, job.paths, readers)
    requires AllWf(Inputs(readers))
    ensures SeenAll(Inputs(readers)) == H.SetOf(H.Having(SeenLevel(disk, runs), sig))
  {
    InputsAre(readers);
    Recency.HavingAre(SeenLevel(disk, runs), sig);
    hide JobFor, AllViewable, Inputs, RunWf, Seen, SeenAt, RunViewable, RunHas, H.SigsOf, H.Having, Plain, OpenedAs;
    forall x ensures x in SeenAll(Inputs(readers)) <==> x in H.Having(SeenLevel(disk, runs), sig) {
      if x in SeenAll(Inputs(readers)) {
        var j :| 0 <= j < |Inputs(readers)| && Seen(Inputs(readers)[j]) == x;
        assert Inputs(readers)[j] in readers;
        var i :| 0 <= i < |readers| && readers[i] == Inputs(readers)[j];
        var k := JobReaders(disk, runs, l, sig, job, readers, i);
        SeenHas(disk, runs, k, sig);
      }
      if x in H.Having(SeenLevel(disk, runs), sig) {
        var k :| 0 <= k < |runs| && SeenLevel(disk, runs)[k] == x;
        SeenHas(disk, runs, k, sig);
        var i := JobReaderOf(disk, runs, l, sig, job, readers, k);
        assert readers[i] in Inputs(readers);
        var j :| 0 <= j < |Inputs(readers)| && Inputs(readers)[j] == readers[i];
      }
    }
  }

  lemma SeenHas(disk: Disk, runs: seq<SortedRunMeta>, k: nat, sig: Signature)
    requires AllViewable(disk, runs) && k < |runs|
    ensures sig in H.SigsOf(SeenLevel(disk, runs)[k]) <==> RunHas(disk, runs[k], sig)
  {
    hide RunViewable, RunHas, H.SigsOf, SeenAt;
    SigAtSeen(disk, runs[k], sig);
  }

  lemma JobReaderOf(disk: Disk, runs: seq<SortedRunMeta>, l: nat, sig: Signature, job: Job, readers: seq<Reader>, k: nat)
    returns (i: nat)
    requires AllViewable(disk, runs) && JobFor(disk, runs, l, sig, job) && OpenedAs(disk, job.paths, readers)
    requires k < |runs| && RunHas(disk, runs[k], sig)
    ensures i < |readers| && RunWf(readers[i]) && SeenAt(disk, runs[k].path) == Seen(readers[i])
  {
    hide ReaderAt, Plain, HasSig, ArchCount, SigLe, HavingSig;
    assert HavingPath(disk, runs, sig, runs[k].path);
    i := PathOpened(disk, job.paths, readers, runs[k].path);
    ViewableDistinct(disk, runs[k].path);
  }

  ghost predicate HisApart(disk: Disk, runs: seq<SortedRunMeta>) {
    forall i, j :: 0 <= i < |runs| && 0 <= j < |runs| && runs[i].path != runs[j].path ==>
      SeenAt(disk, runs[i].path).hi != SeenAt(disk, runs[j].path).hi
  }

  lemma ReadersApart(disk: Disk, runs: seq<SortedRunMeta>, l: nat, sig: Signature, job: Job, readers: seq<Reader>)
    requires AllViewable(disk, runs) && HisApart(disk, runs)
    requires JobFor(disk, runs, l, sig, job) && OpenedAs(disk, job.paths, readers)
    ensures AllPlain(readers) && HisDiffer(readers)
  {
    hide JobFor, AllViewable, RunWf, Plain, SeenAt, RunHas, OpenedAs, Seen;
    JobForParts(disk, runs, l, sig, job);
    OpenedLength(disk, job.paths, readers);
    forall i | 0 <= i < |readers| ensures Plain(readers[i]) {
      var k := JobReaders(disk, runs, l, sig, job, readers, i);
    }
    forall i, j | 0 <= i < j < |readers| ensures readers[i].hi != readers[j].hi {
      var k := JobReaders(disk, runs, l, sig, job, readers, i);
      var n := JobReaders(disk, runs, l, sig, job, readers, j);
      SeenHi(readers[i]);
      SeenHi(readers[j]);
    }
  }

  lemma SeenHi(r: Reader)
    requires RunWf(r)
    ensures Seen(r).hi == r.hi && Seen(r).lo == r.lo
  {
    hide RunWf, HasEntity;
  }

  /** The output of a picked job is seen as the merge of the runs that have the signature,
      and has the hi of one of them. */
  lemma JobMerges(u: Universe, disk: Disk, runs: seq<SortedRunMeta>, l: nat, sig: Signature, job: Job, dir: Path,
                  o: Output, out: Reader) returns (k: nat)
    requires UniverseOk(u) && DiskIn(u, disk) && AllViewable(disk, runs) && HisApart(disk, runs)
    requires JobFor(disk, runs, l, sig, job) && OutputIs(disk, job, dir, o, out)
    ensures Plain(out) && RunWf(out) && Opens(o.file, out) && o.meta.path == o.path
    ensures H.Merged(H.SetOf(H.Having(SeenLevel(disk, runs), sig)), Seen(out))
    ensures k < |runs| && RunHas(disk, runs[k], sig) && SeenAt(disk, runs[k].path).hi == Seen(out).hi
  {
    hide UniverseOk, DiskIn, JobFor, AllViewable, HisApart, CompactedFrom, Opens, Covers, RunWf, Populated,
      DistinctSigs, Complete, SeenAt, OpenedAs, IsCompaction, IsTable, H.Having, H.Merged, RunHas, Describes, Inputs,
      IsSpan, ImageIn, StoreImage, Behind, JobWf;
    var readers, table :| CompactedFrom(disk, job, readers, table, out);
    CompactedParts(disk, job, readers, table, out);
    JobCovers(disk, runs, l, sig, job, readers);
    ReadersApart(disk, runs, l, sig, job, readers);
    PlainInputs(readers);
    InputsDescend(readers);
    OutputMeaning(u, disk, job, readers, table, out);
    ExecutionIsMerge(u, disk, job, readers, table, out);
    InputsSeen(disk, runs, l, sig, job, readers);
    OutputNamed(disk, job, dir, o, out);
    k := TopInput(disk, runs, l, sig, job, readers, table, out);
  }

  lemma TopInput(disk: Disk, runs: seq<SortedRunMeta>, l: nat, sig: Signature, job: Job, readers: seq<Reader>,
                 table: ArchTable, out: Reader) returns (k: nat)
    requires AllViewable(disk, runs) && JobFor(disk, runs, l, sig, job) && CompactedFrom(disk, job, readers, table, out)
    requires RunWf(out)
    ensures k < |runs| && RunHas(disk, runs[k], sig) && SeenAt(disk, runs[k].path).hi == Seen(out).hi
  {
    hide JobFor, AllViewable, OpenedAs, IsCompaction, IsTable, RunWf, Plain, SeenAt, RunHas, HasEntity;
    var i :| 0 <= i < |readers| && readers[i].hi == out.hi;
    k := JobReaders(disk, runs, l, sig, job, readers, i);
    SeenHi(readers[i]);
    SeenHi(out);
  }

  // ── Levels and files after a compaction ────────────────────────────────────

  lemma CommittedLevels(m: ManifestState, job: Job, meta: SortedRunMeta, l: nat)
    requires l < |m.levels| <= MAX_LEVELS
    ensures
      var after := Committed(m, job.to, meta, CommitInputs(job)).levels[l];
      var gone := set p | p in job.paths;
      if l == job.from && job.to != job.from then after == Survivors(m.levels[l], gone)
      else job.to != job.from ==> after == m.levels[l] + if l == job.to then [meta] else []
  {
    hide PathsOf, Survivors;
    JobGone(job, l);
    var before := m.levels[l] + (if l == job.to then [meta] else []);
    assert l != job.to ==> before == m.levels[l];
    if l != job.from {
      SurvivorsNone(before, {});
    }
  }

  lemma RetiredTracked(m: ManifestState, job: Job, o: Output)
    requires Committable(m, job.to, CommitInputs(job))
    ensures Retired(CommitOf(job, o)) == (set p | p in job.paths) && Retired(CommitOf(job, o)) <= Tracked(m)
  {
    RetiredPaths(job, o);
    forall p | p in job.paths ensures p in Tracked(m) {
      var i :| 0 <= i < |job.paths| && job.paths[i] == p;
      assert m.Has(CommitInputs(job)[i].0, CommitInputs(job)[i].1);
      TrackedAt(m, p);
    }
  }

  /** What a compaction leaves of files and manifest: the manifest of the commit, the
      output in place, other files that are still tracked as they were. */
  ghost predicate Replaces(a: Disk, m: ManifestState, b: Disk, m': ManifestState, job: Job, o: Output) {
    && Committable(m, job.to, CommitInputs(job)) && m' == Committed(m, job.to, o.meta, CommitInputs(job))
    && b == a[o.path := o.file] - Retired(CommitOf(job, o))
    && o.meta.path == o.path && o.path !in Tracked(m)
  }

  /** The files tracked after a compaction. */
  lemma TrackedAfter(a: Disk, m: ManifestState, b: Disk, m': ManifestState, job: Job, o: Output)
    requires Replaces(a, m, b, m', job, o) && UniquePaths(m) && |m.levels| <= MAX_LEVELS
    requires forall p :: p in Tracked(m) ==> p in a
    ensures UniquePaths(m') && o.path in b && b[o.path] == o.file
    ensures Tracked(m') == Tracked(m) + {o.path} - (set p | p in job.paths)
    ensures forall p :: p in Tracked(m') && p != o.path ==> p in Tracked(m) && p in b && b[p] == a[p]
  {
    CommitTracks(m, job.to, o.meta, CommitInputs(job));
    RetiredTracked(m, job, o);
    assert Retired(CommitOf(job, o)) == (set p | p in OldPaths(CommitOf(job, o)));
    hide Committed, Committable, UniquePaths, Tracked, OldPaths;
  }

  /** The output is seen as `x`, every other run still tracked as before. */
  ghost predicate SeenAgain(a: Disk, m: ManifestState, b: Disk, m': ManifestState, path: Path, x: H.Run) {
    && RunViewable(b, path) && SeenAt(b, path) == x
    && forall p :: p in Tracked(m') && p != path ==> p in Tracked(m) && RunViewable(b, p) && SeenAt(b, p) == SeenAt(a, p)
  }

  lemma SeenAfter(a: Disk, m: ManifestState, b: Disk, m': ManifestState, job: Job, o: Output, out: Reader)
    requires Replaces(a, m, b, m', job, o) && UniquePaths(m) && |m.levels| <= MAX_LEVELS
    requires (forall p :: p in Tracked(m) ==> RunViewable(a, p)) && Opens(o.file, out) && Plain(out) && RunWf(out)
    ensures SeenAgain(a, m, b, m', o.path, Seen(out)) && UniquePaths(m')
    ensures forall p :: p in Tracked(m') ==> p !in job.paths || p == o.path
  {
    hide UniquePaths, RunViewable, SeenAt, Tracked, Replaces, Plain, RunWf, Seen, Opens;
    forall p | p in Tracked(m) ensures p in a {
      ViewableFile(a, p);
    }
    TrackedAfter(a, m, b, m', job, o);
    OpenedReader(b, o.path, out);
    forall p | p in Tracked(m') && p != o.path ensures SeenAt(b, p) == SeenAt(a, p) && RunViewable(b, p) {
      SameFile(a, b, p);
    }
  }

  /** The hi of the output was that of an input, which is gone: every hi is still unique,
      and that of a flush. */
  lemma StillApart(a: Disk, m: ManifestState, b: Disk, m': ManifestState, path: Path, x: H.Run, sys: H.Sys, source: Path)
    requires Shown(a, m, sys) && SeenAgain(a, m, b, m', path, x)
    requires source in Tracked(m) && SeenAt(a, source).hi == x.hi && (source !in Tracked(m') || source == path) && path !in Tracked(m)
    ensures forall p :: p in Tracked(m') ==> RunViewable(b, p) && Recency.FromFlush(sys.flushed, SeenAt(b, p).hi)
    ensures forall p, q :: p in Tracked(m') && q in Tracked(m') && p != q ==> SeenAt(b, p).hi != SeenAt(b, q).hi
  {
    hide UniquePaths, RunViewable, SeenAt, Tracked, Recency.FromFlush;
    forall p | p in Tracked(m') && p != path ensures SeenAt(b, p).hi != x.hi && Recency.FromFlush(sys.flushed, SeenAt(b, p).hi) {
      assert p != source;
    }
  }

  lemma ShownParts(disk: Disk, m: ManifestState, sys: H.Sys)
    requires Shown(disk, m, sys)
    ensures UniquePaths(m) && |sys.levels| == |m.levels| && forall p :: p in Tracked(m) ==> RunViewable(disk, p)
  {
    hide UniquePaths, RunViewable, SeenAt, Tracked, Recency.FromFlush, SeenLevel;
  }

  lemma LevelParts(disk: Disk, m: ManifestState, sys: H.Sys, l: nat)
    requires Shown(disk, m, sys) && l < |m.levels|
    ensures AllViewable(disk, LevelOf(m.levels, l)) && HisApart(disk, LevelOf(m.levels, l)) && DistinctPaths(LevelOf(m.levels, l))
    ensures LevelOf(sys.levels, l) == SeenLevel(disk, LevelOf(m.levels, l))
  {
    hide RunViewable, SeenAt, Tracked, Recency.FromFlush;
    forall i | 0 <= i < |m.levels[l]| ensures m.levels[l][i].path in Tracked(m) {
      TrackedIn(m, l, i);
    }
  }

  /** A level is seen alike on both disks where its runs are. */
  lemma SameLevel(a: Disk, b: Disk, runs: seq<SortedRunMeta>)
    requires forall i :: 0 <= i < |runs| ==> SeenAt(a, runs[i].path) == SeenAt(b, runs[i].path)
    ensures SeenLevel(a, runs) == SeenLevel(b, runs)
  {
    hide SeenAt;
  }

  /** The runs of a level that stay are seen as before. */
  lemma StaysSeen(a: Disk, m: ManifestState, b: Disk, m': ManifestState, o: Output, x: H.Run, l: nat,
                  runs: seq<SortedRunMeta>)
    requires l < |m'.levels| && runs <= m'.levels[l] && SeenAgain(a, m, b, m', o.path, x)
    requires forall i :: 0 <= i < |runs| ==> runs[i].path != o.path
    ensures SeenLevel(b, runs) == SeenLevel(a, runs)
  {
    hide SeenAt, Tracked, RunViewable;
    forall i | 0 <= i < |runs| ensures SeenAt(a, runs[i].path) == SeenAt(b, runs[i].path) {
      assert runs[i] == m'.levels[l][i];
      TrackedIn(m', l, i);
    }
    SameLevel(a, b, runs);
  }

  lemma NotOutput(m: ManifestState, l: nat, path: Path, gone: set<Path>)
    requires l < |m.levels| && path !in Tracked(m) && DistinctPaths(m.levels[l])
    ensures forall i :: 0 <= i < |m.levels[l]| ==> m.levels[l][i].path != path
    ensures forall i :: 0 <= i < |Survivors(m.levels[l], gone)| ==> Survivors(m.levels[l], gone)[i].path != path
  {
    TrackedAt(m, path);
    SurvivorPaths(m.levels[l], gone);
    var left := Survivors(m.levels[l], gone);
    forall i | 0 <= i < |m.levels[l]| ensures m.levels[l][i].path != path {
      assert m.levels[l][i] in m.levels[l];
    }
    forall i | 0 <= i < |left| ensures left[i].path != path {
      assert left[i] in left && left[i].path in PathsOf(left);
    }
  }

  lemma SeenWith(disk: Disk, runs: seq<SortedRunMeta>, meta: SortedRunMeta)
    ensures SeenLevel(disk, runs + [meta]) == SeenLevel(disk, runs) + [SeenAt(disk, meta.path)]
  {
    hide SeenAt;
  }

  lemma LeftSeen(a: Disk, m: ManifestState, b: Disk, m': ManifestState, l: nat, sig: Signature, job: Job, o: Output,
                 x: H.Run)
    requires l < |m.levels| && JobFor(a, LevelOf(m.levels, l), l, sig, job) && SeenAgain(a, m, b, m', o.path, x) && o.path !in Tracked(m)
    requires AllViewable(a, LevelOf(m.levels, l)) && DistinctPaths(LevelOf(m.levels, l)) && l < |m'.levels|
    requires LevelOf(m'.levels, l) == Survivors(LevelOf(m.levels, l), set p | p in job.paths)
    ensures SeenLevel(b, LevelOf(m'.levels, l)) == H.Without(SeenLevel(a, LevelOf(m.levels, l)), sig)
  {
    var gone := set p | p in job.paths;
    NotOutput(m, l, o.path, gone);
    GoneHave(a, m.levels[l], l, sig, job);
    hide SeenAt, Tracked, RunViewable, Survivors, H.Without, AllViewable, JobFor, SeenAgain, RunHas, DistinctPaths;
    StaysSeen(a, m, b, m', o, x, l, m'.levels[l]);
    WithoutSeen(a, m.levels[l], gone, sig);
  }

  lemma ArrivedSeen(a: Disk, m: ManifestState, b: Disk, m': ManifestState, k: nat, o: Output, x: H.Run)
    requires k < |m.levels| == |m'.levels| && SeenAgain(a, m, b, m', o.path, x) && o.path !in Tracked(m)
    requires DistinctPaths(LevelOf(m.levels, k)) && LevelOf(m.levels, k) <= LevelOf(m'.levels, k)
    ensures SeenLevel(b, LevelOf(m.levels, k)) == SeenLevel(a, LevelOf(m.levels, k))
  {
    NotOutput(m, k, o.path, {});
    hide SeenAt, Tracked, RunViewable, SeenAgain, DistinctPaths;
    StaysSeen(a, m, b, m', o, x, k, m.levels[k]);
  }

  lemma ReplacedLevel(a: Disk, m: ManifestState, b: Disk, m': ManifestState, job: Job, o: Output, k: nat)
    requires Replaces(a, m, b, m', job, o) && k < |m.levels| <= MAX_LEVELS && job.to != job.from
    ensures |m'.levels| == |m.levels| && o.path !in Tracked(m) && o.meta.path == o.path
    ensures m'.levels[k] == if k == job.from then Survivors(m.levels[k], set p | p in job.paths)
      else m.levels[k] + if k == job.to then [o.meta] else []
  {
    CommittedLevels(m, job, o.meta, k);
    hide Survivors, Committable, Tracked, Retired;
  }

  ghost predicate LevelShown(disk: Disk, m: ManifestState, sys: H.Sys, k: nat) {
    k < |m.levels| == |sys.levels| && sys.levels[k] == SeenLevel(disk, m.levels[k])
  }

  /** The levels after a compaction are seen as the history says. */
  lemma LevelsAfter(a: Disk, m: ManifestState, b: Disk, m': ManifestState, l: nat, sig: Signature, job: Job, o: Output,
                    x: H.Run, sys: H.Sys, k: nat)
    requires l + 1 < |m.levels| <= MAX_LEVELS && k < |m.levels| && JobFor(a, LevelOf(m.levels, l), l, sig, job)
    requires Shown(a, m, sys) && Replaces(a, m, b, m', job, o) && SeenAgain(a, m, b, m', o.path, x)
    ensures LevelShown(b, m', AfterCompaction(sys, l, sig, x), k)
  {
    hide UniverseOk, DiskIn, OutputIs, Executed, Replaces, Plain, RunWf, SeenAt, RunViewable, Tracked, Seen, RunHas,
      H.Having, H.Without, H.Merged, ArchCount, AllViewable, HisApart, Opens, Shown, JobFor, SeenLevel, SeenAgain,
      UniquePaths, DistinctPaths, Survivors, Recency.FromFlush;
    ShownParts(a, m, sys);
    LevelParts(a, m, sys, k);
    JobForParts(a, m.levels[l], l, sig, job);
    ReplacedLevel(a, m, b, m', job, o, k);
    OutputSeen(a, m, b, m', o.path, x);
    if k == l {
      LeftSeen(a, m, b, m', l, sig, job, o, x);
    } else {
      ArrivedSeen(a, m, b, m', k, o, x);
      SeenWith(b, m.levels[k], o.meta);
      assert m.levels[k] + [] == m.levels[k];
    }
  }

  lemma OutputSeen(a: Disk, m: ManifestState, b: Disk, m': ManifestState, path: Path, x: H.Run)
    requires SeenAgain(a, m, b, m', path, x)
    ensures SeenAt(b, path) == x
  {
    hide SeenAt, RunViewable, Tracked;
  }

  lemma GoneHave(disk: Disk, runs: seq<SortedRunMeta>, l: nat, sig: Signature, job: Job)
    requires JobFor(disk, runs, l, sig, job) && DistinctPaths(runs)
    ensures forall i :: 0 <= i < |runs| ==> (runs[i].path in job.paths <==> RunHas(disk, runs[i], sig))
  {
    hide RunHas, ArchCount, HavingSig, SigLe;
    forall i | 0 <= i < |runs| ensures runs[i].path in job.paths <==> RunHas(disk, runs[i], sig) {
      assert runs[i].path in job.paths <==> HavingPath(disk, runs, sig, runs[i].path);
    }
  }

  /** Files and manifest after a compaction show the levels the history says. */
  lemma ShownAfter(a: Disk, m: ManifestState, b: Disk, m': ManifestState, l: nat, sig: Signature, job: Job, o: Output,
                   out: Reader, sys: H.Sys, k: nat)
    requires Shown(a, m, sys) && Replaces(a, m, b, m', job, o) && l + 1 < |m.levels| <= MAX_LEVELS
    requires JobFor(a, m.levels[l], l, sig, job) && Opens(o.file, out) && Plain(out) && RunWf(out)
    requires k < |m.levels[l]| && RunHas(a, m.levels[l][k], sig) && SeenAt(a, m.levels[l][k].path).hi == Seen(out).hi
    ensures Shown(b, m', AfterCompaction(sys, l, sig, Seen(out)))
  {
    hide UniverseOk, DiskIn, OutputIs, Executed, Replaces, Plain, RunWf, SeenAt, RunViewable, Tracked, Seen, RunHas,
      H.Without, ArchCount, AllViewable, HisApart, Opens, JobFor, SeenLevel, SeenAgain, UniquePaths, DistinctPaths,
      Survivors, Recency.FromFlush;
    var x, source := Seen(out), m.levels[l][k].path;
    LevelParts(a, m, sys, l);
    TrackedIn(m, l, k);
    GoneHave(a, m.levels[l], l, sig, job);
    ReplacesFresh(a, m, b, m', job, o);
    SeenAfter(a, m, b, m', job, o, out);
    StillApart(a, m, b, m', o.path, x, sys, source);
    var sys' := AfterCompaction(sys, l, sig, x);
    LevelsAfter(a, m, b, m', l, sig, job, o, x, sys, l);
    assert LevelShown(b, m', sys', l);
    forall j | 0 <= j < |m.levels| ensures sys'.levels[j] == SeenLevel(b, m'.levels[j]) {
      LevelsAfter(a, m, b, m', l, sig, job, o, x, sys, j);
      assert LevelShown(b, m', sys', j);
    }
  }

  lemma ReplacesFresh(a: Disk, m: ManifestState, b: Disk, m': ManifestState, job: Job, o: Output)
    requires Replaces(a, m, b, m', job, o)
    ensures o.path !in Tracked(m) && o.meta.path == o.path && |m'.levels| == |m.levels|
  {
    hide Survivors, Committable, Tracked, Retired;
  }

  /** A compaction that is carried out, under a fresh output path, is a compaction step. */
  lemma CompactionSimulated(u: Universe, a: Disk, m: ManifestState, b: Disk, m': ManifestState, l: nat, sig: Signature,
                            job: Job, dir: Path, o: Output, out: Reader, sys: H.Sys)
    requires UniverseOk(u) && DiskIn(u, a) && Shown(a, m, sys)
    requires l + 1 < |m.levels| <= MAX_LEVELS && JobFor(a, LevelOf(m.levels, l), l, sig, job)
    requires OutputIs(a, job, dir, o, out) && Replaces(a, m, b, m', job, o)
    ensures RunWf(out) && Plain(out) && H.CompactStep(sys, AfterCompaction(sys, l, sig, Seen(out)), l, sig, Seen(out))
    ensures Shown(b, m', AfterCompaction(sys, l, sig, Seen(out)))
  {
    hide UniverseOk, DiskIn, OutputIs, Replaces, Plain, RunWf, SeenAt, RunViewable, Tracked, Seen, RunHas,
      H.Having, H.Without, H.Merged, ArchCount, AllViewable, HisApart, Opens, Shown, JobFor, SeenLevel, SeenAgain,
      UniquePaths, DistinctPaths, Survivors, Recency.FromFlush;
    ShownParts(a, m, sys);
    LevelParts(a, m, sys, l);
    var k := JobMerges(u, a, m.levels[l], l, sig, job, dir, o, out);
    EnoughSeen(a, m.levels[l], sig);
    JobEnough(a, m.levels[l], l, sig, job);
    ShownAfter(a, m, b, m', l, sig, job, o, out, sys, k);
  }

  lemma JobEnough(disk: Disk, runs: seq<SortedRunMeta>, l: nat, sig: Signature, job: Job)
    requires JobFor(disk, runs, l, sig, job)
    ensures ArchCount(disk, runs, sig) >= COMPACTION_TRIGGER
  {
    hide HavingPath, HavingSig, SigLe, ArchCount;
  }
}
