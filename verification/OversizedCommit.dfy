/** `append` accepts an entry that recovery will discard: a concrete log and commit. */
module OversizedCommit {
  import opened Bytes
  import opened Manifest
  import opened EntryCodec
  import opened ManifestLog
  import opened LogRecovery

  const RUNS: nat := 17

  /** Distinct ASCII paths of the greatest length `encode_path` takes. */
  function BigPath(j: nat): (p: Path)
    ensures |p| == 0xFFFF && (j < 0xFFFF ==> p[j] == 1)
    ensures forall i :: 0 <= i < |p| && i != j ==> p[i] == 0
  {
    seq(0xFFFF, i => if i == j then 1 else 0)
  }

  function BigMeta(j: nat): SortedRunMeta { RunMeta(BigPath(j), 0, 0, [], 1, 0) }

  function BigAdd(j: nat): ManifestEntry { AddRun(0, BigMeta(j)) }

  function Adds(k: nat): (es: seq<ManifestEntry>)
    ensures |es| == k && forall j :: 0 <= j < k ==> es[j] == BigAdd(j)
  {
    seq(k, j requires 0 <= j < k => BigAdd(j))
  }

  function Metas(k: nat): (r: seq<SortedRunMeta>)
    ensures |r| == k && forall j :: 0 <= j < k ==> r[j] == BigMeta(j)
  {
    seq(k, j requires 0 <= j < k => BigMeta(j))
  }

  function Inputs(k: nat): (r: seq<(Level, Path)>)
    ensures |r| == k && forall j :: 0 <= j < k ==> r[j] == (0, BigPath(j))
  {
    seq(k, j requires 0 <= j < k => (0, BigPath(j)))
  }

  function StateOf(k: nat): ManifestState { ManifestState([Metas(k), [], [], []], 0) }

  function BigCommit(): ManifestEntry { CompactionCommit(1, RunMeta([], 0, 0, [], 1, 0), Inputs(RUNS)) }

  lemma {:induction false} AsciiIsUtf8(s: bytes)
    requires forall i :: 0 <= i < |s| ==> s[i] <= 0x7F
    ensures Utf8(s)
    decreases |s|
  {
    if |s| != 0 { AsciiIsUtf8(s[1..]); }
  }

  lemma BigAddLoggable(j: nat)
    ensures Loggable(BigAdd(j))
  {
    AsciiIsUtf8(BigPath(j));
    EncU16sLength([]);
  }

  lemma {:induction false} AddsApply(k: nat)
    ensures ApplyAll(EmptyState(4), Adds(k)) == Some(StateOf(k))
  {
    hide BigAdd;
    if k == 0 {
      assert EmptyState(4).levels == StateOf(0).levels;
    } else {
      AddsApply(k - 1);
      assert Adds(k) == Adds(k - 1) + [BigAdd(k - 1)];
      ApplyAllAppend(EmptyState(4), Adds(k - 1), [BigAdd(k - 1)]);
      ApplyOne(StateOf(k - 1), BigAdd(k - 1));
      AddOne(k - 1);
    }
  }

  lemma AddOne(k: nat)
    ensures Apply(StateOf(k), BigAdd(k)) == Some(StateOf(k + 1))
  {
    hide BigMeta;
    assert Metas(k + 1) == Metas(k) + [BigMeta(k)];
    assert StateOf(k).levels[0 := Metas(k) + [BigMeta(k)]] == StateOf(k + 1).levels;
  }

  lemma BigCommitEncoding()
    ensures Encodable(BigCommit()) && |EncEntry(BigCommit())| > MAX_FRAME_PAYLOAD
  {
    hide BigPath;
    forall j | 0 <= j < RUNS ensures PathEncodable(Inputs(RUNS)[j].1) && |EncInput(Inputs(RUNS)[j])| == 65538 {
      AsciiIsUtf8(BigPath(j));
    }
    ConcatLength(Parts(EncInput, Inputs(RUNS)), 65538);
  }

  lemma BigCommitApplies()
    ensures Apply(StateOf(RUNS), BigCommit()).Some? && Apply(StateOf(RUNS), BigCommit()).value != StateOf(RUNS)
  {
    var m, inputs := StateOf(RUNS), Inputs(RUNS);
    hide BigMeta, Survivors;
    forall j | 0 <= j < |inputs| ensures m.Has(inputs[j].0, inputs[j].1) {
      assert m.RunsAt(0)[j] == BigMeta(j);
      HasMeta(m, j);
    }
    forall i, j | 0 <= i < j < |inputs| ensures inputs[i] != inputs[j] {
      assert BigPath(i)[i] != BigPath(j)[i];
    }
    assert Committable(m, 1, inputs);
    CommitConserves(m, 1, BigCommit().output, inputs, 0);
    assert inputs[0] in inputs;
    assert BigPath(0) in GoneAt(inputs, 0);
  }

  lemma HasMeta(m: ManifestState, j: nat)
    requires |m.levels| > 0 && BigMeta(j) in m.levels[0]
    ensures m.Has(0, BigPath(j))
  {
  }

  /** Seventeen runs are logged and then compacted. The commit applies in memory and
      `append` encodes and writes it, yet recovery ends before it: the log gives back
      the seventeen runs, whose files the executor has deleted by then. */
  lemma OversizedCommitIsLost()
    ensures
      var (es, commit, m) := (Adds(RUNS), BigCommit(), StateOf(RUNS));
      && GoodRun(EmptyState(4), es) && ApplyAll(EmptyState(4), es) == Some(m)
      && Encodable(commit) && Apply(m, commit).Some? && Apply(m, commit).value != m
      && RecoverFile(LogOf(4, es) + EntryFrame(commit), 4) == Some(Recovered(m, LogOf(4, es), |LogOf(4, es)|))
  {
    hide BigAdd, BigCommit, StateOf, LogOf, EntryFrame, Apply, EncEntry, RecoverFile, Encodable, Clean;
    var (es, commit, m) := (Adds(RUNS), BigCommit(), StateOf(RUNS));
    forall i | 0 <= i < |es| ensures Loggable(es[i]) {
      BigAddLoggable(i);
    }
    AddsApply(RUNS);
    BigCommitEncoding();
    BigCommitApplies();
    LogIsClean(4, es, |es|);
    NoSlice(es);
    AppendToClean(LogOf(4, es), 4, m, commit);
  }
}
