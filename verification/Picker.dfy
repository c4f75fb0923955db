/** The compaction scheduler: the first level, from the top, at which some signature
    occurs in COMPACTION_TRIGGER archetypes of its runs, and the job made of those runs. */
module Picker {
  import opened Bytes
  import opened Order
  import opened Schema
  import opened RunFormat
  import opened RunReader
  import opened RunFile
  import opened Archetypes
  import opened RunMeaning
  import opened Manifest

  const COMPACTION_TRIGGER: nat := 4

  datatype Job = Job(from: Level, to: Level, sigs: seq<Signature>, paths: seq<Path>)

  // ── Runs on disk ───────────────────────────────────────────────────────────

  /** What opening the file at `path` yields. */
  ghost function ReaderAt(disk: Disk, path: Path): (r: Option<Reader>)
    ensures r.Some? ==> path in disk && Opens(disk[path], r.value)
    ensures r.None? ==> path !in disk || forall x :: !Opens(disk[path], x)
  {
    if path in disk && exists x :: Opens(disk[path], x) then
      var x :| Opens(disk[path], x);
      Some(x)
    else None
  }

  method OpenRun(disk: Disk, path: Path) returns (r: Option<Reader>)
    ensures r == ReaderAt(disk, path)
  {
    hide Opens;
    if path !in disk {
      return None;
    }
    r := Open(disk[path]);
    if r.Some? {
      assert Opens(disk[path], r.value);
    }
  }

  // ── Signatures of a run ────────────────────────────────────────────────────

  /** Names of the slots the schema knows, in slot order. */
  function PresentNames(schema: SchemaSection, slots: seq<u16>): seq<Name> {
    if |slots| == 0 then []
    else
      var init, entry := PresentNames(schema, slots[..|slots| - 1]), schema.EntryFor(slots[|slots| - 1]);
      if entry.Some? then init + [entry.value.name] else init
  }

  /** The non-empty signatures of these archetypes, in order. */
  function SigsOfArchs(r: Reader, archs: seq<u16>): seq<Signature> {
    if |archs| == 0 then []
    else
      var init := SigsOfArchs(r, archs[..|archs| - 1]);
      var names := Sort(NameLe, PresentNames(r.schema, ComponentSlots(r, archs[|archs| - 1])));
      if names == [] then init else init + [names]
  }

  function RunSigs(r: Reader): seq<Signature> { SigsOfArchs(r, ArchetypeIds(r)) }

  method CollectRunSigs(r: Reader) returns (sigs: seq<Signature>)
    ensures sigs == RunSigs(r)
  {
    hide Sort, NameLe, ComponentSlots, ArchetypeIds;
    var archs := ArchetypeIds(r);
    sigs := [];
    for i := 0 to |archs|
      invariant sigs == SigsOfArchs(r, archs[..i])
    {
      assert archs[..i + 1][..i] == archs[..i];
      var slots := ComponentSlots(r, archs[i]);
      var names: seq<Name> := [];
      for k := 0 to |slots|
        invariant names == PresentNames(r.schema, slots[..k])
      {
        assert slots[..k + 1][..k] == slots[..k];
        var entry := r.schema.EntryFor(slots[k]);
        if entry.Some? {
          names := names + [entry.value.name];
        }
      }
      assert slots[..|slots|] == slots;
      names := Sort(NameLe, names);
      if names != [] {
        sigs := sigs + [names];
      }
    }
    assert archs[..|archs|] == archs;
  }

  lemma {:induction false} PresentAre(schema: SchemaSection, slots: seq<u16>)
    requires NamesOfSlots(schema, slots).Some?
    ensures PresentNames(schema, slots) == NamesOfSlots(schema, slots).value
  {
    if |slots| != 0 {
      PresentAre(schema, slots[..|slots| - 1]);
    }
  }

  lemma {:induction false} SortAscending(names: seq<Name>)
    requires Ascending(names)
    ensures Sort(NameLe, names) == names
  {
    SortedNamesAscend(names) by { NameOrder(); }
    SameElements(Sort(NameLe, names), names);
    AscendingUnique(Sort(NameLe, names), names);
  }

  lemma {:induction false} SigsOfArchsAre(r: Reader, archs: seq<u16>)
    requires SchemaOk(r.schema) && forall a :: a in archs ==> SigOf(r, a).Some? && SigOf(r, a).value != []
    ensures |SigsOfArchs(r, archs)| == |archs|
    ensures forall i :: 0 <= i < |archs| ==> SigOf(r, archs[i]) == Some(SigsOfArchs(r, archs)[i])
  {
    hide SchemaOk, NamesOfSlots, PresentNames, ComponentSlots, Sort, NameLe;
    if |archs| != 0 {
      var last := archs[|archs| - 1];
      SigsOfArchsAre(r, archs[..|archs| - 1]);
      SigAscends(r, last);
      PresentAre(r.schema, ComponentSlots(r, last));
      SortAscending(SigOf(r, last).value);
    }
  }

  /** The scheduler sees no empty signature. */
  lemma {:induction false} NoEmptySig(r: Reader, archs: seq<u16>)
    ensures [] !in SigsOfArchs(r, archs)
  {
    hide Sort, ComponentSlots, PresentNames;
    if |archs| != 0 {
      NoEmptySig(r, archs[..|archs| - 1]);
    }
  }

  /** The archetypes of the run with the signature. */
  ghost function ArchsWith(r: Reader, sig: Signature): set<u16> {
    set a | a in ArchetypeIds(r) && SigOf(r, a) == Some(sig)
  }

  ghost function Among(r: Reader, archs: seq<u16>, sig: Signature): set<u16> {
    set a | a in archs && SigOf(r, a) == Some(sig)
  }

  lemma AmongPush(r: Reader, init: seq<u16>, last: u16, sig: Signature)
    requires last !in init
    ensures |Among(r, init + [last], sig)| == |Among(r, init, sig)| + if SigOf(r, last) == Some(sig) then 1 else 0
  {
    hide SigOf;
    assert Among(r, init + [last], sig) == Among(r, init, sig) + if SigOf(r, last) == Some(sig) then {last} else {};
  }

  lemma LastSig(r: Reader, archs: seq<u16>)
    requires |archs| > 0 && SchemaOk(r.schema) && forall a :: a in archs ==> SigOf(r, a).Some? && SigOf(r, a).value != []
    ensures SigsOfArchs(r, archs) == SigsOfArchs(r, archs[..|archs| - 1]) + [SigOf(r, archs[|archs| - 1]).value]
  {
    SigsOfArchsAre(r, archs);
    SigsOfArchsAre(r, archs[..|archs| - 1]);
    hide SchemaOk, SigOf, PresentNames, ComponentSlots, Sort, NameLe;
  }

  lemma {:induction false} CountArchs(r: Reader, archs: seq<u16>, sig: Signature)
    requires SchemaOk(r.schema) && AscendingIds(archs)
    requires forall a :: a in archs ==> SigOf(r, a).Some? && SigOf(r, a).value != []
    ensures multiset(SigsOfArchs(r, archs))[sig] == |Among(r, archs, sig)|
  {
    hide SchemaOk, SigOf, Among;
    if |archs| == 0 {
      NoneAmong(r, sig);
    } else {
      var init, last := archs[..|archs| - 1], archs[|archs| - 1];
      assert archs == init + [last] && last !in init;
      CountArchs(r, init, sig);
      LastSig(r, archs);
      AmongPush(r, init, last, sig);
      hide SigsOfArchs;
    }
  }

  lemma NoneAmong(r: Reader, sig: Signature)
    ensures Among(r, [], sig) == {}
  {
  }

  /** For a well-formed run the scheduler sees a signature once for each archetype that
      has it. */
  lemma RunSigsAre(r: Reader, sig: Signature)
    requires SchemaOk(r.schema) && Named(r)
    ensures multiset(RunSigs(r))[sig] == |ArchsWith(r, sig)|
    ensures sig in RunSigs(r) <==> exists a :: a in ArchetypeIds(r) && SigOf(r, a) == Some(sig)
  {
    IdsAscend(r);
    hide SchemaOk, SigOf, SigsOfArchs, ArchetypeIds;
    var archs, sigs := ArchetypeIds(r), RunSigs(r);
    SigsOfArchsAre(r, archs);
    CountArchs(r, archs, sig);
    assert ArchsWith(r, sig) == Among(r, archs, sig);
    if sig in sigs {
      var i :| 0 <= i < |sigs| && sigs[i] == sig;
      assert archs[i] in archs;
    }
    if a :| a in archs && SigOf(r, a) == Some(sig) {
      var i :| 0 <= i < |archs| && archs[i] == a;
      assert sigs[i] == sig;
    }
  }

  // ── Groups ─────────────────────────────────────────────────────────────────

  type Pair = (nat, Signature)

  function PairsIn(run: nat, sigs: seq<Signature>): (r: seq<Pair>)
    ensures |r| == |sigs| && forall k :: 0 <= k < |sigs| ==> r[k] == (run, sigs[k])
  {
    seq(|sigs|, k requires 0 <= k < |sigs| => (run, sigs[k]))
  }

  /** Every (run, signature) in the order the grouping loops visit them. */
  function Pairs(infos: seq<seq<Signature>>): seq<Pair> {
    if |infos| == 0 then [] else Pairs(infos[..|infos| - 1]) + PairsIn(|infos| - 1, infos[|infos| - 1])
  }

  function GroupSigs(pairs: seq<Pair>): seq<Signature> {
    if |pairs| == 0 then []
    else
      var init, sig := GroupSigs(pairs[..|pairs| - 1]), pairs[|pairs| - 1].1;
      if sig in init then init else init + [sig]
  }

  function RunsOf(pairs: seq<Pair>, sig: Signature): seq<nat> {
    if |pairs| == 0 then []
    else
      var init, last := RunsOf(pairs[..|pairs| - 1], sig), pairs[|pairs| - 1];
      if last.1 == sig then init + [last.0] else init
  }

  /** One group for each signature in order of first appearance, holding its runs. */
  ghost predicate IsGroups(pairs: seq<Pair>, groups: seq<(Signature, seq<nat>)>) {
    var sigs := GroupSigs(pairs);
    |groups| == |sigs| && forall k :: 0 <= k < |sigs| ==> groups[k] == (sigs[k], RunsOf(pairs, sigs[k]))
  }

  lemma {:induction false} DistinctAre(pairs: seq<Pair>)
    ensures NoDup(GroupSigs(pairs))
    ensures forall sig :: sig in GroupSigs(pairs) <==> exists k :: 0 <= k < |pairs| && pairs[k].1 == sig
  {
    if |pairs| != 0 {
      var init := pairs[..|pairs| - 1];
      DistinctAre(init);
      forall sig ensures sig in GroupSigs(pairs) <==> exists k :: 0 <= k < |pairs| && pairs[k].1 == sig {
        if k :| 0 <= k < |pairs| && pairs[k].1 == sig {
          if k < |init| { assert init[k].1 == sig; }
        }
      }
    }
  }

  lemma {:induction false} RunsOfNone(pairs: seq<Pair>, sig: Signature)
    requires sig !in GroupSigs(pairs)
    ensures RunsOf(pairs, sig) == []
  {
    if |pairs| != 0 {
      RunsOfNone(pairs[..|pairs| - 1], sig);
    }
  }

  /** The group of a signature, or the end when it has none. */
  method FindGroup(groups: seq<(Signature, seq<nat>)>, sig: Signature) returns (k: nat)
    ensures k <= |groups| && (k < |groups| ==> groups[k].0 == sig) && forall j :: 0 <= j < k ==> groups[j].0 != sig
  {
    k := 0;
    while k < |groups| && groups[k].0 != sig
      invariant k <= |groups| && forall j :: 0 <= j < k ==> groups[j].0 != sig
    {
      k := k + 1;
    }
  }

  lemma GroupStep(pairs: seq<Pair>, groups: seq<(Signature, seq<nat>)>, run: nat, sig: Signature, k: nat)
    requires IsGroups(pairs, groups)
    requires k <= |groups| && (k < |groups| ==> groups[k].0 == sig) && forall j :: 0 <= j < k ==> groups[j].0 != sig
    ensures IsGroups(pairs + [(run, sig)],
              if k < |groups| then groups[k := (sig, groups[k].1 + [run])] else groups + [(sig, [run])])
  {
    var more := pairs + [(run, sig)];
    assert more[..|more| - 1] == pairs;
    DistinctAre(pairs);
    var sigs := GroupSigs(pairs);
    if k < |groups| {
      assert sigs[k] in sigs;
    } else {
      assert sig !in sigs by {
        forall j | 0 <= j < |sigs| ensures sigs[j] != sig {
          assert groups[j].0 != sig;
        }
      }
      RunsOfNone(pairs, sig);
      assert RunsOf(more, sig) == [] + [run] == [run];
    }
  }

  method GroupRuns(infos: seq<seq<Signature>>) returns (groups: seq<(Signature, seq<nat>)>)
    ensures IsGroups(Pairs(infos), groups)
  {
    hide IsGroups;
    groups := [];
    NoGroups();
    for i := 0 to |infos|
      invariant IsGroups(Pairs(infos[..i]), groups)
    {
      ghost var before := Pairs(infos[..i]);
      assert before + PairsIn(i, infos[i][..0]) == before;
      for j := 0 to |infos[i]|
        invariant IsGroups(before + PairsIn(i, infos[i][..j]), groups)
      {
        var sig := infos[i][j];
        var k := FindGroup(groups, sig);
        GroupStep(before + PairsIn(i, infos[i][..j]), groups, i, sig, k);
        assert before + PairsIn(i, infos[i][..j]) + [(i, sig)] == before + PairsIn(i, infos[i][..j + 1]);
        groups := if k < |groups| then groups[k := (sig, groups[k].1 + [i])] else groups + [(sig, [i])];
      }
      assert infos[i][..|infos[i]|] == infos[i];
      assert infos[..i + 1][..i] == infos[..i];
    }
    assert infos[..|infos|] == infos;
  }

  lemma NoGroups()
    ensures IsGroups(Pairs([]), [])
  {
  }

  // ── How many runs have a signature ─────────────────────────────────────────

  function Hits(infos: seq<seq<Signature>>, sig: Signature): nat { |RunsOf(Pairs(infos), sig)| }

  lemma {:induction false} RunsOfAppend(a: seq<Pair>, b: seq<Pair>, sig: Signature)
    ensures RunsOf(a + b, sig) == RunsOf(a, sig) + RunsOf(b, sig)
  {
    if |b| == 0 {
      assert a + b == a;
    } else {
      assert (a + b)[..|a + b| - 1] == a + b[..|b| - 1];
      RunsOfAppend(a, b[..|b| - 1], sig);
    }
  }

  lemma {:induction false} RunsOfOneRun(run: nat, sigs: seq<Signature>, sig: Signature)
    ensures forall x :: x in RunsOf(PairsIn(run, sigs), sig) <==> x == run && sig in sigs
    ensures |RunsOf(PairsIn(run, sigs), sig)| == multiset(sigs)[sig]
  {
    if |sigs| != 0 {
      var init := sigs[..|sigs| - 1];
      assert sigs == init + [sigs[|sigs| - 1]];
      assert PairsIn(run, sigs)[..|sigs| - 1] == PairsIn(run, init);
      RunsOfOneRun(run, init, sig);
    }
  }

  /** The runs of a signature's group are those that have it. */
  lemma {:induction false} RunsOfAre(infos: seq<seq<Signature>>, sig: Signature)
    ensures forall x: nat :: x in RunsOf(Pairs(infos), sig) <==> x < |infos| && sig in infos[x]
  {
    if |infos| != 0 {
      var init, n := infos[..|infos| - 1], |infos| - 1;
      RunsOfAre(init, sig);
      RunsOfAppend(Pairs(init), PairsIn(n, infos[n]), sig);
      RunsOfOneRun(n, infos[n], sig);
    }
  }

  /** A group holds its runs in the order of the level. */
  lemma {:induction false} RunsOfAscend(infos: seq<seq<Signature>>, sig: Signature)
    ensures NeverDown(RunsOf(Pairs(infos), sig))
  {
    if |infos| != 0 {
      var init, n := infos[..|infos| - 1], |infos| - 1;
      RunsOfAscend(init, sig);
      RunsOfAre(init, sig);
      RunsOfAppend(Pairs(init), PairsIn(n, infos[n]), sig);
      RunsOfOneRun(n, infos[n], sig);
      var before, last := RunsOf(Pairs(init), sig), RunsOf(PairsIn(n, infos[n]), sig);
      forall i | 0 <= i < |before| ensures before[i] < n { assert before[i] in before; }
      forall i | 0 <= i < |last| ensures last[i] == n { assert last[i] in last; }
      AppendNeverDown(before, last, n);
    }
  }

  predicate NeverDown(idxs: seq<nat>) { forall i, j :: 0 <= i < j < |idxs| ==> idxs[i] <= idxs[j] }

  lemma AppendNeverDown(a: seq<nat>, b: seq<nat>, n: nat)
    requires NeverDown(a) && (forall i :: 0 <= i < |a| ==> a[i] <= n) && forall i :: 0 <= i < |b| ==> b[i] == n
    ensures NeverDown(a + b)
  {
  }

  function Sum(s: seq<nat>): nat { if |s| == 0 then 0 else Sum(s[..|s| - 1]) + s[|s| - 1] }

  /** How often each run has the signature. */
  function Times(infos: seq<seq<Signature>>, sig: Signature): (r: seq<nat>)
    ensures |r| == |infos| && forall i :: 0 <= i < |r| ==> r[i] == multiset(infos[i])[sig]
  {
    seq(|infos|, i requires 0 <= i < |infos| => multiset(infos[i])[sig])
  }

  /** A group counts a run once for every time it has the signature. */
  lemma {:induction false} HitsAreTimes(infos: seq<seq<Signature>>, sig: Signature)
    ensures Hits(infos, sig) == Sum(Times(infos, sig))
  {
    if |infos| != 0 {
      var init, n := infos[..|infos| - 1], |infos| - 1;
      HitsAreTimes(init, sig);
      RunsOfAppend(Pairs(init), PairsIn(n, infos[n]), sig);
      RunsOfOneRun(n, infos[n], sig);
      assert Times(infos, sig)[..n] == Times(init, sig);
    }
  }

  /** A sum of zeros and ones counts the ones. */
  lemma {:induction false} SumOfOnes(s: seq<nat>, ones: set<nat>)
    requires forall i :: 0 <= i < |s| ==> s[i] == if i in ones then 1 else 0
    requires forall i :: i in ones ==> i < |s|
    ensures Sum(s) == |ones|
  {
    if |s| == 0 {
      assert ones == {};
    } else {
      var last := |s| - 1;
      SumOfOnes(s[..last], ones - {last});
    }
  }

  lemma {:induction false} SumPositive(s: seq<nat>) returns (i: nat)
    requires Sum(s) > 0
    ensures i < |s| && s[i] > 0
  {
    if s[|s| - 1] == 0 {
      i := SumPositive(s[..|s| - 1]);
    } else {
      i := |s| - 1;
    }
  }

  // ── One level ──────────────────────────────────────────────────────────────

  /** `infos` are the signatures of each run, as read from disk. */
  ghost predicate InfosOf(disk: Disk, runs: seq<SortedRunMeta>, infos: seq<seq<Signature>>) {
    |infos| == |runs| && forall i :: 0 <= i < |runs| ==>
      ReaderAt(disk, runs[i].path).Some? && infos[i] == RunSigs(ReaderAt(disk, runs[i].path).value)
  }

  method CollectInfos(disk: Disk, runs: seq<SortedRunMeta>) returns (infos: Option<seq<seq<Signature>>>)
    ensures infos.Some? ==> InfosOf(disk, runs, infos.value)
    ensures infos.None? ==> exists i :: 0 <= i < |runs| && ReaderAt(disk, runs[i].path).None?
  {
    hide ReaderAt, RunSigs, Opens;
    var out: seq<seq<Signature>> := [];
    for i := 0 to |runs|
      invariant |out| == i && forall j :: 0 <= j < i ==>
        ReaderAt(disk, runs[j].path).Some? && out[j] == RunSigs(ReaderAt(disk, runs[j].path).value)
    {
      var reader := OpenRun(disk, runs[i].path);
      if reader.None? {
        return None;
      }
      var sigs := CollectRunSigs(reader.value);
      out := out + [sigs];
    }
    return Some(out);
  }

  ghost predicate Triggers(infos: seq<seq<Signature>>, sig: Signature) { Hits(infos, sig) >= COMPACTION_TRIGGER }

  /** `sig` triggers, and no signature that appears before it does. */
  ghost predicate FirstTrigger(infos: seq<seq<Signature>>, sig: Signature) {
    var sigs := GroupSigs(Pairs(infos));
    exists k :: 0 <= k < |sigs| && sigs[k] == sig && Triggers(infos, sig) && forall j :: 0 <= j < k ==> !Triggers(infos, sigs[j])
  }

  ghost predicate InputPath(runs: seq<SortedRunMeta>, infos: seq<seq<Signature>>, sig: Signature, p: Path)
    requires |runs| == |infos|
  {
    exists i :: 0 <= i < |runs| && sig in infos[i] && runs[i].path == p
  }

  ghost predicate InputSig(infos: seq<seq<Signature>>, sig: Signature, s: Signature) {
    exists i :: 0 <= i < |infos| && sig in infos[i] && s in infos[i]
  }

  /** `firsts` are the first of the runs, among those of which `has` holds, at the paths. */
  ghost predicate FirstsAt(runs: seq<SortedRunMeta>, has: set<nat>, paths: seq<Path>, firsts: seq<nat>) {
    && |firsts| == |paths| && (forall i, j :: 0 <= i < j < |firsts| ==> firsts[i] < firsts[j])
    && forall i :: 0 <= i < |firsts| ==>
      && firsts[i] < |runs| && firsts[i] in has && runs[firsts[i]].path == paths[i]
      && forall k :: k in has && k < |runs| && runs[k].path == paths[i] ==> firsts[i] <= k
  }

  /** The paths come in the order of the level. */
  ghost predicate InLevelOrder(runs: seq<SortedRunMeta>, has: set<nat>, paths: seq<Path>) {
    exists firsts :: FirstsAt(runs, has, paths, firsts)
  }

  ghost function With(infos: seq<seq<Signature>>, sig: Signature): set<nat> { set i: nat | i < |infos| && sig in infos[i] }

  /** The job of a signature: the paths of all runs that have it, each once and in the order
      of the level, to the next level, with the sorted union of their signatures. */
  ghost predicate IsJob(runs: seq<SortedRunMeta>, infos: seq<seq<Signature>>, l: nat, sig: Signature, job: Job) {
    && |runs| == |infos| && FirstTrigger(infos, sig) && job.from == l && job.to == l + 1
    && NoDup(job.paths) && (forall p :: p in job.paths <==> InputPath(runs, infos, sig, p))
    && InLevelOrder(runs, With(infos, sig), job.paths)
    && NoDup(job.sigs) && SortedBy(SigLe, job.sigs) && (forall s :: s in job.sigs <==> InputSig(infos, sig, s))
  }

  predicate Indexes(idxs: seq<nat>, n: nat) { forall k :: 0 <= k < |idxs| ==> idxs[k] < n }

  ghost predicate PathAmong(runs: seq<SortedRunMeta>, idxs: seq<nat>, n: nat, p: Path)
    requires n <= |idxs| && Indexes(idxs, |runs|)
  {
    exists k :: 0 <= k < n && runs[idxs[k]].path == p
  }

  ghost predicate SigAmong(infos: seq<seq<Signature>>, idxs: seq<nat>, n: nat, s: Signature)
    requires n <= |idxs| && Indexes(idxs, |infos|)
  {
    exists k :: 0 <= k < n && s in infos[idxs[k]]
  }

  ghost function Taken(idxs: seq<nat>): set<nat> { set i | i in idxs }

  lemma FirstsPush(runs: seq<SortedRunMeta>, idxs: seq<nat>, k: nat, paths: seq<Path>, firsts: seq<nat>)
    requires Indexes(idxs, |runs|) && k < |idxs| && NeverDown(idxs)
    requires FirstsAt(runs, Taken(idxs[..k]), paths, firsts)
    requires forall i :: 0 <= i < k ==> runs[idxs[i]].path in paths
    ensures
      var path := runs[idxs[k]].path;
      if path in paths then FirstsAt(runs, Taken(idxs[..k + 1]), paths, firsts)
      else FirstsAt(runs, Taken(idxs[..k + 1]), paths + [path], firsts + [idxs[k]])
  {
    var path, x := runs[idxs[k]].path, idxs[k];
    assert Taken(idxs[..k + 1]) == Taken(idxs[..k]) + {x} by { assert idxs[..k + 1] == idxs[..k] + [x]; }
    forall y | y in Taken(idxs[..k]) ensures y <= x && y < |runs| && runs[y].path in paths {
      var i :| 0 <= i < k && idxs[..k][i] == y;
      assert idxs[i] == y;
    }
    hide Taken;
    forall i | 0 <= i < |firsts| ensures firsts[i] <= x && (path !in paths ==> firsts[i] < x) {
      assert firsts[i] in Taken(idxs[..k]) && runs[firsts[i]].path == paths[i];
    }
  }

  method DedupPaths(runs: seq<SortedRunMeta>, idxs: seq<nat>) returns (paths: seq<Path>)
    requires Indexes(idxs, |runs|) && NeverDown(idxs)
    ensures NoDup(paths) && forall p :: p in paths <==> PathAmong(runs, idxs, |idxs|, p)
    ensures InLevelOrder(runs, Taken(idxs), paths)
  {
    hide FirstsAt, Taken;
    paths := [];
    ghost var firsts: seq<nat> := [];
    NoFirsts(runs, Taken(idxs[..0]));
    for k := 0 to |idxs|
      invariant NoDup(paths) && forall p :: p in paths <==> PathAmong(runs, idxs, k, p)
      invariant FirstsAt(runs, Taken(idxs[..k]), paths, firsts)
    {
      var path := runs[idxs[k]].path;
      FirstsPush(runs, idxs, k, paths, firsts);
      if path !in paths {
        paths := paths + [path];
        firsts := firsts + [idxs[k]];
      }
    }
    assert idxs[..|idxs|] == idxs;
  }

  lemma NoFirsts(runs: seq<SortedRunMeta>, has: set<nat>)
    ensures FirstsAt(runs, has, [], [])
  {
  }

  method UnionSigs(infos: seq<seq<Signature>>, idxs: seq<nat>) returns (sigs: seq<Signature>)
    requires Indexes(idxs, |infos|)
    ensures NoDup(sigs) && SortedBy(SigLe, sigs) && forall s :: s in sigs <==> SigAmong(infos, idxs, |idxs|, s)
  {
    hide SigLe, Sort;
    var all: seq<Signature> := [];
    for k := 0 to |idxs|
      invariant NoDup(all) && forall s :: s in all <==> SigAmong(infos, idxs, k, s)
    {
      var run := infos[idxs[k]];
      for j := 0 to |run|
        invariant NoDup(all)
        invariant forall s :: s in all <==> SigAmong(infos, idxs, k, s) || s in run[..j]
      {
        assert run[..j + 1] == run[..j] + [run[j]];
        if run[j] !in all {
          all := all + [run[j]];
        }
      }
      assert run[..|run|] == run;
    }
    SigOrder();
    SortSorts(SigLe, all);
    SortNoDup(SigLe, all);
    SameElements(Sort(SigLe, all), all);
    sigs := Sort(SigLe, all);
  }

  /** The first group of a level with enough runs becomes the job. */
  method PickGroup(runs: seq<SortedRunMeta>, infos: seq<seq<Signature>>, l: Level) returns (job: Option<Job>)
    requires |runs| == |infos| && l + 1 < MAX_LEVELS
    ensures job.None? ==> forall sig :: !Triggers(infos, sig)
    ensures job.Some? ==> exists sig :: IsJob(runs, infos, l, sig, job.value)
  {
    hide Pairs, GroupSigs, RunsOf, SigLe, IsJob, InLevelOrder, Taken, With;
    var groups := GroupRuns(infos);
    ghost var sigs := GroupSigs(Pairs(infos));
    for k := 0 to |groups|
      invariant forall j :: 0 <= j < k ==> !Triggers(infos, sigs[j])
    {
      if |groups[k].1| >= COMPACTION_TRIGGER {
        var (sig, idxs) := groups[k];
        RunsOfAre(infos, sig);
        RunsOfAscend(infos, sig);
        MembersIndex(idxs, |infos|);
        var paths := DedupPaths(runs, idxs);
        var union := UnionSigs(infos, idxs);
        var j := Job(l, l + 1, union, paths);
        TakenAre(infos, sig, idxs);
        JobOfGroup(runs, infos, l, sig, idxs, j);
        return Some(j);
      }
    }
    forall sig ensures !Triggers(infos, sig) {
      NoTrigger(infos, sig);
    }
    return None;
  }

  lemma MembersIndex(idxs: seq<nat>, n: nat)
    requires forall i: nat :: i in idxs ==> i < n
    ensures Indexes(idxs, n)
  {
    forall k | 0 <= k < |idxs| ensures idxs[k] < n {
      assert idxs[k] in idxs;
    }
  }

  lemma TakenAre(infos: seq<seq<Signature>>, sig: Signature, idxs: seq<nat>)
    requires forall i: nat :: i in idxs <==> i < |infos| && sig in infos[i]
    ensures Taken(idxs) == With(infos, sig)
  {
  }

  lemma NoTrigger(infos: seq<seq<Signature>>, sig: Signature)
    requires forall j :: 0 <= j < |GroupSigs(Pairs(infos))| ==> !Triggers(infos, GroupSigs(Pairs(infos))[j])
    ensures !Triggers(infos, sig)
  {
    hide Pairs, GroupSigs, RunsOf;
    if sig !in GroupSigs(Pairs(infos)) {
      RunsOfNone(Pairs(infos), sig);
    }
  }

  lemma JobOfGroup(runs: seq<SortedRunMeta>, infos: seq<seq<Signature>>, l: Level, sig: Signature, idxs: seq<nat>,
                   job: Job)
    requires |runs| == |infos| && l + 1 < MAX_LEVELS && FirstTrigger(infos, sig) && job.from == l && job.to == l + 1
    requires Indexes(idxs, |infos|) && forall i: nat :: i in idxs <==> i < |infos| && sig in infos[i]
    requires NoDup(job.paths) && forall p :: p in job.paths <==> PathAmong(runs, idxs, |idxs|, p)
    requires InLevelOrder(runs, With(infos, sig), job.paths)
    requires NoDup(job.sigs) && SortedBy(SigLe, job.sigs) && forall s :: s in job.sigs <==> SigAmong(infos, idxs, |idxs|, s)
    ensures IsJob(runs, infos, l, sig, job)
  {
    hide FirstTrigger, SigLe, InLevelOrder, With;
    forall p ensures p in job.paths <==> InputPath(runs, infos, sig, p) {
      if InputPath(runs, infos, sig, p) {
        var i: nat :| i < |runs| && sig in infos[i] && runs[i].path == p;
        assert i in idxs;
      }
      if PathAmong(runs, idxs, |idxs|, p) {
        var k :| 0 <= k < |idxs| && runs[idxs[k]].path == p;
        assert idxs[k] in idxs;
      }
    }
    forall s ensures s in job.sigs <==> InputSig(infos, sig, s) {
      if InputSig(infos, sig, s) {
        var i: nat :| i < |infos| && sig in infos[i] && s in infos[i];
        assert i in idxs;
      }
      if SigAmong(infos, idxs, |idxs|, s) {
        var k :| 0 <= k < |idxs| && s in infos[idxs[k]];
        assert idxs[k] in idxs;
      }
    }
  }

  // ── The scheduler ──────────────────────────────────────────────────────────

  datatype Pick = Nothing | Unreadable | Picked(job: Job)

  /** A level the scheduler passes over. */
  ghost predicate Quiet(disk: Disk, runs: seq<SortedRunMeta>) {
    |runs| < COMPACTION_TRIGGER || exists infos :: InfosOf(disk, runs, infos) && forall sig :: !Triggers(infos, sig)
  }

  ghost predicate Broken(disk: Disk, runs: seq<SortedRunMeta>) {
    |runs| >= COMPACTION_TRIGGER && exists i :: 0 <= i < |runs| && ReaderAt(disk, runs[i].path).None?
  }

  ghost predicate JobAt(disk: Disk, runs: seq<SortedRunMeta>, l: nat, job: Job) {
    |runs| >= COMPACTION_TRIGGER && exists infos, sig :: InfosOf(disk, runs, infos) && IsJob(runs, infos, l, sig, job)
  }

  /** find_compaction_candidate: passes over quiet levels, never looks at the bottom one,
      and picks a job at the first level that is not quiet. */
  method FindCandidate(m: LsmManifest, disk: Disk) returns (r: Pick)
    requires m.Valid() && 1 <= m.n <= MAX_LEVELS
    ensures r.Nothing? ==> forall l :: 0 <= l < m.n - 1 ==> Quiet(disk, m.levels[l])
    ensures r.Unreadable? ==> exists l :: 0 <= l < m.n - 1 && Broken(disk, m.levels[l]) && forall k :: 0 <= k < l ==> Quiet(disk, m.levels[k])
    ensures r.Picked? ==> exists l :: 0 <= l < m.n - 1 && JobAt(disk, m.levels[l], l, r.job) && forall k :: 0 <= k < l ==> Quiet(disk, m.levels[k])
  {
    hide InfosOf, Triggers, IsJob, ReaderAt;
    var bottom := m.n - 1;
    for l := 0 to m.n
      invariant m.Valid() && m.levels == old(m.levels)
      invariant forall k :: 0 <= k < l && k < m.n - 1 ==> Quiet(disk, m.levels[k])
    {
      if l != bottom && |m.levels[l]| >= COMPACTION_TRIGGER {
        var infos := CollectInfos(disk, m.levels[l]);
        if infos.None? {
          return Unreadable;
        }
        assert |infos.value| == |m.levels[l]| by { InfosLength(disk, m.levels[l], infos.value); }
        var job := PickGroup(m.levels[l], infos.value, l);
        if job.Some? {
          return Picked(job.value);
        }
      }
    }
    return Nothing;
  }

  lemma InfosLength(disk: Disk, runs: seq<SortedRunMeta>, infos: seq<seq<Signature>>)
    requires InfosOf(disk, runs, infos)
    ensures |infos| == |runs|
  {
  }

  // ── What the scheduler decides, in terms of the runs themselves ────────────

  ghost predicate HasSig(r: Reader, sig: Signature) {
    exists a :: a in ArchetypeIds(r) && SigOf(r, a) == Some(sig)
  }

  /** The run opens, and its archetypes have signatures. */
  ghost predicate RunReadable(disk: Disk, run: RunMeta) {
    ReaderAt(disk, run.path).Some? && SchemaOk(ReaderAt(disk, run.path).value.schema) && Named(ReaderAt(disk, run.path).value)
  }

  ghost predicate RunHas(disk: Disk, run: RunMeta, sig: Signature) {
    ReaderAt(disk, run.path).Some? && HasSig(ReaderAt(disk, run.path).value, sig)
  }

  /** The runs of a level with an archetype of the signature. */
  ghost function RunsHaving(disk: Disk, runs: seq<SortedRunMeta>, sig: Signature): set<nat> {
    set i: nat | i < |runs| && RunHas(disk, runs[i], sig)
  }

  ghost predicate LevelReadable(disk: Disk, runs: seq<SortedRunMeta>) {
    forall i :: 0 <= i < |runs| ==> RunReadable(disk, runs[i])
  }

  /** The archetypes of the signature in the run at `path`. */
  ghost function ArchsAt(disk: Disk, path: Path, sig: Signature): nat {
    if ReaderAt(disk, path).Some? then |ArchsWith(ReaderAt(disk, path).value, sig)| else 0
  }

  ghost function ArchCounts(disk: Disk, runs: seq<SortedRunMeta>, sig: Signature): (r: seq<nat>)
    ensures |r| == |runs| && forall i :: 0 <= i < |r| ==> r[i] == ArchsAt(disk, runs[i].path, sig)
  {
    seq(|runs|, i requires 0 <= i < |runs| => ArchsAt(disk, runs[i].path, sig))
  }

  /** The archetypes of the signature in all runs of a level. */
  ghost function ArchCount(disk: Disk, runs: seq<SortedRunMeta>, sig: Signature): nat { Sum(ArchCounts(disk, runs, sig)) }

  /** The level has too few runs, or no signature occurs in COMPACTION_TRIGGER archetypes
      of its runs. */
  ghost predicate LevelSettled(disk: Disk, runs: seq<SortedRunMeta>) {
    |runs| < COMPACTION_TRIGGER || forall sig :: ArchCount(disk, runs, sig) < COMPACTION_TRIGGER
  }

  lemma RunCounted(disk: Disk, run: SortedRunMeta, sig: Signature)
    requires RunReadable(disk, run)
    ensures ReaderAt(disk, run.path).Some?
    ensures multiset(RunSigs(ReaderAt(disk, run.path).value))[sig] == ArchsAt(disk, run.path, sig)
    ensures sig in RunSigs(ReaderAt(disk, run.path).value) <==> RunHas(disk, run, sig)
  {
    hide ReaderAt, RunSigs, SchemaOk, Named, SigOf, ArchetypeIds, ArchsWith;
    RunSigsAre(ReaderAt(disk, run.path).value, sig);
  }

  lemma InfosTotal(disk: Disk, runs: seq<SortedRunMeta>, infos: seq<seq<Signature>>, sig: Signature)
    requires LevelReadable(disk, runs) && InfosOf(disk, runs, infos)
    ensures Hits(infos, sig) == ArchCount(disk, runs, sig)
  {
    hide ReaderAt, RunSigs, RunReadable, ArchsAt, RunHas, Sum, Hits;
    forall i | 0 <= i < |runs| ensures Times(infos, sig)[i] == ArchCounts(disk, runs, sig)[i] {
      RunCounted(disk, runs[i], sig);
    }
    HitsAreTimes(infos, sig);
    assert Times(infos, sig) == ArchCounts(disk, runs, sig);
  }

  lemma InfosAre(disk: Disk, runs: seq<SortedRunMeta>, infos: seq<seq<Signature>>, sig: Signature)
    requires LevelReadable(disk, runs) && InfosOf(disk, runs, infos)
    ensures |infos| == |runs| && forall i :: 0 <= i < |runs| ==> (sig in infos[i] <==> RunHas(disk, runs[i], sig))
    ensures Hits(infos, sig) == ArchCount(disk, runs, sig)
  {
    InfosTotal(disk, runs, infos, sig);
    hide ReaderAt, RunSigs, RunReadable, Hits, ArchCount, ArchsAt, RunHas;
    forall i | 0 <= i < |runs| ensures sig in infos[i] <==> RunHas(disk, runs[i], sig) {
      RunCounted(disk, runs[i], sig);
    }
  }

  /** The run at `path` opens and repeats no signature. */
  ghost predicate RunDistinct(disk: Disk, path: Path) {
    ReaderAt(disk, path).Some? && DistinctSigs(ReaderAt(disk, path).value)
  }

  /** When no run repeats a signature, archetypes are counted as runs. */
  lemma CountIsRuns(disk: Disk, runs: seq<SortedRunMeta>, sig: Signature)
    requires forall i :: 0 <= i < |runs| ==> RunDistinct(disk, runs[i].path)
    ensures ArchCount(disk, runs, sig) == |RunsHaving(disk, runs, sig)|
  {
    hide RunDistinct, RunHas, ArchsAt, Sum;
    forall i | 0 <= i < |runs| ensures ArchCounts(disk, runs, sig)[i] == if i in RunsHaving(disk, runs, sig) then 1 else 0 {
      OneArch(disk, runs[i], sig);
    }
    SumOfOnes(ArchCounts(disk, runs, sig), RunsHaving(disk, runs, sig));
  }

  lemma OneArch(disk: Disk, run: SortedRunMeta, sig: Signature)
    requires RunDistinct(disk, run.path)
    ensures ArchsAt(disk, run.path, sig) == if RunHas(disk, run, sig) then 1 else 0
  {
    hide SigOf, ArchetypeIds, ReaderAt;
    var r := ReaderAt(disk, run.path).value;
    if HasSig(r, sig) {
      var a :| a in ArchetypeIds(r) && SigOf(r, a) == Some(sig);
      assert ArchsWith(r, sig) == {a};
    } else {
      assert ArchsWith(r, sig) == {};
    }
  }

  lemma CountNeedsRun(disk: Disk, runs: seq<SortedRunMeta>, sig: Signature) returns (i: nat)
    requires ArchCount(disk, runs, sig) > 0
    ensures i < |runs| && RunHas(disk, runs[i], sig)
  {
    hide RunHas, ArchsAt, Sum;
    i := SumPositive(ArchCounts(disk, runs, sig));
    CountedHas(disk, runs[i], sig);
  }

  lemma CountedHas(disk: Disk, run: SortedRunMeta, sig: Signature)
    requires ArchsAt(disk, run.path, sig) > 0
    ensures RunHas(disk, run, sig)
  {
    hide SigOf, ArchetypeIds, ReaderAt;
    var a :| a in ArchsWith(ReaderAt(disk, run.path).value, sig);
  }

  /** A readable level is passed over if and only if it is settled. */
  lemma QuietIff(disk: Disk, runs: seq<SortedRunMeta>)
    requires LevelReadable(disk, runs)
    ensures Quiet(disk, runs) <==> LevelSettled(disk, runs)
  {
    hide ReaderAt, RunHas, LevelReadable, InfosOf, Hits, ArchCount;
    if |runs| >= COMPACTION_TRIGGER {
      var infos := LevelInfos(disk, runs);
      if LevelSettled(disk, runs) {
        forall sig ensures !Triggers(infos, sig) {
          InfosAre(disk, runs, infos, sig);
        }
      }
      if Quiet(disk, runs) {
        var seen :| InfosOf(disk, runs, seen) && forall sig :: !Triggers(seen, sig);
        forall sig ensures ArchCount(disk, runs, sig) < COMPACTION_TRIGGER {
          InfosAre(disk, runs, seen, sig);
          assert !Triggers(seen, sig);
        }
      }
    }
  }

  lemma LevelInfos(disk: Disk, runs: seq<SortedRunMeta>) returns (infos: seq<seq<Signature>>)
    requires LevelReadable(disk, runs)
    ensures InfosOf(disk, runs, infos)
  {
    hide ReaderAt, RunSigs, SchemaOk, Named;
    assert forall i :: 0 <= i < |runs| ==> RunReadable(disk, runs[i]);
    infos := seq(|runs|, i requires 0 <= i < |runs| => RunSigs(ReaderAt(disk, runs[i].path).value));
  }

  /** `job` compacts all runs of the level with signature `sig`, which has at least
      COMPACTION_TRIGGER archetypes in them, each path once and in the order of the level,
      into the next level, keeping every signature of those runs. */
  ghost predicate JobFor(disk: Disk, runs: seq<SortedRunMeta>, l: nat, sig: Signature, job: Job) {
    && job.from == l && job.to == l + 1 && |runs| >= COMPACTION_TRIGGER && ArchCount(disk, runs, sig) >= COMPACTION_TRIGGER
    && NoDup(job.paths) && (forall p :: p in job.paths <==> HavingPath(disk, runs, sig, p))
    && InLevelOrder(runs, RunsHaving(disk, runs, sig), job.paths)
    && NoDup(job.sigs) && SortedBy(SigLe, job.sigs) && (forall s :: s in job.sigs <==> HavingSig(disk, runs, sig, s))
  }

  ghost predicate HavingPath(disk: Disk, runs: seq<SortedRunMeta>, sig: Signature, p: Path) {
    exists i :: 0 <= i < |runs| && RunHas(disk, runs[i], sig) && runs[i].path == p
  }

  ghost predicate HavingSig(disk: Disk, runs: seq<SortedRunMeta>, sig: Signature, s: Signature) {
    exists i :: 0 <= i < |runs| && RunHas(disk, runs[i], sig) && RunHas(disk, runs[i], s)
  }

  lemma JobIsFor(disk: Disk, runs: seq<SortedRunMeta>, l: nat, job: Job) returns (sig: Signature)
    requires LevelReadable(disk, runs) && JobAt(disk, runs, l, job)
    ensures JobFor(disk, runs, l, sig, job)
  {
    hide LevelReadable, InfosOf, IsJob, JobFor;
    var infos, t :| InfosOf(disk, runs, infos) && IsJob(runs, infos, l, t, job);
    sig := t;
    InfosLength(disk, runs, infos);
    JobOfSig(disk, runs, infos, l, sig, job);
  }

  lemma JobOfSig(disk: Disk, runs: seq<SortedRunMeta>, infos: seq<seq<Signature>>, l: nat, sig: Signature, job: Job)
    requires LevelReadable(disk, runs) && |runs| >= COMPACTION_TRIGGER
    requires InfosOf(disk, runs, infos) && |runs| == |infos| && IsJob(runs, infos, l, sig, job)
    ensures JobFor(disk, runs, l, sig, job)
  {
    hide ReaderAt, RunHas, LevelReadable, InfosOf, Hits, SigLe, Pairs, GroupSigs, HasSig, ArchCount, InLevelOrder;
    InfosAre(disk, runs, infos, sig);
    assert With(infos, sig) == RunsHaving(disk, runs, sig);
    forall p ensures p in job.paths <==> HavingPath(disk, runs, sig, p) {
      assert p in job.paths <==> InputPath(runs, infos, sig, p);
    }
    forall s ensures s in job.sigs <==> HavingSig(disk, runs, sig, s) {
      InfosAre(disk, runs, infos, s);
      assert s in job.sigs <==> InputSig(infos, sig, s);
    }
  }

  // ── A level that is not quiet has a job ────────────────────────────────────

  /** The first signature of the level that is in enough archetypes, in the order in which
      the scheduler comes across them. */
  ghost predicate FirstDue(disk: Disk, runs: seq<SortedRunMeta>, sig: Signature) {
    exists infos :: InfosOf(disk, runs, infos) && FirstTrigger(infos, sig)
  }

  lemma {:induction false} FirstOfGroups(infos: seq<seq<Signature>>, k: nat) returns (sig: Signature)
    requires k < |GroupSigs(Pairs(infos))| && Triggers(infos, GroupSigs(Pairs(infos))[k])
    ensures FirstTrigger(infos, sig)
  {
    hide Pairs, GroupSigs, RunsOf, Triggers;
    var sigs := GroupSigs(Pairs(infos));
    if j :| 0 <= j < k && Triggers(infos, sigs[j]) {
      sig := FirstOfGroups(infos, j);
    } else {
      sig := sigs[k];
    }
  }

  /** Where some signature triggers, one is the first that does. */
  lemma SomeFirst(infos: seq<seq<Signature>>, some: Signature) returns (sig: Signature)
    requires Triggers(infos, some)
    ensures FirstTrigger(infos, sig)
  {
    hide Pairs, GroupSigs, RunsOf, FirstTrigger, Triggers;
    var sigs := GroupSigs(Pairs(infos));
    if forall j :: 0 <= j < |sigs| ==> !Triggers(infos, sigs[j]) {
      NoTrigger(infos, some);
    }
    var k :| 0 <= k < |sigs| && Triggers(infos, sigs[k]);
    sig := FirstOfGroups(infos, k);
  }

  lemma OneFirst(infos: seq<seq<Signature>>, a: Signature, b: Signature)
    requires FirstTrigger(infos, a) && FirstTrigger(infos, b)
    ensures a == b
  {
    hide Pairs, GroupSigs, RunsOf, Triggers;
  }

  lemma {:induction false} GroupsGrow(a: seq<Pair>, b: seq<Pair>)
    ensures GroupSigs(a) <= GroupSigs(a + b)
  {
    if |b| == 0 {
      assert a + b == a;
    } else {
      assert (a + b)[..|a + b| - 1] == a + b[..|b| - 1];
      GroupsGrow(a, b[..|b| - 1]);
    }
  }

  lemma {:induction false} PairsGrow(infos: seq<seq<Signature>>, i: nat) returns (rest: seq<Pair>)
    requires i <= |infos|
    ensures Pairs(infos) == Pairs(infos[..i]) + rest
  {
    if i == |infos| {
      assert infos[..i] == infos;
      rest := [];
    } else {
      var last := |infos| - 1;
      assert infos[..last][..i] == infos[..i];
      var before := PairsGrow(infos[..last], i);
      rest := before + PairsIn(last, infos[last]);
    }
  }

  /** What the grouping loops have visited before signature `k` of run `i`. */
  function Visited(infos: seq<seq<Signature>>, i: nat, k: nat): seq<Pair>
    requires i < |infos| && k <= |infos[i]|
  {
    Pairs(infos[..i]) + PairsIn(i, infos[i][..k])
  }

  lemma VisitedFirst(infos: seq<seq<Signature>>, i: nat, k: nat) returns (rest: seq<Pair>)
    requires i < |infos| && k <= |infos[i]|
    ensures Pairs(infos) == Visited(infos, i, k) + rest
  {
    var more := PairsGrow(infos, i + 1);
    assert infos[..i + 1][..i] == infos[..i];
    assert PairsIn(i, infos[i]) == PairsIn(i, infos[i][..k]) + PairsIn(i, infos[i])[k..];
    rest := PairsIn(i, infos[i])[k..] + more;
  }

  lemma VisitedSigs(infos: seq<seq<Signature>>, i: nat, k: nat, sig: Signature)
    requires i < |infos| && k <= |infos[i]|
    ensures sig in GroupSigs(Visited(infos, i, k)) <==> (exists r :: 0 <= r < i && sig in infos[r]) || sig in infos[i][..k]
  {
    var seen := Visited(infos, i, k);
    DistinctAre(seen);
    RunsOfAre(infos[..i], sig);
    RunsOfAppend(Pairs(infos[..i]), PairsIn(i, infos[i][..k]), sig);
    RunsOfOneRun(i, infos[i][..k], sig);
    hide Pairs, GroupSigs, RunsOf;
    SigSeen(seen, sig);
    SigSeen(Pairs(infos[..i]), sig);
    SigSeen(PairsIn(i, infos[i][..k]), sig);
    if r :| 0 <= r < i && sig in infos[r] {
      assert infos[..i][r] == infos[r] && r in RunsOf(Pairs(infos[..i]), sig);
    }
    if x :| x in RunsOf(Pairs(infos[..i]), sig) {
      assert infos[..i][x] == infos[x] && sig in infos[x];
    }
    if sig in infos[i][..k] {
      assert i in RunsOf(PairsIn(i, infos[i][..k]), sig);
    }
    if x :| x in RunsOf(PairsIn(i, infos[i][..k]), sig) {
      assert sig in infos[i][..k];
    }
  }

  lemma {:induction false} SigSeen(pairs: seq<Pair>, sig: Signature)
    ensures sig in GroupSigs(pairs) <==> |RunsOf(pairs, sig)| > 0
    ensures |RunsOf(pairs, sig)| > 0 ==> exists x :: x in RunsOf(pairs, sig)
  {
    if |pairs| != 0 {
      SigSeen(pairs[..|pairs| - 1], sig);
    }
    if |RunsOf(pairs, sig)| > 0 { assert RunsOf(pairs, sig)[0] in RunsOf(pairs, sig); }
  }

  lemma {:induction false} FirstIndex<T>(s: seq<T>, x: T) returns (k: nat)
    requires x in s
    ensures k < |s| && s[k] == x && x !in s[..k]
  {
    if s[0] == x {
      k := 0;
    } else {
      k := FirstIndex(s[1..], x);
      k := k + 1;
      assert s[..k] == [s[0]] + s[1..][..k - 1];
    }
  }

  lemma {:induction false} FirstRun(infos: seq<seq<Signature>>, sig: Signature, r: nat) returns (i: nat)
    requires r < |infos| && sig in infos[r]
    ensures i <= r && sig in infos[i] && forall h :: 0 <= h < i ==> sig !in infos[h]
  {
    if h :| 0 <= h < r && sig in infos[h] {
      i := FirstRun(infos, sig, h);
    } else {
      i := r;
    }
  }

  /** The first signature due is the first that triggers in the order of the runs of the level
      and, within a run, of its archetypes: none that comes before it does. */
  lemma FirstTriggerIs(infos: seq<seq<Signature>>, sig: Signature) returns (i: nat, k: nat)
    requires FirstTrigger(infos, sig)
    ensures Triggers(infos, sig) && i < |infos| && k < |infos[i]| && infos[i][k] == sig
    ensures forall r, j :: 0 <= r < i && 0 <= j < |infos[r]| ==> !Triggers(infos, infos[r][j])
    ensures forall j :: 0 <= j < k ==> !Triggers(infos, infos[i][j])
  {
    var pairs := Pairs(infos);
    var sigs := GroupSigs(pairs);
    DistinctAre(pairs);
    RunsOfAre(infos, sig);
    SigSeen(pairs, sig);
    hide Pairs, GroupSigs, RunsOf, Triggers, Visited;
    var x :| x in RunsOf(pairs, sig);
    i := FirstRun(infos, sig, x);
    k := FirstIndex(infos[i], sig);
    var rest := VisitedFirst(infos, i, k);
    GroupsGrow(Visited(infos, i, k), rest);
    VisitedSigs(infos, i, k, sig);
    assert sig !in GroupSigs(Visited(infos, i, k));
    var p :| 0 <= p < |sigs| && sigs[p] == sig && forall j :: 0 <= j < p ==> !Triggers(infos, sigs[j]);
    forall other | other in GroupSigs(Visited(infos, i, k)) ensures !Triggers(infos, other) {
      EarlierGroup(GroupSigs(Visited(infos, i, k)), sigs, p, other);
    }
    forall r, j | 0 <= r < i && 0 <= j < |infos[r]| ensures !Triggers(infos, infos[r][j]) {
      VisitedSigs(infos, i, k, infos[r][j]);
    }
    forall j | 0 <= j < k ensures !Triggers(infos, infos[i][j]) {
      assert infos[i][..k][j] == infos[i][j];
      VisitedSigs(infos, i, k, infos[i][j]);
    }
  }

  lemma EarlierGroup(seen: seq<Signature>, sigs: seq<Signature>, p: nat, other: Signature)
    requires seen <= sigs && p < |sigs| && sigs[p] !in seen && other in seen
    ensures exists j :: 0 <= j < p && sigs[j] == other
  {
    var j :| 0 <= j < |seen| && seen[j] == other;
    assert sigs[j] == other;
  }

  lemma OneInfos(disk: Disk, runs: seq<SortedRunMeta>, a: seq<seq<Signature>>, b: seq<seq<Signature>>)
    requires InfosOf(disk, runs, a) && InfosOf(disk, runs, b)
    ensures a == b
  {
    hide ReaderAt, RunSigs;
  }

  /** A level has one first due signature at most. */
  lemma OneFirstDue(disk: Disk, runs: seq<SortedRunMeta>, a: Signature, b: Signature)
    requires FirstDue(disk, runs, a) && FirstDue(disk, runs, b)
    ensures a == b
  {
    hide InfosOf, FirstTrigger;
    var x :| InfosOf(disk, runs, x) && FirstTrigger(x, a);
    var y :| InfosOf(disk, runs, y) && FirstTrigger(y, b);
    OneInfos(disk, runs, x, y);
    OneFirst(x, a, b);
  }

  /** The runs with the signature have their paths in an order. */
  lemma PathsInOrder(runs: seq<SortedRunMeta>, infos: seq<seq<Signature>>, sig: Signature) returns (paths: seq<Path>)
    requires |runs| == |infos|
    ensures NoDup(paths) && InLevelOrder(runs, With(infos, sig), paths)
    ensures forall p :: p in paths <==> p in set i | 0 <= i < |runs| && sig in infos[i] :: runs[i].path
  {
    var idxs := RunsOf(Pairs(infos), sig);
    RunsOfAre(infos, sig);
    RunsOfAscend(infos, sig);
    MembersIndex(idxs, |infos|);
    TakenAre(infos, sig, idxs);
    hide RunsOf, Pairs, FirstsAt, Taken, With;
    var firsts;
    paths, firsts := PathsUpTo(runs, idxs, |idxs|);
    assert idxs[..|idxs|] == idxs;
    forall p ensures p in paths <==> p in set i | 0 <= i < |runs| && sig in infos[i] :: runs[i].path {
      if p in paths {
        var k :| 0 <= k < |idxs| && runs[idxs[k]].path == p;
        assert idxs[k] in idxs;
      }
      if i :| 0 <= i < |runs| && sig in infos[i] && runs[i].path == p {
        assert i in idxs;
        var k :| 0 <= k < |idxs| && idxs[k] == i;
      }
    }
  }

  lemma {:induction false} PathsUpTo(runs: seq<SortedRunMeta>, idxs: seq<nat>, k: nat) returns (paths: seq<Path>, firsts: seq<nat>)
    requires Indexes(idxs, |runs|) && k <= |idxs| && NeverDown(idxs)
    ensures NoDup(paths) && forall p :: p in paths <==> PathAmong(runs, idxs, k, p)
    ensures FirstsAt(runs, Taken(idxs[..k]), paths, firsts)
  {
    hide FirstsAt, Taken;
    if k == 0 {
      paths, firsts := [], [];
      NoFirsts(runs, Taken(idxs[..0]));
    } else {
      paths, firsts := PathsUpTo(runs, idxs, k - 1);
      FirstsPush(runs, idxs, k - 1, paths, firsts);
      var path := runs[idxs[k - 1]].path;
      if path !in paths {
        paths := paths + [path];
        firsts := firsts + [idxs[k - 1]];
      }
    }
  }

  lemma JobOfTrigger(runs: seq<SortedRunMeta>, infos: seq<seq<Signature>>, l: nat, sig: Signature) returns (job: Job)
    requires |runs| == |infos| && FirstTrigger(infos, sig) && l + 1 < MAX_LEVELS
    ensures IsJob(runs, infos, l, sig, job)
  {
    hide FirstTrigger, SigLe, Sort, InLevelOrder, With;
    var pathSet := set i | 0 <= i < |runs| && sig in infos[i] :: runs[i].path;
    var sigSet := set i, k | 0 <= i < |infos| && sig in infos[i] && 0 <= k < |infos[i]| :: infos[i][k];
    var paths := PathsInOrder(runs, infos, sig);
    var sigs := Listed(sigSet);
    SigOrder();
    SortSorts(SigLe, sigs);
    SortNoDup(SigLe, sigs);
    SameElements(Sort(SigLe, sigs), sigs);
    job := Job(l, l + 1, Sort(SigLe, sigs), paths);
    forall p ensures p in pathSet <==> InputPath(runs, infos, sig, p) {
    }
    forall s ensures s in sigSet <==> InputSig(infos, sig, s) {
      if InputSig(infos, sig, s) {
        var i :| 0 <= i < |infos| && sig in infos[i] && s in infos[i];
        var k :| 0 <= k < |infos[i]| && infos[i][k] == s;
      }
    }
  }

  /** On a level that is not quiet and can be read there is a job, of the first signature
      that is in enough archetypes. */
  lemma JobExists(disk: Disk, runs: seq<SortedRunMeta>, l: nat) returns (sig: Signature, job: Job)
    requires LevelReadable(disk, runs) && !Quiet(disk, runs) && l + 1 < MAX_LEVELS
    ensures FirstDue(disk, runs, sig) && JobAt(disk, runs, l, job) && JobFor(disk, runs, l, sig, job)
  {
    hide ReaderAt, RunHas, LevelReadable, InfosOf, Triggers, IsJob, JobFor, FirstTrigger;
    var infos := LevelInfos(disk, runs);
    InfosLength(disk, runs, infos);
    var some :| Triggers(infos, some);
    sig := SomeFirst(infos, some);
    job := JobOfTrigger(runs, infos, l, sig);
    JobOfSig(disk, runs, infos, l, sig, job);
  }

  ghost predicate JobOfLevel(disk: Disk, runs: seq<SortedRunMeta>, l: nat, job: Job) {
    exists sig :: JobFor(disk, runs, l, sig, job)
  }

  ghost predicate SettledBelow(disk: Disk, levels: seq<seq<SortedRunMeta>>, l: nat)
    requires l <= |levels|
  {
    forall k :: 0 <= k < l ==> LevelSettled(disk, levels[k])
  }

  /** When all runs are readable the scheduler stops exactly when every level but the
      bottom one is settled, and otherwise picks a job at the first that is not. */
  method Schedule(m: LsmManifest, disk: Disk) returns (job: Option<Job>)
    requires m.Valid() && 1 <= m.n <= MAX_LEVELS
    requires forall l :: 0 <= l < m.n - 1 ==> LevelReadable(disk, m.levels[l])
    ensures job.None? <==> forall l :: 0 <= l < m.n - 1 ==> LevelSettled(disk, m.levels[l])
    ensures job.Some? ==> exists l :: 0 <= l < m.n - 1 && JobOfLevel(disk, m.levels[l], l, job.value) && SettledBelow(disk, m.levels, l)
  {
    hide Quiet, LevelReadable, LevelSettled, JobAt, JobFor, ReaderAt;
    var pick := FindCandidate(m, disk);
    forall l | 0 <= l < m.n - 1 ensures !Broken(disk, m.levels[l]) && (Quiet(disk, m.levels[l]) <==> LevelSettled(disk, m.levels[l])) {
      NotBroken(disk, m.levels[l]);
      QuietIff(disk, m.levels[l]);
    }
    match pick
    case Nothing => return None;
    case Unreadable => assert false;
    case Picked(j) =>
      ghost var l :| 0 <= l < m.n - 1 && JobAt(disk, m.levels[l], l, j) && forall k :: 0 <= k < l ==> Quiet(disk, m.levels[k]);
      ghost var sig := JobIsFor(disk, m.levels[l], l, j);
      JobUnsettles(disk, m.levels[l], l, sig, j);
      return Some(j);
  }

  lemma NotBroken(disk: Disk, runs: seq<SortedRunMeta>)
    requires LevelReadable(disk, runs)
    ensures !Broken(disk, runs)
  {
    hide ReaderAt, SchemaOk, Named;
    assert forall i :: 0 <= i < |runs| ==> RunReadable(disk, runs[i]);
  }

  lemma JobUnsettles(disk: Disk, runs: seq<SortedRunMeta>, l: nat, sig: Signature, job: Job)
    requires JobFor(disk, runs, l, sig, job)
    ensures !LevelSettled(disk, runs)
  {
    hide ArchCount;
  }
}
