/** Carrying out a compaction job up to its commit: open the inputs, resolve archetypes,
    order the inputs newest first, write the output. */
module Executor {
  import opened Bytes
  import opened Order
  import opened Schema
  import opened SchemaCodec
  import opened RunFormat
  import opened RunReader
  import opened RunFile
  import opened Merge
  import opened CompactionPlan
  import opened CompactRun
  import opened OutputSchema
  import opened OutputRun
  import opened Archetypes
  import opened RunMeaning
  import opened CompactionMeaning
  import opened CompactionClosed
  import opened Picker
  import opened OutputNames
  import M = Manifest

  // ── Opening the inputs ─────────────────────────────────────────────────────

  /** `readers` are the runs at `paths`, opened. */
  ghost predicate OpenedAs(disk: M.Disk, paths: seq<M.Path>, readers: seq<Reader>) {
    |readers| == |paths| && forall i :: 0 <= i < |paths| ==> ReaderAt(disk, paths[i]) == Some(readers[i])
  }

  method OpenAll(disk: M.Disk, paths: seq<M.Path>) returns (readers: Option<seq<Reader>>)
    ensures readers.Some? ==> OpenedAs(disk, paths, readers.value)
    ensures readers.None? ==> exists i :: 0 <= i < |paths| && ReaderAt(disk, paths[i]).None?
  {
    hide ReaderAt, Opens;
    var out: seq<Reader> := [];
    for i := 0 to |paths|
      invariant |out| == i && forall j :: 0 <= j < i ==> ReaderAt(disk, paths[j]) == Some(out[j])
    {
      var r := OpenRun(disk, paths[i]);
      if r.None? {
        return None;
      }
      out := out + [r.value];
    }
    return Some(out);
  }

  ghost predicate IsTable(readers: seq<Reader>, sigs: seq<Signature>, table: ArchTable) {
    && |table| == |sigs|
    && (forall s :: 0 <= s < |sigs| ==> |table[s]| == |readers|)
    && forall s, i :: 0 <= s < |sigs| && 0 <= i < |readers| ==> IsArchOf(readers[i], sigs[s], table[s][i])
  }

  method ResolveArchetypes(readers: seq<Reader>, sigs: seq<Signature>) returns (table: ArchTable)
    ensures IsTable(readers, sigs, table)
  {
    hide IsArchOf;
    table := [];
    for s := 0 to |sigs|
      invariant |table| == s && forall t :: 0 <= t < s ==> |table[t]| == |readers|
      invariant forall t, i :: 0 <= t < s && 0 <= i < |readers| ==> IsArchOf(readers[i], sigs[t], table[t][i])
    {
      var row: seq<Option<u16>> := [];
      for i := 0 to |readers|
        invariant |row| == i && forall j :: 0 <= j < i ==> IsArchOf(readers[j], sigs[s], row[j])
      {
        var a := FindArchetype(readers[i], sigs[s]);
        row := row + [a];
      }
      table := table + [row];
    }
  }

  lemma {:induction false} FirstArchFrom(r: Reader, sig: Signature, a: u16) returns (b: u16)
    requires a in ArchetypeIds(r) && SigOf(r, a) == Some(sig)
    ensures IsArchOf(r, sig, Some(b))
  {
    hide SigOf, ArchetypeIds;
    if c :| c in ArchetypeIds(r) && c < a && SigOf(r, c) == Some(sig) {
      b := FirstArchFrom(r, sig, c);
    } else {
      b := a;
    }
  }

  ghost function ArchOf(r: Reader, sig: Signature): (a: Option<u16>)
    ensures IsArchOf(r, sig, a)
  {
    ArchExists(r, sig);
    var a :| IsArchOf(r, sig, a);
    a
  }

  lemma ArchExists(r: Reader, sig: Signature)
    ensures exists a :: IsArchOf(r, sig, a)
  {
    hide SigOf, ArchetypeIds;
    if a :| a in ArchetypeIds(r) && SigOf(r, a) == Some(sig) {
      var b := FirstArchFrom(r, sig, a);
    } else {
      assert IsArchOf(r, sig, None);
    }
  }

  /** All readers and signatures have a table. */
  lemma TableExists(readers: seq<Reader>, sigs: seq<Signature>) returns (table: ArchTable)
    ensures IsTable(readers, sigs, table)
  {
    hide IsArchOf;
    table := seq(|sigs|, s requires 0 <= s < |sigs| => seq(|readers|, i requires 0 <= i < |readers| => ArchOf(readers[i], sigs[s])));
  }

  // ── Sequence range and output path ─────────────────────────────────────────

  ghost predicate IsSpan(readers: seq<Reader>, lo: u64, hi: u64) {
    && (forall i :: 0 <= i < |readers| ==> lo <= readers[i].lo && readers[i].hi <= hi)
    && (exists i :: 0 <= i < |readers| && readers[i].lo == lo)
    && (exists i :: 0 <= i < |readers| && readers[i].hi == hi)
  }

  method Span(readers: seq<Reader>) returns (lo: u64, hi: u64)
    requires |readers| > 0
    ensures IsSpan(readers, lo, hi)
  {
    lo, hi := readers[0].lo, readers[0].hi;
    for i := 1 to |readers|
      invariant forall j :: 0 <= j < i ==> lo <= readers[j].lo && readers[j].hi <= hi
      invariant exists j :: 0 <= j < i && readers[j].lo == lo
      invariant exists j :: 0 <= j < i && readers[j].hi == hi
    {
      if readers[i].lo < lo {
        lo := readers[i].lo;
      }
      if hi < readers[i].hi {
        hi := readers[i].hi;
      }
    }
  }

  // ── Newest first ───────────────────────────────────────────────────────────

  type Ranked = (nat, Reader)

  predicate NewerFirst(a: Ranked, b: Ranked) { a.1.hi >= b.1.hi }

  function Enumerate(readers: seq<Reader>): (r: seq<Ranked>)
    ensures |r| == |readers| && forall i :: 0 <= i < |r| ==> r[i] == (i, readers[i])
  {
    seq(|readers|, i requires 0 <= i < |readers| => (i, readers[i]))
  }

  function ReadersOf(pairs: seq<Ranked>): (r: seq<Reader>)
    ensures |r| == |pairs| && forall i :: 0 <= i < |r| ==> r[i] == pairs[i].1
  {
    seq(|pairs|, i requires 0 <= i < |pairs| => pairs[i].1)
  }

  /** The inputs by descending hi; the sort is stable. */
  function NewestFirst(readers: seq<Reader>): seq<Ranked> { Sort(NewerFirst, Enumerate(readers)) }

  lemma NewestFirstIs(readers: seq<Reader>)
    ensures
      var pairs := NewestFirst(readers);
      && |pairs| == |readers|
      && (forall k :: 0 <= k < |pairs| ==> pairs[k].0 < |readers| && pairs[k].1 == readers[pairs[k].0])
      && (forall i :: 0 <= i < |readers| ==> (i, readers[i]) in pairs)
      && (forall k, l :: 0 <= k < l < |pairs| ==> pairs[k].1.hi >= pairs[l].1.hi)
  {
    hide Sort;
    var all, pairs := Enumerate(readers), NewestFirst(readers);
    SameElements(pairs, all);
    SortSorts(NewerFirst, all);
    forall k | 0 <= k < |pairs| ensures pairs[k].0 < |readers| && pairs[k].1 == readers[pairs[k].0] {
      assert pairs[k] in pairs && pairs[k] in all;
    }
    forall i | 0 <= i < |readers| ensures (i, readers[i]) in pairs {
      assert all[i] in all;
    }
    forall k, l | 0 <= k < l < |pairs| ensures pairs[k].1.hi >= pairs[l].1.hi {
      assert NewerFirst(pairs[k], pairs[l]);
    }
  }

  /** Inputs of one hi keep their order. */
  ghost predicate TiesKept(pairs: seq<Ranked>) {
    forall k, l :: 0 <= k < l < |pairs| && pairs[k].1.hi == pairs[l].1.hi ==> pairs[k].0 < pairs[l].0
  }

  lemma {:induction false} InsertKeepsTies(x: Ranked, s: seq<Ranked>)
    requires TiesKept(s) && forall k :: 0 <= k < |s| ==> s[k].0 < x.0
    ensures TiesKept(Insert(NewerFirst, x, s))
  {
    if |s| != 0 {
      var last, init := s[|s| - 1], s[..|s| - 1];
      if !NewerFirst(last, x) {
        InsertKeepsTies(x, init);
        var r := Insert(NewerFirst, x, init);
        SameElements(r, init + [x]);
        forall k | 0 <= k < |r| && r[k].1.hi == last.1.hi ensures r[k].0 < last.0 {
          assert r[k] in init + [x];
          var j :| 0 <= j < |init + [x]| && (init + [x])[j] == r[k];
          assert j < |init| && init[j] == s[j];
        }
      }
    }
  }

  lemma SortedIndexes(pairs: seq<Ranked>, n: nat)
    requires forall i :: 0 <= i < |pairs| ==> pairs[i].0 < n
    ensures forall k :: 0 <= k < |Sort(NewerFirst, pairs)| ==> Sort(NewerFirst, pairs)[k].0 < n
  {
    hide Sort;
    var sorted := Sort(NewerFirst, pairs);
    SameElements(sorted, pairs);
    forall k | 0 <= k < |sorted| ensures sorted[k].0 < n {
      assert sorted[k] in multiset(sorted);
      assert sorted[k] in multiset(pairs);
      var j :| 0 <= j < |pairs| && pairs[j] == sorted[k];
    }
  }

  lemma PushKeepsTies(init: seq<Ranked>, last: Ranked)
    requires TiesKept(Sort(NewerFirst, init)) && forall i :: 0 <= i < |init| ==> init[i].0 < last.0
    ensures TiesKept(Sort(NewerFirst, init + [last]))
  {
    hide TiesKept, Insert, Sort;
    SortedIndexes(init, last.0);
    InsertKeepsTies(last, Sort(NewerFirst, init));
    SortPush(NewerFirst, init, last);
  }

  lemma NoTies()
    ensures TiesKept(Sort(NewerFirst, []))
  {
  }

  lemma {:induction false} SortKeepsTies(pairs: seq<Ranked>)
    requires forall i :: 0 <= i < |pairs| ==> pairs[i].0 == i
    ensures TiesKept(Sort(NewerFirst, pairs))
  {
    hide TiesKept, Sort;
    if |pairs| == 0 {
      assert pairs == [];
      NoTies();
    } else {
      var last, init := pairs[|pairs| - 1], pairs[..|pairs| - 1];
      assert pairs == init + [last];
      SortKeepsTies(init);
      PushKeepsTies(init, last);
    }
  }

  /** Of inputs with the same hi the one that comes first in the job comes first. */
  lemma NewestFirstIsStable(readers: seq<Reader>)
    ensures TiesKept(NewestFirst(readers))
  {
    hide TiesKept, Sort;
    SortKeepsTies(Enumerate(readers));
  }

  /** The archetype table with its columns in the order of the sorted inputs. */
  method ReorderTable(table: ArchTable, pairs: seq<Ranked>, ghost readers: seq<Reader>, ghost sigs: seq<Signature>)
    returns (r: ArchTable)
    requires IsTable(readers, sigs, table)
    requires forall k :: 0 <= k < |pairs| ==> pairs[k].0 < |readers| && pairs[k].1 == readers[pairs[k].0]
    ensures IsTable(ReadersOf(pairs), sigs, r)
  {
    hide IsArchOf;
    r := [];
    for s := 0 to |table|
      invariant |r| == s && forall t :: 0 <= t < s ==> |r[t]| == |pairs|
      invariant forall t, k :: 0 <= t < s && 0 <= k < |pairs| ==> r[t][k] == table[t][pairs[k].0]
    {
      r := r + [seq(|pairs|, k requires 0 <= k < |pairs| => table[s][pairs[k].0])];
    }
    forall s, k | 0 <= s < |sigs| && 0 <= k < |pairs| ensures IsArchOf(ReadersOf(pairs)[k], sigs[s], r[s][k]) {
      assert IsArchOf(readers[pairs[k].0], sigs[s], table[s][pairs[k].0]);
    }
  }

  // ── The world the runs come from ───────────────────────────────────────────

  datatype Layout = Layout(kind: StorageKind, itemSize: u32)

  /** The component registry behind all runs: which signatures occur, and one layout for
      each component, few enough for the numbers of the file format. */
  datatype Universe = Universe(sigs: set<Signature>, layouts: map<Name, Layout>)

  ghost predicate UniverseOk(u: Universe) {
    && |u.sigs| <= SPARSE_ARCH_ID && |u.layouts.Keys| <= ALLOCATOR_SLOT
    && (forall sig :: sig in u.sigs ==> Ascending(sig))
    && forall sig, name :: sig in u.sigs && name in sig ==> name in u.layouts
  }

  ghost predicate LaidOutIn(u: Universe, schema: SchemaSection) {
    forall name {:trigger EntryNamed(schema, name)} :: EntryNamed(schema, name).Some? ==>
      name in u.layouts && u.layouts[name] == Layout(EntryNamed(schema, name).value.kind, EntryNamed(schema, name).value.itemSize)
  }

  /** A well-formed run of the universe. */
  ghost predicate RunIn(u: Universe, r: Reader) {
    && RunWf(r) && LaidOutIn(u, r.schema)
    && forall a :: a in ArchetypeIds(r) && SigOf(r, a).Some? ==> SigOf(r, a).value in u.sigs
  }

  ghost predicate DiskIn(u: Universe, disk: M.Disk) {
    forall p, r {:trigger Opens(disk[p], r)} :: p in disk && Opens(disk[p], r) ==> RunIn(u, r)
  }

  ghost predicate AllIn(u: Universe, readers: seq<Reader>) {
    forall i :: 0 <= i < |readers| ==> RunIn(u, readers[i])
  }

  lemma OpenedIn(u: Universe, disk: M.Disk, paths: seq<M.Path>, readers: seq<Reader>)
    requires DiskIn(u, disk) && OpenedAs(disk, paths, readers)
    ensures AllIn(u, readers)
  {
    hide RunIn, Opens;
    forall i | 0 <= i < |readers| ensures RunIn(u, readers[i]) {
      assert ReaderAt(disk, paths[i]) == Some(readers[i]);
    }
  }

  lemma UniverseLayoutsAgree(u: Universe, readers: seq<Reader>)
    requires AllIn(u, readers)
    ensures LayoutsAgree(readers)
  {
    hide RunWf, EntryNamed, SigOf, ArchetypeIds;
    forall i, j, name {:trigger EntryNamed(readers[i].schema, name), EntryNamed(readers[j].schema, name)} |
      0 <= i < |readers| && 0 <= j < |readers|
      && EntryNamed(readers[i].schema, name).Some? && EntryNamed(readers[j].schema, name).Some?
      ensures SameLayout(EntryNamed(readers[i].schema, name).value, EntryNamed(readers[j].schema, name).value)
    {
      assert RunIn(u, readers[i]) && RunIn(u, readers[j]);
    }
  }

  lemma UniverseSigsOk(u: Universe, sigs: seq<Signature>)
    requires UniverseOk(u) && NoDup(sigs) && forall sig :: sig in sigs ==> sig in u.sigs
    ensures SigsOk(sigs)
  {
    hide Ascending;
    SigSetSize(sigs);
    SubsetSize((set sig | sig in sigs), u.sigs);
    forall name | name in AllNames(sigs) ensures name in u.layouts.Keys {
      var s, i :| 0 <= s < |sigs| && 0 <= i < |sigs[s]| && sigs[s][i] == name;
      assert sigs[s] in sigs;
    }
    SubsetSize(AllNames(sigs), u.layouts.Keys);
  }

  lemma {:induction false} SigSetSize(sigs: seq<Signature>)
    requires NoDup(sigs)
    ensures |set sig | sig in sigs| == |sigs|
  {
    if |sigs| != 0 {
      var last, init := sigs[|sigs| - 1], sigs[..|sigs| - 1];
      SigSetSize(init);
      assert sigs == init + [last];
      assert (set sig | sig in sigs) == (set sig | sig in init) + {last};
      assert last !in init;
    }
  }

  // ── The job ────────────────────────────────────────────────────────────────

  /** The job's signatures are those of its inputs, each once. */
  ghost predicate Covers(readers: seq<Reader>, sigs: seq<Signature>) {
    && NoDup(sigs) && FromInputs(readers, sigs)
    && forall i, a :: 0 <= i < |readers| && a in ArchetypeIds(readers[i]) && SigOf(readers[i], a).Some? ==>
      SigOf(readers[i], a).value in sigs
  }

  lemma CoveredSigs(u: Universe, readers: seq<Reader>, sigs: seq<Signature>)
    requires AllIn(u, readers) && Covers(readers, sigs)
    ensures forall sig :: sig in sigs ==> sig in u.sigs
  {
    hide RunWf, LaidOutIn, SigOf, ArchetypeIds;
    forall sig | sig in sigs ensures sig in u.sigs {
      var s :| 0 <= s < |sigs| && sigs[s] == sig;
      assert SomeInputHas(readers, sigs[s]);
      var i, a :| 0 <= i < |readers| && a in ArchetypeIds(readers[i]) && SigOf(readers[i], a) == Some(sig);
      assert RunIn(u, readers[i]);
    }
  }

  /** Sorting the inputs changes neither what is covered nor where it is from. */
  lemma SortedCovers(readers: seq<Reader>, sigs: seq<Signature>)
    requires Covers(readers, sigs)
    ensures Covers(ReadersOf(NewestFirst(readers)), sigs)
  {
    NewestFirstIs(readers);
    hide SigOf, ArchetypeIds, NewestFirst;
    var pairs := NewestFirst(readers);
    var inputs := ReadersOf(pairs);
    forall s | 0 <= s < |sigs| ensures SomeInputHas(inputs, sigs[s]) {
      assert SomeInputHas(readers, sigs[s]);
      var i, a :| 0 <= i < |readers| && a in ArchetypeIds(readers[i]) && SigOf(readers[i], a) == Some(sigs[s]);
      assert (i, readers[i]) in pairs;
      var k :| 0 <= k < |pairs| && pairs[k] == (i, readers[i]);
      assert a in ArchetypeIds(inputs[k]);
    }
  }

  lemma SortedIn(u: Universe, readers: seq<Reader>)
    requires AllIn(u, readers)
    ensures AllIn(u, ReadersOf(NewestFirst(readers)))
  {
    hide RunIn, NewestFirst;
    NewestFirstIs(readers);
  }

  lemma JobIsWf(u: Universe, inputs: seq<Reader>, sigs: seq<Signature>, table: ArchTable)
    requires UniverseOk(u) && AllIn(u, inputs) && Covers(inputs, sigs) && IsTable(inputs, sigs, table)
    ensures JobWf(inputs, sigs, table)
  {
    CoveredSigs(u, inputs, sigs);
    CoversResolves(inputs, sigs, table);
    UniverseSigsOk(u, sigs);
    UniverseLayoutsAgree(u, inputs);
    RunsAreWf(u, inputs);
    hide RunWf, LayoutsAgree, SigsOk, FromInputs, UniverseOk, AllIn, Covers, IsTable, Resolved;
  }

  lemma CoversResolves(inputs: seq<Reader>, sigs: seq<Signature>, table: ArchTable)
    requires Covers(inputs, sigs) && IsTable(inputs, sigs, table)
    ensures Resolved(inputs, sigs, table) && FromInputs(inputs, sigs) && NoDup(sigs)
  {
    hide IsArchOf, SigOf, ArchetypeIds, SomeInputHas;
  }

  lemma RunsAreWf(u: Universe, inputs: seq<Reader>)
    requires AllIn(u, inputs)
    ensures forall i :: 0 <= i < |inputs| ==> RunWf(inputs[i])
  {
    hide RunWf, LaidOutIn;
    assert forall i :: 0 <= i < |inputs| ==> RunIn(u, inputs[i]);
  }

  // ── Writing the output ─────────────────────────────────────────────────────

  /** The inputs in the order the merge takes them. */
  function Inputs(readers: seq<Reader>): seq<Reader> { ReadersOf(NewestFirst(readers)) }

  /** `out` is the compaction of the job's runs, newest first, over their whole range. */
  ghost predicate CompactedFrom(disk: M.Disk, job: Job, readers: seq<Reader>, table: ArchTable, out: Reader) {
    && OpenedAs(disk, job.paths, readers) && IsTable(Inputs(readers), job.sigs, table)
    && IsSpan(readers, out.lo, out.hi) && IsCompaction(Inputs(readers), table, job.sigs, out)
  }

  datatype Output = Output(path: M.Path, file: bytes, meta: M.SortedRunMeta)

  /** The output file opens as the compaction, and is described and named as it. */
  ghost predicate OutputIs(disk: M.Disk, job: Job, dir: M.Path, o: Output, out: Reader) {
    && (exists readers, table :: CompactedFrom(disk, job, readers, table, out))
    && Opens(o.file, out) && o.path == OutputPath(dir, out.lo, out.hi) && Describes(o.meta, o.path, o.file, out)
  }

  datatype Preparation = Ready(output: Output) | Unopened | Refused | Failed

  ghost predicate JobRefused(disk: M.Disk, job: Job) {
    exists readers, table :: OpenedAs(disk, job.paths, readers) && IsTable(Inputs(readers), job.sigs, table)
      && Refusable(Inputs(readers), table, job.sigs)
  }

  ghost predicate JobUnwritable(disk: M.Disk, job: Job) {
    exists readers, table :: OpenedAs(disk, job.paths, readers) && IsTable(Inputs(readers), job.sigs, table)
      && Unwritable(Inputs(readers), table, job.sigs)
  }

  /** The disk and the job determine readers and table. */
  lemma OneJobTable(disk: M.Disk, job: Job, readers: seq<Reader>, table: ArchTable, readers': seq<Reader>,
                    table': ArchTable)
    requires OpenedAs(disk, job.paths, readers) && IsTable(Inputs(readers), job.sigs, table)
    requires OpenedAs(disk, job.paths, readers') && IsTable(Inputs(readers'), job.sigs, table')
    ensures readers == readers' && table == table'
  {
    hide Opens, SigOf, ArchetypeIds, NewestFirst;
    forall i | 0 <= i < |readers| ensures readers[i] == readers'[i] {
      assert ReaderAt(disk, job.paths[i]) == Some(readers[i]) && ReaderAt(disk, job.paths[i]) == Some(readers'[i]);
    }
    assert readers == readers';
    var inputs := Inputs(readers);
    forall s, i | 0 <= s < |table| && 0 <= i < |inputs| ensures table[s][i] == table'[s][i] {
      OneArchOf(inputs[i], job.sigs[s], table[s][i], table'[s][i]);
    }
    forall s | 0 <= s < |table| ensures table[s] == table'[s] {
    }
  }

  lemma OneArchOf(r: Reader, sig: Signature, a: Option<u16>, b: Option<u16>)
    requires IsArchOf(r, sig, a) && IsArchOf(r, sig, b)
    ensures a == b
  {
    hide SigOf, ArchetypeIds;
  }

  lemma OpenedRange(disk: M.Disk, paths: seq<M.Path>, readers: seq<Reader>, lo: u64, hi: u64)
    requires OpenedAs(disk, paths, readers) && IsSpan(readers, lo, hi)
    ensures lo <= hi
  {
    hide Opens;
    var i :| 0 <= i < |readers| && readers[i].lo == lo;
    assert ReaderAt(disk, paths[i]) == Some(readers[i]);
    OpensRange(disk[paths[i]], readers[i]);
  }

  lemma OpensRange(file: bytes, r: Reader)
    requires Opens(file, r)
    ensures r.lo <= r.hi
  {
    hide HeaderReads, FooterReads, SchemaAt, IndexReads, Read32, Unsigned;
    var h, f :| Parses(file, h, f, r);
  }

  lemma InputsAreOk(u: Universe, readers: seq<Reader>)
    requires AllIn(u, readers)
    ensures InputsOk(Inputs(readers)) && |Inputs(readers)| == |readers|
  {
    SortedIn(u, readers);
    RunsAreWf(u, Inputs(readers));
    NewestFirstIs(readers);
    hide AllIn, NewestFirst, Mergeable, Indexed, Writable, RunMeaning.Named, EntitiesReadable, OneRow;
  }

  /** execute_compaction up to the finished output file. */
  method WriteOutput(disk: M.Disk, job: Job, dir: M.Path, ghost u: Universe) returns (r: Preparation)
    requires UniverseOk(u) && DiskIn(u, disk) && NoDup(job.sigs) && forall sig :: sig in job.sigs ==> sig in u.sigs
    ensures r.Ready? ==> (exists out :: OutputIs(disk, job, dir, r.output, out)) && !JobRefused(disk, job)
    ensures r.Unopened? ==> |job.paths| == 0 || exists i :: 0 <= i < |job.paths| && ReaderAt(disk, job.paths[i]).None?
    ensures r.Refused? ==> JobRefused(disk, job)
    ensures r.Failed? ==> JobUnwritable(disk, job)
  {
    hide UniverseOk, DiskIn, Opens, ReaderAt, IsTable, NewestFirst, InputsOk, SigsOk, Refusable, IsCompaction,
      Describes, IsSpan, OpenedAs, OutputPath, Unwritable;
    var all := OpenAll(disk, job.paths);
    if all.None? {
      return Unopened;
    }
    var readers := all.value;
    OpenedLength(disk, job.paths, readers);
    if |readers| == 0 {
      return Unopened;
    }
    OpenedIn(u, disk, job.paths, readers);
    var table := ResolveArchetypes(readers, job.sigs);
    var lo, hi := Span(readers);
    OpenedRange(disk, job.paths, readers, lo, hi);
    var path := OutputPath(dir, lo, hi);
    NewestFirstIs(readers);
    var pairs := NewestFirst(readers);
    var sorted := ReorderTable(table, pairs, readers, job.sigs);
    InputsAreOk(u, readers);
    UniverseSigsOk(u, job.sigs);
    var w := WriteRun(ReadersOf(pairs), sorted, job.sigs, path, lo, hi);
    match w
    case Refused => return Preparation.Refused;
    case Failed => return Preparation.Failed;
    case Written(file, meta) =>
      ghost var out :| Opens(file, out) && WrittenReader(ReadersOf(pairs), sorted, job.sigs, w, path, lo, hi, out);
      forall others, t | OpenedAs(disk, job.paths, others) && IsTable(Inputs(others), job.sigs, t)
        ensures others == readers && t == sorted
      {
        OneJobTable(disk, job, readers, sorted, others, t);
      }
      assert CompactedFrom(disk, job, readers, sorted, out);
      assert OutputIs(disk, job, dir, Output(path, file, meta), out);
      return Ready(Output(path, file, meta));
  }

  lemma OpenedLength(disk: M.Disk, paths: seq<M.Path>, readers: seq<Reader>)
    requires OpenedAs(disk, paths, readers)
    ensures |readers| == |paths|
  {
  }

  // ── What the output means ──────────────────────────────────────────────────

  /** A job is refused if and only if it is empty or huge or the row chosen for some entity
      lacks a cell. */
  lemma JobRefusedIff(u: Universe, disk: M.Disk, job: Job, readers: seq<Reader>, table: ArchTable)
    requires UniverseOk(u) && DiskIn(u, disk) && Covers(readers, job.sigs)
    requires OpenedAs(disk, job.paths, readers) && IsTable(Inputs(readers), job.sigs, table)
    ensures JobRefused(disk, job) <==> EmptyOrHuge(Inputs(readers), job.sigs, table) || CellLacking(Inputs(readers))
  {
    hide UniverseOk, DiskIn, Covers, IsTable, OpenedAs, Inputs, AllIn, JobWf, EmptyOrHuge, CellLacking, Refusable;
    OpenedIn(u, disk, job.paths, readers);
    SortedJob(u, readers, job.sigs);
    JobIsWf(u, Inputs(readers), job.sigs, table);
    RefusedIff(Inputs(readers), job.sigs, table);
    forall others, t | OpenedAs(disk, job.paths, others) && IsTable(Inputs(others), job.sigs, t)
      ensures others == readers && t == table
    {
      OneJobTable(disk, job, readers, table, others, t);
    }
  }

  /** The output of a job that covers its inputs is well-formed and complete, and lookup
      in it is newest-wins lookup over the inputs for every entity whose newest row is
      not behind. */
  lemma OutputMeaning(u: Universe, disk: M.Disk, job: Job, readers: seq<Reader>, table: ArchTable, out: Reader)
    requires UniverseOk(u) && DiskIn(u, disk) && Covers(readers, job.sigs)
    requires CompactedFrom(disk, job, readers, table, out)
    ensures RunWf(out) && Populated(out) && Complete(out) && DistinctSigs(out)
    ensures forall e, img :: !Behind(Inputs(readers), e) ==> (ImageIn(out, e, img) <==> StoreImage(Inputs(readers), e, img))
    ensures JobWf(Inputs(readers), job.sigs, table)
  {
    hide UniverseOk, DiskIn, Covers, IsTable, OpenedAs, RunWf, IsCompaction, Inputs, AllIn, JobWf, IsSpan, ImageIn,
      StoreImage, Behind, Populated, Complete, DistinctSigs;
    OpenedIn(u, disk, job.paths, readers);
    SortedJob(u, readers, job.sigs);
    JobIsWf(u, Inputs(readers), job.sigs, table);
    CompactionIsWellFormed(Inputs(readers), job.sigs, table, out);
    forall e, img | !Behind(Inputs(readers), e) ensures ImageIn(out, e, img) <==> StoreImage(Inputs(readers), e, img) {
      CompactionPreservesMeaning(Inputs(readers), job.sigs, table, out, e, img);
    }
  }

  lemma SortedJob(u: Universe, readers: seq<Reader>, sigs: seq<Signature>)
    requires AllIn(u, readers) && Covers(readers, sigs)
    ensures AllIn(u, Inputs(readers)) && Covers(Inputs(readers), sigs)
  {
    hide AllIn, Covers;
    SortedIn(u, readers);
    SortedCovers(readers, sigs);
  }

  /** The signatures of the output are the job's, and its layouts those of its inputs. */
  lemma OutputInUniverse(u: Universe, inputs: seq<Reader>, sigs: seq<Signature>, table: ArchTable, out: Reader)
    requires AllIn(u, inputs) && JobWf(inputs, sigs, table) && IsCompaction(inputs, table, sigs, out)
    requires forall sig :: sig in sigs ==> sig in u.sigs
    ensures RunIn(u, out)
  {
    CompactionIsWellFormed(inputs, sigs, table, out);
    var plan := CompactionIsDone(inputs, sigs, table, out);
    DoneParts(plan, out);
    OutputLayouts(u, plan, out);
    OutputSigs(u, plan, out);
    hide RunWf, Done, JobWf, IsPlan, IsCompaction, PlanOk, IsMerge, IsOutputSchema, SigOf, ArchetypeIds, LaidOutIn,
      AllIn, SchemaOk;
  }

  lemma OutputSigs(u: Universe, plan: Plan, out: Reader)
    requires Done(plan, out) && forall sig :: sig in plan.sigs ==> sig in u.sigs
    ensures forall a :: a in ArchetypeIds(out) && SigOf(out, a).Some? ==> SigOf(out, a).value in u.sigs
  {
    hide Done, SigOf, ArchetypeIds;
    forall a | a in ArchetypeIds(out) && SigOf(out, a).Some? ensures SigOf(out, a).value in u.sigs {
      OutputArchetypeIs(plan, out, a);
    }
  }

  lemma OutputLayouts(u: Universe, plan: Plan, out: Reader)
    requires AllIn(u, plan.inputs) && out.schema == plan.schema && IsOutputSchema(plan.inputs, plan.sigs, plan.schema)
    ensures LaidOutIn(u, out.schema)
  {
    hide RunWf, FirstLayout, Ascending, SigOf, ArchetypeIds, InSome;
    forall name {:trigger EntryNamed(out.schema, name)} | EntryNamed(out.schema, name).Some?
      ensures name in u.layouts
        && u.layouts[name] == Layout(EntryNamed(out.schema, name).value.kind, EntryNamed(out.schema, name).value.itemSize)
    {
      var slot := out.schema.slots[name];
      assert out.schema.entries[slot].name == name;
      var i := FirstLayoutFrom(plan.inputs, name);
      assert RunIn(u, plan.inputs[i]);
      assert EntryNamed(plan.inputs[i].schema, name).Some?;
    }
  }
}
