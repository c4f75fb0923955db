/** Every job that is neither refused nor too big has an output file. */
module CompactionFile {
  import opened Bytes
  import opened Bloom
  import opened Order
  import opened Schema
  import opened SchemaCodec
  import opened RunFormat
  import opened RunReader
  import opened RunFile
  import opened Merge
  import opened CompactionPlan
  import opened CompactionWriter
  import opened RunAgreement
  import opened Carry
  import opened OutputSchema
  import opened CompactRun
  import opened Archetypes
  import opened RunMeaning
  import opened OutputRun
  import opened CompactionMeaning
  import opened CompactionClosed
  import opened Picker
  import opened OutputNames
  import opened Executor
  import M = Manifest

  // ── The dense pages of a plan ──────────────────────────────────────────────

  /** Where no cell is missing and none too large, every wanted key has its page. */
  lemma PageExists(plan: Plan, key: Key) returns (page: OutPage)
    requires PlanOk(plan) && SchemaOk(plan.schema) && !NoPages(plan) && Wanted(plan, key)
    ensures page.key == key && RightPage(plan, page)
  {
    hide SourceCell, EmitOk, Ascending, SlotOfSig, CellMissing, Oversized, EntityPage, ColumnPage;
    var rows := RowsOfPage(plan.lists[key.arch], key.page);
    RowsOfPageOk(plan, key.arch, key.page);
    if key.slot == ENTITY_SLOT {
      page := EntityPage(key, rows);
      PageKeys(key, rows);
    } else {
      page := ColumnExists(plan, key, rows);
    }
  }

  lemma PageKeys(key: Key, rows: seq<EmitRow>)
    requires |rows| < 0x1_0000
    ensures EntityPage(key, rows).key == key
  {
  }

  lemma ColumnExists(plan: Plan, key: Key, rows: seq<EmitRow>) returns (page: OutPage)
    requires PlanOk(plan) && SchemaOk(plan.schema) && !NoPages(plan) && Wanted(plan, key) && key.slot != ENTITY_SLOT
    requires rows == RowsOfPage(plan.lists[key.arch], key.page)
    ensures page.key == key && RightPage(plan, page)
  {
    hide SourceCell, EmitOk, Ascending, CellsFit, RowsOfPage;
    SlotHasEntry(plan, key.arch, key.slot);
    var entry := plan.schema.EntryFor(key.slot).value;
    assert |rows| <= PAGE_SIZE by { RowsOfPageOk(plan, key.arch, key.page); }
    forall k | 0 <= k < |rows| ensures SourceCell(plan, key.arch, entry, rows[k]).Some? {
      if SourceCell(plan, key.arch, entry, rows[k]).None? {
        MissingCell(plan, key.arch, key.slot, key.page, k);
      }
    }
    hide SlotOfSig;
    var cells := seq(|rows|, k requires 0 <= k < |rows| => SourceCell(plan, key.arch, entry, rows[k]).value);
    assert CellsAre(plan, key.arch, entry, rows, cells);
    assert PageCells(plan, key.arch, key.slot, key.page, cells);
    page := ColumnPage(key, entry, cells);
  }

  lemma SlotHasEntry(plan: Plan, s: nat, slot: u16)
    requires SchemaOk(plan.schema) && s < |plan.sigs| && SlotOfSig(plan, s, slot)
    ensures plan.schema.EntryFor(slot).Some?
  {
    hide Ascending;
  }

  ghost predicate Makeable(plan: Plan) {
    PlanOk(plan) && SchemaOk(plan.schema) && !NoPages(plan) && |plan.sigs| <= SPARSE_ARCH_ID
  }

  /** All pages of one slot, page number by page number. */
  lemma SlotPagesExist(plan: Plan, pages: seq<OutPage>, a: u16, s: u16) returns (more: seq<OutPage>)
    requires Makeable(plan) && WrittenUpTo(plan, pages, a, s, 0)
    ensures WrittenUpTo(plan, more, a, s + 1, 0)
  {
    MakeableIs(plan);
    hide Makeable, PlanOk, RightPage, NoPages, Wanted, WrittenUpTo;
    more := pages;
    for p := 0 to 0x1_0000
      invariant WrittenUpTo(plan, more, a, s, p)
    {
      var key := Key(a, s, p);
      if Wanted(plan, key) {
        var page := PageExists(plan, key);
        WritePage(plan, more, page);
        more := more + [page];
      } else {
        SkipPages(plan, more, a, s, p, a, s, p + 1);
      }
    }
    SkipPages(plan, more, a, s, 0x1_0000, a, s + 1, 0);
  }

  lemma MakeableIs(plan: Plan)
    requires Makeable(plan)
    ensures PlanOk(plan) && SchemaOk(plan.schema) && !NoPages(plan) && |plan.sigs| <= SPARSE_ARCH_ID
    ensures |plan.lists| == |plan.sigs|
  {
    hide NoPages, SchemaOk, EmitOk;
  }

  lemma DenseExists(plan: Plan) returns (dense: seq<OutPage>)
    requires Makeable(plan)
    ensures WrittenUpTo(plan, dense, |plan.sigs|, 0, 0)
  {
    MakeableIs(plan);
    NothingWritten(plan);
    hide Makeable, PlanOk, RightPage, NoPages, Wanted, WrittenUpTo;
    dense := [];
    for a := 0 to |plan.sigs|
      invariant WrittenUpTo(plan, dense, a, 0, 0)
    {
      for s := 0 to 0x1_0000
        invariant WrittenUpTo(plan, dense, a, s, 0)
      {
        dense := SlotPagesExist(plan, dense, a, s);
      }
      SkipPages(plan, dense, a, 0x1_0000, 0, a + 1, 0, 0);
    }
  }

  lemma NothingWritten(plan: Plan)
    requires PlanOk(plan)
    ensures WrittenUpTo(plan, [], 0, 0, 0)
  {
    hide PlanOk, RightPage, Wanted;
  }

  // ── The pages carried ──────────────────────────────────────────────────────

  lemma AllocatorExists(r: Reader) returns (pages: seq<OutPage>)
    requires AllocatorUsable(r)
    ensures AllocatorCarried(r, pages)
  {
    hide AllocatorScan, ValidCrc;
    var scan := AllocatorScan(r).value;
    forall i | 0 <= i < |scan| ensures |scan[i].1.data| < 0x1_0000 {
      AllocatorLength(r, i);
    }
    pages := seq(|scan|, i requires 0 <= i < |scan| => Verbatim(Key(META_ARCH_ID, ALLOCATOR_SLOT, i), scan[i].1.data));
  }

  lemma SparseSlotExists(r: Reader, pages: seq<OutPage>, slot: u16) returns (more: seq<OutPage>)
    requires SparseUsable(r) && slot != ENTITY_SLOT && SparseUpTo(r, pages, slot, 0)
    ensures SparseUpTo(r, more, slot + 1, 0)
  {
    hide PageOf, SparseUpTo, ValidCrc;
    more := pages;
    for p := 0 to 0x1_0000
      invariant SparseUpTo(r, more, slot, p)
    {
      var key := Key(SPARSE_ARCH_ID, slot, p);
      if PageOf(r, key).Absent? {
        SparseSkip(r, more, slot, p, slot, p + 1);
      } else {
        SparseLength(r, key);
        var page := Verbatim(key, PageOf(r, key).page.data);
        SparseNext(r, more, page, slot, p);
        more := more + [page];
      }
    }
    SparseSkip(r, more, slot, 0x1_0000, slot + 1, 0);
  }

  lemma SparseExists(r: Reader) returns (pages: seq<OutPage>)
    requires SparseUsable(r)
    ensures SparseCarried(r, pages)
  {
    SparseStart(r);
    hide PageOf, SparseUpTo, SparseUsable;
    pages := [];
    for slot := 0 to ENTITY_SLOT
      invariant SparseUpTo(r, pages, slot, 0)
    {
      pages := SparseSlotExists(r, pages, slot);
    }
  }

  lemma CarriedExists(r: Reader) returns (carried: seq<OutPage>)
    requires AllocatorUsable(r) && SparseUsable(r)
    ensures IsCarried(r, carried)
  {
    hide AllocatorUsable, SparseUsable, AllocatorCarried, SparseCarried;
    var a := AllocatorExists(r);
    var b := SparseExists(r);
    carried := a + b;
  }

  // ── The output ─────────────────────────────────────────────────────────────

  lemma {:induction false} NewestInput(inputs: seq<Reader>) returns (k: nat)
    requires |inputs| > 0
    ensures IsNewest(inputs, k)
  {
    k := 0;
    if |inputs| > 1 {
      var init, last := inputs[..|inputs| - 1], |inputs| - 1;
      k := NewestInput(init);
      assert forall i :: 0 <= i < last ==> init[i] == inputs[i];
      if inputs[k].hi <= inputs[last].hi { k := last; }
    }
  }

  /** What a job that is not refused has. */
  lemma NotRefused(inputs: seq<Reader>, sigs: seq<Signature>, table: ArchTable) returns (plan: Plan, newest: nat)
    requires JobWf(inputs, sigs, table) && !Refusable(inputs, table, sigs)
    ensures plan.inputs == inputs && plan.sigs == sigs && plan.table == table && IsPlan(plan) && PlanOk(plan)
    ensures !NoPages(plan) && !TooMany(plan) && exists s :: 0 <= s < |plan.lists| && plan.lists[s] != []
    ensures IsNewest(inputs, newest) && AllocatorUsable(inputs[newest]) && SparseUsable(inputs[newest])
  {
    plan := JobPlan(inputs, sigs, table);
    hide JobWf, Readable, NoSchema, AllocatorUsable, SparseUsable, IsMerge, IsOutputSchema, PlanOk, NoPages, TooMany,
      TableShaped, IsNewest;
    assert plan == Plan(inputs, table, sigs, plan.lists, plan.schema);
    assert !RefusedLists(inputs, table, sigs, plan.lists);
    assert !PlanRefused(plan);
    MergeHasInputs(inputs, table, plan.lists);
    newest := NewestInput(inputs);
    assert !NothingToCarry(inputs);
  }

  lemma JobSigs(inputs: seq<Reader>, sigs: seq<Signature>, table: ArchTable)
    requires JobWf(inputs, sigs, table)
    ensures |sigs| <= SPARSE_ARCH_ID && |AllNames(sigs)| <= ALLOCATOR_SLOT && NoDup(sigs)
    ensures forall s :: 0 <= s < |sigs| ==> Ascending(sigs[s])
    ensures forall i :: 0 <= i < |inputs| ==> Writable(inputs[i].schema)
  {
    assert Resolved(inputs, sigs, table) && SigsOk(sigs);
    forall i | 0 <= i < |inputs| ensures Writable(inputs[i].schema) {
      JobRun(inputs, sigs, table, i);
      RunWritable(inputs[i]);
    }
    hide JobWf, Writable, Ascending, IsArchOf, ArchetypeIds, SigOf;
  }

  lemma RunWritable(r: Reader)
    requires RunWf(r)
    ensures Writable(r.schema) && Indexed(r) && Mergeable(r)
  {
    hide Writable, Indexed, Mergeable;
  }

  lemma PlanSchema(plan: Plan)
    requires IsPlan(plan)
    ensures SchemaOk(plan.schema) && IsOutputSchema(plan.inputs, plan.sigs, plan.schema)
  {
    hide IsMerge, SchemaOk, LayoutOk, InSome;
  }

  /** The pages of the output, when nothing stands against it. */
  lemma OutputPages(plan: Plan, newest: nat) returns (dense: seq<OutPage>, carried: seq<OutPage>)
    requires IsPlan(plan) && PlanOk(plan) && !NoPages(plan) && |plan.sigs| <= SPARSE_ARCH_ID
    requires newest < |plan.inputs| && AllocatorUsable(plan.inputs[newest]) && SparseUsable(plan.inputs[newest])
    requires exists s :: 0 <= s < |plan.lists| && plan.lists[s] != []
    ensures WrittenUpTo(plan, dense, |plan.sigs|, 0, 0) && IsCarried(plan.inputs[newest], carried) && |dense| > 0
  {
    PlanSchema(plan);
    hide IsPlan, PlanOk, NoPages, AllocatorUsable, SparseUsable, SchemaOk, IsCarried, IsOutputSchema;
    dense := DenseExists(plan);
    carried := CarriedExists(plan.inputs[newest]);
    PlanLists(plan);
    var s: nat :| s < |plan.lists| && plan.lists[s] != [];
    FirstIsWritten(plan, dense, s);
  }

  lemma PlanLists(plan: Plan)
    requires PlanOk(plan)
    ensures |plan.lists| == |plan.sigs|
  {
    hide EmitOk;
  }

  lemma FirstIsWritten(plan: Plan, dense: seq<OutPage>, s: u16)
    requires PlanOk(plan) && WrittenUpTo(plan, dense, |plan.sigs|, 0, 0)
    requires s < |plan.lists| && plan.lists[s] != []
    ensures |dense| > 0
  {
    FirstWanted(plan, s);
    PlanLists(plan);
    hide PlanOk, RightPage, Wanted;
    assert HasPage(dense, Key(s, ENTITY_SLOT, 0));
  }

  /** A file for the pages of a plan opens as its compaction. */
  lemma PagesCompact(plan: Plan, newest: nat, dense: seq<OutPage>, carried: seq<OutPage>, lo: u64, hi: u64)
    returns (file: bytes, out: Reader)
    requires IsPlan(plan) && PlanOk(plan) && !TooMany(plan) && IsNewest(plan.inputs, newest) && lo <= hi
    requires WrittenUpTo(plan, dense, |plan.sigs|, 0, 0) && IsCarried(plan.inputs[newest], carried) && |dense| > 0
    requires Writable(plan.schema) && |plan.schema.entries| <= ALLOCATOR_SLOT && |plan.sigs| <= SPARSE_ARCH_ID
    requires !TooBigFor(plan.schema, dense + carried)
    ensures Opens(file, out) && |file| < TOO_LONG && Compacts(plan, newest, dense + carried, out)
    ensures out.lo == lo && out.hi == hi && out.pageCount > 0
  {
    AllPagesAgree(plan, plan.inputs[newest], dense, carried);
    hide IsPlan, PlanOk, TooMany, WrittenUpTo, IsCarried, Writable, LengthAgrees, DistinctPages, TooBigFor, Compacts,
      Opens, FileOf, PartsOk, FileOfPages, Filtered, IndexFilter, CommonFingerprint, IsNewest;
    var p := PartsExist(plan.schema, dense + carried, lo, hi, CommonFingerprint(plan.inputs));
    LaidCompacts(plan, newest, dense, carried, p);
    file, out := FileOf(p), ReaderOf(p);
  }

  lemma NotTooBig(plan: Plan, newest: Reader, dense: seq<OutPage>, carried: seq<OutPage>)
    requires PlanOk(plan) && WrittenUpTo(plan, dense, |plan.sigs|, 0, 0) && IsCarried(newest, carried) && !TooBig(plan, newest)
    ensures !TooBigFor(plan.schema, dense + carried)
  {
    hide PlanOk, WrittenUpTo, IsCarried, TooBigFor, DensePages;
    assert Partly(plan, dense);
    DensePartly(plan, newest, dense, carried, |carried|);
    assert carried[..|carried|] == carried;
  }

  /** Every well-formed job that is neither refused nor too big has an output, of any
      sequence range. */
  lemma CompactionExists(inputs: seq<Reader>, sigs: seq<Signature>, table: ArchTable, lo: u64, hi: u64)
    returns (file: bytes, out: Reader)
    requires JobWf(inputs, sigs, table) && !Refusable(inputs, table, sigs) && !Unwritable(inputs, table, sigs) && lo <= hi
    ensures Opens(file, out) && |file| < TOO_LONG && IsCompaction(inputs, table, sigs, out)
    ensures out.lo == lo && out.hi == hi && out.pageCount > 0
  {
    hide JobWf, Refusable, IsPlan, PlanOk, NoPages, TooMany, IsNewest, AllocatorUsable, SparseUsable, WrittenUpTo,
      IsCarried, Writable, Opens, Compacts, Ascending, TooBig, TooBigFor;
    var plan, newest := NotRefused(inputs, sigs, table);
    JobSigs(inputs, sigs, table);
    PlanSchema(plan);
    hide SchemaOk, IsOutputSchema;
    OutputSchemaOk(inputs, sigs, plan.schema);
    NewestIndex(inputs, newest);
    assert !TooBig(plan, inputs[newest]);
    var dense, carried := OutputPages(plan, newest);
    NotTooBig(plan, inputs[newest], dense, carried);
    file, out := PagesCompact(plan, newest, dense, carried, lo, hi);
  }

  lemma NewestIndex(inputs: seq<Reader>, k: nat)
    requires IsNewest(inputs, k)
    ensures k < |inputs|
  {
  }

  // ── The output of a job ────────────────────────────────────────────────────

  lemma CoverageExists(out: Reader) returns (coverage: seq<u16>)
    ensures M.StrictlyAscending(coverage)
    ensures forall s: u16 :: s in coverage <==> s < SPARSE_ARCH_ID && PageOf(out, Key(s, ENTITY_SLOT, 0)).Found?
  {
    hide PageOf;
    coverage := [];
    for s := 0 to SPARSE_ARCH_ID
      invariant M.StrictlyAscending(coverage)
      invariant forall t: u16 :: t in coverage <==> t < s && PageOf(out, Key(t, ENTITY_SLOT, 0)).Found?
    {
      if PageOf(out, Key(s, ENTITY_SLOT, 0)).Found? {
        assert |coverage| > 0 ==> coverage[|coverage| - 1] in coverage;
        coverage := coverage + [s];
      }
    }
  }

  lemma {:induction false} SpanExists(readers: seq<Reader>) returns (lo: u64, hi: u64)
    requires |readers| > 0
    ensures IsSpan(readers, lo, hi)
  {
    var last := |readers| - 1;
    lo, hi := readers[last].lo, readers[last].hi;
    if last > 0 {
      var l, h := SpanExists(readers[..last]);
      assert forall i :: 0 <= i < last ==> readers[..last][i] == readers[i];
      if l < lo { lo := l; }
      if h > hi { hi := h; }
    }
  }

  /** The readers and the table of a job, and that it is neither refused nor too big. */
  ghost predicate Runnable(disk: M.Disk, job: Job, readers: seq<Reader>, table: ArchTable) {
    && |readers| > 0 && OpenedAs(disk, job.paths, readers) && Covers(readers, job.sigs)
    && IsTable(Inputs(readers), job.sigs, table)
    && !Refusable(Inputs(readers), table, job.sigs) && !Unwritable(Inputs(readers), table, job.sigs)
  }

  /** Every job of the universe that is neither refused nor too big has an output. */
  lemma OutputExists(u: Universe, disk: M.Disk, job: Job, dir: M.Path, readers: seq<Reader>, table: ArchTable)
    returns (o: Output, out: Reader)
    requires UniverseOk(u) && DiskIn(u, disk) && Runnable(disk, job, readers, table)
    ensures OutputIs(disk, job, dir, o, out)
  {
    hide UniverseOk, DiskIn, Refusable, Unwritable, IsCompaction, Opens, Inputs, JobWf, AllIn, Covers, IsTable,
      OpenedAs, PageOf, OutputPath, IsSpan;
    OpenedIn(u, disk, job.paths, readers);
    SortedJob(u, readers, job.sigs);
    JobIsWf(u, Inputs(readers), job.sigs, table);
    var lo, hi := SpanExists(readers);
    OpenedRange(disk, job.paths, readers, lo, hi);
    var file;
    file, out := CompactionExists(Inputs(readers), job.sigs, table, lo, hi);
    var coverage := CoverageExists(out);
    var path := OutputPath(dir, lo, hi);
    o := Output(path, file, M.RunMeta(path, lo, hi, coverage, out.pageCount, |file|));
    assert CompactedFrom(disk, job, readers, table, out);
    assert Describes(o.meta, path, file, out);
  }

  // ── Small runs ─────────────────────────────────────────────────────────────

  /** Raw columns of small cells, entity ids that 16 bits hold, few sparse pages. */
  ghost predicate Modest(r: Reader) {
    && (forall name {:trigger EntryNamed(r.schema, name)} :: EntryNamed(r.schema, name).Some? ==>
      EntryNamed(r.schema, name).value.kind.RawCopy? && EntryNamed(r.schema, name).value.itemSize <= 0x1_0000)
    && (forall arch, row, e :: IsRow(r, arch, row, e) ==> e < 0x1_0000)
    && forall key: Key {:trigger PageOf(r, key)} :: SparseKey(key) && !PageOf(r, key).Absent? ==> key.slot < 0x100 && key.page < 0x100
  }

  ghost predicate AllModest(runs: seq<Reader>) { forall i :: 0 <= i < |runs| ==> Modest(runs[i]) }

  lemma {:induction false} AscendingCount(rows: seq<EmitRow>, n: nat)
    requires AscendingRows(rows) && forall k :: 0 <= k < |rows| ==> rows[k].entity < n
    ensures |rows| <= n
  {
    if |rows| != 0 {
      var last := |rows| - 1;
      AscendingCount(rows[..last], rows[last].entity);
    }
  }

  lemma EmittedIsModest(plan: Plan, s: nat, k: nat)
    requires AllModest(plan.inputs) && JobWf(plan.inputs, plan.sigs, plan.table) && IsPlan(plan)
    requires s < |plan.lists| && k < |plan.lists[s]|
    ensures plan.lists[s][k].entity < 0x1_0000
  {
    hide JobWf, IsPlan, IsRow, RunWf, Chosen, SigOf, PageOf, EntryNamed;
    SourceRow(plan, s, k);
    assert Modest(plan.inputs[plan.lists[s][k].input]);
  }

  lemma ListIsShort(plan: Plan, s: nat)
    requires AllModest(plan.inputs) && JobWf(plan.inputs, plan.sigs, plan.table) && IsPlan(plan) && s < |plan.lists|
    ensures |plan.lists[s]| <= 0x1_0000
  {
    hide JobWf, IsPlan, AllModest, Resolved, IsOutputSchema, AllWf, Newest, Emitted;
    PlanParts(plan);
    forall k | 0 <= k < |plan.lists[s]| ensures plan.lists[s][k].entity < 0x1_0000 {
      EmittedIsModest(plan, s, k);
    }
    AscendingCount(plan.lists[s], 0x1_0000);
  }

  lemma LayoutIsSmall(plan: Plan, slot: u16)
    requires AllModest(plan.inputs) && IsOutputSchema(plan.inputs, plan.sigs, plan.schema) && plan.schema.EntryFor(slot).Some?
    ensures plan.schema.EntryFor(slot).value.kind.RawCopy? && plan.schema.EntryFor(slot).value.itemSize <= 0x1_0000
  {
    hide SchemaOk, InSome, FirstLayout, PowerOfTwo, IsRow, PageOf;
    var name := plan.schema.entries[slot].name;
    var i := FirstLayoutFrom(plan.inputs, name);
    assert Modest(plan.inputs[i]);
  }

  lemma FewPages(plan: Plan, s: nat)
    requires |plan.lists| == |plan.sigs| && s < |plan.lists| && |plan.lists[s]| <= 0x1_0000 && s < 0x1_0000
    ensures PagesPer(|plan.lists[s]|) <= 0x100 && !TooManyIn(plan, s)
  {
  }

  /** A job over small runs is not huge. */
  lemma ModestNotLarge(plan: Plan)
    requires AllModest(plan.inputs) && JobWf(plan.inputs, plan.sigs, plan.table) && IsPlan(plan)
    ensures !TooLarge(plan)
  {
    PlanParts(plan);
    JobSigs(plan.inputs, plan.sigs, plan.table);
    hide JobWf, IsPlan, IsOutputSchema, IsMerge, Resolved, AllWf, AllModest, SlotOfSig, CellsAre, Ascending, Writable,
      TooManyIn;
    forall s | 0 <= s < |plan.lists| ensures !TooManyIn(plan, s) {
      ListIsShort(plan, s);
      FewPages(plan, s);
    }
    if PlanOk(plan) {
      forall s, slot: u16, p, cells | PageCells(plan, s, slot, p, cells) ensures CellsFit(plan.schema.EntryFor(slot).value.kind, cells) {
        LayoutIsSmall(plan, slot);
      }
    }
  }

  /** Where the newest of small inputs has a row in its first archetype the job is neither
      empty nor huge. */
  lemma ModestFits(inputs: seq<Reader>, sigs: seq<Signature>, table: ArchTable, i: nat, e: u64)
    requires AllModest(inputs) && JobWf(inputs, sigs, table) && |sigs| > 0 && i < |inputs| && HasLead(inputs[i], e)
    ensures !EmptyOrHuge(inputs, sigs, table)
  {
    hide AllModest, HasLead, JobWf, IsPlan, TooLarge;
    forall plan: Plan | plan.inputs == inputs && plan.sigs == sigs && plan.table == table && IsPlan(plan) ensures !TooLarge(plan) {
      ModestNotLarge(plan);
    }
  }

  // ── Small runs have small outputs ──────────────────────────────────────────

  /** A number for each key of few signatures, slots and pages; it grows with the key. */
  function Rank(key: Key): nat {
    key.arch * 0x1_0100 + (if key.slot < 0x100 then key.slot else 0x100) * 0x100 + key.page
  }

  predicate LowKey(key: Key) { (key.slot < 0x100 || key.slot == ENTITY_SLOT) && key.page < 0x100 }

  lemma {:induction false} RankedCount(pages: seq<OutPage>, from: nat, to: nat)
    requires from <= to && forall i :: 0 <= i < |pages| ==> LowKey(pages[i].key) && from <= Rank(pages[i].key) < to
    requires forall i, j :: 0 <= i < j < |pages| ==> KeyLess(pages[i].key, pages[j].key)
    ensures |pages| <= to - from
  {
    if |pages| != 0 {
      var last := |pages| - 1;
      forall i | 0 <= i < last ensures Rank(pages[i].key) < Rank(pages[last].key) {
        RankGrows(pages[i].key, pages[last].key);
      }
      hide Rank;
      RankedCount(pages[..last], from, Rank(pages[last].key));
    }
  }

  lemma RankGrows(a: Key, b: Key)
    requires LowKey(a) && LowKey(b) && KeyLess(a, b)
    ensures Rank(a) < Rank(b)
  {
  }

  /** A job of few signatures and components over small runs. */
  ghost predicate SmallJob(plan: Plan) {
    && AllModest(plan.inputs) && JobWf(plan.inputs, plan.sigs, plan.table) && IsPlan(plan) && PlanOk(plan)
    && |plan.sigs| <= 0x100 && |AllNames(plan.sigs)| <= 0x100
  }

  lemma SmallParts(plan: Plan)
    requires SmallJob(plan)
    ensures AllModest(plan.inputs) && JobWf(plan.inputs, plan.sigs, plan.table) && IsPlan(plan) && PlanOk(plan)
    ensures |plan.lists| == |plan.sigs| <= 0x100 && |AllNames(plan.sigs)| <= 0x100
    ensures IsOutputSchema(plan.inputs, plan.sigs, plan.schema)
  {
    PlanParts(plan);
    hide AllModest, JobWf, IsPlan, PlanOk, IsOutputSchema, IsMerge, Resolved, AllWf;
  }

  lemma FewEntries(plan: Plan)
    requires SmallJob(plan)
    ensures |plan.schema.entries| <= 0x100 && Writable(plan.schema)
  {
    SmallParts(plan);
    JobSigs(plan.inputs, plan.sigs, plan.table);
    hide SmallJob, AllModest, JobWf, IsPlan, PlanOk, LayoutOk, Writable;
    OutputSchemaOk(plan.inputs, plan.sigs, plan.schema);
    var names := NamesOf(plan.schema.entries);
    AscendingNoDup(names) by { SchemaNamesAscend(plan.schema); }
    NoDupSize(names);
    SchemaNames(plan.inputs, plan.sigs, plan.schema);
    hide IsOutputSchema, Ascending;
    forall name | name in names ensures name in AllNames(plan.sigs) {
      var s :| 0 <= s < |plan.sigs| && name in plan.sigs[s];
      var i :| 0 <= i < |plan.sigs[s]| && plan.sigs[s][i] == name;
    }
    SubsetSize((set name | name in names), AllNames(plan.sigs));
  }

  lemma SchemaNamesAscend(schema: SchemaSection)
    requires SchemaOk(schema)
    ensures Ascending(NamesOf(schema.entries))
  {
  }

  /** A dense page of a small job has a low key and little data. */
  lemma DensePageSmall(plan: Plan, page: OutPage)
    requires SmallJob(plan) && RightPage(plan, page)
    ensures LowKey(page.key) && page.key.arch < 0x100 && |page.Data()| < 0x1_0000_0000
  {
    hide SmallJob, AllModest, JobWf, IsPlan, PlanOk, RightPage, IsOutputSchema, Writable, PagesPer, OutPage.Data,
      AllNames, TooManyIn;
    SmallParts(plan);
    FewEntries(plan);
    RightKey(plan, page);
    ListIsShort(plan, page.key.arch);
    FewPages(plan, page.key.arch);
    DenseDataSmall(plan, page);
  }

  lemma RightKey(plan: Plan, page: OutPage)
    requires PlanOk(plan) && IsOutputSchema(plan.inputs, plan.sigs, plan.schema) && RightPage(plan, page)
    ensures page.key.arch < |plan.lists| == |plan.sigs| && page.key.page < PagesPer(|plan.lists[page.key.arch]|)
    ensures page.key.slot == ENTITY_SLOT || page.key.slot < |plan.schema.entries|
  {
    hide SlotOfSig, CellsAre, EmitOk, IsOutputSchema, PagesPer, CellsFit, ColumnPage, EntityPage;
  }

  lemma DenseDataSmall(plan: Plan, page: OutPage)
    requires AllModest(plan.inputs) && IsOutputSchema(plan.inputs, plan.sigs, plan.schema)
    requires PlanOk(plan) && |plan.sigs| <= SPARSE_ARCH_ID && |plan.schema.entries| <= 0x100 && RightPage(plan, page)
    ensures |page.Data()| < 0x1_0000_0000
  {
    DenseAgrees(plan, page);
    RightKey(plan, page);
    if page.key.slot != ENTITY_SLOT {
      LayoutIsSmall(plan, page.key.slot);
      Product(PAGE_SIZE, PAGE_SIZE, plan.schema.EntryFor(page.key.slot).value.itemSize);
    }
    hide AllModest, IsOutputSchema, PlanOk, RightPage;
    assert |page.Data()| == |page.body| + page.pad;
  }

  lemma FewDense(plan: Plan, dense: seq<OutPage>)
    requires SmallJob(plan) && PlanOk(plan) && Partly(plan, dense)
    ensures |dense| <= 0x100_0000 + 0x1_0000 && forall i :: 0 <= i < |dense| ==> |dense[i].Data()| < 0x1_0000_0000
  {
    hide SmallJob, PlanOk, RightPage, Wanted, LowKey;
    forall i | 0 <= i < |dense|
      ensures LowKey(dense[i].key) && 0 <= Rank(dense[i].key) < 0x101_0000 && |dense[i].Data()| < 0x1_0000_0000
    {
      DensePageSmall(plan, dense[i]);
      RankBound(dense[i].key, 0x100);
    }
    RankedCount(dense, 0, 0x101_0000);
  }

  lemma RankBound(key: Key, n: nat)
    requires LowKey(key) && key.arch < n
    ensures Rank(key) < n * 0x1_0100
  {
    Product(key.arch + 1, n, 0x1_0100);
  }

  /** Few pages are carried from a small run. */
  lemma FewCarried(r: Reader, carried: seq<OutPage>)
    requires Modest(r) && IsCarried(r, carried)
    ensures |carried| <= 0x2_0100 && forall i :: 0 <= i < |carried| ==> |carried[i].Data()| < 0x1_0000
  {
    hide Modest, AllocatorCarried, SparseCarried, OutPage.Data;
    var a: seq<OutPage>, b: seq<OutPage> :| carried == a + b && AllocatorCarried(r, a) && SparseCarried(r, b);
    FewAllocator(r, a);
    FewSparse(r, b);
  }

  lemma FewAllocator(r: Reader, pages: seq<OutPage>)
    requires AllocatorCarried(r, pages)
    ensures |pages| <= 0x1_0000 && forall i :: 0 <= i < |pages| ==> |pages[i].Data()| < 0x1_0000
  {
    hide AllocatorScan;
  }

  lemma FewSparse(r: Reader, pages: seq<OutPage>)
    requires Modest(r) && SparseCarried(r, pages)
    ensures |pages| <= 0x1_0100 && forall i :: 0 <= i < |pages| ==> |pages[i].Data()| < 0x1_0000
  {
    hide PageOf, IsRow, EntryNamed, Rank, LowKey;
    forall i | 0 <= i < |pages|
      ensures LowKey(pages[i].key) && SPARSE_ARCH_ID * 0x1_0100 <= Rank(pages[i].key) < (SPARSE_ARCH_ID + 1) * 0x1_0100
      ensures |pages[i].Data()| < 0x1_0000
    {
      SparseIsLow(r, pages[i]);
    }
    RankedCount(pages, SPARSE_ARCH_ID * 0x1_0100, (SPARSE_ARCH_ID + 1) * 0x1_0100);
  }

  lemma SparseIsLow(r: Reader, page: OutPage)
    requires Modest(r) && Carries(r, page)
    ensures LowKey(page.key) && SPARSE_ARCH_ID * 0x1_0100 <= Rank(page.key) < (SPARSE_ARCH_ID + 1) * 0x1_0100
    ensures |page.Data()| < 0x1_0000
  {
    hide PageOf, IsRow, EntryNamed;
  }

  lemma {:induction false} DenseCount(plan: Plan, s: nat)
    requires s <= |plan.lists| == |plan.sigs|
    requires forall t :: 0 <= t < s ==> |plan.sigs[t]| <= 0x100 && PagesPer(|plan.lists[t]|) <= 0x100
    ensures DensePages(plan, s) <= s * 0x1_0100
  {
    hide PagesPer;
    if s != 0 {
      DenseCount(plan, s - 1);
      Product(|plan.sigs[s - 1]| + 1, 0x101, PagesPer(|plan.lists[s - 1]|));
    }
  }

  lemma SmallSig(plan: Plan, s: nat)
    requires SmallJob(plan) && s < |plan.sigs|
    ensures |plan.lists| == |plan.sigs| && |plan.sigs[s]| <= 0x100 && PagesPer(|plan.lists[s]|) <= 0x100
  {
    SmallParts(plan);
    SigIsShort(plan, s);
    hide SmallJob, AllModest, JobWf, IsPlan, PlanOk, IsOutputSchema, PagesPer;
    ListIsShort(plan, s);
    FewPages(plan, s);
  }

  lemma SigIsShort(plan: Plan, s: nat)
    requires SmallJob(plan) && s < |plan.sigs|
    ensures |plan.sigs[s]| <= 0x100
  {
    SmallParts(plan);
    JobSigs(plan.inputs, plan.sigs, plan.table);
    hide SmallJob, AllModest, JobWf, IsPlan, PlanOk, IsOutputSchema, Writable;
    var sig := plan.sigs[s];
    AscendingNoDup(sig);
    NoDupSize(sig);
    hide Ascending;
    forall name | name in sig ensures name in AllNames(plan.sigs) {
      var i :| 0 <= i < |sig| && sig[i] == name;
      assert plan.sigs[s][i] == name;
    }
    SubsetSize((set name | name in sig), AllNames(plan.sigs));
  }

  lemma SmallPages(plan: Plan, r: Reader, pages: seq<OutPage>)
    requires SmallJob(plan) && PlanOk(plan) && Modest(r) && PagesFrom(plan, r, pages)
    ensures Small(pages)
  {
    hide SmallJob, PlanOk, Modest, Partly, IsCarried, OutPage.Data;
    var dense, carried, n :| Partly(plan, dense) && IsCarried(r, carried) && 0 <= n <= |carried| && pages == dense + carried[..n];
    FewDense(plan, dense);
    FewCarried(r, carried);
  }

  lemma SmallNotBig(plan: Plan, r: Reader)
    requires SmallJob(plan) && PlanOk(plan) && Modest(r)
    ensures !TooBig(plan, r)
  {
    hide SmallJob, PlanOk, Modest, IsCarried, TooBigFor, PagesFrom, DensePages, PagesPer, Writable, Small, OutPage.Data;
    FewEntries(plan);
    PlanLists(plan);
    forall t | 0 <= t < |plan.sigs| ensures |plan.sigs[t]| <= 0x100 && PagesPer(|plan.lists[t]|) <= 0x100 {
      SmallSig(plan, t);
    }
    DenseCount(plan, |plan.sigs|);
    FewSigs(plan);
    forall carried | IsCarried(r, carried) ensures DensePages(plan, |plan.sigs|) + |carried| < TOO_LONG {
      FewCarried(r, carried);
    }
    forall pages | PagesFrom(plan, r, pages) ensures !TooBigFor(plan.schema, pages) {
      SmallPages(plan, r, pages);
      SmallFits(plan.schema, pages);
    }
  }

  lemma FewSigs(plan: Plan)
    requires SmallJob(plan)
    ensures |plan.sigs| <= 0x100
  {
    hide AllModest, JobWf, IsPlan, PlanOk;
  }

  lemma ModestAt(runs: seq<Reader>, i: nat)
    requires AllModest(runs) && i < |runs|
    ensures Modest(runs[i])
  {
    hide Modest;
  }

  /** A job of few signatures and components over small runs can be written. */
  lemma ModestWritable(inputs: seq<Reader>, sigs: seq<Signature>, table: ArchTable)
    requires AllModest(inputs) && JobWf(inputs, sigs, table) && |sigs| <= 0x100 && |AllNames(sigs)| <= 0x100
    ensures !Unwritable(inputs, table, sigs)
  {
    hide AllModest, JobWf, IsPlan, PlanOk, TooBig, IsNewest;
    forall plan: Plan, newest: nat | plan.inputs == inputs && plan.table == table && plan.sigs == sigs
      && IsPlan(plan) && PlanOk(plan) && IsNewest(inputs, newest)
      ensures newest < |inputs| && !TooBig(plan, inputs[newest])
    {
      NewestIndex(inputs, newest);
      assert SmallJob(plan);
      ModestAt(inputs, newest);
      SmallNotBig(plan, inputs[newest]);
    }
  }

  /** The output of small runs is a small run. */
  lemma OutputModest(inputs: seq<Reader>, sigs: seq<Signature>, table: ArchTable, out: Reader)
    requires AllModest(inputs) && JobWf(inputs, sigs, table) && IsCompaction(inputs, table, sigs, out)
    ensures Modest(out)
  {
    hide AllModest, JobWf, IsCompaction, Done, IsPlan, PlanOk, TooMany, ReadsDense, EntryNamed, IsRow, PageOf, SchemaOk, IsMerge,
      IsOutputSchema, Ascending, Modest;
    var plan := CompactionIsDone(inputs, sigs, table, out);
    DoneParts(plan, out);
    SmallLayouts(plan, out.schema);
    forall arch: u16, row: nat, e: u64 | IsRow(out, arch, row, e) ensures e < 0x1_0000 {
      OutputRowIs(plan, out, arch, row, e);
      EmittedIsModest(plan, arch, row);
    }
    var newest := CompactionNewest(inputs, sigs, table, out);
    ModestAt(inputs, newest);
    forall key: Key {:trigger PageOf(out, key)} | SparseKey(key) && !PageOf(out, key).Absent? ensures key.slot < 0x100 && key.page < 0x100 {
      CompactionCarries(inputs, sigs, table, out, newest, key);
      SparseAt(inputs[newest], key);
    }
    ModestIs(out);
  }

  lemma ModestIs(r: Reader)
    requires forall name {:trigger EntryNamed(r.schema, name)} :: EntryNamed(r.schema, name).Some? ==>
      EntryNamed(r.schema, name).value.kind.RawCopy? && EntryNamed(r.schema, name).value.itemSize <= 0x1_0000
    requires forall arch, row, e :: IsRow(r, arch, row, e) ==> e < 0x1_0000
    requires forall key: Key {:trigger PageOf(r, key)} :: SparseKey(key) && !PageOf(r, key).Absent? ==> key.slot < 0x100 && key.page < 0x100
    ensures Modest(r)
  {
    hide EntryNamed, IsRow, PageOf;
  }

  lemma SparseAt(r: Reader, key: Key)
    requires Modest(r) && SparseKey(key) && !PageOf(r, key).Absent?
    ensures key.slot < 0x100 && key.page < 0x100
  {
    hide EntryNamed, IsRow, PageOf;
  }

  lemma SmallLayouts(plan: Plan, schema: SchemaSection)
    requires AllModest(plan.inputs) && IsOutputSchema(plan.inputs, plan.sigs, plan.schema) && schema == plan.schema
    ensures forall name {:trigger EntryNamed(schema, name)} :: EntryNamed(schema, name).Some? ==>
      EntryNamed(schema, name).value.kind.RawCopy? && EntryNamed(schema, name).value.itemSize <= 0x1_0000
  {
    hide AllModest, IsOutputSchema;
    forall name {:trigger EntryNamed(schema, name)} | EntryNamed(schema, name).Some?
      ensures EntryNamed(schema, name).value.kind.RawCopy? && EntryNamed(schema, name).value.itemSize <= 0x1_0000
    {
      LayoutIsSmall(plan, schema.SlotFor(name).value);
    }
  }

  lemma CompactionNewest(inputs: seq<Reader>, sigs: seq<Signature>, table: ArchTable, out: Reader) returns (newest: nat)
    requires IsCompaction(inputs, table, sigs, out)
    ensures IsNewest(inputs, newest) && newest < |inputs|
  {
    hide IsPlan, PlanOk, TooMany, IsPages, Holds, Indexed, Writable, CommonFingerprint;
    var plan: Plan, k: nat, pages: seq<OutPage> :| Compacts(plan, k, pages, out)
      && plan.inputs == inputs && plan.table == table && plan.sigs == sigs;
    newest := k;
  }
}
