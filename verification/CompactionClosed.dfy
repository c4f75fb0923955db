/** A compaction output is a well-formed run again, so compactions can be repeated, and
    exactly when a job over well-formed runs is refused. */
module CompactionClosed {
  import opened Bytes
  import opened Order
  import opened Schema
  import opened SchemaCodec
  import opened RunFormat
  import opened RunReader
  import opened Merge
  import opened CompactionPlan
  import opened CompactionWriter
  import opened RunAgreement
  import opened Carry
  import opened OutputSchema
  import opened CompactRun
  import opened Archetypes
  import opened RunMeaning
  import opened OutputRun
  import opened CompactionMeaning

  // ── Carried pages of the output ────────────────────────────────────────────

  /** What lies under the keys that are not dense. */
  ghost predicate ReadsCarried(carried: seq<OutPage>, out: Reader) {
    && (forall i :: 0 <= i < |carried| ==> PageIs(out, carried[i]) && LengthAgrees(out.schema, carried[i]))
    && (forall key: Key {:trigger PageOf(out, key)} :: !Dense(key.arch) ==> PageOf(out, key).Absent? || HasPage(carried, key))
  }

  lemma OutputReadsCarried(plan: Plan, newest: nat, dense: seq<OutPage>, carried: seq<OutPage>, out: Reader)
    requires PlanOk(plan) && |plan.sigs| <= SPARSE_ARCH_ID && newest < |plan.inputs|
    requires WrittenUpTo(plan, dense, |plan.sigs|, 0, 0) && IsCarried(plan.inputs[newest], carried)
    requires Holds(out, dense + carried)
    ensures ReadsCarried(carried, out)
  {
    CarriedPages(plan.inputs[newest], carried, out.schema);
    hide IsCarried, PageOf, LengthAgrees, RightPage, DistinctPages, PageIs, Wanted;
    var pages := dense + carried;
    forall i | 0 <= i < |carried| ensures PageIs(out, carried[i]) {
      assert pages[|dense| + i] == carried[i];
    }
    forall i | 0 <= i < |dense| ensures Dense(dense[i].key.arch) {
      assert RightPage(plan, dense[i]);
    }
    forall key: Key {:trigger PageOf(out, key)} | !Dense(key.arch) && !PageOf(out, key).Absent? ensures HasPage(carried, key) {
      var i :| 0 <= i < |pages| && pages[i].key == key;
      assert carried[i - |dense|].key == key;
    }
  }

  /** Every carried page reads back and validates. */
  lemma CarriedValid(carried: seq<OutPage>, out: Reader, key: Key)
    requires ReadsCarried(carried, out) && |out.schema.entries| <= ALLOCATOR_SLOT && !Dense(key.arch)
    ensures
      var l := PageOf(out, key);
      !l.Corrupt? && (l.Found? ==> ValidCrc(out, l.page) && HasPage(carried, key))
  {
    hide PageOf, LengthAgrees, ValidCrc, RefOf;
    var l := PageOf(out, key);
    if !l.Absent? {
      var i :| 0 <= i < |carried| && carried[i].key == key;
      assert PageIs(out, carried[i]);
      PageValidates(out, carried[i], l.page.offset);
    }
  }

  lemma {:induction false} AscendingBound(scan: seq<(u16, PageRef)>, i: nat)
    requires i < |scan| && forall a, b :: 0 <= a < b < |scan| ==> scan[a].0 < scan[b].0
    ensures i <= scan[i].0
  {
    if i > 0 { AscendingBound(scan, i - 1); }
  }

  /** Allocator pages that all read back and validate can be carried on. */
  lemma UsableAllocator(r: Reader)
    requires SortedIndex(r.index)
    requires forall page: u16 {:trigger PageOf(r, Key(META_ARCH_ID, ALLOCATOR_SLOT, page))} ::
      var l := PageOf(r, Key(META_ARCH_ID, ALLOCATOR_SLOT, page));
      !l.Corrupt? && (l.Found? ==> ValidCrc(r, l.page))
    ensures AllocatorUsable(r)
  {
    hide PageRefAt, PagesOf, SlotEntries, FindEntry, ValidCrc;
    if AllocatorScan(r).None? {
      var e := PagesOfNone(r, SlotEntries(r.index, META_ARCH_ID, ALLOCATOR_SLOT));
      SlotEntriesAre(r.index, META_ARCH_ID, ALLOCATOR_SLOT);
      CorruptEntry(r, e);
    } else {
      var scan := AllocatorScan(r).value;
      PagesAreScan(r, META_ARCH_ID, ALLOCATOR_SLOT);
      if |scan| > 0 { AscendingBound(scan, |scan| - 1); }
    }
  }

  lemma CorruptEntry(r: Reader, e: IndexEntry)
    requires SortedIndex(r.index) && e in r.index && PageRefAt(r, e.offset, e.key).None?
    ensures PageOf(r, Key(e.key.arch, e.key.slot, e.key.page)).Corrupt?
  {
    hide PageRefAt, FindEntry;
    var j :| 0 <= j < |r.index| && r.index[j] == e;
    SortedPosition(r.index, j);
  }

  lemma OutputCarriable(carried: seq<OutPage>, out: Reader)
    requires ReadsCarried(carried, out) && |out.schema.entries| <= ALLOCATOR_SLOT && SortedIndex(out.index)
    ensures AllocatorUsable(out) && SparseUsable(out)
  {
    hide ReadsCarried, PageOf, ValidCrc, AllocatorUsable, SortedIndex, HasPage;
    forall page: u16 {:trigger PageOf(out, Key(META_ARCH_ID, ALLOCATOR_SLOT, page))}
      ensures
        var l := PageOf(out, Key(META_ARCH_ID, ALLOCATOR_SLOT, page));
        !l.Corrupt? && (l.Found? ==> ValidCrc(out, l.page))
    {
      CarriedValid(carried, out, Key(META_ARCH_ID, ALLOCATOR_SLOT, page));
    }
    UsableAllocator(out);
    forall key: Key {:trigger PageOf(out, key)} | SparseKey(key)
      ensures !PageOf(out, key).Corrupt? && (PageOf(out, key).Found? ==> ValidCrc(out, PageOf(out, key).page))
    {
      CarriedValid(carried, out, key);
    }
  }

  lemma VerbatimData(key: Key, data: bytes)
    requires |data| < 0x1_0000
    ensures Verbatim(key, data).Data() == data
  {
  }

  lemma CarriedFound(carried: seq<OutPage>, out: Reader, i: nat, key: Key, data: bytes)
    requires ReadsCarried(carried, out) && i < |carried| && |data| < 0x1_0000 && carried[i] == Verbatim(key, data)
    ensures PageOf(out, key).Found? && PageOf(out, key).page.data == data
  {
    hide PageOf, LengthAgrees;
    assert PageIs(out, carried[i]);
    VerbatimData(key, data);
  }

  /** Sparse pages are carried verbatim from the newest input: same keys, same bytes. */
  lemma SparseForward(newest: Reader, carried: seq<OutPage>, out: Reader, key: Key)
    requires IsCarried(newest, carried) && ReadsCarried(carried, out) && SparseKey(key)
    ensures PageOf(out, key).Absent? <==> PageOf(newest, key).Absent?
    ensures PageOf(out, key).Found? ==> PageOf(newest, key).Found? && PageOf(out, key).page.data == PageOf(newest, key).page.data
  {
    var a: seq<OutPage>, b: seq<OutPage> :| carried == a + b && AllocatorCarried(newest, a) && SparseCarried(newest, b);
    hide PageOf, AllocatorCarried, SparseCarried, IsCarried, ReadsCarried, HasPage, Verbatim;
    if PageOf(newest, key).Absent? {
      SparseNotCarried(newest, a, b, key);
      CarriedAbsent(carried, out, key);
    } else {
      var i := SparseCarriedAt(newest, a, b, key);
      CarriedFound(carried, out, i, key, PageOf(newest, key).page.data);
    }
  }

  lemma SparseCarriedAt(newest: Reader, a: seq<OutPage>, b: seq<OutPage>, key: Key) returns (i: nat)
    requires SparseCarried(newest, b) && SparseKey(key) && !PageOf(newest, key).Absent?
    ensures PageOf(newest, key).Found? && |PageOf(newest, key).page.data| < 0x1_0000
    ensures i < |a + b| && (a + b)[i] == Verbatim(key, PageOf(newest, key).page.data)
  {
    hide PageOf;
    assert KeyBelow(key, SPARSE_ARCH_ID, ENTITY_SLOT, 0);
    var j :| 0 <= j < |b| && b[j].key == key;
    assert Carries(newest, b[j]);
    i := |a| + j;
  }

  lemma SparseNotCarried(newest: Reader, a: seq<OutPage>, b: seq<OutPage>, key: Key)
    requires AllocatorCarried(newest, a) && SparseCarried(newest, b) && SparseKey(key) && PageOf(newest, key).Absent?
    ensures !HasPage(a + b, key)
  {
    hide PageOf, AllocatorScan;
    forall i | 0 <= i < |a + b| ensures (a + b)[i].key != key {
      if i < |a| {
        assert (a + b)[i] == a[i];
      } else {
        assert (a + b)[i] == b[i - |a|] && Carries(newest, b[i - |a|]);
      }
    }
  }

  /** Allocator pages are carried from the newest input in order, renumbered from 0. */
  lemma AllocatorForward(newest: Reader, carried: seq<OutPage>, out: Reader, page: u16)
    requires IsCarried(newest, carried) && ReadsCarried(carried, out) && AllocatorScan(newest).Some?
    ensures
      var l := PageOf(out, Key(META_ARCH_ID, ALLOCATOR_SLOT, page));
      if page < |AllocatorScan(newest).value| then l.Found? && l.page.data == AllocatorScan(newest).value[page].1.data
      else l.Absent?
  {
    var a: seq<OutPage>, b: seq<OutPage> :| carried == a + b && AllocatorCarried(newest, a) && SparseCarried(newest, b);
    var key, scan := Key(META_ARCH_ID, ALLOCATOR_SLOT, page), AllocatorScan(newest).value;
    hide PageOf, AllocatorScan, IsCarried, AllocatorCarried, SparseCarried, ReadsCarried, HasPage, Verbatim;
    AllocatorAt(newest, a, b, page);
    if page < |scan| {
      CarriedFound(carried, out, page, key, scan[page].1.data);
    } else {
      NotCarried(newest, a, b, page);
      CarriedAbsent(carried, out, key);
    }
  }

  lemma CarriedAbsent(carried: seq<OutPage>, out: Reader, key: Key)
    requires ReadsCarried(carried, out) && !Dense(key.arch) && !HasPage(carried, key)
    ensures PageOf(out, key).Absent?
  {
    hide PageOf, HasPage, LengthAgrees, PageIs;
  }

  lemma AllocatorAt(newest: Reader, a: seq<OutPage>, b: seq<OutPage>, page: u16)
    requires AllocatorCarried(newest, a)
    ensures
      var scan := AllocatorScan(newest).value;
      if page < |scan| then
        page < |a + b| && |scan[page].1.data| < 0x1_0000
        && (a + b)[page] == Verbatim(Key(META_ARCH_ID, ALLOCATOR_SLOT, page), scan[page].1.data)
      else |a| <= page
  {
    hide AllocatorScan;
  }

  lemma NotCarried(newest: Reader, a: seq<OutPage>, b: seq<OutPage>, page: u16)
    requires AllocatorCarried(newest, a) && SparseCarried(newest, b) && |a| <= page
    ensures !HasPage(a + b, Key(META_ARCH_ID, ALLOCATOR_SLOT, page))
  {
    hide PageOf, AllocatorScan;
    forall i | 0 <= i < |a + b| ensures (a + b)[i].key != Key(META_ARCH_ID, ALLOCATOR_SLOT, page) {
      if i < |a| {
        assert (a + b)[i] == a[i];
      } else {
        assert (a + b)[i] == b[i - |a|] && Carries(newest, b[i - |a|]);
      }
    }
  }

  // ── The output is a well-formed run ────────────────────────────────────────

  lemma OutputMergeable(plan: Plan, carried: seq<OutPage>, out: Reader)
    requires Done(plan, out) && ReadsCarried(carried, out) && Indexed(out) && |out.schema.entries| <= ALLOCATOR_SLOT
    requires forall i :: 0 <= i < |carried| ==> CarriedKey(carried[i].key)
    ensures Mergeable(out) && EntitiesReadable(out)
  {
    DoneParts(plan, out);
    hide Done, JobWf, IsPlan, TooMany, SchemaOk, IsMerge, IsOutputSchema, Ascending, PageOf, ReadsDense,
      LengthAgrees, PlanOk, PageIs, RowsOfPage, EntityIn;
    forall arch: u16, page: u16 {:trigger PageOf(out, Key(arch, ENTITY_SLOT, page))}
      ensures
        var l := PageOf(out, Key(arch, ENTITY_SLOT, page));
        (Dense(arch) ==> !l.Corrupt?) && (l.Found? ==> l.page.header.rowCount <= PAGE_SIZE)
    {
      if Dense(arch) {
        OutputEntityPage(plan, out, arch, page);
        if arch < |plan.lists| && page < PagesPer(|plan.lists[arch]|) {
          RowsOfPageOk(plan, arch, page);
        }
      } else {
        NoCarriedEntities(carried, Key(arch, ENTITY_SLOT, page));
      }
    }
  }

  lemma NoCarriedEntities(carried: seq<OutPage>, key: Key)
    requires key.slot == ENTITY_SLOT && forall i :: 0 <= i < |carried| ==> CarriedKey(carried[i].key)
    ensures !HasPage(carried, key)
  {
  }

  lemma SigHasRows(plan: Plan, out: Reader, s: u16)
    requires Done(plan, out) && s < |plan.lists| && plan.lists[s] != []
    ensures s < |plan.sigs| && plan.sigs[s] != []
  {
    SourceRowDone(plan, out, s, 0);
    SourceSig(plan, s, 0);
    var m := plan.lists[s][0];
    var r, a := plan.inputs[m.input], plan.table[s][m.input].value;
    RowInArchetype(r, a, m.row, m.entity);
    hide Done, IsRow, SigOf, ArchetypeIds, Sound, EntitiesReadable, OneRow, EmitOk, Chosen;
  }

  lemma SourceSig(plan: Plan, s: nat, k: nat)
    requires JobWf(plan.inputs, plan.sigs, plan.table) && IsPlan(plan) && s < |plan.lists| && k < |plan.lists[s]|
    ensures
      var m := plan.lists[s][k];
      s < |plan.sigs| && EmitOk(plan, s, m)
      && SigOf(plan.inputs[m.input], plan.table[s][m.input].value) == Some(plan.sigs[s])
  {
    hide JobWf, IsPlan, SigOf, RunWf, IsRow, EmitOk;
    SourceRow(plan, s, k);
  }

  lemma OutputArchetypeIs(plan: Plan, out: Reader, a: u16)
    requires Done(plan, out) && a in ArchetypeIds(out)
    ensures a < |plan.sigs| && SigOf(out, a) == Some(plan.sigs[a]) && plan.sigs[a] != []
  {
    DoneParts(plan, out);
    hide Done, PlanOk, ReadsDense, SigOf, ArchetypeIds, JobWf, IsPlan, TooMany, SchemaOk, IsMerge, IsOutputSchema,
      Ascending, NoDup;
    OutputArchetypes(plan, out, a);
    OutputSigIs(plan, out, a);
    SigHasRows(plan, out, a);
  }

  lemma OutputNamed(plan: Plan, out: Reader)
    requires Done(plan, out)
    ensures Named(out) && DistinctSigs(out) && Populated(out)
  {
    DoneParts(plan, out);
    hide Done, PlanOk, ReadsDense, SigOf, ArchetypeIds, JobWf, IsPlan, TooMany, SchemaOk, IsMerge, IsOutputSchema,
      Ascending, NoDup, HasRow;
    forall a: u16 | a in ArchetypeIds(out) ensures SigAt(plan.sigs, a, SigOf(out, a)) && HasRow(out, a) {
      OutputArchetypeIs(plan, out, a);
      OutputHasRow(plan, out, a);
    }
    NamedBy(plan.sigs, out);
  }

  lemma OutputHasRow(plan: Plan, out: Reader, a: u16)
    requires Done(plan, out) && a in ArchetypeIds(out)
    ensures HasRow(out, a)
  {
    DoneParts(plan, out);
    OutputArchetypes(plan, out, a);
    hide Done, PlanOk, ReadsDense, ArchetypeIds, JobWf, IsPlan, TooMany, SchemaOk, IsMerge, IsOutputSchema,
      Ascending, NoDup, IsRow;
    OutputRowIs(plan, out, a, 0, plan.lists[a][0].entity);
  }

  predicate SigAt(sigs: seq<Signature>, a: u16, sig: Option<Signature>) {
    a < |sigs| && sig == Some(sigs[a]) && sigs[a] != []
  }

  lemma NamedBy(sigs: seq<Signature>, out: Reader)
    requires NoDup(sigs) && forall a: u16 :: a in ArchetypeIds(out) ==> SigAt(sigs, a, SigOf(out, a))
    ensures Named(out) && DistinctSigs(out)
  {
    hide SigOf, ArchetypeIds;
  }

  lemma OutputComplete(plan: Plan, out: Reader)
    requires Done(plan, out)
    ensures Complete(out)
  {
    hide Done, IsRow, SigOf, ColumnCell;
    forall arch: u16, row: nat, e: u64, name: Name {:trigger IsRow(out, arch, row, e), ColumnCell(out, arch, name, row)} |
      IsRow(out, arch, row, e) && SigOf(out, arch).Some? && name in SigOf(out, arch).value
      ensures ColumnCell(out, arch, name, row).Some?
    {
      OutputRowIs(plan, out, arch, row, e);
      OutputSigIs(plan, out, arch);
      OutputColumn(plan, out, arch, row, name);
    }
  }

  lemma OutputOneRow(plan: Plan, out: Reader)
    requires Done(plan, out)
    ensures OneRow(out)
  {
    DoneParts(plan, out);
    hide Done, IsRow, IsMerge, JobWf, IsPlan, TooMany, SchemaOk, IsOutputSchema, Ascending, ReadsDense, PlanOk;
    forall a: u16, i: nat, b: u16, j: nat, e: u64 {:trigger IsRow(out, a, i, e), IsRow(out, b, j, e)} | IsRow(out, a, i, e) && IsRow(out, b, j, e)
      ensures a == b && i == j
    {
      OutputRowIs(plan, out, a, i, e);
      OutputRowIs(plan, out, b, j, e);
      EmittedOnce(plan.inputs, plan.table, plan.lists, a, i, b, j);
    }
  }

  /** Compaction of well-formed runs gives a well-formed run, and more than flush
      promises: every row has all its cells, no two archetypes share a signature. */
  lemma CompactionIsWellFormed(inputs: seq<Reader>, sigs: seq<Signature>, table: ArchTable, out: Reader)
    requires JobWf(inputs, sigs, table) && IsCompaction(inputs, table, sigs, out)
    ensures RunWf(out) && Populated(out)
    ensures Complete(out) && DistinctSigs(out)
  {
    hide JobWf, Done, IsPlan, PlanOk, TooMany, Holds, WrittenUpTo, IsCarried, Indexed, Writable, RunWf,
      CommonFingerprint, LengthAgrees, Complete, DistinctSigs, Populated;
    var plan: Plan, newest: nat, pages: seq<OutPage> :| Compacts(plan, newest, pages, out)
      && plan.inputs == inputs && plan.table == table && plan.sigs == sigs;
    OutputReadsDense(plan, newest, pages, out);
    var dense: seq<OutPage>, carried: seq<OutPage> :| pages == dense + carried && WrittenUpTo(plan, dense, |plan.sigs|, 0, 0)
      && IsCarried(plan.inputs[newest], carried);
    DoneIs(plan, out);
    OutputReadsCarried(plan, newest, dense, carried, out);
    CarriedPages(plan.inputs[newest], carried, out.schema);
    OutputRunIsWf(plan, carried, out);
  }

  lemma DoneIs(plan: Plan, out: Reader)
    requires JobWf(plan.inputs, plan.sigs, plan.table) && IsPlan(plan) && PlanOk(plan) && !TooMany(plan)
    requires ReadsDense(plan, out) && out.schema == plan.schema
    ensures Done(plan, out) && |plan.sigs| <= SPARSE_ARCH_ID
  {
    hide RunWf, IsPlan, LayoutsAgree, Resolved, PlanOk, TooMany, ReadsDense;
  }

  lemma OutputRunIsWf(plan: Plan, carried: seq<OutPage>, out: Reader)
    requires Done(plan, out) && ReadsCarried(carried, out) && Indexed(out) && |out.schema.entries| <= ALLOCATOR_SLOT
    requires forall i :: 0 <= i < |carried| ==> CarriedKey(carried[i].key)
    requires Writable(out.schema)
    ensures RunWf(out) && Populated(out) && Complete(out) && DistinctSigs(out)
  {
    hide Done, ReadsCarried, Mergeable, Writable, Complete, Named, DistinctSigs, Populated, EntitiesReadable, OneRow,
      AllocatorUsable, SparseUsable;
    OutputMergeable(plan, carried, out);
    OutputNamed(plan, out);
    OutputComplete(plan, out);
    OutputOneRow(plan, out);
    OutputCarriable(carried, out);
  }

  /** Both absent, or both found with the same bytes. */
  predicate SameData(a: Lookup, b: Lookup) {
    (a.Absent? && b.Absent?) || (a.Found? && b.Found? && a.page.data == b.page.data)
  }

  /** The `i`-th allocator page of a run, in page order. */
  function AllocatorPage(r: Reader, i: nat): Lookup {
    var scan := AllocatorScan(r);
    if scan.None? then Corrupt else if i < |scan.value| then Found(scan.value[i].1) else Absent
  }

  /** Of all inputs the newest one's allocator and sparse pages reach the output, whole
      and unchanged. */
  lemma CompactionCarries(inputs: seq<Reader>, sigs: seq<Signature>, table: ArchTable, out: Reader, newest: nat,
                          key: Key)
    requires JobWf(inputs, sigs, table) && IsCompaction(inputs, table, sigs, out) && newest < |inputs|
    requires forall i :: 0 <= i < |inputs| ==> inputs[i].hi <= inputs[newest].hi
    requires forall i :: newest < i < |inputs| ==> inputs[i].hi < inputs[newest].hi
    ensures SparseKey(key) ==> SameData(PageOf(out, key), PageOf(inputs[newest], key))
    ensures key.arch == META_ARCH_ID && key.slot == ALLOCATOR_SLOT ==>
      SameData(PageOf(out, key), AllocatorPage(inputs[newest], key.page))
  {
    hide JobWf, Done, IsPlan, PlanOk, TooMany, Holds, WrittenUpTo, IsCarried, Indexed, Writable, CommonFingerprint,
      PageOf, AllocatorScan, ReadsCarried, LengthAgrees, CarriedKey, ReadsDense;
    var plan: Plan, k: nat, pages: seq<OutPage> :| Compacts(plan, k, pages, out)
      && plan.inputs == inputs && plan.table == table && plan.sigs == sigs;
    NewestUnique(inputs, newest, k);
    OutputReadsDense(plan, k, pages, out);
    var dense: seq<OutPage>, carried: seq<OutPage> :| pages == dense + carried && WrittenUpTo(plan, dense, |plan.sigs|, 0, 0)
      && IsCarried(plan.inputs[k], carried);
    DoneIs(plan, out);
    OutputReadsCarried(plan, k, dense, carried, out);
    if SparseKey(key) {
      SparseForward(inputs[newest], carried, out, key);
      CarriedValidAt(carried, out, key);
    } else if key.arch == META_ARCH_ID && key.slot == ALLOCATOR_SLOT {
      ScanCarried(inputs[newest], carried);
      AllocatorForward(inputs[newest], carried, out, key.page);
    }
  }

  lemma ScanCarried(newest: Reader, carried: seq<OutPage>)
    requires IsCarried(newest, carried)
    ensures AllocatorScan(newest).Some?
  {
    hide AllocatorScan, SparseCarried;
  }

  lemma CarriedValidAt(carried: seq<OutPage>, out: Reader, key: Key)
    requires ReadsCarried(carried, out) && !Dense(key.arch)
    ensures !PageOf(out, key).Corrupt?
  {
    hide PageOf, LengthAgrees;
    if !PageOf(out, key).Absent? {
      var i :| 0 <= i < |carried| && carried[i].key == key;
      assert PageIs(out, carried[i]);
    }
  }

  // ── When a compaction is refused ───────────────────────────────────────────

  lemma EntitiesAreReadable(inputs: seq<Reader>, sigs: seq<Signature>, table: ArchTable)
    requires JobWf(inputs, sigs, table)
    ensures Readable(inputs, table)
  {
    assert Resolved(inputs, sigs, table);
    hide JobWf, PagesOf, SlotEntries, ArchetypeIds, SigOf, RunWf;
    forall s, i | 0 <= s < |table| && 0 <= i < |table[s]| && i < |inputs| && table[s][i].Some?
      ensures PagesOf(inputs[i], SlotEntries(inputs[i].index, table[s][i].value, ENTITY_SLOT)).Some?
    {
      assert IsArchOf(inputs[i], sigs[s], table[s][i]);
      ArchetypeIdsAre(inputs[i], table[s][i].value);
      JobRun(inputs, sigs, table, i);
      SlotReadable(inputs[i], table[s][i].value);
    }
  }

  lemma JobRun(inputs: seq<Reader>, sigs: seq<Signature>, table: ArchTable, i: nat)
    requires JobWf(inputs, sigs, table) && i < |inputs|
    ensures RunWf(inputs[i])
  {
    hide RunWf, Resolved, LayoutsAgree, FromInputs;
  }

  lemma SlotReadable(r: Reader, arch: u16)
    requires RunWf(r) && Dense(arch)
    ensures PagesOf(r, SlotEntries(r.index, arch, ENTITY_SLOT)).Some?
  {
    assert SortedIndex(r.index) && EntitiesReadable(r);
    hide RunWf, PagesOf, SlotEntries, PageOf;
    if PagesOf(r, SlotEntries(r.index, arch, ENTITY_SLOT)).None? {
      var e := PagesOfNone(r, SlotEntries(r.index, arch, ENTITY_SLOT));
      SlotEntriesAre(r.index, arch, ENTITY_SLOT);
      CorruptEntry(r, e);
    }
  }

  lemma {:induction false} FirstLayoutFound(inputs: seq<Reader>, i: nat, name: Name)
    requires i < |inputs| && EntryNamed(inputs[i].schema, name).Some?
    ensures FirstLayout(inputs, name).Some?
  {
    if EntryNamed(inputs[0].schema, name).None? {
      FirstLayoutFound(inputs[1..], i - 1, name);
    }
  }

  lemma LayoutIsPowerOfTwo(inputs: seq<Reader>, name: Name)
    requires forall i :: 0 <= i < |inputs| ==> Writable(inputs[i].schema)
    requires FirstLayout(inputs, name).Some?
    ensures LayoutOk(inputs, name)
  {
    hide EntryFits, FirstLayout, Ascending;
    var i := FirstLayoutFrom(inputs, name);
    assert Writable(inputs[i].schema);
    assert PowerOfTwo(1);
  }

  /** Every component of the job has a usable layout. */
  lemma EveryLayoutOk(inputs: seq<Reader>, sigs: seq<Signature>, table: ArchTable, name: Name)
    requires JobWf(inputs, sigs, table) && InSome(sigs, name)
    ensures LayoutOk(inputs, name)
  {
    assert FromInputs(inputs, sigs);
    forall i | 0 <= i < |inputs| ensures Writable(inputs[i].schema) && SchemaOk(inputs[i].schema) {
      JobRun(inputs, sigs, table, i);
    }
    hide JobWf, RunWf, LayoutOk, SigOf, ArchetypeIds, FirstLayout, Writable, SchemaOk;
    var s :| 0 <= s < |sigs| && name in sigs[s];
    assert SomeInputHas(inputs, sigs[s]);
    var i, a :| 0 <= i < |inputs| && a in ArchetypeIds(inputs[i]) && SigOf(inputs[i], a) == Some(sigs[s]);
    SigNameHasEntry(inputs[i], a, name);
    FirstLayoutFound(inputs, i, name);
    LayoutIsPowerOfTwo(inputs, name);
  }

  lemma JobHasSchema(inputs: seq<Reader>, sigs: seq<Signature>, table: ArchTable)
    requires JobWf(inputs, sigs, table)
    ensures !NoSchema(inputs, sigs)
  {
    assert |AllNames(sigs)| <= ALLOCATOR_SLOT;
    hide JobWf, LayoutOk;
    forall name | InSome(sigs, name) ensures LayoutOk(inputs, name) {
      EveryLayoutOk(inputs, sigs, table, name);
    }
    forall names: seq<Name> | NoDup(names) && forall name :: name in names ==> InSome(sigs, name) ensures |names| <= ENTITY_SLOT {
      NoDupSize(names);
      SubsetSize((set name | name in names), AllNames(sigs));
    }
  }

  /** The row lacks the bytes of a component of its archetype. */
  ghost predicate Lacks(r: Reader, arch: u16, row: nat, name: Name) {
    SigOf(r, arch).Some? && name in SigOf(r, arch).value && ColumnCell(r, arch, name, row).None?
  }

  /** The row chosen for some entity lacks a cell: the column was not written with it. */
  ghost predicate CellLacking(inputs: seq<Reader>) {
    exists e, i: nat, arch, row, name :: Chosen(inputs, e, i, arch, row) && Lacks(inputs[i], arch, row, name)
  }

  lemma MissingName(plan: Plan, s: nat, k: nat, slot: u16) returns (name: Name)
    requires PlanOk(plan) && s < |plan.sigs| && k < |plan.lists[s]| && CellMissingAt(plan, s, k, slot)
    ensures name in plan.sigs[s] && EntryNamed(plan.schema, name).Some?
    ensures SourceCell(plan, s, EntryNamed(plan.schema, name).value, plan.lists[s][k]).None?
  {
    hide SourceCell, EmitOk;
    var i :| 0 <= i < |plan.sigs[s]| && plan.schema.SlotFor(plan.sigs[s][i]) == Some(slot);
    name := plan.sigs[s][i];
  }

  lemma MissingIsLacking(plan: Plan, s: nat, k: nat, slot: u16)
    requires JobWf(plan.inputs, plan.sigs, plan.table) && IsPlan(plan) && PlanOk(plan)
    requires s < |plan.sigs| && k < |plan.lists[s]| && CellMissingAt(plan, s, k, slot)
    ensures CellLacking(plan.inputs)
  {
    hide JobWf, IsPlan, PlanOk, SourceCell, ColumnCell, Chosen, SigOf, RunWf, IsRow, CellMissingAt, EntryNamed;
    var name := MissingName(plan, s, k, slot);
    PlanParts(plan);
    SourceCellIs(plan, s, k, name);
    SourceRow(plan, s, k);
    var m := plan.lists[s][k];
    assert Lacks(plan.inputs[m.input], plan.table[s][m.input].value, m.row, name);
  }

  lemma PlanParts(plan: Plan)
    requires JobWf(plan.inputs, plan.sigs, plan.table) && IsPlan(plan)
    ensures AllWf(plan.inputs) && IsMerge(plan.inputs, plan.table, plan.lists) && Resolved(plan.inputs, plan.sigs, plan.table)
    ensures IsOutputSchema(plan.inputs, plan.sigs, plan.schema)
    ensures |plan.lists| == |plan.sigs| == |plan.table|
  {
    hide RunWf, LayoutsAgree, FromInputs, Resolved, IsOutputSchema;
  }

  lemma LackingIsMissing(plan: Plan)
    requires JobWf(plan.inputs, plan.sigs, plan.table) && IsPlan(plan) && PlanOk(plan) && CellLacking(plan.inputs)
    ensures CellMissing(plan)
  {
    PlanParts(plan);
    hide JobWf, IsPlan, PlanOk, ColumnCell, Chosen, SigOf, AllWf, IsMerge, Resolved, IsOutputSchema, SourceCell,
      EmitOk, SlotOfSig;
    var e, i: nat, arch, row, name :| Chosen(plan.inputs, e, i, arch, row) && Lacks(plan.inputs[i], arch, row, name);
    var s, k := ChosenEmitted(plan, e, i, arch, row);
    SourceRow(plan, s, k);
    var m := plan.lists[s][k];
    OneChosen(plan.inputs, e, i, arch, row, m.input, plan.table[s][m.input].value, m.row);
    SourceCellIs(plan, s, k, name);
    OutputSlotOf(plan, s, name);
    assert CellMissingAt(plan, s, k, plan.schema.SlotFor(name).value);
  }

  lemma ChosenEmitted(plan: Plan, e: u64, i: nat, arch: u16, row: nat) returns (s: nat, k: nat)
    requires AllWf(plan.inputs) && IsMerge(plan.inputs, plan.table, plan.lists) && Resolved(plan.inputs, plan.sigs, plan.table)
    requires Chosen(plan.inputs, e, i, arch, row)
    ensures s < |plan.lists| && k < |plan.lists[s]| && plan.lists[s][k].entity == e
  {
    assert RunWf(plan.inputs[i]);
    LeadRowHas(plan.inputs[i], arch, row, e);
    assert Named(plan.inputs[i]);
    hide RunWf, IsMerge, Resolved, LeadRow, Named;
    EntityEmitted(plan.inputs, plan.sigs, plan.table, plan.lists, i, e);
    s, k :| 0 <= s < |plan.lists| && 0 <= k < |plan.lists[s]| && plan.lists[s][k].entity == e;
  }

  /** Nothing to write, or more than the format can hold. */
  ghost predicate EmptyOrHuge(inputs: seq<Reader>, sigs: seq<Signature>, table: ArchTable) {
    || |sigs| == 0
    || (forall i, e :: 0 <= i < |inputs| ==> !HasLead(inputs[i], e))
    || exists plan: Plan :: plan.inputs == inputs && plan.sigs == sigs && plan.table == table && IsPlan(plan) && TooLarge(plan)
  }

  ghost predicate TooLarge(plan: Plan) { PlanOk(plan) && (Oversized(plan) || TooMany(plan)) }

  lemma EmptyLists(inputs: seq<Reader>, sigs: seq<Signature>, table: ArchTable, lists: seq<seq<EmitRow>>)
    requires JobWf(inputs, sigs, table) && IsMerge(inputs, table, lists) && forall s :: 0 <= s < |lists| ==> lists[s] == []
    ensures forall i, e :: 0 <= i < |inputs| ==> !HasLead(inputs[i], e)
  {
    assert Resolved(inputs, sigs, table);
    hide JobWf, IsMerge, HasLead, Resolved, RunWf;
    forall i, e | 0 <= i < |inputs| ensures !HasLead(inputs[i], e) {
      if HasLead(inputs[i], e) {
        JobRun(inputs, sigs, table, i);
        RunNamed(inputs[i]);
        EntityEmitted(inputs, sigs, table, lists, i, e);
      }
    }
  }

  lemma RunNamed(r: Reader)
    requires RunWf(r)
    ensures Named(r) && AllocatorUsable(r) && SparseUsable(r)
  {
  }

  lemma JobRuns(inputs: seq<Reader>, sigs: seq<Signature>, table: ArchTable)
    requires JobWf(inputs, sigs, table)
    ensures |table| == |sigs| && (|sigs| > 0 ==> TableShaped(inputs, table)) && !NothingToCarry(inputs)
  {
    JobShape(inputs, sigs, table);
    hide Resolved, LayoutsAgree, SigsOk, FromInputs, RunWf, NothingToCarry, TableShaped;
    RunsCarry(inputs);
  }

  lemma JobShape(inputs: seq<Reader>, sigs: seq<Signature>, table: ArchTable)
    requires JobWf(inputs, sigs, table)
    ensures |table| == |sigs| && (|sigs| > 0 ==> TableShaped(inputs, table))
  {
    assert Resolved(inputs, sigs, table);
    hide JobWf, IsArchOf, ArchetypeIds, SigOf, NoDup;
  }

  lemma RunsCarry(inputs: seq<Reader>)
    requires forall i :: 0 <= i < |inputs| ==> RunWf(inputs[i])
    ensures !NothingToCarry(inputs)
  {
    hide Sound, Named, EntitiesReadable, OneRow, AllocatorUsable, SparseUsable;
  }

  /** The plan of a job that is not empty. */
  lemma JobPlan(inputs: seq<Reader>, sigs: seq<Signature>, table: ArchTable) returns (plan: Plan)
    requires JobWf(inputs, sigs, table)
    ensures plan.inputs == inputs && plan.sigs == sigs && plan.table == table && IsPlan(plan) && PlanOk(plan)
  {
    JobHasSchema(inputs, sigs, table);
    JobShape(inputs, sigs, table);
    hide JobWf, NoSchema, IsMerge, IsOutputSchema, PlanOk, TableShaped;
    var lists := MergeExists(inputs, table);
    var schema := OutputSchemaExists(inputs, sigs);
    plan := Plan(inputs, table, sigs, lists, schema);
    PlanIsOk(plan);
  }

  /** A well-formed job is refused for three reasons alone: it has nothing to write, more
      than the format can hold, or the row chosen for some entity lacks a cell. No page is
      unreadable and no layout missing. */
  lemma RefusedIff(inputs: seq<Reader>, sigs: seq<Signature>, table: ArchTable)
    requires JobWf(inputs, sigs, table)
    ensures Refusable(inputs, table, sigs) <==> EmptyOrHuge(inputs, sigs, table) || CellLacking(inputs)
  {
    JobRuns(inputs, sigs, table);
    EntitiesAreReadable(inputs, sigs, table);
    JobHasSchema(inputs, sigs, table);
    hide JobWf, Readable, NoSchema, AllocatorUsable, SparseUsable, IsMerge, HasLead, RefusedLists, NothingToCarry,
      TableShaped, CellLacking, EmptyOrHuge;
    if EmptyOrHuge(inputs, sigs, table) {
      EmptyOrHugeRefused(inputs, sigs, table);
    } else if CellLacking(inputs) {
      LackingRefused(inputs, sigs, table);
    } else {
      NotEmpty(inputs, sigs, table);
      forall lists | IsMerge(inputs, table, lists) ensures !RefusedLists(inputs, table, sigs, lists) {
        if RefusedLists(inputs, table, sigs, lists) {
          RefusedListsLack(inputs, sigs, table, lists);
        }
      }
    }
  }

  lemma EmptyOrHugeRefused(inputs: seq<Reader>, sigs: seq<Signature>, table: ArchTable)
    requires JobWf(inputs, sigs, table) && EmptyOrHuge(inputs, sigs, table)
    ensures Refusable(inputs, table, sigs)
  {
    hide JobWf, Readable, NoSchema, AllocatorUsable, SparseUsable, IsMerge, IsOutputSchema, PlanOk, NoPages, TooMany,
      Oversized, NothingToCarry, TableShaped, HasLead;
    if |sigs| != 0 {
      if forall i, e :: 0 <= i < |inputs| ==> !HasLead(inputs[i], e) {
        NoLeadRefused(inputs, sigs, table);
      } else {
        var plan: Plan :| plan.inputs == inputs && plan.sigs == sigs && plan.table == table && IsPlan(plan) && TooLarge(plan);
        TooLargeRefused(plan);
        assert RefusedLists(inputs, table, sigs, plan.lists);
      }
    }
  }

  lemma TooLargeRefused(plan: Plan)
    requires TooLarge(plan)
    ensures PlanRefused(plan)
  {
    hide PlanOk, TooMany, Oversized, CellMissing;
  }

  /** Where no entity leads, the merge emits nothing. */
  lemma NoLeadRefused(inputs: seq<Reader>, sigs: seq<Signature>, table: ArchTable)
    requires JobWf(inputs, sigs, table) && forall i, e :: 0 <= i < |inputs| ==> !HasLead(inputs[i], e)
    ensures Refusable(inputs, table, sigs)
  {
    var plan := JobPlan(inputs, sigs, table);
    hide JobWf, Readable, NoSchema, AllocatorUsable, SparseUsable, IsPlan, PlanOk, NothingToCarry, TableShaped, HasLead,
      EmitOk, RunWf, SigOf, IsRow, Chosen;
    PlanParts(plan);
    hide IsMerge;
    forall s | 0 <= s < |plan.lists| ensures plan.lists[s] == [] {
      if |plan.lists[s]| > 0 {
        SourceRow(plan, s, 0);
        var m := plan.lists[s][0];
        ChosenLeads(inputs, m.entity, m.input, table[s][m.input].value, m.row);
      }
    }
    assert RefusedLists(inputs, table, sigs, plan.lists);
  }

  lemma ChosenLeads(runs: seq<Reader>, e: u64, i: nat, arch: u16, row: nat)
    requires Chosen(runs, e, i, arch, row)
    ensures i < |runs| && HasLead(runs[i], e)
  {
    hide IsRow, Leads;
  }

  lemma NotEmpty(inputs: seq<Reader>, sigs: seq<Signature>, table: ArchTable)
    requires !EmptyOrHuge(inputs, sigs, table)
    ensures |sigs| > 0
  {
  }

  lemma RefusedListsLack(inputs: seq<Reader>, sigs: seq<Signature>, table: ArchTable, lists: seq<seq<EmitRow>>)
    requires JobWf(inputs, sigs, table) && IsMerge(inputs, table, lists) && RefusedLists(inputs, table, sigs, lists)
    requires |table| == |sigs| && !EmptyOrHuge(inputs, sigs, table)
    ensures CellLacking(inputs)
  {
    hide JobWf, HasLead, IsOutputSchema, Oversized, TooMany, CellMissingAt, EmitOk, CellLacking, Newest, Emitted,
      AscendingRows;
    if forall s :: 0 <= s < |lists| ==> lists[s] == [] {
      EmptyLists(inputs, sigs, table, lists);
    } else {
      var schema :| IsOutputSchema(inputs, sigs, schema) && PlanRefused(Plan(inputs, table, sigs, lists, schema));
      var plan := Plan(inputs, table, sigs, lists, schema);
      assert IsPlan(plan) && !TooLarge(plan);
      var s, k, slot :| 0 <= s < |plan.sigs| && 0 <= k < |plan.lists[s]| && CellMissingAt(plan, s, k, slot);
      MissingIsLacking(plan, s, k, slot);
    }
  }

  lemma LackingRefused(inputs: seq<Reader>, sigs: seq<Signature>, table: ArchTable)
    requires JobWf(inputs, sigs, table) && CellLacking(inputs)
    ensures Refusable(inputs, table, sigs)
  {
    var plan := JobPlan(inputs, sigs, table);
    LackingIsMissing(plan);
    hide JobWf, Readable, NoSchema, AllocatorUsable, SparseUsable, IsMerge, IsOutputSchema, PlanOk, CellMissing,
      NothingToCarry, TableShaped, CellLacking;
    assert PlanRefused(plan);
    assert RefusedLists(inputs, table, sigs, plan.lists);
  }

  /** Where every input is complete no cell lacks. */
  lemma CompleteLacksNothing(inputs: seq<Reader>)
    requires forall i :: 0 <= i < |inputs| ==> Complete(inputs[i])
    ensures !CellLacking(inputs)
  {
    hide IsRow, SigOf, ColumnCell, HasLead, Leads;
    forall e, i: nat, arch, row, name | Chosen(inputs, e, i, arch, row) ensures !Lacks(inputs[i], arch, row, name) {
      CompleteRow(inputs[i], arch, row, e, name);
    }
  }

  lemma CompleteRow(r: Reader, arch: u16, row: nat, e: u64, name: Name)
    requires Complete(r) && IsRow(r, arch, row, e)
    ensures !Lacks(r, arch, row, name)
  {
    hide IsRow, SigOf, ColumnCell;
  }
}
