/** Reading a compaction output back: its rows, its cells and its signatures are the
    ones the plan emitted; and what is recorded of it beside them. */
module OutputRun {
  import opened Bytes
  import opened Order
  import opened Schema
  import opened SchemaCodec
  import opened SerializedPage
  import opened RunFormat
  import opened RunReader
  import opened Merge
  import opened CompactionPlan
  import opened CompactionWriter
  import opened RunAgreement
  import opened Carry
  import opened OutputSchema
  import opened CompactRun
  import opened Archetypes
  import opened RunMeaning
  import opened RunFile
  import M = Manifest

  // ── The dense pages of the output ──────────────────────────────────────────

  /** `l` reads a page the plan wants under `key`. */
  ghost predicate ReadsRight(plan: Plan, key: Key, l: Lookup)
    requires PlanOk(plan)
  {
    l.Found? && exists page :: RightPage(plan, page) && SamePage(page, key, l.page)
  }

  predicate SamePage(page: OutPage, key: Key, ref: PageRef) {
    page.key == key && ref.data == page.Data() && ref.header.rowCount == page.rowCount
  }

  /** At keys of archetypes the output holds exactly the wanted pages. */
  ghost predicate ReadsDense(plan: Plan, out: Reader) {
    PlanOk(plan) && forall key: Key {:trigger PageOf(out, key)} :: Dense(key.arch) ==>
      if Wanted(plan, key) then ReadsRight(plan, key, PageOf(out, key)) else PageOf(out, key).Absent?
  }

  lemma WantedRead(plan: Plan, dense: seq<OutPage>, carried: seq<OutPage>, out: Reader, key: Key)
    requires PlanOk(plan) && WrittenUpTo(plan, dense, |plan.sigs|, 0, 0)
    requires Holds(out, dense + carried) && Wanted(plan, key)
    ensures ReadsRight(plan, key, PageOf(out, key))
  {
    hide RightPage, PageOf, SlotOfSig;
    var i :| 0 <= i < |dense| && dense[i].key == key;
    assert (dense + carried)[i] == dense[i] && PageIs(out, (dense + carried)[i]);
    assert RightPage(plan, dense[i]) && SamePage(dense[i], key, PageOf(out, key).page);
  }

  lemma UnwantedAbsent(plan: Plan, newest: Reader, dense: seq<OutPage>, carried: seq<OutPage>, out: Reader, key: Key)
    requires PlanOk(plan) && WrittenUpTo(plan, dense, |plan.sigs|, 0, 0) && IsCarried(newest, carried)
    requires Holds(out, dense + carried) && !Wanted(plan, key) && Dense(key.arch)
    ensures PageOf(out, key).Absent?
  {
    CarriedPages(newest, carried, plan.schema);
    hide RightPage, PageOf, Wanted, IsCarried, LengthAgrees, DistinctPages, PageIs;
    var pages := dense + carried;
    forall i | 0 <= i < |pages| ensures pages[i].key != key {
      if i < |dense| {
        assert RightPage(plan, dense[i]);
        RightIsWanted(plan, dense[i]);
      } else {
        assert CarriedKey(carried[i - |dense|].key);
      }
    }
  }

  lemma OutputReadsDense(plan: Plan, newest: nat, pages: seq<OutPage>, out: Reader)
    requires Compacts(plan, newest, pages, out)
    ensures PlanOk(plan) && !TooMany(plan) && ReadsDense(plan, out)
  {
    var dense: seq<OutPage>, carried: seq<OutPage> :| pages == dense + carried && WrittenUpTo(plan, dense, |plan.sigs|, 0, 0)
      && IsCarried(plan.inputs[newest], carried);
    assert Holds(out, dense + carried);
    hide PlanOk, WrittenUpTo, IsCarried, Holds, Compacts, Wanted, ReadsRight, TooMany, PageOf;
    forall key: Key {:trigger PageOf(out, key)} | Dense(key.arch)
      ensures if Wanted(plan, key) then ReadsRight(plan, key, PageOf(out, key)) else PageOf(out, key).Absent?
    {
      if Wanted(plan, key) {
        WantedRead(plan, dense, carried, out, key);
      } else {
        UnwantedAbsent(plan, plan.inputs[newest], dense, carried, out, key);
      }
    }
  }

  // ── Rows ───────────────────────────────────────────────────────────────────

  lemma EntityPageReads(key: Key, rows: seq<EmitRow>, k: nat)
    requires |rows| < 0x1_0000 && k < |rows|
    ensures EntityIn(EntityPage(key, rows).Data(), k) == rows[k].entity
  {
    var page := EntityPage(key, rows);
    var data := page.Data();
    AtStart(page.body, Zeros(page.pad));
    hide Concat, Zeros, At, Read64;
    AtElement(data, 0, EntityId, rows, k);
    ConcatLength(Parts(EntityId, rows[..k]), 8);
    Read64At(data, k * 8, rows[k].entity);
  }

  lemma AtStart(a: bytes, b: bytes)
    ensures At(a + b, 0, a)
  {
  }

  lemma OutputEntityPage(plan: Plan, out: Reader, s: u16, p: u16)
    requires PlanOk(plan) && ReadsDense(plan, out) && Dense(s)
    ensures
      var l := PageOf(out, Key(s, ENTITY_SLOT, p));
      if s < |plan.lists| && p < PagesPer(|plan.lists[s]|) then
        var rows := RowsOfPage(plan.lists[s], p);
        l.Found? && l.page.header.rowCount == |rows| && forall k :: 0 <= k < |rows| ==> EntityIn(l.page.data, k) == rows[k].entity
      else l.Absent?
  {
    hide PageOf, RowsOfPage, EntityPage, EntityIn, PagesPer;
    var key := Key(s, ENTITY_SLOT, p);
    var l := PageOf(out, key);
    if s < |plan.lists| && p < PagesPer(|plan.lists[s]|) {
      assert Wanted(plan, key);
      var page :| RightPage(plan, page) && SamePage(page, key, l.page);
      var rows := RowsOfPage(plan.lists[s], p);
      RowsOfPageOk(plan, s, p);
      forall k | 0 <= k < |rows| ensures EntityIn(l.page.data, k) == rows[k].entity {
        EntityPageReads(key, rows, k);
      }
      EntityPageRows(key, rows);
    }
  }

  lemma EntityPageRows(key: Key, rows: seq<EmitRow>)
    requires |rows| < 0x1_0000
    ensures EntityPage(key, rows).rowCount == |rows|
  {
  }

  lemma RowSplit(n: nat, row: nat)
    ensures row < n <==> row / PAGE_SIZE < PagesPer(n) && row < n
    ensures row == row / PAGE_SIZE * PAGE_SIZE + row % PAGE_SIZE
  {
  }

  /** Row `row` of archetype `s` is live exactly when the list of `s` is that long, and
      it is the list's entity. */
  lemma OutputRow(plan: Plan, out: Reader, s: u16, row: nat)
    requires PlanOk(plan) && !TooMany(plan) && ReadsDense(plan, out) && Dense(s)
    ensures Live(out, s, row) <==> s < |plan.lists| && row < |plan.lists[s]|
    ensures Live(out, s, row) ==> EntityAt(out, s, row) == plan.lists[s][row].entity
  {
    hide PageOf, ReadsDense, EntityIn, RowsOfPage, EmitOk;
    assert s < |plan.lists| ==> !TooManyIn(plan, s);
    if row / PAGE_SIZE < 0x1_0000 {
      OutputEntityPage(plan, out, s, row / PAGE_SIZE);
      if s < |plan.lists| && row / PAGE_SIZE < PagesPer(|plan.lists[s]|) {
        RowsOfPageOk(plan, s, row / PAGE_SIZE);
        LastRow(plan.lists[s], row);
      }
    }
  }

  /** A row is on its page exactly when it is in the list. */
  lemma LastRow(list: seq<EmitRow>, row: nat)
    requires row / PAGE_SIZE < PagesPer(|list|)
    ensures row % PAGE_SIZE < |RowsOfPage(list, row / PAGE_SIZE)| <==> row < |list|
    ensures row < |list| ==> RowsOfPage(list, row / PAGE_SIZE)[row % PAGE_SIZE] == list[row]
  {
  }

  lemma OutputIsRow(plan: Plan, out: Reader, s: u16, row: nat, e: u64)
    requires PlanOk(plan) && !TooMany(plan) && ReadsDense(plan, out) && |plan.sigs| <= SPARSE_ARCH_ID
    ensures IsRow(out, s, row, e) <==> s < |plan.lists| && row < |plan.lists[s]| && plan.lists[s][row].entity == e
  {
    hide PlanOk, ReadsDense, TooMany, Live, EntityAt;
    if Dense(s) {
      OutputRow(plan, out, s, row);
    }
    ListsAndSigs(plan);
  }

  lemma ListsAndSigs(plan: Plan)
    requires PlanOk(plan)
    ensures |plan.lists| == |plan.sigs|
  {
  }

  // ── Cells ──────────────────────────────────────────────────────────────────

  lemma RawCellOnPage(cells: seq<bytes>, size: nat, pad: nat, k: nat)
    requires k < |cells| && forall i :: 0 <= i < |cells| ==> |cells[i]| == size
    ensures
      var data := Concat(cells) + Zeros(pad);
      k * size <= (k + 1) * size <= |data| && data[k * size..(k + 1) * size] == cells[k]
  {
    ConcatSplit(cells, k);
    ConcatLength(cells[..k], size);
    hide Concat, Zeros;
    var a, c, b := Concat(cells[..k]), cells[k], Concat(cells[k + 1..]);
    Assoc(a, c + b, Zeros(pad));
    Assoc(c, b, Zeros(pad));
    Middle(a, c, b + Zeros(pad));
    assert (k + 1) * size == k * size + size;
  }

  /** The cells of a written column page read back. */
  lemma ColumnPageReads(key: Key, entry: SchemaEntry, cells: seq<bytes>, ref: PageRef, k: nat)
    requires |cells| < 0x1_0000 && k < |cells| && SamePage(ColumnPage(key, entry, cells), key, ref)
    requires entry.kind.RawCopy? ==> forall i :: 0 <= i < |cells| ==> |cells[i]| == entry.itemSize
    requires CellsFit(entry.kind, cells)
    ensures CellOnPage(entry.kind, entry.itemSize, ref, k) == Some(cells[k])
  {
    hide Concat, EncRows, ParseRows, RowsFit, Zeros;
    if entry.kind.RawCopy? {
      RawCellOnPage(cells, entry.itemSize, ColumnPage(key, entry, cells).pad, k);
    } else {
      EncodedRowsParse(cells);
      assert ref.data == EncRows(cells) + Zeros(0) == EncRows(cells);
    }
  }

  lemma OutputColumnPage(plan: Plan, out: Reader, s: u16, slot: u16, p: u16, k: nat)
    requires PlanOk(plan) && ReadsDense(plan, out) && |plan.sigs| <= SPARSE_ARCH_ID
    requires Wanted(plan, Key(s, slot, p)) && slot != ENTITY_SLOT && plan.schema.EntryFor(slot).Some?
    requires k < |RowsOfPage(plan.lists[s], p)|
    ensures
      var l := PageOf(out, Key(s, slot, p));
      var entry := plan.schema.EntryFor(slot).value;
      var source := SourceCell(plan, s, entry, RowsOfPage(plan.lists[s], p)[k]);
      l.Found? && source.Some? && CellOnPage(entry.kind, entry.itemSize, l.page, k) == source
  {
    var key := Key(s, slot, p);
    var l := PageOf(out, key);
    assert ReadsRight(plan, key, l);
    hide PageOf, RowsOfPage, ReadsDense, SourceCell, ColumnPage, CellOnPage, CellsFit, Wanted, PlanOk;
    var page :| RightPage(plan, page) && SamePage(page, key, l.page);
    var rows, entry := RowsOfPage(plan.lists[s], p), plan.schema.EntryFor(slot).value;
    var cells :| CellsAre(plan, s, entry, rows, cells) && page == ColumnPage(key, entry, cells) && CellsFit(entry.kind, cells);
    RowsOfPageOk(plan, s, p);
    if entry.kind.RawCopy? {
      forall i | 0 <= i < |cells| ensures |cells[i]| == entry.itemSize {
        RawCellLength(plan, s, entry, rows[i]);
      }
    }
    ColumnPageReads(key, entry, cells, l.page, k);
  }

  lemma OutputCellAt(plan: Plan, out: Reader, s: u16, slot: u16, row: nat)
    requires PlanOk(plan) && !TooMany(plan) && ReadsDense(plan, out) && |plan.sigs| <= SPARSE_ARCH_ID
    requires s < |plan.lists| && row < |plan.lists[s]|
    requires SlotOfSig(plan, s, slot) && slot != ENTITY_SLOT && plan.schema.EntryFor(slot).Some?
    ensures
      var entry := plan.schema.EntryFor(slot).value;
      && CellOf(out, entry.kind, entry.itemSize, s, slot, row).Some?
      && CellOf(out, entry.kind, entry.itemSize, s, slot, row) == SourceCell(plan, s, entry, plan.lists[s][row])
  {
    assert !TooManyIn(plan, s);
    RowSplit(|plan.lists[s]|, row);
    LastRow(plan.lists[s], row);
    assert Wanted(plan, Key(s, slot, row / PAGE_SIZE));
    hide PageOf, RowsOfPage, ReadsDense, SourceCell, CellOnPage, Wanted, PlanOk, SlotOfSig;
    OutputColumnPage(plan, out, s, slot, row / PAGE_SIZE, row % PAGE_SIZE);
  }

  // ── Archetypes of the output ───────────────────────────────────────────────

  /** The slots of a signature in the output schema. */
  function SigSlots(plan: Plan, s: nat): seq<u16>
    requires s < |plan.sigs|
  {
    seq(|plan.sigs[s]|, i requires 0 <= i < |plan.sigs[s]| => plan.schema.SlotFor(plan.sigs[s][i]).GetOr(0))
  }

  lemma PresentIsWanted(plan: Plan, out: Reader, arch: u16, slot: u16)
    requires PlanOk(plan) && ReadsDense(plan, out) && Dense(arch)
    ensures (exists e :: e in out.index && e.key.arch == arch && e.key.slot == slot) <==>
      exists page: u16 :: Wanted(plan, Key(arch, slot, page))
  {
    hide EmitOk, Wanted, PageOf, ReadsRight;
    if e :| e in out.index && e.key.arch == arch && e.key.slot == slot {
      EntryNotAbsent(out, e);
      assert Wanted(plan, Key(arch, slot, e.key.page));
    }
    if page: u16 :| Wanted(plan, Key(arch, slot, page)) {
      assert ReadsRight(plan, Key(arch, slot, page), PageOf(out, Key(arch, slot, page)));
      ReadsFound(plan, Key(arch, slot, page), PageOf(out, Key(arch, slot, page)));
      var e := FoundEntry(out, Key(arch, slot, page));
    }
  }

  lemma ReadsFound(plan: Plan, key: Key, l: Lookup)
    requires PlanOk(plan) && ReadsRight(plan, key, l)
    ensures l.Found?
  {
  }

  lemma EntryNotAbsent(r: Reader, e: IndexEntry)
    requires e in r.index
    ensures !PageOf(r, e.key).Absent?
  {
    hide PageRefAt, FindEntry;
    var i :| 0 <= i < |r.index| && r.index[i] == e;
    assert HasKey(r.index, e.key);
  }

  lemma WantedAt(plan: Plan, arch: u16, slot: u16)
    requires PlanOk(plan)
    ensures (exists page: u16 :: Wanted(plan, Key(arch, slot, page))) <==>
      arch < |plan.sigs| && plan.lists[arch] != [] && (slot == ENTITY_SLOT || SlotOfSig(plan, arch, slot))
  {
    hide SlotOfSig, EmitOk;
    if arch < |plan.sigs| && plan.lists[arch] != [] && (slot == ENTITY_SLOT || SlotOfSig(plan, arch, slot)) {
      assert Wanted(plan, Key(arch, slot, 0));
    }
  }

  /** The output has an archetype for each signature with rows. */
  lemma OutputArchetypes(plan: Plan, out: Reader, a: u16)
    requires PlanOk(plan) && ReadsDense(plan, out) && |plan.sigs| <= SPARSE_ARCH_ID
    ensures a in ArchetypeIds(out) <==> a < |plan.sigs| && plan.lists[a] != []
  {
    hide PageOf, ReadsDense, Wanted, EmitOk, ArchetypeIds;
    ArchetypeIdsAre(out, a);
    if Dense(a) {
      if e :| e in out.index && e.key.arch == a {
        PresentIsWanted(plan, out, a, e.key.slot);
        WantedAt(plan, a, e.key.slot);
      }
      PresentIsWanted(plan, out, a, ENTITY_SLOT);
      WantedAt(plan, a, ENTITY_SLOT);
    }
  }

  lemma OutputSlots(plan: Plan, out: Reader, s: u16)
    requires PlanOk(plan) && ReadsDense(plan, out) && |plan.sigs| <= SPARSE_ARCH_ID
    requires s < |plan.sigs| && plan.lists[s] != [] && SlotsAscend(plan.schema, plan.sigs[s])
    ensures ComponentSlots(out, s) == SigSlots(plan, s)
  {
    hide PageOf, ReadsDense, Wanted, EmitOk, ComponentSlots;
    var slots := SigSlots(plan, s);
    forall slot: u16 ensures slot in ComponentSlots(out, s) <==> slot in slots {
      ComponentSlotsAre(out, s, slot);
      PresentIsWanted(plan, out, s, slot);
      WantedAt(plan, s, slot);
      SlotInSig(plan, s, slot);
    }
    ComponentsAscend(out, s);
    AscendingIdsUnique(ComponentSlots(out, s), slots);
  }

  lemma ComponentsAscend(r: Reader, arch: u16)
    ensures AscendingIds(ComponentSlots(r, arch))
  {
  }

  lemma SlotInSig(plan: Plan, s: nat, slot: u16)
    requires PlanOk(plan) && s < |plan.sigs| && SlotsAscend(plan.schema, plan.sigs[s])
    ensures AscendingIds(SigSlots(plan, s))
    ensures slot in SigSlots(plan, s) <==> slot != ENTITY_SLOT && SlotOfSig(plan, s, slot)
  {
    var slots := SigSlots(plan, s);
    if slot in slots {
      var i :| 0 <= i < |slots| && slots[i] == slot;
      assert plan.schema.SlotFor(plan.sigs[s][i]) == Some(slot);
    }
    if SlotOfSig(plan, s, slot) {
      var i :| 0 <= i < |plan.sigs[s]| && plan.schema.SlotFor(plan.sigs[s][i]) == Some(slot);
      assert slots[i] == slot;
    }
  }

  lemma NamesOfSigSlots(plan: Plan, s: nat)
    requires s < |plan.sigs| && SlotsAscend(plan.schema, plan.sigs[s]) && SchemaOk(plan.schema)
    ensures NamesOfSlots(plan.schema, SigSlots(plan, s)) == Some(plan.sigs[s])
  {
    hide NamesOfSlots, Ascending;
    var sig := plan.sigs[s];
    forall i | 0 <= i < |sig| ensures plan.schema.entries[SigSlots(plan, s)[i]].name == sig[i] {
      assert plan.schema.SlotFor(sig[i]).Some?;
    }
    var names := NamesOfSlots(plan.schema, SigSlots(plan, s));
    assert names.Some? ==> names.value == sig;
  }

  /** Archetype `s` of the output has signature `s` of the job. */
  lemma OutputSignature(plan: Plan, out: Reader, s: u16)
    requires PlanOk(plan) && ReadsDense(plan, out) && |plan.sigs| <= SPARSE_ARCH_ID && out.schema == plan.schema
    requires SchemaOk(plan.schema) && s < |plan.sigs| && plan.lists[s] != [] && SlotsAscend(plan.schema, plan.sigs[s])
    ensures SigOf(out, s) == Some(plan.sigs[s])
  {
    hide PlanOk, ReadsDense, SlotsAscend, SchemaOk, ComponentSlots;
    OutputSlots(plan, out, s);
    NamesOfSigSlots(plan, s);
  }

  // ── Layouts ────────────────────────────────────────────────────────────────

  predicate Knows(schema: SchemaSection, name: Name) {
    exists j :: 0 <= j < |schema.entries| && schema.entries[j].name == name
  }

  lemma SlotIfKnown(schema: SchemaSection, name: Name)
    requires SchemaOk(schema)
    ensures Knows(schema, name) <==> schema.SlotFor(name).Some?
    ensures schema.SlotFor(name).Some? ==>
      schema.EntryFor(schema.SlotFor(name).value).Some? && schema.EntryFor(schema.SlotFor(name).value).value.name == name
  {
    if j :| 0 <= j < |schema.entries| && schema.entries[j].name == name {
      SlotNameBijection(schema, j, j);
    }
    SlotNameBijection(schema, 0, 0);
    hide Ascending;
    if schema.SlotFor(name).Some? {
      assert schema.entries[schema.slots[name]].name == name;
    }
  }

  /** `i` is the first input that knows the component, `j` its entry there. */
  ghost predicate FirstKnows(inputs: seq<Reader>, name: Name, i: nat, j: nat) {
    && i < |inputs| && j < |inputs[i].schema.entries| && inputs[i].schema.entries[j].name == name
    && forall h :: 0 <= h < i ==> !Knows(inputs[h].schema, name)
  }

  lemma {:induction false} FirstLayoutIs(inputs: seq<Reader>, name: Name) returns (i: nat, j: nat)
    requires forall h :: 0 <= h < |inputs| ==> SchemaOk(inputs[h].schema)
    requires FirstLayout(inputs, name).Some?
    ensures FirstKnows(inputs, name, i, j) && inputs[i].schema.entries[j] == FirstLayout(inputs, name).value
  {
    hide SchemaOk, Knows;
    SlotIfKnown(inputs[0].schema, name);
    if Knows(inputs[0].schema, name) {
      i, j := 0, inputs[0].schema.slots[name];
    } else {
      var k, l := FirstLayoutIs(inputs[1..], name);
      i, j := k + 1, l;
      forall h | 0 <= h < i ensures !Knows(inputs[h].schema, name) {
        if h > 0 { assert inputs[1..][h - 1] == inputs[h]; }
      }
    }
  }

  /** Every component of the output is laid out as in the first input that knows it: the same
      storage, the same size, and the same alignment, or 1 where that one was recorded as 0. */
  lemma OutputLayoutIs(inputs: seq<Reader>, table: ArchTable, sigs: seq<Signature>, out: Reader, k: nat) returns (i: nat, j: nat)
    requires forall h :: 0 <= h < |inputs| ==> SchemaOk(inputs[h].schema)
    requires IsCompaction(inputs, table, sigs, out) && k < |out.schema.entries|
    ensures FirstKnows(inputs, out.schema.entries[k].name, i, j)
    ensures
      var had, has := inputs[i].schema.entries[j], out.schema.entries[k];
      && has.kind == had.kind && has.itemSize == had.itemSize
      && (had.itemAlign != 0 ==> has.itemAlign == had.itemAlign) && (had.itemAlign == 0 ==> has.itemAlign == 1)
  {
    hide SchemaOk, FirstKnows, FirstLayout, IsMerge, PlanOk, TooMany, Compacts, InSome;
    var plan: Plan, newest: nat, pages :| Compacts(plan, newest, pages, out) && plan.inputs == inputs && plan.table == table && plan.sigs == sigs;
    CompactsSchema(plan, newest, pages, out);
    i, j := FirstLayoutIs(inputs, out.schema.entries[k].name);
  }

  lemma CompactsSchema(plan: Plan, newest: nat, pages: seq<OutPage>, out: Reader)
    requires Compacts(plan, newest, pages, out)
    ensures IsOutputSchema(plan.inputs, plan.sigs, out.schema)
  {
    hide IsOutputSchema, IsMerge, PlanOk, TooMany, IsPages, Holds, Indexed, Writable, CommonFingerprint;
  }

  // ── The decode fingerprint ─────────────────────────────────────────────────

  /** The output claims a fingerprint only where all inputs have it, and does where they have;
      runs of different ones leave 0, which is never trusted. */
  lemma FingerprintIffAgreed(inputs: seq<Reader>, table: ArchTable, sigs: seq<Signature>, out: Reader, f: u64)
    requires IsCompaction(inputs, table, sigs, out) && f != 0
    ensures out.fingerprint == f <==> |inputs| > 0 && forall i :: 0 <= i < |inputs| ==> inputs[i].fingerprint == f
  {
    hide IsPlan, PlanOk, TooMany, IsPages, Holds, Indexed, Writable;
    var plan: Plan, newest: nat, pages :| Compacts(plan, newest, pages, out) && plan.inputs == inputs && plan.table == table && plan.sigs == sigs;
  }

  // ── What the manifest is told ──────────────────────────────────────────────

  lemma {:induction false} AdjacentAscends(s: seq<u16>, i: nat, j: nat)
    requires M.StrictlyAscending(s) && i < j < |s|
    ensures s[i] < s[j]
  {
    if i + 1 < j {
      AdjacentAscends(s, i, j - 1);
    }
  }

  lemma CoverageIsArchetypes(inputs: seq<Reader>, table: ArchTable, sigs: seq<Signature>, out: Reader, path: M.Path, file: bytes,
                             meta: M.SortedRunMeta)
    requires IsCompaction(inputs, table, sigs, out) && |sigs| <= SPARSE_ARCH_ID && Describes(meta, path, file, out)
    ensures meta.coverage == ArchetypeIds(out) && meta.pageCount == |out.index|
  {
    IdsAscend(out);
    hide PlanOk, TooMany, Holds, WrittenUpTo, IsCarried, ReadsDense, PageOf, ArchetypeIds, Indexed, Writable, IsPlan, CommonFingerprint;
    var plan: Plan, newest: nat, pages :| Compacts(plan, newest, pages, out) && plan.inputs == inputs && plan.table == table && plan.sigs == sigs;
    OutputReadsDense(plan, newest, pages, out);
    var dense: seq<OutPage>, carried: seq<OutPage> :| pages == dense + carried && WrittenUpTo(plan, dense, |plan.sigs|, 0, 0)
      && IsCarried(plan.inputs[newest], carried);
    ListsAndSigs(plan);
    forall s: u16 ensures s in meta.coverage <==> s in ArchetypeIds(out) {
      OutputArchetypes(plan, out, s);
      if s < SPARSE_ARCH_ID { FirstEntityPage(plan, newest, dense, carried, out, s); }
    }
    forall i, j | 0 <= i < j < |meta.coverage| ensures meta.coverage[i] < meta.coverage[j] {
      AdjacentAscends(meta.coverage, i, j);
    }
    AscendingIdsUnique(meta.coverage, ArchetypeIds(out));
  }

  /** The metadata of an output file is what opening the file shows. */
  lemma OutputMetaTrue(inputs: seq<Reader>, table: ArchTable, sigs: seq<Signature>, out: Reader, path: M.Path, file: bytes,
                       meta: M.SortedRunMeta)
    requires IsCompaction(inputs, table, sigs, out) && |sigs| <= SPARSE_ARCH_ID && Opens(file, out) && Describes(meta, path, file, out)
    ensures TrueOf(meta, path, file)
  {
    CoverageIsArchetypes(inputs, table, sigs, out, path, file, meta);
    hide IsCompaction, Opens, ArchetypeIds, PageOf;
    var m: M.RunMeta := meta;
    assert Reports(m, path, |file|, out);
    assert TrueOf(m, path, file);
  }
}
