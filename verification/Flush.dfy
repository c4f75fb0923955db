/** What a flush lays down: of every archetype the pages of its dirty columns, the entity
    pages beside them, the allocator state and all sparse components. A flush is a
    well-formed run; whether it is complete, and whether its signatures differ, depends on
    which columns were dirty. */
module Flush {
  import opened Bytes
  import opened Bits
  import opened Bloom
  import opened Order
  import opened Schema
  import opened SchemaCodec
  import opened SerializedPage
  import opened RunFormat
  import opened RunReader
  import opened RunFile
  import opened Merge
  import opened CompactionPlan
  import opened CompactionWriter
  import opened RunAgreement
  import opened Carry
  import opened OutputSchema
  import opened Archetypes
  import opened RunMeaning
  import opened CompactRun
  import opened OutputRun
  import opened CompactionClosed

  // ── The world ──────────────────────────────────────────────────────────────

  /** The values of a component, row by row, and which of its pages are dirty. */
  datatype Column = Column(cells: seq<bytes>, dirty: set<nat>)

  datatype Archetype = Archetype(entities: seq<u64>, columns: map<Name, Column>)

  /** Archetypes, registered components, and the allocator's and the sparse components'
      blobs in chunks. */
  datatype World = World(archs: seq<Archetype>, layouts: map<Name, Component>, allocator: seq<bytes>, sparse: seq<seq<bytes>>)

  /** Page `p` of a column is dirty, and has rows. */
  predicate Writes(w: World, a: nat, name: Name, p: nat) {
    a < |w.archs| && name in w.archs[a].columns && p in w.archs[a].columns[name].dirty && p * PAGE_SIZE < |w.archs[a].entities|
  }

  ghost predicate WritesColumn(w: World, a: nat, name: Name) { exists p :: Writes(w, a, name, p) }

  /** Some column of the archetype is written at page `p`. */
  ghost predicate WritesRows(w: World, a: nat, p: nat) { exists name :: Writes(w, a, name, p) }

  ghost predicate WritesArch(w: World, a: nat) { exists name, p :: Writes(w, a, name, p) }

  function PageEnd(rows: nat, p: nat): nat { if (p + 1) * PAGE_SIZE < rows then (p + 1) * PAGE_SIZE else rows }

  /** The part of a column or of the entity list on page `p`. */
  function OnPage<T>(s: seq<T>, p: nat): (r: seq<T>)
    requires p * PAGE_SIZE < |s|
    ensures 0 < |r| <= PAGE_SIZE && p * PAGE_SIZE + |r| <= |s|
    ensures forall k :: 0 <= k < |r| ==> r[k] == s[p * PAGE_SIZE + k]
    ensures forall row :: 0 <= row < |s| && row / PAGE_SIZE == p ==> row % PAGE_SIZE < |r| && r[row % PAGE_SIZE] == s[row]
  {
    s[p * PAGE_SIZE..PageEnd(|s|, p)]
  }

  predicate ColumnOk(w: World, arch: Archetype, name: Name) {
    && name in arch.columns && |arch.columns[name].cells| == |arch.entities| && name in w.layouts
    && (w.layouts[name].kind.RawCopy? ==> forall i :: 0 <= i < |arch.entities| ==> |arch.columns[name].cells[i]| == w.layouts[name].size)
    && forall p :: p in arch.columns[name].dirty && p * PAGE_SIZE < |arch.entities| ==>
      CellsFit(w.layouts[name].kind, OnPage(arch.columns[name].cells, p))
  }

  ghost predicate LayoutsOk(layouts: map<Name, Component>) {
    |layouts| <= ALLOCATOR_SLOT && forall name :: name in layouts ==>
      layouts[name].name == name && EntryFits(EntryOf(0, layouts[name])) && PowerOfTwo(layouts[name].align)
  }

  predicate Chunks(chunks: seq<bytes>) {
    |chunks| <= 0x1_0000 && forall i :: 0 <= i < |chunks| ==> |chunks[i]| < 0x1_0000
  }

  /** Entity `e` is row `row` of archetype `a`. */
  predicate IsEntity(w: World, a: nat, row: nat, e: u64) {
    a < |w.archs| && row < |w.archs[a].entities| && w.archs[a].entities[row] == e
  }

  ghost predicate EntitiesDiffer(w: World) {
    forall a, i, b, j, e {:trigger IsEntity(w, a, i, e), IsEntity(w, b, j, e)} ::
      IsEntity(w, a, i, e) && IsEntity(w, b, j, e) ==> a == b && i == j
  }

  /** A world within the numbers of the file format: each entity in one row, each column
      as long as its archetype. */
  ghost predicate WorldOk(w: World) {
    && |w.archs| <= SPARSE_ARCH_ID && LayoutsOk(w.layouts) && EntitiesDiffer(w)
    && (forall a :: 0 <= a < |w.archs| ==> |w.archs[a].entities| <= 0x1_0000 * PAGE_SIZE)
    && (forall a, name :: 0 <= a < |w.archs| && name in w.archs[a].columns ==> ColumnOk(w, w.archs[a], name))
    && Chunks(w.allocator) && |w.sparse| <= ENTITY_SLOT && forall i :: 0 <= i < |w.sparse| ==> Chunks(w.sparse[i])
  }

  // ── The pages of a flush ───────────────────────────────────────────────────

  /** The schema of the columns written. */
  ghost predicate IsFlushSchema(w: World, schema: SchemaSection) {
    && SchemaOk(schema)
    && (forall name :: name in schema.slots <==> exists a :: WritesColumn(w, a, name))
    && forall i :: 0 <= i < |schema.entries| ==>
      schema.entries[i].name in w.layouts && schema.entries[i] == EntryOf(i, w.layouts[schema.entries[i].name])
  }

  lemma LayoutNames(w: World)
    requires WorldOk(w)
    ensures |w.layouts.Keys| <= ALLOCATOR_SLOT && forall name :: name in w.layouts ==> w.layouts[name].name == name
  {
    assert LayoutsOk(w.layouts);
    hide WorldOk, EntryFits, PowerOfTwo;
    assert |w.layouts.Keys| == |w.layouts|;
  }

  lemma WrittenLaidOut(w: World, a: nat, name: Name)
    requires WorldOk(w) && WritesColumn(w, a, name)
    ensures name in w.layouts
  {
    hide WorldOk, Writes;
    var p: nat :| Writes(w, a, name, p);
    PageNumberFits(w, a, name, p);
  }

  ghost predicate WrittenName(w: World, name: Name) { name in w.layouts && exists a :: WritesColumn(w, a, name) }

  /** The names a flush writes, in name order. */
  lemma FlushNames(w: World) returns (names: seq<Name>)
    requires WorldOk(w)
    ensures Ascending(names) && |names| <= ALLOCATOR_SLOT && forall name :: name in names <==> WrittenName(w, name)
  {
    hide WorldOk, WritesColumn, Sort, Ascending;
    LayoutNames(w);
    var written := set name | name in w.layouts && WrittenName(w, name);
    var list := Listed(written);
    SortedNamesAscend(list);
    names := Sort(NameLe, list);
    SameElements(names, list);
    AscendingNoDup(names);
    NoDupSize(names);
    SubsetSize((set name | name in names), w.layouts.Keys);
  }

  /** Every world has the schema of its flush. */
  lemma FlushSchemaExists(w: World) returns (schema: SchemaSection)
    requires WorldOk(w)
    ensures IsFlushSchema(w, schema)
  {
    hide WorldOk, WritesColumn, Ascending, SlotTable, IsFlushSchema;
    LayoutNames(w);
    var names := FlushNames(w);
    AscendingNoDup(names);
    forall i | 0 <= i < |names| ensures names[i] in w.layouts {
      assert names[i] in names;
    }
    var entries := seq(|names|, i requires 0 <= i < |names| => EntryOf(i, w.layouts[names[i]]));
    schema := SchemaSection(entries, SlotTable(names));
    FlushSchemaNames(w, names, schema);
  }

  lemma FlushSchemaNames(w: World, names: seq<Name>, schema: SchemaSection)
    requires WorldOk(w) && Ascending(names) && |names| <= ALLOCATOR_SLOT && |schema.entries| == |names|
    requires forall name :: name in names <==> WrittenName(w, name)
    requires forall i :: 0 <= i < |names| ==> names[i] in w.layouts && schema.entries[i] == EntryOf(i, w.layouts[names[i]])
    requires forall name :: name in schema.slots <==> name in names
    requires forall i :: 0 <= i < |names| ==> schema.slots[names[i]] == i
    ensures IsFlushSchema(w, schema)
  {
    hide WorldOk, WritesColumn, Ascending;
    LayoutNames(w);
    assert NamesOf(schema.entries) == names;
    forall name | name in schema.slots
      ensures schema.slots[name] < |schema.entries| && schema.entries[schema.slots[name]].name == name
    {
      var i :| 0 <= i < |names| && names[i] == name;
    }
    forall name ensures name in schema.slots <==> exists a :: WritesColumn(w, a, name) {
      if a :| WritesColumn(w, a, name) { WrittenLaidOut(w, a, name); }
    }
  }

  /** Entity ids as the writer lays them down. */
  function Ids(entities: seq<u64>): (r: seq<EmitRow>)
    ensures |r| == |entities| && forall i :: 0 <= i < |r| ==> r[i].entity == entities[i]
  {
    seq(|entities|, i requires 0 <= i < |entities| => EmitRow(entities[i], 0, 0))
  }

  ghost predicate WantsColumn(w: World, schema: SchemaSection, key: Key) {
    schema.EntryFor(key.slot).Some? && Writes(w, key.arch, schema.EntryFor(key.slot).value.name, key.page)
  }

  /** The keys a flush writes. */
  ghost predicate Wants(w: World, schema: SchemaSection, key: Key) {
    if key.arch == META_ARCH_ID then key.slot == ALLOCATOR_SLOT && key.page < |w.allocator|
    else if key.arch == SPARSE_ARCH_ID then key.slot < |w.sparse| && key.page < |w.sparse[key.slot]|
    else if key.slot == ENTITY_SLOT then WritesRows(w, key.arch, key.page)
    else WantsColumn(w, schema, key)
  }

  /** The page a flush writes under a key. */
  ghost predicate FlushPage(w: World, schema: SchemaSection, page: OutPage)
    requires WorldOk(w)
  {
    var key := page.key;
    Wants(w, schema, key) &&
    if key.arch == META_ARCH_ID then page == Verbatim(key, w.allocator[key.page])
    else if key.arch == SPARSE_ARCH_ID then page == Verbatim(key, w.sparse[key.slot][key.page])
    else if key.slot == ENTITY_SLOT then page == EntityPage(key, Ids(OnPage(w.archs[key.arch].entities, key.page)))
    else
      var entry := schema.EntryFor(key.slot).value;
      assert ColumnOk(w, w.archs[key.arch], entry.name);
      page == ColumnPage(key, entry, OnPage(w.archs[key.arch].columns[entry.name].cells, key.page))
  }

  ghost predicate FlushPages(w: World, schema: SchemaSection, pages: seq<OutPage>)
    requires WorldOk(w)
  {
    && (forall i :: 0 <= i < |pages| ==> FlushPage(w, schema, pages[i]))
    && forall key {:trigger Wants(w, schema, key)} :: Wants(w, schema, key) ==> HasPage(pages, key)
  }

  /** `out` reads as a flush of `w`. */
  ghost predicate IsFlush(w: World, out: Reader) {
    WorldOk(w) && Indexed(out) && IsFlushSchema(w, out.schema) && exists pages :: FlushPages(w, out.schema, pages) && Holds(out, pages)
  }

  // ── Reading it back ────────────────────────────────────────────────────────

  ghost predicate ReadsPage(w: World, out: Reader, key: Key)
    requires WorldOk(w)
  {
    var l := PageOf(out, key);
    l.Found? && exists page :: FlushPage(w, out.schema, page) && page.key == key && l.page == RefOf(page, l.page.offset)
  }

  lemma FlushReads(w: World, out: Reader, key: Key)
    requires WorldOk(w) && IsFlush(w, out)
    ensures if Wants(w, out.schema, key) then ReadsPage(w, out, key) else PageOf(out, key).Absent?
  {
    hide WorldOk, FlushPage, Wants, PageOf, Indexed, IsFlushSchema, RefOf;
    var pages: seq<OutPage> :| FlushPages(w, out.schema, pages) && Holds(out, pages);
    if Wants(w, out.schema, key) {
      var i :| 0 <= i < |pages| && pages[i].key == key;
      assert PageIs(out, pages[i]);
    } else if !PageOf(out, key).Absent? {
      var i :| 0 <= i < |pages| && pages[i].key == key;
      PageWanted(w, out.schema, pages[i]);
    }
  }

  lemma PageWanted(w: World, schema: SchemaSection, page: OutPage)
    requires WorldOk(w) && FlushPage(w, schema, page)
    ensures Wants(w, schema, page.key)
  {
    hide WorldOk;
  }

  lemma FlushEntityPage(w: World, out: Reader, a: u16, p: u16)
    requires WorldOk(w) && IsFlush(w, out) && Dense(a)
    ensures
      var l := PageOf(out, Key(a, ENTITY_SLOT, p));
      if WritesRows(w, a, p) then
        a < |w.archs| && p * PAGE_SIZE < |w.archs[a].entities| &&
        var ids := OnPage(w.archs[a].entities, p);
        l.Found? && l.page.header.rowCount == |ids| && forall k :: 0 <= k < |ids| ==> EntityIn(l.page.data, k) == ids[k]
      else l.Absent?
  {
    hide WorldOk, IsFlush, PageOf, EntityPage, EntityIn, OnPage;
    var key := Key(a, ENTITY_SLOT, p);
    FlushReads(w, out, key);
    if WritesRows(w, a, p) {
      var page :| FlushPage(w, out.schema, page) && page.key == key && PageOf(out, key).page == RefOf(page, PageOf(out, key).page.offset);
      var ids := OnPage(w.archs[a].entities, p);
      forall k | 0 <= k < |ids| ensures EntityIn(PageOf(out, key).page.data, k) == ids[k] {
        EntityPageReads(key, Ids(ids), k);
      }
      EntityPageRows(key, Ids(ids));
    }
  }

  /** The rows of a flush: those of the pages on which some column was dirty. */
  lemma FlushRow(w: World, out: Reader, a: u16, row: nat, e: u64)
    requires WorldOk(w) && IsFlush(w, out)
    ensures IsRow(out, a, row, e) <==> IsEntity(w, a, row, e) && WritesRows(w, a, row / PAGE_SIZE)
  {
    assert |w.archs| <= SPARSE_ARCH_ID && (a < |w.archs| ==> |w.archs[a].entities| <= 0x1_0000 * PAGE_SIZE);
    hide WorldOk, IsFlush, PageOf, EntityIn;
    if Dense(a) && row / PAGE_SIZE < 0x1_0000 {
      FlushEntityPage(w, out, a, row / PAGE_SIZE);
    }
  }

  // ── Archetypes and signatures of a flush ───────────────────────────────────

  lemma PresentIsWanted(w: World, out: Reader, arch: u16, slot: u16)
    requires WorldOk(w) && IsFlush(w, out)
    ensures (exists e :: e in out.index && e.key.arch == arch && e.key.slot == slot) <==>
      exists page: u16 :: Wants(w, out.schema, Key(arch, slot, page))
  {
    hide WorldOk, IsFlush, PageOf, Wants, FlushPage;
    if e :| e in out.index && e.key.arch == arch && e.key.slot == slot {
      EntryNotAbsent(out, e);
      FlushReads(w, out, e.key);
      assert Wants(w, out.schema, Key(arch, slot, e.key.page));
    }
    if page: u16 :| Wants(w, out.schema, Key(arch, slot, page)) {
      FlushReads(w, out, Key(arch, slot, page));
      var e := FoundEntry(out, Key(arch, slot, page));
    }
  }

  lemma PageNumberFits(w: World, a: nat, name: Name, p: nat)
    requires WorldOk(w) && Writes(w, a, name, p)
    ensures p < 0x1_0000 && a < SPARSE_ARCH_ID && name in w.layouts
  {
    assert ColumnOk(w, w.archs[a], name);
  }

  /** The archetypes of a flush are those of which a column was dirty. */
  lemma FlushArchetypes(w: World, out: Reader, a: u16)
    requires WorldOk(w) && IsFlush(w, out)
    ensures a in ArchetypeIds(out) <==> WritesArch(w, a)
  {
    hide WorldOk, IsFlush, PageOf, ArchetypeIds, Writes;
    ArchetypeIdsAre(out, a);
    if a in ArchetypeIds(out) {
      var e :| e in out.index && e.key.arch == a;
      PresentIsWanted(w, out, a, e.key.slot);
    }
    if name: Name, p: nat :| Writes(w, a, name, p) {
      PageNumberFits(w, a, name, p);
      assert Wants(w, out.schema, Key(a, ENTITY_SLOT, p)) by { assert WritesRows(w, a, p); }
      PresentIsWanted(w, out, a, ENTITY_SLOT);
    }
  }

  lemma FlushSchemaAt(w: World, out: Reader)
    requires WorldOk(w) && IsFlush(w, out)
    ensures SchemaOk(out.schema) && IsFlushSchema(w, out.schema)
  {
    hide WorldOk, SchemaOk;
  }

  lemma NameAtSlot(schema: SchemaSection, name: Name)
    requires SchemaOk(schema) && name in schema.slots
    ensures schema.EntryFor(schema.slots[name]).Some? && schema.EntryFor(schema.slots[name]).value.name == name
    ensures schema.slots[name] != ENTITY_SLOT
  {
    hide Ascending;
  }

  /** What is written under the slot of a name. */
  lemma ColumnWanted(w: World, out: Reader, a: u16, name: Name, page: u16)
    requires WorldOk(w) && IsFlush(w, out) && Dense(a) && name in out.schema.slots
    ensures Wants(w, out.schema, Key(a, out.schema.slots[name], page)) <==> Writes(w, a, name, page)
  {
    FlushSchemaAt(w, out);
    hide WorldOk, IsFlush, Writes, SchemaOk;
    NameAtSlot(out.schema, name);
  }

  lemma NameWritten(w: World, out: Reader, a: nat, name: Name)
    requires WorldOk(w) && IsFlush(w, out) && WritesColumn(w, a, name)
    ensures name in out.schema.slots
  {
    FlushSchemaAt(w, out);
    hide WorldOk, IsFlush, WritesColumn, SchemaOk;
  }

  lemma SlotWritten(w: World, out: Reader, a: u16, name: Name)
    requires WorldOk(w) && IsFlush(w, out) && Dense(a)
    ensures HasComponent(out, a, name) <==> WritesColumn(w, a, name)
  {
    hide WorldOk, IsFlush, PageOf, Writes, Wants;
    if WritesColumn(w, a, name) { NameWritten(w, out, a, name); }
    if name in out.schema.slots {
      var slot := out.schema.slots[name];
      PresentIsWanted(w, out, a, slot);
      forall page: u16 ensures Wants(w, out.schema, Key(a, slot, page)) <==> Writes(w, a, name, page) {
        ColumnWanted(w, out, a, name, page);
      }
      if p: nat :| Writes(w, a, name, p) {
        PageNumberFits(w, a, name, p);
        assert Wants(w, out.schema, Key(a, slot, p));
      }
    }
  }

  /** The signature of an archetype of a flush is the set of its columns written. */
  lemma FlushSignature(w: World, out: Reader, a: u16)
    requires WorldOk(w) && IsFlush(w, out) && WritesArch(w, a)
    ensures Dense(a) && SigOf(out, a).Some? && SigOf(out, a).value != []
    ensures forall name :: name in SigOf(out, a).value <==> WritesColumn(w, a, name)
  {
    FlushSchemaAt(w, out);
    hide WorldOk, IsFlush, Writes, IsFlushSchema;
    var some, p :| Writes(w, a, some, p);
    PageNumberFits(w, a, some, p);
    AllSlotsNamed(w, out, a);
    hide SigOf, HasComponent, SchemaOk;
    forall name ensures name in SigOf(out, a).value <==> WritesColumn(w, a, name) {
      SigMembers(out, a, name);
      SlotWritten(w, out, a, name);
    }
    assert WritesColumn(w, a, some);
  }

  /** The signature of an archetype is the ascending list of its columns written. */
  lemma SignatureAt(w: World, r: Reader, a: u16, sig: Signature)
    requires WorldOk(w) && IsFlush(w, r) && Ascending(sig) && WritesArch(w, a)
    requires forall name :: name in sig <==> WritesColumn(w, a, name)
    ensures a in ArchetypeIds(r) && SigOf(r, a) == Some(sig)
  {
    FlushSchemaAt(w, r);
    FlushArchetypes(w, r, a);
    hide WorldOk, IsFlush, IsFlushSchema, SchemaOk, ArchetypeIds, Ascending, WritesColumn, WritesArch;
    FlushSignature(w, r, a);
    SigAscends(r, a);
    hide SigOf;
    AscendingUnique(SigOf(r, a).value, sig);
  }

  lemma AllSlotsNamed(w: World, out: Reader, a: u16)
    requires WorldOk(w) && IsFlush(w, out) && Dense(a)
    ensures SigOf(out, a).Some?
  {
    hide WorldOk, IsFlush, Writes, ComponentSlots, NamesOfSlots;
    var slots := ComponentSlots(out, a);
    forall i | 0 <= i < |slots| ensures slots[i] < |out.schema.entries| {
      assert slots[i] in slots;
      ComponentSlotsAre(out, a, slots[i]);
      PresentIsWanted(w, out, a, slots[i]);
    }
  }

  // ── Cells of a flush ───────────────────────────────────────────────────────

  lemma ColumnFacts(w: World, out: Reader, a: nat, name: Name)
    requires WorldOk(w) && IsFlush(w, out) && a < |w.archs| && name in w.archs[a].columns && name in out.schema.slots
    ensures ColumnOk(w, w.archs[a], name) && name in w.layouts
    ensures out.schema.EntryFor(out.schema.slots[name]) == Some(EntryOf(out.schema.slots[name], w.layouts[name]))
    ensures out.schema.slots[name] != ENTITY_SLOT && w.layouts[name].name == name
  {
    FlushSchemaAt(w, out);
    NameAtSlot(out.schema, name);
    hide IsFlush, SchemaOk, EntitiesDiffer, Chunks, EntryFits, PowerOfTwo, ColumnOk, WritesColumn;
  }

  lemma FlushColumnPage(w: World, out: Reader, a: u16, name: Name, row: nat)
    requires WorldOk(w) && IsFlush(w, out) && Dense(a) && a < |w.archs| && row < |w.archs[a].entities|
    requires Writes(w, a, name, row / PAGE_SIZE) && row / PAGE_SIZE < 0x1_0000 && name in out.schema.slots
    ensures name in w.archs[a].columns && row < |w.archs[a].columns[name].cells|
    ensures ColumnCell(out, a, name, row) == Some(w.archs[a].columns[name].cells[row])
  {
    hide WorldOk, IsFlush, PageOf, ColumnPage, CellOnPage, CellsFit, OnPage;
    ColumnFacts(w, out, a, name);
    var slot, p := out.schema.slots[name], row / PAGE_SIZE;
    var entry := out.schema.EntryFor(slot).value;
    var key, column := Key(a, slot, p), w.archs[a].columns[name];
    ColumnWanted(w, out, a, name, p);
    FlushReads(w, out, key);
    var page :| FlushPage(w, out.schema, page) && page.key == key && PageOf(out, key).page == RefOf(page, PageOf(out, key).page.offset);
    ColumnPageReads(key, entry, OnPage(column.cells, p), PageOf(out, key).page, row % PAGE_SIZE);
  }

  /** A row of a flush has the cell of a component exactly where the component's page was
      dirty, and it is the world's. */
  lemma FlushCell(w: World, out: Reader, a: u16, name: Name, row: nat, e: u64)
    requires WorldOk(w) && IsFlush(w, out) && IsRow(out, a, row, e)
    ensures ColumnCell(out, a, name, row).Some? <==> Writes(w, a, name, row / PAGE_SIZE)
    ensures Writes(w, a, name, row / PAGE_SIZE) ==> ColumnCell(out, a, name, row) == Some(w.archs[a].columns[name].cells[row])
  {
    FlushRow(w, out, a, row, e);
    RowNumberFits(out, a, row, e);
    hide WorldOk, IsFlush, IsRow, WritesRows;
    if Writes(w, a, name, row / PAGE_SIZE) {
      assert WritesColumn(w, a, name);
      NameWritten(w, out, a, name);
      hide Writes;
      FlushColumnPage(w, out, a, name, row);
    } else {
      hide Writes;
      CellAbsent(w, out, a, name, row);
    }
  }

  lemma RowNumberFits(r: Reader, a: u16, row: nat, e: u64)
    requires IsRow(r, a, row, e)
    ensures row / PAGE_SIZE < 0x1_0000 && Dense(a)
  {
    hide PageOf;
  }

  lemma CellAbsent(w: World, out: Reader, a: u16, name: Name, row: nat)
    requires WorldOk(w) && IsFlush(w, out) && Dense(a) && !Writes(w, a, name, row / PAGE_SIZE)
    ensures ColumnCell(out, a, name, row).None?
  {
    hide WorldOk, IsFlush, Writes, PageOf, Wants, CellOnPage;
    if name in out.schema.slots && row / PAGE_SIZE < 0x1_0000 {
      ColumnWanted(w, out, a, name, row / PAGE_SIZE);
      FlushReads(w, out, Key(a, out.schema.slots[name], row / PAGE_SIZE));
    }
  }

  // ── What a flush records beside rows ───────────────────────────────────────

  /** Every component written is recorded as it is registered: storage, size, alignment. */
  lemma FlushLayoutIs(w: World, out: Reader, k: nat)
    requires WorldOk(w) && IsFlush(w, out) && k < |out.schema.entries|
    ensures
      var e := out.schema.entries[k];
      && e.slot == k && e.name in w.layouts && e.kind == w.layouts[e.name].kind && e.itemSize == w.layouts[e.name].size
      && e.itemAlign == w.layouts[e.name].align && exists a, p :: Writes(w, a, e.name, p)
  {
    FlushSchemaAt(w, out);
    LayoutNames(w);
    hide WorldOk, IsFlush, Writes, Ascending;
    assert out.schema.entries[k].name in out.schema.slots by { NameOfEntry(out.schema, k); }
    var a :| WritesColumn(w, a, out.schema.entries[k].name);
    var p :| Writes(w, a, out.schema.entries[k].name, p);
  }

  lemma NameOfEntry(schema: SchemaSection, k: nat)
    requires SchemaOk(schema) && k < |schema.entries|
    ensures schema.entries[k].name in schema.slots
  {
    hide Ascending;
  }

  predicate HoldsBlob(out: Reader, key: Key, blobs: seq<bytes>) {
    if key.page < |blobs| then PageOf(out, key).Found? && PageOf(out, key).page.data == blobs[key.page] else PageOf(out, key).Absent?
  }

  /** The allocator's and the sparse components' chunks are there whole, and no others. */
  lemma FlushBlobs(w: World, out: Reader, slot: u16, i: u16)
    requires WorldOk(w) && IsFlush(w, out)
    ensures HoldsBlob(out, Key(META_ARCH_ID, ALLOCATOR_SLOT, i), w.allocator)
    ensures HoldsBlob(out, Key(SPARSE_ARCH_ID, slot, i), if slot < |w.sparse| then w.sparse[slot] else [])
  {
    var a, b := Key(META_ARCH_ID, ALLOCATOR_SLOT, i), Key(SPARSE_ARCH_ID, slot, i);
    FlushReads(w, out, a);
    FlushReads(w, out, b);
    hide IsFlush, PageOf, EntitiesDiffer, LayoutsOk, ColumnOk;
    if Wants(w, out.schema, a) {
      VerbatimData(a, w.allocator[i]);
    }
    if Wants(w, out.schema, b) {
      VerbatimData(b, w.sparse[slot][i]);
    }
  }

  // ── A flush is a well-formed run ───────────────────────────────────────────

  lemma FlushWritable(w: World, schema: SchemaSection)
    requires LayoutsOk(w.layouts) && IsFlushSchema(w, schema)
    ensures Writable(schema) && |schema.entries| <= ALLOCATOR_SLOT
  {
    hide EntryFits, PowerOfTwo, SchemaOk, WritesColumn;
    forall i | 0 <= i < |schema.entries| ensures EntryFits(schema.entries[i]) && PowerOfTwo(schema.entries[i].itemAlign) {
      SameNameFits(EntryOf(0, w.layouts[schema.entries[i].name]), schema.entries[i]);
    }
    var names := NamesOf(schema.entries);
    assert Ascending(names) by { SchemaAscends(schema); }
    AscendingNoDup(names);
    NoDupSize(names);
    SubsetSize((set name | name in names), w.layouts.Keys);
    assert |w.layouts.Keys| == |w.layouts|;
  }

  lemma SchemaAscends(schema: SchemaSection)
    requires SchemaOk(schema)
    ensures Ascending(NamesOf(schema.entries))
  {
  }

  lemma FlushSound(w: World, out: Reader)
    requires WorldOk(w) && IsFlush(w, out)
    ensures Sound(out) && EntitiesReadable(out)
  {
    assert IsFlushSchema(w, out.schema) && LayoutsOk(w.layouts) && |w.sparse| <= ENTITY_SLOT && Indexed(out);
    FlushWritable(w, out.schema);
    hide WorldOk, IsFlush, PageOf, Writable, LayoutsOk, IsFlushSchema, WritesRows, OnPage;
    forall arch: u16, page: u16 {:trigger PageOf(out, Key(arch, ENTITY_SLOT, page))}
      ensures
        var l := PageOf(out, Key(arch, ENTITY_SLOT, page));
        (Dense(arch) ==> !l.Corrupt?) && (l.Found? ==> l.page.header.rowCount <= PAGE_SIZE)
    {
      if Dense(arch) {
        FlushEntityPage(w, out, arch, page);
      } else {
        FlushReads(w, out, Key(arch, ENTITY_SLOT, page));
      }
    }
  }

  /** Allocator and sparse pages pass their checksums. */
  lemma FlushCarried(w: World, out: Reader, key: Key)
    requires WorldOk(w) && IsFlush(w, out) && !Dense(key.arch) && |out.schema.entries| <= ALLOCATOR_SLOT
    ensures
      var l := PageOf(out, key);
      !l.Corrupt? && (l.Found? ==> ValidCrc(out, l.page))
  {
    hide IsFlush, PageOf, ValidCrc, EntitiesDiffer, LayoutsOk, ColumnOk;
    FlushReads(w, out, key);
    if Wants(w, out.schema, key) {
      var page :| FlushPage(w, out.schema, page) && page.key == key && PageOf(out, key).page == RefOf(page, PageOf(out, key).page.offset);
      PageValidates(out, page, PageOf(out, key).page.offset);
    }
  }

  lemma FlushUsable(w: World, out: Reader)
    requires WorldOk(w) && IsFlush(w, out) && |out.schema.entries| <= ALLOCATOR_SLOT && SortedIndex(out.index)
    ensures AllocatorUsable(out) && SparseUsable(out)
  {
    hide WorldOk, IsFlush, PageOf, ValidCrc, AllocatorUsable, SortedIndex;
    forall page: u16 {:trigger PageOf(out, Key(META_ARCH_ID, ALLOCATOR_SLOT, page))}
      ensures
        var l := PageOf(out, Key(META_ARCH_ID, ALLOCATOR_SLOT, page));
        !l.Corrupt? && (l.Found? ==> ValidCrc(out, l.page))
    {
      FlushCarried(w, out, Key(META_ARCH_ID, ALLOCATOR_SLOT, page));
    }
    UsableAllocator(out);
    forall key: Key {:trigger PageOf(out, key)} | SparseKey(key)
      ensures !PageOf(out, key).Corrupt? && (PageOf(out, key).Found? ==> ValidCrc(out, PageOf(out, key).page))
    {
      FlushCarried(w, out, key);
    }
  }

  lemma FlushNamed(w: World, out: Reader)
    requires WorldOk(w) && IsFlush(w, out)
    ensures Named(out) && Populated(out)
  {
    hide WorldOk, IsFlush, SigOf, ArchetypeIds, IsRow, Writes;
    forall a | a in ArchetypeIds(out) ensures SigOf(out, a).Some? && SigOf(out, a).value != [] && HasRow(out, a) {
      FlushArchetypes(w, out, a);
      FlushSignature(w, out, a);
      var name, p: nat :| Writes(w, a, name, p);
      WrittenRow(w, out, a, name, p);
    }
  }

  lemma WrittenRow(w: World, out: Reader, a: u16, name: Name, p: nat)
    requires WorldOk(w) && IsFlush(w, out) && Writes(w, a, name, p)
    ensures HasRow(out, a)
  {
    assert p * PAGE_SIZE < |w.archs[a].entities|;
    hide WorldOk, IsFlush, IsRow, Writes;
    assert (p * PAGE_SIZE) / PAGE_SIZE == p && WritesRows(w, a, p);
    FlushRow(w, out, a, p * PAGE_SIZE, w.archs[a].entities[p * PAGE_SIZE]);
  }

  lemma FlushOneRow(w: World, out: Reader)
    requires WorldOk(w) && IsFlush(w, out)
    ensures OneRow(out)
  {
    assert EntitiesDiffer(w);
    hide WorldOk, IsFlush, IsRow, WritesRows, IsEntity;
    forall a: u16, i: nat, b: u16, j: nat, e: u64 {:trigger IsRow(out, a, i, e), IsRow(out, b, j, e)} | IsRow(out, a, i, e) && IsRow(out, b, j, e)
      ensures a == b && i == j
    {
      FlushRow(w, out, a, i, e);
      FlushRow(w, out, b, j, e);
    }
  }

  /** A flush of any world is a well-formed run, with rows in every archetype. */
  lemma FlushIsWellFormed(w: World, out: Reader)
    requires WorldOk(w) && IsFlush(w, out)
    ensures RunWf(out) && Populated(out)
  {
    FlushSound(w, out);
    FlushNamed(w, out);
    FlushOneRow(w, out);
    SoundParts(out);
    hide WorldOk, IsFlush, Sound, EntitiesReadable, Named, Populated, OneRow, AllocatorUsable, SparseUsable,
      SortedIndex;
    FlushUsable(w, out);
  }

  lemma SoundParts(r: Reader)
    requires Sound(r)
    ensures SortedIndex(r.index) && |r.schema.entries| <= ALLOCATOR_SLOT
  {
    hide Mergeable, Writable;
  }

  // ── What a flush may lack ──────────────────────────────────────────────────

  /** On every page on which a column of an archetype is written, all columns of it that
      are written anywhere are. */
  ghost predicate Even(w: World) {
    forall a, name, p {:trigger Writes(w, a, name, p)} :: WritesRows(w, a, p) && WritesColumn(w, a, name) ==> Writes(w, a, name, p)
  }

  /** A flush is complete if and only if its dirty pages are even. */
  lemma FlushCompleteIff(w: World, out: Reader)
    requires WorldOk(w) && IsFlush(w, out)
    ensures Complete(out) <==> Even(w)
  {
    hide WorldOk, IsFlush, IsRow, SigOf, ColumnCell, Writes;
    if Even(w) {
      forall arch: u16, row: nat, e: u64, name: Name {:trigger IsRow(out, arch, row, e), ColumnCell(out, arch, name, row)} |
        IsRow(out, arch, row, e) && SigOf(out, arch).Some? && name in SigOf(out, arch).value
        ensures ColumnCell(out, arch, name, row).Some?
      {
        FlushRow(w, out, arch, row, e);
        var other :| Writes(w, arch, other, row / PAGE_SIZE);
        FlushSignature(w, out, arch);
        FlushCell(w, out, arch, name, row, e);
      }
    }
    if Complete(out) {
      forall a, name, p {:trigger Writes(w, a, name, p)} | WritesRows(w, a, p) && WritesColumn(w, a, name) ensures Writes(w, a, name, p) {
        CompleteIsEven(w, out, a, name, p);
      }
    }
  }

  lemma CompleteIsEven(w: World, out: Reader, a: nat, name: Name, p: nat)
    requires WorldOk(w) && IsFlush(w, out) && Complete(out) && WritesRows(w, a, p) && WritesColumn(w, a, name)
    ensures Writes(w, a, name, p)
  {
    var other :| Writes(w, a, other, p);
    PageNumberFits(w, a, other, p);
    assert p * PAGE_SIZE < |w.archs[a].entities| && (p * PAGE_SIZE) / PAGE_SIZE == p;
    var row, e := p * PAGE_SIZE, w.archs[a].entities[p * PAGE_SIZE];
    hide WorldOk, IsFlush, IsRow, SigOf, ColumnCell, Writes;
    FlushRow(w, out, a, row, e);
    FlushSignature(w, out, a);
    FlushCell(w, out, a, name, row, e);
  }

  ghost predicate SameColumns(w: World, a: nat, b: nat) {
    forall name :: WritesColumn(w, a, name) <==> WritesColumn(w, b, name)
  }

  /** No two archetypes write the same columns. */
  ghost predicate Apart(w: World) {
    forall a, b :: WritesArch(w, a) && WritesArch(w, b) && SameColumns(w, a, b) ==> a == b
  }

  /** The signatures of a flush differ if and only if its archetypes write different
      columns. */
  lemma FlushDistinctIff(w: World, out: Reader)
    requires WorldOk(w) && IsFlush(w, out)
    ensures DistinctSigs(out) <==> Apart(w)
  {
    hide WorldOk, IsFlush, SigOf, ArchetypeIds, WritesColumn, WritesArch;
    forall a: u16, b: u16 | WritesArch(w, a) && WritesArch(w, b) ensures SigOf(out, a) == SigOf(out, b) <==> SameColumns(w, a, b) {
      SameSignature(w, out, a, b);
    }
    forall a: u16 ensures a in ArchetypeIds(out) <==> WritesArch(w, a) {
      FlushArchetypes(w, out, a);
    }
    forall a: nat | WritesArch(w, a) ensures a < SPARSE_ARCH_ID {
      WrittenFits(w, a);
    }
  }

  lemma WrittenFits(w: World, a: nat)
    requires WorldOk(w) && WritesArch(w, a)
    ensures a < SPARSE_ARCH_ID
  {
  }

  lemma SameSignature(w: World, out: Reader, a: u16, b: u16)
    requires WorldOk(w) && IsFlush(w, out) && WritesArch(w, a) && WritesArch(w, b)
    ensures SigOf(out, a) == SigOf(out, b) <==> SameColumns(w, a, b)
  {
    FlushSchemaAt(w, out);
    hide WorldOk, IsFlush, WritesColumn, WritesArch, SchemaOk, IsFlushSchema;
    FlushSignature(w, out, a);
    FlushSignature(w, out, b);
    SigAscends(out, a);
    SigAscends(out, b);
    hide SigOf;
    if SameColumns(w, a, b) {
      AscendingUnique(SigOf(out, a).value, SigOf(out, b).value);
    }
  }

  /** Everything is dirty, as in the first flush of a world. */
  ghost predicate AllDirty(w: World) {
    forall a, name, p :: 0 <= a < |w.archs| && name in w.archs[a].columns && 0 <= p && p * PAGE_SIZE < |w.archs[a].entities| ==>
      p in w.archs[a].columns[name].dirty
  }

  ghost predicate ComponentsDiffer(w: World) {
    forall a, b :: 0 <= a < |w.archs| && 0 <= b < |w.archs| && w.archs[a].columns.Keys == w.archs[b].columns.Keys ==> a == b
  }

  lemma AllDirtyEven(w: World)
    requires AllDirty(w)
    ensures Even(w)
  {
    forall a, name, p {:trigger Writes(w, a, name, p)} | WritesRows(w, a, p) && WritesColumn(w, a, name) ensures Writes(w, a, name, p) {
      var other :| Writes(w, a, other, p);
    }
  }

  /** A flush of everything is complete, and its signatures differ as the archetypes do. */
  lemma FullFlush(w: World, out: Reader)
    requires WorldOk(w) && IsFlush(w, out) && AllDirty(w) && ComponentsDiffer(w)
    ensures Complete(out) && DistinctSigs(out)
  {
    hide WorldOk, IsFlush, Complete, DistinctSigs, AllDirty, WritesColumn, WritesArch, Even;
    FlushCompleteIff(w, out);
    FlushDistinctIff(w, out);
    AllDirtyEven(w);
    forall a: nat, b: nat | WritesArch(w, a) && WritesArch(w, b) && SameColumns(w, a, b) ensures a == b {
      ColumnsWritten(w, a);
      ColumnsWritten(w, b);
      assert w.archs[a].columns.Keys == w.archs[b].columns.Keys;
    }
  }

  lemma ColumnsWritten(w: World, a: nat)
    requires AllDirty(w) && WritesArch(w, a)
    ensures a < |w.archs| && forall name :: name in w.archs[a].columns <==> WritesColumn(w, a, name)
  {
    forall name | name in w.archs[a].columns ensures WritesColumn(w, a, name) {
      assert Writes(w, a, name, 0);
    }
  }

  // ── Every flush that fits is a file ────────────────────────────────────────

  lemma RawPageSize(cells: seq<bytes>, size: nat)
    requires |cells| <= PAGE_SIZE && forall i :: 0 <= i < |cells| ==> |cells[i]| == size
    ensures |Concat(cells)| == |cells| * size
    ensures |Concat(cells)| + PadTo(|Concat(cells)|, PAGE_SIZE * size) == PAGE_SIZE * size
  {
    ConcatLength(cells, size);
    Product(|cells|, PAGE_SIZE, size);
  }

  lemma ColumnPageAgrees(schema: SchemaSection, key: Key, entry: SchemaEntry, cells: seq<bytes>)
    requires schema.EntryFor(key.slot) == Some(entry) && |schema.entries| <= ALLOCATOR_SLOT && Dense(key.arch)
    requires 0 < |cells| <= PAGE_SIZE && CellsFit(entry.kind, cells)
    requires entry.kind.RawCopy? ==> forall i :: 0 <= i < |cells| ==> |cells[i]| == entry.itemSize
    ensures LengthAgrees(schema, ColumnPage(key, entry, cells))
  {
    hide EncRows, RowsFit, Concat, PadTo;
    if entry.kind.RawCopy? {
      RawPageSize(cells, entry.itemSize);
      assert RawSizeAgrees(schema, ColumnPage(key, entry, cells));
    } else {
      assert IsPage(EncRows(cells), |cells|, cells);
    }
  }

  lemma WantedEntry(w: World, schema: SchemaSection, key: Key)
    requires WorldOk(w) && IsFlushSchema(w, schema) && WantsColumn(w, schema, key)
    ensures
      var entry := schema.EntryFor(key.slot).value;
      ColumnOk(w, w.archs[key.arch], entry.name) && entry == EntryOf(key.slot, w.layouts[entry.name])
  {
    hide SchemaOk, EntitiesDiffer, LayoutsOk, Chunks, ColumnOk, WritesColumn;
  }

  lemma FlushColumnAgrees(w: World, schema: SchemaSection, key: Key)
    requires WorldOk(w) && IsFlushSchema(w, schema) && |schema.entries| <= ALLOCATOR_SLOT
    requires key.slot != ENTITY_SLOT && WantsColumn(w, schema, key) && Dense(key.arch)
    ensures
      var entry := schema.EntryFor(key.slot).value;
      ColumnOk(w, w.archs[key.arch], entry.name)
      && LengthAgrees(schema, ColumnPage(key, entry, OnPage(w.archs[key.arch].columns[entry.name].cells, key.page)))
  {
    hide WorldOk, IsFlushSchema, OnPage, LengthAgrees, ColumnPage, CellsFit;
    WantedEntry(w, schema, key);
    var entry := schema.EntryFor(key.slot).value;
    ColumnPageAgrees(schema, key, entry, OnPage(w.archs[key.arch].columns[entry.name].cells, key.page));
  }

  /** Every page of a flush has the length the reader will compute for it. */
  lemma FlushPageAgrees(w: World, schema: SchemaSection, page: OutPage)
    requires WorldOk(w) && IsFlushSchema(w, schema) && |schema.entries| <= ALLOCATOR_SLOT && FlushPage(w, schema, page)
    ensures LengthAgrees(schema, page)
  {
    hide IsFlushSchema, ColumnPage, EntityPage, EntitiesDiffer, LayoutsOk, ColumnOk, OnPage;
    if Dense(page.key.arch) && page.key.slot != ENTITY_SLOT {
      FlushColumnAgrees(w, schema, page.key);
    } else if Dense(page.key.arch) {
      EntityPageLength(page.key, Ids(OnPage(w.archs[page.key.arch].entities, page.key.page)));
      EntityPageRows(page.key, Ids(OnPage(w.archs[page.key.arch].entities, page.key.page)));
    }
  }

  /** A flush whose pages fit a file is written as a run that opens as the flush, with the
      filter of its own index and the given fingerprint. */
  lemma FlushFile(w: World, schema: SchemaSection, pages: seq<OutPage>, lo: u64, hi: u64, fingerprint: u64)
    returns (file: bytes, out: Reader)
    requires WorldOk(w) && IsFlushSchema(w, schema) && FlushPages(w, schema, pages) && DistinctPages(pages) && |pages| > 0
    requires lo <= hi && !TooBigFor(schema, pages)
    ensures Opens(file, out) && |file| < TOO_LONG && IsFlush(w, out)
    ensures out.schema == schema && out.lo == lo && out.hi == hi && out.pageCount == |pages| == |out.index|
    ensures out.bloom == Some(IndexFilter(out.index, lo)) && out.fingerprint == fingerprint
  {
    assert LayoutsOk(w.layouts);
    hide WorldOk, LayoutsOk, IsFlushSchema, Writable, FlushPage, LengthAgrees, FileOf, Opens, Indexed, Holds,
      PartsOk, DistinctPages, Wants, TooBigFor, IndexFilter, FileOfPages, Filtered;
    FlushWritable(w, schema);
    forall i | 0 <= i < |pages| ensures LengthAgrees(schema, pages[i]) {
      FlushPageAgrees(w, schema, pages[i]);
    }
    var p := PartsExist(schema, pages, lo, hi, fingerprint);
    PartsOpen(p, schema, pages, lo, hi, fingerprint);
    file, out := FileOf(p), ReaderOf(p);
  }

  /** The page a flush writes under a wanted key. */
  ghost function PageAt(w: World, schema: SchemaSection, key: Key): (page: OutPage)
    requires WorldOk(w) && Wants(w, schema, key)
    ensures page.key == key && FlushPage(w, schema, page)
  {
    if key.arch == META_ARCH_ID then Verbatim(key, w.allocator[key.page])
    else if key.arch == SPARSE_ARCH_ID then Verbatim(key, w.sparse[key.slot][key.page])
    else if key.slot == ENTITY_SLOT then EntityPage(key, Ids(OnPage(w.archs[key.arch].entities, key.page)))
    else
      var entry := schema.EntryFor(key.slot).value;
      assert ColumnOk(w, w.archs[key.arch], entry.name);
      ColumnPage(key, entry, OnPage(w.archs[key.arch].columns[entry.name].cells, key.page))
  }

  /** A list of the wanted keys gives the pages of the flush. */
  lemma PagesOfKeys(w: World, schema: SchemaSection, keys: seq<Key>) returns (pages: seq<OutPage>)
    requires WorldOk(w) && NoDup(keys) && forall key :: Wants(w, schema, key) <==> key in keys
    ensures |pages| == |keys| && FlushPages(w, schema, pages) && DistinctPages(pages)
  {
    hide WorldOk, Wants, FlushPage;
    forall i | 0 <= i < |keys| ensures Wants(w, schema, keys[i]) {
      assert keys[i] in keys;
    }
    pages := seq(|keys|, i requires 0 <= i < |keys| => PageAt(w, schema, keys[i]));
    forall key {:trigger Wants(w, schema, key)} | Wants(w, schema, key) ensures HasPage(pages, key) {
      var i :| 0 <= i < |keys| && keys[i] == key;
      assert pages[i].key == key;
    }
  }
}
