/** Writer and reader agree on a run file: pages tile the file, the lengths the reader
    recomputes are the ones laid down, and every key reads the page written for it. */
module RunAgreement {
  import opened Bytes
  import opened Bits
  import opened Order
  import opened Schema
  import opened SchemaCodec
  import opened SerializedPage
  import opened RunFormat
  import opened RunReader
  import opened RunFile
  import opened Merge
  import opened CompactionPlan
  import opened CompactionWriter

  // ── Page lengths ───────────────────────────────────────────────────────────

  /** The reader's rule for the length of a page gives this page's own. */
  ghost predicate LengthAgrees(schema: SchemaSection, page: OutPage) {
    if page.key.slot == ALLOCATOR_SLOT || page.key.arch == SPARSE_ARCH_ID then |page.body| == page.rowCount && page.pad == 0
    else if SlotIsSerialized(schema, page.key.slot) then
      page.pad == 0 && exists rows :: IsPage(page.body, page.rowCount, rows)
    else RawSizeAgrees(schema, page)
  }

  predicate RawSizeAgrees(schema: SchemaSection, page: OutPage) {
    var size := ItemSize(schema, page.key.slot);
    size.Some? && |page.body| == page.rowCount * size.value && |page.body| + page.pad == PAGE_SIZE * size.value
  }

  lemma SerializedLength(buf: bytes, start: nat, rows: seq<bytes>)
    requires RowsFit(rows) && At(buf, start, EncRows(rows))
    ensures start + 4 * (|rows| + 1) <= |buf|
    ensures EncodedLen(buf[start..start + 4 * (|rows| + 1)], |rows|) == Some(|EncRows(rows)|)
  {
    hide EncodedLen, Offsets, Concat, Table;
    var t := Table(Offsets(rows));
    TableLength(Offsets(rows));
    AtConcat(buf, start, t, Concat(rows));
    var head := buf[start..start + |t|];
    assert At(head, 0, t);
    EncodedLenIsLength(rows, head);
  }

  lemma DataLenAgrees(r: Reader, page: OutPage, start: nat)
    requires LengthAgrees(r.schema, page) && At(r.buf, start, page.Data())
    ensures DataLen(r, page.key, page.rowCount, start) == Some(|page.body| + page.pad)
  {
    hide EncodedLen, EncRows, At, RowsFit;
    if page.key.slot != ALLOCATOR_SLOT && page.key.arch != SPARSE_ARCH_ID && SlotIsSerialized(r.schema, page.key.slot) {
      var rows :| IsPage(page.body, page.rowCount, rows);
      assert page.Data() == page.body;
      SerializedLength(r.buf, start, rows);
    }
  }

  /** A page reads back wherever it lies. */
  lemma PageReadsBack(r: Reader, page: OutPage, offset: u64)
    requires LengthAgrees(r.schema, page) && At(r.buf, offset, EncPage(page))
    ensures PageRefAt(r, offset, page.key) == Some(RefOf(page, offset))
  {
    var h := PageHeader(page.key, page.rowCount, Crc32(page.body));
    AtConcat(r.buf, offset, EncPageHeader(h), page.Data());
    PageHeaderAt(r.buf, offset, h);
    DataLenAgrees(r, page, offset + 16);
    hide DataLen, ReadPageHeader, EncPageHeader, Crc32, LengthAgrees;
  }

  /** What the reader makes of a written page. */
  function RefOf(page: OutPage, offset: u64): PageRef {
    PageRef(PageHeader(page.key, page.rowCount, Crc32(page.body)), page.Data(), offset)
  }

  /** Every page written validates when read back: its checksum covers the body and not
      the padding. */
  lemma PageValidates(r: Reader, page: OutPage, offset: u64)
    requires LengthAgrees(r.schema, page) && |r.schema.entries| <= ALLOCATOR_SLOT
    ensures ValidCrc(r, RefOf(page, offset))
  {
    hide Crc32, IsPage;
    assert page.Data()[..|page.body|] == page.body;
    if page.pad == 0 { assert page.Data() == page.body; }
  }

  /** What is read where the page was written: header and offset as written, any data. */
  lemma ValidIffSum(r: Reader, page: OutPage, offset: u64, data: bytes)
    requires LengthAgrees(r.schema, page) && |r.schema.entries| <= ALLOCATOR_SLOT && |data| == |page.Data()|
    ensures ValidCrc(r, RefOf(page, offset).(data := data)) <==> Crc32(data[..|page.body|]) == Crc32(page.body)
  {
    hide Crc32, IsPage;
    if page.pad == 0 { assert page.Data() == page.body && data[..|data|] == data; }
  }

  /** A page of which one byte of the body has changed since it was written is refused. */
  lemma DamagedPageFails(r: Reader, page: OutPage, offset: u64, data: bytes, i: nat)
    requires LengthAgrees(r.schema, page) && |r.schema.entries| <= ALLOCATOR_SLOT && |data| == |page.Data()|
    requires OneByteOff(page.body, data[..|page.body|], i)
    ensures !ValidCrc(r, RefOf(page, offset).(data := data))
  {
    hide Crc32, LengthAgrees, ValidCrc, OneByteOff, RefOf;
    ValidIffSum(r, page, offset, data);
    OneByteChangesCrc(page.body, data[..|page.body|], i);
  }

  // ── Dense pages ────────────────────────────────────────────────────────────

  lemma SliceLength(data: bytes, k: nat, size: nat)
    requires (k + 1) * size <= |data|
    ensures k * size <= (k + 1) * size && |data[k * size..(k + 1) * size]| == size
  {
    assert (k + 1) * size == k * size + size;
  }

  /** A raw cell has exactly the size of its component. */
  lemma RawCellLength(plan: Plan, s: nat, entry: SchemaEntry, e: EmitRow)
    requires entry.kind.RawCopy? && SourceCell(plan, s, entry, e).Some?
    ensures |SourceCell(plan, s, entry, e).value| == entry.itemSize
  {
    hide Translations, FindTranslation, PageOf;
    var input := plan.inputs[e.input];
    var slot := FindTranslation(Translations(plan.sigs[s], input.schema, plan.schema), entry.slot);
    if slot.Some? {
      var l := PageOf(input, Key(plan.table[s][e.input].value, slot.value, e.row / PAGE_SIZE));
      SliceLength(l.page.data, e.row % PAGE_SIZE, entry.itemSize);
    }
  }

  lemma RawColumnLength(plan: Plan, s: nat, entry: SchemaEntry, rows: seq<EmitRow>, cells: seq<bytes>)
    requires entry.kind.RawCopy? && CellsAre(plan, s, entry, rows, cells) && |rows| <= PAGE_SIZE
    ensures |Concat(cells)| == |rows| * entry.itemSize
    ensures |Concat(cells)| + PadTo(|Concat(cells)|, PAGE_SIZE * entry.itemSize) == PAGE_SIZE * entry.itemSize
  {
    hide SourceCell;
    forall i | 0 <= i < |cells| ensures |cells[i]| == entry.itemSize {
      RawCellLength(plan, s, entry, rows[i]);
    }
    ConcatLength(cells, entry.itemSize);
    Product(|cells|, PAGE_SIZE, entry.itemSize);
  }

  lemma Product(a: nat, b: nat, w: nat)
    requires a <= b
    ensures a * w <= b * w
  {
  }

  lemma EntityPageLength(key: Key, rows: seq<EmitRow>)
    requires |rows| <= PAGE_SIZE
    ensures |EntityPage(key, rows).body| + EntityPage(key, rows).pad == PAGE_SIZE * 8
    ensures |EntityPage(key, rows).body| == 8 * |rows|
  {
    ConcatLength(Parts(EntityId, rows), 8);
  }

  /** Every dense page has the length the reader will compute for it. */
  lemma DenseAgrees(plan: Plan, page: OutPage)
    requires PlanOk(plan) && |plan.sigs| <= SPARSE_ARCH_ID && |plan.schema.entries| <= ALLOCATOR_SLOT
    requires RightPage(plan, page)
    ensures LengthAgrees(plan.schema, page)
  {
    hide CellsAre, EncRows, SlotOfSig, Concat, RowsFit, Zeros;
    var rows := RowsOfPage(plan.lists[page.key.arch], page.key.page);
    RowsOfPageOk(plan, page.key.arch, page.key.page);
    if page.key.slot == ENTITY_SLOT {
      EntityPageLength(page.key, rows);
    } else {
      var entry := plan.schema.EntryFor(page.key.slot).value;
      var cells :| CellsAre(plan, page.key.arch, entry, rows, cells) && page == ColumnPage(page.key, entry, cells)
        && CellsFit(entry.kind, cells);
      CellCount(plan, page.key.arch, entry, rows, cells);
      if entry.kind.RawCopy? {
        RawColumnLength(plan, page.key.arch, entry, rows, cells);
        assert RawSizeAgrees(plan.schema, page);
      } else {
        assert IsPage(page.body, page.rowCount, cells);
      }
    }
  }

  lemma CellCount(plan: Plan, s: nat, entry: SchemaEntry, rows: seq<EmitRow>, cells: seq<bytes>)
    requires CellsAre(plan, s, entry, rows, cells)
    ensures |cells| == |rows|
  {
  }

  // ── The whole file ─────────────────────────────────────────────────────────

  predicate PageIs(r: Reader, page: OutPage) {
    var l := PageOf(r, page.key);
    l.Found? && l.page == RefOf(page, l.page.offset)
  }

  /** `r` holds these pages, each under its key, and no others. */
  ghost predicate Holds(r: Reader, pages: seq<OutPage>) {
    && (forall i :: 0 <= i < |pages| ==> PageIs(r, pages[i]))
    && (forall key {:trigger PageOf(r, key)} :: PageOf(r, key).Absent? || HasPage(pages, key))
  }

  predicate DistinctPages(pages: seq<OutPage>) {
    forall i, j :: 0 <= i < j < |pages| ==> pages[i].key != pages[j].key
  }

  /** A file made of pages laid down behind its schema. */
  ghost predicate MadeOf(p: FileParts, prefix: bytes, buf: bytes, index: seq<IndexEntry>, pages: seq<OutPage>) {
    && PartsOk(p) && Laid(prefix, buf, index, pages) && DistinctPages(pages)
    && |prefix| == HEADER + |EncSchema(p.schema.entries)|
    && p.body == Pages(pages) && p.index == Sort(EntryLe, index)
    && forall i :: 0 <= i < |pages| ==> LengthAgrees(p.schema, pages[i])
  }

  /** Pages tile the region between schema and index: each begins where the one before
      it ends. */
  lemma PagesTile(p: FileParts, prefix: bytes, buf: bytes, index: seq<IndexEntry>, pages: seq<OutPage>, i: nat)
    requires MadeOf(p, prefix, buf, index, pages) && i < |pages|
    ensures i == 0 ==> index[i].offset == HEADER + |EncSchema(p.schema.entries)|
    ensures
      var end := index[i].offset + 16 + |pages[i].Data()|;
      end == if i + 1 < |pages| then index[i + 1].offset else IndexOffset(p)
  {
    hide EncSchema, EncPage, Concat, LengthAgrees, Sort, PartsOk, DistinctPages;
    PartsStep(EncPage, pages, i);
    PageLength(pages[i]);
    assert pages[..|pages|] == pages;
    NoPagesNoBytes(pages);
  }

  lemma PageLength(page: OutPage)
    ensures |EncPage(page)| == 16 + |page.Data()|
  {
  }

  lemma NoPagesNoBytes(pages: seq<OutPage>)
    ensures Pages(pages[..0]) == []
  {
    assert Parts(EncPage, pages[..0]) == [];
  }

  lemma EntryOfPage(p: FileParts, prefix: bytes, buf: bytes, index: seq<IndexEntry>, pages: seq<OutPage>, i: nat)
    requires MadeOf(p, prefix, buf, index, pages) && i < |pages|
    ensures |index| == |pages| && index[i].key == pages[i].key
    ensures index[i].offset == |prefix| + |Concat(Parts(EncPage, pages[..i]))|
    ensures LengthAgrees(p.schema, pages[i])
  {
    hide EncSchema, EncPage, Concat, FileOf, LengthAgrees, Sort, PartsOk, DistinctPages;
  }

  lemma BodyInFile(p: FileParts, prefix: bytes, buf: bytes, index: seq<IndexEntry>, pages: seq<OutPage>)
    requires MadeOf(p, prefix, buf, index, pages)
    ensures At(ReaderOf(p).buf, |prefix|, Concat(Parts(EncPage, pages)))
  {
    FileRegions(p);
    hide EncSchema, EncPage, Concat, FileOf, LengthAgrees, Sort, PartsOk, DistinctPages, At;
  }

  lemma MadeSchema(p: FileParts, prefix: bytes, buf: bytes, index: seq<IndexEntry>, pages: seq<OutPage>)
    requires MadeOf(p, prefix, buf, index, pages)
    ensures PartsOk(p) && ReaderOf(p).schema == p.schema
  {
    hide EncSchema, LengthAgrees, Sort, PartsOk, DistinctPages, FileOf, Laid, Pages;
  }

  lemma PageInFile(p: FileParts, prefix: bytes, buf: bytes, index: seq<IndexEntry>, pages: seq<OutPage>, i: nat)
    requires MadeOf(p, prefix, buf, index, pages) && i < |pages|
    ensures |index| == |pages|
    ensures PageRefAt(ReaderOf(p), index[i].offset, pages[i].key) == Some(RefOf(pages[i], index[i].offset))
  {
    hide MadeOf, EncPage, Concat, FileOf, LengthAgrees, PartsOk, PageRefAt, At, RefOf, ReaderOf, IndexOffset;
    EntryOfPage(p, prefix, buf, index, pages, i);
    BodyInFile(p, prefix, buf, index, pages);
    MadeSchema(p, prefix, buf, index, pages);
    AtElement(ReaderOf(p).buf, |prefix|, EncPage, pages, i);
    PageReadsBack(ReaderOf(p), pages[i], index[i].offset);
  }

  lemma DistinctEntries(pages: seq<OutPage>, index: seq<IndexEntry>)
    requires DistinctPages(pages) && |index| == |pages|
    requires forall i :: 0 <= i < |pages| ==> index[i].key == pages[i].key
    ensures DistinctKeys(index)
  {
  }

  lemma SortedEntries(p: FileParts, prefix: bytes, buf: bytes, index: seq<IndexEntry>, pages: seq<OutPage>)
    requires MadeOf(p, prefix, buf, index, pages)
    ensures SortedIndex(p.index) && |p.index| == |index| == |pages| && forall e :: e in p.index <==> e in index
  {
    hide EncSchema, EncPage, Concat, LengthAgrees, Sort, PartsOk;
    DistinctEntries(pages, index);
    SortIndex(index);
  }

  /** The index written is strictly sorted, has one entry for every page, and through
      it every key reads the page written for it. */
  lemma FileHolds(p: FileParts, prefix: bytes, buf: bytes, index: seq<IndexEntry>, pages: seq<OutPage>)
    requires MadeOf(p, prefix, buf, index, pages)
    ensures SortedIndex(p.index) && |p.index| == |pages|
    ensures Holds(ReaderOf(p), pages)
  {
    SortedEntries(p, prefix, buf, index, pages);
    var r := ReaderOf(p);
    assert r.index == p.index;
    hide MadeOf, PageIs, PageOf, SortedIndex, ReaderOf, PartsOk, PageRefAt, RefOf;
    forall i | 0 <= i < |pages| ensures PageIs(r, pages[i]) {
      PageFound(p, prefix, buf, index, pages, i);
    }
    forall key {:trigger PageOf(r, key)} | !PageOf(r, key).Absent? ensures HasPage(pages, key) {
      var e := FoundEntry(r, key);
      var i :| 0 <= i < |index| && index[i] == e;
      EntryOfPage(p, prefix, buf, index, pages, i);
      assert pages[i].key == key;
    }
  }

  lemma PageFound(p: FileParts, prefix: bytes, buf: bytes, index: seq<IndexEntry>, pages: seq<OutPage>, i: nat)
    requires MadeOf(p, prefix, buf, index, pages) && i < |pages|
    ensures PageIs(ReaderOf(p), pages[i])
  {
    SortedEntries(p, prefix, buf, index, pages);
    EntryOfPage(p, prefix, buf, index, pages, i);
    PageInFile(p, prefix, buf, index, pages, i);
    assert ReaderOf(p).index == p.index;
    RefOfOffset(pages[i], index[i].offset);
    hide MadeOf, SortedIndex, ReaderOf, PartsOk, PageRefAt, RefOf, LengthAgrees, PageOf;
    assert index[i] in p.index;
    EntryFinds(ReaderOf(p), index[i], RefOf(pages[i], index[i].offset));
  }

  lemma RefOfOffset(page: OutPage, offset: u64)
    ensures RefOf(page, offset).offset == offset
  {
  }
}
