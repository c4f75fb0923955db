/** The write loop of compaction: dense pages of every signature, page by page, in
    key order, each laid down behind its header and recorded in the index. */
module CompactionWriter {
  import opened Bytes
  import opened Bits
  import opened Order
  import opened Schema
  import opened SerializedPage
  import opened RunFormat
  import opened RunReader
  import opened Merge
  import opened CompactionPlan

  // ── The file being written ─────────────────────────────────────────────────

  function EncPage(p: OutPage): (s: bytes)
    ensures |s| == 16 + |p.body| + p.pad
  {
    EncPageHeader(PageHeader(p.key, p.rowCount, Crc32(p.body))) + p.Data()
  }

  function Pages(pages: seq<OutPage>): bytes { Concat(Parts(EncPage, pages)) }

  /** Pages tile the file behind `prefix`, and the index says where each begins. */
  ghost predicate Laid(prefix: bytes, buf: bytes, index: seq<IndexEntry>, pages: seq<OutPage>) {
    && buf == prefix + Pages(pages) && |index| == |pages|
    && forall i :: 0 <= i < |pages| ==>
      index[i].key == pages[i].key && index[i].offset == |prefix| + |Pages(pages[..i])|
  }

  class PageSink {
    var buf: bytes
    var index: seq<IndexEntry>
    ghost var pages: seq<OutPage>
    ghost const prefix: bytes

    ghost predicate Valid() reads this { Laid(prefix, buf, index, pages) }

    constructor (buf: bytes)
      ensures Valid() && this.buf == buf == prefix && pages == []
    {
      this.buf := buf;
      this.index := [];
      this.pages := [];
      this.prefix := buf;
      new;
      assert Parts(EncPage, pages) == [];
      assert buf + [] == buf;
    }

    /** Writes one page and its index entry; fails only beyond 2^64 bytes. */
    method Push(page: OutPage) returns (ok: bool)
      requires Valid()
      modifies this
      ensures Valid()
      ensures ok == (|old(buf)| < 0x1_0000_0000_0000_0000)
      ensures pages == if ok then old(pages) + [page] else old(pages)
      ensures |old(buf)| <= |buf|
    {
      hide EncPage;
      if |buf| >= 0x1_0000_0000_0000_0000 {
        return false;
      }
      PushLaid(prefix, buf, index, pages, page);
      index := index + [IndexEntry(page.key, |buf|)];
      buf := buf + EncPage(page);
      pages := pages + [page];
      return true;
    }
  }

  lemma PushLaid(prefix: bytes, buf: bytes, index: seq<IndexEntry>, pages: seq<OutPage>, page: OutPage)
    requires Laid(prefix, buf, index, pages) && |buf| < 0x1_0000_0000_0000_0000
    ensures Laid(prefix, buf + EncPage(page), index + [IndexEntry(page.key, |buf|)], pages + [page])
  {
    hide EncPage, Concat;
    PartsPush(EncPage, pages, page);
    Assoc(prefix, Pages(pages), EncPage(page));
    var more, ix := pages + [page], index + [IndexEntry(page.key, |buf|)];
    forall i | 0 <= i < |more| ensures ix[i].key == more[i].key && ix[i].offset == |prefix| + |Pages(more[..i])| {
      assert more[..i] == pages[..i];
      assert i == |pages| ==> pages[..i] == pages;
    }
  }

  // ── Progress through the wanted pages ──────────────────────────────────────

  /** Keys before (a, s, p) in key order. */
  predicate KeyBelow(k: Key, a: nat, s: nat, p: nat) {
    k.arch < a || (k.arch == a && (k.slot < s || (k.slot == s && k.page < p)))
  }

  ghost predicate HasPage(pages: seq<OutPage>, key: Key) {
    exists i :: 0 <= i < |pages| && pages[i].key == key
  }

  /** Exactly the wanted pages below (a, s, p) are written, in key order. */
  ghost predicate WrittenUpTo(plan: Plan, pages: seq<OutPage>, a: nat, s: nat, p: nat)
    requires PlanOk(plan)
  {
    && (forall i :: 0 <= i < |pages| ==> RightPage(plan, pages[i]) && KeyBelow(pages[i].key, a, s, p))
    && (forall key {:trigger Wanted(plan, key)} :: Wanted(plan, key) && KeyBelow(key, a, s, p) ==> HasPage(pages, key))
    && (forall i, j :: 0 <= i < j < |pages| ==> KeyLess(pages[i].key, pages[j].key))
  }

  /** Part of the wanted pages is written. */
  ghost predicate Partly(plan: Plan, pages: seq<OutPage>) {
    PlanOk(plan) && exists a, s, p :: WrittenUpTo(plan, pages, a, s, p)
  }

  lemma WritePage(plan: Plan, pages: seq<OutPage>, page: OutPage)
    requires PlanOk(plan) && RightPage(plan, page)
    requires WrittenUpTo(plan, pages, page.key.arch, page.key.slot, page.key.page)
    ensures WrittenUpTo(plan, pages + [page], page.key.arch, page.key.slot, page.key.page + 1)
  {
    hide RightPage, Wanted;
    var more := pages + [page];
    forall key {:trigger Wanted(plan, key)} |
      Wanted(plan, key) && KeyBelow(key, page.key.arch, page.key.slot, page.key.page + 1)
      ensures HasPage(more, key)
    {
      if KeyBelow(key, page.key.arch, page.key.slot, page.key.page) {
        var i :| 0 <= i < |pages| && pages[i].key == key;
        assert more[i].key == key;
      } else {
        assert more[|pages|].key == key;
      }
    }
  }

  lemma SkipPages(plan: Plan, pages: seq<OutPage>, a: nat, s: nat, p: nat, a': nat, s': nat, p': nat)
    requires PlanOk(plan) && WrittenUpTo(plan, pages, a, s, p)
    requires a < a' || (a == a' && (s < s' || (s == s' && p <= p')))
    requires forall key {:trigger Wanted(plan, key)} ::
      Wanted(plan, key) && KeyBelow(key, a', s', p') ==> KeyBelow(key, a, s, p)
    ensures WrittenUpTo(plan, pages, a', s', p')
  {
    hide RightPage, Wanted;
  }

  // ── Source cells ───────────────────────────────────────────────────────────

  /** Translation tables of one signature, one for each input. */
  method BuildTranslations(sig: Signature, inputs: seq<Reader>, schema: SchemaSection)
    returns (r: seq<seq<Translation>>)
    ensures |r| == |inputs| && forall i :: 0 <= i < |inputs| ==> r[i] == Translations(sig, inputs[i].schema, schema)
  {
    r := [];
    for i := 0 to |inputs|
      invariant |r| == i && forall j :: 0 <= j < i ==> r[j] == Translations(sig, inputs[j].schema, schema)
    {
      var ts: seq<Translation> := [];
      for k := 0 to |sig|
        invariant ts == Translations(sig[..k], inputs[i].schema, schema)
      {
        assert sig[..k + 1][..k] == sig[..k];
        var input, output := inputs[i].schema.SlotFor(sig[k]), schema.SlotFor(sig[k]);
        if input.Some? && output.Some? {
          ts := ts + [Translation(output.value, input.value)];
        }
      }
      assert sig[..|sig|] == sig;
      r := r + [ts];
    }
  }

  lemma DecodedRows(data: bytes, n: nat, r: Option<seq<bytes>>)
    requires forall rows {:trigger IsPage(data, n, rows)} :: IsPage(data, n, rows) <==> r == Some(rows)
    ensures r == ParseRows(data, n)
  {
    hide IsPage;
    var p := ParseRows(data, n);
    if p.Some? { assert IsPage(data, n, p.value); }
    if r.Some? { assert IsPage(data, n, r.value); }
  }

  method ReadCell(plan: Plan, s: nat, entry: SchemaEntry, e: EmitRow, ts: seq<seq<Translation>>)
    returns (r: Option<bytes>)
    requires s < |plan.sigs| && EmitOk(plan, s, e) && Indexed(plan.inputs[e.input])
    requires |ts| == |plan.inputs|
    requires ts[e.input] == Translations(plan.sigs[s], plan.inputs[e.input].schema, plan.schema)
    ensures r == SourceCell(plan, s, entry, e)
  {
    hide Translations, FindTranslation, PageOf, ParseRows, IsPage, Indexed;
    var input := plan.inputs[e.input];
    var slot := FindTranslation(ts[e.input], entry.slot);
    if slot.None? {
      return if entry.kind.RawCopy? then Some(Zeros(entry.itemSize)) else None;
    }
    if e.row / PAGE_SIZE >= 0x1_0000 {
      return None;
    }
    var k := e.row % PAGE_SIZE;
    var l := GetPage(input, Key(plan.table[s][e.input].value, slot.value, e.row / PAGE_SIZE));
    if !l.Found? {
      return None;
    }
    match entry.kind
    case RawCopy =>
      var size: nat := entry.itemSize;
      if (k + 1) * size > |l.page.data| {
        return None;
      }
      assert k * size <= (k + 1) * size;
      return Some(l.page.data[k * size..(k + 1) * size]);
    case Serialized =>
      var rows := Decode(l.page.data, l.page.header.rowCount);
      DecodedRows(l.page.data, l.page.header.rowCount, rows);
      if rows.None? || k >= |rows.value| {
        return None;
      }
      return Some(rows.value[k]);
  }

  /** Gathers the cells of one output page. */
  method GatherCells(plan: Plan, s: nat, entry: SchemaEntry, rows: seq<EmitRow>, ts: seq<seq<Translation>>)
    returns (r: Option<seq<bytes>>)
    requires s < |plan.sigs| && forall k :: 0 <= k < |rows| ==> EmitOk(plan, s, rows[k])
    requires forall i :: 0 <= i < |plan.inputs| ==> Indexed(plan.inputs[i])
    requires |ts| == |plan.inputs|
    requires forall i :: 0 <= i < |ts| ==> ts[i] == Translations(plan.sigs[s], plan.inputs[i].schema, plan.schema)
    ensures r.Some? ==> CellsAre(plan, s, entry, rows, r.value)
    ensures r.None? ==> exists k :: 0 <= k < |rows| && SourceCell(plan, s, entry, rows[k]).None?
  {
    hide SourceCell, Indexed, Translations;
    var cells: seq<bytes> := [];
    for k := 0 to |rows|
      invariant |cells| == k && forall j :: 0 <= j < k ==> SourceCell(plan, s, entry, rows[j]) == Some(cells[j])
    {
      var cell := ReadCell(plan, s, entry, rows[k], ts);
      if cell.None? {
        return None;
      }
      cells := cells + [cell.value];
    }
    return Some(cells);
  }

  // ── Columns ────────────────────────────────────────────────────────────────

  /** Some emitted row has no source cell for a component of its signature. */
  ghost predicate CellMissing(plan: Plan) {
    PlanOk(plan) && exists s, k, slot :: 0 <= s < |plan.sigs| && 0 <= k < |plan.lists[s]| && CellMissingAt(plan, s, k, slot)
  }

  ghost predicate CellMissingAt(plan: Plan, s: nat, k: nat, slot: u16)
    requires PlanOk(plan) && s < |plan.sigs| && k < |plan.lists[s]|
  {
    SlotOfSig(plan, s, slot) && plan.schema.EntryFor(slot).Some?
    && SourceCell(plan, s, plan.schema.EntryFor(slot).value, plan.lists[s][k]).None?
  }

  /** Rows or signatures beyond what u16 page and archetype numbers can name. */
  predicate TooMany(plan: Plan) {
    exists s :: 0 <= s < |plan.lists| && TooManyIn(plan, s)
  }

  predicate TooManyIn(plan: Plan, s: nat)
    requires s < |plan.lists|
  {
    PagesPer(|plan.lists[s]|) > 0x1_0000 || (s >= 0x1_0000 && |plan.lists[s]| > 0)
  }

  const TOO_LONG: nat := 0x1_0000_0000_0000_0000

  /** What the writer is given: inputs with sound indexes and signatures whose slots
      ascend in name order. */
  ghost predicate Prepared(plan: Plan) {
    && PlanOk(plan)
    && (forall i :: 0 <= i < |plan.inputs| ==> Indexed(plan.inputs[i]))
    && (forall s :: 0 <= s < |plan.sigs| ==> SlotsAscend(plan.schema, plan.sigs[s]))
  }

  /** `cells` are the cells of page `p` of the column of signature `s` at `slot`. */
  ghost predicate PageCells(plan: Plan, s: nat, slot: u16, p: nat, cells: seq<bytes>)
    requires PlanOk(plan)
  {
    s < |plan.sigs| && SlotOfSig(plan, s, slot) && plan.schema.EntryFor(slot).Some? && p < PagesPer(|plan.lists[s]|)
    && CellsAre(plan, s, plan.schema.EntryFor(slot).value, RowsOfPage(plan.lists[s], p), cells)
  }

  /** Some serialized output page exceeds 32-bit offsets: `encode` panics. */
  ghost predicate Oversized(plan: Plan) {
    PlanOk(plan) && exists s, slot, p, cells :: PageCells(plan, s, slot, p, cells) && !CellsFit(plan.schema.EntryFor(slot).value.kind, cells)
  }

  ghost predicate NoPages(plan: Plan) {
    CellMissing(plan) || Oversized(plan)
  }

  /** Every component of the signature has a slot, and slots ascend along it. */
  ghost predicate SlotsAscend(schema: SchemaSection, sig: Signature) {
    && (forall i :: 0 <= i < |sig| ==> schema.SlotFor(sig[i]).Some? && schema.SlotFor(sig[i]).value < |schema.entries|)
    && (forall i, j :: 0 <= i < j < |sig| ==> schema.SlotFor(sig[i]).value < schema.SlotFor(sig[j]).value)
  }

  lemma MissingCell(plan: Plan, s: nat, slot: u16, p: nat, k: nat)
    requires PlanOk(plan) && s < |plan.sigs| && SlotOfSig(plan, s, slot) && plan.schema.EntryFor(slot).Some?
    requires p < PagesPer(|plan.lists[s]|) && k < |RowsOfPage(plan.lists[s], p)|
    requires SourceCell(plan, s, plan.schema.EntryFor(slot).value, RowsOfPage(plan.lists[s], p)[k]).None?
    ensures CellMissing(plan)
  {
    hide SourceCell, SlotOfSig;
    RowsOfPageOk(plan, s, p);
    assert CellMissingAt(plan, s, p * PAGE_SIZE + k, slot);
  }

  /** Builds one column page. */
  method BuildColumnPage(plan: Plan, s: u16, slot: u16, p: u16, ts: seq<seq<Translation>>) returns (r: Option<OutPage>)
    requires Prepared(plan) && s < |plan.sigs| && SlotOfSig(plan, s, slot) && slot != ENTITY_SLOT
    requires plan.schema.EntryFor(slot).Some? && p < PagesPer(|plan.lists[s]|)
    requires |ts| == |plan.inputs|
    requires forall i :: 0 <= i < |ts| ==> ts[i] == Translations(plan.sigs[s], plan.inputs[i].schema, plan.schema)
    ensures r.None? ==> NoPages(plan)
    ensures r.Some? ==> r.value.key == Key(s, slot, p) && RightPage(plan, r.value)
  {
    hide SourceCell, SlotOfSig, Translations, Indexed, RowsFit, EncRows, CellMissing;
    RowsOfPageOk(plan, s, p);
    var rows := RowsOfPage(plan.lists[s], p);
    var entry := plan.schema.EntryFor(slot).value;
    var cells := GatherCells(plan, s, entry, rows, ts);
    if cells.None? {
      ghost var k :| 0 <= k < |rows| && SourceCell(plan, s, entry, rows[k]).None?;
      MissingCell(plan, s, slot, p, k);
      return None;
    }
    var page := OutPage(Key(s, slot, p), |rows|, [], 0);
    match entry.kind {
      case RawCopy =>
        var body := AppendAll(cells.value);
        page := page.(body := body, pad := PadTo(|body|, PAGE_SIZE * entry.itemSize));
      case Serialized =>
        if !RowsFit(cells.value) {
          assert PageCells(plan, s, slot, p, cells.value);
          return None;
        }
        var body := Encode(cells.value);
        page := page.(body := body);
    }
    assert page == ColumnPage(page.key, entry, cells.value);
    return Some(page);
  }

  method AppendAll(cells: seq<bytes>) returns (body: bytes)
    ensures body == Concat(cells)
  {
    body := [];
    for k := 0 to |cells|
      invariant body == Concat(cells[..k])
    {
      ConcatSplit(cells, k);
      body := body + cells[k];
    }
    assert cells[..|cells|] == cells;
  }

  /** All pages of one column. */
  method WriteColumn(plan: Plan, s: u16, slot: u16, ts: seq<seq<Translation>>, sink: PageSink) returns (ok: bool)
    requires Prepared(plan) && s < |plan.sigs| && SlotOfSig(plan, s, slot) && slot != ENTITY_SLOT
    requires plan.schema.EntryFor(slot).Some? && PagesPer(|plan.lists[s]|) <= 0x1_0000
    requires |ts| == |plan.inputs|
    requires forall i :: 0 <= i < |ts| ==> ts[i] == Translations(plan.sigs[s], plan.inputs[i].schema, plan.schema)
    requires sink.Valid() && WrittenUpTo(plan, sink.pages, s, slot, 0)
    modifies sink
    ensures sink.Valid() && Partly(plan, sink.pages)
    ensures !ok ==> NoPages(plan) || |sink.buf| >= TOO_LONG
    ensures ok ==> WrittenUpTo(plan, sink.pages, s, slot + 1, 0)
    ensures ok ==> |sink.pages| == |old(sink.pages)| + PagesPer(|plan.lists[s]|)
  {
    hide WrittenUpTo, RightPage, SlotOfSig, Translations, Laid, Indexed, NoPages;
    var n := PagesPer(|plan.lists[s]|);
    for p := 0 to n
      invariant sink.Valid() && WrittenUpTo(plan, sink.pages, s, slot, p)
      invariant |sink.pages| == |old(sink.pages)| + p
    {
      var page := BuildColumnPage(plan, s, slot, p, ts);
      if page.None? {
        return false;
      }
      WritePage(plan, sink.pages, page.value);
      var pushed := sink.Push(page.value);
      if !pushed {
        return false;
      }
    }
    SkipPages(plan, sink.pages, s, slot, n, s, slot + 1, 0);
    return true;
  }

  /** Builds one entity page. */
  method BuildEntityPage(plan: Plan, s: u16, p: u16) returns (page: OutPage)
    requires PlanOk(plan) && s < |plan.sigs| && p < PagesPer(|plan.lists[s]|)
    ensures page.key == Key(s, ENTITY_SLOT, p) && RightPage(plan, page)
  {
    RowsOfPageOk(plan, s, p);
    var rows := RowsOfPage(plan.lists[s], p);
    var body: bytes := [];
    assert Concat(Parts(EntityId, rows[..0])) == [];
    hide EntityId, Concat, Le64;
    for k := 0 to |rows|
      invariant body == Concat(Parts(EntityId, rows[..k]))
    {
      PartsStep(EntityId, rows, k);
      body := body + EntityId(rows[k]);
    }
    assert rows[..|rows|] == rows;
    page := OutPage(Key(s, ENTITY_SLOT, p), |rows|, body, PadTo(|body|, PAGE_SIZE * 8));
  }

  method WriteEntities(plan: Plan, s: u16, sink: PageSink) returns (ok: bool)
    requires PlanOk(plan) && s < |plan.sigs| && PagesPer(|plan.lists[s]|) <= 0x1_0000
    requires sink.Valid() && WrittenUpTo(plan, sink.pages, s, ENTITY_SLOT, 0)
    modifies sink
    ensures sink.Valid() && Partly(plan, sink.pages)
    ensures !ok ==> |sink.buf| >= TOO_LONG
    ensures ok ==> WrittenUpTo(plan, sink.pages, s + 1, 0, 0)
    ensures ok ==> |sink.pages| == |old(sink.pages)| + PagesPer(|plan.lists[s]|)
  {
    hide WrittenUpTo, RightPage, Laid, SlotOfSig;
    var n := PagesPer(|plan.lists[s]|);
    for p := 0 to n
      invariant sink.Valid() && WrittenUpTo(plan, sink.pages, s, ENTITY_SLOT, p)
      invariant |sink.pages| == |old(sink.pages)| + p
    {
      var page := BuildEntityPage(plan, s, p);
      WritePage(plan, sink.pages, page);
      var pushed := sink.Push(page);
      if !pushed {
        return false;
      }
    }
    SkipPages(plan, sink.pages, s, ENTITY_SLOT, n, s + 1, 0, 0);
    return true;
  }

  // ── Signatures ─────────────────────────────────────────────────────────────

  function SlotOf(plan: Plan, s: nat, i: nat): nat
    requires s < |plan.sigs| && i < |plan.sigs[s]|
  {
    plan.schema.SlotFor(plan.sigs[s][i]).GetOr(0)
  }

  /** The slots of the first `i` components end below this one. */
  function SlotsEnd(plan: Plan, s: nat, i: nat): nat
    requires s < |plan.sigs| && i <= |plan.sigs[s]|
  {
    if i == 0 then 0 else SlotOf(plan, s, i - 1) + 1
  }

  /** No page is wanted between two consecutive slots of a signature, nor between the
      last one and the entity slot. */
  lemma NothingBetweenSlots(plan: Plan, s: nat, i: nat, key: Key)
    requires PlanOk(plan) && s < |plan.sigs| && i <= |plan.sigs[s]| && SlotsAscend(plan.schema, plan.sigs[s])
    requires Wanted(plan, key) && key.arch == s && SlotsEnd(plan, s, i) <= key.slot
    ensures (if i < |plan.sigs[s]| then SlotOf(plan, s, i) else ENTITY_SLOT) <= key.slot
  {
    if key.slot != ENTITY_SLOT {
      var j :| 0 <= j < |plan.sigs[s]| && plan.schema.SlotFor(plan.sigs[s][j]) == Some(key.slot);
      assert SlotOf(plan, s, j) == key.slot;
      if i < j {
        assert SlotOf(plan, s, i) < SlotOf(plan, s, j);
      }
    }
  }

  lemma SkipToSlot(plan: Plan, pages: seq<OutPage>, s: nat, i: nat)
    requires PlanOk(plan) && s < |plan.sigs| && i <= |plan.sigs[s]| && SlotsAscend(plan.schema, plan.sigs[s])
    requires WrittenUpTo(plan, pages, s, SlotsEnd(plan, s, i), 0)
    ensures WrittenUpTo(plan, pages, s, if i < |plan.sigs[s]| then SlotOf(plan, s, i) else ENTITY_SLOT, 0)
  {
    var to: nat := if i < |plan.sigs[s]| then SlotOf(plan, s, i) else ENTITY_SLOT;
    hide Wanted, WrittenUpTo, SlotsEnd, SlotOf;
    forall key {:trigger Wanted(plan, key)} | Wanted(plan, key) && KeyBelow(key, s, to, 0)
      ensures KeyBelow(key, s, SlotsEnd(plan, s, i), 0)
    {
      if key.arch == s && SlotsEnd(plan, s, i) <= key.slot {
        NothingBetweenSlots(plan, s, i, key);
      }
    }
    SlotsInOrder(plan, s, i);
    SkipPages(plan, pages, s, SlotsEnd(plan, s, i), 0, s, to, 0);
  }

  lemma SlotsInOrder(plan: Plan, s: nat, i: nat)
    requires PlanOk(plan) && s < |plan.sigs| && i <= |plan.sigs[s]| && SlotsAscend(plan.schema, plan.sigs[s])
    ensures SlotsEnd(plan, s, i) <= (if i < |plan.sigs[s]| then SlotOf(plan, s, i) else ENTITY_SLOT)
  {
  }

  /** All dense pages of a signature with rows: its columns in slot order, then its
      entity ids. */
  method WriteSignature(plan: Plan, s: u16, sink: PageSink) returns (ok: bool)
    requires Prepared(plan) && s < |plan.sigs| && PagesPer(|plan.lists[s]|) <= 0x1_0000
    requires sink.Valid() && WrittenUpTo(plan, sink.pages, s, 0, 0)
    modifies sink
    ensures sink.Valid() && Partly(plan, sink.pages)
    ensures !ok ==> NoPages(plan) || |sink.buf| >= TOO_LONG
    ensures ok ==> WrittenUpTo(plan, sink.pages, s + 1, 0, 0)
    ensures ok ==> |sink.pages| == |old(sink.pages)| + (|plan.sigs[s]| + 1) * PagesPer(|plan.lists[s]|)
  {
    hide WrittenUpTo, Translations, Laid, Indexed, NoPages, PagesPer;
    var sig, n := plan.sigs[s], PagesPer(|plan.lists[s]|);
    var ts := BuildTranslations(sig, plan.inputs, plan.schema);
    for i := 0 to |sig|
      invariant sink.Valid() && WrittenUpTo(plan, sink.pages, s, SlotsEnd(plan, s, i), 0)
      invariant |sink.pages| == |old(sink.pages)| + i * n
    {
      SkipToSlot(plan, sink.pages, s, i);
      var slot := plan.schema.SlotFor(sig[i]).value;
      assert SlotOfSig(plan, s, slot);
      ok := WriteColumn(plan, s, slot, ts, sink);
      if !ok {
        return;
      }
      assert (i + 1) * n == i * n + n;
    }
    SkipToSlot(plan, sink.pages, s, |sig|);
    ok := WriteEntities(plan, s, sink);
    assert (|sig| + 1) * n == |sig| * n + n;
  }

  /** The page count computed before writing: for every signature with rows, one page
      per column and one for its entities, for each PAGE_SIZE rows. */
  function DensePages(plan: Plan, s: nat): nat
    requires s <= |plan.lists| == |plan.sigs|
  {
    if s == 0 then 0
    else DensePages(plan, s - 1) + (|plan.sigs[s - 1]| + 1) * PagesPer(|plan.lists[s - 1]|)
  }

  /** The dense pages of the first `s` signatures, and nothing else, are in the sink. */
  ghost predicate DenseUpTo(plan: Plan, pages: seq<OutPage>, s: nat)
    requires PlanOk(plan) && s <= |plan.sigs|
  {
    WrittenUpTo(plan, pages, s, 0, 0) && |pages| == DensePages(plan, s) && forall t :: 0 <= t < s ==> !TooManyIn(plan, t)
  }

  lemma DenseSignature(plan: Plan, before: seq<OutPage>, after: seq<OutPage>, s: nat)
    requires PlanOk(plan) && s < |plan.sigs| && DenseUpTo(plan, before, s) && !TooManyIn(plan, s)
    requires WrittenUpTo(plan, after, s + 1, 0, 0)
    requires |after| == |before| + (|plan.sigs[s]| + 1) * PagesPer(|plan.lists[s]|)
    ensures DenseUpTo(plan, after, s + 1)
  {
    hide WrittenUpTo, PagesPer;
  }

  /** All dense pages of the output. */
  method WriteDense(plan: Plan, sink: PageSink) returns (ok: bool)
    requires Prepared(plan)
    requires sink.Valid() && sink.pages == []
    modifies sink
    ensures sink.Valid() && Partly(plan, sink.pages)
    ensures !ok ==> NoPages(plan) || TooMany(plan) || |sink.buf| >= TOO_LONG
    ensures ok ==> WrittenUpTo(plan, sink.pages, |plan.sigs|, 0, 0)
    ensures ok ==> |sink.pages| == DensePages(plan, |plan.sigs|) && !TooMany(plan)
  {
    WrittenNothing(plan);
    hide WrittenUpTo, Laid, NoPages, PagesPer, Prepared, DenseUpTo, DensePages, PlanOk;
    for s := 0 to |plan.sigs|
      invariant sink.Valid() && DenseUpTo(plan, sink.pages, s)
    {
      DenseIs(plan, sink.pages, s);
      if |plan.lists[s]| == 0 {
        SkipEmpty(plan, sink.pages, s);
      } else {
        if TooManyIn(plan, s) {
          return false;
        }
        ghost var before := sink.pages;
        ok := WriteSignature(plan, s, sink);
        if !ok {
          return;
        }
        DenseSignature(plan, before, sink.pages, s);
      }
    }
    DenseIs(plan, sink.pages, |plan.sigs|);
    ok := true;
  }

  lemma DenseIs(plan: Plan, pages: seq<OutPage>, s: nat)
    requires PlanOk(plan) && s <= |plan.sigs| && DenseUpTo(plan, pages, s)
    ensures WrittenUpTo(plan, pages, s, 0, 0) && |pages| == DensePages(plan, s)
    ensures forall t :: 0 <= t < s ==> !TooManyIn(plan, t)
  {
    hide WrittenUpTo;
  }

  lemma WrittenNothing(plan: Plan)
    requires PlanOk(plan)
    ensures DenseUpTo(plan, [], 0)
  {
  }

  lemma SkipEmpty(plan: Plan, pages: seq<OutPage>, s: nat)
    requires PlanOk(plan) && s < |plan.sigs| && |plan.lists[s]| == 0 && DenseUpTo(plan, pages, s)
    ensures DenseUpTo(plan, pages, s + 1)
  {
    hide WrittenUpTo;
    assert PagesPer(0) == 0;
    assert (|plan.sigs[s]| + 1) * 0 == 0;
    SkipPages(plan, pages, s, 0, 0, s + 1, 0, 0);
  }

  // ── What has been written could be written ─────────────────────────────────

  lemma WantedColumn(plan: Plan, pages: seq<OutPage>, s: nat, slot: u16, p: nat) returns (cells: seq<bytes>)
    requires PlanOk(plan) && WrittenUpTo(plan, pages, |plan.sigs|, 0, 0) && !TooMany(plan)
    requires s < |plan.sigs| && SlotOfSig(plan, s, slot) && plan.schema.EntryFor(slot).Some?
    requires p < PagesPer(|plan.lists[s]|)
    ensures PageCells(plan, s, slot, p, cells) && CellsFit(plan.schema.EntryFor(slot).value.kind, cells)
  {
    hide SlotOfSig, CellsAre, CellsFit, EmitOk, RowsOfPage;
    assert !TooManyIn(plan, s);
    var key := Key(s, slot, p);
    assert Wanted(plan, key);
    var i :| 0 <= i < |pages| && pages[i].key == key;
    assert RightPage(plan, pages[i]);
    var entry, rows := plan.schema.EntryFor(slot).value, RowsOfPage(plan.lists[s], p);
    cells :| CellsAre(plan, s, entry, rows, cells) && pages[i] == ColumnPage(key, entry, cells) && CellsFit(entry.kind, cells);
  }

  /** Where all wanted pages are written no source cell was missing and no page too
      large. */
  lemma WrittenHasPages(plan: Plan, pages: seq<OutPage>)
    requires PlanOk(plan) && WrittenUpTo(plan, pages, |plan.sigs|, 0, 0) && !TooMany(plan)
    ensures !NoPages(plan)
  {
    assert |plan.lists| == |plan.sigs|;
    hide SlotOfSig, SourceCell, WrittenUpTo, TooMany, CellsFit, PlanOk;
    if s, k, slot :| 0 <= s < |plan.sigs| && 0 <= k < |plan.lists[s]| && CellMissingAt(plan, s, k, slot) {
      RowOnPage(plan, s, k);
      var cells := WantedColumn(plan, pages, s, slot, k / PAGE_SIZE);
    }
    forall s, slot: u16, p, cells | PageCells(plan, s, slot, p, cells) ensures CellsFit(plan.schema.EntryFor(slot).value.kind, cells) {
      var others := WantedColumn(plan, pages, s, slot, p);
      assert cells == others;
    }
  }

  lemma RowOnPage(plan: Plan, s: nat, k: nat)
    requires PlanOk(plan) && s < |plan.sigs| && k < |plan.lists[s]|
    ensures k / PAGE_SIZE < PagesPer(|plan.lists[s]|)
    ensures
      var rows := RowsOfPage(plan.lists[s], k / PAGE_SIZE);
      k % PAGE_SIZE < |rows| && rows[k % PAGE_SIZE] == plan.lists[s][k]
  {
  }
}
