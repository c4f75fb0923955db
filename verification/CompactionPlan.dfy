/** What a compaction output must hold: every page, as a function of its key and of
    the input runs. */
module CompactionPlan {
  import opened Bytes
  import opened Bits
  import opened Order
  import opened Schema
  import opened SerializedPage
  import opened RunFormat
  import opened RunReader
  import opened Merge

  /** The data a compaction works from once rows and schema are decided. */
  datatype Plan = Plan(inputs: seq<Reader>, table: ArchTable, sigs: seq<Signature>, lists: seq<seq<EmitRow>>,
                       schema: SchemaSection)

  /** A page to be written: its body, and the zeros behind it. */
  datatype OutPage = OutPage(key: Key, rowCount: u16, body: bytes, pad: nat) {
    function Data(): bytes { body + Zeros(pad) }
  }

  // ── Slot translation ───────────────────────────────────────────────────────

  datatype Translation = Translation(output: u16, input: u16)

  /** One row of the translation table: the slots of a name present on both sides. */
  function TranslationsOf(name: Name, inSchema: SchemaSection, outSchema: SchemaSection): seq<Translation> {
    if inSchema.SlotFor(name).Some? && outSchema.SlotFor(name).Some?
    then [Translation(outSchema.SlotFor(name).value, inSchema.SlotFor(name).value)] else []
  }

  /** The translation table of a signature for one input. */
  function Translations(sig: Signature, inSchema: SchemaSection, outSchema: SchemaSection): seq<Translation> {
    if |sig| == 0 then []
    else Translations(sig[..|sig| - 1], inSchema, outSchema) + TranslationsOf(sig[|sig| - 1], inSchema, outSchema)
  }

  /** The input slot of the first entry for an output slot. */
  function FindTranslation(ts: seq<Translation>, output: u16): Option<u16> {
    if |ts| == 0 then None
    else if ts[0].output == output then Some(ts[0].input)
    else FindTranslation(ts[1..], output)
  }

  // ── Source cells ───────────────────────────────────────────────────────────

  /** Row `k` of a column page, by storage kind. */
  ghost function CellOnPage(kind: StorageKind, size: nat, page: PageRef, k: nat): Option<bytes> {
    match kind
    case RawCopy =>
      if (k + 1) * size <= |page.data| then Some(page.data[k * size..(k + 1) * size]) else None
    case Serialized =>
      var rows := ParseRows(page.data, page.header.rowCount);
      if rows.Some? && k < |rows.value| then Some(rows.value[k]) else None
  }

  /** The bytes of a row of an input column, wherever the reader finds its page. */
  ghost function CellOf(r: Reader, kind: StorageKind, size: nat, arch: u16, slot: u16, row: nat): Option<bytes> {
    if row / PAGE_SIZE >= 0x1_0000 then None
    else
      var l := PageOf(r, Key(arch, slot, row / PAGE_SIZE));
      if l.Found? then CellOnPage(kind, size, l.page, row % PAGE_SIZE) else None
  }

  /** An emit row of signature `s` names an input that has the signature. */
  predicate EmitOk(plan: Plan, s: nat, e: EmitRow) {
    s < |plan.table| && e.input < |plan.inputs| && e.input < |plan.table[s]| && plan.table[s][e.input].Some?
  }

  /** The bytes copied into an output column for one emitted row: zero-filled, for raw
      columns only, when the input's schema lacks the component. */
  ghost function SourceCell(plan: Plan, s: nat, entry: SchemaEntry, e: EmitRow): Option<bytes>
  {
    if s >= |plan.sigs| || !EmitOk(plan, s, e) then None
    else
      var input := plan.inputs[e.input];
      var slot := FindTranslation(Translations(plan.sigs[s], input.schema, plan.schema), entry.slot);
      if slot.None? then
        if entry.kind.RawCopy? then Some(Zeros(entry.itemSize)) else None
      else CellOf(input, entry.kind, entry.itemSize, plan.table[s][e.input].value, slot.value, e.row)
  }

  // ── Pages ──────────────────────────────────────────────────────────────────

  function PagesPer(rows: nat): nat { (rows + PAGE_SIZE - 1) / PAGE_SIZE }

  /** The emit rows of page `p` of a list. */
  function RowsOfPage(list: seq<EmitRow>, p: nat): seq<EmitRow>
    requires p < PagesPer(|list|)
  {
    list[p * PAGE_SIZE..if (p + 1) * PAGE_SIZE < |list| then (p + 1) * PAGE_SIZE else |list|]
  }

  /** Every emit row names an input that has the signature. */
  ghost predicate PlanOk(plan: Plan) {
    && |plan.lists| == |plan.sigs| == |plan.table|
    && |plan.schema.entries| <= ENTITY_SLOT
    && (forall i :: 0 <= i < |plan.schema.entries| ==> plan.schema.entries[i].slot == i)
    && forall s, k :: 0 <= s < |plan.lists| && 0 <= k < |plan.lists[s]| ==> EmitOk(plan, s, plan.lists[s][k])
  }

  /** The cells of an output column page, when every source cell is there. */
  ghost predicate CellsAre(plan: Plan, s: nat, entry: SchemaEntry, rows: seq<EmitRow>, cells: seq<bytes>)
  {
    |cells| == |rows| && forall k :: 0 <= k < |rows| ==> SourceCell(plan, s, entry, rows[k]) == Some(cells[k])
  }

  /** The body of a column page of these cells. */
  function ColumnBody(kind: StorageKind, cells: seq<bytes>): bytes {
    if kind.RawCopy? then Concat(cells) else EncRows(cells)
  }

  /** Serialized values whose offsets fit 32 bits, beyond which `encode` panics. */
  predicate CellsFit(kind: StorageKind, cells: seq<bytes>) { kind.Serialized? ==> RowsFit(cells) }

  function PadTo(len: nat, full: nat): nat { if len < full then full - len else 0 }

  function ColumnPage(key: Key, entry: SchemaEntry, cells: seq<bytes>): OutPage
    requires |cells| < 0x1_0000
  {
    var body := ColumnBody(entry.kind, cells);
    OutPage(key, |cells|, body, if entry.kind.RawCopy? then PadTo(|body|, PAGE_SIZE * entry.itemSize) else 0)
  }

  function EntityId(e: EmitRow): bytes { Le64(e.entity) }

  function EntityPage(key: Key, rows: seq<EmitRow>): OutPage
    requires |rows| < 0x1_0000
  {
    var body := Concat(Parts(EntityId, rows));
    OutPage(key, |rows|, body, PadTo(|body|, PAGE_SIZE * 8))
  }

  /** The dense pages a compaction output has. */
  predicate Wanted(plan: Plan, key: Key)
    requires |plan.lists| == |plan.sigs|
  {
    && key.arch < |plan.sigs|
    && key.page < PagesPer(|plan.lists[key.arch]|)
    && (key.slot == ENTITY_SLOT || SlotOfSig(plan, key.arch, key.slot))
  }

  /** `slot` is the output slot of a component of the signature. */
  predicate SlotOfSig(plan: Plan, s: nat, slot: u16)
    requires s < |plan.sigs|
  {
    exists i :: 0 <= i < |plan.sigs[s]| && plan.schema.SlotFor(plan.sigs[s][i]) == Some(slot)
  }

  /** `page` is the page that belongs under its key. */
  ghost predicate RightPage(plan: Plan, page: OutPage)
    requires PlanOk(plan)
  {
    Wanted(plan, page.key) &&
    var rows := RowsOfPage(plan.lists[page.key.arch], page.key.page);
    if page.key.slot == ENTITY_SLOT then page == EntityPage(page.key, rows)
    else
      plan.schema.EntryFor(page.key.slot).Some? &&
      var entry := plan.schema.EntryFor(page.key.slot).value;
      exists cells :: CellsAre(plan, page.key.arch, entry, rows, cells) && page == ColumnPage(page.key, entry, cells)
        && CellsFit(entry.kind, cells)
  }

  lemma RowsOfPageOk(plan: Plan, s: nat, p: nat)
    requires PlanOk(plan) && s < |plan.lists| && p < PagesPer(|plan.lists[s]|)
    ensures
      var rows := RowsOfPage(plan.lists[s], p);
      && 0 < |rows| <= PAGE_SIZE
      && (forall k :: 0 <= k < |rows| ==> rows[k] == plan.lists[s][p * PAGE_SIZE + k] && EmitOk(plan, s, rows[k]))
      && (p + 1 < PagesPer(|plan.lists[s]|) ==> |rows| == PAGE_SIZE)
      && p * PAGE_SIZE + |rows| <= |plan.lists[s]|
  {
  }
}
