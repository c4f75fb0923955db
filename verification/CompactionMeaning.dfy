/** What one compaction does to the store: newest-wins lookup in its output gives an
    entity the image that lookup over its inputs, newest first, gives, unless the
    entity's newest row is in an archetype behind another one of its signature. */
module CompactionMeaning {
  import opened Bytes
  import opened Order
  import opened Schema
  import opened SchemaCodec
  import opened RunFormat
  import opened RunReader
  import opened Merge
  import opened CompactionPlan
  import opened CompactionWriter
  import opened RunAgreement
  import opened Carry
  import opened OutputSchema
  import opened CompactRun
  import opened Archetypes
  import opened RunMeaning
  import opened OutputRun

  /** The entry of a component in a schema. */
  function EntryNamed(schema: SchemaSection, name: Name): Option<SchemaEntry> {
    if schema.SlotFor(name).None? then None else schema.EntryFor(schema.SlotFor(name).value)
  }

  predicate SameLayout(a: SchemaEntry, b: SchemaEntry) { a.kind == b.kind && a.itemSize == b.itemSize }

  /** Inputs lay out a component alike. The writer takes the layout of the first input
      that has it and copies bytes from all. */
  ghost predicate LayoutsAgree(inputs: seq<Reader>) {
    forall i, j, name {:trigger EntryNamed(inputs[i].schema, name), EntryNamed(inputs[j].schema, name)} ::
      0 <= i < |inputs| && 0 <= j < |inputs|
      && EntryNamed(inputs[i].schema, name).Some? && EntryNamed(inputs[j].schema, name).Some?
      ==> SameLayout(EntryNamed(inputs[i].schema, name).value, EntryNamed(inputs[j].schema, name).value)
  }

  /** A compaction job as the picker and the executor set it up. */
  ghost predicate JobWf(inputs: seq<Reader>, sigs: seq<Signature>, table: ArchTable) {
    && (forall i :: 0 <= i < |inputs| ==> RunWf(inputs[i]))
    && LayoutsAgree(inputs) && Resolved(inputs, sigs, table) && SigsOk(sigs) && FromInputs(inputs, sigs)
  }

  /** Every signature of the job is that of an archetype of some input. */
  ghost predicate FromInputs(inputs: seq<Reader>, sigs: seq<Signature>) {
    forall s :: 0 <= s < |sigs| ==> SomeInputHas(inputs, sigs[s])
  }

  ghost predicate SomeInputHas(inputs: seq<Reader>, sig: Signature) {
    exists i, a :: 0 <= i < |inputs| && a in ArchetypeIds(inputs[i]) && SigOf(inputs[i], a) == Some(sig)
  }

  // ── Slot translation ───────────────────────────────────────────────────────

  lemma {:induction false} FindAppend(a: seq<Translation>, b: seq<Translation>, output: u16)
    ensures FindTranslation(a + b, output) ==
      if FindTranslation(a, output).Some? then FindTranslation(a, output) else FindTranslation(b, output)
  {
    if |a| == 0 {
      assert a + b == b;
    } else {
      assert (a + b)[1..] == a[1..] + b;
      FindAppend(a[1..], b, output);
    }
  }

  /** The table translates the output slot of a component to the input's own slot of it,
      whatever either numbering. */
  lemma {:induction false} TranslationFinds(sig: Signature, inSchema: SchemaSection, outSchema: SchemaSection,
                                            name: Name)
    requires Numbered(outSchema) && outSchema.SlotFor(name).Some? && inSchema.SlotFor(name).Some?
    ensures FindTranslation(Translations(sig, inSchema, outSchema), outSchema.SlotFor(name).value) ==
      if name in sig then inSchema.SlotFor(name) else None
  {
    if |sig| != 0 {
      var init, last := sig[..|sig| - 1], sig[|sig| - 1];
      assert sig == init + [last];
      TranslationFinds(init, inSchema, outSchema, name);
      FindAppend(Translations(init, inSchema, outSchema), TranslationsOf(last, inSchema, outSchema), outSchema.SlotFor(name).value);
    }
  }

  lemma {:induction false} NoTranslation(sig: Signature, inSchema: SchemaSection, outSchema: SchemaSection, name: Name)
    requires Numbered(outSchema) && outSchema.SlotFor(name).Some? && inSchema.SlotFor(name).None?
    ensures FindTranslation(Translations(sig, inSchema, outSchema), outSchema.SlotFor(name).value).None?
  {
    if |sig| != 0 {
      var init, last := sig[..|sig| - 1], sig[|sig| - 1];
      NoTranslation(init, inSchema, outSchema, name);
      FindAppend(Translations(init, inSchema, outSchema), TranslationsOf(last, inSchema, outSchema), outSchema.SlotFor(name).value);
    }
  }

  /** Of a component the input does not know a raw cell is all zeros, of the component's size,
      and a serialized one is missing. */
  lemma UnknownCell(plan: Plan, s: nat, entry: SchemaEntry, e: EmitRow)
    requires Numbered(plan.schema) && s < |plan.sigs| && EmitOk(plan, s, e) && plan.schema.SlotFor(entry.name) == Some(entry.slot)
    requires plan.inputs[e.input].schema.SlotFor(entry.name).None?
    ensures entry.kind.Serialized? ==> SourceCell(plan, s, entry, e).None?
    ensures entry.kind.RawCopy? ==> SourceCell(plan, s, entry, e).Some?
    ensures entry.kind.RawCopy? ==>
      var cell := SourceCell(plan, s, entry, e).value;
      |cell| == entry.itemSize && forall i :: 0 <= i < |cell| ==> cell[i] == 0
  {
    NoTranslation(plan.sigs[s], plan.inputs[e.input].schema, plan.schema, entry.name);
  }

  // ── Where a cell comes from ────────────────────────────────────────────────

  lemma {:induction false} FirstLayoutFrom(inputs: seq<Reader>, name: Name) returns (i: nat)
    requires FirstLayout(inputs, name).Some?
    ensures i < |inputs| && FirstLayout(inputs, name) == EntryNamed(inputs[i].schema, name)
  {
    if EntryNamed(inputs[0].schema, name).Some? {
      i := 0;
    } else {
      var j := FirstLayoutFrom(inputs[1..], name);
      i := j + 1;
    }
  }

  /** A component of an archetype has an entry in the schema of its run. */
  lemma SigNameHasEntry(r: Reader, arch: u16, name: Name)
    requires SchemaOk(r.schema) && SigOf(r, arch).Some? && name in SigOf(r, arch).value
    ensures EntryNamed(r.schema, name).Some?
  {
    hide NamesOfSlots, ComponentSlots, Ascending;
    var slots, names := ComponentSlots(r, arch), SigOf(r, arch).value;
    var i :| 0 <= i < |names| && names[i] == name;
    assert r.schema.entries[slots[i]].name in r.schema.slots;
  }

  /** The output lays a component out as every input that has it. */
  lemma OutputLayout(inputs: seq<Reader>, sigs: seq<Signature>, schema: SchemaSection, i: nat, name: Name)
    requires IsOutputSchema(inputs, sigs, schema) && LayoutsAgree(inputs)
    requires i < |inputs| && EntryNamed(inputs[i].schema, name).Some? && name in schema.slots
    ensures EntryNamed(schema, name).Some?
    ensures SameLayout(EntryNamed(schema, name).value, EntryNamed(inputs[i].schema, name).value)
  {
    hide FirstLayout, Ascending, InSome;
    var slot := schema.slots[name];
    assert schema.entries[slot].name == name;
    var j := FirstLayoutFrom(inputs, name);
    assert SameLayout(EntryNamed(inputs[j].schema, name).value, EntryNamed(inputs[i].schema, name).value);
  }

  /** Neither the zero-fill nor the missing-column branch is taken: the cell copied for
      an emitted row is the source row's own cell of the same component. */
  lemma SourceIsColumn(plan: Plan, s: nat, name: Name, e: EmitRow)
    requires IsOutputSchema(plan.inputs, plan.sigs, plan.schema) && LayoutsAgree(plan.inputs)
    requires s < |plan.sigs| && EmitOk(plan, s, e) && name in plan.sigs[s]
    requires EntryNamed(plan.inputs[e.input].schema, name).Some?
    ensures EntryNamed(plan.schema, name).Some?
    ensures SourceCell(plan, s, EntryNamed(plan.schema, name).value, e) ==
      ColumnCell(plan.inputs[e.input], plan.table[s][e.input].value, name, e.row)
  {
    hide FirstLayout, Ascending, LayoutsAgree, CellOf, Translations, FindTranslation, LayoutOk;
    assert InSome(plan.sigs, name);
    var input := plan.inputs[e.input];
    OutputLayout(plan.inputs, plan.sigs, plan.schema, e.input, name);
    TranslationFinds(plan.sigs[s], input.schema, plan.schema, name);
    assert EntryNamed(plan.schema, name).value.slot == plan.schema.slots[name];
  }

  // ── The image of an output row ─────────────────────────────────────────────

  /** What is known of the plan of a written job. */
  ghost predicate Done(plan: Plan, out: Reader) {
    && JobWf(plan.inputs, plan.sigs, plan.table) && IsPlan(plan) && PlanOk(plan) && !TooMany(plan)
    && ReadsDense(plan, out) && out.schema == plan.schema
  }

  lemma DoneParts(plan: Plan, out: Reader)
    requires Done(plan, out)
    ensures JobWf(plan.inputs, plan.sigs, plan.table) && IsPlan(plan) && PlanOk(plan) && !TooMany(plan)
    ensures ReadsDense(plan, out) && out.schema == plan.schema && SchemaOk(plan.schema)
    ensures IsMerge(plan.inputs, plan.table, plan.lists) && IsOutputSchema(plan.inputs, plan.sigs, plan.schema)
    ensures |plan.lists| == |plan.sigs| <= SPARSE_ARCH_ID && NoDup(plan.sigs)
    ensures forall s :: 0 <= s < |plan.sigs| ==> Ascending(plan.sigs[s])
  {
    hide RunWf, LayoutsAgree, FromInputs, PlanOk, TooMany, ReadsDense, IsMerge, LayoutOk, Ascending, IsArchOf;
    MergeShape(plan);
  }

  /** An emitted row is a row of a well-formed input with the same signature. */
  lemma SourceRow(plan: Plan, s: nat, k: nat)
    requires JobWf(plan.inputs, plan.sigs, plan.table) && IsPlan(plan) && s < |plan.lists| && k < |plan.lists[s]|
    ensures
      var m := plan.lists[s][k];
      && s < |plan.sigs| && EmitOk(plan, s, m) && RunWf(plan.inputs[m.input])
      && SigOf(plan.inputs[m.input], plan.table[s][m.input].value) == Some(plan.sigs[s])
      && IsRow(plan.inputs[m.input], plan.table[s][m.input].value, m.row, m.entity)
      && Chosen(plan.inputs, m.entity, m.input, plan.table[s][m.input].value, m.row)
  {
    hide Sound, EntitiesReadable, OneRow, AllocatorUsable, SparseUsable, LayoutsAgree, Resolved, IsMerge,
      IsOutputSchema, IsRow, SigOf, Named, SigsOk, Leads, HasLead;
    MergeShape(plan);
    EmittedIsNewest(plan.inputs, plan.sigs, plan.table, plan.lists, s, k);
  }

  lemma MergeShape(plan: Plan)
    requires IsPlan(plan)
    ensures |plan.lists| == |plan.table| == |plan.sigs|
  {
  }

  /** For every component of a source row the cell copied is the row's own, present or
      missing. */
  lemma SourceCellIs(plan: Plan, s: nat, k: nat, name: Name)
    requires JobWf(plan.inputs, plan.sigs, plan.table) && IsPlan(plan) && s < |plan.lists| && k < |plan.lists[s]|
    requires s < |plan.sigs| && name in plan.sigs[s]
    ensures EmitOk(plan, s, plan.lists[s][k]) && EntryNamed(plan.schema, name).Some?
    ensures
      var m := plan.lists[s][k];
      var cell := ColumnCell(plan.inputs[m.input], plan.table[s][m.input].value, name, m.row);
      SourceCell(plan, s, EntryNamed(plan.schema, name).value, m) == cell
  {
    hide LayoutsAgree, Resolved, IsMerge, IsOutputSchema, IsRow, SigOf, ColumnCell, SourceCell, EntryNamed, RunWf,
      SigsOk, FromInputs, Chosen;
    SourceRow(plan, s, k);
    var m := plan.lists[s][k];
    RowHasEntry(plan.inputs[m.input], plan.table[s][m.input].value, name);
    SourceIsColumn(plan, s, name, m);
  }

  lemma RowHasEntry(r: Reader, arch: u16, name: Name)
    requires RunWf(r) && SigOf(r, arch).Some? && name in SigOf(r, arch).value
    ensures EntryNamed(r.schema, name).Some?
  {
    assert SchemaOk(r.schema);
    hide RunWf, SigOf, SchemaOk;
    SigNameHasEntry(r, arch, name);
  }

  lemma OutputSlotOf(plan: Plan, s: nat, name: Name)
    requires IsOutputSchema(plan.inputs, plan.sigs, plan.schema) && s < |plan.sigs| && name in plan.sigs[s]
    ensures
      var slot := plan.schema.SlotFor(name);
      slot.Some? && slot.value != ENTITY_SLOT && SlotOfSig(plan, s, slot.value)
      && EntryNamed(plan.schema, name) == plan.schema.EntryFor(slot.value)
  {
    hide Ascending, LayoutOk;
    assert InSome(plan.sigs, name);
    var i :| 0 <= i < |plan.sigs[s]| && plan.sigs[s][i] == name;
    assert plan.schema.SlotFor(plan.sigs[s][i]) == plan.schema.SlotFor(name);
  }

  /** The cell of an output row is the cell of its source row. */
  lemma OutputColumn(plan: Plan, out: Reader, s: u16, k: nat, name: Name)
    requires Done(plan, out) && s < |plan.sigs| && s < |plan.lists| && k < |plan.lists[s]| && name in plan.sigs[s]
    ensures
      var m := plan.lists[s][k];
      && EmitOk(plan, s, m) && ColumnCell(out, s, name, k).Some?
      && ColumnCell(out, s, name, k) == ColumnCell(plan.inputs[m.input], plan.table[s][m.input].value, name, m.row)
  {
    DoneParts(plan, out);
    SourceCellIs(plan, s, k, name);
    OutputSlotOf(plan, s, name);
    hide Done, PlanOk, ReadsDense, TooMany, JobWf, IsPlan, SourceCell, CellOf, EmitOk, SlotOfSig, IsOutputSchema,
      SchemaOk, IsMerge;
    OutputCellAt(plan, out, s, plan.schema.SlotFor(name).value, k);
  }

  lemma OutputSigIs(plan: Plan, out: Reader, s: u16)
    requires Done(plan, out) && s < |plan.sigs| && s < |plan.lists| && plan.lists[s] != []
    ensures SigOf(out, s) == Some(plan.sigs[s])
  {
    DoneParts(plan, out);
    SigSlotsAscend(plan.inputs, plan.sigs, plan.schema, s);
    hide Done, PlanOk, ReadsDense, TooMany, JobWf, IsPlan, SlotsAscend, SchemaOk, Ascending, IsOutputSchema, IsMerge;
    OutputSignature(plan, out, s);
  }

  /** An output row and its source row have the same images. */
  lemma SameImage(plan: Plan, out: Reader, s: u16, k: nat, img: Image)
    requires Done(plan, out) && s < |plan.sigs| && s < |plan.lists| && k < |plan.lists[s]|
    ensures EmitOk(plan, s, plan.lists[s][k])
    ensures
      var m := plan.lists[s][k];
      RowImage(out, s, k, img) <==> RowImage(plan.inputs[m.input], plan.table[s][m.input].value, m.row, img)
  {
    SourceRow(plan, s, k);
    OutputSigIs(plan, out, s);
    var m, sig := plan.lists[s][k], plan.sigs[s];
    hide Done, JobWf, IsPlan, SigOf, ColumnCell, IsRow, RunWf, EmitOk, RowImage, Chosen;
    forall i | 0 <= i < |sig|
      ensures ColumnCell(out, s, sig[i], k) == ColumnCell(plan.inputs[m.input], plan.table[s][m.input].value, sig[i], m.row)
    {
      assert sig[i] in sig;
      OutputColumn(plan, out, s, k, sig[i]);
    }
    SameRowImage(out, s, k, plan.inputs[m.input], plan.table[s][m.input].value, m.row, sig, img);
  }

  lemma SameRowImage(r: Reader, a: u16, i: nat, q: Reader, b: u16, j: nat, sig: Signature, img: Image)
    requires SigOf(r, a) == SigOf(q, b) == Some(sig)
    requires forall x :: 0 <= x < |sig| ==> ColumnCell(r, a, sig[x], i) == ColumnCell(q, b, sig[x], j)
    ensures RowImage(r, a, i, img) <==> RowImage(q, b, j, img)
  {
    hide SigOf, ColumnCell;
  }

  // ── The theorem ────────────────────────────────────────────────────────────

  lemma OutputRowIs(plan: Plan, out: Reader, s: u16, row: nat, e: u64)
    requires Done(plan, out)
    ensures IsRow(out, s, row, e) <==> s < |plan.lists| && row < |plan.lists[s]| && plan.lists[s][row].entity == e
    ensures |plan.lists| == |plan.sigs| <= SPARSE_ARCH_ID
  {
    DoneParts(plan, out);
    hide Done, JobWf, PlanOk, ReadsDense, TooMany, IsPlan, IsMerge, IsOutputSchema, SchemaOk;
    OutputIsRow(plan, out, s, row, e);
  }

  lemma OutputImageIsLead(plan: Plan, out: Reader, e: u64, img: Image)
    requires Done(plan, out) && ImageIn(out, e, img)
    ensures LeadImage(plan.inputs, e, img)
  {
    hide Done, IsRow, RowImage, RunWf, Chosen;
    var s: u16, k: nat :| IsRow(out, s, k, e) && RowImage(out, s, k, img);
    OutputRowIs(plan, out, s, k, e);
    SourceRowDone(plan, out, s, k);
    SameImage(plan, out, s, k, img);
  }

  lemma SourceRowDone(plan: Plan, out: Reader, s: nat, k: nat)
    requires Done(plan, out) && s < |plan.lists| && k < |plan.lists[s]|
    ensures
      var m := plan.lists[s][k];
      && s < |plan.sigs| && EmitOk(plan, s, m) && RunWf(plan.inputs[m.input])
      && IsRow(plan.inputs[m.input], plan.table[s][m.input].value, m.row, m.entity)
      && Chosen(plan.inputs, m.entity, m.input, plan.table[s][m.input].value, m.row)
  {
    DoneParts(plan, out);
    hide Done, JobWf, IsPlan, IsRow, RunWf, Chosen, ReadsDense, TooMany, PlanOk, IsMerge, IsOutputSchema, SchemaOk;
    SourceRow(plan, s, k);
  }

  lemma EntityInOutput(plan: Plan, out: Reader, i: nat, e: u64) returns (s: u16, k: nat)
    requires Done(plan, out) && i < |plan.inputs| && HasLead(plan.inputs[i], e)
    ensures s < |plan.lists| && k < |plan.lists[s]| && plan.lists[s][k].entity == e
  {
    DoneEmitted(plan, out, i, e);
    OutputRowIs(plan, out, 0, 0, e);
    hide Done, HasLead, IsRow, Emitted;
    s, k := EmittedAt(plan.lists, e);
  }

  lemma EmittedAt(lists: seq<seq<EmitRow>>, e: u64) returns (s: u16, k: nat)
    requires Emitted(lists, e) && |lists| <= SPARSE_ARCH_ID
    ensures s < |lists| && k < |lists[s]| && lists[s][k].entity == e
  {
    var t: nat, l: nat :| t < |lists| && l < |lists[t]| && lists[t][l].entity == e;
    s, k := t, l;
  }

  lemma DoneEmitted(plan: Plan, out: Reader, i: nat, e: u64)
    requires Done(plan, out) && i < |plan.inputs| && HasLead(plan.inputs[i], e)
    ensures Emitted(plan.lists, e)
  {
    assert RunWf(plan.inputs[i]);
    assert Named(plan.inputs[i]) && IsMerge(plan.inputs, plan.table, plan.lists) && Resolved(plan.inputs, plan.sigs, plan.table);
    hide Done, RunWf, Named, IsMerge, Resolved, HasLead, Emitted;
    EntityEmitted(plan.inputs, plan.sigs, plan.table, plan.lists, i, e);
  }

  lemma LeadImageIsOutput(plan: Plan, out: Reader, e: u64, img: Image)
    requires Done(plan, out) && LeadImage(plan.inputs, e, img)
    ensures ImageIn(out, e, img)
  {
    DoneWf(plan, out);
    hide Done, IsRow, RowImage, RunWf, HasLead, Leads, ImageIn, AllWf;
    var i: nat, arch, row :| Chosen(plan.inputs, e, i, arch, row) && RowImage(plan.inputs[i], arch, row, img);
    LeadRowHas(plan.inputs[i], arch, row, e);
    var s, k := EntityInOutput(plan, out, i, e);
    SourceRowDone(plan, out, s, k);
    var m := plan.lists[s][k];
    OneChosen(plan.inputs, e, i, arch, row, m.input, plan.table[s][m.input].value, m.row);
    SameImage(plan, out, s, k, img);
    OutputRowIs(plan, out, s, k, e);
    RowGivesImage(out, s, k, e, img);
  }

  lemma LeadRowHas(r: Reader, arch: u16, row: nat, e: u64)
    requires LeadRow(r, arch, row, e)
    ensures HasLead(r, e)
  {
    hide IsRow, Leads;
  }

  lemma DoneWf(plan: Plan, out: Reader)
    requires Done(plan, out)
    ensures AllWf(plan.inputs)
  {
    hide RunWf, LayoutsAgree, Resolved, IsPlan, PlanOk, TooMany, ReadsDense;
  }

  lemma RowHasEntity(r: Reader, arch: u16, row: nat, e: u64)
    requires IsRow(r, arch, row, e)
    ensures HasEntity(r, e)
  {
    hide IsRow;
  }

  lemma RowGivesImage(r: Reader, arch: u16, row: nat, e: u64, img: Image)
    requires IsRow(r, arch, row, e) && RowImage(r, arch, row, img)
    ensures ImageIn(r, e, img)
  {
    hide IsRow, RowImage;
  }

  lemma ImageHasEntity(r: Reader, e: u64, img: Image)
    requires ImageIn(r, e, img)
    ensures HasEntity(r, e)
  {
    hide IsRow, RowImage;
  }

  lemma CompactionIsDone(inputs: seq<Reader>, sigs: seq<Signature>, table: ArchTable, out: Reader) returns (plan: Plan)
    requires JobWf(inputs, sigs, table) && IsCompaction(inputs, table, sigs, out)
    ensures plan.inputs == inputs && plan.sigs == sigs && plan.table == table && Done(plan, out)
    ensures Indexed(out) && Writable(out.schema) && |out.schema.entries| <= ALLOCATOR_SLOT
  {
    hide JobWf, PlanOk, TooMany, ReadsDense, Indexed, Writable, IsPages, Holds, IsNewest, CommonFingerprint, IsPlan;
    var p, newest, pages :| Compacts(p, newest, pages, out) && p.inputs == inputs && p.table == table && p.sigs == sigs;
    plan := p;
    OutputReadsDense(plan, newest, pages, out);
  }

  /** Lookup in the output is newest-wins lookup over the inputs that sees leading
      archetypes only. */
  lemma CompactionMerges(inputs: seq<Reader>, sigs: seq<Signature>, table: ArchTable, out: Reader, e: u64, img: Image)
    requires JobWf(inputs, sigs, table) && IsCompaction(inputs, table, sigs, out)
    ensures ImageIn(out, e, img) <==> LeadImage(inputs, e, img)
  {
    hide JobWf, IsCompaction, ImageIn, LeadImage, Done;
    var plan := CompactionIsDone(inputs, sigs, table, out);
    if ImageIn(out, e, img) {
      OutputImageIsLead(plan, out, e, img);
    }
    if LeadImage(inputs, e, img) {
      LeadImageIsOutput(plan, out, e, img);
    }
  }

  lemma JobRunsWf(inputs: seq<Reader>, sigs: seq<Signature>, table: ArchTable)
    requires JobWf(inputs, sigs, table)
    ensures AllWf(inputs)
  {
    hide RunWf, LayoutsAgree, Resolved, FromInputs;
  }

  /** Compaction preserves meaning: unless the newest row of the entity is behind, lookup
      in the output finds an image if and only if newest-wins lookup over the inputs
      finds it. */
  lemma CompactionPreservesMeaning(inputs: seq<Reader>, sigs: seq<Signature>, table: ArchTable, out: Reader, e: u64,
                                   img: Image)
    requires JobWf(inputs, sigs, table) && IsCompaction(inputs, table, sigs, out)
    ensures !Behind(inputs, e) ==> (ImageIn(out, e, img) <==> StoreImage(inputs, e, img))
  {
    CompactionMerges(inputs, sigs, table, out, e, img);
    JobRunsWf(inputs, sigs, table);
    hide JobWf, IsCompaction, ImageIn, LeadImage, StoreImage, Behind, AllWf;
    if !Behind(inputs, e) {
      LeadIsStore(inputs, e, img);
    }
  }

  // ── When an entity is passed over ──────────────────────────────────────────

  /** The newest row of `e` is behind, and its image is not the one that lookup through
      leading archetypes finds. */
  ghost predicate PassedOver(runs: seq<Reader>, e: u64) {
    Behind(runs, e) && exists img :: StoreImage(runs, e, img) && !LeadImage(runs, e, img)
  }

  lemma OneLeadImage(runs: seq<Reader>, e: u64, a: Image, b: Image)
    requires AllWf(runs) && LeadImage(runs, e, a) && LeadImage(runs, e, b)
    ensures a == b
  {
    hide IsRow, RowImage, RunWf, HasLead, Leads;
    var i: nat, arch, row :| Chosen(runs, e, i, arch, row) && RowImage(runs[i], arch, row, a);
    var j: nat, arch', row' :| Chosen(runs, e, j, arch', row') && RowImage(runs[j], arch', row', b);
    OneChosen(runs, e, i, arch, row, j, arch', row');
    assert RunWf(runs[i]) && IsRow(runs[i], arch, row, e);
    var img := RowHasImage(runs[i], arch, row, e);
  }

  lemma OneStoreImage(runs: seq<Reader>, e: u64, a: Image, b: Image)
    requires AllWf(runs) && StoreImage(runs, e, a) && StoreImage(runs, e, b)
    ensures a == b
  {
    hide IsRow, RowImage, RunWf, HasEntity, StoreImage, Sound, Named, EntitiesReadable, AllocatorUsable,
      SparseUsable;
    var i, arch, row := StoredIsNewest(runs, e, a);
    var j, arch', row' := StoredIsNewest(runs, e, b);
    OneNewestRow(runs, e, i, arch, row, j, arch', row');
    assert RunWf(runs[i]);
    var img := RowHasImage(runs[i], arch, row, e);
  }

  lemma BehindHasImage(runs: seq<Reader>, e: u64) returns (img: Image)
    requires AllWf(runs) && Behind(runs, e)
    ensures StoreImage(runs, e, img)
  {
    hide IsRow, RowImage, RunWf, HasEntity, Leads;
    var i: nat, arch, row :| NewestRow(runs, e, i, arch, row) && !Leads(runs[i], arch);
    assert RunWf(runs[i]);
    img := RowHasImage(runs[i], arch, row, e);
    RowGivesImage(runs[i], arch, row, e, img);
  }

  lemma NotPassedOver(runs: seq<Reader>, e: u64, img: Image)
    requires AllWf(runs) && !PassedOver(runs, e)
    ensures LeadImage(runs, e, img) <==> StoreImage(runs, e, img)
  {
    hide StoreImage, LeadImage, Behind, AllWf;
    if !Behind(runs, e) {
      LeadIsStore(runs, e, img);
    } else {
      var newest := BehindHasImage(runs, e);
      if LeadImage(runs, e, img) { OneLeadImage(runs, e, newest, img); }
      if StoreImage(runs, e, img) { OneStoreImage(runs, e, newest, img); }
    }
  }

  /** One compaction, of any well-formed runs, keeps what lookup finds for an entity if
      and only if the entity is not passed over. */
  lemma LookupKeptIff(inputs: seq<Reader>, sigs: seq<Signature>, table: ArchTable, out: Reader, e: u64)
    requires JobWf(inputs, sigs, table) && IsCompaction(inputs, table, sigs, out)
    ensures (forall img :: ImageIn(out, e, img) <==> StoreImage(inputs, e, img)) <==> !PassedOver(inputs, e)
  {
    JobRunsWf(inputs, sigs, table);
    hide JobWf, IsCompaction, ImageIn, LeadImage, StoreImage, Behind, AllWf;
    forall img ensures ImageIn(out, e, img) <==> LeadImage(inputs, e, img) {
      CompactionMerges(inputs, sigs, table, out, e, img);
    }
    if !PassedOver(inputs, e) {
      forall img ensures LeadImage(inputs, e, img) <==> StoreImage(inputs, e, img) {
        NotPassedOver(inputs, e, img);
      }
    }
  }

  /** An entity is in the output if and only if some input has it in a leading
      archetype; any other entity of the inputs is lost with them. */
  lemma EntitySurvivesIff(inputs: seq<Reader>, sigs: seq<Signature>, table: ArchTable, out: Reader, e: u64)
    requires JobWf(inputs, sigs, table) && IsCompaction(inputs, table, sigs, out)
    ensures HasEntity(out, e) <==> exists i :: 0 <= i < |inputs| && HasLead(inputs[i], e)
  {
    hide JobWf, IsCompaction, HasLead, Done, IsRow, RunWf, Leads;
    var plan := CompactionIsDone(inputs, sigs, table, out);
    if HasEntity(out, e) {
      var s: u16, k: nat :| IsRow(out, s, k, e);
      OutputRowIs(plan, out, s, k, e);
      SourceRowDone(plan, out, s, k);
      var m := plan.lists[s][k];
      LeadRowHas(inputs[m.input], plan.table[s][m.input].value, m.row, e);
    }
    if i :| 0 <= i < |inputs| && HasLead(inputs[i], e) {
      var s, k := EntityInOutput(plan, out, i, e);
      OutputRowIs(plan, out, s, k, e);
    }
  }

  // ── Column by column ───────────────────────────────────────────────────────

  lemma CellIsComponent(r: Reader, arch: u16, name: Name, row: nat)
    requires ColumnCell(r, arch, name, row).Some?
    ensures HasComponent(r, arch, name)
  {
    hide PageOf, CellOnPage;
    var e := FoundEntry(r, Key(arch, r.schema.slots[name], row / PAGE_SIZE));
  }

  /** Of a component that is not in the signature there is no cell. */
  lemma NoOtherCell(r: Reader, arch: u16, name: Name, row: nat)
    requires SchemaOk(r.schema) && SigOf(r, arch).Some? && name !in SigOf(r, arch).value
    ensures ColumnCell(r, arch, name, row).None?
  {
    hide SchemaOk, SigOf, ColumnCell, HasComponent;
    SigMembers(r, arch, name);
    if ColumnCell(r, arch, name, row).Some? {
      CellIsComponent(r, arch, name, row);
    }
  }

  /** The cells of an entity in the output are those of the row chosen for it, component by
      component: what that row has no cell of is gone, whatever older inputs have. */
  lemma ChosenCellsOnly(inputs: seq<Reader>, sigs: seq<Signature>, table: ArchTable, out: Reader, e: u64, i: nat, arch: u16,
                        row: nat, name: Name, s: u16, k: nat)
    requires JobWf(inputs, sigs, table) && IsCompaction(inputs, table, sigs, out)
    requires Chosen(inputs, e, i, arch, row) && IsRow(out, s, k, e)
    ensures ColumnCell(out, s, name, k) == ColumnCell(inputs[i], arch, name, row)
  {
    hide JobWf, IsCompaction, Done, IsRow, RunWf, Chosen, ColumnCell, AllWf, SigOf;
    var plan := CompactionIsDone(inputs, sigs, table, out);
    OutputRowIs(plan, out, s, k, e);
    SourceRowDone(plan, out, s, k);
    var m := plan.lists[s][k];
    JobRunsWf(inputs, sigs, table);
    ChosenIndex(inputs, e, i, arch, row);
    OneChosen(inputs, e, i, arch, row, m.input, plan.table[s][m.input].value, m.row);
    DoneSource(plan, out, s, k);
    OutputSigIs(plan, out, s);
    if name in plan.sigs[s] {
      OutputColumn(plan, out, s, k, name);
    } else {
      DoneSchemas(plan, out, i);
      NoOtherCell(out, s, name, k);
      NoOtherCell(inputs[i], arch, name, row);
    }
  }

  /** Row `row` has the newest cell of the component, among rows in leading archetypes. */
  ghost predicate NewestCell(runs: seq<Reader>, e: u64, name: Name, i: nat, arch: u16, row: nat) {
    && i < |runs| && LeadRow(runs[i], arch, row, e) && ColumnCell(runs[i], arch, name, row).Some?
    && forall j, a, k :: 0 <= j < i && LeadRow(runs[j], a, k, e) ==> ColumnCell(runs[j], a, name, k).None?
  }

  ghost predicate NoCell(runs: seq<Reader>, e: u64, name: Name) {
    forall j, a, k :: 0 <= j < |runs| && LeadRow(runs[j], a, k, e) ==> ColumnCell(runs[j], a, name, k).None?
  }

  /** Newest-wins lookup of one component: the newest cell there is, or none. */
  ghost predicate CellFound(runs: seq<Reader>, e: u64, name: Name, cell: Option<bytes>) {
    if cell.None? then NoCell(runs, e, name)
    else exists i: nat, arch, row :: NewestCell(runs, e, name, i, arch, row) && ColumnCell(runs[i], arch, name, row) == cell
  }

  lemma NoLeadRow(r: Reader, e: u64, arch: u16, row: nat)
    requires !HasLead(r, e)
    ensures !LeadRow(r, arch, row, e)
  {
    hide IsRow, Leads;
  }

  /** The output has of a component what newest-wins lookup of that component finds if and
      only if the row chosen has a cell of it, or no input has one. */
  lemma CellKeptIff(inputs: seq<Reader>, sigs: seq<Signature>, table: ArchTable, out: Reader, e: u64, i: nat, arch: u16,
                    row: nat, name: Name, s: u16, k: nat)
    requires JobWf(inputs, sigs, table) && IsCompaction(inputs, table, sigs, out)
    requires Chosen(inputs, e, i, arch, row) && IsRow(out, s, k, e)
    ensures CellFound(inputs, e, name, ColumnCell(out, s, name, k)) <==>
      ColumnCell(inputs[i], arch, name, row).Some? || NoCell(inputs, e, name)
  {
    hide JobWf, IsCompaction, IsRow, ColumnCell, Leads;
    ChosenCellsOnly(inputs, sigs, table, out, e, i, arch, row, name, s, k);
    if ColumnCell(inputs[i], arch, name, row).Some? {
      forall j, a, q | 0 <= j < i ensures !LeadRow(inputs[j], a, q, e) {
        NoLeadRow(inputs[j], e, a, q);
      }
      assert NewestCell(inputs, e, name, i, arch, row);
    }
  }

  lemma ChosenIndex(runs: seq<Reader>, e: u64, i: nat, arch: u16, row: nat)
    requires Chosen(runs, e, i, arch, row)
    ensures i < |runs|
  {
    hide LeadRow, HasLead;
  }

  lemma DoneSource(plan: Plan, out: Reader, s: nat, k: nat)
    requires Done(plan, out) && s < |plan.lists| && k < |plan.lists[s]|
    ensures
      var m := plan.lists[s][k];
      s < |plan.sigs| && EmitOk(plan, s, m) && SigOf(plan.inputs[m.input], plan.table[s][m.input].value) == Some(plan.sigs[s])
  {
    DoneParts(plan, out);
    hide Done, JobWf, IsPlan, IsRow, RunWf, Chosen, ReadsDense, TooMany, PlanOk, IsMerge, IsOutputSchema, SchemaOk,
      SigOf;
    SourceRow(plan, s, k);
  }

  lemma DoneSchemas(plan: Plan, out: Reader, i: nat)
    requires Done(plan, out) && i < |plan.inputs|
    ensures SchemaOk(out.schema) && SchemaOk(plan.inputs[i].schema)
  {
    DoneParts(plan, out);
    DoneWf(plan, out);
    assert RunWf(plan.inputs[i]);
    hide Done, JobWf, IsPlan, ReadsDense, TooMany, PlanOk, IsMerge, IsOutputSchema, Ascending, Mergeable, Indexed,
      EntryFits;
  }
}
