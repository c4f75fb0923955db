/** What a run means: the image of every entity, its signature and the bytes of every
    component. */
module RunMeaning {
  import opened Bytes
  import opened Order
  import opened Schema
  import opened SchemaCodec
  import opened RunFormat
  import opened RunReader
  import opened Merge
  import opened CompactionPlan
  import opened Carry
  import opened Archetypes

  /** What a run holds of an entity: its components, in name order, and the bytes of each,
      if the run has them. */
  datatype Image = Image(sig: Signature, cells: seq<Option<bytes>>) {
    /** No component lacks its bytes. */
    predicate Whole() { forall i :: 0 <= i < |cells| ==> cells[i].Some? }
  }

  predicate Dense(arch: u16) { arch != META_ARCH_ID && arch != SPARSE_ARCH_ID }

  /** Row `row` of archetype `arch` is entity `e`. */
  predicate IsRow(r: Reader, arch: u16, row: nat, e: u64) {
    Dense(arch) && Live(r, arch, row) && EntityAt(r, arch, row) == e
  }

  /** The bytes of a component in a row, through the run's own slots and layout. */
  ghost function ColumnCell(r: Reader, arch: u16, name: Name, row: nat): Option<bytes> {
    var slot := r.schema.SlotFor(name);
    if slot.None? || r.schema.EntryFor(slot.value).None? then None
    else
      var entry := r.schema.EntryFor(slot.value).value;
      CellOf(r, entry.kind, entry.itemSize, arch, slot.value, row)
  }

  ghost predicate RowImage(r: Reader, arch: u16, row: nat, img: Image) {
    SigOf(r, arch) == Some(img.sig) && |img.cells| == |img.sig|
    && forall i :: 0 <= i < |img.sig| ==> ColumnCell(r, arch, img.sig[i], row) == img.cells[i]
  }

  /** The run holds this image of the entity. */
  ghost predicate ImageIn(r: Reader, e: u64, img: Image) {
    exists arch, row :: IsRow(r, arch, row, e) && RowImage(r, arch, row, img)
  }

  ghost predicate HasEntity(r: Reader, e: u64) {
    exists arch, row :: IsRow(r, arch, row, e)
  }

  /** Newest-wins lookup over runs, newest first: the image in the first run that has
      the entity. */
  ghost predicate StoreImage(runs: seq<Reader>, e: u64, img: Image) {
    exists i :: 0 <= i < |runs| && ImageIn(runs[i], e, img) && forall j :: 0 <= j < i ==> !HasEntity(runs[j], e)
  }

  // ── Well-formed runs ───────────────────────────────────────────────────────

  ghost predicate Sound(r: Reader) {
    Mergeable(r) && Indexed(r) && Writable(r.schema) && |r.schema.entries| <= ALLOCATOR_SLOT
  }

  /** Every archetype has a non-empty signature. */
  ghost predicate Named(r: Reader) {
    forall a :: a in ArchetypeIds(r) ==> SigOf(r, a).Some? && SigOf(r, a).value != []
  }

  ghost predicate EntitiesReadable(r: Reader) {
    forall arch, page {:trigger PageOf(r, Key(arch, ENTITY_SLOT, page))} ::
      Dense(arch) ==> !PageOf(r, Key(arch, ENTITY_SLOT, page)).Corrupt?
  }

  /** No entity has two rows. */
  ghost predicate OneRow(r: Reader) {
    forall a, i, b, j, e {:trigger IsRow(r, a, i, e), IsRow(r, b, j, e)} ::
      IsRow(r, a, i, e) && IsRow(r, b, j, e) ==> a == b && i == j
  }

  /** A run as flush writes it, and, as is proved, as compaction writes it again. */
  ghost predicate RunWf(r: Reader) {
    Sound(r) && Named(r) && EntitiesReadable(r) && OneRow(r) && AllocatorUsable(r) && SparseUsable(r)
  }

  /** Every archetype has a row. */
  ghost predicate Populated(r: Reader) {
    forall a :: a in ArchetypeIds(r) ==> HasRow(r, a)
  }

  ghost predicate HasRow(r: Reader, arch: u16) { exists row, e :: IsRow(r, arch, row, e) }

  // ── What flush does not promise ────────────────────────────────────────────

  /** Every row has bytes for every component of its archetype. */
  ghost predicate Complete(r: Reader) {
    forall arch, row, e, name {:trigger IsRow(r, arch, row, e), ColumnCell(r, arch, name, row)} ::
      IsRow(r, arch, row, e) && SigOf(r, arch).Some? && name in SigOf(r, arch).value ==> ColumnCell(r, arch, name, row).Some?
  }

  /** No two archetypes have the same signature. */
  ghost predicate DistinctSigs(r: Reader) {
    forall a, b :: a in ArchetypeIds(r) && b in ArchetypeIds(r) && SigOf(r, a) == SigOf(r, b) ==> a == b
  }

  /** The archetype is the first of its signature: the only one found by it. */
  ghost predicate Leads(r: Reader, arch: u16) {
    forall b :: b in ArchetypeIds(r) && b < arch ==> SigOf(r, b) != SigOf(r, arch)
  }

  lemma DistinctLead(r: Reader, arch: u16)
    requires DistinctSigs(r) && arch in ArchetypeIds(r)
    ensures Leads(r, arch)
  {
    hide SigOf, ArchetypeIds;
  }

  ghost predicate LeadRow(r: Reader, arch: u16, row: nat, e: u64) {
    IsRow(r, arch, row, e) && Leads(r, arch)
  }

  ghost predicate HasLead(r: Reader, e: u64) {
    exists arch, row :: LeadRow(r, arch, row, e)
  }

  /** The row of `e` in the first of the runs, newest first, that has one in a leading
      archetype. */
  ghost predicate Chosen(runs: seq<Reader>, e: u64, i: nat, arch: u16, row: nat) {
    i < |runs| && LeadRow(runs[i], arch, row, e) && forall j :: 0 <= j < i ==> !HasLead(runs[j], e)
  }

  /** Newest-wins lookup that sees leading archetypes only. */
  ghost predicate LeadImage(runs: seq<Reader>, e: u64, img: Image) {
    exists i: nat, arch, row :: Chosen(runs, e, i, arch, row) && RowImage(runs[i], arch, row, img)
  }

  /** The newest row of `e`. */
  ghost predicate NewestRow(runs: seq<Reader>, e: u64, i: nat, arch: u16, row: nat) {
    i < |runs| && IsRow(runs[i], arch, row, e) && forall j :: 0 <= j < i ==> !HasEntity(runs[j], e)
  }

  /** The newest row of `e` is in an archetype behind another one of its signature. */
  ghost predicate Behind(runs: seq<Reader>, e: u64) {
    exists i: nat, arch, row :: NewestRow(runs, e, i, arch, row) && !Leads(runs[i], arch)
  }

  lemma RowInArchetype(r: Reader, arch: u16, row: nat, e: u64)
    requires IsRow(r, arch, row, e)
    ensures arch in ArchetypeIds(r)
  {
    hide PageOf, EntityAt, ArchetypeIds;
    var entry := FoundEntry(r, Key(arch, ENTITY_SLOT, row / PAGE_SIZE));
    ArchetypeIdsAre(r, arch);
  }

  ghost function Cells(r: Reader, arch: u16, sig: Signature, row: nat): (cells: seq<Option<bytes>>)
    ensures |cells| == |sig| && forall i :: 0 <= i < |sig| ==> cells[i] == ColumnCell(r, arch, sig[i], row)
  {
    seq(|sig|, i requires 0 <= i < |sig| => ColumnCell(r, arch, sig[i], row))
  }

  /** A row of a well-formed run has one image. */
  lemma RowHasImage(r: Reader, arch: u16, row: nat, e: u64) returns (img: Image)
    requires RunWf(r) && IsRow(r, arch, row, e)
    ensures RowImage(r, arch, row, img)
    ensures forall other :: RowImage(r, arch, row, other) ==> other == img
  {
    RowInArchetype(r, arch, row, e);
    assert Named(r);
    hide RunWf, Live, EntityAt, IsRow, ColumnCell, SigOf, ArchetypeIds;
    var sig := SigOf(r, arch).value;
    img := Image(sig, Cells(r, arch, sig, row));
    forall other | RowImage(r, arch, row, other) ensures other == img {
      assert other.cells == img.cells;
    }
  }

  /** Lookup in a well-formed run finds one image, and finds one for every entity. */
  lemma OneImage(r: Reader, e: u64) returns (img: Image)
    requires RunWf(r) && HasEntity(r, e)
    ensures ImageIn(r, e, img)
    ensures forall other :: ImageIn(r, e, other) ==> other == img
  {
    assert OneRow(r);
    hide RunWf, IsRow, RowImage;
    var arch, row :| IsRow(r, arch, row, e);
    img := RowHasImage(r, arch, row, e);
    forall other | ImageIn(r, e, other) ensures other == img {
      var b, j :| IsRow(r, b, j, e) && RowImage(r, b, j, other);
      assert b == arch && j == row;
    }
  }

  /** In a complete run every image is whole. */
  lemma CompleteImages(r: Reader, e: u64, img: Image)
    requires Complete(r) && ImageIn(r, e, img)
    ensures img.Whole()
  {
    hide IsRow, ColumnCell, SigOf;
    var arch, row :| IsRow(r, arch, row, e) && RowImage(r, arch, row, img);
    forall i | 0 <= i < |img.cells| ensures img.cells[i].Some? {
      assert img.sig[i] in img.sig && ColumnCell(r, arch, img.sig[i], row) == img.cells[i];
    }
  }

  // ── What the merge decides ─────────────────────────────────────────────────

  /** The table of a compaction: archetypes found by signature, signatures distinct and
      covering every archetype of every input. */
  ghost predicate Resolved(inputs: seq<Reader>, sigs: seq<Signature>, table: ArchTable) {
    && |table| == |sigs| && NoDup(sigs)
    && (forall s :: 0 <= s < |sigs| ==> |table[s]| == |inputs|)
    && (forall s, i :: 0 <= s < |sigs| && 0 <= i < |inputs| ==> IsArchOf(inputs[i], sigs[s], table[s][i]))
    && (forall i, a :: 0 <= i < |inputs| && a in ArchetypeIds(inputs[i]) && SigOf(inputs[i], a).Some? ==>
      SigOf(inputs[i], a).value in sigs)
  }

  lemma OccursIsRow(inputs: seq<Reader>, sigs: seq<Signature>, table: ArchTable, e: u64, p: Place)
    requires Resolved(inputs, sigs, table) && Occurs(inputs, table, e, p)
    ensures p.input < |inputs| && p.sig < |sigs|
    ensures SigOf(inputs[p.input], table[p.sig][p.input].value) == Some(sigs[p.sig])
    ensures LeadRow(inputs[p.input], table[p.sig][p.input].value, p.row, e)
  {
    hide Live, EntityAt, SigOf, ArchetypeIds;
    assert IsArchOf(inputs[p.input], sigs[p.sig], table[p.sig][p.input]);
    ArchetypeIdsAre(inputs[p.input], table[p.sig][p.input].value);
  }

  lemma RowOccurs(inputs: seq<Reader>, sigs: seq<Signature>, table: ArchTable, i: nat, arch: u16, row: nat, e: u64)
    returns (s: nat)
    requires Resolved(inputs, sigs, table) && i < |inputs| && Named(inputs[i]) && LeadRow(inputs[i], arch, row, e)
    ensures s < |sigs| && SigOf(inputs[i], arch) == Some(sigs[s]) && table[s][i] == Some(arch)
    ensures Occurs(inputs, table, e, Place(i, s, row))
  {
    hide Live, EntityAt, SigOf, ArchetypeIds;
    RowInArchetype(inputs[i], arch, row, e);
    s :| 0 <= s < |sigs| && sigs[s] == SigOf(inputs[i], arch).value;
    assert IsArchOf(inputs[i], sigs[s], table[s][i]);
  }

  /** An emitted row is the entity's row in the newest input that has the entity in a
      leading archetype. */
  lemma EmittedIsNewest(inputs: seq<Reader>, sigs: seq<Signature>, table: ArchTable, lists: seq<seq<EmitRow>>, s: nat,
                        k: nat)
    requires Resolved(inputs, sigs, table) && IsMerge(inputs, table, lists)
    requires forall i :: 0 <= i < |inputs| ==> Named(inputs[i])
    requires s < |lists| && k < |lists[s]|
    ensures
      var m := lists[s][k];
      && s < |table| && m.input < |inputs| && m.input < |table[s]| && table[s][m.input].Some?
      && SigOf(inputs[m.input], table[s][m.input].value) == Some(sigs[s])
      && Chosen(inputs, m.entity, m.input, table[s][m.input].value, m.row)
  {
    hide Live, EntityAt, SigOf, ArchetypeIds, Named, LeadRow, Resolved, Occurs;
    var m := lists[s][k];
    var p := Place(m.input, s, m.row);
    assert Newest(inputs, table, m.entity, p);
    OccursIsRow(inputs, sigs, table, m.entity, p);
    OccursShape(inputs, table, m.entity, p);
    forall j: nat, a, row | j < |inputs| && LeadRow(inputs[j], a, row, m.entity) ensures m.input <= j {
      var t := RowOccurs(inputs, sigs, table, j, a, row, m.entity);
      assert !Before(Place(j, t, row), p);
    }
  }

  lemma OccursShape(inputs: seq<Reader>, table: ArchTable, e: u64, p: Place)
    requires Occurs(inputs, table, e, p)
    ensures p.input < |inputs| && p.sig < |table| && p.input < |table[p.sig]| && table[p.sig][p.input].Some?
  {
  }

  /** Every entity with a row in a leading archetype of some input is emitted. */
  lemma EntityEmitted(inputs: seq<Reader>, sigs: seq<Signature>, table: ArchTable, lists: seq<seq<EmitRow>>, i: nat,
                      e: u64)
    requires Resolved(inputs, sigs, table) && IsMerge(inputs, table, lists)
    requires i < |inputs| && Named(inputs[i]) && HasLead(inputs[i], e)
    ensures Emitted(lists, e)
  {
    hide Live, EntityAt, SigOf, ArchetypeIds, Named, LeadRow, Resolved, Occurs, Emitted;
    var a, row :| LeadRow(inputs[i], a, row, e);
    var s := RowOccurs(inputs, sigs, table, i, a, row, e);
  }

  // ── Leading rows and newest rows ───────────────────────────────────────────

  ghost predicate AllWf(runs: seq<Reader>) {
    forall i :: 0 <= i < |runs| ==> RunWf(runs[i])
  }

  lemma OneNewestRow(runs: seq<Reader>, e: u64, i: nat, arch: u16, row: nat, j: nat, b: u16, k: nat)
    requires AllWf(runs) && NewestRow(runs, e, i, arch, row) && NewestRow(runs, e, j, b, k)
    ensures i == j && arch == b && row == k
  {
    assert RunWf(runs[i]);
    hide Sound, Named, EntitiesReadable, AllocatorUsable, SparseUsable, IsRow;
    assert HasEntity(runs[i], e) && HasEntity(runs[j], e);
  }

  lemma LeadHasEntity(r: Reader, e: u64)
    ensures HasLead(r, e) ==> HasEntity(r, e)
  {
    hide IsRow, Leads;
    if HasLead(r, e) {
      var arch, row :| LeadRow(r, arch, row, e);
      assert IsRow(r, arch, row, e);
    }
  }

  /** Where a newest row leads it is the one chosen. */
  lemma NewestIsChosen(runs: seq<Reader>, e: u64, i: nat, arch: u16, row: nat)
    requires NewestRow(runs, e, i, arch, row) && Leads(runs[i], arch)
    ensures Chosen(runs, e, i, arch, row)
  {
    hide IsRow, Leads;
    forall j | 0 <= j < i ensures !HasLead(runs[j], e) {
      LeadHasEntity(runs[j], e);
    }
  }

  lemma OneChosen(runs: seq<Reader>, e: u64, i: nat, arch: u16, row: nat, j: nat, b: u16, k: nat)
    requires AllWf(runs) && Chosen(runs, e, i, arch, row) && Chosen(runs, e, j, b, k)
    ensures i == j && arch == b && row == k
  {
    assert RunWf(runs[i]);
    hide Sound, Named, EntitiesReadable, AllocatorUsable, SparseUsable, IsRow, Leads;
    assert HasLead(runs[i], e) && HasLead(runs[j], e);
  }

  /** Lookup that finds an image finds it in the newest row. */
  lemma StoredIsNewest(runs: seq<Reader>, e: u64, img: Image) returns (i: nat, arch: u16, row: nat)
    requires StoreImage(runs, e, img)
    ensures NewestRow(runs, e, i, arch, row) && RowImage(runs[i], arch, row, img)
  {
    hide IsRow, RowImage;
    i :| 0 <= i < |runs| && ImageIn(runs[i], e, img) && forall j :: 0 <= j < i ==> !HasEntity(runs[j], e);
    arch, row :| IsRow(runs[i], arch, row, e) && RowImage(runs[i], arch, row, img);
  }

  /** Where the newest row leads, lookup that sees leading archetypes only misses
      nothing. */
  lemma LeadIsStore(runs: seq<Reader>, e: u64, img: Image)
    requires AllWf(runs) && !Behind(runs, e)
    ensures LeadImage(runs, e, img) <==> StoreImage(runs, e, img)
  {
    hide IsRow, RowImage, RunWf, Leads;
    if StoreImage(runs, e, img) {
      var i, arch, row := StoredIsNewest(runs, e, img);
      NewestIsChosen(runs, e, i, arch, row);
    }
    if LeadImage(runs, e, img) {
      var i: nat, arch, row :| Chosen(runs, e, i, arch, row) && RowImage(runs[i], arch, row, img);
      LeadHasEntity(runs[i], e);
      var n, a, k := NewestRowExists(runs, e, i);
      NewestIsChosen(runs, e, n, a, k);
      OneChosen(runs, e, i, arch, row, n, a, k);
      assert ImageIn(runs[i], e, img);
    }
  }

  lemma {:induction false} NewestRowExists(runs: seq<Reader>, e: u64, i: nat) returns (n: nat, arch: u16, row: nat)
    requires i < |runs| && HasEntity(runs[i], e)
    ensures n <= i && NewestRow(runs, e, n, arch, row)
  {
    hide IsRow;
    if j :| 0 <= j < i && HasEntity(runs[j], e) {
      n, arch, row := NewestRowExists(runs, e, j);
    } else {
      n := i;
      arch, row :| IsRow(runs[i], arch, row, e);
    }
  }

  lemma DistinctNotBehind(runs: seq<Reader>, e: u64)
    requires forall i :: 0 <= i < |runs| ==> DistinctSigs(runs[i])
    ensures !Behind(runs, e)
  {
    hide IsRow, Leads, DistinctSigs;
    if i: nat, arch, row :| NewestRow(runs, e, i, arch, row) && !Leads(runs[i], arch) {
      RowInArchetype(runs[i], arch, row, e);
      DistinctLead(runs[i], arch);
    }
  }
}
