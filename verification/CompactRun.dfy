/** CompactionWriter::write_observed as a whole: merge, schema, dense and carried
    pages, index, bloom filter and file. */
module CompactRun {
  import opened Bytes
  import opened Order
  import opened Schema
  import opened SchemaCodec
  import opened Bloom
  import opened RunFormat
  import opened RunReader
  import opened RunFile
  import opened Merge
  import opened CompactionPlan
  import opened CompactionWriter
  import opened RunAgreement
  import opened Carry
  import opened OutputSchema
  import M = Manifest

  // ── What the writer is given ───────────────────────────────────────────────

  /** Inputs as flush and compaction write them. */
  ghost predicate InputsOk(inputs: seq<Reader>) {
    forall i :: 0 <= i < |inputs| ==> Mergeable(inputs[i]) && Indexed(inputs[i]) && Writable(inputs[i].schema)
  }

  ghost function AllNames(sigs: seq<Signature>): set<Name> {
    set s, i | 0 <= s < |sigs| && 0 <= i < |sigs[s]| :: sigs[s][i]
  }

  /** Signatures in name order, fewer of them than reserved archetype ids allow, and
      fewer components than reserved slots allow. */
  ghost predicate SigsOk(sigs: seq<Signature>) {
    && (forall s :: 0 <= s < |sigs| ==> Ascending(sigs[s]))
    && |sigs| <= SPARSE_ARCH_ID && |AllNames(sigs)| <= ALLOCATOR_SLOT
  }

  // ── From merge and schema to a plan ────────────────────────────────────────

  ghost predicate IsPlan(plan: Plan) {
    IsMerge(plan.inputs, plan.table, plan.lists) && IsOutputSchema(plan.inputs, plan.sigs, plan.schema)
    && |plan.sigs| == |plan.table|
  }

  lemma PlanIsOk(plan: Plan)
    requires IsPlan(plan)
    ensures PlanOk(plan)
  {
    assert SchemaOk(plan.schema);
    MergeEmits(plan);
    hide EmitOk, IsMerge, Ascending;
  }

  lemma MergeEmits(plan: Plan)
    requires IsMerge(plan.inputs, plan.table, plan.lists)
    ensures |plan.lists| == |plan.table|
    ensures forall s, k :: 0 <= s < |plan.lists| && 0 <= k < |plan.lists[s]| ==> EmitOk(plan, s, plan.lists[s][k])
  {
    hide Live, EntityAt;
    forall s, k | 0 <= s < |plan.lists| && 0 <= k < |plan.lists[s]| ensures EmitOk(plan, s, plan.lists[s][k]) {
      var e := plan.lists[s][k];
      assert Newest(plan.inputs, plan.table, e.entity, Place(e.input, s, e.row));
    }
  }

  /** A layout found under a name is that of a valid entry of the name. */
  lemma {:induction false} FirstLayoutFits(inputs: seq<Reader>, name: Name)
    requires forall i :: 0 <= i < |inputs| ==> Writable(inputs[i].schema)
    requires FirstLayout(inputs, name).Some?
    ensures EntryFits(FirstLayout(inputs, name).value) && FirstLayout(inputs, name).value.name == name
  {
    hide EntryFits, Ascending, PowerOfTwo;
    var slot := inputs[0].schema.SlotFor(name);
    if slot.None? || inputs[0].schema.EntryFor(slot.value).None? {
      FirstLayoutFits(inputs[1..], name);
    }
  }

  /** The output schema can be written, and leaves the reserved slots free. */
  lemma OutputSchemaOk(inputs: seq<Reader>, sigs: seq<Signature>, schema: SchemaSection)
    requires IsOutputSchema(inputs, sigs, schema) && |AllNames(sigs)| <= ALLOCATOR_SLOT
    requires forall i :: 0 <= i < |inputs| ==> Writable(inputs[i].schema)
    ensures Writable(schema) && |schema.entries| <= ALLOCATOR_SLOT
  {
    OutputSchemaFits(inputs, sigs, schema);
    var names := NamesOf(schema.entries);
    AscendingNoDup(names);
    NoDupSize(names);
    hide Writable, Ascending, LayoutOk;
    forall name | name in names ensures name in AllNames(sigs) {
      var i :| 0 <= i < |names| && names[i] == name;
      assert schema.entries[i].name in schema.slots;
    }
    SubsetSize((set name | name in names), AllNames(sigs));
  }

  lemma OutputSchemaFits(inputs: seq<Reader>, sigs: seq<Signature>, schema: SchemaSection)
    requires IsOutputSchema(inputs, sigs, schema)
    requires forall i :: 0 <= i < |inputs| ==> Writable(inputs[i].schema)
    ensures Writable(schema)
  {
    hide EntryFits, PowerOfTwo, FirstLayout, SchemaOk, InSome;
    forall i | 0 <= i < |schema.entries|
      ensures EntryFits(schema.entries[i])
      ensures schema.entries[i].itemAlign == 0 || PowerOfTwo(schema.entries[i].itemAlign)
    {
      var e := schema.entries[i];
      FirstLayoutFits(inputs, e.name);
      SameNameFits(FirstLayout(inputs, e.name).value, e);
    }
  }

  lemma SameNameFits(a: SchemaEntry, b: SchemaEntry)
    requires a.name == b.name && EntryFits(a)
    ensures EntryFits(b)
  {
    hide Utf8;
  }

  /** Slots of the output schema ascend along every signature. */
  lemma SigSlotsAscend(inputs: seq<Reader>, sigs: seq<Signature>, schema: SchemaSection, s: nat)
    requires IsOutputSchema(inputs, sigs, schema) && s < |sigs| && Ascending(sigs[s])
    ensures SlotsAscend(schema, sigs[s])
  {
    hide NameLe, LayoutOk;
    NameOrder();
    var sig, names := sigs[s], NamesOf(schema.entries);
    forall i | 0 <= i < |sig| ensures sig[i] in schema.slots {
      assert InSome(sigs, sig[i]);
    }
    forall i, j | 0 <= i < j < |sig| ensures schema.slots[sig[i]] < schema.slots[sig[j]] {
      var a, b := schema.slots[sig[i]], schema.slots[sig[j]];
      assert NameLess(sig[i], sig[j]) && names[a] == sig[i] && names[b] == sig[j];
      assert b < a ==> NameLess(names[b], names[a]);
    }
  }

  // ── Pages of the output ────────────────────────────────────────────────────

  /** The pages carried forward: allocator, then sparse. */
  ghost predicate IsCarried(newest: Reader, carried: seq<OutPage>) {
    exists allocator, sparse :: carried == allocator + sparse && AllocatorCarried(newest, allocator) && SparseCarried(newest, sparse)
  }

  ghost predicate IsPages(plan: Plan, newest: Reader, pages: seq<OutPage>) {
    PlanOk(plan) && exists dense, carried :: pages == dense + carried && WrittenUpTo(plan, dense, |plan.sigs|, 0, 0) && IsCarried(newest, carried)
  }

  predicate CarriedKey(key: Key) {
    (key.arch == META_ARCH_ID && key.slot == ALLOCATOR_SLOT) || (key.arch == SPARSE_ARCH_ID && key.slot != ENTITY_SLOT)
  }

  lemma CarriedPages(newest: Reader, carried: seq<OutPage>, schema: SchemaSection)
    requires IsCarried(newest, carried)
    ensures DistinctPages(carried)
    ensures forall i :: 0 <= i < |carried| ==> CarriedKey(carried[i].key) && LengthAgrees(schema, carried[i])
  {
    var a: seq<OutPage>, b: seq<OutPage> :| carried == a + b && AllocatorCarried(newest, a) && SparseCarried(newest, b);
    hide AllocatorScan, PageOf, SlotIsSerialized;
    forall i | 0 <= i < |carried| ensures CarriedKey(carried[i].key) && LengthAgrees(schema, carried[i]) {
      if i < |a| {
        assert carried[i] == a[i];
      } else {
        assert carried[i] == b[i - |a|] && Carries(newest, b[i - |a|]);
      }
    }
    forall i, j | 0 <= i < j < |carried| ensures carried[i].key != carried[j].key {
      if |a| <= i {
        assert KeyLess(b[i - |a|].key, b[j - |a|].key);
      } else if |a| <= j {
        assert Carries(newest, b[j - |a|]);
      }
    }
  }

  lemma DensePagesAgree(plan: Plan, dense: seq<OutPage>)
    requires PlanOk(plan) && WrittenUpTo(plan, dense, |plan.sigs|, 0, 0)
    requires |plan.sigs| <= SPARSE_ARCH_ID && |plan.schema.entries| <= ALLOCATOR_SLOT
    ensures DistinctPages(dense)
    ensures forall i :: 0 <= i < |dense| ==> dense[i].key.arch < |plan.sigs| && LengthAgrees(plan.schema, dense[i])
  {
    hide RightPage, LengthAgrees, Wanted;
    forall i | 0 <= i < |dense| ensures LengthAgrees(plan.schema, dense[i]) {
      DenseAgrees(plan, dense[i]);
    }
    forall i, j | 0 <= i < j < |dense| ensures dense[i].key != dense[j].key {
      assert KeyLess(dense[i].key, dense[j].key);
    }
  }

  lemma AllPagesAgree(plan: Plan, newest: Reader, dense: seq<OutPage>, carried: seq<OutPage>)
    requires PlanOk(plan) && WrittenUpTo(plan, dense, |plan.sigs|, 0, 0) && IsCarried(newest, carried)
    requires |plan.sigs| <= SPARSE_ARCH_ID && |plan.schema.entries| <= ALLOCATOR_SLOT
    ensures DistinctPages(dense + carried)
    ensures forall i :: 0 <= i < |dense + carried| ==> LengthAgrees(plan.schema, (dense + carried)[i])
  {
    DensePagesAgree(plan, dense);
    CarriedPages(newest, carried, plan.schema);
    hide WrittenUpTo, IsCarried, LengthAgrees;
  }

  // ── Writing ────────────────────────────────────────────────────────────────

  method CarryForward(newest: Reader) returns (carried: Option<seq<OutPage>>)
    requires SortedIndex(newest.index)
    ensures carried.Some? ==> IsCarried(newest, carried.value)
    ensures carried.Some? <==> AllocatorUsable(newest) && SparseUsable(newest)
  {
    hide AllocatorCarried, SparseCarried, AllocatorUsable, SparseUsable;
    var sparse := CarrySparse(newest);
    if sparse.None? {
      return None;
    }
    var allocator := CarryAllocator(newest);
    if allocator.None? {
      return None;
    }
    return Some(allocator.value + sparse.value);
  }

  method PushAll(pages: seq<OutPage>, sink: PageSink) returns (ok: bool)
    requires sink.Valid()
    modifies sink
    ensures sink.Valid()
    ensures ok ==> sink.pages == old(sink.pages) + pages
    ensures !ok ==> |sink.buf| >= TOO_LONG && exists i :: 0 <= i <= |pages| && sink.pages == old(sink.pages) + pages[..i]
  {
    hide Laid;
    assert sink.pages == sink.pages + pages[..0];
    for i := 0 to |pages|
      invariant sink.Valid() && sink.pages == old(sink.pages) + pages[..i]
    {
      ok := sink.Push(pages[i]);
      if !ok {
        return;
      }
      assert old(sink.pages) + pages[..i] + [pages[i]] == old(sink.pages) + pages[..i + 1];
    }
    assert pages[..|pages|] == pages;
    ok := true;
  }

  /** The keys of an index as the filter packs them. */
  function PackedKeys(index: seq<IndexEntry>): (keys: seq<u64>)
    ensures |keys| == |index|
    ensures forall i :: 0 <= i < |keys| ==> keys[i] == PackPageKey(index[i].key.arch, index[i].key.slot, index[i].key.page)
  {
    seq(|index|, i requires 0 <= i < |index| => PackPageKey(index[i].key.arch, index[i].key.slot, index[i].key.page))
  }

  /** The filter of every key in the index. */
  function IndexFilter(index: seq<IndexEntry>, seed: u64): BloomView { FilterOf(PackedKeys(index), seed) }

  lemma IndexFilterHas(index: seq<IndexEntry>, seed: u64)
    ensures |IndexFilter(index, seed).blocks| == BlocksFor(|index|)
    ensures forall i :: 0 <= i < |index| ==>
      IndexFilter(index, seed).Has(PackPageKey(index[i].key.arch, index[i].key.slot, index[i].key.page))
  {
    hide BloomView.Has, PackPageKey, BlocksFor;
    var keys := PackedKeys(index);
    FilledHas(NoBits(|keys|), keys, seed);
    assert forall i :: 0 <= i < |index| ==> IndexFilter(index, seed).Has(keys[i]);
  }

  /** write_bloom_section, which refuses a filter without blocks. */
  method BuildBloom(index: seq<IndexEntry>, seed: u64) returns (r: Option<BloomView>)
    ensures r == if BlocksFor(|index|) == 0 then None else Some(IndexFilter(index, seed))
    ensures r.Some? ==> |r.value.blocks| == BlocksFor(|index|)
    ensures r.Some? ==> forall i :: 0 <= i < |index| ==> r.value.Has(PackPageKey(index[i].key.arch, index[i].key.slot, index[i].key.page))
  {
    IndexFilterHas(index, seed);
    hide BloomView.Has, PackPageKey, BlocksFor, FilterOf;
    var keys: seq<u64> := [];
    for i := 0 to |index|
      invariant |keys| == i
      invariant forall j :: 0 <= j < i ==> keys[j] == PackPageKey(index[j].key.arch, index[j].key.slot, index[j].key.page)
    {
      keys := keys + [PackPageKey(index[i].key.arch, index[i].key.slot, index[i].key.page)];
    }
    assert keys == PackedKeys(index);
    var filter := Build(keys, seed);
    if |filter.blocks| == 0 {
      return None;
    }
    return Some(filter.View());
  }

  /** A file holding exactly these pages. */
  ghost predicate FileOfPages(p: FileParts, pages: seq<OutPage>) {
    exists prefix, buf, index :: MadeOf(p, prefix, buf, index, pages)
  }

  ghost predicate Filtered(p: FileParts) {
    forall i :: 0 <= i < |p.index| ==> p.bloom.Has(PackPageKey(p.index[i].key.arch, p.index[i].key.slot, p.index[i].key.page))
  }

  datatype Laying = Laying(parts: FileParts) | NoPage | TooLong

  /** The bytes before the pages: header, then schema section. */
  method Prologue(schema: SchemaSection, pageCount: u64, lo: u64, hi: u64) returns (prefix: bytes)
    requires Writable(schema)
    ensures |prefix| == HEADER + |EncSchema(schema.entries)|
  {
    hide EncSchema, EncHeader, PowerOfTwo, Utf8, Ascending;
    var head := EncHeader(RunHeader(|schema.entries|, pageCount, lo, hi), 0);
    var w := WriteTo(schema, head);
    prefix := w.value;
  }

  /** The length of a run file of `n` pages that take `body` bytes. */
  function FileSize(schema: SchemaSection, body: nat, n: nat): nat {
    var end := HEADER + |EncSchema(schema.entries)| + body + 16 * n;
    end + PadTo64(end) + 16 + BLOCK_BYTES * BlocksFor(n) + FOOTER
  }

  /** Pages of the output, from the first one on. */
  ghost predicate PagesFrom(plan: Plan, newest: Reader, pages: seq<OutPage>) {
    exists dense, carried, n :: Partly(plan, dense) && IsCarried(newest, carried) && 0 <= n <= |carried| && pages == dense + carried[..n]
  }

  /** What has to be written exceeds 64 bits in bytes or in pages, or the block count of
      its filter wraps around to 0. */
  ghost predicate TooBig(plan: Plan, newest: Reader) {
    || (exists carried :: PlanOk(plan) && IsCarried(newest, carried) && DensePages(plan, |plan.sigs|) + |carried| >= TOO_LONG)
    || exists pages :: PagesFrom(plan, newest, pages) && TooBigFor(plan.schema, pages)
  }

  predicate TooBigFor(schema: SchemaSection, pages: seq<OutPage>) {
    FileSize(schema, |Pages(pages)|, |pages|) >= TOO_LONG || (|pages| > 0 && BlocksFor(|pages|) == 0)
  }

  lemma DensePartly(plan: Plan, newest: Reader, dense: seq<OutPage>, carried: seq<OutPage>, n: nat)
    requires PlanOk(plan) && Partly(plan, dense) && IsCarried(newest, carried) && n <= |carried|
    ensures PagesFrom(plan, newest, dense + carried[..n])
  {
    hide Partly, IsCarried;
  }

  /** The bytes written so far already fill more than 64 bits can count. */
  lemma BufferTooBig(prefix: bytes, buf: bytes, index: seq<IndexEntry>, pages: seq<OutPage>, schema: SchemaSection)
    requires Laid(prefix, buf, index, pages) && |buf| >= TOO_LONG && |prefix| == HEADER + |EncSchema(schema.entries)|
    ensures TooBigFor(schema, pages)
  {
    hide EncPage, EncSchema, BlocksFor;
  }

  lemma {:induction false} DensePagesGrow(plan: Plan, s: nat, n: nat)
    requires |plan.lists| == |plan.sigs| && s < n <= |plan.lists| && plan.lists[s] != []
    ensures DensePages(plan, n) > 0
  {
    if s < n - 1 {
      DensePagesGrow(plan, s, n - 1);
    } else {
      assert PagesPer(|plan.lists[s]|) >= 1;
      assert (|plan.sigs[s]| + 1) * PagesPer(|plan.lists[s]|) >= PagesPer(|plan.lists[s]|);
    }
  }

  lemma PartsSize(p: FileParts)
    requires |p.bloom.blocks| == BlocksFor(|p.index|)
    ensures BloomOffset(p) + 16 + BLOCK_BYTES * |p.bloom.blocks| + FOOTER == FileSize(p.schema, |p.body|, |p.index|)
    ensures PartsOk(p) ==> |FileOf(p)| == FileSize(p.schema, |p.body|, |p.index|)
  {
    IndexFits(p);
    EncBloomLength(p.bloom);
    if PartsOk(p) { FileLength(p); }
    hide EncSchema, BlocksFor, EncBloom, EncIndex, FileOf;
  }

  /** Everything around the pages of the whole plan, and those carried. */
  ghost predicate IsLaying(plan: Plan, newest: Reader, carried: seq<OutPage>, p: FileParts)
    requires PlanOk(plan)
  {
    && PartsOk(p) && Filtered(p) && p.bloom == IndexFilter(p.index, p.lo) && p.schema == plan.schema && !NoPages(plan) && !TooMany(plan)
    && p.pageCount == |p.index| == DensePages(plan, |plan.sigs|) + |carried|
    && (|FileOf(p)| >= TOO_LONG ==> TooBig(plan, newest))
    && exists dense :: WrittenUpTo(plan, dense, |plan.sigs|, 0, 0) && FileOfPages(p, dense + carried)
  }

  /** Writing stopped at a page because the bytes before it fill the file. */
  lemma StoppedTooBig(plan: Plan, newest: Reader, dense: seq<OutPage>, carried: seq<OutPage>, n: nat, prefix: bytes, buf: bytes,
                      index: seq<IndexEntry>)
    requires PlanOk(plan) && Partly(plan, dense) && IsCarried(newest, carried) && n <= |carried|
    requires Laid(prefix, buf, index, dense + carried[..n]) && |buf| >= TOO_LONG
    requires |prefix| == HEADER + |EncSchema(plan.schema.entries)|
    ensures TooBig(plan, newest)
  {
    hide Partly, IsCarried, Laid, EncSchema, PagesFrom, TooBigFor, DensePages;
    DensePartly(plan, newest, dense, carried, n);
    BufferTooBig(prefix, buf, index, dense + carried[..n], plan.schema);
  }

  lemma SizeTooBig(plan: Plan, newest: Reader, dense: seq<OutPage>, carried: seq<OutPage>)
    requires PlanOk(plan) && Partly(plan, dense) && IsCarried(newest, carried) && TooBigFor(plan.schema, dense + carried)
    ensures TooBig(plan, newest)
  {
    hide Partly, IsCarried, PagesFrom, TooBigFor, DensePages;
    DensePartly(plan, newest, dense, carried, |carried|);
    assert carried[..|carried|] == carried;
  }

  lemma CountTooBig(plan: Plan, newest: Reader, carried: seq<OutPage>)
    requires PlanOk(plan) && IsCarried(newest, carried) && DensePages(plan, |plan.sigs|) + |carried| >= TOO_LONG
    ensures TooBig(plan, newest)
  {
    hide IsCarried, PagesFrom, TooBigFor, DensePages;
  }

  /** Index, filter and header for the pages laid down. */
  method Enclose(plan: Plan, newest: Reader, ghost dense: seq<OutPage>, carried: seq<OutPage>, prefix: bytes, buf: bytes,
                 entries: seq<IndexEntry>, total: u64, lo: u64, hi: u64, fingerprint: u64) returns (r: Laying)
    requires PlanOk(plan) && Writable(plan.schema) && IsCarried(newest, carried) && lo <= hi
    requires |plan.sigs| <= SPARSE_ARCH_ID && |plan.schema.entries| <= ALLOCATOR_SLOT
    requires WrittenUpTo(plan, dense, |plan.sigs|, 0, 0) && Partly(plan, dense) && !NoPages(plan) && !TooMany(plan)
    requires Laid(prefix, buf, entries, dense + carried) && |prefix| == HEADER + |EncSchema(plan.schema.entries)|
    requires total == |dense + carried| == DensePages(plan, |plan.sigs|) + |carried| && total > 0
    ensures !r.NoPage? && (r.TooLong? ==> TooBig(plan, newest))
    ensures r.Laying? ==> IsLaying(plan, newest, carried, r.parts) && r.parts.pageCount > 0
    ensures r.Laying? ==> r.parts.lo == lo && r.parts.hi == hi && r.parts.fingerprint == fingerprint
  {
    hide PlanOk, WrittenUpTo, IsCarried, Laid, NoPages, TooMany, Writable, Sort, DistinctPages, EncSchema, BloomView.Has,
      LengthAgrees, PackPageKey, DensePages, BlocksFor, EncPage, FileSize, Partly, FileOf, TooBig;
    AllPagesAgree(plan, newest, dense, carried);
    var index := Sort(EntryLe, entries);
    SameElements(index, entries);
    LaidBody(prefix, buf, entries, dense + carried);
    var bloom := BuildBloom(index, lo);
    if bloom.None? {
      SizeTooBig(plan, newest, dense, carried);
      return TooLong;
    }
    var parts := FileParts(plan.schema, buf[|prefix|..], index, bloom.value, total, lo, hi, fingerprint);
    PartsSize(parts);
    if BloomOffset(parts) >= TOO_LONG {
      SizeTooBig(plan, newest, dense, carried);
      return TooLong;
    }
    r := Laying(parts);
    assert MadeOf(parts, prefix, buf, entries, dense + carried);
    if |FileOf(parts)| >= TOO_LONG {
      SizeTooBig(plan, newest, dense, carried);
    }
  }

  /** Lays down every page and gathers what goes around them. */
  method LayPages(plan: Plan, newest: Reader, carried: seq<OutPage>, lo: u64, hi: u64, fingerprint: u64)
    returns (r: Laying)
    requires Prepared(plan) && Writable(plan.schema) && IsCarried(newest, carried) && lo <= hi
    requires |plan.sigs| <= SPARSE_ARCH_ID && |plan.schema.entries| <= ALLOCATOR_SLOT
    requires exists s :: 0 <= s < |plan.lists| && plan.lists[s] != []
    ensures r.NoPage? ==> NoPages(plan) || TooMany(plan)
    ensures r.TooLong? ==> TooBig(plan, newest)
    ensures r.Laying? ==> IsLaying(plan, newest, carried, r.parts) && r.parts.pageCount > 0
    ensures r.Laying? ==> r.parts.lo == lo && r.parts.hi == hi && r.parts.fingerprint == fingerprint
  {
    hide WrittenUpTo, IsCarried, Laid, EmitOk, SlotsAscend, NoPages, TooMany, Writable, Sort, DistinctPages,
      EncSchema, BloomView.Has, LengthAgrees, PackPageKey, DensePages, BlocksFor, EncPage, FileSize, PagesFrom,
      Partly, FileOf, TooBig, IsLaying;
    ghost var some :| 0 <= some < |plan.lists| && plan.lists[some] != [];
    DensePagesGrow(plan, some, |plan.sigs|);
    var total := DensePages(plan, |plan.sigs|) + |carried|;
    if total >= 0x1_0000_0000_0000_0000 {
      CountTooBig(plan, newest, carried);
      return TooLong;
    }
    var prefix := Prologue(plan.schema, total, lo, hi);
    var sink := new PageSink(prefix);
    var ok := WriteDense(plan, sink);
    ghost var dense := sink.pages;
    if !ok {
      if |sink.buf| < TOO_LONG {
        return NoPage;
      }
      assert dense + carried[..0] == dense;
      StoppedTooBig(plan, newest, dense, carried, 0, prefix, sink.buf, sink.index);
      return TooLong;
    }
    WrittenHasPages(plan, dense);
    ok := PushAll(carried, sink);
    if !ok {
      ghost var n :| 0 <= n <= |carried| && sink.pages == dense + carried[..n];
      StoppedTooBig(plan, newest, dense, carried, n, prefix, sink.buf, sink.index);
      return TooLong;
    }
    r := Enclose(plan, newest, dense, carried, prefix, sink.buf, sink.index, total, lo, hi, fingerprint);
  }

  lemma LaidBody(prefix: bytes, buf: bytes, index: seq<IndexEntry>, pages: seq<OutPage>)
    requires Laid(prefix, buf, index, pages)
    ensures |prefix| <= |buf| && buf[|prefix|..] == Pages(pages) && |index| == |pages|
  {
    hide EncPage;
  }

  // ── The whole write ────────────────────────────────────────────────────────

  /** The decode fingerprint the inputs agree on, or 0. */
  function CommonFingerprint(inputs: seq<Reader>): u64 {
    if |inputs| > 0 && forall i :: 0 <= i < |inputs| ==> inputs[i].fingerprint == inputs[0].fingerprint
    then inputs[0].fingerprint else 0
  }

  method Unanimous(inputs: seq<Reader>) returns (f: u64)
    ensures f == CommonFingerprint(inputs)
  {
    if |inputs| == 0 || inputs[0].fingerprint == 0 {
      return 0;
    }
    for i := 1 to |inputs|
      invariant forall j :: 0 <= j < i ==> inputs[j].fingerprint == inputs[0].fingerprint
    {
      if inputs[i].fingerprint != inputs[0].fingerprint {
        return 0;
      }
    }
    return inputs[0].fingerprint;
  }

  /** `out` reads as the compaction of `plan`: its pages are the planned ones and those
      carried from the newest input, each under its key, and no others. */
  ghost predicate Compacts(plan: Plan, newest: nat, pages: seq<OutPage>, out: Reader) {
    && IsPlan(plan) && PlanOk(plan) && !TooMany(plan) && IsNewest(plan.inputs, newest) && IsPages(plan, plan.inputs[newest], pages)
    && Holds(out, pages) && |out.index| == |pages| == out.pageCount
    && Indexed(out) && Writable(out.schema) && out.schema == plan.schema && |out.schema.entries| <= ALLOCATOR_SLOT
    && out.fingerprint == CommonFingerprint(plan.inputs)
  }

  ghost predicate IsCompaction(inputs: seq<Reader>, table: ArchTable, sigs: seq<Signature>, out: Reader) {
    exists plan, newest, pages :: Compacts(plan, newest, pages, out)
      && plan.inputs == inputs && plan.table == table && plan.sigs == sigs
  }

  datatype Outcome = Written(file: bytes, meta: M.SortedRunMeta) | Refused | Failed

  /** Nothing is compacted: arguments that disagree, an input page that is missing,
      corrupt or unreadable, a component no input lays out, no row at all, or more rows
      than page numbers. */
  ghost predicate Refusable(inputs: seq<Reader>, table: ArchTable, sigs: seq<Signature>) {
    || |sigs| == 0 || |table| != |sigs| || !TableShaped(inputs, table) || !Readable(inputs, table)
    || NoSchema(inputs, sigs)
    || NothingToCarry(inputs)
    || exists lists :: IsMerge(inputs, table, lists) && RefusedLists(inputs, table, sigs, lists)
  }

  ghost predicate NothingToCarry(inputs: seq<Reader>) {
    exists newest: nat :: IsNewest(inputs, newest) && !(AllocatorUsable(inputs[newest]) && SparseUsable(inputs[newest]))
  }

  ghost predicate RefusedLists(inputs: seq<Reader>, table: ArchTable, sigs: seq<Signature>, lists: seq<seq<EmitRow>>) {
    || (forall s :: 0 <= s < |lists| ==> lists[s] == [])
    || exists schema :: IsOutputSchema(inputs, sigs, schema) && PlanRefused(Plan(inputs, table, sigs, lists, schema))
  }

  ghost predicate PlanRefused(plan: Plan) {
    PlanOk(plan) && (NoPages(plan) || TooMany(plan))
  }

  /** The metadata recorded for a written run; it covers the archetypes with rows. */
  ghost predicate Describes(meta: M.RunMeta, path: M.Path, file: bytes, out: Reader) {
    && meta.path == path && meta.lo == out.lo && meta.hi == out.hi
    && meta.pageCount == out.pageCount && meta.sizeBytes == |file|
    && forall s: u16 :: s in meta.coverage <==> s < SPARSE_ARCH_ID && PageOf(out, Key(s, ENTITY_SLOT, 0)).Found?
  }

  /** What the manifest says of a run is what its file says when it is opened. */
  ghost predicate TrueOf(meta: M.RunMeta, path: M.Path, file: bytes) {
    exists r :: Opens(file, r) && Reports(meta, path, |file|, r)
  }

  predicate Reports(meta: M.RunMeta, path: M.Path, size: nat, r: Reader) {
    && meta.path == path && meta.lo == r.lo && meta.hi == r.hi && meta.coverage == ArchetypeIds(r)
    && meta.pageCount == r.pageCount && meta.sizeBytes == size
  }

  lemma FirstPageWanted(plan: Plan, newest: Reader, dense: seq<OutPage>, carried: seq<OutPage>, s: u16)
    requires PlanOk(plan) && WrittenUpTo(plan, dense, |plan.sigs|, 0, 0)
    requires IsCarried(newest, carried) && s < SPARSE_ARCH_ID
    requires HasPage(dense + carried, Key(s, ENTITY_SLOT, 0))
    ensures Wanted(plan, Key(s, ENTITY_SLOT, 0))
  {
    CarriedPages(newest, carried, plan.schema);
    hide IsCarried, RightPage, LengthAgrees, SlotOfSig, DistinctPages, Wanted;
    var pages := dense + carried;
    var i :| 0 <= i < |pages| && pages[i].key == Key(s, ENTITY_SLOT, 0);
    assert i < |dense| && RightPage(plan, dense[i]);
    RightIsWanted(plan, dense[i]);
  }

  lemma WantedIsFound(plan: Plan, dense: seq<OutPage>, carried: seq<OutPage>, out: Reader, key: Key)
    requires PlanOk(plan) && WrittenUpTo(plan, dense, |plan.sigs|, 0, 0)
    requires Holds(out, dense + carried) && Wanted(plan, key)
    ensures PageOf(out, key).Found?
  {
    hide RightPage, PageOf, SlotOfSig, RefOf;
    assert KeyBelow(key, |plan.sigs|, 0, 0);
    var i :| 0 <= i < |dense| && dense[i].key == key;
    assert (dense + carried)[i] == dense[i] && PageIs(out, (dense + carried)[i]);
  }

  lemma FoundIsHeld(out: Reader, pages: seq<OutPage>, key: Key)
    requires Holds(out, pages) && PageOf(out, key).Found?
    ensures HasPage(pages, key)
  {
    hide PageOf, PageIs;
  }

  lemma FirstWanted(plan: Plan, s: u16)
    requires PlanOk(plan)
    ensures Wanted(plan, Key(s, ENTITY_SLOT, 0)) <==> s < |plan.lists| && plan.lists[s] != []
  {
    hide EmitOk, SlotOfSig;
  }

  /** An archetype of the output has rows if and only if it has a first entity page. */
  lemma FirstEntityPage(plan: Plan, newest: nat, dense: seq<OutPage>, carried: seq<OutPage>, out: Reader, s: u16)
    requires PlanOk(plan) && WrittenUpTo(plan, dense, |plan.sigs|, 0, 0)
    requires newest < |plan.inputs| && IsCarried(plan.inputs[newest], carried) && Holds(out, dense + carried)
    requires s < SPARSE_ARCH_ID
    ensures PageOf(out, Key(s, ENTITY_SLOT, 0)).Found? <==> s < |plan.lists| && plan.lists[s] != []
  {
    FirstWanted(plan, s);
    hide PlanOk, WrittenUpTo, IsCarried, Holds, PageOf, Wanted, HasPage;
    if PageOf(out, Key(s, ENTITY_SLOT, 0)).Found? {
      FoundIsHeld(out, dense + carried, Key(s, ENTITY_SLOT, 0));
      FirstPageWanted(plan, plan.inputs[newest], dense, carried, s);
    }
    if Wanted(plan, Key(s, ENTITY_SLOT, 0)) {
      WantedIsFound(plan, dense, carried, out, Key(s, ENTITY_SLOT, 0));
    }
  }

  lemma RightIsWanted(plan: Plan, page: OutPage)
    requires PlanOk(plan) && RightPage(plan, page)
    ensures Wanted(plan, page.key)
  {
  }

  method Coverage(lists: seq<seq<EmitRow>>) returns (coverage: seq<u16>)
    requires |lists| <= SPARSE_ARCH_ID
    ensures M.StrictlyAscending(coverage)
    ensures forall s: u16 :: s in coverage <==> s < |lists| && lists[s] != []
  {
    coverage := [];
    for s := 0 to |lists|
      invariant M.StrictlyAscending(coverage)
      invariant forall t: u16 :: t in coverage <==> t < s && lists[t] != []
    {
      if lists[s] != [] {
        assert |coverage| > 0 ==> coverage[|coverage| - 1] in coverage;
        coverage := coverage + [s];
      }
    }
  }

  method MakePlan(inputs: seq<Reader>, table: ArchTable, sigs: seq<Signature>) returns (r: Option<Plan>)
    requires InputsOk(inputs)
    ensures r.Some? ==> IsPlan(r.value) && r.value.inputs == inputs && r.value.table == table && r.value.sigs == sigs
    ensures r.Some? ==> |inputs| > 0 && exists s :: 0 <= s < |sigs| && r.value.lists[s] != []
    ensures r.Some? ==> TableShaped(inputs, table) && Readable(inputs, table)
    ensures r.None? ==> Refusable(inputs, table, sigs)
  {
    hide Mergeable, Indexed, Writable, IsMerge, IsOutputSchema, NoSchema, TableShaped, Readable, PlanRefused,
      AllocatorUsable, SparseUsable;
    if |sigs| == 0 || |table| != |sigs| {
      return None;
    }
    var lists := MergeEntityImages(inputs, table);
    if lists.None? {
      return None;
    }
    MergeHasInputs(inputs, table, lists.value);
    var s := 0;
    while s < |sigs| && lists.value[s] == []
      invariant s <= |sigs| && forall t :: 0 <= t < s ==> lists.value[t] == []
    {
      s := s + 1;
    }
    if s == |sigs| {
      return None;
    }
    var schema := BuildSchema(inputs, sigs);
    if schema.None? {
      return None;
    }
    return Some(Plan(inputs, table, sigs, lists.value, schema.value));
  }

  lemma MergeHasInputs(inputs: seq<Reader>, table: ArchTable, lists: seq<seq<EmitRow>>)
    requires IsMerge(inputs, table, lists)
    ensures |lists| == |table|
    ensures forall s :: 0 <= s < |lists| && lists[s] != [] ==> |inputs| > 0
  {
    hide Live, EntityAt;
    forall s | 0 <= s < |lists| && lists[s] != [] ensures |inputs| > 0 {
      assert Newest(inputs, table, lists[s][0].entity, Place(lists[s][0].input, s, lists[s][0].row));
    }
  }

  lemma PlanPrepared(plan: Plan)
    requires IsPlan(plan) && InputsOk(plan.inputs) && SigsOk(plan.sigs)
    ensures Prepared(plan) && Writable(plan.schema) && |plan.schema.entries| <= ALLOCATOR_SLOT
  {
    PlanIsOk(plan);
    OutputSchemaOk(plan.inputs, plan.sigs, plan.schema);
    hide Mergeable, Indexed, Writable, IsMerge, IsOutputSchema, PlanOk, SlotsAscend, Ascending;
    forall s | 0 <= s < |plan.sigs| ensures SlotsAscend(plan.schema, plan.sigs[s]) {
      SigSlotsAscend(plan.inputs, plan.sigs, plan.schema, s);
    }
  }

  /** A file of the planned and carried pages opens as the compaction. */
  lemma LaidCompacts(plan: Plan, newest: nat, dense: seq<OutPage>, carried: seq<OutPage>, p: FileParts)
    requires IsPlan(plan) && PlanOk(plan) && !TooMany(plan) && IsNewest(plan.inputs, newest)
    requires WrittenUpTo(plan, dense, |plan.sigs|, 0, 0) && IsCarried(plan.inputs[newest], carried)
    requires PartsOk(p) && Filtered(p) && FileOfPages(p, dense + carried) && Writable(plan.schema)
    requires p.schema == plan.schema && |plan.schema.entries| <= ALLOCATOR_SLOT && p.pageCount == |p.index|
    requires p.fingerprint == CommonFingerprint(plan.inputs)
    ensures Opens(FileOf(p), ReaderOf(p)) && Compacts(plan, newest, dense + carried, ReaderOf(p))
  {
    hide IsPlan, PlanOk, TooMany, WrittenUpTo, IsCarried, Writable, FileOf, PartsOk, MadeOf, Holds, SortedIndex,
      BloomView.Has, PackPageKey, IsNewest, CommonFingerprint, Opens;
    var prefix, buf, index :| MadeOf(p, prefix, buf, index, dense + carried);
    FileHolds(p, prefix, buf, index, dense + carried);
    FileOpens(p);
  }

  /** The output would be too big for the format. */
  ghost predicate Unwritable(inputs: seq<Reader>, table: ArchTable, sigs: seq<Signature>) {
    exists plan: Plan, newest: nat :: plan.inputs == inputs && plan.table == table && plan.sigs == sigs
      && IsPlan(plan) && PlanOk(plan) && IsNewest(inputs, newest) && TooBig(plan, inputs[newest])
  }

  /** Merge and schema are determined by the arguments, so what one plan shows holds of
      every plan. */
  lemma NotRefusable(plan: Plan, newest: nat)
    requires IsPlan(plan) && PlanOk(plan) && !NoPages(plan) && !TooMany(plan)
    requires |plan.sigs| > 0 && exists s :: 0 <= s < |plan.lists| && plan.lists[s] != []
    requires TableShaped(plan.inputs, plan.table) && Readable(plan.inputs, plan.table) && IsNewest(plan.inputs, newest)
    requires AllocatorUsable(plan.inputs[newest]) && SparseUsable(plan.inputs[newest])
    ensures !Refusable(plan.inputs, plan.table, plan.sigs)
  {
    hide TableShaped, Readable, IsMerge, IsOutputSchema, NoSchema, AllocatorUsable, SparseUsable, PlanOk, NoPages,
      TooMany, IsNewest;
    SchemaBuildable(plan.inputs, plan.sigs, plan.schema);
    forall k: nat | IsNewest(plan.inputs, k) ensures k == newest {
      NewestUnique(plan.inputs, k, newest);
    }
    forall lists | IsMerge(plan.inputs, plan.table, lists) ensures !RefusedLists(plan.inputs, plan.table, plan.sigs, lists) {
      MergeUnique(plan.inputs, plan.table, lists, plan.lists);
      forall schema | IsOutputSchema(plan.inputs, plan.sigs, schema) ensures schema == plan.schema {
        OutputSchemaUnique(plan.inputs, plan.sigs, schema, plan.schema);
      }
    }
  }

  /** write_observed. What is refused, is refusable; what is written, is not; and a job
      that is neither is too big. */
  method WriteRun(inputs: seq<Reader>, table: ArchTable, sigs: seq<Signature>, path: M.Path, lo: u64, hi: u64)
    returns (r: Outcome)
    requires InputsOk(inputs) && SigsOk(sigs) && lo <= hi
    ensures r.Refused? ==> Refusable(inputs, table, sigs)
    ensures r.Written? ==> WrittenAs(inputs, table, sigs, r, path, lo, hi) && !Refusable(inputs, table, sigs)
    ensures r.Failed? ==> Unwritable(inputs, table, sigs)
  {
    hide Mergeable, Writable, IsMerge, IsOutputSchema, NoSchema, TableShaped, Readable, AllocatorUsable,
      SparseUsable, SlotsAscend, CommonFingerprint, FileOf, PartsOk, Opens, NoPages, TooMany, SortedIndex,
      BloomAllows, IsCarried, WrittenUpTo, FileOfPages, Filtered, Compacts, Describes, TooBig;
    var planned := MakePlan(inputs, table, sigs);
    if planned.None? {
      return Refused;
    }
    var plan := planned.value;
    PlanPrepared(plan);
    var newest := FindNewest(inputs);
    var carried := CarryForward(inputs[newest]);
    if carried.None? {
      return Refused;
    }
    var fingerprint := Unanimous(inputs);
    var laying := LayPages(plan, inputs[newest], carried.value, lo, hi, fingerprint);
    if laying.NoPage? {
      return Refused;
    }
    assert laying.TooLong? || (laying.Laying? && |FileOf(laying.parts)| >= TOO_LONG) ==> Unwritable(inputs, table, sigs);
    if laying.TooLong? {
      return Failed;
    }
    NotRefusable(plan, newest);
    var p := laying.parts;
    var file := Assemble(p);
    if |file| >= TOO_LONG {
      return Failed;
    }
    var coverage := Coverage(plan.lists);
    ghost var dense :| WrittenUpTo(plan, dense, |sigs|, 0, 0) && FileOfPages(p, dense + carried.value);
    LaidCompacts(plan, newest, dense, carried.value, p);
    var meta := M.RunMeta(path, lo, hi, coverage, p.pageCount, |file|);
    MetaDescribes(plan, newest, dense, carried.value, meta, file, ReaderOf(p));
    return Written(file, meta);
  }

  ghost predicate WrittenAs(inputs: seq<Reader>, table: ArchTable, sigs: seq<Signature>, w: Outcome, path: M.Path,
                            lo: u64, hi: u64)
    requires w.Written?
  {
    exists out :: Opens(w.file, out) && WrittenReader(inputs, table, sigs, w, path, lo, hi, out)
  }

  ghost predicate WrittenReader(inputs: seq<Reader>, table: ArchTable, sigs: seq<Signature>, w: Outcome, path: M.Path, lo: u64, hi: u64,
                                out: Reader)
    requires w.Written?
  {
    && IsCompaction(inputs, table, sigs, out) && out.lo == lo && out.hi == hi && Describes(w.meta, path, w.file, out)
    && out.bloom == Some(IndexFilter(out.index, lo))
  }

  lemma MetaDescribes(plan: Plan, newest: nat, dense: seq<OutPage>, carried: seq<OutPage>, meta: M.RunMeta,
                      file: bytes, out: Reader)
    requires PlanOk(plan) && WrittenUpTo(plan, dense, |plan.sigs|, 0, 0) && |plan.sigs| <= SPARSE_ARCH_ID
    requires IsNewest(plan.inputs, newest) && IsCarried(plan.inputs[newest], carried)
    requires Compacts(plan, newest, dense + carried, out)
    requires meta.lo == out.lo && meta.hi == out.hi && meta.pageCount == out.pageCount && meta.sizeBytes == |file|
    requires forall s: u16 :: s in meta.coverage <==> s < |plan.lists| && plan.lists[s] != []
    ensures Describes(meta, meta.path, file, out)
  {
    assert Holds(out, dense + carried) && |plan.lists| <= SPARSE_ARCH_ID;
    hide WrittenUpTo, IsCarried, Compacts, PlanOk, PageOf, Holds;
    forall s: u16 | s < SPARSE_ARCH_ID
      ensures PageOf(out, Key(s, ENTITY_SLOT, 0)).Found? <==> s < |plan.lists| && plan.lists[s] != []
    {
      FirstEntityPage(plan, newest, dense, carried, out, s);
    }
  }

  // ── A file for any pages that fit one ──────────────────────────────────────

  /** Pages one behind the other, and where each begins. */
  lemma {:induction false} LayDown(prefix: bytes, pages: seq<OutPage>) returns (index: seq<IndexEntry>)
    requires |prefix| + |Pages(pages)| < 0x1_0000_0000_0000_0000
    ensures Laid(prefix, prefix + Pages(pages), index, pages)
  {
    hide EncPage, Concat;
    if |pages| == 0 {
      index := [];
      assert Parts(EncPage, pages) == [] && Pages(pages) == [] by { NoPagesNoBytes(pages); assert pages[..0] == pages; }
      assert prefix + Pages(pages) == prefix;
    } else {
      var init, last := pages[..|pages| - 1], pages[|pages| - 1];
      assert pages == init + [last];
      PartsPush(EncPage, init, last);
      Assoc(prefix, Pages(init), EncPage(last));
      var before := LayDown(prefix, init);
      PushLaid(prefix, prefix + Pages(init), before, init, last);
      index := before + [IndexEntry(last.key, |prefix + Pages(init)|)];
    }
  }

  lemma LaidLength(prefix: bytes, buf: bytes, index: seq<IndexEntry>, pages: seq<OutPage>)
    requires Laid(prefix, buf, index, pages)
    ensures |index| == |pages|
  {
    hide EncPage;
  }

  /** A file holding these pages and no others, under the filter of its own index. */
  ghost predicate PartsFor(p: FileParts, schema: SchemaSection, pages: seq<OutPage>, lo: u64, hi: u64, fingerprint: u64) {
    && PartsOk(p) && p.schema == schema && p.lo == lo && p.hi == hi && p.fingerprint == fingerprint
    && p.pageCount == |p.index| == |pages| && p.bloom == IndexFilter(p.index, lo) && Filtered(p) && FileOfPages(p, pages)
    && |FileOf(p)| < TOO_LONG
  }

  /** Pages that are not too big for the format have such a file. */
  lemma PartsExist(schema: SchemaSection, pages: seq<OutPage>, lo: u64, hi: u64, fingerprint: u64) returns (p: FileParts)
    requires Writable(schema) && |schema.entries| <= ALLOCATOR_SLOT && DistinctPages(pages) && |pages| > 0 && lo <= hi
    requires forall i :: 0 <= i < |pages| ==> LengthAgrees(schema, pages[i])
    requires !TooBigFor(schema, pages)
    ensures PartsFor(p, schema, pages, lo, hi, fingerprint)
  {
    hide Writable, EncSchema, LengthAgrees, Sort, Concat, DistinctPages, BloomView.Has, EncIndex, FileOf, Laid,
      BlocksFor, IndexFilter, PackPageKey;
    var prefix := Zeros(HEADER + |EncSchema(schema.entries)|);
    var body := Pages(pages);
    var index := LayDown(prefix, pages);
    LaidLength(prefix, prefix + body, index, pages);
    var sorted := Sort(EntryLe, index);
    SameElements(sorted, index);
    IndexFilterHas(sorted, lo);
    p := FileParts(schema, body, sorted, IndexFilter(sorted, lo), |pages|, lo, hi, fingerprint);
    PartsSize(p);
    assert MadeOf(p, prefix, prefix + body, index, pages);
  }

  /** The file of such parts opens, and holds the pages. */
  lemma PartsOpen(p: FileParts, schema: SchemaSection, pages: seq<OutPage>, lo: u64, hi: u64, fingerprint: u64)
    requires Writable(schema) && PartsFor(p, schema, pages, lo, hi, fingerprint)
    ensures PartsOk(p) && Opens(FileOf(p), ReaderOf(p)) && Holds(ReaderOf(p), pages) && Indexed(ReaderOf(p))
  {
    hide Writable, FileOf, Opens, MadeOf, Holds, SortedIndex, BloomView.Has, PackPageKey, IndexFilter, PartsOk;
    var prefix, buf, index :| MadeOf(p, prefix, buf, index, pages);
    FileHolds(p, prefix, buf, index, pages);
    FileOpens(p);
  }

  // ── What fits ──────────────────────────────────────────────────────────────

  lemma {:induction false} ConcatBound(parts: seq<bytes>, n: nat)
    requires forall i :: 0 <= i < |parts| ==> |parts[i]| <= n
    ensures |Concat(parts)| <= |parts| * n
  {
    if |parts| != 0 {
      ConcatBound(parts[1..], n);
      assert |parts| * n == n + (|parts| - 1) * n;
    }
  }

  /** Pages few and small enough for one file. */
  predicate Small(pages: seq<OutPage>) {
    |pages| <= 0x1000_0000 && forall i :: 0 <= i < |pages| ==> |pages[i].Data()| < 0x1_0000_0000
  }

  lemma PagesSize(pages: seq<OutPage>)
    requires Small(pages)
    ensures |Pages(pages)| <= 0x1000_0000 * 0x1_0000_0010
  {
    hide EncPage;
    forall i | 0 <= i < |pages| ensures |Parts(EncPage, pages)[i]| <= 0x1_0000_0010 {
      PageLength(pages[i]);
    }
    ConcatBound(Parts(EncPage, pages), 0x1_0000_0010);
    Product(|pages|, 0x1000_0000, 0x1_0000_0010);
  }

  lemma SchemaSize(entries: seq<SchemaEntry>)
    requires |entries| <= 0x1_0000 && forall i :: 0 <= i < |entries| ==> NameFits(entries[i])
    ensures |EncSchema(entries)| <= 0x1_0000 * 0x1_0010 + 64
  {
    forall i | 0 <= i < |entries| ensures |EncSchemaEntry(entries[i])| <= 0x1_0010 {
    }
    hide EncSchemaEntry;
    ConcatBound(Parts(EncSchemaEntry, entries), 0x1_0010);
    Product(|entries|, 0x1_0000, 0x1_0010);
  }

  lemma FewBlocks(n: nat)
    requires 0 < n <= 0x1000_0000
    ensures 0 < BlocksFor(n) <= 0x1000_0000
  {
  }

  /** Small pages are not too big. */
  lemma SmallFits(schema: SchemaSection, pages: seq<OutPage>)
    requires Writable(schema) && |schema.entries| <= ALLOCATOR_SLOT && Small(pages)
    ensures !TooBigFor(schema, pages)
  {
    assert forall i :: 0 <= i < |schema.entries| ==> NameFits(schema.entries[i]);
    hide EncSchema, Writable, Concat, Small, BlocksFor;
    SchemaSize(schema.entries);
    PagesSize(pages);
    SmallCount(pages);
    if |pages| > 0 { FewBlocks(|pages|); } else { NoBlocks(); }
  }

  lemma NoBlocks()
    ensures BlocksFor(0) == 0
  {
  }

  lemma SmallCount(pages: seq<OutPage>)
    requires Small(pages)
    ensures |pages| <= 0x1000_0000
  {
  }
}
