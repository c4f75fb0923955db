/** Flushes as ordinary incremental checkpointing makes them, and what compaction makes of
    them: some it refuses, in some it loses an entity, in some the cells of a column; and
    a store that they bring to a stop. */
module FlushGaps {
  import opened Bytes
  import opened Bits
  import opened Order
  import opened Schema
  import opened SchemaCodec
  import opened RunFormat
  import opened RunReader
  import opened RunFile
  import opened Merge
  import opened CompactionPlan
  import opened CompactionWriter
  import opened RunAgreement
  import opened Carry
  import opened CompactRun
  import opened Archetypes
  import opened RunMeaning
  import opened CompactionMeaning
  import opened Flush
  import opened OutputSchema
  import opened Picker
  import opened CompactionClosed
  import opened Executor
  import opened Manifest
  import opened Protocol
  import opened CompactionLoop
  import opened OutputNames
  import opened StoreView
  import opened StoreRuns
  import opened Realization
  import Recency
  import C = CompactionFile
  import H = RunHistory

  // ── Small worlds ───────────────────────────────────────────────────────────

  /** Raw columns of small cells, entity ids that 16 bits hold, few sparse chunks. */
  ghost predicate SmallWorld(w: World) {
    && (forall name :: name in w.layouts ==> w.layouts[name].kind.RawCopy? && w.layouts[name].size <= 0x1_0000)
    && (forall a, row, e :: IsEntity(w, a, row, e) ==> e < 0x1_0000)
    && |w.sparse| <= 0x100 && forall i :: 0 <= i < |w.sparse| ==> |w.sparse[i]| <= 0x100
  }

  /** A flush lays a component out as the world registers it. */
  lemma FlushLayout(w: World, r: Reader, name: Name)
    requires WorldOk(w) && IsFlush(w, r) && EntryNamed(r.schema, name).Some?
    ensures name in w.layouts && EntryNamed(r.schema, name).value.kind == w.layouts[name].kind
    ensures EntryNamed(r.schema, name).value.itemSize == w.layouts[name].size
  {
    FlushSchemaAt(w, r);
    hide WorldOk, IsFlush, SchemaOk, WritesColumn;
    NameAtSlot(r.schema, name);
  }

  /** A flush of a small world is a small run. */
  lemma FlushIsModest(w: World, r: Reader)
    requires WorldOk(w) && SmallWorld(w) && IsFlush(w, r)
    ensures C.Modest(r)
  {
    hide WorldOk, IsFlush, IsRow, EntryNamed, PageOf, IsEntity, WritesRows;
    forall name {:trigger EntryNamed(r.schema, name)} | EntryNamed(r.schema, name).Some?
      ensures EntryNamed(r.schema, name).value.kind.RawCopy? && EntryNamed(r.schema, name).value.itemSize <= 0x1_0000
    {
      FlushLayout(w, r, name);
    }
    forall arch: u16, row: nat, e: u64 | IsRow(r, arch, row, e) ensures e < 0x1_0000 {
      FlushRow(w, r, arch, row, e);
    }
    forall key: Key {:trigger PageOf(r, key)} | SparseKey(key) && !PageOf(r, key).Absent? ensures key.slot < 0x100 && key.page < 0x100 {
      FlushReads(w, r, key);
      SparseWanted(w, r.schema, key);
    }
  }

  lemma SparseWanted(w: World, schema: SchemaSection, key: Key)
    requires Wants(w, schema, key) && SparseKey(key)
    ensures key.slot < |w.sparse| && key.page < |w.sparse[key.slot]|
  {
  }

  // ── The flush of a small world is a file ───────────────────────────────────

  lemma ColumnIsSmall(w: World, schema: SchemaSection, page: OutPage)
    requires WorldOk(w) && SmallWorld(w) && IsFlushSchema(w, schema) && |schema.entries| <= ALLOCATOR_SLOT && FlushPage(w, schema, page)
    requires Dense(page.key.arch) && page.key.slot != ENTITY_SLOT
    ensures |page.Data()| < 0x1_0000_0000
  {
    hide WorldOk, FlushPage, ColumnOk, OnPage, Zeros, IsFlushSchema;
    FlushPageAgrees(w, schema, page);
    PageWanted(w, schema, page);
    WantedEntry(w, schema, page.key);
    var entry := schema.EntryFor(page.key.slot).value;
    LayoutOfColumn(w, schema, page.key);
    Product(256, 256, entry.itemSize);
  }

  lemma LayoutOfColumn(w: World, schema: SchemaSection, key: Key)
    requires WorldOk(w) && SmallWorld(w) && IsFlushSchema(w, schema) && WantsColumn(w, schema, key)
    ensures
      var entry := schema.EntryFor(key.slot).value;
      entry.kind.RawCopy? && entry.itemSize <= 0x1_0000
  {
    hide WorldOk, SchemaOk, WritesColumn;
  }

  lemma PageIsSmall(w: World, schema: SchemaSection, page: OutPage)
    requires WorldOk(w) && SmallWorld(w) && IsFlushSchema(w, schema) && |schema.entries| <= ALLOCATOR_SLOT && FlushPage(w, schema, page)
    ensures |page.Data()| < 0x1_0000_0000
  {
    hide IsFlushSchema, SmallWorld, ColumnPage, ColumnOk, EntitiesDiffer, LayoutsOk, OnPage, EntityPage, Zeros;
    if Dense(page.key.arch) {
      if page.key.slot == ENTITY_SLOT {
        EntityPageLength(page.key, Ids(OnPage(w.archs[page.key.arch].entities, page.key.page)));
      } else {
        ColumnIsSmall(w, schema, page);
      }
    }
  }

  /** From a list of the keys wanted, the file of the flush. */
  lemma FlushOf(w: World, schema: SchemaSection, keys: seq<Key>, lo: u64, hi: u64, fingerprint: u64)
    returns (file: bytes, out: Reader)
    requires WorldOk(w) && SmallWorld(w) && IsFlushSchema(w, schema) && lo <= hi
    requires NoDup(keys) && 0 < |keys| <= 0x1_0000 && forall key :: Wants(w, schema, key) <==> key in keys
    ensures Opens(file, out) && |file| < TOO_LONG && IsFlush(w, out) && out.lo == lo && out.hi == hi && out.pageCount == |keys|
  {
    assert LayoutsOk(w.layouts);
    hide WorldOk, LayoutsOk, SmallWorld, IsFlushSchema, FlushPage, Wants, IsFlush, Opens, DistinctPages, TooBigFor, Writable;
    FlushWritable(w, schema);
    var pages := PagesOfKeys(w, schema, keys);
    forall i | 0 <= i < |pages| ensures |pages[i].Data()| < 0x1_0000_0000 {
      PageIsSmall(w, schema, pages[i]);
    }
    SmallFits(schema, pages);
    file, out := FlushFile(w, schema, pages, lo, hi, fingerprint);
  }

  // ── Jobs over flushes of one world ─────────────────────────────────────────

  ghost predicate AllFlushes(w: World, inputs: seq<Reader>) {
    |inputs| > 0 && forall i :: 0 <= i < |inputs| ==> IsFlush(w, inputs[i])
  }

  /** All archetypes written have the columns `sig`, the first among them. */
  ghost predicate OneSignature(w: World, sig: Signature) {
    && Ascending(sig) && WritesArch(w, 0) && (forall name :: name in sig <==> WritesColumn(w, 0, name))
    && forall a :: WritesArch(w, a) ==> SameColumns(w, a, 0)
  }

  /** In every input the signature is found at archetype 0. */
  function FirstArch(n: nat): ArchTable { [seq(n, _ => Some(0))] }

  lemma FlushSigIs(w: World, r: Reader, sig: Signature, a: u16)
    requires WorldOk(w) && IsFlush(w, r) && OneSignature(w, sig)
    ensures a in ArchetypeIds(r) <==> WritesArch(w, a)
    ensures WritesArch(w, a) ==> SigOf(r, a) == Some(sig) && sig != []
  {
    FlushSchemaAt(w, r);
    FlushArchetypes(w, r, a);
    hide WorldOk, IsFlush, IsFlushSchema, SchemaOk, ArchetypeIds, Ascending, WritesColumn, WritesArch;
    if WritesArch(w, a) {
      FlushSignature(w, r, a);
      SigAscends(r, a);
      hide SigOf;
      assert SameColumns(w, a, 0);
      AscendingUnique(SigOf(r, a).value, sig);
    }
  }

  lemma FlushArch(w: World, r: Reader, sig: Signature)
    requires WorldOk(w) && IsFlush(w, r) && OneSignature(w, sig)
    ensures IsArchOf(r, sig, Some(0)) && 0 in ArchetypeIds(r) && SigOf(r, 0) == Some(sig)
    ensures forall a :: a in ArchetypeIds(r) ==> SigOf(r, a) == Some(sig)
  {
    assert WritesArch(w, 0);
    hide WorldOk, IsFlush, SigOf, ArchetypeIds, OneSignature, WritesArch;
    forall a: u16 ensures a in ArchetypeIds(r) <==> WritesArch(w, a) ensures WritesArch(w, a) ==> SigOf(r, a) == Some(sig) {
      FlushSigIs(w, r, sig, a);
    }
  }

  lemma FlushTable(w: World, inputs: seq<Reader>, sig: Signature)
    requires WorldOk(w) && AllFlushes(w, inputs) && OneSignature(w, sig)
    ensures Resolved(inputs, [sig], FirstArch(|inputs|)) && FromInputs(inputs, [sig])
  {
    hide WorldOk, IsFlush, SigOf, ArchetypeIds, OneSignature, IsArchOf;
    forall i | 0 <= i < |inputs|
      ensures IsArchOf(inputs[i], sig, Some(0)) && 0 in ArchetypeIds(inputs[i]) && SigOf(inputs[i], 0) == Some(sig)
      ensures forall a :: a in ArchetypeIds(inputs[i]) ==> SigOf(inputs[i], a) == Some(sig)
    {
      FlushArch(w, inputs[i], sig);
    }
    assert 0 in ArchetypeIds(inputs[0]) && SigOf(inputs[0], 0) == Some(sig);
    assert SomeInputHas(inputs, sig);
  }

  lemma FlushLayouts(w: World, inputs: seq<Reader>, i: nat, name: Name)
    requires WorldOk(w) && AllFlushes(w, inputs) && i < |inputs| && EntryNamed(inputs[i].schema, name).Some?
    ensures name in w.layouts && EntryNamed(inputs[i].schema, name).value.kind == w.layouts[name].kind
    ensures EntryNamed(inputs[i].schema, name).value.itemSize == w.layouts[name].size
  {
    hide WorldOk, IsFlush, EntryNamed;
    FlushLayout(w, inputs[i], name);
  }

  lemma SigNameRegistered(w: World, sig: Signature, name: Name)
    requires WorldOk(w) && OneSignature(w, sig) && name in sig
    ensures name in w.layouts.Keys
  {
    hide WorldOk, Ascending, WritesArch, Writes;
    assert WritesColumn(w, 0, name);
    var p: nat :| Writes(w, 0, name, p);
    PageNumberFits(w, 0, name, p);
  }

  lemma SigsAreOk(w: World, sig: Signature)
    requires WorldOk(w) && OneSignature(w, sig)
    ensures SigsOk([sig])
  {
    assert |w.layouts| <= ALLOCATOR_SLOT && Ascending(sig);
    hide WorldOk, OneSignature, Ascending;
    forall name | name in AllNames([sig]) ensures name in w.layouts.Keys {
      SigNameRegistered(w, sig, name);
    }
    SubsetSize(AllNames([sig]), w.layouts.Keys);
    assert |w.layouts.Keys| == |w.layouts|;
  }

  /** Flushes of one world make a well-formed job. */
  lemma FlushesJob(w: World, inputs: seq<Reader>, sig: Signature)
    requires WorldOk(w) && AllFlushes(w, inputs) && OneSignature(w, sig)
    ensures JobWf(inputs, [sig], FirstArch(|inputs|))
  {
    hide WorldOk, OneSignature, RunWf, Resolved, FromInputs, SigsOk, EntryNamed, IsFlush, Populated;
    FlushTable(w, inputs, sig);
    SigsAreOk(w, sig);
    forall i | 0 <= i < |inputs| ensures RunWf(inputs[i]) {
      FlushIsWellFormed(w, inputs[i]);
    }
    forall i, j, name {:trigger EntryNamed(inputs[i].schema, name), EntryNamed(inputs[j].schema, name)} |
      0 <= i < |inputs| && 0 <= j < |inputs|
      && EntryNamed(inputs[i].schema, name).Some? && EntryNamed(inputs[j].schema, name).Some?
      ensures SameLayout(EntryNamed(inputs[i].schema, name).value, EntryNamed(inputs[j].schema, name).value)
    {
      FlushLayouts(w, inputs, i, name);
      FlushLayouts(w, inputs, j, name);
    }
  }

  lemma LeadsFirst(r: Reader)
    ensures Leads(r, 0)
  {
    hide SigOf, ArchetypeIds;
  }

  lemma FlushHasLead(w: World, r: Reader) returns (e: u64)
    requires WorldOk(w) && IsFlush(w, r) && WritesArch(w, 0)
    ensures HasLead(r, e)
  {
    hide WorldOk, IsFlush, Writes, IsRow, Leads;
    var name, p: nat :| Writes(w, 0, name, p);
    WrittenRow(w, r, 0, name, p);
    var row: nat, x: u64 :| IsRow(r, 0, row, x);
    e := x;
    LeadsFirst(r);
    LeadRowHas(r, 0, row, e);
  }

  lemma HeadFlush(w: World, inputs: seq<Reader>, sig: Signature)
    requires WorldOk(w) && AllFlushes(w, inputs) && OneSignature(w, sig)
    ensures |inputs| > 0 && IsFlush(w, inputs[0]) && WritesArch(w, 0)
  {
    hide WorldOk, IsFlush, WritesArch, Ascending;
  }

  lemma AllFlushesModest(w: World, inputs: seq<Reader>)
    requires WorldOk(w) && SmallWorld(w) && AllFlushes(w, inputs)
    ensures C.AllModest(inputs)
  {
    hide WorldOk, SmallWorld, IsFlush, C.Modest;
    forall i | 0 <= i < |inputs| ensures C.Modest(inputs[i]) {
      FlushIsModest(w, inputs[i]);
    }
  }

  /** Such a job over flushes of a small world is neither empty nor huge, and its output
      can be written. */
  lemma FlushesFit(w: World, inputs: seq<Reader>, sig: Signature)
    requires WorldOk(w) && AllFlushes(w, inputs) && OneSignature(w, sig) && SmallWorld(w) && |AllNames([sig])| <= 0x100
    ensures JobWf(inputs, [sig], FirstArch(|inputs|)) && !EmptyOrHuge(inputs, [sig], FirstArch(|inputs|))
    ensures !Unwritable(inputs, FirstArch(|inputs|), [sig])
  {
    hide WorldOk, OneSignature, AllFlushes, IsFlush, WritesArch, SmallWorld, HasLead, JobWf, IsPlan, TooLarge,
      C.AllModest, EmptyOrHuge, Unwritable, AllNames;
    HeadFlush(w, inputs, sig);
    FlushesJob(w, inputs, sig);
    var e := FlushHasLead(w, inputs[0]);
    AllFlushesModest(w, inputs);
    C.ModestFits(inputs, [sig], FirstArch(|inputs|), 0, e);
    C.ModestWritable(inputs, [sig], FirstArch(|inputs|));
  }

  // ── Two small worlds ───────────────────────────────────────────────────────

  const P: Name := [80]
  const V: Name := [86]
  const Q: Name := [87]
  const LAYOUTS: map<Name, Component> :=
    map[P := Component(P, 1, 1, RawCopy), V := Component(V, 1, 1, RawCopy), Q := Component(Q, 1, 1, RawCopy)]

  function Bytes1(n: nat): (r: seq<bytes>)
    ensures |r| == n && forall i :: 0 <= i < n ==> |r[i]| == 1
  {
    seq(n, _ => [0])
  }

  function Count(n: nat): (r: seq<u64>)
    requires n <= 0x1_0000
    ensures |r| == n && forall i :: 0 <= i < n ==> r[i] == i
  {
    seq(n, i requires 0 <= i < n => i)
  }

  /** One archetype of two components and 257 rows, on two pages: of P both pages are
      dirty, of V only the second. */
  const UNEVEN: World := World(
    [Archetype(Count(257), map[P := Column(Bytes1(257), {0, 1}), V := Column(Bytes1(257), {1})])], LAYOUTS, [Zeros(16)], [])

  /** Two archetypes of one row each: one of P alone, one of P and V of which only P is
      dirty. */
  const TWINS: World := World(
    [Archetype([1], map[P := Column(Bytes1(1), {0})]), Archetype([2], map[P := Column(Bytes1(1), {0}), V := Column(Bytes1(1), {})])],
    LAYOUTS, [Zeros(16)], [])

  lemma LayoutsFit()
    ensures LayoutsOk(LAYOUTS)
  {
    assert CharLen(P) == 1 && P[1..] == [] && CharLen(V) == 1 && V[1..] == [] && CharLen(Q) == 1 && Q[1..] == [];
    assert LAYOUTS.Keys == {P, V, Q};
    assert |LAYOUTS| == |LAYOUTS.Keys|;
  }

  lemma UnevenColumns(name: Name)
    requires name in UNEVEN.archs[0].columns
    ensures ColumnOk(UNEVEN, UNEVEN.archs[0], name)
  {
  }

  lemma UnevenOk()
    ensures WorldOk(UNEVEN) && SmallWorld(UNEVEN)
  {
    hide ColumnOk, LayoutsOk;
    LayoutsFit();
    forall name | name in UNEVEN.archs[0].columns ensures ColumnOk(UNEVEN, UNEVEN.archs[0], name) {
      UnevenColumns(name);
    }
  }

  lemma TwinsColumns(a: nat, name: Name)
    requires a <= 1 && name in TWINS.archs[a].columns
    ensures ColumnOk(TWINS, TWINS.archs[a], name)
  {
  }

  lemma TwinsOk()
    ensures WorldOk(TWINS) && SmallWorld(TWINS)
  {
    hide ColumnOk, LayoutsOk;
    LayoutsFit();
    forall a, name | 0 <= a <= 1 && name in TWINS.archs[a].columns ensures ColumnOk(TWINS, TWINS.archs[a], name) {
      TwinsColumns(a, name);
    }
  }

  lemma UnevenWrites(a: nat, name: Name, p: nat)
    ensures Writes(UNEVEN, a, name, p) <==> a == 0 && ((name == P && p <= 1) || (name == V && p == 1))
  {
  }

  lemma TwinsWrites(a: nat, name: Name, p: nat)
    ensures Writes(TWINS, a, name, p) <==> a <= 1 && name == P && p == 0
  {
  }

  lemma FewNames(sig: Signature, names: set<Name>)
    requires forall name :: name in sig ==> name in names
    ensures |AllNames([sig])| <= |names|
  {
    SubsetSize(AllNames([sig]), names);
  }

  lemma UnevenSignature()
    ensures OneSignature(UNEVEN, [P, V])
  {
    hide Writes;
    forall a: nat, name, p: nat ensures Writes(UNEVEN, a, name, p) <==> a == 0 && ((name == P && p <= 1) || (name == V && p == 1)) {
      UnevenWrites(a, name, p);
    }
    assert Writes(UNEVEN, 0, P, 0) && Writes(UNEVEN, 0, V, 1);
  }

  lemma TwinsSignature()
    ensures OneSignature(TWINS, [P])
  {
    hide Writes;
    forall a: nat, name, p: nat ensures Writes(TWINS, a, name, p) <==> a <= 1 && name == P && p == 0 {
      TwinsWrites(a, name, p);
    }
    assert Writes(TWINS, 0, P, 0) && Writes(TWINS, 1, P, 0);
  }

  // ── Their flushes ──────────────────────────────────────────────────────────

  ghost predicate HasFile(r: Reader) { exists file :: Opens(file, r) }

  /** Four runs, newest first, each a flush of the world. */
  ghost predicate FourFlushes(w: World, inputs: seq<Reader>) {
    && |inputs| == 4 && (forall i :: 0 <= i < 4 ==> IsFlush(w, inputs[i]) && HasFile(inputs[i]))
    && forall i, j :: 0 <= i < j < 4 ==> inputs[j].hi <= inputs[i].lo && inputs[j].hi < inputs[i].hi
  }

  lemma MakeFour(w: World, schema: SchemaSection, keys: seq<Key>) returns (inputs: seq<Reader>)
    requires WorldOk(w) && SmallWorld(w) && IsFlushSchema(w, schema)
    requires NoDup(keys) && 0 < |keys| <= 0x1_0000 && forall key :: Wants(w, schema, key) <==> key in keys
    ensures FourFlushes(w, inputs)
  {
    hide WorldOk, SmallWorld, IsFlushSchema, Wants, IsFlush, Opens;
    var f, a := FlushOf(w, schema, keys, 6, 7, 0);
    var g, b := FlushOf(w, schema, keys, 4, 5, 0);
    var h, c := FlushOf(w, schema, keys, 2, 3, 0);
    var k, d := FlushOf(w, schema, keys, 0, 1, 0);
    inputs := [a, b, c, d];
    assert HasFile(a) && HasFile(b) && HasFile(c) && HasFile(d);
  }

  const PV: SchemaSection := SchemaSection([EntryOf(0, LAYOUTS[P]), EntryOf(1, LAYOUTS[V])], map[P := 0, V := 1])
  const P_ONLY: SchemaSection := SchemaSection([EntryOf(0, LAYOUTS[P])], map[P := 0])

  const UNEVEN_KEYS: seq<Key> := [Key(0, 0, 0), Key(0, 0, 1), Key(0, 1, 1), Key(0, ENTITY_SLOT, 0), Key(0, ENTITY_SLOT, 1),
    Key(META_ARCH_ID, ALLOCATOR_SLOT, 0)]
  const TWINS_KEYS: seq<Key> := [Key(0, 0, 0), Key(1, 0, 0), Key(0, ENTITY_SLOT, 0), Key(1, ENTITY_SLOT, 0),
    Key(META_ARCH_ID, ALLOCATOR_SLOT, 0)]

  lemma UnevenKeys()
    ensures WorldOk(UNEVEN) && SmallWorld(UNEVEN) && IsFlushSchema(UNEVEN, PV)
    ensures NoDup(UNEVEN_KEYS) && forall key :: Wants(UNEVEN, PV, key) <==> key in UNEVEN_KEYS
  {
    UnevenOk();
    hide Writes, WorldOk, SmallWorld;
    forall a: nat, name, p: nat ensures Writes(UNEVEN, a, name, p) <==> a == 0 && ((name == P && p <= 1) || (name == V && p == 1)) {
      UnevenWrites(a, name, p);
    }
    assert Writes(UNEVEN, 0, P, 0) && Writes(UNEVEN, 0, V, 1) && Writes(UNEVEN, 0, P, 1);
    assert WritesRows(UNEVEN, 0, 0) && WritesRows(UNEVEN, 0, 1);
    assert WritesColumn(UNEVEN, 0, P) && WritesColumn(UNEVEN, 0, V);
    assert NamesOf(PV.entries) == [P, V];
    forall key: Key ensures Wants(UNEVEN, PV, key) <==> key in UNEVEN_KEYS {
    }
  }

  /** A file of a flush of the uneven world. */
  lemma UnevenFile(lo: u64, hi: u64) returns (file: bytes, r: Reader)
    requires lo <= hi
    ensures WorldOk(UNEVEN) && Opens(file, r) && |file| < TOO_LONG && IsFlush(UNEVEN, r)
    ensures r.lo == lo && r.hi == hi && r.pageCount != 0
  {
    hide WorldOk, SmallWorld, IsFlushSchema, Wants, IsFlush, Opens;
    UnevenKeys();
    file, r := FlushOf(UNEVEN, PV, UNEVEN_KEYS, lo, hi, 0);
  }

  lemma UnevenFlushed() returns (inputs: seq<Reader>)
    ensures WorldOk(UNEVEN) && FourFlushes(UNEVEN, inputs)
  {
    hide WorldOk, SmallWorld, IsFlushSchema, Wants, IsFlush, FourFlushes;
    UnevenKeys();
    inputs := MakeFour(UNEVEN, PV, UNEVEN_KEYS);
  }

  lemma TwinsFlushed() returns (inputs: seq<Reader>)
    ensures WorldOk(TWINS) && FourFlushes(TWINS, inputs)
  {
    TwinsOk();
    hide Writes, WorldOk, SmallWorld, IsFlush, Opens, FourFlushes;
    forall a: nat, name, p: nat ensures Writes(TWINS, a, name, p) <==> a <= 1 && name == P && p == 0 {
      TwinsWrites(a, name, p);
    }
    assert Writes(TWINS, 0, P, 0) && Writes(TWINS, 1, P, 0);
    assert WritesRows(TWINS, 0, 0) && WritesRows(TWINS, 1, 0) && WritesColumn(TWINS, 0, P);
    assert NamesOf(P_ONLY.entries) == [P];
    forall key: Key ensures Wants(TWINS, P_ONLY, key) <==> key in TWINS_KEYS {
    }
    inputs := MakeFour(TWINS, P_ONLY, TWINS_KEYS);
  }

  lemma FourAre(w: World, inputs: seq<Reader>)
    requires WorldOk(w) && FourFlushes(w, inputs)
    ensures |inputs| == 4 && AllFlushes(w, inputs)
  {
    hide WorldOk, IsFlush, HasFile;
  }

  // ── What compaction makes of them ──────────────────────────────────────────

  lemma UnevenLacks(r: Reader)
    requires WorldOk(UNEVEN) && IsFlush(UNEVEN, r)
    ensures LeadRow(r, 0, 0, 0) && Lacks(r, 0, 0, V)
  {
    UnevenSignature();
    UnevenWrites(0, P, 0);
    UnevenWrites(0, V, 0);
    assert WritesRows(UNEVEN, 0, 0) && IsEntity(UNEVEN, 0, 0, 0) && WritesArch(UNEVEN, 0);
    hide WorldOk, IsFlush, IsRow, Writes, OneSignature, SigOf, ColumnCell, WritesRows, IsEntity, WritesArch;
    FlushSigIs(UNEVEN, r, [P, V], 0);
    FlushRow(UNEVEN, r, 0, 0, 0);
    FlushCell(UNEVEN, r, 0, V, 0, 0);
    LeadsFirst(r);
    assert V in [P, V];
  }

  /** Four ordinary flushes, of which one column was not dirty on one page, make a job
      that compaction refuses for that cell alone. */
  lemma UnevenFlushRefused() returns (inputs: seq<Reader>)
    ensures WorldOk(UNEVEN) && FourFlushes(UNEVEN, inputs)
    ensures JobWf(inputs, [[P, V]], FirstArch(4)) && !EmptyOrHuge(inputs, [[P, V]], FirstArch(4))
    ensures CellLacking(inputs) && Refusable(inputs, FirstArch(4), [[P, V]])
  {
    hide WorldOk, SmallWorld, IsFlush, FourFlushes, OneSignature, JobWf, EmptyOrHuge, Refusable, LeadRow, Lacks, HasLead;
    inputs := UnevenFlushed();
    UnevenOk();
    UnevenSignature();
    FourAre(UNEVEN, inputs);
    FewNames([P, V], {P, V});
    FlushesFit(UNEVEN, inputs, [P, V]);
    UnevenLacks(inputs[0]);
    assert Chosen(inputs, 0, 0, 0, 0);
    LackingRefused(inputs, [[P, V]], FirstArch(4));
  }

  /** Entity 2 is in every flush of the twins, but behind. */
  lemma TwinBehind(r: Reader)
    requires WorldOk(TWINS) && IsFlush(TWINS, r)
    ensures HasEntity(r, 2) && !HasLead(r, 2) && Complete(r)
  {
    TwinsSignature();
    TwinsWrites(0, P, 0);
    TwinsWrites(1, P, 0);
    assert WritesRows(TWINS, 1, 0) && WritesArch(TWINS, 0) && WritesArch(TWINS, 1);
    assert IsEntity(TWINS, 1, 0, 2);
    TwinsEven();
    FlushCompleteIff(TWINS, r);
    hide WorldOk, IsFlush, IsRow, Writes, OneSignature, SigOf, ArchetypeIds, WritesRows, WritesArch, Even, Complete;
    FlushSigIs(TWINS, r, [P], 0);
    FlushSigIs(TWINS, r, [P], 1);
    FlushRow(TWINS, r, 1, 0, 2);
    forall arch: u16, row: nat | IsRow(r, arch, row, 2) ensures !Leads(r, arch) {
      FlushRow(TWINS, r, arch, row, 2);
      TwinsEntity(arch, row);
    }
  }

  lemma TwinsEntity(a: nat, row: nat)
    ensures IsEntity(TWINS, a, row, 2) ==> a == 1
  {
  }

  lemma TwinsEven()
    ensures Even(TWINS)
  {
    hide Writes;
    forall a, name, p {:trigger Writes(TWINS, a, name, p)} | WritesRows(TWINS, a, p) && WritesColumn(TWINS, a, name)
      ensures Writes(TWINS, a, name, p)
    {
      var other :| Writes(TWINS, a, other, p);
      var q :| Writes(TWINS, a, name, q);
      TwinsWrites(a, other, p);
      TwinsWrites(a, name, q);
    }
  }

  /** Four ordinary flushes in which two archetypes have the same one dirty column make a
      job that has an output, and in no output of it is the entity of the second. */
  lemma TwinLost() returns (inputs: seq<Reader>, some: Reader)
    ensures WorldOk(TWINS) && FourFlushes(TWINS, inputs)
    ensures JobWf(inputs, [[P]], FirstArch(4)) && !Refusable(inputs, FirstArch(4), [[P]])
    ensures IsCompaction(inputs, FirstArch(4), [[P]], some)
    ensures forall i :: 0 <= i < 4 ==> HasEntity(inputs[i], 2)
    ensures forall out :: IsCompaction(inputs, FirstArch(4), [[P]], out) ==> !HasEntity(out, 2)
  {
    hide WorldOk, SmallWorld, IsFlush, FourFlushes, OneSignature, JobWf, EmptyOrHuge, Refusable, HasEntity, HasLead,
      Complete, CellLacking, IsCompaction, Opens, Unwritable;
    inputs := TwinsFlushed();
    TwinsOk();
    TwinsSignature();
    FourAre(TWINS, inputs);
    FewNames([P], {P});
    FlushesFit(TWINS, inputs, [P]);
    forall i | 0 <= i < 4 ensures HasEntity(inputs[i], 2) && !HasLead(inputs[i], 2) && Complete(inputs[i]) {
      TwinBehind(inputs[i]);
    }
    CompleteLacksNothing(inputs);
    RefusedIff(inputs, [[P]], FirstArch(4));
    var file, out := C.CompactionExists(inputs, [[P]], FirstArch(4), 0, 7);
    some := out;
    forall out | IsCompaction(inputs, FirstArch(4), [[P]], out) ensures !HasEntity(out, 2) {
      EntitySurvivesIff(inputs, [[P]], FirstArch(4), out, 2);
    }
  }

  // ── A column left behind ───────────────────────────────────────────────────

  /** Entity 5 with both columns dirty; later, with V alone dirty, and beside it entity 6
      in an archetype of three columns of which P and V are dirty. */
  const BOTH: World := World(
    [Archetype([5], map[P := Column([[7]], {0}), V := Column([[1]], {0})])], LAYOUTS, [Zeros(16)], [])
  const LATER: World := World(
    [Archetype([5], map[P := Column([[7]], {}), V := Column([[2]], {0})]),
     Archetype([6], map[P := Column([[8]], {0}), V := Column([[3]], {0}), Q := Column([[4]], {})])],
    LAYOUTS, [Zeros(16)], [])

  const BOTH_KEYS: seq<Key> := [Key(0, 0, 0), Key(0, 1, 0), Key(0, ENTITY_SLOT, 0), Key(META_ARCH_ID, ALLOCATOR_SLOT, 0)]
  const LATER_KEYS: seq<Key> := [Key(0, 1, 0), Key(1, 0, 0), Key(1, 1, 0), Key(0, ENTITY_SLOT, 0), Key(1, ENTITY_SLOT, 0),
    Key(META_ARCH_ID, ALLOCATOR_SLOT, 0)]

  lemma BothOk()
    ensures WorldOk(BOTH) && SmallWorld(BOTH)
  {
    hide LayoutsOk;
    LayoutsFit();
  }

  lemma LaterColumns(a: nat, name: Name)
    requires a <= 1 && name in LATER.archs[a].columns
    ensures ColumnOk(LATER, LATER.archs[a], name)
  {
  }

  lemma LaterOk()
    ensures WorldOk(LATER) && SmallWorld(LATER)
  {
    hide ColumnOk, LayoutsOk;
    LayoutsFit();
    forall a, name | 0 <= a <= 1 && name in LATER.archs[a].columns ensures ColumnOk(LATER, LATER.archs[a], name) {
      LaterColumns(a, name);
    }
  }

  predicate BothWrites(a: nat, name: Name, p: nat) { a == 0 && (name == P || name == V) && p == 0 }

  predicate LaterWrites(a: nat, name: Name, p: nat) { p == 0 && ((a == 0 && name == V) || (a == 1 && (name == P || name == V))) }

  lemma PairWrites(a: nat, name: Name, p: nat)
    ensures Writes(BOTH, a, name, p) <==> BothWrites(a, name, p)
    ensures Writes(LATER, a, name, p) <==> LaterWrites(a, name, p)
  {
  }

  lemma BothFlushed(lo: u64) returns (r: Reader)
    requires lo < 0x1_0000
    ensures WorldOk(BOTH) && IsFlush(BOTH, r) && HasFile(r) && r.lo == lo && r.hi == lo + 1
  {
    BothOk();
    hide Writes, WorldOk, SmallWorld, IsFlush, Opens;
    forall a: nat, name, p: nat ensures Writes(BOTH, a, name, p) <==> BothWrites(a, name, p) {
      PairWrites(a, name, p);
    }
    assert Writes(BOTH, 0, P, 0) && Writes(BOTH, 0, V, 0);
    assert WritesRows(BOTH, 0, 0) && WritesColumn(BOTH, 0, P) && WritesColumn(BOTH, 0, V);
    assert NamesOf(PV.entries) == [P, V];
    forall key: Key ensures Wants(BOTH, PV, key) <==> key in BOTH_KEYS {
    }
    var file, out := FlushOf(BOTH, PV, BOTH_KEYS, lo, lo + 1, 0);
    r := out;
  }

  lemma LaterFlushed(lo: u64) returns (r: Reader)
    requires lo < 0x1_0000
    ensures WorldOk(LATER) && IsFlush(LATER, r) && HasFile(r) && r.lo == lo && r.hi == lo + 1
  {
    LaterOk();
    hide Writes, WorldOk, SmallWorld, IsFlush, Opens;
    forall a: nat, name, p: nat ensures Writes(LATER, a, name, p) <==> LaterWrites(a, name, p) {
      PairWrites(a, name, p);
    }
    assert Writes(LATER, 0, V, 0) && Writes(LATER, 1, P, 0) && Writes(LATER, 1, V, 0);
    assert WritesRows(LATER, 0, 0) && WritesRows(LATER, 1, 0) && WritesColumn(LATER, 0, V) && WritesColumn(LATER, 1, P);
    assert NamesOf(PV.entries) == [P, V];
    forall key: Key ensures Wants(LATER, PV, key) <==> key in LATER_KEYS {
    }
    var file, out := FlushOf(LATER, PV, LATER_KEYS, lo, lo + 1, 0);
    r := out;
  }

  /** The job of signature [P, V] over these runs. */
  const PAIR_SIGS: seq<Signature> := [[P, V], [V]]
  const PAIR_TABLE: ArchTable := [[Some(1), Some(0), Some(0), Some(0)], [Some(0), None, None, None]]

  /** A flush of the later world, then three of the earlier one. */
  ghost predicate PairFlushes(inputs: seq<Reader>)
    requires WorldOk(BOTH) && WorldOk(LATER)
  {
    && |inputs| == 4 && IsFlush(LATER, inputs[0]) && HasFile(inputs[0])
    && (forall i :: 1 <= i < 4 ==> IsFlush(BOTH, inputs[i]) && HasFile(inputs[i]))
    && forall i, j :: 0 <= i < j < 4 ==> inputs[j].hi <= inputs[i].lo && inputs[j].hi < inputs[i].hi
  }

  predicate InLayouts(entry: SchemaEntry, name: Name) {
    name in LAYOUTS && entry.kind == LAYOUTS[name].kind && entry.itemSize == LAYOUTS[name].size
  }

  lemma PairAscends()
    ensures Ascending([P, V]) && Ascending([V])
  {
  }

  lemma BothSigs(r: Reader)
    requires WorldOk(BOTH) && IsFlush(BOTH, r)
    ensures 0 in ArchetypeIds(r) && SigOf(r, 0) == Some([P, V]) && forall a :: a in ArchetypeIds(r) ==> a == 0
  {
    PairAscends();
    hide WorldOk, IsFlush, Writes, ArchetypeIds, SigOf, Ascending;
    forall a: nat, name, p: nat ensures Writes(BOTH, a, name, p) <==> BothWrites(a, name, p) {
      PairWrites(a, name, p);
    }
    assert Writes(BOTH, 0, P, 0) && Writes(BOTH, 0, V, 0);
    SignatureAt(BOTH, r, 0, [P, V]);
    forall a: u16 ensures a in ArchetypeIds(r) ==> a == 0 {
      FlushArchetypes(BOTH, r, a);
    }
  }

  lemma LaterSigs(r: Reader)
    requires WorldOk(LATER) && IsFlush(LATER, r)
    ensures 0 in ArchetypeIds(r) && SigOf(r, 0) == Some([V]) && 1 in ArchetypeIds(r) && SigOf(r, 1) == Some([P, V])
    ensures forall a :: a in ArchetypeIds(r) ==> a <= 1
  {
    PairAscends();
    hide WorldOk, IsFlush, Writes, ArchetypeIds, SigOf, Ascending;
    forall a: nat, name, p: nat ensures Writes(LATER, a, name, p) <==> LaterWrites(a, name, p) {
      PairWrites(a, name, p);
    }
    assert Writes(LATER, 0, V, 0) && Writes(LATER, 1, P, 0) && Writes(LATER, 1, V, 0);
    SignatureAt(LATER, r, 0, [V]);
    SignatureAt(LATER, r, 1, [P, V]);
    forall a: u16 ensures a in ArchetypeIds(r) ==> a <= 1 {
      FlushArchetypes(LATER, r, a);
    }
  }

  lemma PairEven()
    ensures Even(BOTH) && Even(LATER)
  {
    hide Writes;
    forall a: nat, name, p: nat
      ensures Writes(BOTH, a, name, p) <==> BothWrites(a, name, p)
      ensures Writes(LATER, a, name, p) <==> LaterWrites(a, name, p)
    {
      PairWrites(a, name, p);
    }
  }

  /** What an input of the job is, whichever world it is from. */
  ghost predicate PairRun(r: Reader, later: bool) {
    && RunWf(r) && C.Modest(r) && Complete(r) && HasSig(r, [P, V])
    && IsArchOf(r, [P, V], Some(if later then 1 else 0)) && IsArchOf(r, [V], if later then Some(0) else None)
    && (forall a :: a in ArchetypeIds(r) ==> SigOf(r, a).Some? && SigOf(r, a).value in PAIR_SIGS)
    && forall name {:trigger EntryNamed(r.schema, name)} ::
      EntryNamed(r.schema, name).Some? ==> InLayouts(EntryNamed(r.schema, name).value, name)
  }

  lemma SigsDiffer()
    ensures PAIR_SIGS[0] == [P, V] && PAIR_SIGS[1] == [V] && PAIR_SIGS[0] != PAIR_SIGS[1]
  {
  }

  lemma FlushRunWf(w: World, r: Reader)
    requires WorldOk(w) && SmallWorld(w) && IsFlush(w, r) && Even(w) && w.layouts == LAYOUTS
    ensures RunWf(r) && C.Modest(r) && Complete(r)
    ensures forall name {:trigger EntryNamed(r.schema, name)} ::
      EntryNamed(r.schema, name).Some? ==> InLayouts(EntryNamed(r.schema, name).value, name)
  {
    hide WorldOk, SmallWorld, IsFlush, Even, RunWf, C.Modest, Complete, EntryNamed, Populated;
    FlushIsWellFormed(w, r);
    FlushIsModest(w, r);
    FlushCompleteIff(w, r);
    forall name {:trigger EntryNamed(r.schema, name)} | EntryNamed(r.schema, name).Some?
      ensures InLayouts(EntryNamed(r.schema, name).value, name)
    {
      FlushLayout(w, r, name);
    }
  }

  lemma BothRun(r: Reader)
    requires WorldOk(BOTH) && IsFlush(BOTH, r)
    ensures PairRun(r, false)
  {
    hide WorldOk, SmallWorld, IsFlush, Even, RunWf, C.Modest, Complete, EntryNamed, InLayouts, ArchetypeIds, SigOf;
    BothOk();
    PairEven();
    FlushRunWf(BOTH, r);
    BothSigs(r);
    SigsDiffer();
  }

  lemma LaterRun(r: Reader)
    requires WorldOk(LATER) && IsFlush(LATER, r)
    ensures PairRun(r, true)
  {
    hide WorldOk, SmallWorld, IsFlush, Even, RunWf, C.Modest, Complete, EntryNamed, InLayouts, ArchetypeIds, SigOf;
    LaterOk();
    PairEven();
    FlushRunWf(LATER, r);
    LaterSigs(r);
    SigsDiffer();
  }

  ghost predicate PairRuns(inputs: seq<Reader>) {
    |inputs| == 4 && forall i :: 0 <= i < 4 ==> PairRun(inputs[i], i == 0)
  }

  lemma PairsAre(inputs: seq<Reader>)
    requires WorldOk(BOTH) && WorldOk(LATER) && PairFlushes(inputs)
    ensures PairRuns(inputs)
  {
    hide WorldOk, IsFlush, HasFile, PairRun;
    forall i | 0 <= i < 4 ensures PairRun(inputs[i], i == 0) {
      if i == 0 { LaterRun(inputs[0]); } else { BothRun(inputs[i]); }
    }
  }

  lemma PairResolved(inputs: seq<Reader>)
    requires PairRuns(inputs)
    ensures Resolved(inputs, PAIR_SIGS, PAIR_TABLE) && FromInputs(inputs, PAIR_SIGS)
  {
    hide RunWf, C.Modest, Complete, EntryNamed, InLayouts, ArchetypeIds, SigOf;
    SigsDiffer();
    assert PairRun(inputs[0], true);
    assert SomeInputHas(inputs, PAIR_SIGS[0]) && SomeInputHas(inputs, PAIR_SIGS[1]);
  }

  lemma PairLayouts(inputs: seq<Reader>)
    requires PairRuns(inputs)
    ensures LayoutsAgree(inputs)
  {
    hide RunWf, C.Modest, Complete, EntryNamed, ArchetypeIds, SigOf, HasSig;
    forall i, j, name {:trigger EntryNamed(inputs[i].schema, name), EntryNamed(inputs[j].schema, name)} |
      0 <= i < |inputs| && 0 <= j < |inputs|
      && EntryNamed(inputs[i].schema, name).Some? && EntryNamed(inputs[j].schema, name).Some?
      ensures SameLayout(EntryNamed(inputs[i].schema, name).value, EntryNamed(inputs[j].schema, name).value)
    {
      assert PairRun(inputs[i], i == 0) && PairRun(inputs[j], j == 0);
    }
  }

  lemma PairSigsOk()
    ensures SigsOk(PAIR_SIGS) && |AllNames(PAIR_SIGS)| <= 2
  {
    PairAscends();
    hide Ascending;
    assert AllNames(PAIR_SIGS) <= {P, V};
    SubsetSize(AllNames(PAIR_SIGS), {P, V});
  }

  lemma PairWf(inputs: seq<Reader>)
    requires PairRuns(inputs)
    ensures JobWf(inputs, PAIR_SIGS, PAIR_TABLE) && C.AllModest(inputs) && forall i :: 0 <= i < 4 ==> Complete(inputs[i])
  {
    hide RunWf, C.Modest, Complete, ArchetypeIds, SigOf, EntryNamed, InLayouts, IsArchOf, HasSig, Resolved, LayoutsAgree,
      FromInputs, SigsOk, AllNames;
    PairResolved(inputs);
    PairLayouts(inputs);
    PairSigsOk();
    assert forall i :: 0 <= i < 4 ==> PairRun(inputs[i], i == 0);
  }

  /** The four flushes make a well-formed job that is not refused and can be written. */
  lemma PairJob(inputs: seq<Reader>)
    requires PairRuns(inputs) && HasLead(inputs[0], 5)
    ensures JobWf(inputs, PAIR_SIGS, PAIR_TABLE) && !Refusable(inputs, PAIR_TABLE, PAIR_SIGS)
    ensures !Unwritable(inputs, PAIR_TABLE, PAIR_SIGS)
  {
    hide PairRun, Complete, SigsOk, EmptyOrHuge, CellLacking, Refusable, Unwritable, HasLead, AllNames, JobWf, C.AllModest;
    PairWf(inputs);
    PairSigsOk();
    C.ModestFits(inputs, PAIR_SIGS, PAIR_TABLE, 0, 5);
    C.ModestWritable(inputs, PAIR_SIGS, PAIR_TABLE);
    CompleteLacksNothing(inputs);
    RefusedIff(inputs, PAIR_SIGS, PAIR_TABLE);
  }

  /** Four ordinary flushes, all with the signature [P, V] that makes their job, the newest
      with V alone dirty for entity 5: the job is not refused, it has an output, its inputs
      have the cell of P, and in no output has the entity that cell. */
  lemma ColumnLeftBehind() returns (inputs: seq<Reader>, some: Reader)
    ensures WorldOk(BOTH) && WorldOk(LATER) && PairFlushes(inputs)
    ensures forall i :: 0 <= i < 4 ==> HasSig(inputs[i], [P, V])
    ensures JobWf(inputs, PAIR_SIGS, PAIR_TABLE) && !Refusable(inputs, PAIR_TABLE, PAIR_SIGS)
    ensures IsCompaction(inputs, PAIR_TABLE, PAIR_SIGS, some) && HasEntity(some, 5)
    ensures forall i :: 1 <= i < 4 ==> IsRow(inputs[i], 0, 0, 5) && ColumnCell(inputs[i], 0, P, 0) == Some([7])
    ensures forall out, s, k :: IsCompaction(inputs, PAIR_TABLE, PAIR_SIGS, out) && IsRow(out, s, k, 5) ==>
      ColumnCell(out, s, P, k).None?
  {
    hide WorldOk, SmallWorld, IsFlush, HasFile, JobWf, IsCompaction, IsRow, ColumnCell, Leads, Refusable, PairRun,
      HasSig, Opens, Unwritable, HasEntity, HasLead;
    BothOk();
    LaterOk();
    var a := LaterFlushed(6);
    var b := BothFlushed(4);
    var c := BothFlushed(2);
    var d := BothFlushed(0);
    inputs := [a, b, c, d];
    PairsAre(inputs);
    forall i | 0 <= i < 4 ensures HasSig(inputs[i], [P, V]) {
      PairHasSig(inputs[i], i == 0);
    }
    LaterRow(a);
    LeadsFirst(a);
    LeadRowHas(a, 0, 0, 5);
    PairJob(inputs);
    forall i | 1 <= i < 4 ensures IsRow(inputs[i], 0, 0, 5) && ColumnCell(inputs[i], 0, P, 0) == Some([7]) {
      BothRow(inputs[i]);
    }
    assert Chosen(inputs, 5, 0, 0, 0);
    var file, out := C.CompactionExists(inputs, PAIR_SIGS, PAIR_TABLE, 0, 7);
    some := out;
    EntitySurvivesIff(inputs, PAIR_SIGS, PAIR_TABLE, out, 5);
    forall out, s, k | IsCompaction(inputs, PAIR_TABLE, PAIR_SIGS, out) && IsRow(out, s, k, 5) ensures ColumnCell(out, s, P, k).None? {
      ChosenCellsOnly(inputs, PAIR_SIGS, PAIR_TABLE, out, 5, 0, 0, 0, P, s, k);
    }
  }

  lemma PairHasSig(r: Reader, later: bool)
    requires PairRun(r, later)
    ensures HasSig(r, [P, V])
  {
    hide HasSig, RunWf, C.Modest, Complete, IsArchOf, InLayouts;
  }

  lemma BothRow(r: Reader)
    requires WorldOk(BOTH) && IsFlush(BOTH, r)
    ensures IsRow(r, 0, 0, 5) && ColumnCell(r, 0, P, 0) == Some([7])
  {
    PairWrites(0, P, 0);
    assert WritesRows(BOTH, 0, 0) && IsEntity(BOTH, 0, 0, 5);
    hide WorldOk, IsFlush, IsRow, Writes, ColumnCell, WritesRows, IsEntity;
    FlushRow(BOTH, r, 0, 0, 5);
    FlushCell(BOTH, r, 0, P, 0, 5);
  }

  lemma LaterRow(r: Reader)
    requires WorldOk(LATER) && IsFlush(LATER, r)
    ensures IsRow(r, 0, 0, 5) && ColumnCell(r, 0, P, 0).None?
  {
    PairWrites(0, P, 0);
    PairWrites(0, V, 0);
    assert WritesRows(LATER, 0, 0) && IsEntity(LATER, 0, 0, 5);
    hide WorldOk, IsFlush, IsRow, Writes, ColumnCell, WritesRows, IsEntity;
    FlushRow(LATER, r, 0, 0, 5);
    FlushCell(LATER, r, 0, P, 0, 5);
  }

  // ── A store that stops ─────────────────────────────────────────────────────

  const SIG: Signature := [P, V]

  const UNEVEN_UNIVERSE: Universe := Universe({SIG}, map name | name in LAYOUTS :: Layout(RawCopy, 1))

  lemma UniverseIsOk()
    ensures UniverseOk(UNEVEN_UNIVERSE)
  {
    PairAscends();
    assert UNEVEN_UNIVERSE.layouts.Keys == {P, V, Q};
  }

  lemma UnevenIsApart()
    ensures Apart(UNEVEN)
  {
    hide Writes;
    forall a: nat, b: nat | WritesArch(UNEVEN, a) && WritesArch(UNEVEN, b) ensures a == b {
      var x, p: nat :| Writes(UNEVEN, a, x, p);
      var y, q: nat :| Writes(UNEVEN, b, y, q);
      UnevenWrites(a, x, p);
      UnevenWrites(b, y, q);
    }
  }

  /** A flush of the uneven world can be recorded. */
  lemma UnevenRun(r: Reader)
    requires WorldOk(UNEVEN) && IsFlush(UNEVEN, r)
    ensures RunIn(UNEVEN_UNIVERSE, r) && Plain(r) && RunWf(r)
    ensures forall sig :: HasSig(r, sig) <==> sig == SIG
  {
    hide WorldOk, IsFlush, RunWf, Populated, DistinctSigs, Apart, EntryNamed, SigOf, ArchetypeIds, OneSignature, IsArchOf;
    UnevenIsApart();
    UnevenSignature();
    FlushIsPlain(UNEVEN, r);
    FlushArch(UNEVEN, r, SIG);
    forall name {:trigger EntryNamed(r.schema, name)} | EntryNamed(r.schema, name).Some?
      ensures name in UNEVEN_UNIVERSE.layouts
      ensures UNEVEN_UNIVERSE.layouts[name] == Layout(EntryNamed(r.schema, name).value.kind, EntryNamed(r.schema, name).value.itemSize)
    {
      FlushLayout(UNEVEN, r, name);
    }
  }

  const TOP: nat := 0

  ghost predicate UnevenAt(disk: Disk, p: Path) {
    match ReaderAt(disk, p) case Some(r) => IsFlush(UNEVEN, r) case None => false
  }

  ghost predicate AllUneven(disk: Disk, m: ManifestState) { forall p :: p in Tracked(m) ==> UnevenAt(disk, p) }

  /** A store whose runs are `k` flushes of the uneven world, all on level 0. */
  ghost predicate UnevenStore(n: nat, dir: Path, p: Point, sys: H.Sys, k: int) {
    && Now(UNEVEN_UNIVERSE, n, dir, p, sys) && AllUneven(p.state.disk, p.state.mem) && |sys.levels| == n > 1
    && |LevelOf(sys.levels, 0)| == k && (forall r :: r in LevelOf(sys.levels, 0) ==> H.SigsOf(r) == {SIG})
    && forall q :: q in sys.flushed ==> q.hi < 2 * k
  }

  lemma UnevenSigs(r: Reader)
    requires RunWf(r) && Plain(r) && forall sig :: HasSig(r, sig) <==> sig == SIG
    ensures H.SigsOf(Seen(r)) == {SIG}
  {
    assert Populated(r);
    hide RunWf, Populated, DistinctSigs, HasSig, H.SigsOf, Seen;
    forall sig ensures sig in H.SigsOf(Seen(r)) <==> sig == SIG {
      SigsSeen(r, sig);
    }
  }

  lemma UnevenStay(a: Disk, m: ManifestState, b: Disk, m': ManifestState, path: Path, file: bytes, r: Reader)
    requires AllUneven(a, m) && b == a[path := file] && Opens(file, r) && WorldOk(UNEVEN) && IsFlush(UNEVEN, r)
    requires Tracked(m') == Tracked(m) + {path} && forall p :: p in Tracked(m) ==> p in a
    ensures AllUneven(b, m')
  {
    hide Tracked, Opens, WorldOk, IsFlush;
    forall p | p in Tracked(m') ensures UnevenAt(b, p) {
      if p == path {
        OpensUnique(b[path], r, ReaderAt(b, path).value);
      } else {
        assert UnevenAt(a, p);
        SameFile(a, b, p);
      }
    }
  }

  lemma NowTracked(n: nat, dir: Path, p: Point, sys: H.Sys)
    requires Now(UNEVEN_UNIVERSE, n, dir, p, sys)
    ensures sys.flushed == p.flushed && forall q :: q in Tracked(p.state.mem) ==> q in p.state.disk
  {
    hide Now, Reached, Kept, UniverseOk, Shown, H.Reach, NamesFit, DiskIn, Inv, Tracked, Shows;
    NowParts(UNEVEN_UNIVERSE, n, dir, p, sys);
    ShowsParts(n, dir, p.state.disk, p.state.mem, p.flushed, sys);
  }

  /** One more flush of the world. */
  lemma OneMore(n: nat, dir: Path, p: Point, sys: H.Sys, k: nat) returns (p': Point, sys': H.Sys)
    requires ShortDir(dir) && k < 0x100 && UnevenStore(n, dir, p, sys, k)
    ensures UnevenStore(n, dir, p', sys', k + 1)
  {
    hide Now, AllUneven, ShortDir, WorldOk, IsFlush, Opens, RunWf, RunIn, Plain, Tracked, Seen, LeadsTo, HasSig, H.SigsOf;
    var file, r := UnevenFile(2 * k, 2 * k + 1);
    UnevenRun(r);
    SeenHi(r);
    UnevenSigs(r);
    NowTracked(n, dir, p, sys);
    p' := FlushHappens(UNEVEN_UNIVERSE, n, dir, p, sys, file, r);
    sys' := AfterFlush(sys, Seen(r));
    UnevenStay(p.state.disk, p.state.mem, p'.state.disk, p'.state.mem, FlushPath(dir, r.lo, r.hi), file, r);
  }

  lemma {:induction false} Uneven(n: nat, dir: Path, k: nat) returns (p: Point, sys: H.Sys)
    requires ShortDir(dir) && k <= 0x100 && 1 < n <= MAX_LEVELS
    ensures UnevenStore(n, dir, p, sys, k)
  {
    hide Now, UniverseOk, Tracked, ShortDir;
    if k == 0 {
      UniverseIsOk();
      p, sys := AtStart(UNEVEN_UNIVERSE, n, dir);
      forall r ensures r !in Tracked(EmptyState(n)) {
        TrackedAt(EmptyState(n), r);
      }
    } else {
      var q, before := Uneven(n, dir, k - 1);
      p, sys := OneMore(n, dir, q, before, k - 1);
    }
  }

  /** The signature of the world is due. */
  lemma UnevenDue(n: nat, dir: Path, p: Point, sys: H.Sys)
    requires UnevenStore(n, dir, p, sys, 4)
    ensures Due(sys, TOP, SIG)
  {
    hide Now, AllUneven, H.Having, H.SigsOf;
    var runs := sys.levels[0];
    Recency.AllHave(runs, SIG);
    forall s {:trigger H.Having(sys.levels[0], s)} ensures |H.Having(sys.levels[0], s)| >= H.TRIGGER <==> s == SIG {
      if s != SIG {
        H.HavingSize(runs, s);
        forall i: nat | i < |runs| ensures s !in H.SigsOf(runs[i]) {
          assert runs[i] in runs;
        }
        assert H.PositionsOf(runs, s) == {};
      }
    }
  }

  lemma UnevenReader(disk: Disk, m: ManifestState, sig: Signature, job: Job, readers: seq<Reader>)
    requires AllUneven(disk, m) && 0 < |m.levels| && JobFor(disk, LevelOf(m.levels, 0), TOP, sig, job) && OpenedAs(disk, job.paths, readers)
    ensures forall r :: r in Inputs(readers) ==> IsFlush(UNEVEN, r)
  {
    hide JobFor, Tracked, ReaderAt, Inputs, WorldOk, IsFlush, RunHas;
    InputsAre(readers);
    OpenedLength(disk, job.paths, readers);
    forall r | r in Inputs(readers) ensures IsFlush(UNEVEN, r) {
      var i :| 0 <= i < |readers| && readers[i] == r;
      var k := JobPathViewable(disk, m.levels[0], 0, sig, job, i);
      TrackedIn(m, 0, k);
      assert UnevenAt(disk, job.paths[i]);
      assert ReaderAt(disk, job.paths[i]) == Some(readers[i]);
    }
  }

  lemma UnevenLacking(inputs: seq<Reader>)
    requires AllFlushes(UNEVEN, inputs)
    ensures CellLacking(inputs)
  {
    hide WorldOk, Indexed, IsFlushSchema, FlushPages, Holds, LeadRow, Lacks, HasLead;
    UnevenLacks(inputs[0]);
    assert Chosen(inputs, 0, 0, 0, 0);
  }

  lemma UnevenRefused(n: nat, dir: Path, p: Point, sys: H.Sys, job: Job)
    requires UnevenStore(n, dir, p, sys, 4) && 0 < |p.state.mem.levels| && JobFor(p.state.disk, LevelOf(p.state.mem.levels, 0), TOP, SIG, job)
    ensures JobRefused(p.state.disk, job)
  {
    var disk, m := p.state.disk, p.state.mem;
    hide Now, Reached, Kept, UniverseOk, Inv, DiskIn, Shows, AllUneven, JobFor, OpenedAs, Inputs, Covers, IsTable, AllIn, JobWf,
      Refusable, CellLacking, WorldOk, IsFlush, H.SigsOf;
    NowParts(UNEVEN_UNIVERSE, n, dir, p, sys);
    var readers := OpenedExists(disk, m.levels[0], 0, SIG, job);
    JobIsSound(UNEVEN_UNIVERSE, disk, m.levels[0], 0, SIG, job);
    JobCovers(disk, m.levels[0], 0, SIG, job, readers);
    OpenedIn(UNEVEN_UNIVERSE, disk, job.paths, readers);
    SortedJob(UNEVEN_UNIVERSE, readers, job.sigs);
    var table := TableExists(Inputs(readers), job.sigs);
    JobIsWf(UNEVEN_UNIVERSE, Inputs(readers), job.sigs, table);
    UnevenReader(disk, m, SIG, job, readers);
    Realization.InputsCount(readers);
    forall i | 0 <= i < |Inputs(readers)| ensures IsFlush(UNEVEN, Inputs(readers)[i]) {
      assert Inputs(readers)[i] in Inputs(readers);
    }
    UnevenLacking(Inputs(readers));
    LackingRefused(Inputs(readers), job.sigs, table);
  }

  /** Four flushes of one world, of which a column was not dirty on one page, bring a store of
      any number of levels to a stop: the scheduler's next job is refused. */
  lemma UnevenStuck(n: nat, dir: Path) returns (p: Point, job: Job)
    requires ShortDir(dir) && 1 < n <= MAX_LEVELS
    ensures Reached(UNEVEN_UNIVERSE, n, dir, p) && p.state.phase.Idle?
    ensures NextJob(p.state.disk, p.state.mem.levels, TOP, job) && JobRefused(p.state.disk, job)
    ensures Stuck(p.state.disk, p.state.mem.levels, dir)
  {
    hide Now, Reached, Kept, UniverseOk, Inv, DiskIn, Shows, AllUneven, JobFor, H.SigsOf, ShortDir, Shown, NextJob, JobRefused,
      Due, NextDue, NamesFit, H.Reach, UniquePaths, RunViewable, Tracked, JobUnwritable, NextBroken;
    var sys;
    p, sys := Uneven(n, dir, 4);
    NowParts(UNEVEN_UNIVERSE, n, dir, p, sys);
    ShowsParts(n, dir, p.state.disk, p.state.mem, p.flushed, sys);
    UnevenDue(n, dir, p, sys);
    DueNow(UNEVEN_UNIVERSE, n, dir, p, sys, 0, SIG);
    job := DueJob(p.state.disk, p.state.mem, sys, 0, SIG);
    UnevenRefused(n, dir, p, sys, job);
    assert Uncommitted(p.state.disk, job, dir);
  }
}
