/** Worlds of single rows, each an entity in an archetype of one component, what lookups
    see of their flushes, and histories of such flushes as the store makes them. */
module RowHistories {
  import opened Bytes
  import opened Order
  import opened Schema
  import opened SchemaCodec
  import opened RunFormat
  import opened RunReader
  import opened RunFile
  import opened CompactionPlan
  import opened CompactionWriter
  import opened Carry
  import opened Archetypes
  import opened RunMeaning
  import opened CompactionMeaning
  import opened Executor
  import opened Flush
  import opened FlushGaps
  import opened StoreView
  import opened Picker
  import opened Manifest
  import opened Protocol
  import opened OutputNames
  import opened StoreRuns
  import opened Realization
  import C = CompactionFile
  import H = RunHistory

  /** An entity with one component of one byte. */
  datatype Row = Row(entity: u64, name: Name, value: u8)

  /** Components A to E, of one byte each. */
  const LETTERS: map<Name, Component> :=
    map[[65] := Component([65], 1, 1, RawCopy), [66] := Component([66], 1, 1, RawCopy), [67] := Component([67], 1, 1, RawCopy),
        [68] := Component([68], 1, 1, RawCopy), [69] := Component([69], 1, 1, RawCopy)]

  const LETTER_SIGS: set<Signature> := {[[65]], [[66]], [[67]], [[68]], [[69]]}

  const LETTER_UNIVERSE: Universe := Universe(LETTER_SIGS, map name | name in LETTERS :: Layout(RawCopy, 1))

  predicate RowsOk(rows: seq<Row>) {
    && 0 < |rows| <= 0x10
    && (forall i :: 0 <= i < |rows| ==> rows[i].name in LETTERS && rows[i].entity < 0x1_0000)
    && (forall i, j :: 0 <= i < j < |rows| ==> rows[i].entity != rows[j].entity && rows[i].name != rows[j].name)
  }

  function ArchOf(row: Row): Archetype { Archetype([row.entity], map[row.name := Column([[row.value]], {0})]) }

  function Archs(rows: seq<Row>): (r: seq<Archetype>)
    ensures |r| == |rows| && forall i :: 0 <= i < |r| ==> r[i] == ArchOf(rows[i])
  {
    seq(|rows|, i requires 0 <= i < |rows| => ArchOf(rows[i]))
  }

  /** The rows, each in an archetype of its own, all dirty. */
  function RowWorld(rows: seq<Row>): World { World(Archs(rows), LETTERS, [Zeros(16)], []) }

  /** What lookups see of the rows. */
  function View(rows: seq<Row>): map<u64, Image> {
    if |rows| == 0 then map[] else View(rows[..|rows| - 1])[rows[|rows| - 1].entity := RowImg(rows[|rows| - 1])]
  }

  function RowImg(row: Row): Image { Image([row.name], [Some([row.value])]) }

  lemma {:induction false} ViewIs(rows: seq<Row>)
    requires forall i, j :: 0 <= i < j < |rows| ==> rows[i].entity != rows[j].entity
    ensures forall e :: e in View(rows) <==> exists i :: 0 <= i < |rows| && rows[i].entity == e
    ensures forall i :: 0 <= i < |rows| ==> rows[i].entity in View(rows) && View(rows)[rows[i].entity] == RowImg(rows[i])
  {
    if |rows| != 0 {
      var init, last := rows[..|rows| - 1], rows[|rows| - 1];
      ViewIs(init);
      forall e ensures e in View(rows) <==> exists i :: 0 <= i < |rows| && rows[i].entity == e {
        if i :| 0 <= i < |rows| && rows[i].entity == e {
          if i < |init| { assert init[i].entity == e; }
        }
        if e in View(init) {
          var i :| 0 <= i < |init| && init[i].entity == e;
          assert rows[i].entity == e;
        }
        assert e == last.entity ==> rows[|rows| - 1].entity == e;
      }
      forall i | 0 <= i < |rows| ensures rows[i].entity in View(rows) && View(rows)[rows[i].entity] == RowImg(rows[i]) {
        if i < |init| { assert init[i] == rows[i]; }
      }
    }
  }

  // ── The world ──────────────────────────────────────────────────────────────

  lemma LettersFit()
    ensures LayoutsOk(LETTERS)
  {
    forall name | name in LETTERS ensures LETTERS[name].name == name && EntryFits(EntryOf(0, LETTERS[name])) && PowerOfTwo(LETTERS[name].align) {
      assert CharLen(name) == 1 && name[1..] == [];
    }
    assert LETTERS.Keys == {[65], [66], [67], [68], [69]};
    assert |LETTERS| == |LETTERS.Keys|;
  }

  lemma RowColumn(rows: seq<Row>, a: nat, name: Name)
    requires RowsOk(rows) && a < |rows| && name in ArchOf(rows[a]).columns
    ensures ColumnOk(RowWorld(rows), ArchOf(rows[a]), name) && name == rows[a].name
  {
  }

  lemma RowWorldOk(rows: seq<Row>)
    requires RowsOk(rows)
    ensures WorldOk(RowWorld(rows)) && SmallWorld(RowWorld(rows))
  {
    LettersFit();
    hide ColumnOk, LayoutsOk;
    var w := RowWorld(rows);
    forall a, name | 0 <= a < |w.archs| && name in w.archs[a].columns ensures ColumnOk(w, w.archs[a], name) {
      RowColumn(rows, a, name);
    }
  }

  lemma RowWrites(rows: seq<Row>, a: nat, name: Name, p: nat)
    ensures Writes(RowWorld(rows), a, name, p) <==> a < |rows| && name == rows[a].name && p == 0
  {
  }

  lemma RowEntity(rows: seq<Row>, a: nat, row: nat, e: u64)
    ensures IsEntity(RowWorld(rows), a, row, e) <==> a < |rows| && row == 0 && e == rows[a].entity
  {
  }

  lemma RowWritten(rows: seq<Row>)
    ensures forall a: nat, p: nat :: WritesRows(RowWorld(rows), a, p) <==> a < |rows| && p == 0
    ensures forall a: nat, name :: WritesColumn(RowWorld(rows), a, name) <==> a < |rows| && name == rows[a].name
    ensures forall a: nat :: WritesArch(RowWorld(rows), a) <==> a < |rows|
  {
    hide Writes, RowWorld;
    forall a: nat, name, p: nat ensures Writes(RowWorld(rows), a, name, p) <==> a < |rows| && name == rows[a].name && p == 0 {
      RowWrites(rows, a, name, p);
    }
    forall a: nat | a < |rows|
      ensures WritesRows(RowWorld(rows), a, 0) && WritesColumn(RowWorld(rows), a, rows[a].name) && WritesArch(RowWorld(rows), a)
    {
      assert Writes(RowWorld(rows), a, rows[a].name, 0);
    }
  }

  lemma RowsEven(rows: seq<Row>)
    requires RowsOk(rows)
    ensures Even(RowWorld(rows)) && Apart(RowWorld(rows))
  {
    RowWritten(rows);
    hide Writes, RowWorld, WritesColumn, WritesRows, WritesArch;
    forall a, name, p {:trigger Writes(RowWorld(rows), a, name, p)} | WritesRows(RowWorld(rows), a, p) && WritesColumn(RowWorld(rows), a, name)
      ensures Writes(RowWorld(rows), a, name, p)
    {
      RowWrites(rows, a, name, p);
    }
    forall a: nat, b: nat | WritesArch(RowWorld(rows), a) && WritesArch(RowWorld(rows), b) && SameColumns(RowWorld(rows), a, b)
      ensures a == b
    {
      assert WritesColumn(RowWorld(rows), a, rows[a].name);
    }
  }

  // ── Its flush ──────────────────────────────────────────────────────────────

  function RowKeys(rows: seq<Row>, schema: SchemaSection): seq<Key>
    requires |rows| <= 0x10 && forall i :: 0 <= i < |rows| ==> rows[i].name in schema.slots
  {
    seq(|rows|, i requires 0 <= i < |rows| => Key(i, schema.slots[rows[i].name], 0))
    + seq(|rows|, i requires 0 <= i < |rows| => Key(i, ENTITY_SLOT, 0)) + [Key(META_ARCH_ID, ALLOCATOR_SLOT, 0)]
  }

  lemma RowKeysAre(rows: seq<Row>, schema: SchemaSection, key: Key)
    requires |rows| <= 0x10 && forall i :: 0 <= i < |rows| ==> rows[i].name in schema.slots
    ensures key in RowKeys(rows, schema) <==>
      || (key.arch < |rows| && key.page == 0 && (key.slot == schema.slots[rows[key.arch].name] || key.slot == ENTITY_SLOT))
      || key == Key(META_ARCH_ID, ALLOCATOR_SLOT, 0)
  {
    var keys, n := RowKeys(rows, schema), |rows|;
    assert forall i :: 0 <= i < n ==> keys[i] == Key(i, schema.slots[rows[i].name], 0) && keys[n + i] == Key(i, ENTITY_SLOT, 0);
    assert keys[n + n] == Key(META_ARCH_ID, ALLOCATOR_SLOT, 0);
    if key.arch < n && key.page == 0 && (key.slot == schema.slots[rows[key.arch].name] || key.slot == ENTITY_SLOT) {
      assert key == keys[key.arch] || key == keys[n + key.arch];
    }
  }

  lemma RowKeysDiffer(rows: seq<Row>, schema: SchemaSection)
    requires |rows| <= 0x10 && forall i :: 0 <= i < |rows| ==> rows[i].name in schema.slots && schema.slots[rows[i].name] != ENTITY_SLOT
    ensures NoDup(RowKeys(rows, schema)) && 0 < |RowKeys(rows, schema)| <= 0x1_0000
  {
  }

  lemma RowWants(rows: seq<Row>, schema: SchemaSection, key: Key)
    requires RowsOk(rows) && WorldOk(RowWorld(rows)) && IsFlushSchema(RowWorld(rows), schema)
    requires forall i :: 0 <= i < |rows| ==> rows[i].name in schema.slots && schema.slots[rows[i].name] != ENTITY_SLOT
    ensures Wants(RowWorld(rows), schema, key) <==>
      || (key.arch < |rows| && key.page == 0 && (key.slot == schema.slots[rows[key.arch].name] || key.slot == ENTITY_SLOT))
      || key == Key(META_ARCH_ID, ALLOCATOR_SLOT, 0)
  {
    assert SchemaOk(schema);
    RowWritten(rows);
    hide WorldOk, Writes, WritesRows, WritesColumn, WritesArch, IsFlushSchema, Ascending;
    if Dense(key.arch) && key.slot != ENTITY_SLOT && schema.EntryFor(key.slot).Some? {
      RowWrites(rows, key.arch, schema.EntryFor(key.slot).value.name, key.page);
    }
    if key.arch < |rows| {
      NameAtSlot(schema, rows[key.arch].name);
    }
  }

  /** The file of a flush of the rows. */
  lemma RowFlush(rows: seq<Row>, lo: u64, hi: u64) returns (file: bytes, r: Reader)
    requires RowsOk(rows) && lo <= hi
    ensures WorldOk(RowWorld(rows)) && Opens(file, r) && |file| < TOO_LONG && IsFlush(RowWorld(rows), r)
    ensures r.lo == lo && r.hi == hi && r.pageCount != 0
  {
    hide WorldOk, SmallWorld, IsFlushSchema, Wants, IsFlush, Opens, RowWorld, RowKeys, RowsOk, WritesColumn;
    RowWorldOk(rows);
    var schema := FlushSchemaExists(RowWorld(rows));
    RowSlots(rows, schema);
    RowKeysDiffer(rows, schema);
    forall key: Key ensures Wants(RowWorld(rows), schema, key) <==> key in RowKeys(rows, schema) {
      RowWants(rows, schema, key);
      RowKeysAre(rows, schema, key);
    }
    file, r := FlushOf(RowWorld(rows), schema, RowKeys(rows, schema), lo, hi, 0);
  }

  lemma RowSlots(rows: seq<Row>, schema: SchemaSection)
    requires RowsOk(rows) && WorldOk(RowWorld(rows)) && IsFlushSchema(RowWorld(rows), schema)
    ensures |rows| <= 0x10 && forall i :: 0 <= i < |rows| ==> rows[i].name in schema.slots && schema.slots[rows[i].name] != ENTITY_SLOT
  {
    RowWritten(rows);
    assert SchemaOk(schema);
    hide WorldOk, WritesRows, WritesColumn, WritesArch, RowWorld, SchemaOk;
    forall i | 0 <= i < |rows| ensures rows[i].name in schema.slots && schema.slots[rows[i].name] != ENTITY_SLOT {
      assert WritesColumn(RowWorld(rows), i, rows[i].name);
      NameAtSlot(schema, rows[i].name);
    }
  }

  // ── What is seen of it ─────────────────────────────────────────────────────

  lemma OneNameAscends(name: Name)
    ensures Ascending([name])
  {
  }

  lemma RowSig(rows: seq<Row>, r: Reader, a: u16)
    requires RowsOk(rows) && WorldOk(RowWorld(rows)) && IsFlush(RowWorld(rows), r)
    ensures a in ArchetypeIds(r) <==> a < |rows|
    ensures a < |rows| ==> SigOf(r, a) == Some([rows[a].name])
  {
    hide WorldOk, IsFlush, WritesColumn, WritesArch, WritesRows, RowWorld, Ascending, SigOf, ArchetypeIds;
    RowWritten(rows);
    FlushArchetypes(RowWorld(rows), r, a);
    if a < |rows| {
      OneNameAscends(rows[a].name);
      SignatureAt(RowWorld(rows), r, a, [rows[a].name]);
    }
  }

  lemma RowIsRow(rows: seq<Row>, r: Reader, a: u16, row: nat, e: u64)
    requires RowsOk(rows) && WorldOk(RowWorld(rows)) && IsFlush(RowWorld(rows), r)
    ensures IsRow(r, a, row, e) <==> a < |rows| && row == 0 && e == rows[a].entity
  {
    hide WorldOk, IsFlush, WritesColumn, WritesArch, WritesRows, RowWorld, IsRow, IsEntity;
    RowWritten(rows);
    FlushRow(RowWorld(rows), r, a, row, e);
    RowEntity(rows, a, row, e);
  }

  lemma RowCell(rows: seq<Row>, r: Reader, a: u16)
    requires RowsOk(rows) && WorldOk(RowWorld(rows)) && IsFlush(RowWorld(rows), r) && a < |rows|
    ensures ColumnCell(r, a, rows[a].name, 0) == Some([rows[a].value])
  {
    RowIsRow(rows, r, a, 0, rows[a].entity);
    RowWrites(rows, a, rows[a].name, 0);
    hide WorldOk, IsFlush, Writes, IsRow, ColumnCell;
    FlushCell(RowWorld(rows), r, a, rows[a].name, 0, rows[a].entity);
  }

  lemma RowImageIs(rows: seq<Row>, r: Reader, i: nat)
    requires RowsOk(rows) && WorldOk(RowWorld(rows)) && IsFlush(RowWorld(rows), r) && i < |rows|
    ensures ImageIn(r, rows[i].entity, RowImg(rows[i]))
  {
    hide WorldOk, IsFlush, IsRow, ColumnCell, SigOf, ArchetypeIds, RowWorld;
    RowIsRow(rows, r, i, 0, rows[i].entity);
    RowSig(rows, r, i);
    RowCell(rows, r, i);
    assert RowImage(r, i, 0, RowImg(rows[i]));
  }

  /** A flush of rows is seen as the rows. */
  lemma RowSeen(rows: seq<Row>, r: Reader)
    requires RowsOk(rows) && WorldOk(RowWorld(rows)) && IsFlush(RowWorld(rows), r)
    ensures RunWf(r) && Seen(r) == RowRunOf(rows, r.lo, r.hi)
  {
    hide WorldOk, IsFlush, RunWf, IsRow, RowWorld, Populated, ImageIn, View, Seen, HasEntity;
    FlushIsWellFormed(RowWorld(rows), r);
    ViewIs(rows);
    forall e: u64 ensures e in Seen(r).view <==> e in View(rows) {
      SeenImages(r, e, RowImg(rows[0]));
      RowHas(rows, r, e);
    }
    forall e | e in View(rows) ensures e in Seen(r).view && Seen(r).view[e] == View(rows)[e] {
      var i :| 0 <= i < |rows| && rows[i].entity == e;
      RowImageIs(rows, r, i);
      SeenImages(r, e, RowImg(rows[i]));
    }
    SeenHi(r);
    assert Seen(r).view == View(rows);
  }

  lemma RowHas(rows: seq<Row>, r: Reader, e: u64)
    requires RowsOk(rows) && WorldOk(RowWorld(rows)) && IsFlush(RowWorld(rows), r)
    ensures HasEntity(r, e) <==> exists i :: 0 <= i < |rows| && rows[i].entity == e
  {
    hide WorldOk, IsFlush, IsRow, RowWorld;
    if HasEntity(r, e) {
      var a: u16, row: nat :| IsRow(r, a, row, e);
      RowIsRow(rows, r, a, row, e);
    }
    if i :| 0 <= i < |rows| && rows[i].entity == e {
      RowIsRow(rows, r, i, 0, e);
    }
  }

  lemma LettersOk()
    ensures UniverseOk(LETTER_UNIVERSE) && |LETTER_SIGS| <= 5 && |LETTER_UNIVERSE.layouts.Keys| <= 5
  {
    assert LETTER_UNIVERSE.layouts.Keys == {[65], [66], [67], [68], [69]};
  }

  lemma LetterSig(name: Name)
    requires name in LETTERS
    ensures [name] in LETTER_SIGS
  {
  }

  /** A flush of rows is a run of the universe of letters, complete, small, with rows in
      every archetype and no signature twice. */
  lemma RowRun(rows: seq<Row>, r: Reader)
    requires RowsOk(rows) && WorldOk(RowWorld(rows)) && IsFlush(RowWorld(rows), r)
    ensures RunIn(LETTER_UNIVERSE, r) && Plain(r) && Complete(r) && C.Modest(r)
  {
    hide WorldOk, SmallWorld, IsFlush, RunWf, Populated, DistinctSigs, Complete, C.Modest, Even, Apart, EntryNamed, SigOf,
      ArchetypeIds, Archs;
    RowWorldOk(rows);
    RowsEven(rows);
    FlushIsWellFormed(RowWorld(rows), r);
    FlushCompleteIff(RowWorld(rows), r);
    FlushDistinctIff(RowWorld(rows), r);
    FlushIsModest(RowWorld(rows), r);
    forall name {:trigger EntryNamed(r.schema, name)} | EntryNamed(r.schema, name).Some?
      ensures name in LETTER_UNIVERSE.layouts
      ensures LETTER_UNIVERSE.layouts[name] == Layout(EntryNamed(r.schema, name).value.kind, EntryNamed(r.schema, name).value.itemSize)
    {
      FlushLayout(RowWorld(rows), r, name);
    }
    forall a | a in ArchetypeIds(r) ensures SigOf(r, a).Some? && SigOf(r, a).value in LETTER_SIGS {
      RowSig(rows, r, a);
      LetterSig(rows[a].name);
    }
  }

  // ── Histories of such flushes ──────────────────────────────────────────────

  /** A store at rest that shows this history, with runs that can be compacted. */
  ghost predicate Holding(n: nat, dir: Path, p: Point, sys: H.Sys) {
    Now(LETTER_UNIVERSE, n, dir, p, sys) && SturdyRuns(p.state.disk, p.state.mem)
  }

  lemma EmptyStore(n: nat, dir: Path) returns (p: Point)
    requires 0 < n <= MAX_LEVELS
    ensures Holding(n, dir, p, H.EmptySys(n))
  {
    hide Now, UniverseOk, Tracked;
    LettersOk();
    var q, sys := AtStart(LETTER_UNIVERSE, n, dir);
    p := q;
    forall r ensures r !in Tracked(EmptyState(n)) {
      TrackedAt(EmptyState(n), r);
    }
  }

  /** The run that a flush of rows is seen as. */
  function RowRunOf(rows: seq<Row>, lo: u64, hi: u64): H.Run { H.Run(lo, hi, View(rows)) }

  lemma FlushedAre(u: Universe, n: nat, dir: Path, p: Point, sys: H.Sys)
    requires Now(u, n, dir, p, sys)
    ensures sys.flushed == p.flushed
  {
    hide Now, Reached, Kept, UniverseOk, Shown, H.Reach, NamesFit, DiskIn, Inv;
    NowParts(u, n, dir, p, sys);
  }

  lemma FlushStays(a: Disk, m: ManifestState, b: Disk, m': ManifestState, path: Path, file: bytes, r: Reader)
    requires SturdyRuns(a, m) && b == a[path := file] && Opens(file, r) && Sturdy(r)
    requires Tracked(m') == Tracked(m) + {path} && forall p :: p in Tracked(m) ==> p in a
    ensures SturdyRuns(b, m')
  {
    hide Tracked, Sturdy, Opens, SturdyRuns;
    SturdyStay(a, m, b, m', path, r);
  }

  lemma TrackedOnDisk(u: Universe, n: nat, dir: Path, p: Point, sys: H.Sys)
    requires Now(u, n, dir, p, sys)
    ensures forall q :: q in Tracked(p.state.mem) ==> q in p.state.disk
  {
    hide Now, Reached, Kept, UniverseOk, Shown, H.Reach, NamesFit, DiskIn, Inv, Tracked, Shows;
    NowParts(u, n, dir, p, sys);
    ShowsParts(n, dir, p.state.disk, p.state.mem, p.flushed, sys);
  }

  /** The rows flushed next, in a range newer than all before. */
  lemma FlushRows(n: nat, dir: Path, p: Point, sys: H.Sys, rows: seq<Row>, lo: u64, hi: u64) returns (p': Point)
    requires Holding(n, dir, p, sys) && ShortDir(dir) && RowsOk(rows) && InSequence(sys.flushed, RowRunOf(rows, lo, hi))
    ensures Holding(n, dir, p', AfterFlush(sys, RowRunOf(rows, lo, hi))) && LeadsTo(LETTER_UNIVERSE, n, dir, p, p')
  {
    hide Now, RowsOk, View, AfterFlush, SturdyRuns, LeadsTo, ShortDir, WorldOk, IsFlush, Opens, RunWf, RunIn, Plain, Complete,
      Tracked, RowWorld, Seen;
    assert lo <= hi;
    var file, r := RowFlush(rows, lo, hi);
    RowSeen(rows, r);
    RowRun(rows, r);
    FlushedAre(LETTER_UNIVERSE, n, dir, p, sys);
    TrackedOnDisk(LETTER_UNIVERSE, n, dir, p, sys);
    p' := FlushHappens(LETTER_UNIVERSE, n, dir, p, sys, file, r);
    FlushStays(p.state.disk, p.state.mem, p'.state.disk, p'.state.mem, FlushPath(dir, r.lo, r.hi), file, r);
  }

  /** The compaction that is due. */
  lemma CompactRows(n: nat, dir: Path, p: Point, sys: H.Sys, l: nat, sig: Signature, x: H.Run) returns (p': Point)
    requires Holding(n, dir, p, sys) && ShortDir(dir) && Due(sys, l, sig)
    requires H.Merged(H.SetOf(H.Having(LevelOf(sys.levels, l), sig)), x) && RangeFree(sys, x.lo, x.hi)
    ensures Holding(n, dir, p', AfterCompaction(sys, l, sig, x)) && LeadsTo(LETTER_UNIVERSE, n, dir, p, p')
    ensures HasOutput(dir, p'.state.mem, x.lo, x.hi)
  {
    hide Now, AfterCompaction, SturdyRuns, LeadsTo, ShortDir, Due, NextDue, H.Merged, RangeFree, HasOutput, UniverseOk, Shown;
    LettersOk();
    DueNow(LETTER_UNIVERSE, n, dir, p, sys, l, sig);
    p' := CompactHappens(LETTER_UNIVERSE, n, dir, p, sys, l, sig, x);
  }

  /** What lookups see of such a store. */
  lemma SeenIs(n: nat, dir: Path, p: Point, sys: H.Sys)
    requires Holding(n, dir, p, sys)
    ensures SeenRuns(p.state.disk, p.state.mem) == H.All(sys.levels) && p.flushed == sys.flushed
    ensures Reached(LETTER_UNIVERSE, n, dir, p) && p.state.phase.Idle?
  {
    hide Now, Reached, Kept, UniverseOk, Shown, H.Reach, NamesFit, DiskIn, Inv, Tracked, Shows, SturdyRuns, H.All, SeenRuns;
    NowParts(LETTER_UNIVERSE, n, dir, p, sys);
    ShowsParts(n, dir, p.state.disk, p.state.mem, p.flushed, sys);
    SeenRunsAre(p.state.disk, p.state.mem, sys);
  }

  lemma ViewOne(a: Row)
    ensures View([a]) == map[a.entity := RowImg(a)]
  {
    assert [a][..0] == [];
  }

  lemma ViewTwo(a: Row, b: Row)
    ensures View([a, b]) == map[a.entity := RowImg(a), b.entity := RowImg(b)]
  {
    assert [a, b][..1] == [a];
    ViewOne(a);
  }

  /** A signature that only these positions have does not trigger. */
  lemma FewHave(runs: seq<H.Run>, sig: Signature, few: set<nat>)
    requires |few| < H.TRIGGER && forall i: nat :: i < |runs| && sig in H.SigsOf(runs[i]) ==> i in few
    ensures |H.Having(runs, sig)| < H.TRIGGER
  {
    hide H.SigsOf, H.Having;
    H.HavingSize(runs, sig);
    SubsetSize(H.PositionsOf(runs, sig), few);
  }
}
