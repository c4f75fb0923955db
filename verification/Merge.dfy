/** The merge kernel: for every entity, the newest image among all inputs and
    signatures. */
module Merge {
  import opened Bytes
  import opened Order
  import opened Schema
  import opened RunFormat
  import opened RunReader

  datatype EmitRow = EmitRow(entity: u64, input: nat, row: nat)

  /** For each signature, for each input, the archetype that has it. */
  type ArchTable = seq<seq<Option<u16>>>

  /** Where a row was found: input, signature, row of the archetype. */
  datatype Place = Place(input: nat, sig: nat, row: nat)

  predicate Before(a: Place, b: Place) {
    a.input < b.input || (a.input == b.input && (a.sig < b.sig || (a.sig == b.sig && a.row < b.row)))
  }

  // ── Rows of a run ──────────────────────────────────────────────────────────

  /** Row `row` of an archetype is in the run: its entity page is, and is long enough. */
  predicate Live(r: Reader, arch: u16, row: nat) {
    row / PAGE_SIZE < 0x1_0000 &&
    var l := PageOf(r, Key(arch, ENTITY_SLOT, row / PAGE_SIZE));
    l.Found? && row % PAGE_SIZE < l.page.header.rowCount
  }

  function EntityIn(data: bytes, k: nat): u64 { Read64(data, k * 8).GetOr(0) }

  function EntityAt(r: Reader, arch: u16, row: nat): u64
    requires Live(r, arch, row)
  {
    EntityIn(PageOf(r, Key(arch, ENTITY_SLOT, row / PAGE_SIZE)).page.data, row % PAGE_SIZE)
  }

  /** Entity `e` has an image at `p`. */
  predicate Occurs(inputs: seq<Reader>, table: ArchTable, e: u64, p: Place) {
    && p.input < |inputs| && p.sig < |table| && p.input < |table[p.sig]|
    && table[p.sig][p.input].Some?
    && Live(inputs[p.input], table[p.sig][p.input].value, p.row)
    && EntityAt(inputs[p.input], table[p.sig][p.input].value, p.row) == e
  }

  /** No image of `e` comes before `p` in newest-first order. */
  ghost predicate Newest(inputs: seq<Reader>, table: ArchTable, e: u64, p: Place) {
    Occurs(inputs, table, e, p)
    && forall q {:trigger Occurs(inputs, table, e, q)} :: Occurs(inputs, table, e, q) ==> !Before(q, p)
  }

  predicate AscendingRows(rows: seq<EmitRow>) {
    forall k, l :: 0 <= k < l < |rows| ==> rows[k].entity < rows[l].entity
  }

  /** The reference meaning of the merge: each list ascends by entity id, holds only
      newest images, and every entity that occurs is in one of them. */
  ghost predicate IsMerge(inputs: seq<Reader>, table: ArchTable, lists: seq<seq<EmitRow>>) {
    && |lists| == |table|
    && (forall s, k :: 0 <= s < |lists| && 0 <= k < |lists[s]| ==>
      Newest(inputs, table, lists[s][k].entity, Place(lists[s][k].input, s, lists[s][k].row)))
    && (forall s :: 0 <= s < |lists| ==> AscendingRows(lists[s]))
    && (forall e, p {:trigger Occurs(inputs, table, e, p)} :: Occurs(inputs, table, e, p) ==> Emitted(lists, e))
  }

  ghost predicate Emitted(lists: seq<seq<EmitRow>>, e: u64) {
    exists s, k :: 0 <= s < |lists| && 0 <= k < |lists[s]| && lists[s][k].entity == e
  }

  /** Every entity is emitted at most once, over all lists. */
  lemma EmittedOnce(inputs: seq<Reader>, table: ArchTable, lists: seq<seq<EmitRow>>, s: nat, k: nat, t: nat, l: nat)
    requires IsMerge(inputs, table, lists)
    requires s < |lists| && k < |lists[s]| && t < |lists| && l < |lists[t]|
    requires lists[s][k].entity == lists[t][l].entity
    ensures s == t && k == l
  {
    hide Occurs;
    var e := lists[s][k].entity;
    var p, q := Place(lists[s][k].input, s, lists[s][k].row), Place(lists[t][l].input, t, lists[t][l].row);
    assert Newest(inputs, table, e, p) && Newest(inputs, table, e, q);
    assert Occurs(inputs, table, e, p) && Occurs(inputs, table, e, q);
    assert !Before(p, q) && !Before(q, p);
  }

  /** What is emitted comes first: from the newest input that has the entity, in it under the
      first signature, and there from the first row. */
  lemma EmittedIsFirst(inputs: seq<Reader>, table: ArchTable, lists: seq<seq<EmitRow>>, s: nat, k: nat, q: Place)
    requires IsMerge(inputs, table, lists) && s < |lists| && k < |lists[s]| && Occurs(inputs, table, lists[s][k].entity, q)
    ensures lists[s][k].input <= q.input
    ensures lists[s][k].input == q.input ==> s <= q.sig
    ensures lists[s][k].input == q.input && s == q.sig ==> lists[s][k].row <= q.row
  {
    hide Occurs;
    assert Newest(inputs, table, lists[s][k].entity, Place(lists[s][k].input, s, lists[s][k].row));
  }

  // ── There is one merge ─────────────────────────────────────────────────────

  lemma OneNewest(inputs: seq<Reader>, table: ArchTable, e: u64, p: Place, q: Place)
    requires Newest(inputs, table, e, p) && Newest(inputs, table, e, q)
    ensures p == q
  {
    hide Occurs;
    assert !Before(p, q) && !Before(q, p);
  }

  /** What one merge emits, every merge emits. */
  lemma EmittedByBoth(inputs: seq<Reader>, table: ArchTable, a: seq<seq<EmitRow>>, b: seq<seq<EmitRow>>, s: nat,
                      m: EmitRow)
    requires IsMerge(inputs, table, a) && IsMerge(inputs, table, b) && s < |a| && m in a[s]
    ensures s < |b| && m in b[s]
  {
    hide Occurs, AscendingRows;
    var k :| 0 <= k < |a[s]| && a[s][k] == m;
    assert Newest(inputs, table, m.entity, Place(m.input, s, m.row));
    assert Emitted(b, m.entity);
    var t, l :| 0 <= t < |b| && 0 <= l < |b[t]| && b[t][l].entity == m.entity;
    OneNewest(inputs, table, m.entity, Place(m.input, s, m.row), Place(b[t][l].input, t, b[t][l].row));
  }

  lemma {:induction false} AscendingRowsUnique(a: seq<EmitRow>, b: seq<EmitRow>)
    requires AscendingRows(a) && AscendingRows(b) && forall m :: m in a <==> m in b
    ensures a == b
  {
    if |a| == 0 || |b| == 0 {
      HeadIn(a);
      HeadIn(b);
    } else {
      assert a[0] in b && b[0] in a;
      forall m ensures m in a[1..] <==> m in b[1..] {
        RowsTail(a, m);
        RowsTail(b, m);
      }
      AscendingRowsUnique(a[1..], b[1..]);
      assert a == [a[0]] + a[1..] && b == [b[0]] + b[1..];
    }
  }

  lemma HeadIn(a: seq<EmitRow>)
    ensures |a| > 0 ==> exists m :: m in a
  {
    if |a| > 0 { assert a[0] in a; }
  }

  lemma RowsTail(a: seq<EmitRow>, m: EmitRow)
    requires |a| > 0 && AscendingRows(a)
    ensures m in a[1..] <==> m in a && m != a[0]
  {
    if m in a && m != a[0] {
      var i :| 0 <= i < |a| && a[i] == m;
      assert a[1..][i - 1] == m;
    }
  }

  /** Inputs and table determine the emit lists. */
  lemma MergeUnique(inputs: seq<Reader>, table: ArchTable, a: seq<seq<EmitRow>>, b: seq<seq<EmitRow>>)
    requires IsMerge(inputs, table, a) && IsMerge(inputs, table, b)
    ensures a == b
  {
    hide Newest, Emitted, Occurs, AscendingRows;
    forall s | 0 <= s < |a| ensures a[s] == b[s] {
      forall m ensures m in a[s] <==> m in b[s] {
        if m in a[s] { EmittedByBoth(inputs, table, a, b, s, m); }
        if m in b[s] { EmittedByBoth(inputs, table, b, a, s, m); }
      }
      AscendingRowsUnique(a[s], b[s]);
    }
  }

  lemma {:induction false} NewestExists(inputs: seq<Reader>, table: ArchTable, e: u64, p: Place) returns (q: Place)
    requires Occurs(inputs, table, e, p)
    ensures Newest(inputs, table, e, q)
    decreases p.input, p.sig, p.row
  {
    hide Occurs;
    if better :| Occurs(inputs, table, e, better) && Before(better, p) {
      q := NewestExists(inputs, table, e, better);
    } else {
      q := p;
    }
  }

  /** The newest rows of signature `s` of the entities below `n`, by entity. */
  ghost function NewestRows(inputs: seq<Reader>, table: ArchTable, s: nat, n: nat): seq<EmitRow>
    requires n <= 0x1_0000_0000_0000_0000
  {
    if n == 0 then []
    else
      var init := NewestRows(inputs, table, s, n - 1);
      if exists p :: Newest(inputs, table, n - 1, p) && p.sig == s then
        var p :| Newest(inputs, table, n - 1, p) && p.sig == s;
        init + [EmitRow(n - 1, p.input, p.row)]
      else init
  }

  lemma {:induction false} NewestRowsAre(inputs: seq<Reader>, table: ArchTable, s: nat, n: nat)
    requires n <= 0x1_0000_0000_0000_0000
    ensures
      var rows := NewestRows(inputs, table, s, n);
      && AscendingRows(rows)
      && (forall k :: 0 <= k < |rows| ==>
        rows[k].entity < n && Newest(inputs, table, rows[k].entity, Place(rows[k].input, s, rows[k].row)))
      && forall e: u64, p {:trigger Newest(inputs, table, e, p)} ::
        e < n && Newest(inputs, table, e, p) && p.sig == s ==> exists k :: 0 <= k < |rows| && rows[k].entity == e
  {
    hide Newest;
    if n != 0 {
      NewestRowsAre(inputs, table, s, n - 1);
      var init, rows := NewestRows(inputs, table, s, n - 1), NewestRows(inputs, table, s, n);
      forall e: u64, p {:trigger Newest(inputs, table, e, p)} | e < n && Newest(inputs, table, e, p) && p.sig == s
        ensures exists k :: 0 <= k < |rows| && rows[k].entity == e
      {
        if e < n - 1 {
          var k :| 0 <= k < |init| && init[k].entity == e;
          assert rows[k] == init[k];
        } else {
          assert rows[|init|].entity == e;
        }
      }
    }
  }

  /** Every table has a merge. */
  lemma MergeExists(inputs: seq<Reader>, table: ArchTable) returns (lists: seq<seq<EmitRow>>)
    ensures IsMerge(inputs, table, lists)
  {
    hide NewestRows, AscendingRows;
    lists := seq(|table|, s requires 0 <= s < |table| => NewestRows(inputs, table, s, 0x1_0000_0000_0000_0000));
    forall s | 0 <= s < |table| ensures AscendingRows(lists[s]) {
      NewestRowsAre(inputs, table, s, 0x1_0000_0000_0000_0000);
    }
    forall s, k | 0 <= s < |lists| && 0 <= k < |lists[s]|
      ensures Newest(inputs, table, lists[s][k].entity, Place(lists[s][k].input, s, lists[s][k].row))
    {
      NewestRowsAre(inputs, table, s, 0x1_0000_0000_0000_0000);
    }
    forall e, p {:trigger Occurs(inputs, table, e, p)} | Occurs(inputs, table, e, p) ensures Emitted(lists, e) {
      var q := NewestExists(inputs, table, e, p);
      assert Occurs(inputs, table, e, q);
      NewestRowsAre(inputs, table, q.sig, 0x1_0000_0000_0000_0000);
      var k :| 0 <= k < |lists[q.sig]| && lists[q.sig][k].entity == e;
    }
  }

  // ── What the merge is called with ──────────────────────────────────────────

  predicate TableShaped(inputs: seq<Reader>, table: ArchTable) {
    && |inputs| == (if |table| == 0 then 0 else |table[0]|)
    && forall s :: 0 <= s < |table| ==> |table[s]| == |inputs|
  }

  /** What the merge relies on without checking, as holds of every written run: sorted
      index, at most PAGE_SIZE rows in an entity page, no schema entry in its slot. */
  ghost predicate Mergeable(r: Reader) {
    && SortedIndex(r.index) && |r.schema.entries| <= ENTITY_SLOT
    && forall arch: u16, page: u16 {:trigger PageOf(r, Key(arch, ENTITY_SLOT, page))} ::
      var l := PageOf(r, Key(arch, ENTITY_SLOT, page)); l.Found? ==> l.page.header.rowCount <= PAGE_SIZE
  }

  /** Every entity page the merge visits is readable. */
  predicate Readable(inputs: seq<Reader>, table: ArchTable) {
    forall s, i :: 0 <= s < |table| && 0 <= i < |table[s]| && i < |inputs| && table[s][i].Some? ==>
      PagesOf(inputs[i], SlotEntries(inputs[i].index, table[s][i].value, ENTITY_SLOT)).Some?
  }

  // ── Pages of a slot ────────────────────────────────────────────────────────

  /** The scan of a slot as lookups: pages ascend, each is what lookup finds, and no
      page of the slot is missing or corrupt. */
  ghost predicate ScanOf(r: Reader, arch: u16, slot: u16, pages: seq<(u16, PageRef)>) {
    && (forall i, j :: 0 <= i < j < |pages| ==> pages[i].0 < pages[j].0)
    && (forall i :: 0 <= i < |pages| ==> PageOf(r, Key(arch, slot, pages[i].0)) == Found(pages[i].1))
    && (forall page: u16 {:trigger PageOf(r, Key(arch, slot, page))} ::
      PageOf(r, Key(arch, slot, page)).Absent? || exists i :: 0 <= i < |pages| && pages[i].0 == page)
  }

  lemma {:induction false} PagesOfAt(r: Reader, entries: seq<IndexEntry>, i: nat)
    requires PagesOf(r, entries).Some?
    ensures |PagesOf(r, entries).value| == |entries|
    ensures i < |entries| ==> PagesOf(r, entries).value[i].0 == entries[i].key.page
    ensures i < |entries| ==> PageRefAt(r, entries[i].offset, entries[i].key) == Some(PagesOf(r, entries).value[i].1)
  {
    hide PageRefAt;
    if |entries| != 0 {
      PagesOfAt(r, entries[..|entries| - 1], i);
    }
  }

  lemma PagesAreScan(r: Reader, arch: u16, slot: u16)
    requires SortedIndex(r.index)
    requires PagesOf(r, SlotEntries(r.index, arch, slot)).Some?
    ensures ScanOf(r, arch, slot, PagesOf(r, SlotEntries(r.index, arch, slot)).value)
  {
    hide PageRefAt, PagesOf, SlotEntries, FindEntry;
    var entries := SlotEntries(r.index, arch, slot);
    var pages := PagesOf(r, entries).value;
    PagesOfAt(r, entries, 0);
    SlotEntriesAre(r.index, arch, slot);
    SlotEntriesSorted(r.index, arch, slot);
    forall i | 0 <= i < |entries|
      ensures pages[i].0 == entries[i].key.page && entries[i].key == Key(arch, slot, pages[i].0)
      ensures PageOf(r, Key(arch, slot, pages[i].0)) == Found(pages[i].1)
    {
      PagesOfAt(r, entries, i);
      assert entries[i] in entries;
      var j :| 0 <= j < |r.index| && r.index[j] == entries[i];
      SortedPosition(r.index, j);
    }
    forall i, j | 0 <= i < j < |pages| ensures pages[i].0 < pages[j].0 {
      assert KeyLess(entries[i].key, entries[j].key);
      assert entries[i] in entries && entries[j] in entries;
    }
    forall page: u16 {:trigger PageOf(r, Key(arch, slot, page))}
      ensures PageOf(r, Key(arch, slot, page)).Absent? || exists i :: 0 <= i < |pages| && pages[i].0 == page
    {
      var f := FindEntry(r.index, Key(arch, slot, page));
      if f.Some? {
        assert r.index[f.value] in entries;
        var i :| 0 <= i < |entries| && entries[i] == r.index[f.value];
        assert pages[i].0 == page;
      }
    }
  }

  // ── The winner map ─────────────────────────────────────────────────────────

  type Winners = map<u64, Place>

  /** `w` holds the newest image of every entity that occurs before `limit`. */
  ghost predicate WonUpTo(inputs: seq<Reader>, table: ArchTable, w: Winners, limit: Place) {
    && (forall e :: e in w ==> Occurs(inputs, table, e, w[e]) && Before(w[e], limit))
    && (forall e, p {:trigger Occurs(inputs, table, e, p)} ::
      Occurs(inputs, table, e, p) && Before(p, limit) ==> e in w && !Before(p, w[e]))
  }

  function OrInsert(w: Winners, e: u64, p: Place): Winners {
    if e in w then w else w[e := p]
  }

  lemma WinRow(inputs: seq<Reader>, table: ArchTable, w: Winners, e: u64, p: Place)
    requires WonUpTo(inputs, table, w, p) && Occurs(inputs, table, e, p)
    ensures WonUpTo(inputs, table, OrInsert(w, e, p), p.(row := p.row + 1))
  {
    hide Occurs;
    var next := p.(row := p.row + 1);
    forall f, q | Occurs(inputs, table, f, q) && Before(q, next)
      ensures f in OrInsert(w, e, p) && !Before(q, OrInsert(w, e, p)[f])
    {
      if !Before(q, p) {
        OneEntityAt(inputs, table, e, f, q);
      }
    }
  }

  lemma OneEntityAt(inputs: seq<Reader>, table: ArchTable, e: u64, f: u64, p: Place)
    requires Occurs(inputs, table, e, p) && Occurs(inputs, table, f, p)
    ensures e == f
  {
  }

  /** Nothing occurs between two limits. */
  lemma WinSkip(inputs: seq<Reader>, table: ArchTable, w: Winners, from: Place, to: Place)
    requires WonUpTo(inputs, table, w, from)
    requires from == to || Before(from, to)
    requires forall e, p {:trigger Occurs(inputs, table, e, p)} ::
      Occurs(inputs, table, e, p) && Before(p, to) ==> Before(p, from)
    ensures WonUpTo(inputs, table, w, to)
  {
    hide Occurs;
  }

  /** A live row is on one of the scanned pages. */
  lemma RowOfScan(r: Reader, arch: u16, pages: seq<(u16, PageRef)>, row: nat) returns (j: nat)
    requires ScanOf(r, arch, ENTITY_SLOT, pages) && Live(r, arch, row)
    ensures j < |pages| && row < pages[j].0 * PAGE_SIZE + pages[j].1.header.rowCount
    ensures pages[j].0 * PAGE_SIZE <= row < pages[j].0 * PAGE_SIZE + PAGE_SIZE
  {
    hide EntityAt;
    var page: u16 := row / PAGE_SIZE;
    var l := PageOf(r, Key(arch, ENTITY_SLOT, page));
    j :| 0 <= j < |pages| && pages[j].0 == page;
    assert l == Found(pages[j].1);
  }

  /** Where the row count of the scanned pages up to `k` ends. */
  function RowsEnd(pages: seq<(u16, PageRef)>, k: nat): nat
    requires k <= |pages|
  {
    if k == 0 then 0 else pages[k - 1].0 * PAGE_SIZE + pages[k - 1].1.header.rowCount
  }

  lemma PagesBeforeRow(pages: seq<(u16, PageRef)>, k: nat, j: nat, row: nat)
    requires forall i, j :: 0 <= i < j < |pages| ==> pages[i].0 < pages[j].0
    requires j < |pages| && k <= |pages| && RowsEnd(pages, k) <= row < pages[j].0 * PAGE_SIZE + PAGE_SIZE
    requires pages[j].0 * PAGE_SIZE <= row < pages[j].0 * PAGE_SIZE + pages[j].1.header.rowCount
    ensures k < |pages| && pages[k].0 * PAGE_SIZE <= row
  {
    if k < j {
      assert pages[k].0 < pages[j].0;
    }
  }

  /** No row is live between the end of one scanned page and the start of the next. */
  lemma GapIsDead(r: Reader, arch: u16, pages: seq<(u16, PageRef)>, k: nat, row: nat)
    requires ScanOf(r, arch, ENTITY_SLOT, pages) && Live(r, arch, row)
    requires k <= |pages| && RowsEnd(pages, k) <= row
    ensures k < |pages| && pages[k].0 * PAGE_SIZE <= row
  {
    hide PageOf, Live, RowsEnd;
    var j := RowOfScan(r, arch, pages, row);
    PagesBeforeRow(pages, k, j, row);
  }

  // ── The merge ──────────────────────────────────────────────────────────────

  method VisitRows(inputs: seq<Reader>, table: ArchTable, w0: Winners, i: nat, s: nat, arch: u16, page: u16,
                   ref: PageRef)
    returns (w: Winners)
    requires i < |inputs| && s < |table| && i < |table[s]| && table[s][i] == Some(arch)
    requires Mergeable(inputs[i]) && PageOf(inputs[i], Key(arch, ENTITY_SLOT, page)) == Found(ref)
    requires WonUpTo(inputs, table, w0, Place(i, s, page * PAGE_SIZE))
    ensures WonUpTo(inputs, table, w, Place(i, s, page * PAGE_SIZE + ref.header.rowCount))
  {
    hide PageOf, WonUpTo, EntityIn;
    w := w0;
    var rowCount: nat := ref.header.rowCount;
    assert rowCount <= PAGE_SIZE;
    for k := 0 to rowCount
      invariant WonUpTo(inputs, table, w, Place(i, s, page * PAGE_SIZE + k))
    {
      var row := page * PAGE_SIZE + k;
      assert row / PAGE_SIZE == page && row % PAGE_SIZE == k;
      var e := EntityIn(ref.data, k);
      assert Occurs(inputs, table, e, Place(i, s, row));
      WinRow(inputs, table, w, e, Place(i, s, row));
      w := OrInsert(w, e, Place(i, s, row));
    }
  }

  method VisitArch(inputs: seq<Reader>, table: ArchTable, w0: Winners, i: nat, s: nat, arch: u16)
    returns (r: Option<Winners>)
    requires i < |inputs| && s < |table| && i < |table[s]| && table[s][i] == Some(arch)
    requires Mergeable(inputs[i])
    requires WonUpTo(inputs, table, w0, Place(i, s, 0))
    ensures r.Some? == PagesOf(inputs[i], SlotEntries(inputs[i].index, arch, ENTITY_SLOT)).Some?
    ensures r.Some? ==> WonUpTo(inputs, table, r.value, Place(i, s + 1, 0))
  {
    hide PageOf, PagesOf, SlotEntries, WonUpTo;
    var scan := SlotPages(inputs[i], arch, ENTITY_SLOT);
    if scan.None? {
      return None;
    }
    PagesAreScan(inputs[i], arch, ENTITY_SLOT);
    var pages := scan.value;
    var w := w0;
    for k := 0 to |pages|
      invariant WonUpTo(inputs, table, w, Place(i, s, RowsEnd(pages, k)))
    {
      SkipGap(inputs, table, w, i, s, arch, pages, k);
      w := VisitRows(inputs, table, w, i, s, arch, pages[k].0, pages[k].1);
    }
    SkipGap(inputs, table, w, i, s, arch, pages, |pages|);
    return Some(w);
  }

  /** From the end of a scanned page to the next one, or to the next signature. */
  lemma SkipGap(inputs: seq<Reader>, table: ArchTable, w: Winners, i: nat, s: nat, arch: u16,
                pages: seq<(u16, PageRef)>, k: nat)
    requires i < |inputs| && s < |table| && i < |table[s]| && table[s][i] == Some(arch)
    requires Mergeable(inputs[i]) && ScanOf(inputs[i], arch, ENTITY_SLOT, pages) && k <= |pages|
    requires WonUpTo(inputs, table, w, Place(i, s, RowsEnd(pages, k)))
    ensures WonUpTo(inputs, table, w, if k < |pages| then Place(i, s, pages[k].0 * PAGE_SIZE) else Place(i, s + 1, 0))
  {
    hide PageOf, WonUpTo, Live, EntityAt, ScanOf, Mergeable;
    var from := Place(i, s, RowsEnd(pages, k));
    var to := if k < |pages| then Place(i, s, pages[k].0 * PAGE_SIZE) else Place(i, s + 1, 0);
    if k < |pages| {
      PagesInOrder(inputs[i], arch, pages, k);
    }
    forall e, p {:trigger Occurs(inputs, table, e, p)} | Occurs(inputs, table, e, p) && Before(p, to)
      ensures Before(p, from)
    {
      if p.input == i && p.sig == s && RowsEnd(pages, k) <= p.row {
        GapIsDead(inputs[i], arch, pages, k, p.row);
      }
    }
    WinSkip(inputs, table, w, from, to);
  }

  lemma PagesInOrder(r: Reader, arch: u16, pages: seq<(u16, PageRef)>, k: nat)
    requires Mergeable(r) && ScanOf(r, arch, ENTITY_SLOT, pages) && k < |pages|
    ensures RowsEnd(pages, k) <= pages[k].0 * PAGE_SIZE
  {
    hide PageOf;
    if k > 0 {
      assert PageOf(r, Key(arch, ENTITY_SLOT, pages[k - 1].0)) == Found(pages[k - 1].1);
      assert pages[k - 1].0 < pages[k].0;
    }
  }

  /** The entity pages of an archetype can be read. */
  predicate ReadableAt(inputs: seq<Reader>, table: ArchTable, s: nat, i: nat) {
    s < |table| && i < |table[s]| && i < |inputs| && table[s][i].Some? ==>
      PagesOf(inputs[i], SlotEntries(inputs[i].index, table[s][i].value, ENTITY_SLOT)).Some?
  }

  ghost predicate ReadUpTo(inputs: seq<Reader>, table: ArchTable, i: nat, s: nat) {
    forall t: nat, j: nat {:trigger ReadableAt(inputs, table, t, j)} :: j < i || (j == i && t < s) ==> ReadableAt(inputs, table, t, j)
  }

  lemma AllRead(inputs: seq<Reader>, table: ArchTable)
    requires ReadUpTo(inputs, table, |inputs|, 0)
    ensures Readable(inputs, table)
  {
    hide PagesOf, SlotEntries;
    forall s: nat, i: nat | s < |table| && i < |table[s]| && i < |inputs| && table[s][i].Some?
      ensures PagesOf(inputs[i], SlotEntries(inputs[i].index, table[s][i].value, ENTITY_SLOT)).Some?
    {
      assert ReadableAt(inputs, table, s, i);
    }
  }

  lemma NotRead(inputs: seq<Reader>, table: ArchTable, s: nat, i: nat)
    requires !ReadableAt(inputs, table, s, i)
    ensures !Readable(inputs, table)
  {
    hide PagesOf, SlotEntries;
  }

  /** Past the last signature of an input nothing is left to read. */
  lemma ReadRow(inputs: seq<Reader>, table: ArchTable, i: nat)
    requires ReadUpTo(inputs, table, i, |table|)
    ensures ReadUpTo(inputs, table, i + 1, 0)
  {
    hide PagesOf, SlotEntries;
  }

  lemma ReadNothing(inputs: seq<Reader>, table: ArchTable)
    ensures ReadUpTo(inputs, table, 0, 0)
  {
  }

  lemma ReadOne(inputs: seq<Reader>, table: ArchTable, i: nat, s: nat)
    requires ReadUpTo(inputs, table, i, s) && ReadableAt(inputs, table, s, i)
    ensures ReadUpTo(inputs, table, i, s + 1)
  {
    hide ReadableAt;
  }

  method FindWinners(inputs: seq<Reader>, table: ArchTable) returns (r: Option<Winners>)
    requires TableShaped(inputs, table)
    requires forall i :: 0 <= i < |inputs| ==> Mergeable(inputs[i])
    ensures r.Some? == Readable(inputs, table)
    ensures r.Some? ==> WonUpTo(inputs, table, r.value, Place(|inputs|, 0, 0))
  {
    var w: Winners := map[];
    WonNothing(inputs, table);
    ReadNothing(inputs, table);
    hide PagesOf, SlotEntries, Mergeable, WonUpTo, ReadUpTo, Readable;
    for i := 0 to |inputs|
      invariant WonUpTo(inputs, table, w, Place(i, 0, 0)) && ReadUpTo(inputs, table, i, 0)
    {
      for s := 0 to |table|
        invariant WonUpTo(inputs, table, w, Place(i, s, 0)) && ReadUpTo(inputs, table, i, s)
      {
        if table[s][i].None? {
          NoArch(inputs, table, w, i, s);
        } else {
          var v := VisitArch(inputs, table, w, i, s, table[s][i].value);
          if v.None? {
            NotRead(inputs, table, s, i);
            return None;
          }
          w := v.value;
        }
        ReadOne(inputs, table, i, s);
      }
      NextInput(inputs, table, w, i);
      ReadRow(inputs, table, i);
    }
    AllRead(inputs, table);
    return Some(w);
  }

  lemma WonNothing(inputs: seq<Reader>, table: ArchTable)
    ensures WonUpTo(inputs, table, map[], Place(0, 0, 0))
  {
    hide Occurs;
  }

  lemma NoArch(inputs: seq<Reader>, table: ArchTable, w: Winners, i: nat, s: nat)
    requires s < |table| && i < |table[s]| && table[s][i].None? && WonUpTo(inputs, table, w, Place(i, s, 0))
    ensures WonUpTo(inputs, table, w, Place(i, s + 1, 0))
  {
    hide Live, EntityAt;
    WinSkip(inputs, table, w, Place(i, s, 0), Place(i, s + 1, 0));
  }

  lemma NextInput(inputs: seq<Reader>, table: ArchTable, w: Winners, i: nat)
    requires WonUpTo(inputs, table, w, Place(i, |table|, 0))
    ensures WonUpTo(inputs, table, w, Place(i + 1, 0, 0))
  {
    hide Live, EntityAt;
    WinSkip(inputs, table, w, Place(i, |table|, 0), Place(i + 1, 0, 0));
  }

  predicate RowLe(a: EmitRow, b: EmitRow) { a.entity <= b.entity }

  /** What the emit lists hold once the winners of `done` are distributed. */
  ghost predicate Distributed(w: Winners, done: set<u64>, n: nat, lists: seq<seq<EmitRow>>) {
    && |lists| == n
    && (forall s, k :: 0 <= s < n && 0 <= k < |lists[s]| ==>
      lists[s][k].entity in done && lists[s][k].entity in w
      && w[lists[s][k].entity] == Place(lists[s][k].input, s, lists[s][k].row))
    && (forall s, k, l :: 0 <= s < n && 0 <= k < l < |lists[s]| ==> lists[s][k].entity != lists[s][l].entity)
    && (forall e :: e in done ==> Emitted(lists, e))
  }

  lemma DistributeOne(w: Winners, done: set<u64>, n: nat, lists: seq<seq<EmitRow>>, e: u64)
    requires Distributed(w, done, n, lists) && e in w && e !in done && w[e].sig < n
    ensures
      var p := w[e];
      Distributed(w, done + {e}, n, lists[p.sig := lists[p.sig] + [EmitRow(e, p.input, p.row)]])
  {
    var p := w[e];
    var more := lists[p.sig := lists[p.sig] + [EmitRow(e, p.input, p.row)]];
    forall f | f in done + {e} ensures Emitted(more, f) {
      if f == e {
        assert more[p.sig][|lists[p.sig]|].entity == e;
      } else {
        var s, k :| 0 <= s < |lists| && 0 <= k < |lists[s]| && lists[s][k].entity == f;
        assert more[s][k].entity == f;
      }
    }
  }

  /** Distributes the winners over the signatures; the map is walked in any order. */
  method Distribute(w: Winners, n: nat) returns (lists: seq<seq<EmitRow>>)
    requires forall e :: e in w ==> w[e].sig < n
    ensures Distributed(w, w.Keys, n, lists)
  {
    lists := seq(n, _ => []);
    var todo := w.Keys;
    ghost var done: set<u64> := {};
    while todo != {}
      invariant done + todo == w.Keys && done !! todo
      invariant Distributed(w, done, n, lists)
      decreases todo
    {
      var e: u64 :| e in todo;
      DistributeOne(w, done, n, lists, e);
      var p := w[e];
      lists := lists[p.sig := lists[p.sig] + [EmitRow(e, p.input, p.row)]];
      todo := todo - {e};
      done := done + {e};
    }
    assert done == w.Keys;
  }

  lemma SortRows(rows: seq<EmitRow>)
    requires forall k, l :: 0 <= k < l < |rows| ==> rows[k].entity != rows[l].entity
    ensures
      var sorted := Sort(RowLe, rows);
      && (forall r :: r in sorted <==> r in rows)
      && AscendingRows(sorted)
  {
    hide Sort;
    SortStrict(RowLe, rows);
  }

  method SortLists(lists: seq<seq<EmitRow>>) returns (sorted: seq<seq<EmitRow>>)
    ensures |sorted| == |lists| && forall s :: 0 <= s < |lists| ==> sorted[s] == Sort(RowLe, lists[s])
  {
    sorted := lists;
    for s := 0 to |lists|
      invariant |sorted| == |lists|
      invariant forall t :: 0 <= t < s ==> sorted[t] == Sort(RowLe, lists[t])
      invariant forall t :: s <= t < |lists| ==> sorted[t] == lists[t]
    {
      sorted := sorted[s := Sort(RowLe, sorted[s])];
    }
  }

  /** Sorted winner lists are the merge. */
  lemma WinnersAreMerge(inputs: seq<Reader>, table: ArchTable, w: Winners, lists: seq<seq<EmitRow>>,
                        sorted: seq<seq<EmitRow>>)
    requires WonUpTo(inputs, table, w, Place(|inputs|, 0, 0)) && Distributed(w, w.Keys, |table|, lists)
    requires |sorted| == |lists| && forall s :: 0 <= s < |lists| ==> sorted[s] == Sort(RowLe, lists[s])
    ensures IsMerge(inputs, table, sorted)
  {
    SortedIsDistributed(w, |table|, lists, sorted);
    hide Sort, Distributed, Occurs, Emitted;
    forall s, k | 0 <= s < |sorted| && 0 <= k < |sorted[s]|
      ensures Newest(inputs, table, sorted[s][k].entity, Place(sorted[s][k].input, s, sorted[s][k].row))
    {
      WinnerIsNewest(inputs, table, w, sorted[s][k].entity);
    }
    forall e, p {:trigger Occurs(inputs, table, e, p)} | Occurs(inputs, table, e, p) ensures Emitted(sorted, e) {
      OccurrenceInRange(inputs, table, e, p);
    }
  }

  lemma OccurrenceInRange(inputs: seq<Reader>, table: ArchTable, e: u64, p: Place)
    requires Occurs(inputs, table, e, p)
    ensures Before(p, Place(|inputs|, 0, 0))
  {
  }

  lemma SortedIsDistributed(w: Winners, n: nat, lists: seq<seq<EmitRow>>, sorted: seq<seq<EmitRow>>)
    requires Distributed(w, w.Keys, n, lists)
    requires |sorted| == |lists| && forall s :: 0 <= s < |lists| ==> sorted[s] == Sort(RowLe, lists[s])
    ensures |sorted| == n
    ensures forall s, k :: 0 <= s < n && 0 <= k < |sorted[s]| ==>
      sorted[s][k].entity in w && w[sorted[s][k].entity] == Place(sorted[s][k].input, s, sorted[s][k].row)
    ensures forall s :: 0 <= s < n ==> AscendingRows(sorted[s])
    ensures forall e :: e in w ==> Emitted(sorted, e)
  {
    hide Sort, Emitted, AscendingRows;
    forall s | 0 <= s < n
      ensures forall r :: r in sorted[s] <==> r in lists[s]
      ensures AscendingRows(sorted[s])
    {
      SortRows(lists[s]);
    }
    forall s, k | 0 <= s < n && 0 <= k < |sorted[s]|
      ensures sorted[s][k].entity in w && w[sorted[s][k].entity] == Place(sorted[s][k].input, s, sorted[s][k].row)
    {
      assert sorted[s][k] in lists[s];
      var l :| 0 <= l < |lists[s]| && lists[s][l] == sorted[s][k];
    }
    forall e | e in w ensures Emitted(sorted, e) {
      assert e in w.Keys;
      SameEmitted(lists, sorted, e);
    }
  }

  lemma SameEmitted(lists: seq<seq<EmitRow>>, sorted: seq<seq<EmitRow>>, e: u64)
    requires |sorted| == |lists| && forall s :: 0 <= s < |lists| ==> forall r :: r in sorted[s] <==> r in lists[s]
    requires Emitted(lists, e)
    ensures Emitted(sorted, e)
  {
    var s, k :| 0 <= s < |lists| && 0 <= k < |lists[s]| && lists[s][k].entity == e;
    assert lists[s][k] in sorted[s];
    var l :| 0 <= l < |sorted[s]| && sorted[s][l] == lists[s][k];
    assert sorted[s][l].entity == e;
  }

  lemma WinnerIsNewest(inputs: seq<Reader>, table: ArchTable, w: Winners, e: u64)
    requires WonUpTo(inputs, table, w, Place(|inputs|, 0, 0)) && e in w
    ensures Newest(inputs, table, e, w[e])
  {
    forall q {:trigger Occurs(inputs, table, e, q)} | Occurs(inputs, table, e, q) ensures !Before(q, w[e]) {
      OccurrenceInRange(inputs, table, e, q);
    }
  }

  /** merge_entity_images: one emit list per signature, or nothing when the arguments
      disagree in length or an entity page is corrupt. */
  method MergeEntityImages(inputs: seq<Reader>, table: ArchTable) returns (r: Option<seq<seq<EmitRow>>>)
    requires forall i :: 0 <= i < |inputs| ==> Mergeable(inputs[i])
    ensures r.Some? <==> TableShaped(inputs, table) && Readable(inputs, table)
    ensures r.Some? ==> IsMerge(inputs, table, r.value)
  {
    hide Mergeable, Readable, WonUpTo, IsMerge, Distributed;
    if |inputs| != (if |table| == 0 then 0 else |table[0]|) {
      return None;
    }
    for s := 0 to |table|
      invariant forall t :: 0 <= t < s ==> |table[t]| == |inputs|
    {
      if |table[s]| != |inputs| {
        return None;
      }
    }
    var w := FindWinners(inputs, table);
    if w.None? {
      return None;
    }
    WinnersInTable(inputs, table, w.value);
    var lists := Distribute(w.value, |table|);
    var sorted := SortLists(lists);
    DistributedLength(w.value, w.value.Keys, |table|, lists);
    WinnersAreMerge(inputs, table, w.value, lists, sorted);
    return Some(sorted);
  }

  lemma WinnersInTable(inputs: seq<Reader>, table: ArchTable, w: Winners)
    requires WonUpTo(inputs, table, w, Place(|inputs|, 0, 0))
    ensures forall e :: e in w ==> w[e].sig < |table|
  {
  }

  lemma DistributedLength(w: Winners, done: set<u64>, n: nat, lists: seq<seq<EmitRow>>)
    requires Distributed(w, done, n, lists)
    ensures |lists| == n
  {
  }
}
