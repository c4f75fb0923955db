/** Allocator and sparse pages, which compaction carries forward verbatim from the
    newest input. */
module Carry {
  import opened Bytes
  import opened Bits
  import opened Order
  import opened Schema
  import opened RunFormat
  import opened RunReader
  import opened Merge
  import opened CompactionPlan
  import opened CompactionWriter
  import opened RunAgreement

  /** max_by_key on hi: the last of the inputs with the greatest hi. */
  ghost predicate IsNewest(inputs: seq<Reader>, k: nat) {
    && k < |inputs|
    && (forall i :: 0 <= i < k ==> inputs[i].hi <= inputs[k].hi)
    && forall i :: k < i < |inputs| ==> inputs[i].hi < inputs[k].hi
  }

  lemma NewestUnique(inputs: seq<Reader>, a: nat, b: nat)
    requires IsNewest(inputs, a) && IsNewest(inputs, b)
    ensures a == b
  {
    var x, y := inputs[a].hi, inputs[b].hi;
  }

  method FindNewest(inputs: seq<Reader>) returns (k: nat)
    requires |inputs| > 0
    ensures IsNewest(inputs, k)
  {
    k := 0;
    for i := 1 to |inputs|
      invariant k < i && IsNewest(inputs[..i], k)
    {
      if inputs[k].hi <= inputs[i].hi {
        k := i;
      }
    }
    assert inputs[..|inputs|] == inputs;
  }

  function Verbatim(key: Key, data: bytes): OutPage
    requires |data| < 0x1_0000
  {
    OutPage(key, |data|, data, 0)
  }

  lemma CarriedLength(r: Reader, offset: u64, key: Key)
    requires key.slot == ALLOCATOR_SLOT || key.arch == SPARSE_ARCH_ID
    ensures
      var p := PageRefAt(r, offset, key);
      p.Some? ==> |p.value.data| == p.value.header.rowCount
  {
  }

  // ── Allocator pages ────────────────────────────────────────────────────────

  function AllocatorScan(r: Reader): Option<seq<(u16, PageRef)>> {
    PagesOf(r, SlotEntries(r.index, META_ARCH_ID, ALLOCATOR_SLOT))
  }

  /** The allocator pages of `r`, renumbered from 0 in their order. */
  ghost predicate AllocatorCarried(r: Reader, pages: seq<OutPage>) {
    var scan := AllocatorScan(r);
    && scan.Some? && |pages| == |scan.value| <= 0x1_0000
    && forall i :: 0 <= i < |pages| ==>
      var data := scan.value[i].1.data;
      |data| < 0x1_0000 && pages[i] == Verbatim(Key(META_ARCH_ID, ALLOCATOR_SLOT, i), data)
  }

  ghost predicate AllocatorUsable(r: Reader) {
    var scan := AllocatorScan(r);
    scan.Some? && |scan.value| <= 0x1_0000 && forall i :: 0 <= i < |scan.value| ==> ValidCrc(r, scan.value[i].1)
  }

  lemma AllocatorLength(r: Reader, i: nat)
    requires AllocatorScan(r).Some? && i < |AllocatorScan(r).value|
    ensures |AllocatorScan(r).value[i].1.data| < 0x1_0000
  {
    hide PageRefAt, SlotEntries, PagesOf;
    var entries := SlotEntries(r.index, META_ARCH_ID, ALLOCATOR_SLOT);
    PagesOfAt(r, entries, i);
    SlotEntriesAre(r.index, META_ARCH_ID, ALLOCATOR_SLOT);
    assert entries[i] in entries;
    CarriedLength(r, entries[i].offset, entries[i].key);
  }

  method CarryAllocator(r: Reader) returns (pages: Option<seq<OutPage>>)
    requires SortedIndex(r.index)
    ensures if pages.Some? then AllocatorCarried(r, pages.value) && AllocatorUsable(r) else !AllocatorUsable(r)
  {
    hide PagesOf, SlotEntries, ValidCrc;
    var scan := SlotPages(r, META_ARCH_ID, ALLOCATOR_SLOT);
    if scan.None? || |scan.value| > 0x1_0000 {
      return None;
    }
    var out: seq<OutPage> := [];
    for i := 0 to |scan.value|
      invariant |out| == i
      invariant forall j :: 0 <= j < i ==>
        var data := scan.value[j].1.data;
        |data| < 0x1_0000 && out[j] == Verbatim(Key(META_ARCH_ID, ALLOCATOR_SLOT, j), data) && ValidCrc(r, scan.value[j].1)
    {
      if !ValidCrc(r, scan.value[i].1) {
        return None;
      }
      AllocatorLength(r, i);
      out := out + [Verbatim(Key(META_ARCH_ID, ALLOCATOR_SLOT, i), scan.value[i].1.data)];
    }
    return Some(out);
  }

  // ── Sparse pages ───────────────────────────────────────────────────────────

  predicate SparseKey(key: Key) { key.arch == SPARSE_ARCH_ID && key.slot != ENTITY_SLOT }

  /** `page` is the sparse page of `r` under its key, verbatim. */
  predicate Carries(r: Reader, page: OutPage) {
    SparseKey(page.key) &&
    var l := PageOf(r, page.key);
    l.Found? && |l.page.data| < 0x1_0000 && page == Verbatim(page.key, l.page.data)
  }

  ghost predicate SparseUpTo(r: Reader, pages: seq<OutPage>, slot: nat, page: nat) {
    && (forall i :: 0 <= i < |pages| ==> Carries(r, pages[i]) && KeyBelow(pages[i].key, SPARSE_ARCH_ID, slot, page))
    && (forall key: Key {:trigger PageOf(r, key)} ::
      SparseKey(key) && KeyBelow(key, SPARSE_ARCH_ID, slot, page) && !PageOf(r, key).Absent? ==> HasPage(pages, key))
    && (forall i, j :: 0 <= i < j < |pages| ==> KeyLess(pages[i].key, pages[j].key))
  }

  /** All sparse pages of `r`, each under its own key, in key order. */
  ghost predicate SparseCarried(r: Reader, pages: seq<OutPage>) {
    SparseUpTo(r, pages, ENTITY_SLOT, 0)
  }

  ghost predicate SparseUsable(r: Reader) {
    forall key: Key {:trigger PageOf(r, key)} :: SparseKey(key) ==>
      var l := PageOf(r, key);
      !l.Corrupt? && (l.Found? ==> ValidCrc(r, l.page))
  }

  /** Every page carried passes its checksum. */
  ghost predicate PagesValid(r: Reader, pages: seq<OutPage>) {
    forall i :: 0 <= i < |pages| ==> PageOf(r, pages[i].key).Found? && ValidCrc(r, PageOf(r, pages[i].key).page)
  }

  lemma CarriedUsable(r: Reader, pages: seq<OutPage>)
    requires SparseCarried(r, pages) && PagesValid(r, pages)
    ensures SparseUsable(r)
  {
    hide PageOf, ValidCrc;
    forall key: Key {:trigger PageOf(r, key)} | SparseKey(key) && !PageOf(r, key).Absent?
      ensures PageOf(r, key).Found? && ValidCrc(r, PageOf(r, key).page)
    {
      assert KeyBelow(key, SPARSE_ARCH_ID, ENTITY_SLOT, 0);
      var i :| 0 <= i < |pages| && pages[i].key == key;
    }
  }

  lemma SparseNext(r: Reader, pages: seq<OutPage>, page: OutPage, slot: nat, from: nat)
    requires Carries(r, page) && page.key.slot == slot && from <= page.key.page
    requires SparseUpTo(r, pages, slot, from)
    requires forall key: Key {:trigger PageOf(r, key)} ::
      key.arch == SPARSE_ARCH_ID && key.slot == slot && from <= key.page < page.key.page ==> PageOf(r, key).Absent?
    ensures SparseUpTo(r, pages + [page], slot, page.key.page + 1)
  {
    hide PageOf;
    var more := pages + [page];
    forall key: Key {:trigger PageOf(r, key)} | SparseKey(key) && KeyBelow(key, SPARSE_ARCH_ID, slot, page.key.page + 1)
      && !PageOf(r, key).Absent?
      ensures HasPage(more, key)
    {
      if KeyBelow(key, SPARSE_ARCH_ID, slot, from) {
        var i :| 0 <= i < |pages| && pages[i].key == key;
        assert more[i].key == key;
      } else {
        assert more[|pages|].key == key;
      }
    }
  }

  lemma SparseSkip(r: Reader, pages: seq<OutPage>, slot: nat, from: nat, slot': nat, to: nat)
    requires SparseUpTo(r, pages, slot, from) && (slot < slot' || (slot == slot' && from <= to))
    requires forall key: Key {:trigger PageOf(r, key)} ::
      SparseKey(key) && KeyBelow(key, SPARSE_ARCH_ID, slot', to) && !KeyBelow(key, SPARSE_ARCH_ID, slot, from) ==>
        PageOf(r, key).Absent?
    ensures SparseUpTo(r, pages, slot', to)
  {
    hide PageOf, Carries;
  }

  /** Between two scanned pages of a slot there is no page. */
  lemma ScanGap(r: Reader, slot: u16, scan: seq<(u16, PageRef)>, k: nat, key: Key)
    requires ScanOf(r, SPARSE_ARCH_ID, slot, scan) && k <= |scan|
    requires key.arch == SPARSE_ARCH_ID && key.slot == slot && ScanEnd(scan, k) <= key.page
    requires k < |scan| ==> key.page < scan[k].0
    ensures PageOf(r, key).Absent?
  {
    hide PageOf;
    assert key == Key(SPARSE_ARCH_ID, slot, key.page);
    forall i | 0 <= i < |scan| ensures scan[i].0 != key.page {
      if i < k {
        assert scan[i].0 <= scan[k - 1].0;
      } else {
        assert scan[k].0 <= scan[i].0;
      }
    }
  }

  function ScanEnd(scan: seq<(u16, PageRef)>, k: nat): nat
    requires k <= |scan|
  {
    if k == 0 then 0 else var last: nat := scan[k - 1].0; last + 1
  }

  lemma SparseLength(r: Reader, key: Key)
    requires key.arch == SPARSE_ARCH_ID && PageOf(r, key).Found?
    ensures |PageOf(r, key).page.data| < 0x1_0000
  {
    hide PageRefAt;
    CarriedLength(r, r.index[FindEntry(r.index, key).value].offset, key);
  }

  method CarrySlot(r: Reader, slot: u16, pages: seq<OutPage>) returns (more: Option<seq<OutPage>>)
    requires SortedIndex(r.index) && slot != ENTITY_SLOT && SparseUpTo(r, pages, slot, 0) && PagesValid(r, pages)
    ensures if more.Some? then SparseUpTo(r, more.value, slot + 1, 0) && PagesValid(r, more.value) else !SparseUsable(r)
  {
    hide PagesOf, SlotEntries, PageOf, SparseUpTo, ValidCrc, ScanOf;
    var scan := SlotPages(r, SPARSE_ARCH_ID, slot);
    if scan.None? {
      UnreadableSlot(r, slot);
      return None;
    }
    PagesAreScan(r, SPARSE_ARCH_ID, slot);
    var out := pages;
    for k := 0 to |scan.value|
      invariant SparseUpTo(r, out, slot, ScanEnd(scan.value, k)) && PagesValid(r, out)
    {
      var key := Key(SPARSE_ARCH_ID, slot, scan.value[k].0);
      ScanFinds(r, slot, scan.value, k);
      if !ValidCrc(r, scan.value[k].1) {
        return None;
      }
      SparseLength(r, key);
      forall o: Key {:trigger PageOf(r, o)} |
        o.arch == SPARSE_ARCH_ID && o.slot == slot && ScanEnd(scan.value, k) <= o.page < key.page
        ensures PageOf(r, o).Absent?
      {
        ScanGap(r, slot, scan.value, k, o);
      }
      var page := Verbatim(key, scan.value[k].1.data);
      SparseNext(r, out, page, slot, ScanEnd(scan.value, k));
      out := out + [page];
    }
    forall key: Key {:trigger PageOf(r, key)} | SparseKey(key) && KeyBelow(key, SPARSE_ARCH_ID, slot + 1, 0)
      && !KeyBelow(key, SPARSE_ARCH_ID, slot, ScanEnd(scan.value, |scan.value|))
      ensures PageOf(r, key).Absent?
    {
      ScanGap(r, slot, scan.value, |scan.value|, key);
    }
    SparseSkip(r, out, slot, ScanEnd(scan.value, |scan.value|), slot + 1, 0);
    return Some(out);
  }

  lemma ScanFinds(r: Reader, slot: u16, scan: seq<(u16, PageRef)>, k: nat)
    requires ScanOf(r, SPARSE_ARCH_ID, slot, scan) && k < |scan|
    ensures PageOf(r, Key(SPARSE_ARCH_ID, slot, scan[k].0)) == Found(scan[k].1)
    ensures ScanEnd(scan, k) <= scan[k].0
  {
    hide PageOf;
  }

  lemma {:induction false} PagesOfNone(r: Reader, entries: seq<IndexEntry>) returns (e: IndexEntry)
    requires PagesOf(r, entries).None?
    ensures e in entries && PageRefAt(r, e.offset, e.key).None?
  {
    hide PageRefAt;
    var last := |entries| - 1;
    if PageRefAt(r, entries[last].offset, entries[last].key).None? {
      e := entries[last];
    } else {
      e := PagesOfNone(r, entries[..last]);
    }
  }

  lemma UnreadableSlot(r: Reader, slot: u16)
    requires SortedIndex(r.index) && slot != ENTITY_SLOT && PagesOf(r, SlotEntries(r.index, SPARSE_ARCH_ID, slot)).None?
    ensures !SparseUsable(r)
  {
    hide PageRefAt, PagesOf, SlotEntries, FindEntry, ValidCrc;
    var e := PagesOfNone(r, SlotEntries(r.index, SPARSE_ARCH_ID, slot));
    SlotEntriesAre(r.index, SPARSE_ARCH_ID, slot);
    var j :| 0 <= j < |r.index| && r.index[j] == e;
    SortedPosition(r.index, j);
    assert PageOf(r, e.key).Corrupt?;
  }

  function IdsEnd(ids: seq<u16>, k: nat): nat
    requires k <= |ids|
  {
    if k == 0 then 0 else var last: nat := ids[k - 1]; last + 1
  }

  /** A sparse slot that the run's slot list skips holds no page. */
  lemma NoSuchSlot(r: Reader, k: nat, key: Key)
    requires k <= |ComponentSlots(r, SPARSE_ARCH_ID)| && SparseKey(key)
    requires IdsEnd(ComponentSlots(r, SPARSE_ARCH_ID), k) <= key.slot
    requires k < |ComponentSlots(r, SPARSE_ARCH_ID)| ==> key.slot < ComponentSlots(r, SPARSE_ARCH_ID)[k]
    ensures PageOf(r, key).Absent?
  {
    hide PageRefAt, Sort, SlotsOf, SortedIds;
    var ids := ComponentSlots(r, SPARSE_ARCH_ID);
    forall i | 0 <= i < |ids| ensures ids[i] != key.slot {
      if i < k {
        assert ids[i] <= ids[k - 1];
      } else {
        assert ids[k] <= ids[i];
      }
    }
    ComponentSlotsAre(r, SPARSE_ARCH_ID, key.slot);
    if !PageOf(r, key).Absent? {
      var e := FoundEntry(r, key);
    }
  }

  method CarrySparse(r: Reader) returns (pages: Option<seq<OutPage>>)
    requires SortedIndex(r.index)
    ensures if pages.Some? then SparseCarried(r, pages.value) && SparseUsable(r) else !SparseUsable(r)
  {
    var ids := ComponentSlots(r, SPARSE_ARCH_ID);
    var out: seq<OutPage> := [];
    SparseStart(r);
    hide PageOf, SparseUpTo, SparseUsable, ComponentSlots;
    for k := 0 to |ids|
      invariant SparseUpTo(r, out, IdsEnd(ids, k), 0) && PagesValid(r, out)
    {
      SlotIsSparse(r, k);
      SkipSlots(r, out, k);
      var more := CarrySlot(r, ids[k], out);
      if more.None? {
        return None;
      }
      out := more.value;
    }
    SkipSlots(r, out, |ids|);
    CarriedUsable(r, out);
    return Some(out);
  }

  lemma SparseStart(r: Reader)
    ensures SparseUpTo(r, [], 0, 0)
  {
  }

  lemma SlotIsSparse(r: Reader, k: nat)
    requires k < |ComponentSlots(r, SPARSE_ARCH_ID)|
    ensures ComponentSlots(r, SPARSE_ARCH_ID)[k] < ENTITY_SLOT
    ensures IdsEnd(ComponentSlots(r, SPARSE_ARCH_ID), k) <= ComponentSlots(r, SPARSE_ARCH_ID)[k]
  {
    hide SortedIds;
    var ids := ComponentSlots(r, SPARSE_ARCH_ID);
    assert ids[k] in ids;
    if k > 0 { assert ids[k - 1] < ids[k]; }
  }

  lemma SkipSlots(r: Reader, pages: seq<OutPage>, k: nat)
    requires k <= |ComponentSlots(r, SPARSE_ARCH_ID)|
    requires SparseUpTo(r, pages, IdsEnd(ComponentSlots(r, SPARSE_ARCH_ID), k), 0)
    ensures
      var ids := ComponentSlots(r, SPARSE_ARCH_ID);
      SparseUpTo(r, pages, if k < |ids| then ids[k] else ENTITY_SLOT, 0)
  {
    var ids := ComponentSlots(r, SPARSE_ARCH_ID);
    var to: nat := if k < |ids| then ids[k] else ENTITY_SLOT;
    if k < |ids| { SlotIsSparse(r, k); }
    if k == |ids| > 0 { SlotIsSparse(r, k - 1); }
    hide PageOf, SparseUpTo, ComponentSlots;
    forall key: Key {:trigger PageOf(r, key)} | SparseKey(key) && KeyBelow(key, SPARSE_ARCH_ID, to, 0)
      && !KeyBelow(key, SPARSE_ARCH_ID, IdsEnd(ids, k), 0)
      ensures PageOf(r, key).Absent?
    {
      NoSuchSlot(r, k, key);
    }
    SparseSkip(r, pages, IdsEnd(ids, k), 0, to, 0);
  }
}
