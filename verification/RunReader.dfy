/** Reading a sorted run: bloom-prefiltered binary search, slot scans and the length
    of every kind of page. */
module RunReader {
  import opened Bytes
  import opened Bits
  import opened Order
  import opened Schema
  import opened RunFormat
  import opened Bloom
  import opened SerializedPage

  datatype Reader = Reader(buf: bytes, schema: SchemaSection, index: seq<IndexEntry>, bloom: Option<BloomView>,
                           lo: u64, hi: u64, pageCount: u64, fingerprint: u64)

  datatype PageRef = PageRef(header: PageHeader, data: bytes, offset: u64)

  /** Ok(None), Err and Ok(Some(page)). */
  datatype Lookup = Absent | Corrupt | Found(page: PageRef)

  // ── Page lengths ───────────────────────────────────────────────────────────

  predicate SlotIsSerialized(s: SchemaSection, slot: u16) {
    s.EntryFor(slot).Some? && s.EntryFor(slot).value.kind.Serialized?
  }

  function ItemSize(s: SchemaSection, slot: u16): Option<nat> {
    if slot == ALLOCATOR_SLOT then Some(1)
    else if slot == ENTITY_SLOT then Some(8)
    else if s.EntryFor(slot).None? then None
    else Some(s.EntryFor(slot).value.itemSize)
  }

  /** compute_data_len. */
  function DataLen(r: Reader, key: Key, rowCount: u16, start: nat): Option<nat> {
    if key.slot == ALLOCATOR_SLOT || key.arch == SPARSE_ARCH_ID then Some(rowCount)
    else if SlotIsSerialized(r.schema, key.slot) then
      var end := start + 4 * (rowCount + 1);
      if end > |r.buf| then None else EncodedLen(r.buf[start..end], rowCount)
    else
      var size := ItemSize(r.schema, key.slot);
      if size.None? then None else Some(PAGE_SIZE * size.value)
  }

  /** page_ref_at: the page whose header is at `offset`, bounds-checked. */
  function PageRefAt(r: Reader, offset: u64, key: Key): Option<PageRef> {
    var header := ReadPageHeader(r.buf, offset);
    if header.None? then None
    else
      var len := DataLen(r, key, header.value.rowCount, offset + 16);
      if len.None? || offset + 16 + len.value > |r.buf| then None
      else Some(PageRef(header.value, r.buf[offset + 16..offset + 16 + len.value], offset))
  }

  function ToLookup(p: Option<PageRef>): Lookup {
    if p.None? then Corrupt else Found(p.value)
  }

  /** How much of a page its checksum covers; the header's own key decides. */
  function CrcCovers(r: Reader, page: PageRef): Option<nat> {
    var h := page.header;
    if h.key.arch == SPARSE_ARCH_ID then Some(h.rowCount)
    else if SlotIsSerialized(r.schema, h.key.slot) then Some(|page.data|)
    else if ItemSize(r.schema, h.key.slot).None? then None
    else Some(h.rowCount * ItemSize(r.schema, h.key.slot).value)
  }

  /** validate_page_crc succeeds. */
  predicate ValidCrc(r: Reader, page: PageRef) {
    var n := CrcCovers(r, page);
    n.Some? && n.value <= |page.data| && Crc32(page.data[..n.value]) == page.header.crc
  }

  // ── Lookup by key ──────────────────────────────────────────────────────────

  /** Linear scan for a key. */
  function FindEntry(index: seq<IndexEntry>, key: Key): (r: Option<nat>)
    ensures r.Some? ==> r.value < |index| && index[r.value].key == key
    ensures r.None? ==> !HasKey(index, key)
  {
    if |index| == 0 then None
    else
      var last := |index| - 1;
      if index[last].key == key then Some(last) else FindEntry(index[..last], key)
  }

  /** The page of a key, as a linear scan of the index finds it. */
  function PageOf(r: Reader, key: Key): Lookup {
    var i := FindEntry(r.index, key);
    if i.None? then Absent else ToLookup(PageRefAt(r, r.index[i.value].offset, key))
  }

  predicate BloomAllows(r: Reader, key: Key) {
    r.bloom.None? || r.bloom.value.Has(PackPageKey(key.arch, key.slot, key.page))
  }

  /** What every written run has and `open` does not check: a strictly sorted index,
      and a filter, when there is one, that denies no indexed key. */
  ghost predicate Indexed(r: Reader) {
    SortedIndex(r.index) && forall i :: 0 <= i < |r.index| ==> BloomAllows(r, r.index[i].key)
  }

  /** A run without a filter denies no key. */
  lemma IndexedWithoutFilter(r: Reader)
    requires r.bloom.None?
    ensures Indexed(r) <==> SortedIndex(r.index)
  {
    hide SortedIndex;
  }

  lemma SortedPosition(index: seq<IndexEntry>, i: nat)
    requires SortedIndex(index) && i < |index|
    ensures FindEntry(index, index[i].key) == Some(i)
  {
    assert HasKey(index, index[i].key);
  }

  lemma EntryFinds(r: Reader, e: IndexEntry, ref: PageRef)
    requires SortedIndex(r.index) && e in r.index && PageRefAt(r, e.offset, e.key) == Some(ref)
    ensures PageOf(r, e.key) == Found(ref)
  {
    hide PageRefAt, SortedIndex, FindEntry;
    var j :| 0 <= j < |r.index| && r.index[j] == e;
    SortedPosition(r.index, j);
  }

  lemma FoundEntry(r: Reader, key: Key) returns (e: IndexEntry)
    requires !PageOf(r, key).Absent?
    ensures e in r.index && e.key == key
  {
    hide PageRefAt, FindEntry;
    e := r.index[FindEntry(r.index, key).value];
  }

  lemma KeyMissing(index: seq<IndexEntry>, key: Key, pos: nat)
    requires SortedIndex(index) && pos <= |index|
    requires forall i :: 0 <= i < pos ==> KeyLess(index[i].key, key)
    requires pos < |index| ==> index[pos].key != key && !KeyLess(index[pos].key, key)
    ensures !HasKey(index, key)
  {
    forall i | 0 <= i < |index| ensures index[i].key != key {
      if pos < i {
        assert KeyLess(index[pos].key, index[i].key);
      }
    }
  }

  /** partition_point: how many entries are below `key`. */
  method LowerBound(index: seq<IndexEntry>, key: Key) returns (lo: nat)
    requires SortedIndex(index)
    ensures lo <= |index|
    ensures forall i :: 0 <= i < lo ==> KeyLess(index[i].key, key)
    ensures forall i :: lo <= i < |index| ==> !KeyLess(index[i].key, key)
  {
    lo := 0;
    var hi := |index|;
    while lo < hi
      invariant lo <= hi <= |index|
      invariant forall i :: 0 <= i < lo ==> KeyLess(index[i].key, key)
      invariant forall i :: hi <= i < |index| ==> !KeyLess(index[i].key, key)
    {
      var mid := lo + (hi - lo) / 2;
      if KeyLess(index[mid].key, key) {
        forall i | 0 <= i < mid ensures KeyLess(index[i].key, key) {
          assert KeyLess(index[i].key, index[mid].key);
        }
        lo := mid + 1;
      } else {
        forall i | mid <= i < |index| ensures !KeyLess(index[i].key, key) {
          assert mid < i ==> KeyLess(index[mid].key, index[i].key);
        }
        hi := mid;
      }
    }
  }

  /** get_page: the bloom prefilter and the binary search together agree with the
      linear scan on every key. */
  method GetPage(r: Reader, key: Key) returns (l: Lookup)
    requires Indexed(r)
    ensures l == PageOf(r, key)
  {
    hide PageRefAt, BloomView.Has;
    if !BloomAllows(r, key) {
      return Absent;
    }
    var pos := LowerBound(r.index, key);
    if pos == |r.index| || r.index[pos].key != key {
      KeyMissing(r.index, key, pos);
      return Absent;
    }
    SortedPosition(r.index, pos);
    l := ToLookup(PageRefAt(r, r.index[pos].offset, key));
  }

  // ── Scans ──────────────────────────────────────────────────────────────────

  /** The index entries of an archetype's slot, in index order. */
  function SlotEntries(index: seq<IndexEntry>, arch: u16, slot: u16): seq<IndexEntry> {
    if |index| == 0 then []
    else
      var last := |index| - 1;
      var init := SlotEntries(index[..last], arch, slot);
      if InSlot(index[last], arch, slot) then init + [index[last]] else init
  }

  lemma {:induction false} SlotEntriesAre(index: seq<IndexEntry>, arch: u16, slot: u16)
    ensures forall e :: e in SlotEntries(index, arch, slot) <==> e in index && InSlot(e, arch, slot)
  {
    if |index| != 0 {
      var last := |index| - 1;
      SlotEntriesAre(index[..last], arch, slot);
      assert index == index[..last] + [index[last]];
    }
  }

  lemma {:induction false} SlotEntriesSorted(index: seq<IndexEntry>, arch: u16, slot: u16)
    requires SortedIndex(index)
    ensures SortedIndex(SlotEntries(index, arch, slot))
  {
    hide KeyLess;
    if |index| != 0 {
      var last := |index| - 1;
      var init := SlotEntries(index[..last], arch, slot);
      SlotEntriesSorted(index[..last], arch, slot);
      SlotEntriesAre(index[..last], arch, slot);
      forall i | 0 <= i < |init| ensures KeyLess(init[i].key, index[last].key) {
        assert init[i] in index[..last];
        var j :| 0 <= j < last && index[..last][j] == init[i];
      }
    }
  }

  lemma SliceOfTake<T>(s: seq<T>, n: nat, a: nat, b: nat)
    requires a <= b <= n <= |s|
    ensures s[..n][a..b] == s[a..b]
  {
  }

  lemma SlicePush<T>(s: seq<T>, a: nat, b: nat)
    requires a <= b < |s|
    ensures s[a..b + 1] == s[a..b] + [s[b]]
  {
  }

  /** In a sorted index the entries of a slot are contiguous. */
  lemma {:induction false} SlotEntriesRange(index: seq<IndexEntry>, arch: u16, slot: u16, a: nat, b: nat)
    requires a <= b <= |index|
    requires forall i :: 0 <= i < |index| ==>
      (a <= i < b <==> InSlot(index[i], arch, slot))
    ensures SlotEntries(index, arch, slot) == index[a..b]
  {
    if |index| != 0 {
      var last := |index| - 1;
      var b' := if b > last then last else b;
      var a' := if a > last then last else a;
      SlotEntriesRange(index[..last], arch, slot, a', b');
      SliceOfTake(index, last, a', b');
      if a <= last < b {
        SlicePush(index, a, last);
      }
    }
  }

  /** The pages of these entries in order, or nothing when one of them is corrupt. */
  function PagesOf(r: Reader, entries: seq<IndexEntry>): Option<seq<(u16, PageRef)>> {
    if |entries| == 0 then Some([])
    else
      var last := |entries| - 1;
      var init := PagesOf(r, entries[..last]);
      var page := PageRefAt(r, entries[last].offset, entries[last].key);
      if init.None? || page.None? then None else Some(init.value + [(entries[last].key.page, page.value)])
  }

  lemma {:induction false} PagesOfFails(r: Reader, entries: seq<IndexEntry>, k: nat)
    requires k <= |entries| && PagesOf(r, entries[..k]).None?
    ensures PagesOf(r, entries).None?
  {
    if k < |entries| {
      var last := |entries| - 1;
      assert entries[..last][..k] == entries[..k];
      PagesOfFails(r, entries[..last], k);
    } else {
      assert entries[..k] == entries;
    }
  }

  predicate InSlot(e: IndexEntry, arch: u16, slot: u16) { e.key.arch == arch && e.key.slot == slot }

  /** Where the run of a slot's entries that starts at its lower bound ends. */
  lemma SlotRange(index: seq<IndexEntry>, arch: u16, slot: u16, start: nat) returns (end: nat)
    requires SortedIndex(index) && start <= |index|
    requires forall j :: 0 <= j < start ==> KeyLess(index[j].key, Key(arch, slot, 0))
    requires forall j :: start <= j < |index| ==> !KeyLess(index[j].key, Key(arch, slot, 0))
    ensures start <= end <= |index|
    ensures forall j :: 0 <= j < |index| ==> (start <= j < end <==> InSlot(index[j], arch, slot))
    ensures SlotEntries(index, arch, slot) == index[start..end]
  {
    end := start;
    while end < |index| && InSlot(index[end], arch, slot)
      invariant start <= end <= |index|
      invariant forall j :: start <= j < end ==> InSlot(index[j], arch, slot)
    {
      end := end + 1;
    }
    forall j | end < j < |index| ensures !InSlot(index[j], arch, slot) {
      assert KeyLess(index[end].key, index[j].key);
    }
    SlotEntriesRange(index, arch, slot, start, end);
  }

  /** slot_pages: a partition point and a take-while yield exactly the pages of the
      slot's entries, in ascending page order, across gaps. */
  method SlotPages(r: Reader, arch: u16, slot: u16) returns (pages: Option<seq<(u16, PageRef)>>)
    requires SortedIndex(r.index)
    ensures pages == PagesOf(r, SlotEntries(r.index, arch, slot))
  {
    hide PageRefAt, SlotEntries, KeyLess, SortedIndex;
    var i := LowerBound(r.index, Key(arch, slot, 0));
    ghost var start := i;
    ghost var end := SlotRange(r.index, arch, slot, start);
    ghost var all := r.index[start..end];
    var out: seq<(u16, PageRef)> := [];
    while i < |r.index| && InSlot(r.index[i], arch, slot)
      invariant start <= i <= end
      invariant PagesOf(r, all[..i - start]) == Some(out)
      decreases |r.index| - i
    {
      var page := PageRefAt(r, r.index[i].offset, Key(arch, slot, r.index[i].key.page));
      assert all[..i + 1 - start][..i - start] == all[..i - start] && all[..i + 1 - start][i - start] == r.index[i];
      if page.None? {
        PagesOfFails(r, all, i + 1 - start);
        return None;
      }
      out := out + [(r.index[i].key.page, page.value)];
      i := i + 1;
    }
    assert all[..i - start] == all;
    return Some(out);
  }

  // ── Archetypes and their slots ─────────────────────────────────────────────

  predicate IdLe(a: u16, b: u16) { a <= b }

  function Dedup(s: seq<u16>): seq<u16> {
    if |s| <= 1 then s
    else if s[|s| - 2] == s[|s| - 1] then Dedup(s[..|s| - 1])
    else Dedup(s[..|s| - 1]) + [s[|s| - 1]]
  }

  ghost predicate AscendingIds(s: seq<u16>) {
    forall i, j :: 0 <= i < j < |s| ==> s[i] < s[j]
  }

  lemma {:induction false} DedupAscends(s: seq<u16>)
    requires SortedBy(IdLe, s)
    ensures AscendingIds(Dedup(s)) && forall x :: x in Dedup(s) <==> x in s
    ensures |s| > 0 ==> |Dedup(s)| > 0 && Dedup(s)[|Dedup(s)| - 1] == s[|s| - 1]
  {
    if |s| > 1 {
      var init := s[..|s| - 1];
      DedupAscends(init);
      assert s == init + [s[|s| - 1]];
      assert IdLe(s[|s| - 2], s[|s| - 1]);
      if s[|s| - 2] == s[|s| - 1] {
        assert init[|s| - 2] in init;
      }
    }
  }

  lemma {:induction false} AscendingIdsUnique(a: seq<u16>, b: seq<u16>)
    requires AscendingIds(a) && AscendingIds(b) && forall x :: x in a <==> x in b
    ensures a == b
  {
    if |a| == 0 || |b| == 0 {
      NonEmpty(a);
      NonEmpty(b);
    } else {
      assert a[0] in b && b[0] in a;
      var i :| 0 <= i < |b| && b[i] == a[0];
      var j :| 0 <= j < |a| && a[j] == b[0];
      assert a[0] == b[0];
      forall x ensures x in a[1..] <==> x in b[1..] {
        IdsTail(a, x);
        IdsTail(b, x);
      }
      AscendingIdsUnique(a[1..], b[1..]);
      assert a == [a[0]] + a[1..] && b == [b[0]] + b[1..];
    }
  }

  lemma IdsTail(a: seq<u16>, x: u16)
    requires |a| > 0 && AscendingIds(a)
    ensures x in a[1..] <==> x in a && x != a[0]
  {
    if x in a && x != a[0] {
      var i :| 0 <= i < |a| && a[i] == x;
      assert a[1..][i - 1] == x;
    }
  }

  /** sort_unstable and dedup. */
  function SortedIds(s: seq<u16>): (r: seq<u16>)
    ensures AscendingIds(r) && forall x :: x in r <==> x in s
  {
    var sorted := Sort(IdLe, s);
    SortSorts(IdLe, s);
    SameElements(sorted, s);
    DedupAscends(sorted);
    Dedup(sorted)
  }

  function ArchsOf(index: seq<IndexEntry>): (r: seq<u16>)
    ensures forall x :: x in r <==> x != META_ARCH_ID && x != SPARSE_ARCH_ID && exists e :: e in index && e.key.arch == x
  {
    if |index| == 0 then []
    else
      var last := |index| - 1;
      assert index == index[..last] + [index[last]];
      var init, a := ArchsOf(index[..last]), index[last].key.arch;
      if a != META_ARCH_ID && a != SPARSE_ARCH_ID then init + [a] else init
  }

  function SlotsOf(index: seq<IndexEntry>, arch: u16): (r: seq<u16>)
    ensures forall x :: x in r <==> x != ENTITY_SLOT && exists e :: e in index && e.key.arch == arch && e.key.slot == x
  {
    if |index| == 0 then []
    else
      var last := |index| - 1;
      assert index == index[..last] + [index[last]];
      var init, k := SlotsOf(index[..last], arch), index[last].key;
      if k.arch == arch && k.slot != ENTITY_SLOT then init + [k.slot] else init
  }

  function ArchetypeIds(r: Reader): seq<u16> { SortedIds(ArchsOf(r.index)) }

  function ComponentSlots(r: Reader, arch: u16): seq<u16> { SortedIds(SlotsOf(r.index, arch)) }

  lemma ArchetypeIdsAre(r: Reader, arch: u16)
    ensures arch in ArchetypeIds(r) <==>
      arch != META_ARCH_ID && arch != SPARSE_ARCH_ID && exists e :: e in r.index && e.key.arch == arch
  {
    hide ArchsOf, SortedIds;
  }

  lemma ComponentSlotsAre(r: Reader, arch: u16, slot: u16)
    ensures slot in ComponentSlots(r, arch) <==>
      slot != ENTITY_SLOT && exists e :: e in r.index && e.key.arch == arch && e.key.slot == slot
  {
    hide SlotsOf, SortedIds;
  }
}
