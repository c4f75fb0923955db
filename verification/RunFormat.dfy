/** Layout of a sorted-run file: page keys, page headers, index entries. */
module RunFormat {
  import opened Bytes
  import opened Order
  import opened Schema

  const PAGE_SIZE: nat := 256
  const META_ARCH_ID: u16 := 0xFFFF
  const SPARSE_ARCH_ID: u16 := 0xFFFD
  const ALLOCATOR_SLOT: u16 := 0xFFFE

  const RUN_MAGIC: bytes := [0x4D, 0x4B, 0x4C, 0x53, 0x4D, 0x30, 0x31, 0x00]
  const RUN_VERSION: u32 := 2

  datatype Key = Key(arch: u16, slot: u16, page: u16)

  /** Lexicographic order of (arch_id, slot, page_index). */
  predicate KeyLess(a: Key, b: Key) {
    a.arch < b.arch || (a.arch == b.arch && (a.slot < b.slot || (a.slot == b.slot && a.page < b.page)))
  }

  predicate KeyLe(a: Key, b: Key) { a == b || KeyLess(a, b) }

  datatype IndexEntry = IndexEntry(key: Key, offset: u64)

  predicate EntryLe(a: IndexEntry, b: IndexEntry) { KeyLe(a.key, b.key) }

  ghost predicate SortedIndex(index: seq<IndexEntry>) {
    forall i, j :: 0 <= i < j < |index| ==> KeyLess(index[i].key, index[j].key)
  }

  ghost predicate HasKey(index: seq<IndexEntry>, key: Key) {
    exists i :: 0 <= i < |index| && index[i].key == key
  }

  predicate DistinctKeys(index: seq<IndexEntry>) {
    forall i, j :: 0 <= i < j < |index| ==> index[i].key != index[j].key
  }

  /** Sorting entries of distinct keys gives a strictly sorted index of the same entries. */
  lemma SortIndex(index: seq<IndexEntry>)
    requires DistinctKeys(index)
    ensures SortedIndex(Sort(EntryLe, index)) && |Sort(EntryLe, index)| == |index|
    ensures forall e :: e in Sort(EntryLe, index) <==> e in index
  {
    hide Sort;
    SortStrict(EntryLe, index);
  }

  // ── Fixed-size records ─────────────────────────────────────────────────────

  function EncKey(k: Key): (s: bytes)
    ensures |s| == 6
  {
    Le16(k.arch) + (Le16(k.slot) + Le16(k.page))
  }

  datatype PageHeader = PageHeader(key: Key, rowCount: u16, crc: u32)

  function EncPageHeader(h: PageHeader): (s: bytes)
    ensures |s| == 16
  {
    EncKey(h.key) + (Le16(h.rowCount) + (Le32(h.crc) + [0, 0, 0, 0]))
  }

  function EncIndexEntry(e: IndexEntry): (s: bytes)
    ensures |s| == 16
  {
    EncKey(e.key) + ([0, 0] + Le64(e.offset))
  }

  function ReadKey(buf: bytes, o: nat): Option<Key> {
    var a, s, p := Read16(buf, o), Read16(buf, o + 2), Read16(buf, o + 4);
    if p.None? then None else Some(Key(a.value, s.value, p.value))
  }

  /** PageHeader::from_bytes of the 16 bytes at `o`. */
  function ReadPageHeader(buf: bytes, o: nat): (r: Option<PageHeader>)
    ensures r.None? <==> o + 16 > |buf|
  {
    if o + 16 > |buf| then None
    else Some(PageHeader(ReadKey(buf, o).value, Read16(buf, o + 6).value, Read32(buf, o + 8).value))
  }

  /** IndexEntry::from_bytes of the 16 bytes at `o`. */
  function ReadIndexEntry(buf: bytes, o: nat): (r: Option<IndexEntry>)
    ensures r.None? <==> o + 16 > |buf|
  {
    if o + 16 > |buf| then None
    else Some(IndexEntry(ReadKey(buf, o).value, Read64(buf, o + 8).value))
  }

  lemma KeyAt(buf: bytes, o: nat, k: Key)
    requires At(buf, o, EncKey(k))
    ensures ReadKey(buf, o) == Some(k)
  {
    At3(buf, o, Le16(k.arch), Le16(k.slot), Le16(k.page));
    Read16At(buf, o, k.arch);
    Read16At(buf, o + 2, k.slot);
    Read16At(buf, o + 4, k.page);
  }

  lemma PageHeaderAt(buf: bytes, o: nat, h: PageHeader)
    requires At(buf, o, EncPageHeader(h))
    ensures ReadPageHeader(buf, o) == Some(h)
  {
    hide Le16, Le32, Read16, Read32, ReadKey, EncKey;
    At4(buf, o, EncKey(h.key), Le16(h.rowCount), Le32(h.crc), [0, 0, 0, 0]);
    KeyAt(buf, o, h.key);
    Read16At(buf, o + 6, h.rowCount);
    Read32At(buf, o + 8, h.crc);
  }

  lemma IndexEntryAt(buf: bytes, o: nat, e: IndexEntry)
    requires At(buf, o, EncIndexEntry(e))
    ensures ReadIndexEntry(buf, o) == Some(e)
  {
    hide Le64, Read64, ReadKey, EncKey;
    At3(buf, o, EncKey(e.key), [0, 0], Le64(e.offset));
    KeyAt(buf, o, e.key);
    Read64At(buf, o + 8, e.offset);
  }
}
