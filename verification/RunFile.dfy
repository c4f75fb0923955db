/** A whole sorted-run file: what the writer lays down and what `open` makes of it. */
module RunFile {
  import opened Bytes
  import opened Bits
  import opened Schema
  import opened SchemaCodec
  import opened RunFormat
  import opened RunReader
  import opened Bloom

  const HEADER: nat := 64
  const FOOTER: nat := 64
  const MIN_FILE_SIZE: nat := 128

  // ── Header and footer ──────────────────────────────────────────────────────

  datatype RunHeader = RunHeader(schemaCount: u32, pageCount: u64, lo: u64, hi: u64)

  /** The 40 bytes the header checksum covers. */
  function EncHeaderFields(h: RunHeader): (s: bytes)
    ensures |s| == 40
  {
    (RUN_MAGIC + (Le32(RUN_VERSION) + (Le32(h.schemaCount) + Le64(h.pageCount)))) + (Le64(h.lo) + Le64(h.hi))
  }

  function EncHeader(h: RunHeader, crc: u32): (s: bytes)
    ensures |s| == HEADER
  {
    EncHeaderFields(h) + (Le32(crc) + Zeros(20))
  }

  datatype RunFooter = RunFooter(indexOffset: u64, indexCount: u64, schemaOffset: u64, bloomOffset: u64, fingerprint: u64)

  function EncFooter(f: RunFooter, crc: u32): (s: bytes)
    ensures |s| == FOOTER
  {
    (Le64(f.indexOffset) + (Le64(f.indexCount) + (Le64(f.schemaOffset) + Le64(f.bloomOffset)))) +
    ((Le32(crc) + Le32(0)) + (Le64(f.fingerprint) + Zeros(16)))
  }

  predicate HeaderReads(buf: bytes, h: RunHeader) {
    && At(buf, 0, RUN_MAGIC) && Read32(buf, 8) == Some(RUN_VERSION)
    && Read32(buf, 12) == Some(h.schemaCount) && Read64(buf, 16) == Some(h.pageCount)
    && Read64(buf, 24) == Some(h.lo) && Read64(buf, 32) == Some(h.hi)
  }

  predicate FooterReads(buf: bytes, o: nat, f: RunFooter) {
    && Read64(buf, o) == Some(f.indexOffset) && Read64(buf, o + 8) == Some(f.indexCount)
    && Read64(buf, o + 16) == Some(f.schemaOffset) && Read64(buf, o + 24) == Some(f.bloomOffset)
    && Read64(buf, o + 40) == Some(f.fingerprint)
  }

  lemma HeaderFieldsAt(buf: bytes, h: RunHeader)
    requires At(buf, 0, EncHeaderFields(h))
    ensures HeaderReads(buf, h)
  {
    hide At, Le32, Le64, Read32, Read64;
    var head := RUN_MAGIC + (Le32(RUN_VERSION) + (Le32(h.schemaCount) + Le64(h.pageCount)));
    AtConcat(buf, 0, head, Le64(h.lo) + Le64(h.hi));
    At4(buf, 0, RUN_MAGIC, Le32(RUN_VERSION), Le32(h.schemaCount), Le64(h.pageCount));
    AtConcat(buf, 24, Le64(h.lo), Le64(h.hi));
    Read32At(buf, 8, RUN_VERSION);
    Read32At(buf, 12, h.schemaCount);
    Read64At(buf, 16, h.pageCount);
    Read64At(buf, 24, h.lo);
    Read64At(buf, 32, h.hi);
  }

  lemma FooterAt(buf: bytes, o: nat, f: RunFooter, crc: u32)
    requires At(buf, o, EncFooter(f, crc))
    ensures FooterReads(buf, o, f) && Read32(buf, o + 32) == Some(crc)
  {
    hide At, Le32, Le64, Read32, Read64, Zeros;
    var head := Le64(f.indexOffset) + (Le64(f.indexCount) + (Le64(f.schemaOffset) + Le64(f.bloomOffset)));
    var tail := Le64(f.fingerprint) + Zeros(16);
    AtConcat(buf, o, head, (Le32(crc) + Le32(0)) + tail);
    At4(buf, o, Le64(f.indexOffset), Le64(f.indexCount), Le64(f.schemaOffset), Le64(f.bloomOffset));
    AtConcat(buf, o + 32, Le32(crc) + Le32(0), tail);
    AtConcat(buf, o + 32, Le32(crc), Le32(0));
    AtConcat(buf, o + 40, Le64(f.fingerprint), Zeros(16));
    Read64At(buf, o, f.indexOffset);
    Read64At(buf, o + 8, f.indexCount);
    Read64At(buf, o + 16, f.schemaOffset);
    Read64At(buf, o + 24, f.bloomOffset);
    Read32At(buf, o + 32, crc);
    Read64At(buf, o + 40, f.fingerprint);
  }

  // ── Opening ────────────────────────────────────────────────────────────────

  /** `buf` with the footer's checksum field zeroed, as the total checksum covers it. */
  function Unsigned(buf: bytes): bytes
    requires |buf| >= MIN_FILE_SIZE
  {
    buf[..|buf| - 32] + (Zeros(4) + buf[|buf| - 28..])
  }

  function IndexEnd(f: RunFooter): nat { f.indexOffset + 16 * f.indexCount }

  predicate IndexReads(buf: bytes, o: nat, index: seq<IndexEntry>) {
    forall i :: 0 <= i < |index| ==> ReadIndexEntry(buf, o + 16 * i) == Some(index[i])
  }

  /** `r` is what validate_and_parse finds in `buf`, through the header `h` and the
      footer `f`. */
  predicate Parses(buf: bytes, h: RunHeader, f: RunFooter, r: Reader) {
    && |buf| >= MIN_FILE_SIZE && r.buf == buf
    && HeaderReads(buf, h) && Read32(buf, 40) == Some(Crc32(buf[..40])) && h.lo <= h.hi
    && FooterReads(buf, |buf| - FOOTER, f) && Read32(buf, |buf| - 32) == Some(Crc32(Unsigned(buf)))
    && f.schemaOffset <= |buf| && SchemaAt(buf[f.schemaOffset..], h.schemaCount, r.schema)
    && IndexEnd(f) <= |buf| && |r.index| == f.indexCount && IndexReads(buf, f.indexOffset, r.index)
    && (if f.bloomOffset == 0 then r.bloom == None
        else r.bloom.Some? && BloomAt(buf, f.bloomOffset, r.bloom.value))
    && r.lo == h.lo && r.hi == h.hi && r.pageCount == h.pageCount && r.fingerprint == f.fingerprint
  }

  ghost predicate Opens(buf: bytes, r: Reader) {
    exists h, f :: Parses(buf, h, f, r)
  }

  function ReadHeader(buf: bytes): RunHeader
    requires |buf| >= MIN_FILE_SIZE
  {
    RunHeader(Read32(buf, 12).value, Read64(buf, 16).value, Read64(buf, 24).value, Read64(buf, 32).value)
  }

  function ReadFooter(buf: bytes): RunFooter
    requires |buf| >= MIN_FILE_SIZE
  {
    var o := |buf| - FOOTER;
    RunFooter(Read64(buf, o).value, Read64(buf, o + 8).value, Read64(buf, o + 16).value, Read64(buf, o + 24).value,
      Read64(buf, o + 40).value)
  }

  lemma ParsesThrough(buf: bytes, h: RunHeader, f: RunFooter, r: Reader)
    requires Parses(buf, h, f, r)
    ensures |buf| >= MIN_FILE_SIZE && h == ReadHeader(buf) && f == ReadFooter(buf)
  {
    hide SchemaAt, BloomAt, Crc32, IndexReads, Unsigned, Read32, Read64, At;
  }

  method ReadIndex(buf: bytes, o: nat, count: nat) returns (index: seq<IndexEntry>)
    requires o + 16 * count <= |buf|
    ensures |index| == count && IndexReads(buf, o, index)
  {
    hide ReadIndexEntry;
    index := [];
    for i := 0 to count
      invariant |index| == i && IndexReads(buf, o, index)
    {
      index := index + [ReadIndexEntry(buf, o + 16 * i).value];
    }
  }

  lemma IndexUnique(buf: bytes, o: nat, a: seq<IndexEntry>, b: seq<IndexEntry>)
    requires |a| == |b| && IndexReads(buf, o, a) && IndexReads(buf, o, b)
    ensures a == b
  {
    hide ReadIndexEntry;
  }

  /** SortedRunReader::open, exactly: it yields `r` if and only if the file parses so. */
  method Open(buf: bytes) returns (r: Option<Reader>)
    ensures forall x {:trigger Opens(buf, x)} :: Opens(buf, x) <==> r == Some(x)
  {
    hide HeaderReads, FooterReads, Crc32, Unsigned, SchemaAt, BloomAt, IndexReads;
    forall x {:trigger Opens(buf, x)} | Opens(buf, x)
      ensures |buf| >= MIN_FILE_SIZE && Parses(buf, ReadHeader(buf), ReadFooter(buf), x)
    {
      var h, f :| Parses(buf, h, f, x);
      ParsesThrough(buf, h, f, x);
    }
    if |buf| < MIN_FILE_SIZE {
      return None;
    }
    var h, f := ReadHeader(buf), ReadFooter(buf);
    if !HeaderReads(buf, h) || Read32(buf, 40) != Some(Crc32(buf[..40])) || h.lo > h.hi {
      return None;
    }
    if Read32(buf, |buf| - 32) != Some(Crc32(Unsigned(buf))) {
      return None;
    }
    if f.schemaOffset > |buf| {
      return None;
    }
    var schema := ReadFrom(buf[f.schemaOffset..], h.schemaCount);
    if schema.None? {
      return None;
    }
    if IndexEnd(f) > |buf| {
      return None;
    }
    var index := ReadIndex(buf, f.indexOffset, f.indexCount);
    var bloom: Option<BloomView> := None;
    if f.bloomOffset != 0 {
      bloom := FromBytes(buf, f.bloomOffset);
      if bloom.None? {
        return None;
      }
    }
    var reader := Reader(buf, schema.value, index, bloom, h.lo, h.hi, h.pageCount, f.fingerprint);
    FooterReadsItself(buf);
    OpenedParses(buf, h, f, reader);
    forall x {:trigger Opens(buf, x)} | Opens(buf, x) ensures x == reader {
      IndexUnique(buf, f.indexOffset, x.index, index);
    }
    return Some(reader);
  }

  lemma FooterReadsItself(buf: bytes)
    requires |buf| >= MIN_FILE_SIZE
    ensures FooterReads(buf, |buf| - FOOTER, ReadFooter(buf))
  {
  }

  lemma OpenedParses(buf: bytes, h: RunHeader, f: RunFooter, r: Reader)
    requires |buf| >= MIN_FILE_SIZE && FooterReads(buf, |buf| - FOOTER, f) && r.buf == buf
    requires HeaderReads(buf, h) && Read32(buf, 40) == Some(Crc32(buf[..40])) && h.lo <= h.hi
    requires Read32(buf, |buf| - 32) == Some(Crc32(Unsigned(buf)))
    requires f.schemaOffset <= |buf| && SchemaAt(buf[f.schemaOffset..], h.schemaCount, r.schema)
    requires IndexEnd(f) <= |buf| && |r.index| == f.indexCount && IndexReads(buf, f.indexOffset, r.index)
    requires if f.bloomOffset == 0 then r.bloom == None else r.bloom.Some? && BloomAt(buf, f.bloomOffset, r.bloom.value)
    requires r.lo == h.lo && r.hi == h.hi && r.pageCount == h.pageCount && r.fingerprint == f.fingerprint
    ensures Opens(buf, r)
  {
    hide HeaderReads, FooterReads, Crc32, Unsigned, SchemaAt, BloomAt, IndexReads, Read32;
    assert Parses(buf, h, f, r);
  }

  lemma SchemaUnique(data: bytes, count: nat, a: SchemaSection, b: SchemaSection)
    requires SchemaAt(data, count, a) && SchemaAt(data, count, b)
    ensures a == b
  {
    hide EntriesOk, EntriesAt, NameTable;
    EntriesUnique(data, count, a.entries, b.entries);
  }

  /** A file opens as one run at most. */
  lemma OpensUnique(buf: bytes, a: Reader, b: Reader)
    requires Opens(buf, a) && Opens(buf, b)
    ensures a == b
  {
    hide HeaderReads, FooterReads, Crc32, Unsigned, SchemaAt, BloomAt, IndexReads, Read32, Read64;
    var ha, fa :| Parses(buf, ha, fa, a);
    var hb, fb :| Parses(buf, hb, fb, b);
    ParsesThrough(buf, ha, fa, a);
    ParsesThrough(buf, hb, fb, b);
    SchemaUnique(buf[fa.schemaOffset..], ha.schemaCount, a.schema, b.schema);
    IndexUnique(buf, fa.indexOffset, a.index, b.index);
    if fa.bloomOffset != 0 {
      BloomUnique(buf, fa.bloomOffset, a.bloom.value, b.bloom.value);
    }
  }

  // ── What opening has checked ───────────────────────────────────────────────

  lemma HeaderChecked(buf: bytes, h: RunHeader, f: RunFooter, r: Reader)
    requires Parses(buf, h, f, r)
    ensures |buf| >= 128 && buf[..8] == [0x4D, 0x4B, 0x4C, 0x53, 0x4D, 0x30, 0x31, 0x00] && Read32(buf, 8) == Some(2)
    ensures Read32(buf, 40) == Some(Crc32(buf[..40])) && r.buf == buf
    ensures Read64(buf, 16) == Some(r.pageCount) && Read64(buf, 24) == Some(r.lo) && Read64(buf, 32) == Some(r.hi) && r.lo <= r.hi
  {
    hide SchemaAt, BloomAt, Crc32, IndexReads, Read32, Read64, Unsigned, FooterReads;
  }

  lemma FooterChecked(buf: bytes, h: RunHeader, f: RunFooter, r: Reader)
    requires Parses(buf, h, f, r)
    ensures |buf| >= 128 && Read32(buf, |buf| - 32) == Some(Crc32(Unsigned(buf))) && Read64(buf, |buf| - 24) == Some(r.fingerprint)
    ensures r.bloom.None? <==> Read64(buf, |buf| - 40) == Some(0)
  {
    hide SchemaAt, BloomAt, Crc32, IndexReads, Read32, Read64, Unsigned, HeaderReads;
  }

  lemma UnsignedIs(buf: bytes)
    requires |buf| >= 128
    ensures Unsigned(buf) == buf[..|buf| - 32] + ([0, 0, 0, 0] + buf[|buf| - 28..])
  {
    assert Zeros(4) == [0, 0, 0, 0];
  }

  /** Magic, version, both checksums and the range, at their places in the file; a filter
      unless its offset is recorded as 0. */
  lemma OpensChecked(buf: bytes, r: Reader)
    requires Opens(buf, r)
    ensures |buf| >= 128 && buf[..8] == [0x4D, 0x4B, 0x4C, 0x53, 0x4D, 0x30, 0x31, 0x00] && Read32(buf, 8) == Some(2)
    ensures Read32(buf, 40) == Some(Crc32(buf[..40]))
    ensures Read32(buf, |buf| - 32) == Some(Crc32(buf[..|buf| - 32] + ([0, 0, 0, 0] + buf[|buf| - 28..])))
    ensures Read64(buf, 16) == Some(r.pageCount) && Read64(buf, 24) == Some(r.lo) && Read64(buf, 32) == Some(r.hi) && r.lo <= r.hi
    ensures Read64(buf, |buf| - 24) == Some(r.fingerprint) && r.buf == buf
    ensures r.bloom.None? <==> Read64(buf, |buf| - 40) == Some(0)
  {
    hide Parses, Crc32, Read32, Read64, Unsigned;
    var h, f :| Parses(buf, h, f, r);
    HeaderChecked(buf, h, f, r);
    FooterChecked(buf, h, f, r);
    UnsignedIs(buf);
  }

  lemma UnsignedOff(a: bytes, b: bytes, i: nat)
    requires |a| >= MIN_FILE_SIZE && OneByteOff(a, b, i) && !(|a| - 32 <= i < |a| - 28)
    ensures OneByteOff(Unsigned(a), Unsigned(b), i)
  {
    var x, y := Unsigned(a), Unsigned(b);
    assert forall j :: 0 <= j < |x| ==> x[j] == (if |a| - 32 <= j < |a| - 28 then 0 else a[j]);
    assert forall j :: 0 <= j < |y| ==> y[j] == (if |b| - 32 <= j < |b| - 28 then 0 else b[j]);
  }

  lemma UnsignedSame(a: bytes, b: bytes, i: nat)
    requires |a| >= MIN_FILE_SIZE && OneByteOff(a, b, i) && |a| - 32 <= i < |a| - 28
    ensures Unsigned(a) == Unsigned(b)
  {
    assert a[..|a| - 32] == b[..|a| - 32] && a[|a| - 28..] == b[|a| - 28..];
  }

  lemma FieldOff(a: bytes, b: bytes, o: nat, i: nat)
    requires OneByteOff(a, b, i) && o <= i < o + 4 && o + 4 <= |a|
    ensures Read32(a, o) != Read32(b, o)
  {
    assert a[o..o + 4][i - o] != b[o..o + 4][i - o];
    LeFromLe(a[o..o + 4]);
    LeFromLe(b[o..o + 4]);
  }

  lemma FieldSame(a: bytes, b: bytes, o: nat, i: nat)
    requires OneByteOff(a, b, i) && !(o <= i < o + 4) && o + 4 <= |a|
    ensures Read32(a, o) == Read32(b, o)
  {
    assert a[o..o + 4] == b[o..o + 4];
  }

  lemma SumChecked(buf: bytes, r: Reader)
    requires Opens(buf, r)
    ensures |buf| >= MIN_FILE_SIZE && Read32(buf, |buf| - 32) == Some(Crc32(Unsigned(buf)))
  {
    hide SchemaAt, BloomAt, Crc32, IndexReads, Read32, Read64, Unsigned;
  }

  /** A run file of which any one byte has changed does not open. */
  lemma DamagedFileRefused(buf: bytes, r: Reader, damaged: bytes, i: nat, x: Reader)
    requires Opens(buf, r) && OneByteOff(buf, damaged, i)
    ensures !Opens(damaged, x)
  {
    hide Opens, Crc32, Read32, Unsigned, OneByteOff;
    if Opens(damaged, x) {
      SumChecked(buf, r);
      SumChecked(damaged, x);
      assert |damaged| == |buf| by { SameLength(buf, damaged, i); }
      if |buf| - 32 <= i < |buf| - 28 {
        UnsignedSame(buf, damaged, i);
        FieldOff(buf, damaged, |buf| - 32, i);
      } else {
        UnsignedOff(buf, damaged, i);
        FieldSame(buf, damaged, |buf| - 32, i);
        OneByteChangesCrc(Unsigned(buf), Unsigned(damaged), i);
      }
    }
  }

  lemma SameLength(a: bytes, b: bytes, i: nat)
    requires OneByteOff(a, b, i)
    ensures |b| == |a|
  {
  }

  // ── Writing ────────────────────────────────────────────────────────────────

  /** Everything a run file holds: `body` is the region of the pages. */
  datatype FileParts = FileParts(schema: SchemaSection, body: bytes, index: seq<IndexEntry>, bloom: BloomView,
                                 pageCount: u64, lo: u64, hi: u64, fingerprint: u64)

  function EncIndex(index: seq<IndexEntry>): bytes { Concat(Parts(EncIndexEntry, index)) }

  /** Offset of the index: behind header, schema and pages. */
  function IndexOffset(p: FileParts): nat { HEADER + |EncSchema(p.schema.entries)| + |p.body| }

  function BloomOffset(p: FileParts): nat {
    var end := IndexOffset(p) + |EncIndex(p.index)|;
    end + PadTo64(end)
  }

  predicate PartsOk(p: FileParts) {
    && p.lo <= p.hi && 0 < |p.bloom.blocks| < 0x1_0000_0000
    && |p.schema.entries| < 0x1_0000_0000 && BloomOffset(p) < 0x1_0000_0000_0000_0000
  }

  function HeaderOf(p: FileParts): RunHeader
    requires PartsOk(p)
  {
    RunHeader(|p.schema.entries|, p.pageCount, p.lo, p.hi)
  }

  function FooterOf(p: FileParts): RunFooter
    requires PartsOk(p)
  {
    IndexFits(p);
    RunFooter(IndexOffset(p), |p.index|, HEADER, BloomOffset(p), p.fingerprint)
  }

  lemma EncIndexLength(index: seq<IndexEntry>)
    ensures |EncIndex(index)| == 16 * |index|
  {
    ConcatLength(Parts(EncIndexEntry, index), 16);
  }

  lemma IndexFits(p: FileParts)
    ensures |EncIndex(p.index)| == 16 * |p.index|
    ensures |p.index| <= BloomOffset(p) && IndexOffset(p) <= BloomOffset(p)
  {
    EncIndexLength(p.index);
  }

  /** Between header and footer. */
  function Middle0(p: FileParts): bytes {
    EncSchema(p.schema.entries) + (p.body + (EncIndex(p.index) +
      (Zeros(BloomOffset(p) - IndexOffset(p) - |EncIndex(p.index)|) + EncBloom(p.bloom))))
  }

  /** The file with both checksums in place. */
  function FileOf(p: FileParts): bytes
    requires PartsOk(p)
  {
    var head := EncHeader(HeaderOf(p), Crc32(EncHeaderFields(HeaderOf(p))));
    head + Middle0(p) + EncFooter(FooterOf(p), Crc32(head + Middle0(p) + EncFooter(FooterOf(p), 0)))
  }

  function ReaderOf(p: FileParts): Reader
    requires PartsOk(p)
  {
    Reader(FileOf(p), p.schema, p.index, Some(p.bloom), p.lo, p.hi, p.pageCount, p.fingerprint)
  }

  lemma FileLength(p: FileParts)
    requires PartsOk(p)
    ensures |FileOf(p)| == BloomOffset(p) + |EncBloom(p.bloom)| + FOOTER
  {
    IndexFits(p);
    hide EncSchema, EncBloom, EncIndex, EncHeader, EncFooter, Crc32;
  }

  lemma AtMiddle(a: bytes, m: bytes, b: bytes)
    ensures At(a + m + b, 0, a) && At(a + m + b, |a|, m) && At(a + m + b, |a| + |m|, b)
  {
  }

  /** Where the regions of the file lie. */
  lemma FileRegions(p: FileParts)
    requires PartsOk(p)
    ensures
      var file := FileOf(p);
      && |file| >= MIN_FILE_SIZE
      && At(file, 0, EncHeader(HeaderOf(p), Crc32(EncHeaderFields(HeaderOf(p)))))
      && At(file, HEADER, EncSchema(p.schema.entries))
      && At(file, HEADER + |EncSchema(p.schema.entries)|, p.body)
      && At(file, IndexOffset(p), EncIndex(p.index))
      && At(file, BloomOffset(p), EncBloom(p.bloom))
  {
    hide At, EncHeader, EncFooter, Crc32, EncSchema, EncIndex, EncBloom, Zeros;
    IndexFits(p);
    var head := EncHeader(HeaderOf(p), Crc32(EncHeaderFields(HeaderOf(p))));
    var foot := EncFooter(FooterOf(p), Crc32(head + Middle0(p) + EncFooter(FooterOf(p), 0)));
    AtMiddle(head, Middle0(p), foot);
    var file := FileOf(p);
    var schema, pad := EncSchema(p.schema.entries), Zeros(BloomOffset(p) - IndexOffset(p) - |EncIndex(p.index)|);
    At3(file, HEADER, schema, p.body, EncIndex(p.index) + (pad + EncBloom(p.bloom)));
    At3(file, IndexOffset(p), EncIndex(p.index), pad, EncBloom(p.bloom));
  }

  lemma AtDrop(buf: bytes, o: nat, s: bytes)
    requires At(buf, o, s)
    ensures o <= |buf| && At(buf[o..], 0, s)
  {
  }

  lemma HeaderRegion(file: bytes, h: RunHeader, crc: u32)
    requires At(file, 0, EncHeader(h, crc))
    ensures HeaderReads(file, h) && Read32(file, 40) == Some(crc) && file[..40] == EncHeaderFields(h)
  {
    hide HeaderReads, EncHeaderFields;
    AtConcat(file, 0, EncHeaderFields(h), Le32(crc) + Zeros(20));
    AtConcat(file, 40, Le32(crc), Zeros(20));
    HeaderFieldsAt(file, h);
    Read32At(file, 40, crc);
  }

  lemma UnsignedParts(a: bytes, x: bytes, c: bytes, rest: bytes)
    requires |a| >= FOOTER && |x| == 32 && |c| == 4 && |rest| == 28
    ensures Unsigned(a + (x + (c + rest))) == a + (x + (Zeros(4) + rest))
  {
    var buf := a + (x + (c + rest));
    assert buf[..|buf| - 32] == a + x;
    assert buf[|buf| - 28..] == rest;
  }

  /** Zeroing the checksum field of a footer gives the footer with checksum 0. */
  lemma UnsignedFooter(a: bytes, f: RunFooter, crc: u32)
    requires |a| >= FOOTER
    ensures Unsigned(a + EncFooter(f, crc)) == a + EncFooter(f, 0)
  {
    hide Le64, Zeros, Unsigned;
    var x := Le64(f.indexOffset) + (Le64(f.indexCount) + (Le64(f.schemaOffset) + Le64(f.bloomOffset)));
    var tail := Le64(f.fingerprint) + Zeros(16);
    Assoc(Le32(crc), Le32(0), tail);
    Assoc(Le32(0), Le32(0), tail);
    UnsignedParts(a, x, Le32(crc), Le32(0) + tail);
    ZeroWord();
  }

  lemma ZeroWord()
    ensures Le32(0) == Zeros(4)
  {
    assert Le(0, 4) == [0] + Le(0, 3);
    assert Le(0, 3) == [0] + Le(0, 2);
    assert Le(0, 2) == [0] + Le(0, 1);
    assert Le(0, 1) == [0] + Le(0, 0);
  }

  lemma FooterRegion(a: bytes, f: RunFooter)
    requires |a| >= FOOTER
    ensures
      var file := a + EncFooter(f, Crc32(a + EncFooter(f, 0)));
      && FooterReads(file, |file| - FOOTER, f)
      && Read32(file, |file| - 32) == Some(Crc32(Unsigned(file)))
  {
    hide EncFooter, Crc32, Unsigned, FooterReads;
    var crc := Crc32(a + EncFooter(f, 0));
    var file := a + EncFooter(f, crc);
    assert At(file, |a|, EncFooter(f, crc));
    FooterAt(file, |a|, f, crc);
    UnsignedFooter(a, f, crc);
  }

  lemma IndexRegion(file: bytes, o: nat, index: seq<IndexEntry>)
    requires At(file, o, EncIndex(index))
    ensures IndexReads(file, o, index)
  {
    hide EncIndexEntry, ReadIndexEntry, At;
    forall i | 0 <= i < |index| ensures ReadIndexEntry(file, o + 16 * i) == Some(index[i]) {
      AtElement(file, o, EncIndexEntry, index, i);
      EncIndexLength(index[..i]);
      IndexEntryAt(file, o + 16 * i, index[i]);
    }
  }

  /** Opening a written file gives back everything the writer put into it. */
  lemma FileOpens(p: FileParts)
    requires PartsOk(p) && Writable(p.schema)
    ensures Opens(FileOf(p), ReaderOf(p))
  {
    hide EncHeader, EncHeaderFields, EncFooter, Crc32, Unsigned, SchemaAt, BloomAt, EncSchema, EncBloom, Middle0,
      HeaderReads, FooterReads, At, Writable;
    var file := FileOf(p);
    FileRegions(p);
    HeaderRegion(file, HeaderOf(p), Crc32(EncHeaderFields(HeaderOf(p))));
    FooterRegion(EncHeader(HeaderOf(p), Crc32(EncHeaderFields(HeaderOf(p)))) + Middle0(p), FooterOf(p));
    AtDrop(file, HEADER, EncSchema(p.schema.entries));
    SchemaRoundTrip(p.schema, file[HEADER..]);
    IndexRegion(file, IndexOffset(p), p.index);
    IndexFits(p);
    AtFits(file, IndexOffset(p), EncIndex(p.index));
    EncodedBloomIsAt(file, BloomOffset(p), p.bloom);
    OpenedParses(file, HeaderOf(p), FooterOf(p), ReaderOf(p));
  }

  lemma AtFits(file: bytes, o: nat, s: bytes)
    requires At(file, o, s)
    ensures o + |s| <= |file|
  {
  }

  // ── Assembling the file ────────────────────────────────────────────────────

  function Patch(file: bytes, o: nat, s: bytes): (r: bytes)
    requires o + |s| <= |file|
    ensures |r| == |file|
  {
    file[..o] + s + file[o + |s|..]
  }

  lemma PatchMiddle(a: bytes, was: bytes, s: bytes, b: bytes)
    requires |was| == |s|
    ensures Patch(a + (was + b), |a|, s) == a + (s + b)
  {
  }

  lemma PatchHeader(h: RunHeader, rest: bytes, crc: u32)
    ensures Patch(EncHeader(h, 0) + rest, 40, Le32(crc)) == EncHeader(h, crc) + rest
  {
    hide EncHeaderFields, Le32, Patch;
    Assoc(EncHeaderFields(h), Le32(0) + Zeros(20), rest);
    Assoc(EncHeaderFields(h), Le32(crc) + Zeros(20), rest);
    Assoc(Le32(0), Zeros(20), rest);
    Assoc(Le32(crc), Zeros(20), rest);
    PatchMiddle(EncHeaderFields(h), Le32(0), Le32(crc), Zeros(20) + rest);
  }

  lemma PatchFooter(a: bytes, f: RunFooter, crc: u32)
    ensures Patch(a + EncFooter(f, 0), |a| + 32, Le32(crc)) == a + EncFooter(f, crc)
  {
    hide Le64, Le32, Patch;
    var x := Le64(f.indexOffset) + (Le64(f.indexCount) + (Le64(f.schemaOffset) + Le64(f.bloomOffset)));
    var tail := Le64(f.fingerprint) + Zeros(16);
    Assoc(Le32(0), Le32(0), tail);
    Assoc(Le32(crc), Le32(0), tail);
    Assoc(a, x, Le32(0) + (Le32(0) + tail));
    Assoc(a, x, Le32(crc) + (Le32(0) + tail));
    PatchMiddle(a + x, Le32(0), Le32(crc), Le32(0) + tail);
  }

  /** Writes the file with zero checksums and patches first the header's, then the
      whole file's, in place. */
  method Assemble(p: FileParts) returns (file: bytes)
    requires PartsOk(p)
    ensures file == FileOf(p)
  {
    hide EncHeader, EncFooter, Crc32, Middle0, EncHeaderFields, Patch;
    var h, f := HeaderOf(p), FooterOf(p);
    file := EncHeader(h, 0) + Middle0(p) + EncFooter(f, 0);
    HeaderPrefix(h, Middle0(p) + EncFooter(f, 0));
    Assoc(EncHeader(h, 0), Middle0(p), EncFooter(f, 0));
    var headerCrc := Crc32(file[..40]);
    PatchHeader(h, Middle0(p) + EncFooter(f, 0), headerCrc);
    file := Patch(file, 40, Le32(headerCrc));
    Assoc(EncHeader(h, headerCrc), Middle0(p), EncFooter(f, 0));
    var totalCrc := Crc32(file);
    PatchFooter(EncHeader(h, headerCrc) + Middle0(p), f, totalCrc);
    file := Patch(file, |file| - FOOTER + 32, Le32(totalCrc));
  }

  lemma HeaderPrefix(h: RunHeader, rest: bytes)
    ensures (EncHeader(h, 0) + rest)[..40] == EncHeaderFields(h)
  {
  }
}
