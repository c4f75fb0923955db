/** The self-describing blob of a sparse component: its name and its entries. */
module SparsePage {
  import opened Bytes

  datatype SparseEntry = SparseEntry(entity: u64, value: bytes)

  datatype SparseBlob = SparseBlob(name: bytes, entries: seq<SparseEntry>)

  function EncSparseEntry(e: SparseEntry): bytes { Le64(e.entity) + (Le(|e.value|, 4) + e.value) }

  function EncSparseEntries(entries: seq<SparseEntry>): bytes { Concat(Parts(EncSparseEntry, entries)) }

  function EncBlob(b: SparseBlob): bytes {
    Le(|b.name|, 4) + (b.name + (Le(|b.entries|, 4) + EncSparseEntries(b.entries)))
  }

  predicate ValueFits(e: SparseEntry) { |e.value| < 0x1_0000_0000 }

  /** What `encode` takes without panicking. */
  predicate BlobFits(b: SparseBlob) {
    |b.name| < 0x1_0000_0000 && |b.entries| < 0x1_0000_0000 && forall i :: 0 <= i < |b.entries| ==> ValueFits(b.entries[i])
  }

  /** `data` is the image of a blob with a non-empty, well-formed name. */
  predicate IsBlob(data: bytes, b: SparseBlob) {
    BlobFits(b) && b.name != [] && Utf8(b.name) && data == EncBlob(b)
  }

  method Encode(b: SparseBlob) returns (out: bytes)
    requires BlobFits(b)
    ensures out == EncBlob(b)
  {
    hide EncSparseEntry, Concat;
    var head := Le(|b.name|, 4) + b.name + Le(|b.entries|, 4);
    out := head;
    NoEntries();
    for i := 0 to |b.entries|
      invariant out == head + EncSparseEntries(b.entries[..i])
    {
      PartsStep(EncSparseEntry, b.entries, i);
      Assoc(head, EncSparseEntries(b.entries[..i]), EncSparseEntry(b.entries[i]));
      out := out + EncSparseEntry(b.entries[i]);
    }
    assert b.entries[..|b.entries|] == b.entries;
    Assoc4(Le(|b.name|, 4), b.name, Le(|b.entries|, 4), EncSparseEntries(b.entries));
  }

  lemma NoEntries()
    ensures EncSparseEntries([]) == []
  {
  }

  // ── Fields ─────────────────────────────────────────────────────────────────

  predicate EntryAt(data: bytes, o: nat, e: SparseEntry) {
    Read64(data, o) == Some(e.entity) && Read32(data, o + 8) == Some(|e.value|) && At(data, o + 12, e.value)
  }

  lemma EntryFields(data: bytes, o: nat, e: SparseEntry)
    requires ValueFits(e)
    ensures At(data, o, EncSparseEntry(e)) <==> EntryAt(data, o, e)
    ensures |EncSparseEntry(e)| == 12 + |e.value|
  {
    assert Le32(|e.value|) == Le(|e.value|, 4);
    hide At, Read32, Read64, Le32, Le64;
    At3(data, o, Le64(e.entity), Le32(|e.value|), e.value);
    Read64At(data, o, e.entity);
    Read32At(data, o + 8, |e.value|);
  }

  lemma EntriesPrefixFree()
    ensures PrefixFree(EncSparseEntry, ValueFits)
  {
    hide At, EncSparseEntry;
    forall data: bytes, off: nat, x: SparseEntry, y: SparseEntry |
      ValueFits(x) && ValueFits(y) && At(data, off, EncSparseEntry(x)) && At(data, off, EncSparseEntry(y))
      ensures x == y
    {
      EntryFields(data, off, x);
      EntryFields(data, off, y);
      EntryFieldsUnique(data, off, x, y);
    }
  }

  lemma EntryFieldsUnique(data: bytes, o: nat, x: SparseEntry, y: SparseEntry)
    requires EntryAt(data, o, x) && EntryAt(data, o, y)
    ensures x == y
  {
  }

  /** Where the parts of a blob lie. */
  predicate BlobAt(data: bytes, b: SparseBlob) {
    var k := 4 + |b.name|;
    && Read32(data, 0) == Some(|b.name|) && At(data, 4, b.name) && Read32(data, k) == Some(|b.entries|)
    && At(data, k + 4, EncSparseEntries(b.entries)) && |data| == k + 4 + |EncSparseEntries(b.entries)|
  }

  lemma BlobFields(data: bytes, b: SparseBlob)
    requires BlobFits(b)
    ensures data == EncBlob(b) <==> BlobAt(data, b)
  {
    hide Read32, Le32, Le, At, EncSparseEntries;
    Image32(|b.name|);
    Image32(|b.entries|);
    WholeAt(data, EncBlob(b));
    At4(data, 0, Le32(|b.name|), b.name, Le32(|b.entries|), EncSparseEntries(b.entries));
    Read32At(data, 0, |b.name|);
    Read32At(data, 4 + |b.name|, |b.entries|);
  }

  lemma WholeAt(data: bytes, s: bytes)
    ensures data == s <==> At(data, 0, s) && |data| == |s|
  {
    if At(data, 0, s) && |data| == |s| { assert data[0..|s|] == data; }
  }

  // ── Decoding ───────────────────────────────────────────────────────────────

  method ReadEntry(data: bytes, o: nat) returns (e: Option<SparseEntry>)
    ensures e.Some? ==> ValueFits(e.value) && EntryAt(data, o, e.value)
    ensures e.None? ==> forall x {:trigger EntryAt(data, o, x)} :: !EntryAt(data, o, x)
  {
    var entity, len := Read64(data, o), Read32(data, o + 8);
    if entity.None? || len.None? || o + 12 + len.value > |data| {
      return None;
    }
    return Some(SparseEntry(entity.value, data[o + 12..o + 12 + len.value]));
  }

  predicate EntriesAt(data: bytes, o: nat, count: nat, entries: seq<SparseEntry>) {
    |entries| == count && At(data, o, EncSparseEntries(entries)) && forall i :: 0 <= i < count ==> ValueFits(entries[i])
  }

  lemma EntriesUnique(data: bytes, o: nat, count: nat, a: seq<SparseEntry>, b: seq<SparseEntry>)
    requires EntriesAt(data, o, count, a) && EntriesAt(data, o, count, b)
    ensures a == b
  {
    hide At, Concat, EncSparseEntry, ValueFits;
    EntriesPrefixFree();
    ListUnique(EncSparseEntry, ValueFits, data, o, a, b);
  }

  lemma NextEntry(data: bytes, o: nat, out: seq<SparseEntry>, all: seq<SparseEntry>)
    requires |out| < |all| && EntriesAt(data, o, |out|, out) && EntriesAt(data, o, |all|, all)
    ensures EntryAt(data, o + |EncSparseEntries(out)|, all[|out|])
  {
    EntriesPrefixFree();
    NextOfList(EncSparseEntry, ValueFits, data, o, out, all);
    EntryFields(data, o + |EncSparseEntries(out)|, all[|out|]);
  }

  lemma PushEntry(data: bytes, o: nat, out: seq<SparseEntry>, e: SparseEntry)
    requires EntriesAt(data, o, |out|, out) && ValueFits(e) && EntryAt(data, o + |EncSparseEntries(out)|, e)
    ensures EntriesAt(data, o, |out| + 1, out + [e])
    ensures |EncSparseEntries(out + [e])| == |EncSparseEntries(out)| + 12 + |e.value|
  {
    hide At, Concat, EncSparseEntry;
    EntryFields(data, o + |EncSparseEntries(out)|, e);
    PartsPush(EncSparseEntry, out, e);
    AtConcat(data, o, EncSparseEntries(out), EncSparseEntry(e));
  }

  method ReadEntries(data: bytes, o: nat, count: nat) returns (r: Option<seq<SparseEntry>>, end: nat)
    requires o <= |data|
    ensures r.Some? ==> EntriesAt(data, o, count, r.value) && end == o + |EncSparseEntries(r.value)|
    ensures r.None? ==> forall all {:trigger EntriesAt(data, o, count, all)} :: !EntriesAt(data, o, count, all)
  {
    var entries: seq<SparseEntry> := [];
    end := o;
    NoEntries();
    AtEmpty(data, o);
    hide At, Concat, EncSparseEntries, EncSparseEntry, ValueFits, EntryAt;
    for i := 0 to count
      invariant |entries| == i && end == o + |EncSparseEntries(entries)| && EntriesAt(data, o, i, entries)
    {
      var e := ReadEntry(data, end);
      if e.None? {
        forall all {:trigger EntriesAt(data, o, count, all)} | EntriesAt(data, o, count, all) ensures false {
          NextEntry(data, o, entries, all);
        }
        return None, 0;
      }
      PushEntry(data, o, entries, e.value);
      entries := entries + [e.value];
      end := end + 12 + |e.value.value|;
    }
    return Some(entries), end;
  }

  /** The same, with the entries as the decoder comes across them. */
  ghost predicate LaidOut(data: bytes, b: SparseBlob) {
    var k := 4 + |b.name|;
    && Read32(data, 0) == Some(|b.name|) && k <= |data| && data[4..k] == b.name && Read32(data, k) == Some(|b.entries|)
    && EntriesAt(data, k + 4, |b.entries|, b.entries) && |data| == k + 4 + |EncSparseEntries(b.entries)|
    && b.name != [] && Utf8(b.name)
  }

  lemma BlobParts(data: bytes, b: SparseBlob)
    ensures IsBlob(data, b) <==> LaidOut(data, b)
  {
    if IsBlob(data, b) || LaidOut(data, b) { BlobFields(data, b); }
  }

  /** sparse_page::decode accepts exactly the images of blobs with a non-empty valid
      name: truncated data and trailing bytes are always refused. */
  method Decode(data: bytes) returns (r: Option<SparseBlob>)
    ensures forall b {:trigger IsBlob(data, b)} :: IsBlob(data, b) <==> r == Some(b)
  {
    forall b {:trigger IsBlob(data, b)} ensures IsBlob(data, b) <==> LaidOut(data, b) {
      BlobParts(data, b);
    }
    hide IsBlob, EntriesAt, EncSparseEntries, Read32, Utf8;
    var len := Read32(data, 0);
    if len.None? || len.value == 0 || 4 + len.value > |data| {
      return None;
    }
    var k: nat := 4 + len.value;
    var name := data[4..k];
    if !Utf8(name) {
      return None;
    }
    var count := Read32(data, k);
    if count.None? {
      return None;
    }
    var entries, end := ReadEntries(data, k + 4, count.value);
    if entries.None? {
      return None;
    }
    var blob := SparseBlob(name, entries.value);
    forall b | LaidOut(data, b) ensures b == blob && end == |data| {
      EntriesUnique(data, k + 4, count.value, b.entries, entries.value);
    }
    if end != |data| {
      return None;
    }
    return Some(blob);
  }
}
