/** Wire format of the schema section. */
module SchemaCodec {
  import opened Bytes
  import opened Order
  import opened Schema

  function KindByte(k: StorageKind): u8 { if k.RawCopy? then 0 else 1 }

  function EncSchemaEntry(e: SchemaEntry): bytes {
    (Le16(e.slot) + (Le(|e.name|, 2) + e.name)) + (Le32(e.itemSize) + (Le32(e.itemAlign) + [KindByte(e.kind)]))
  }

  function EncEntries(entries: seq<SchemaEntry>): bytes { Concat(Parts(EncSchemaEntry, entries)) }

  /** Bytes of padding to the next multiple of 64. */
  function PadTo64(n: nat): nat { if n % 64 == 0 then 0 else 64 - n % 64 }

  function EncSchema(entries: seq<SchemaEntry>): bytes {
    EncEntries(entries) + Zeros(PadTo64(|EncEntries(entries)|))
  }

  predicate NameFits(e: SchemaEntry) { |e.name| < 0x1_0000 }

  predicate EntryFits(e: SchemaEntry) { NameFits(e) && Utf8(e.name) }

  predicate PowerOfTwo(n: nat) { n == 1 || (n > 1 && n % 2 == 0 && PowerOfTwo(n / 2)) }

  /** The name table read_from fills while it reads. */
  function NameTable(entries: seq<SchemaEntry>): map<Name, u16> {
    if |entries| == 0 then map[]
    else NameTable(entries[..|entries| - 1])[entries[|entries| - 1].name := entries[|entries| - 1].slot]
  }

  /** What read_from accepts. Slots are compared with the position cast to u16. */
  predicate EntriesOk(entries: seq<SchemaEntry>) {
    && (forall i :: 0 <= i < |entries| ==>
      && entries[i].slot == i % 0x1_0000
      && (entries[i].itemAlign == 0 || PowerOfTwo(entries[i].itemAlign)))
    && NoDup(NamesOf(entries))
  }

  /** `count` decodable entries lie at the start of `data`. */
  predicate EntriesAt(data: bytes, count: nat, entries: seq<SchemaEntry>) {
    && |entries| == count && At(data, 0, EncEntries(entries))
    && forall i :: 0 <= i < |entries| ==> EntryFits(entries[i])
  }

  /** `s` is the schema of `count` entries that `data` starts with. */
  predicate SchemaAt(data: bytes, count: nat, s: SchemaSection) {
    EntriesAt(data, count, s.entries) && EntriesOk(s.entries) && s.slots == NameTable(s.entries)
  }

  // ── Writing ────────────────────────────────────────────────────────────────

  method WriteTo(s: SchemaSection, out: bytes) returns (r: Option<bytes>)
    ensures r.None? <==> exists i :: 0 <= i < |s.entries| && !NameFits(s.entries[i])
    ensures r.Some? ==> r.value == out + EncSchema(s.entries)
  {
    hide EncSchemaEntry, Concat;
    var w := out;
    EmptyEntries();
    for i := 0 to |s.entries|
      invariant w == out + EncEntries(s.entries[..i])
      invariant forall j :: 0 <= j < i ==> NameFits(s.entries[j])
    {
      var e := s.entries[i];
      if |e.name| >= 0x1_0000 {
        return None;
      }
      PartsStep(EncSchemaEntry, s.entries, i);
      Assoc(out, EncEntries(s.entries[..i]), EncSchemaEntry(e));
      w := w + EncSchemaEntry(e);
    }
    assert s.entries[..|s.entries|] == s.entries;
    Assoc(out, EncEntries(s.entries), Zeros(PadTo64(|EncEntries(s.entries)|)));
    return Some(w + Zeros(PadTo64(|w| - |out|)));
  }

  lemma EmptyEntries()
    ensures EncEntries([]) == []
  {
  }

  // ── Reading ────────────────────────────────────────────────────────────────

  predicate FieldsAt(data: bytes, o: nat, e: SchemaEntry) {
    var k := o + 4 + |e.name|;
    && Read16(data, o) == Some(e.slot) && Read16(data, o + 2) == Some(|e.name|)
    && At(data, o + 4, e.name)
    && Read32(data, k) == Some(e.itemSize) && Read32(data, k + 4) == Some(e.itemAlign)
    && k + 8 < |data| && data[k + 8] == KindByte(e.kind)
  }

  lemma EntryFieldsAt(data: bytes, o: nat, e: SchemaEntry)
    requires NameFits(e)
    ensures At(data, o, EncSchemaEntry(e)) <==> FieldsAt(data, o, e)
    ensures |EncSchemaEntry(e)| == 13 + |e.name|
  {
    hide At, Read16, Read32, Le, Le16, Le32, KindByte;
    Image16(|e.name|);
    var head := Le16(e.slot) + (Le16(|e.name|) + e.name);
    var kind: bytes := [KindByte(e.kind)];
    AtConcat(data, o, head, Le32(e.itemSize) + (Le32(e.itemAlign) + kind));
    At3(data, o, Le16(e.slot), Le16(|e.name|), e.name);
    At3(data, o + |head|, Le32(e.itemSize), Le32(e.itemAlign), kind);
    AtByte(data, o + |head| + 8, KindByte(e.kind));
    Read16At(data, o, e.slot);
    Read16At(data, o + 2, |e.name|);
    Read32At(data, o + |head|, e.itemSize);
    Read32At(data, o + |head| + 4, e.itemAlign);
  }

  lemma EntriesPrefixFree()
    ensures PrefixFree(EncSchemaEntry, EntryFits)
  {
    hide At, EncSchemaEntry, Utf8;
    forall data: bytes, off: nat, x: SchemaEntry, y: SchemaEntry |
      EntryFits(x) && EntryFits(y) && At(data, off, EncSchemaEntry(x)) && At(data, off, EncSchemaEntry(y))
      ensures x == y
    {
      EntryFieldsAt(data, off, x);
      EntryFieldsAt(data, off, y);
      FieldsUnique(data, off, x, y);
    }
  }

  lemma FieldsUnique(data: bytes, o: nat, x: SchemaEntry, y: SchemaEntry)
    requires FieldsAt(data, o, x) && FieldsAt(data, o, y)
    ensures x == y
  {
  }

  method ReadEntry(data: bytes, o: nat) returns (r: Option<SchemaEntry>)
    ensures r.Some? ==> EntryFits(r.value) && FieldsAt(data, o, r.value)
    ensures r.None? ==> forall e {:trigger FieldsAt(data, o, e)} :: EntryFits(e) ==> !FieldsAt(data, o, e)
  {
    var slot, nameLen := Read16(data, o), Read16(data, o + 2);
    if slot.None? || nameLen.None? {
      return None;
    }
    var k: int := o + 4 + nameLen.value;
    if k > |data| {
      return None;
    }
    var name := data[o + 4..k];
    if !Utf8(name) {
      return None;
    }
    var size, align := Read32(data, k), Read32(data, k + 4);
    if size.None? || align.None? || k + 8 >= |data| || data[k + 8] > 1 {
      return None;
    }
    return Some(SchemaEntry(slot.value, name, size.value, align.value,
      if data[k + 8] == 0 then RawCopy else Serialized));
  }

  /** The reading loop of read_from. */
  method ReadEntries(data: bytes, count: nat) returns (r: Option<SchemaSection>)
    ensures r.Some? ==> EntriesAt(data, count, r.value.entries) && r.value.slots == NameTable(r.value.entries)
    ensures r.None? ==> forall entries {:trigger EntriesAt(data, count, entries)} :: !EntriesAt(data, count, entries)
  {
    var entries: seq<SchemaEntry> := [];
    var slots: map<Name, u16> := map[];
    var cursor := 0;
    EmptyEntries();
    AtEmpty(data, 0);
    hide At, Concat, EncEntries, EncSchemaEntry, EntryFits, FieldsAt;
    for i := 0 to count
      invariant |entries| == i && slots == NameTable(entries) && cursor == |EncEntries(entries)|
      invariant EntriesAt(data, i, entries)
    {
      var e := ReadEntry(data, cursor);
      if e.None? {
        forall all {:trigger EntriesAt(data, count, all)} | EntriesAt(data, count, all) ensures false {
          NextEntry(data, entries, all);
        }
        return None;
      }
      PushEntry(data, entries, e.value);
      assert (entries + [e.value])[..i] == entries;
      entries := entries + [e.value];
      slots := slots[e.value.name := e.value.slot];
      cursor := cursor + 13 + |e.value.name|;
    }
    return Some(SchemaSection(entries, slots));
  }

  lemma EntriesUnique(data: bytes, count: nat, a: seq<SchemaEntry>, b: seq<SchemaEntry>)
    requires EntriesAt(data, count, a) && EntriesAt(data, count, b)
    ensures a == b
  {
    hide At, Concat, EncSchemaEntry, EntryFits;
    EntriesPrefixFree();
    ListUnique(EncSchemaEntry, EntryFits, data, 0, a, b);
  }

  /** The checks on the entries read. */
  method CheckEntries(entries: seq<SchemaEntry>) returns (ok: bool)
    ensures ok == EntriesOk(entries)
  {
    hide PowerOfTwo, NoDup;
    for i := 0 to |entries|
      invariant forall j :: 0 <= j < i ==>
        entries[j].slot == j % 0x1_0000 && (entries[j].itemAlign == 0 || PowerOfTwo(entries[j].itemAlign))
    {
      if entries[i].slot != i % 0x1_0000 {
        return false;
      }
      if entries[i].itemAlign != 0 && !PowerOfTwo(entries[i].itemAlign) {
        return false;
      }
    }
    return NoDup(NamesOf(entries));
  }

  /** SchemaSection::read_from, exactly: it yields `s` if and only if `s` is a valid
      schema of `count` entries whose encoding the data starts with. */
  method ReadFrom(data: bytes, count: nat) returns (r: Option<SchemaSection>)
    ensures forall s {:trigger SchemaAt(data, count, s)} :: SchemaAt(data, count, s) <==> r == Some(s)
  {
    hide EntriesAt, EntriesOk;
    var read := ReadEntries(data, count);
    if read.None? {
      return None;
    }
    forall s {:trigger SchemaAt(data, count, s)} | SchemaAt(data, count, s) ensures s == read.value {
      EntriesUnique(data, count, s.entries, read.value.entries);
    }
    var ok := CheckEntries(read.value.entries);
    r := if ok then read else None;
  }

  lemma NextEntry(data: bytes, out: seq<SchemaEntry>, all: seq<SchemaEntry>)
    requires |out| < |all| && EntriesAt(data, |out|, out) && EntriesAt(data, |all|, all)
    ensures FieldsAt(data, |EncEntries(out)|, all[|out|])
  {
    EntriesPrefixFree();
    NextOfList(EncSchemaEntry, EntryFits, data, 0, out, all);
    EntryFieldsAt(data, |EncEntries(out)|, all[|out|]);
  }

  lemma PushEntry(data: bytes, out: seq<SchemaEntry>, e: SchemaEntry)
    requires EntriesAt(data, |out|, out) && EntryFits(e) && FieldsAt(data, |EncEntries(out)|, e)
    ensures EntriesAt(data, |out| + 1, out + [e]) && |EncEntries(out + [e])| == |EncEntries(out)| + 13 + |e.name|
  {
    hide At, Concat, EncSchemaEntry;
    EntryFieldsAt(data, |EncEntries(out)|, e);
    PartsPush(EncSchemaEntry, out, e);
    AtConcat(data, 0, EncEntries(out), EncSchemaEntry(e));
  }

  // ── What the section preserves ─────────────────────────────────────────────

  /** A schema as the flush and compaction writers can hold it: built by
      from_components from valid names and power-of-two alignments. */
  ghost predicate Writable(s: SchemaSection) {
    SchemaOk(s) && forall i :: 0 <= i < |s.entries| ==>
      EntryFits(s.entries[i]) && (s.entries[i].itemAlign == 0 || PowerOfTwo(s.entries[i].itemAlign))
  }

  lemma {:induction false} NameTableIs(entries: seq<SchemaEntry>, slots: map<Name, u16>)
    requires NoDup(NamesOf(entries)) && forall i :: 0 <= i < |entries| ==> entries[i].slot == i
    requires forall i :: 0 <= i < |entries| ==> entries[i].name in slots && slots[entries[i].name] == i
    requires forall name :: name in slots ==> slots[name] < |entries| && entries[slots[name]].name == name
    ensures slots == NameTable(entries)
  {
    if |entries| == 0 {
      assert slots.Keys == {};
    } else {
      var init, last := entries[..|entries| - 1], entries[|entries| - 1];
      assert NamesOf(entries)[..|init|] == NamesOf(init);
      assert forall i :: 0 <= i < |init| ==> NamesOf(entries)[i] != NamesOf(entries)[|init|];
      NameTableIs(init, slots - {last.name});
      assert slots == (slots - {last.name})[last.name := last.slot];
    }
  }

  /** Archetype identity survives the file: writing a schema and reading it back
      gives the same slots and names, whatever follows the section. */
  lemma SchemaRoundTrip(s: SchemaSection, data: bytes)
    requires Writable(s) && At(data, 0, EncSchema(s.entries))
    ensures SchemaAt(data, |s.entries|, s)
  {
    hide EncSchemaEntry, At, EntryFits, PowerOfTwo, EncEntries, Zeros, PadTo64;
    AtConcat(data, 0, EncEntries(s.entries), Zeros(PadTo64(|EncEntries(s.entries)|)));
    AscendingNoDup(NamesOf(s.entries));
    hide Ascending, NoDup, NameTable;
    NameTableIs(s.entries, s.slots);
  }
}
