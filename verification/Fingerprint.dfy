/** The layout fingerprint of a run: FNV-1a over a stream that determines the layouts. */
module Fingerprint {
  import opened Bytes
  import opened Bits
  import opened Order
  import opened Schema

  const FNV_PRIME: nat := 0x0000_0100_0000_01b3
  const FNV_OFFSET: u64 := 0xcbf2_9ce4_8422_2325
  const RKYV_DECODE_EPOCH: u64 := 1

  // ── FNV-1a ─────────────────────────────────────────────────────────────────

  function FnvStep(h: u64, b: u8): u64 { Xor64(h, b) * FNV_PRIME % M64 }

  function Fnv(h: u64, s: bytes): u64 {
    if |s| == 0 then h else FnvStep(Fnv(h, s[..|s| - 1]), s[|s| - 1])
  }

  method Fnv1a(h: u64, s: bytes) returns (r: u64)
    ensures r == Fnv(h, s)
  {
    hide FnvStep;
    r := h;
    for i := 0 to |s|
      invariant r == Fnv(h, s[..i])
    {
      assert s[..i + 1][..i] == s[..i];
      r := FnvStep(r, s[i]);
    }
    assert s[..|s|] == s;
  }

  lemma {:induction false} FnvAppend(h: u64, a: bytes, b: bytes)
    ensures Fnv(h, a + b) == Fnv(Fnv(h, a), b)
  {
    hide FnvStep;
    if |b| == 0 {
      assert a + b == a;
    } else {
      assert (a + b)[..|a + b| - 1] == a + b[..|b| - 1];
      FnvAppend(h, a, b[..|b| - 1]);
    }
  }

  lemma XorInjective(a: u64, b: u64, c: u64)
    requires a != b
    ensures Xor64(a, c) != Xor64(b, c) && Xor64(c, a) != Xor64(c, b)
  {
    XorTwice(a, c);
    XorTwice(b, c);
    XorSymmetric(a, c);
    XorSymmetric(b, c);
  }

  /** The prime is odd, so it has an inverse modulo 2^64. */
  const INVERSE: nat := 0xce96_5057_aff6_957b

  lemma PrimeInverse()
    ensures FNV_PRIME * INVERSE == 1 + M64 * 887285111055
  {
  }

  lemma MulInjective(x: u64, y: u64)
    requires x * FNV_PRIME % M64 == y * FNV_PRIME % M64
    ensures x == y
  {
    PrimeInverse();
    TimesInjective(x, y, FNV_PRIME, INVERSE, 887285111055);
  }

  /** Each step is injective in the state and in the byte. */
  lemma StepInjective(h: u64, g: u64, b: u8, c: u8)
    ensures h != g ==> FnvStep(h, b) != FnvStep(g, b)
    ensures b != c ==> FnvStep(h, b) != FnvStep(h, c)
  {
    hide Xor64;
    if h != g && FnvStep(h, b) == FnvStep(g, b) {
      MulInjective(Xor64(h, b), Xor64(g, b));
      XorInjective(h, g, b);
    }
    if b != c && FnvStep(h, b) == FnvStep(h, c) {
      MulInjective(Xor64(h, b), Xor64(h, c));
      XorInjective(b, c, h);
    }
  }

  lemma {:induction false} StateInjective(h: u64, g: u64, s: bytes)
    requires h != g
    ensures Fnv(h, s) != Fnv(g, s)
  {
    hide FnvStep;
    if |s| != 0 {
      StateInjective(h, g, s[..|s| - 1]);
      StepInjective(Fnv(h, s[..|s| - 1]), Fnv(g, s[..|s| - 1]), s[|s| - 1], 0);
    }
  }

  /** Streams of equal length that differ in exactly one byte have different hashes. */
  lemma OneByteChangesHash(h: u64, s: bytes, t: bytes, i: nat)
    requires |s| == |t| && i < |s| && s[i] != t[i] && forall j :: 0 <= j < |s| && j != i ==> s[j] == t[j]
    ensures Fnv(h, s) != Fnv(h, t)
  {
    hide FnvStep, Fnv;
    var tail := s[i + 1..];
    assert s == s[..i] + ([s[i]] + tail) && t == s[..i] + ([t[i]] + tail);
    HashParts(h, s[..i], s[i], tail);
    HashParts(h, s[..i], t[i], tail);
    var g := Fnv(h, s[..i]);
    StepInjective(g, g, s[i], t[i]);
    StateInjective(FnvStep(g, s[i]), FnvStep(g, t[i]), tail);
  }

  lemma HashParts(h: u64, a: bytes, b: u8, tail: bytes)
    ensures Fnv(h, a + ([b] + tail)) == Fnv(FnvStep(Fnv(h, a), b), tail)
  {
    hide FnvStep;
    FnvAppend(h, a, [b] + tail);
    FnvAppend(Fnv(h, a), [b], tail);
    assert [b][..0] == [] && [b][0] == b;
  }

  // ── The stream ─────────────────────────────────────────────────────────────

  datatype FingerprintEntry = FingerprintEntry(name: Name, nativeSize: u64, nativeAlign: u64, archivedSize: u64)

  function EncFingerprint(e: FingerprintEntry): bytes {
    (Le(|e.name|, 8) + e.name) + (Le64(e.nativeSize) + (Le64(e.nativeAlign) + Le64(e.archivedSize)))
  }

  function Stream(entries: seq<FingerprintEntry>): bytes { Concat(Parts(EncFingerprint, entries)) }

  predicate NameFits(e: FingerprintEntry) { |e.name| < M64 }

  method DecodeFingerprint(entries: seq<FingerprintEntry>) returns (h: u64)
    ensures h == Fnv(FNV_OFFSET, Le64(RKYV_DECODE_EPOCH) + Stream(entries))
  {
    hide Fnv, Le64, Concat, EncFingerprint;
    h := Fnv1a(FNV_OFFSET, Le64(RKYV_DECODE_EPOCH));
    ghost var epoch := Le64(RKYV_DECODE_EPOCH);
    assert epoch + Stream(entries[..0]) == epoch by { NoStream(); }
    for i := 0 to |entries|
      invariant h == Fnv(FNV_OFFSET, epoch + Stream(entries[..i]))
    {
      var e := entries[i];
      h := Fnv1a(h, Le(|e.name|, 8));
      h := Fnv1a(h, e.name);
      h := Fnv1a(h, Le64(e.nativeSize));
      h := Fnv1a(h, Le64(e.nativeAlign));
      h := Fnv1a(h, Le64(e.archivedSize));
      EntryHash(Fnv(FNV_OFFSET, epoch + Stream(entries[..i])), e);
      FnvAppend(FNV_OFFSET, epoch + Stream(entries[..i]), EncFingerprint(e));
      PartsStep(EncFingerprint, entries, i);
      Assoc(epoch, Stream(entries[..i]), EncFingerprint(e));
    }
    assert entries[..|entries|] == entries;
  }

  lemma NoStream()
    ensures Stream([]) == []
  {
  }

  lemma EntryHash(h: u64, e: FingerprintEntry)
    ensures Fnv(h, EncFingerprint(e)) ==
      Fnv(Fnv(Fnv(Fnv(Fnv(h, Le(|e.name|, 8)), e.name), Le64(e.nativeSize)), Le64(e.nativeAlign)), Le64(e.archivedSize))
  {
    hide Fnv, Le, Le64;
    var a, b := Le(|e.name|, 8) + e.name, Le64(e.nativeAlign) + Le64(e.archivedSize);
    FnvAppend(h, a, Le64(e.nativeSize) + b);
    FnvAppend(h, Le(|e.name|, 8), e.name);
    FnvAppend(Fnv(h, a), Le64(e.nativeSize), b);
    FnvAppend(Fnv(Fnv(h, a), Le64(e.nativeSize)), Le64(e.nativeAlign), Le64(e.archivedSize));
  }

  predicate EntryAt(data: bytes, o: nat, e: FingerprintEntry) {
    var k := o + 8 + |e.name|;
    && Read64(data, o) == Some(|e.name|) && At(data, o + 8, e.name)
    && Read64(data, k) == Some(e.nativeSize) && Read64(data, k + 8) == Some(e.nativeAlign) && Read64(data, k + 16) == Some(e.archivedSize)
  }

  lemma EntryFields(data: bytes, o: nat, e: FingerprintEntry)
    requires NameFits(e)
    ensures At(data, o, EncFingerprint(e)) <==> EntryAt(data, o, e)
    ensures |EncFingerprint(e)| == 32 + |e.name|
  {
    hide At, Read64, Le, Le64;
    assert Le64(|e.name|) == Le(|e.name|, 8) by { Image64(|e.name|); }
    var k := o + 8 + |e.name|;
    AtConcat(data, o, Le64(|e.name|) + e.name, Le64(e.nativeSize) + (Le64(e.nativeAlign) + Le64(e.archivedSize)));
    AtConcat(data, o, Le64(|e.name|), e.name);
    At3(data, k, Le64(e.nativeSize), Le64(e.nativeAlign), Le64(e.archivedSize));
    Read64At(data, o, |e.name|);
    Read64At(data, k, e.nativeSize);
    Read64At(data, k + 8, e.nativeAlign);
    Read64At(data, k + 16, e.archivedSize);
  }

  lemma FieldsUnique(data: bytes, o: nat, x: FingerprintEntry, y: FingerprintEntry)
    requires EntryAt(data, o, x) && EntryAt(data, o, y)
    ensures x == y
  {
  }

  lemma EntriesPrefixFree()
    ensures PrefixFree(EncFingerprint, NameFits)
  {
    hide At, EncFingerprint;
    forall data: bytes, off: nat, x: FingerprintEntry, y: FingerprintEntry |
      NameFits(x) && NameFits(y) && At(data, off, EncFingerprint(x)) && At(data, off, EncFingerprint(y))
      ensures x == y
    {
      EntryFields(data, off, x);
      EntryFields(data, off, y);
      FieldsUnique(data, off, x, y);
    }
  }

  ghost predicate AllFit(entries: seq<FingerprintEntry>) {
    forall i :: 0 <= i < |entries| ==> NameFits(entries[i])
  }

  /** A longer list has a longer stream. */
  lemma StreamGrows(a: seq<FingerprintEntry>, b: seq<FingerprintEntry>)
    requires |a| < |b| && a == b[..|a|] && AllFit(b)
    ensures |Stream(a)| < |Stream(b)|
  {
    hide Concat, EncFingerprint;
    var k := |a|;
    assert b == b[..k] + b[k..] && b[k..] == [b[k]] + b[k + 1..];
    PartsAppend(EncFingerprint, b[..k], b[k..]);
    PartsAppend(EncFingerprint, [b[k]], b[k + 1..]);
    PartsPush(EncFingerprint, [], b[k]);
    assert [] + [b[k]] == [b[k]];
    EntryFields([], 0, b[k]);
  }

  lemma StreamPrefix(a: seq<FingerprintEntry>, b: seq<FingerprintEntry>)
    requires |a| <= |b| && AllFit(a) && AllFit(b) && Stream(a) == Stream(b)
    ensures a == b
  {
    hide At, Concat, EncFingerprint, NameFits;
    EntriesPrefixFree();
    var s, k := Stream(b), |a|;
    WholeIsAt(s);
    assert b == b[..k] + b[k..];
    PartsAppend(EncFingerprint, b[..k], b[k..]);
    AtConcat(s, 0, Stream(b[..k]), Stream(b[k..]));
    ListUnique(EncFingerprint, NameFits, s, 0, a, b[..k]);
    if k < |b| {
      StreamGrows(a, b);
    }
  }

  lemma WholeIsAt(s: bytes)
    ensures At(s, 0, s)
  {
    assert s[0..|s|] == s;
  }

  /** The stream that is hashed determines the layouts. */
  lemma StreamInjective(a: seq<FingerprintEntry>, b: seq<FingerprintEntry>)
    requires AllFit(a) && AllFit(b) && Stream(a) == Stream(b)
    ensures a == b
  {
    if |a| <= |b| {
      StreamPrefix(a, b);
    } else {
      StreamPrefix(b, a);
    }
  }

  // ── The fingerprint of a run ───────────────────────────────────────────────

  datatype NativeLayout = NativeLayout(size: u64, align: u64, archived: u64)

  predicate EntryLe(a: FingerprintEntry, b: FingerprintEntry) { NameLe(a.name, b.name) }

  /** The entries hashed for a schema: one for each serialized component, resolved by
      name; nothing when one is not registered. */
  function EntriesOf(entries: seq<SchemaEntry>, codecs: map<Name, NativeLayout>): Option<seq<FingerprintEntry>> {
    if |entries| == 0 then Some([])
    else
      var init, last := EntriesOf(entries[..|entries| - 1], codecs), entries[|entries| - 1];
      if init.None? || last.kind.RawCopy? then init
      else if last.name !in codecs then None
      else
        var l := codecs[last.name];
        Some(init.value + [FingerprintEntry(last.name, l.size, l.align, l.archived)])
  }

  method RunFingerprint(schema: SchemaSection, codecs: map<Name, NativeLayout>) returns (h: u64)
    ensures h == RunHash(schema.entries, codecs)
  {
    hide Sort, Fnv;
    var out: seq<FingerprintEntry> := [];
    for i := 0 to |schema.entries|
      invariant EntriesOf(schema.entries[..i], codecs) == Some(out)
    {
      assert schema.entries[..i + 1][..i] == schema.entries[..i];
      var e := schema.entries[i];
      if e.kind.Serialized? {
        if e.name !in codecs {
          Unresolved(schema.entries, codecs, i);
          return 0;
        }
        var l := codecs[e.name];
        out := out + [FingerprintEntry(e.name, l.size, l.align, l.archived)];
      }
    }
    assert schema.entries[..|schema.entries|] == schema.entries;
    h := DecodeFingerprint(Sort(EntryLe, out));
  }

  function RunHash(entries: seq<SchemaEntry>, codecs: map<Name, NativeLayout>): u64 {
    var resolved := EntriesOf(entries, codecs);
    if resolved.None? then 0
    else Fnv(FNV_OFFSET, Le64(RKYV_DECODE_EPOCH) + Stream(Sort(EntryLe, resolved.value)))
  }

  lemma {:induction false} Unresolved(entries: seq<SchemaEntry>, codecs: map<Name, NativeLayout>, i: nat)
    requires i < |entries| && entries[i].kind.Serialized? && entries[i].name !in codecs
    ensures EntriesOf(entries, codecs).None?
  {
    if i < |entries| - 1 {
      assert entries[..|entries| - 1][i] == entries[i];
      Unresolved(entries[..|entries| - 1], codecs, i);
    }
  }

  // ── What the fingerprint of a run stands for ───────────────────────────────

  /** The component is stored serialized. */
  predicate IsSerialized(entries: seq<SchemaEntry>, name: Name) {
    exists k :: 0 <= k < |entries| && entries[k].name == name && entries[k].kind.Serialized?
  }

  ghost predicate AllRegistered(entries: seq<SchemaEntry>, codecs: map<Name, NativeLayout>) {
    forall name :: IsSerialized(entries, name) ==> name in codecs
  }

  /** Component names that are there once each, as in every schema, and have lengths. */
  predicate NamesOk(entries: seq<SchemaEntry>) {
    (forall i, j :: 0 <= i < j < |entries| ==> entries[i].name != entries[j].name)
    && forall k :: 0 <= k < |entries| ==> |entries[k].name| < M64
  }

  predicate LayoutIs(e: FingerprintEntry, l: NativeLayout) {
    e.nativeSize == l.size && e.nativeAlign == l.align && e.archivedSize == l.archived
  }

  lemma SerializedPush(entries: seq<SchemaEntry>, name: Name)
    requires |entries| > 0
    ensures
      var init, last := entries[..|entries| - 1], entries[|entries| - 1];
      IsSerialized(entries, name) <==> IsSerialized(init, name) || (last.name == name && last.kind.Serialized?)
  {
    var init, last := entries[..|entries| - 1], entries[|entries| - 1];
    if k :| 0 <= k < |entries| && entries[k].name == name && entries[k].kind.Serialized? {
      if k < |init| { assert init[k] == entries[k]; }
    }
    if IsSerialized(init, name) {
      var k :| 0 <= k < |init| && init[k].name == name && init[k].kind.Serialized?;
      assert entries[k] == init[k];
    }
    if last.name == name && last.kind.Serialized? { assert entries[|entries| - 1] == last; }
  }

  /** Where every serialized component is registered, what is hashed is one entry for each of
      them, with its registered layout. */
  lemma {:induction false} EntriesAre(entries: seq<SchemaEntry>, codecs: map<Name, NativeLayout>)
    requires AllRegistered(entries, codecs) && NamesOk(entries)
    ensures EntriesOf(entries, codecs).Some?
    ensures
      var es := EntriesOf(entries, codecs).value;
      && (forall i :: 0 <= i < |es| ==>
        IsSerialized(entries, es[i].name) && es[i].name in codecs && LayoutIs(es[i], codecs[es[i].name]) && NameFits(es[i]))
      && (forall name :: IsSerialized(entries, name) ==> exists i :: 0 <= i < |es| && es[i].name == name)
      && forall i, j :: 0 <= i < j < |es| ==> es[i].name != es[j].name
  {
    hide IsSerialized;
    if |entries| == 0 {
      NoneSerialized();
    } else {
      var init, last := entries[..|entries| - 1], entries[|entries| - 1];
      forall name ensures
        IsSerialized(entries, name) <==> IsSerialized(init, name) || (last.name == name && last.kind.Serialized?)
      {
        SerializedPush(entries, name);
      }
      EntriesAre(init, codecs);
      LastIsNew(entries);
      var before, es := EntriesOf(init, codecs).value, EntriesOf(entries, codecs).value;
      forall name | IsSerialized(entries, name) ensures exists i :: 0 <= i < |es| && es[i].name == name {
        if IsSerialized(init, name) {
          var i :| 0 <= i < |before| && before[i].name == name;
          assert es[i] == before[i];
        } else {
          assert es[|es| - 1].name == name;
        }
      }
    }
  }

  lemma NoneSerialized()
    ensures forall name :: !IsSerialized([], name)
  {
  }

  lemma LastIsNew(entries: seq<SchemaEntry>)
    requires |entries| > 0 && NamesOk(entries)
    ensures !IsSerialized(entries[..|entries| - 1], entries[|entries| - 1].name)
  {
  }

  function SortedNames(es: seq<FingerprintEntry>): (r: seq<Name>)
    ensures |r| == |es| && forall i :: 0 <= i < |r| ==> r[i] == es[i].name
  {
    seq(|es|, i requires 0 <= i < |es| => es[i].name)
  }

  lemma EntryOrder()
    ensures TotalOrder(EntryLe)
  {
    NameOrder();
    hide NameLe;
  }

  /** Entries of distinct names come out in name order. */
  lemma SortedEntries(es: seq<FingerprintEntry>)
    requires forall i, j :: 0 <= i < j < |es| ==> es[i].name != es[j].name
    ensures Ascending(SortedNames(Sort(EntryLe, es))) && |Sort(EntryLe, es)| == |es|
    ensures forall e :: e in Sort(EntryLe, es) <==> e in es
  {
    NameOrder();
    EntryOrder();
    hide NameLe, Sort;
    forall i, j | 0 <= i < j < |es| ensures !(EntryLe(es[i], es[j]) && EntryLe(es[j], es[i])) {
    }
    SortStrict(EntryLe, es);
    var sorted := Sort(EntryLe, es);
    forall i, j | 0 <= i < j < |sorted| ensures NameLess(sorted[i].name, sorted[j].name) {
      assert !EntryLe(sorted[j], sorted[i]);
    }
  }

  /** What the fingerprint of a run hashes, behind the epoch. */
  function RunStream(entries: seq<SchemaEntry>, codecs: map<Name, NativeLayout>): bytes
    requires EntriesOf(entries, codecs).Some?
  {
    Stream(Sort(EntryLe, EntriesOf(entries, codecs).value))
  }

  ghost predicate SameSerialized(a: seq<SchemaEntry>, x: map<Name, NativeLayout>, b: seq<SchemaEntry>, y: map<Name, NativeLayout>)
    requires AllRegistered(a, x) && AllRegistered(b, y)
  {
    && (forall name :: IsSerialized(a, name) <==> IsSerialized(b, name))
    && forall name :: IsSerialized(a, name) && IsSerialized(b, name) ==> x[name] == y[name]
  }

  /** One entry for each serialized component, with its registered layout, in name order. */
  ghost predicate InNameOrder(entries: seq<SchemaEntry>, codecs: map<Name, NativeLayout>, sorted: seq<FingerprintEntry>) {
    && Ascending(SortedNames(sorted)) && AllFit(sorted)
    && (forall name :: name in SortedNames(sorted) <==> IsSerialized(entries, name))
    && forall i :: 0 <= i < |sorted| ==> sorted[i].name in codecs && LayoutIs(sorted[i], codecs[sorted[i].name])
  }

  /** The entries hashed. */
  lemma SortedAre(entries: seq<SchemaEntry>, codecs: map<Name, NativeLayout>) returns (sorted: seq<FingerprintEntry>)
    requires AllRegistered(entries, codecs) && NamesOk(entries)
    ensures EntriesOf(entries, codecs).Some? && RunStream(entries, codecs) == Stream(sorted)
    ensures InNameOrder(entries, codecs, sorted)
  {
    EntriesAre(entries, codecs);
    var es := EntriesOf(entries, codecs).value;
    SortedEntries(es);
    sorted := Sort(EntryLe, es);
    hide IsSerialized, Sort, EntriesOf, Ascending, Stream, LayoutIs, NamesOk, AllRegistered, NameFits;
    assert AllFit(sorted) by { FitsMembers(es, sorted); }
    LayoutsMembers(codecs, es, sorted);
    forall name ensures name in SortedNames(sorted) <==> IsSerialized(entries, name) {
      SortedName(entries, es, sorted, name);
    }
  }

  lemma FitsMembers(es: seq<FingerprintEntry>, sorted: seq<FingerprintEntry>)
    requires (forall e :: e in sorted <==> e in es) && AllFit(es)
    ensures AllFit(sorted)
  {
    hide NameFits;
    forall i | 0 <= i < |sorted| ensures NameFits(sorted[i]) {
      assert sorted[i] in es;
    }
  }

  lemma LayoutsMembers(codecs: map<Name, NativeLayout>, es: seq<FingerprintEntry>, sorted: seq<FingerprintEntry>)
    requires forall e :: e in sorted <==> e in es
    requires forall i :: 0 <= i < |es| ==> es[i].name in codecs && LayoutIs(es[i], codecs[es[i].name])
    ensures forall i :: 0 <= i < |sorted| ==> sorted[i].name in codecs && LayoutIs(sorted[i], codecs[sorted[i].name])
  {
    hide LayoutIs;
    forall i | 0 <= i < |sorted| ensures sorted[i].name in codecs && LayoutIs(sorted[i], codecs[sorted[i].name]) {
      assert sorted[i] in es;
    }
  }

  lemma SortedName(entries: seq<SchemaEntry>, es: seq<FingerprintEntry>, sorted: seq<FingerprintEntry>, name: Name)
    requires forall e :: e in sorted <==> e in es
    requires forall i :: 0 <= i < |es| ==> IsSerialized(entries, es[i].name)
    requires IsSerialized(entries, name) ==> exists i :: 0 <= i < |es| && es[i].name == name
    ensures name in SortedNames(sorted) <==> IsSerialized(entries, name)
  {
    hide IsSerialized;
    if IsSerialized(entries, name) {
      var i :| 0 <= i < |es| && es[i].name == name;
      assert es[i] in sorted;
      var k :| 0 <= k < |sorted| && sorted[k] == es[i];
      assert SortedNames(sorted)[k] == name;
    }
    if name in SortedNames(sorted) {
      var k :| 0 <= k < |sorted| && SortedNames(sorted)[k] == name;
      assert sorted[k] in es;
    }
  }

  lemma SameList(a: seq<SchemaEntry>, x: map<Name, NativeLayout>, b: seq<SchemaEntry>, y: map<Name, NativeLayout>,
                 s: seq<FingerprintEntry>, t: seq<FingerprintEntry>)
    requires AllRegistered(a, x) && AllRegistered(b, y) && InNameOrder(a, x, s) && InNameOrder(b, y, t)
    ensures s == t <==> SameSerialized(a, x, b, y)
  {
    hide IsSerialized, Ascending, AllRegistered, AllFit;
    if s == t {
      forall name | IsSerialized(a, name) && IsSerialized(b, name) ensures x[name] == y[name] {
        assert name in SortedNames(s);
        var k :| 0 <= k < |s| && SortedNames(s)[k] == name;
      }
    }
    if SameSerialized(a, x, b, y) {
      AscendingUnique(SortedNames(s), SortedNames(t));
      forall i | 0 <= i < |s| ensures s[i] == t[i] {
        assert SortedNames(s)[i] == SortedNames(t)[i] && SortedNames(s)[i] in SortedNames(s);
      }
    }
  }

  /** Two runs hash the same stream if and only if they have the same serialized components
      and their binaries register the same size, alignment and archived size for each. Raw
      components do not matter, nor the order of the schema, nor what else is registered. */
  lemma RunStreamIff(a: seq<SchemaEntry>, x: map<Name, NativeLayout>, b: seq<SchemaEntry>, y: map<Name, NativeLayout>)
    requires NamesOk(a) && NamesOk(b) && AllRegistered(a, x) && AllRegistered(b, y)
    ensures EntriesOf(a, x).Some? && EntriesOf(b, y).Some?
    ensures RunStream(a, x) == RunStream(b, y) <==> SameSerialized(a, x, b, y)
  {
    hide EntriesOf, RunStream, IsSerialized, Stream, Ascending, SameSerialized, AllRegistered, NamesOk;
    var s := SortedAre(a, x);
    var t := SortedAre(b, y);
    SameList(a, x, b, y, s, t);
    if Stream(s) == Stream(t) {
      StreamInjective(s, t);
    }
  }

  /** A run with a serialized component that is not registered has fingerprint 0, and any other
      the hash of its stream behind the epoch. */
  lemma RunHashIs(entries: seq<SchemaEntry>, codecs: map<Name, NativeLayout>)
    requires NamesOk(entries)
    ensures AllRegistered(entries, codecs) ==> EntriesOf(entries, codecs).Some?
    ensures AllRegistered(entries, codecs) ==>
      RunHash(entries, codecs) == Fnv(FNV_OFFSET, Le64(RKYV_DECODE_EPOCH) + RunStream(entries, codecs))
    ensures !AllRegistered(entries, codecs) ==> RunHash(entries, codecs) == 0
  {
    hide Fnv, Sort, Stream;
    if AllRegistered(entries, codecs) {
      EntriesAre(entries, codecs);
    } else {
      var name :| IsSerialized(entries, name) && name !in codecs;
      var k :| 0 <= k < |entries| && entries[k].name == name && entries[k].kind.Serialized?;
      Unresolved(entries, codecs, k);
    }
  }

  /** Two epochs that differ in their low byte give different fingerprints to one stream. */
  lemma EpochChangesHash(e: u64, f: u64, stream: bytes)
    requires e / 0x100 == f / 0x100 && e != f
    ensures Fnv(FNV_OFFSET, Le64(e) + stream) != Fnv(FNV_OFFSET, Le64(f) + stream)
  {
    var s, t := Le64(e) + stream, Le64(f) + stream;
    assert Le64(e) == [e % 0x100] + Le(e / 0x100, 7) && Le64(f) == [f % 0x100] + Le(f / 0x100, 7);
    hide Fnv, Le, Le64;
    assert s[0] == e % 0x100 && t[0] == f % 0x100 && s[1..] == t[1..];
    assert forall j :: 1 <= j < |s| ==> s[j] == s[1..][j - 1] && t[j] == t[1..][j - 1];
    OneByteChangesHash(FNV_OFFSET, s, t, 0);
  }

  // ── Every number counts ────────────────────────────────────────────────────

  /** The three numbers of a layout. */
  function LayoutBytes(l: NativeLayout): (s: bytes)
    ensures |s| == 24
  {
    Le64(l.size) + (Le64(l.align) + Le64(l.archived))
  }

  lemma EntryBytes(e: FingerprintEntry, l: NativeLayout)
    requires LayoutIs(e, l)
    ensures EncFingerprint(e) == (Le(|e.name|, 8) + e.name) + LayoutBytes(l)
  {
  }

  lemma OffInside(pre: bytes, s: bytes, t: bytes, post: bytes, i: nat)
    requires OneByteOff(s, t, i)
    ensures OneByteOff(pre + s + post, pre + t + post, |pre| + i)
  {
  }

  lemma StreamAround(s: seq<FingerprintEntry>, k: nat)
    requires k < |s|
    ensures Stream(s) == Stream(s[..k]) + EncFingerprint(s[k]) + Stream(s[k + 1..])
  {
    hide EncFingerprint;
    PartsStep(EncFingerprint, s, k);
    assert s == s[..k + 1] + s[k + 1..];
    PartsAppend(EncFingerprint, s[..k + 1], s[k + 1..]);
  }

  lemma OneEntryOff(s: seq<FingerprintEntry>, t: seq<FingerprintEntry>, k: nat, l: NativeLayout, m: NativeLayout, i: nat)
    returns (at: nat)
    requires k < |s| == |t| && s[..k] == t[..k] && s[k + 1..] == t[k + 1..] && s[k].name == t[k].name
    requires LayoutIs(s[k], l) && LayoutIs(t[k], m) && OneByteOff(LayoutBytes(l), LayoutBytes(m), i)
    ensures OneByteOff(Stream(s), Stream(t), at)
  {
    hide EncFingerprint, Stream, LayoutBytes, OneByteOff, Le;
    StreamAround(s, k);
    StreamAround(t, k);
    EntryBytes(s[k], l);
    EntryBytes(t[k], m);
    var head := Le(|s[k].name|, 8) + s[k].name;
    NoTail(head + LayoutBytes(l));
    NoTail(head + LayoutBytes(m));
    OffInside(head, LayoutBytes(l), LayoutBytes(m), [], i);
    OffInside(Stream(s[..k]), EncFingerprint(s[k]), EncFingerprint(t[k]), Stream(s[k + 1..]), |head| + i);
    at := |Stream(s[..k])| + (|head| + i);
  }

  lemma NoTail(s: bytes)
    ensures s + [] == s
  {
  }

  /** With one layout replaced, one entry differs. */
  lemma OneEntryReplaced(entries: seq<SchemaEntry>, x: map<Name, NativeLayout>, name: Name, l: NativeLayout,
                         s: seq<FingerprintEntry>, t: seq<FingerprintEntry>) returns (k: nat)
    requires IsSerialized(entries, name) && InNameOrder(entries, x, s) && InNameOrder(entries, x[name := l], t)
    ensures k < |s| == |t| && s[..k] == t[..k] && s[k + 1..] == t[k + 1..] && s[k].name == t[k].name
    ensures name in x && LayoutIs(s[k], x[name]) && LayoutIs(t[k], l)
  {
    hide IsSerialized, Ascending, AllFit;
    AscendingUnique(SortedNames(s), SortedNames(t));
    assert name in SortedNames(s);
    k :| 0 <= k < |s| && SortedNames(s)[k] == name;
    NamesApart(SortedNames(s), k);
    forall j | 0 <= j < |s| && j != k ensures s[j] == t[j] {
      assert SortedNames(s)[j] == SortedNames(t)[j] != name;
    }
    assert SortedNames(t)[k] == name;
  }

  /** Binaries that differ in one byte of the size, the alignment or the archived size of one
      serialized component give its runs different fingerprints. */
  lemma EveryNumberCounts(entries: seq<SchemaEntry>, x: map<Name, NativeLayout>, name: Name, l: NativeLayout, i: nat)
    requires NamesOk(entries) && AllRegistered(entries, x) && IsSerialized(entries, name)
    requires OneByteOff(LayoutBytes(x[name]), LayoutBytes(l), i)
    ensures RunHash(entries, x) != RunHash(entries, x[name := l])
  {
    var y := x[name := l];
    assert AllRegistered(entries, y);
    hide RunHash, EntriesOf, RunStream, IsSerialized, Stream, AllRegistered, NamesOk, LayoutBytes, OneByteOff, Fnv, InNameOrder;
    RunHashIs(entries, x);
    RunHashIs(entries, y);
    var s := SortedAre(entries, x);
    var t := SortedAre(entries, y);
    var k := OneEntryReplaced(entries, x, name, l, s, t);
    var at := OneEntryOff(s, t, k, x[name], l, i);
    StreamHash(Stream(s), Stream(t), at);
  }

  lemma NamesApart(names: seq<Name>, k: nat)
    requires Ascending(names) && k < |names|
    ensures forall j :: 0 <= j < |names| && j != k ==> names[j] != names[k]
  {
    hide NameLe;
    forall j | 0 <= j < |names| && j != k ensures names[j] != names[k] {
      if j < k { assert NameLess(names[j], names[k]); } else { assert NameLess(names[k], names[j]); }
    }
  }

  lemma StreamHash(s: bytes, t: bytes, at: nat)
    requires OneByteOff(s, t, at)
    ensures Fnv(FNV_OFFSET, Le64(RKYV_DECODE_EPOCH) + s) != Fnv(FNV_OFFSET, Le64(RKYV_DECODE_EPOCH) + t)
  {
    var epoch := Le64(RKYV_DECODE_EPOCH);
    hide Fnv, Le64, OneByteOff;
    OffInside(epoch, s, t, [], at);
    NoTail(epoch + s);
    NoTail(epoch + t);
    OffChangesHash(epoch + s, epoch + t, 8 + at);
  }

  lemma OffChangesHash(s: bytes, t: bytes, i: nat)
    requires OneByteOff(s, t, i)
    ensures Fnv(FNV_OFFSET, s) != Fnv(FNV_OFFSET, t)
  {
    hide Fnv;
    OneByteChangesHash(FNV_OFFSET, s, t, i);
  }
}
