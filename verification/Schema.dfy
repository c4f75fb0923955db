/** The schema section of a sorted run: component names, in order, to slots. */
module Schema {
  import opened Bytes
  import opened Order

  const ENTITY_SLOT: u16 := 0xFFFF

  datatype StorageKind = RawCopy | Serialized

  /** A component to be given a slot: name, layout and storage kind. */
  datatype Component = Component(name: Name, size: u32, align: u32, kind: StorageKind)

  datatype SchemaEntry = SchemaEntry(slot: u16, name: Name, itemSize: u32, itemAlign: u32, kind: StorageKind)

  datatype SchemaSection = SchemaSection(entries: seq<SchemaEntry>, slots: map<Name, u16>) {
    function SlotFor(name: Name): Option<u16> {
      if name in slots then Some(slots[name]) else None
    }

    function EntryFor(slot: u16): Option<SchemaEntry> {
      if slot < |entries| then Some(entries[slot]) else None
    }
  }

  function NamesOf(entries: seq<SchemaEntry>): (r: seq<Name>)
    ensures |r| == |entries| && forall i :: 0 <= i < |r| ==> r[i] == entries[i].name
  {
    seq(|entries|, i requires 0 <= i < |entries| => entries[i].name)
  }

  /** Slots number the entries, and the name table is their inverse. */
  ghost predicate Numbered(s: SchemaSection) {
    && |s.entries| <= ENTITY_SLOT
    && (forall i :: 0 <= i < |s.entries| ==> s.entries[i].slot == i)
    && (forall i :: 0 <= i < |s.entries| ==> s.entries[i].name in s.slots && s.slots[s.entries[i].name] == i)
    && (forall name :: name in s.slots ==> s.slots[name] < |s.entries| && s.entries[s.slots[name]].name == name)
  }

  /** A schema as from_components builds it: numbered, in ascending name order. */
  ghost predicate SchemaOk(s: SchemaSection) {
    Numbered(s) && Ascending(NamesOf(s.entries))
  }

  /** Slots and names are in bijection, and slot order is name order. */
  lemma SlotNameBijection(s: SchemaSection, a: u16, b: u16)
    requires SchemaOk(s)
    ensures s.EntryFor(a).Some? ==> s.SlotFor(s.EntryFor(a).value.name) == Some(a)
    ensures forall name {:trigger s.SlotFor(name)} :: s.SlotFor(name).Some? ==>
      s.EntryFor(s.SlotFor(name).value).Some? && s.EntryFor(s.SlotFor(name).value).value.name == name
    ensures a < b && s.EntryFor(b).Some? ==>
      NameLess(s.EntryFor(a).value.name, s.EntryFor(b).value.name)
  {
    var names := NamesOf(s.entries);
    if a < b && s.EntryFor(b).Some? {
      assert NameLess(names[a], names[b]);
    }
  }

  // ── Building ───────────────────────────────────────────────────────────────

  function NameAt(cs: seq<Component>): (r: seq<Name>)
    ensures |r| == |cs| && forall i :: 0 <= i < |r| ==> r[i] == cs[i].name
  {
    seq(|cs|, i requires 0 <= i < |cs| => cs[i].name)
  }

  /** The first component of that name. */
  ghost predicate FirstOf(cs: seq<Component>, c: Component) {
    exists i :: 0 <= i < |cs| && cs[i] == c && forall j :: 0 <= j < i ==> cs[j].name != c.name
  }

  predicate ComponentLe(a: Component, b: Component) { NameLe(a.name, b.name) }

  lemma ComponentOrder()
    ensures TotalOrder(ComponentLe)
  {
    NameOrder();
  }

  /** Sorted by name, without two of a name: strictly ascending names. */
  lemma SortedComponents(cs: seq<Component>)
    requires NoDup(NameAt(cs))
    ensures Ascending(NameAt(Sort(ComponentLe, cs)))
    ensures forall c :: c in Sort(ComponentLe, cs) <==> c in cs
  {
    hide NameLe, Sort;
    ComponentOrder();
    NameOrder();
    forall i, j | 0 <= i < j < |cs| ensures !(ComponentLe(cs[i], cs[j]) && ComponentLe(cs[j], cs[i])) {
      assert NameAt(cs)[i] != NameAt(cs)[j];
    }
    SortStrict(ComponentLe, cs);
    var sorted := Sort(ComponentLe, cs);
    forall i, j | 0 <= i < j < |sorted| ensures NameLess(NameAt(sorted)[i], NameAt(sorted)[j]) {
      assert !ComponentLe(sorted[j], sorted[i]);
    }
  }

  /** Keeps the first component of each name. */
  method Dedup(cs: seq<Component>) returns (seen: seq<Component>)
    ensures NoDup(NameAt(seen))
    ensures forall c :: c in seen <==> FirstOf(cs, c)
    ensures forall name :: name in NameAt(seen) <==> name in NameAt(cs)
  {
    seen := [];
    for i := 0 to |cs|
      invariant NoDup(NameAt(seen))
      invariant forall c :: c in seen <==> FirstOf(cs[..i], c)
      invariant forall name :: name in NameAt(seen) <==> name in NameAt(cs[..i])
    {
      var c := cs[i];
      assert cs[..i + 1] == cs[..i] + [c];
      FirstOfPush(cs[..i], c);
      NamesPush(cs[..i], c);
      NamesPush(seen, c);
      if c.name !in NameAt(seen) {
        seen := seen + [c];
      }
    }
    assert cs[..|cs|] == cs;
  }

  function EntryOf(slot: u16, c: Component): SchemaEntry { SchemaEntry(slot, c.name, c.size, c.align, c.kind) }

  /** Numbers sorted components from 0, refusing the reserved entity slot. */
  method Number(sorted: seq<Component>) returns (r: Option<SchemaSection>)
    requires Ascending(NameAt(sorted))
    ensures r.None? <==> |sorted| > ENTITY_SLOT
    ensures r.Some? ==> SchemaOk(r.value) && |r.value.entries| == |sorted|
    ensures r.Some? ==> forall i :: 0 <= i < |sorted| ==> r.value.entries[i] == EntryOf(i, sorted[i])
  {
    hide NameLe;
    var entries: seq<SchemaEntry> := [];
    var slots: map<Name, u16> := map[];
    for i := 0 to |sorted|
      invariant |entries| == i <= ENTITY_SLOT
      invariant forall j :: 0 <= j < i ==> entries[j] == EntryOf(j, sorted[j])
      invariant forall j :: 0 <= j < i ==> sorted[j].name in slots && slots[sorted[j].name] == j
      invariant forall name :: name in slots ==> slots[name] < i && sorted[slots[name]].name == name
    {
      if i >= ENTITY_SLOT {
        return None;
      }
      assert forall j :: 0 <= j < i ==> NameAt(sorted)[j] != NameAt(sorted)[i];
      slots := slots[sorted[i].name := i];
      entries := entries + [EntryOf(i, sorted[i])];
    }
    assert NamesOf(entries) == NameAt(sorted);
    r := Some(SchemaSection(entries, slots));
  }

  /** SchemaSection::from_components: one entry per name, laid out as the first
      component of that name. Fails exactly when there are more names than slots
      below ENTITY_SLOT. */
  method FromComponents(cs: seq<Component>) returns (r: Option<SchemaSection>)
    ensures r.None? <==> |set name | name in NameAt(cs)| > ENTITY_SLOT
    ensures r.Some? ==> SchemaOk(r.value)
    ensures r.Some? ==> forall name :: name in NamesOf(r.value.entries) <==> name in NameAt(cs)
    ensures r.Some? ==> forall e :: e in r.value.entries ==>
      FirstOf(cs, Component(e.name, e.itemSize, e.itemAlign, e.kind))
  {
    hide NameLe, Sort, FirstOf, SchemaOk;
    var seen := Dedup(cs);
    SortedComponents(seen);
    var sorted := Sort(ComponentLe, seen);
    SameElements(sorted, seen);
    SameNames(sorted, seen);
    AscendingNoDup(NameAt(sorted));
    NoDupSize(NameAt(sorted));
    assert (set name | name in NameAt(sorted)) == (set name | name in NameAt(cs));
    r := Number(sorted);
    if r.Some? {
      assert NamesOf(r.value.entries) == NameAt(sorted);
      forall e | e in r.value.entries ensures FirstOf(cs, Component(e.name, e.itemSize, e.itemAlign, e.kind)) {
        var i :| 0 <= i < |r.value.entries| && r.value.entries[i] == e;
        assert sorted[i] in seen;
      }
    }
  }

  lemma FirstOfPush(cs: seq<Component>, c: Component)
    ensures forall d :: FirstOf(cs + [c], d) <==> FirstOf(cs, d) || (d == c && c.name !in NameAt(cs))
  {
    forall d ensures FirstOf(cs + [c], d) <==> FirstOf(cs, d) || (d == c && c.name !in NameAt(cs)) {
      if FirstOf(cs, d) {
        var i :| 0 <= i < |cs| && cs[i] == d && forall j :: 0 <= j < i ==> cs[j].name != d.name;
        assert (cs + [c])[i] == d && forall j :: 0 <= j < i ==> (cs + [c])[j].name != d.name;
      }
      if d == c && c.name !in NameAt(cs) {
        forall j | 0 <= j < |cs| ensures (cs + [c])[j].name != d.name {
          assert NameAt(cs)[j] in NameAt(cs);
        }
        assert (cs + [c])[|cs|] == d;
      }
      if FirstOf(cs + [c], d) {
        var i :| 0 <= i < |cs + [c]| && (cs + [c])[i] == d && forall j :: 0 <= j < i ==> (cs + [c])[j].name != d.name;
        if i < |cs| {
          assert cs[i] == d && forall j :: 0 <= j < i ==> cs[j].name == (cs + [c])[j].name;
        } else {
          forall j | 0 <= j < |cs| ensures NameAt(cs)[j] != c.name {
            assert (cs + [c])[j].name != d.name;
          }
        }
      }
    }
  }

  lemma NamesPush(cs: seq<Component>, c: Component)
    ensures NameAt(cs + [c]) == NameAt(cs) + [c.name]
  {
  }

  lemma SameNames(a: seq<Component>, b: seq<Component>)
    requires forall c :: c in a <==> c in b
    ensures forall name :: name in NameAt(a) <==> name in NameAt(b)
  {
    forall name ensures name in NameAt(a) <==> name in NameAt(b) {
      if name in NameAt(a) {
        var i :| 0 <= i < |a| && NameAt(a)[i] == name;
        assert a[i] in b;
        var j :| 0 <= j < |b| && b[j] == a[i];
        assert NameAt(b)[j] == name;
      }
      if name in NameAt(b) {
        var i :| 0 <= i < |b| && NameAt(b)[i] == name;
        assert b[i] in a;
        var j :| 0 <= j < |a| && a[j] == b[i];
        assert NameAt(a)[j] == name;
      }
    }
  }

  lemma AscendingNoDup(names: seq<Name>)
    requires Ascending(names)
    ensures NoDup(names)
  {
  }

  lemma {:induction false} NoDupSize(names: seq<Name>)
    requires NoDup(names)
    ensures |set name | name in names| == |names|
  {
    if |names| != 0 {
      var last, init := names[|names| - 1], names[..|names| - 1];
      NoDupSize(init);
      assert names == init + [last];
      assert (set name | name in names) == (set name | name in init) + {last};
      assert last !in init;
    }
  }
}
