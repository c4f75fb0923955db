/** The output schema of a compaction: one layout for every component of its
    signatures. */
module OutputSchema {
  import opened Bytes
  import opened Order
  import opened Schema
  import opened SchemaCodec
  import opened RunReader
  import opened CompactionPlan

  ghost predicate InSome(sigs: seq<Signature>, name: Name) {
    exists s :: 0 <= s < |sigs| && name in sigs[s]
  }

  /** The schema entry of the first input that knows the component. */
  function FirstLayout(inputs: seq<Reader>, name: Name): Option<SchemaEntry> {
    if |inputs| == 0 then None
    else
      var slot := inputs[0].schema.SlotFor(name);
      var entry := if slot.None? then None else inputs[0].schema.EntryFor(slot.value);
      if entry.Some? then entry else FirstLayout(inputs[1..], name)
  }

  function SafeAlign(align: u32): u32 { if align == 0 then 1 else align }

  function LayoutOf(name: Name, e: SchemaEntry): Component {
    Component(name, e.itemSize, SafeAlign(e.itemAlign), e.kind)
  }

  predicate LayoutOk(inputs: seq<Reader>, name: Name) {
    FirstLayout(inputs, name).Some? && PowerOfTwo(SafeAlign(FirstLayout(inputs, name).value.itemAlign))
  }

  /** One entry for each component of any signature, laid out as in the first input
      that knows it, in name order. */
  ghost predicate IsOutputSchema(inputs: seq<Reader>, sigs: seq<Signature>, schema: SchemaSection) {
    && SchemaOk(schema)
    && (forall name :: InSome(sigs, name) <==> name in schema.slots)
    && forall i :: 0 <= i < |schema.entries| ==>
      var e := schema.entries[i];
      LayoutOk(inputs, e.name) && e == EntryOf(i, LayoutOf(e.name, FirstLayout(inputs, e.name).value))
  }

  /** collect_all_components. */
  method CollectComponents(sigs: seq<Signature>) returns (names: seq<Name>)
    ensures Ascending(names)
    ensures forall name :: name in names <==> InSome(sigs, name)
  {
    hide NameLe, Sort;
    var seen: seq<Name> := [];
    for s := 0 to |sigs|
      invariant NoDup(seen)
      invariant forall name :: name in seen <==> exists t :: 0 <= t < s && name in sigs[t]
    {
      for i := 0 to |sigs[s]|
        invariant NoDup(seen)
        invariant forall name :: name in seen <==> (exists t :: 0 <= t < s && name in sigs[t]) || name in sigs[s][..i]
      {
        assert sigs[s][..i + 1] == sigs[s][..i] + [sigs[s][i]];
        if sigs[s][i] !in seen {
          seen := seen + [sigs[s][i]];
        }
      }
      assert sigs[s][..|sigs[s]|] == sigs[s];
    }
    SortedNamesAscend(seen);
    names := Sort(NameLe, seen);
    SameElements(names, seen);
  }

  method FindLayout(inputs: seq<Reader>, name: Name) returns (r: Option<SchemaEntry>)
    ensures r == FirstLayout(inputs, name)
  {
    var i := 0;
    while i < |inputs|
      invariant i <= |inputs| && FirstLayout(inputs, name) == FirstLayout(inputs[i..], name)
    {
      var slot := inputs[i].schema.SlotFor(name);
      assert inputs[i..][0] == inputs[i] && inputs[i..][1..] == inputs[i + 1..];
      if slot.Some? {
        var entry := inputs[i].schema.EntryFor(slot.value);
        if entry.Some? {
          return entry;
        }
      }
      i := i + 1;
    }
    return None;
  }

  /** When no output schema can be built. */
  ghost predicate NoSchema(inputs: seq<Reader>, sigs: seq<Signature>) {
    || (exists name :: InSome(sigs, name) && !LayoutOk(inputs, name))
    || exists names: seq<Name> :: NoDup(names) && |names| > ENTITY_SLOT && forall name :: name in names ==> InSome(sigs, name)
  }

  /** build_output_schema. */
  method BuildSchema(inputs: seq<Reader>, sigs: seq<Signature>) returns (r: Option<SchemaSection>)
    ensures r.Some? ==> IsOutputSchema(inputs, sigs, r.value)
    ensures r.None? ==> NoSchema(inputs, sigs)
  {
    hide PowerOfTwo, FirstLayout, NameLe, InSome;
    var names := CollectComponents(sigs);
    var components: seq<Component> := [];
    for i := 0 to |names|
      invariant |components| == i
      invariant forall j :: 0 <= j < i ==>
        LayoutOk(inputs, names[j]) && components[j] == LayoutOf(names[j], FirstLayout(inputs, names[j]).value)
    {
      var layout := FindLayout(inputs, names[i]);
      if layout.None? || !PowerOfTwo(SafeAlign(layout.value.itemAlign)) {
        assert InSome(sigs, names[i]) && !LayoutOk(inputs, names[i]);
        return None;
      }
      components := components + [LayoutOf(names[i], layout.value)];
    }
    assert NameAt(components) == names;
    r := FromComponents(components);
    AscendingNoDup(names);
    NoDupSize(names);
    if r.Some? {
      SchemaOfComponents(inputs, sigs, names, components, r.value);
    }
  }

  lemma SchemaOfComponents(inputs: seq<Reader>, sigs: seq<Signature>, names: seq<Name>, components: seq<Component>,
                           schema: SchemaSection)
    requires |components| == |names| && NameAt(components) == names
    requires forall name :: name in names <==> InSome(sigs, name)
    requires forall j :: 0 <= j < |names| ==>
      LayoutOk(inputs, names[j]) && components[j] == LayoutOf(names[j], FirstLayout(inputs, names[j]).value)
    requires SchemaOk(schema) && forall name :: name in NamesOf(schema.entries) <==> name in names
    requires forall e :: e in schema.entries ==> FirstOf(components, Component(e.name, e.itemSize, e.itemAlign, e.kind))
    ensures IsOutputSchema(inputs, sigs, schema)
  {
    hide FirstLayout, InSome, LayoutOf, PowerOfTwo;
    forall i | 0 <= i < |schema.entries|
      ensures LayoutOk(inputs, schema.entries[i].name)
      ensures schema.entries[i] == EntryOf(i, LayoutOf(schema.entries[i].name, FirstLayout(inputs, schema.entries[i].name).value))
    {
      var e := schema.entries[i];
      assert e in schema.entries;
      var j :| 0 <= j < |components| && components[j] == Component(e.name, e.itemSize, e.itemAlign, e.kind);
      assert NameAt(components)[j] == e.name;
    }
    forall name ensures InSome(sigs, name) <==> name in schema.slots {
      if name in schema.slots {
        assert NamesOf(schema.entries)[schema.slots[name]] == name;
      }
      if name in NamesOf(schema.entries) {
        var i :| 0 <= i < |schema.entries| && NamesOf(schema.entries)[i] == name;
        assert schema.entries[i].name in schema.slots;
      }
    }
  }

  // ── There is one output schema ─────────────────────────────────────────────

  lemma SchemaNames(inputs: seq<Reader>, sigs: seq<Signature>, schema: SchemaSection)
    requires IsOutputSchema(inputs, sigs, schema)
    ensures forall name :: name in NamesOf(schema.entries) <==> InSome(sigs, name)
  {
    hide LayoutOk, InSome, Ascending, FirstLayout;
    var names := NamesOf(schema.entries);
    forall name ensures name in names <==> name in schema.slots {
      if name in names {
        var i :| 0 <= i < |names| && names[i] == name;
        assert schema.entries[i].name == name;
      }
      if name in schema.slots {
        assert names[schema.slots[name]] == name;
      }
    }
  }

  /** Inputs and signatures determine the schema. */
  lemma OutputSchemaUnique(inputs: seq<Reader>, sigs: seq<Signature>, a: SchemaSection, b: SchemaSection)
    requires IsOutputSchema(inputs, sigs, a) && IsOutputSchema(inputs, sigs, b)
    ensures a == b
  {
    SchemaNames(inputs, sigs, a);
    SchemaNames(inputs, sigs, b);
    hide LayoutOk, InSome, Ascending, FirstLayout, LayoutOf;
    AscendingUnique(NamesOf(a.entries), NamesOf(b.entries));
    forall i | 0 <= i < |a.entries| ensures a.entries[i] == b.entries[i] {
      assert NamesOf(a.entries)[i] == NamesOf(b.entries)[i];
    }
    assert a.entries == b.entries;
    assert a.slots == b.slots;
  }

  /** Where there is an output schema, building it cannot fail. */
  lemma SchemaBuildable(inputs: seq<Reader>, sigs: seq<Signature>, schema: SchemaSection)
    requires IsOutputSchema(inputs, sigs, schema)
    ensures !NoSchema(inputs, sigs)
  {
    SchemaNames(inputs, sigs, schema);
    hide LayoutOk, InSome, Ascending, FirstLayout, LayoutOf;
    forall name | InSome(sigs, name) ensures LayoutOk(inputs, name) {
      assert schema.entries[schema.slots[name]].name == name;
    }
    var all := NamesOf(schema.entries);
    forall names: seq<Name> | NoDup(names) && forall name :: name in names ==> InSome(sigs, name) ensures |names| <= ENTITY_SLOT {
      NoDupSize(names);
      NoDupSize(all) by { AscendingNoDup(all); }
      SubsetSize((set name | name in names), set name | name in all);
    }
  }

  lemma NamesInOrder(sigs: seq<Signature>) returns (names: seq<Name>)
    ensures Ascending(names) && forall name :: name in names <==> InSome(sigs, name)
  {
    hide Sort, Ascending;
    var all := set s, i | 0 <= s < |sigs| && 0 <= i < |sigs[s]| :: sigs[s][i];
    var list := Listed(all);
    SortedNamesAscend(list);
    names := Sort(NameLe, list);
    SameElements(names, list);
    forall name ensures name in all <==> InSome(sigs, name) {
      if InSome(sigs, name) {
        var s :| 0 <= s < |sigs| && name in sigs[s];
        var i :| 0 <= i < |sigs[s]| && sigs[s][i] == name;
      }
    }
  }

  function SlotTable(names: seq<Name>): (slots: map<Name, u16>)
    requires NoDup(names) && |names| <= ENTITY_SLOT
    ensures forall name :: name in slots <==> name in names
    ensures forall i :: 0 <= i < |names| ==> slots[names[i]] == i
  {
    if |names| == 0 then map[]
    else
      var last := |names| - 1;
      assert names == names[..last] + [names[last]];
      SlotTable(names[..last])[names[last] := last]
  }

  /** Where building it cannot fail there is an output schema. */
  lemma OutputSchemaExists(inputs: seq<Reader>, sigs: seq<Signature>) returns (schema: SchemaSection)
    requires !NoSchema(inputs, sigs)
    ensures IsOutputSchema(inputs, sigs, schema)
  {
    var names := NamesInOrder(sigs);
    AscendingNoDup(names);
    hide FirstLayout, Ascending, InSome, LayoutOk, LayoutOf, SlotTable;
    assert forall i :: 0 <= i < |names| ==> names[i] in names;
    assert |names| <= ENTITY_SLOT;
    var entries := seq(|names|, i requires 0 <= i < |names| => EntryOf(i, LayoutOf(names[i], FirstLayout(inputs, names[i]).value)));
    schema := SchemaSection(entries, SlotTable(names));
    assert NamesOf(entries) == names;
    SchemaOfNames(inputs, sigs, names, schema);
  }

  lemma SchemaOfNames(inputs: seq<Reader>, sigs: seq<Signature>, names: seq<Name>, schema: SchemaSection)
    requires NamesOf(schema.entries) == names && Ascending(names) && |names| <= ENTITY_SLOT
    requires forall name :: name in names <==> InSome(sigs, name)
    requires forall i :: 0 <= i < |names| ==>
      LayoutOk(inputs, names[i]) && schema.entries[i] == EntryOf(i, LayoutOf(names[i], FirstLayout(inputs, names[i]).value))
    requires forall name :: name in schema.slots <==> name in names
    requires forall i :: 0 <= i < |names| ==> schema.slots[names[i]] == i
    ensures IsOutputSchema(inputs, sigs, schema)
  {
    hide FirstLayout, Ascending, InSome, LayoutOk, LayoutOf;
    forall name | name in schema.slots
      ensures schema.slots[name] < |schema.entries| && schema.entries[schema.slots[name]].name == name
    {
      var i :| 0 <= i < |names| && names[i] == name;
    }
  }
}
