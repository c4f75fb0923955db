/** Archetype identity across runs: each run numbers archetypes and slots its own way,
    and an archetype is known by the names of its components. */
module Archetypes {
  import opened Bytes
  import opened Order
  import opened Schema
  import opened RunFormat
  import opened RunReader

  /** The names of slots, or nothing when the schema lacks one of them. */
  function NamesOfSlots(schema: SchemaSection, slots: seq<u16>): (r: Option<seq<Name>>)
    ensures r.Some? ==> |r.value| == |slots|
    ensures r.Some? ==> forall i :: 0 <= i < |slots| ==> slots[i] < |schema.entries| && r.value[i] == schema.entries[slots[i]].name
    ensures r.None? ==> exists i :: 0 <= i < |slots| && slots[i] >= |schema.entries|
  {
    if |slots| == 0 then Some([])
    else
      var last := slots[|slots| - 1];
      var init := NamesOfSlots(schema, slots[..|slots| - 1]);
      if init.None? || last >= |schema.entries| then None else Some(init.value + [schema.entries[last].name])
  }

  /** The component names of an archetype; nothing when it is malformed. */
  function SigOf(r: Reader, arch: u16): Option<Signature> {
    NamesOfSlots(r.schema, ComponentSlots(r, arch))
  }

  /** The first archetype of the run with exactly these components. */
  ghost predicate IsArchOf(r: Reader, sig: Signature, found: Option<u16>) {
    match found
    case Some(a) => a in ArchetypeIds(r) && SigOf(r, a) == Some(sig)
      && forall b :: b in ArchetypeIds(r) && b < a ==> SigOf(r, b) != Some(sig)
    case None => forall b :: b in ArchetypeIds(r) ==> SigOf(r, b) != Some(sig)
  }

  /** The loop over an archetype's slots; nothing when it is malformed. */
  method CollectNames(schema: SchemaSection, slots: seq<u16>) returns (names: Option<seq<Name>>)
    ensures names == NamesOfSlots(schema, slots)
  {
    var out: seq<Name> := [];
    for i := 0 to |slots|
      invariant NamesOfSlots(schema, slots[..i]) == Some(out)
    {
      assert slots[..i + 1][..i] == slots[..i];
      var entry := schema.EntryFor(slots[i]);
      if entry.None? {
        MalformedPrefix(schema, slots, i);
        return None;
      }
      out := out + [entry.value.name];
    }
    assert slots[..|slots|] == slots;
    return Some(out);
  }

  lemma MalformedPrefix(schema: SchemaSection, slots: seq<u16>, i: nat)
    requires i < |slots| && slots[i] >= |schema.entries|
    ensures NamesOfSlots(schema, slots).None?
  {
  }

  lemma IdsAscend(r: Reader)
    ensures AscendingIds(ArchetypeIds(r))
  {
  }

  /** find_archetype_by_components. */
  method FindArchetype(r: Reader, components: Signature) returns (found: Option<u16>)
    ensures IsArchOf(r, components, found)
  {
    hide NamesOfSlots, ArchetypeIds, ComponentSlots;
    var ids := ArchetypeIds(r);
    IdsAscend(r);
    for i := 0 to |ids|
      invariant forall j :: 0 <= j < i ==> SigOf(r, ids[j]) != Some(components)
    {
      var names := CollectNames(r.schema, ComponentSlots(r, ids[i]));
      if names == Some(components) {
        forall b | b in ids && b < ids[i] ensures SigOf(r, b) != Some(components) {
          var j :| 0 <= j < |ids| && ids[j] == b;
        }
        return Some(ids[i]);
      }
    }
    return None;
  }

  // ── Identity by component set ──────────────────────────────────────────────

  /** The names of ascending slots ascend. */
  lemma NamesAscend(schema: SchemaSection, slots: seq<u16>)
    requires SchemaOk(schema) && AscendingIds(slots) && NamesOfSlots(schema, slots).Some?
    ensures Ascending(NamesOfSlots(schema, slots).value)
  {
    hide NameLe, NamesOfSlots;
    var names, all := NamesOfSlots(schema, slots).value, NamesOf(schema.entries);
    forall i, j | 0 <= i < j < |names| ensures NameLess(names[i], names[j]) {
      assert slots[i] < slots[j];
      assert NameLess(all[slots[i]], all[slots[j]]);
    }
  }

  lemma SigAscends(r: Reader, arch: u16)
    requires SchemaOk(r.schema) && SigOf(r, arch).Some?
    ensures Ascending(SigOf(r, arch).value)
  {
    hide NamesOfSlots;
    NamesAscend(r.schema, ComponentSlots(r, arch));
  }

  /** `name` is a component of the archetype: some page of it lies under the name's slot. */
  ghost predicate HasComponent(r: Reader, arch: u16, name: Name) {
    exists e :: e in r.index && e.key.arch == arch && r.schema.SlotFor(name) == Some(e.key.slot)
  }

  lemma SigMembers(r: Reader, arch: u16, name: Name)
    requires SchemaOk(r.schema) && SigOf(r, arch).Some?
    ensures name in SigOf(r, arch).value <==> HasComponent(r, arch, name)
  {
    hide NamesOfSlots, ComponentSlots;
    var slots, names := ComponentSlots(r, arch), SigOf(r, arch).value;
    if name in names {
      var i :| 0 <= i < |names| && names[i] == name;
      ComponentSlotsAre(r, arch, slots[i]);
    }
    if HasComponent(r, arch, name) {
      var slot := r.schema.SlotFor(name).value;
      ComponentSlotsAre(r, arch, slot);
      var i :| 0 <= i < |slots| && slots[i] == slot;
      assert names[i] == name;
    }
  }

  /** Identity is the component set: whatever the run's own numbering, the archetype
      found for an ascending list is one whose components are exactly those of the
      list, and none is found only when no well-formed archetype has that set. */
  lemma FoundBySet(r: Reader, components: Signature, found: Option<u16>)
    requires SchemaOk(r.schema) && Ascending(components) && IsArchOf(r, components, found)
    ensures found.Some? ==> forall name :: name in components <==> HasComponent(r, found.value, name)
    ensures found.None? ==> forall a :: a in ArchetypeIds(r) && SigOf(r, a).Some? ==>
      exists name :: !(name in components <==> HasComponent(r, a, name))
  {
    hide SigOf, HasComponent, ArchetypeIds, SchemaOk;
    if found.Some? {
      forall name ensures name in components <==> HasComponent(r, found.value, name) {
        SigMembers(r, found.value, name);
      }
    } else {
      forall a | a in ArchetypeIds(r) && SigOf(r, a).Some?
        ensures exists name :: !(name in components <==> HasComponent(r, a, name))
      {
        SigAscends(r, a);
        var sig := SigOf(r, a).value;
        if forall name :: name in components <==> name in sig {
          AscendingUnique(components, sig);
        }
        var name :| !(name in components <==> name in sig);
        SigMembers(r, a, name);
      }
    }
  }
}
