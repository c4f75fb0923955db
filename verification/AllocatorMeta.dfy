/** The entity allocator snapshot: generations and free list. */
module AllocatorMeta {
  import opened Bytes

  datatype Snapshot = Snapshot(generations: seq<u32>, freeList: seq<u32>)

  function EncWords(words: seq<u32>): bytes { Concat(Parts(Le32, words)) }

  function EncList(words: seq<u32>): bytes { Le(|words|, 8) + EncWords(words) }

  function EncSnapshot(s: Snapshot): bytes { EncList(s.generations) + EncList(s.freeList) }

  /** Lists whose lengths fit 64 bits, as those of vectors do. */
  predicate SnapshotFits(s: Snapshot) {
    |s.generations| < 0x1_0000_0000_0000_0000 && |s.freeList| < 0x1_0000_0000_0000_0000
  }

  predicate IsSnapshot(data: bytes, s: Snapshot) { SnapshotFits(s) && data == EncSnapshot(s) }

  method AppendWords(out: bytes, words: seq<u32>) returns (r: bytes)
    ensures r == out + EncList(words)
  {
    hide Concat, Le32;
    var head := out + Le(|words|, 8);
    r := head;
    NoWords();
    for i := 0 to |words|
      invariant r == head + EncWords(words[..i])
    {
      PartsStep(Le32, words, i);
      Assoc(head, EncWords(words[..i]), Le32(words[i]));
      r := r + Le32(words[i]);
    }
    assert words[..|words|] == words;
    Assoc(out, Le(|words|, 8), EncWords(words));
  }

  lemma NoWords()
    ensures EncWords([]) == []
  {
  }

  method Encode(s: Snapshot) returns (out: bytes)
    ensures out == EncSnapshot(s)
  {
    out := AppendWords([], s.generations);
    out := AppendWords(out, s.freeList);
  }

  // ── Reading ────────────────────────────────────────────────────────────────

  lemma WordsLength(words: seq<u32>)
    ensures |EncWords(words)| == 4 * |words|
  {
    ConcatLength(Parts(Le32, words), 4);
  }

  /** A list lies at `o`: its length, then its words. */
  predicate ListAt(data: bytes, o: nat, words: seq<u32>) {
    Read64(data, o) == Some(|words|) && At(data, o + 8, EncWords(words))
  }

  lemma ListFields(data: bytes, o: nat, words: seq<u32>)
    requires |words| < 0x1_0000_0000_0000_0000
    ensures At(data, o, EncList(words)) <==> ListAt(data, o, words)
    ensures |EncList(words)| == 8 + 4 * |words|
  {
    hide At, Le, Le64, Read64, EncWords;
    Image64(|words|);
    WordsLength(words);
    AtConcat(data, o, Le64(|words|), EncWords(words));
    Read64At(data, o, |words|);
  }

  lemma WordsUnique(data: bytes, o: nat, a: seq<u32>, b: seq<u32>)
    requires |a| == |b| && At(data, o, EncWords(a)) && At(data, o, EncWords(b))
    ensures a == b
  {
    hide At, Le32;
    assert PrefixFree(Le32, (x: u32) => true) by {
      forall d: bytes, off: nat, x: u32, y: u32 | At(d, off, Le32(x)) && At(d, off, Le32(y)) ensures x == y {
        Read32At(d, off, x);
        Read32At(d, off, y);
      }
    }
    ListUnique(Le32, (x: u32) => true, data, o, a, b);
  }

  lemma SameList(data: bytes, o: nat, a: seq<u32>, b: seq<u32>)
    requires ListAt(data, o, a) && ListAt(data, o, b)
    ensures a == b
  {
    hide EncWords, At;
    WordsUnique(data, o + 8, a, b);
  }

  /** The closure of `decode` and the count before it. */
  method ReadList(data: bytes, o: nat) returns (words: Option<seq<u32>>)
    ensures words.Some? ==> ListAt(data, o, words.value) && |words.value| < 0x1_0000_0000_0000_0000
    ensures words.None? ==> forall w {:trigger ListAt(data, o, w)} :: !ListAt(data, o, w)
  {
    forall w {:trigger ListAt(data, o, w)} | ListAt(data, o, w) ensures o + 8 + 4 * |w| <= |data| {
      WordsLength(w);
    }
    hide Le32, Concat, Read32, Read64;
    var count := Read64(data, o);
    if count.None? {
      return None;
    }
    var n: nat := count.value;
    if o + 8 + 4 * n > |data| {
      return None;
    }
    var out: seq<u32> := [];
    AtEmpty(data, o + 8);
    NoWords();
    hide At;
    for i := 0 to n
      invariant |out| == i && At(data, o + 8, EncWords(out))
    {
      WordsLength(out);
      var w := Read32(data, o + 8 + 4 * i).value;
      Read32At(data, o + 8 + 4 * i, w);
      PartsPush(Le32, out, w);
      AtConcat(data, o + 8, EncWords(out), Le32(w));
      out := out + [w];
    }
    return Some(out);
  }

  lemma SnapshotParts(data: bytes, s: Snapshot)
    requires SnapshotFits(s)
    ensures IsSnapshot(data, s) <==>
      ListAt(data, 0, s.generations) && ListAt(data, 8 + 4 * |s.generations|, s.freeList)
      && |data| == 16 + 4 * |s.generations| + 4 * |s.freeList|
  {
    hide At, ListAt, EncList;
    ListFields(data, 0, s.generations);
    ListFields(data, 8 + 4 * |s.generations|, s.freeList);
    AtConcat(data, 0, EncList(s.generations), EncList(s.freeList));
    Whole(data, EncSnapshot(s));
  }

  lemma Whole(data: bytes, s: bytes)
    ensures data == s <==> At(data, 0, s) && |data| == |s|
  {
    if At(data, 0, s) && |data| == |s| { assert data[0..|s|] == data; }
  }

  /** allocator_meta::decode accepts exactly the images of snapshots: truncated data and
      trailing bytes are always refused. */
  method Decode(data: bytes) returns (r: Option<Snapshot>)
    ensures forall s {:trigger IsSnapshot(data, s)} :: IsSnapshot(data, s) <==> r == Some(s)
  {
    forall s {:trigger IsSnapshot(data, s)} | IsSnapshot(data, s)
      ensures ListAt(data, 0, s.generations) && ListAt(data, 8 + 4 * |s.generations|, s.freeList)
        && |data| == 16 + 4 * |s.generations| + 4 * |s.freeList|
    {
      SnapshotParts(data, s);
    }
    hide IsSnapshot, ListAt;
    var generations := ReadList(data, 0);
    if generations.None? {
      return None;
    }
    var o := 8 + 4 * |generations.value|;
    forall s {:trigger IsSnapshot(data, s)} | IsSnapshot(data, s) ensures s.generations == generations.value {
      SameList(data, 0, s.generations, generations.value);
    }
    var freeList := ReadList(data, o);
    if freeList.None? {
      return None;
    }
    forall s {:trigger IsSnapshot(data, s)} | IsSnapshot(data, s) ensures s.freeList == freeList.value {
      SameList(data, o, s.freeList, freeList.value);
    }
    if o + 8 + 4 * |freeList.value| != |data| {
      return None;
    }
    var snapshot := Snapshot(generations.value, freeList.value);
    SnapshotParts(data, snapshot);
    return Some(snapshot);
  }
}
