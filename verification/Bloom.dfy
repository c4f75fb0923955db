/** Cache-line-blocked bloom filter over page keys: eight 64-bit words a block, one
    bit a word for each key. */
module Bloom {
  import opened Bytes
  import opened Bits

  const BITS_PER_KEY: nat := 10
  const BLOCK_BITS: nat := 512
  const BLOCK_BYTES: nat := 64
  const WORDS: nat := 8

  type Block = b: seq<u64> | |b| == WORDS witness [0, 0, 0, 0, 0, 0, 0, 0]

  // ── Bits of a word ─────────────────────────────────────────────────────────

  /** `w & (1 << b) != 0` */
  predicate TestBit(w: nat, b: nat) {
    if b == 0 then w % 2 == 1 else TestBit(w / 2, b - 1)
  }

  /** `w | (1 << b)` */
  function SetBit(w: nat, b: nat): nat {
    if b == 0 then w / 2 * 2 + 1 else SetBit(w / 2, b - 1) * 2 + w % 2
  }

  lemma {:induction false} SetBitBound(w: nat, b: nat, k: nat)
    requires w < Pow2(k) && b < k
    ensures SetBit(w, b) < Pow2(k)
  {
    var half := Pow2(k - 1);
    HalfBound(w, half);
    if b != 0 { SetBitBound(w / 2, b - 1, k - 1); }
    DoubleBound(if b == 0 then w / 2 else SetBit(w / 2, b - 1), if b == 0 then 1 else w % 2, half);
  }

  lemma HalfBound(w: nat, p: nat)
    requires w < 2 * p
    ensures w / 2 < p
  {
  }

  lemma DoubleBound(x: nat, bit: nat, p: nat)
    requires x < p && bit < 2
    ensures x * 2 + bit < 2 * p
  {
  }

  /** Setting a bit sets it and leaves every bit that was set. */
  lemma {:induction false} SetBitTests(w: nat, b: nat, c: nat)
    ensures TestBit(SetBit(w, b), b)
    ensures TestBit(w, c) ==> TestBit(SetBit(w, b), c)
  {
    if b != 0 {
      assert SetBit(w, b) / 2 == SetBit(w / 2, b - 1);
      SetBitTests(w / 2, b - 1, if c == 0 then 0 else c - 1);
    }
  }

  function SetBit64(w: u64, b: nat): u64
    requires b < 64
  {
    Pow2Values();
    SetBitBound(w, b, 64);
    SetBit(w, b)
  }

  // ── Hashing ────────────────────────────────────────────────────────────────

  function SplitMix64(state: u64): u64 {
    var z0: u64 := (state + 0x9e37_79b9_7f4a_7c15) % M64;
    var z1: u64 := (Xor64(z0, z0 / 0x4000_0000) * 0xbf58_476d_1ce4_e5b9) % M64;
    var z2: u64 := (Xor64(z1, z1 / 0x800_0000) * 0x94d0_49bb_1331_1177) % M64;
    Xor64(z2, z2 / 0x8000_0000)
  }

  lemma ShiftsAre()
    ensures Pow2(30) == 0x4000_0000 && Pow2(27) == 0x800_0000 && Pow2(31) == 0x8000_0000
  {
    assert Pow2(0) == 1 && Pow2(1) == 2 && Pow2(2) == 4 && Pow2(3) == 8;
    hide Pow2;
    Pow2By4(3);
    Pow2By4(7);
    Pow2By16(11);
    Pow2By16(14);
    Pow2By4(2);
    Pow2By4(6);
    Pow2By4(10);
    Pow2By16(15);
    Pow2By4(11);
  }

  lemma InversesAre()
    ensures 0xbf58_476d_1ce4_e5b9 * 0x96de_1b17_3f11_9089 == 1 + M64 * 8125545580553827436
    ensures 0x94d0_49bb_1331_1177 * 0xa7f1_021d_9287_1847 == 1 + M64 * 7034615373483423214
  {
  }

  /** One round of the hash: z -> (z ^ (z >> k)) * m. */
  lemma RoundInjective(z: u64, w: u64, k: nat, d: nat, m: nat, inverse: nat, c: nat)
    requires k > 0 && Pow2(k) == d && m * inverse == 1 + M64 * c && d > 0
    requires z / d < M64 && w / d < M64 && z / d >= 0 && w / d >= 0
    requires (Xor64(z, z / d) * m) % M64 == (Xor64(w, w / d) * m) % M64
    ensures z == w
  {
    DownIs(z, k);
    DownIs(w, k);
    hide Xor, Pow2, Down;
    TimesInjective(Xor64(z, z / d), Xor64(w, w / d), m, inverse, c);
    XorShiftInjective(z, w, k);
  }

  lemma LastInjective(z: u64, w: u64)
    requires Xor64(z, z / 0x8000_0000) == Xor64(w, w / 0x8000_0000)
    ensures z == w
  {
    ShiftsAre();
    DownIs(z, 31);
    DownIs(w, 31);
    hide Xor, Pow2, Down;
    XorShiftInjective(z, w, 31);
  }

  /** The hash loses nothing: different keys have different hashes. */
  lemma HashInjective(a: u64, b: u64)
    requires SplitMix64(a) == SplitMix64(b)
    ensures a == b
  {
    ShiftsAre();
    InversesAre();
    hide Xor64, Pow2;
    var x0: u64, y0: u64 := (a + 0x9e37_79b9_7f4a_7c15) % M64, (b + 0x9e37_79b9_7f4a_7c15) % M64;
    var x1: u64 := (Xor64(x0, x0 / 0x4000_0000) * 0xbf58_476d_1ce4_e5b9) % M64;
    var y1: u64 := (Xor64(y0, y0 / 0x4000_0000) * 0xbf58_476d_1ce4_e5b9) % M64;
    var x2: u64 := (Xor64(x1, x1 / 0x800_0000) * 0x94d0_49bb_1331_1177) % M64;
    var y2: u64 := (Xor64(y1, y1 / 0x800_0000) * 0x94d0_49bb_1331_1177) % M64;
    LastInjective(x2, y2);
    RoundInjective(x1, y1, 27, 0x800_0000, 0x94d0_49bb_1331_1177, 0xa7f1_021d_9287_1847, 7034615373483423214);
    RoundInjective(x0, y0, 30, 0x4000_0000, 0xbf58_476d_1ce4_e5b9, 0x96de_1b17_3f11_9089, 8125545580553827436);
  }

  function Shr(h: u64, k: nat): u64 {
    assert 0 <= h / Pow2(k) <= h by { DivideBound(h, Pow2(k)); }
    h / Pow2(k)
  }

  lemma DivideBound(h: nat, d: nat)
    requires d >= 1
    ensures 0 <= h / d <= h
  {
    var q := h / d;
    assert h == d * q + h % d;
    assert d * q == q + (d - 1) * q;
    assert (d - 1) * q >= 0;
  }

  /** The block a key probes, and its bit in word `i`. */
  function BlockOf(key: u64, seed: u64, numBlocks: nat): (r: nat)
    requires numBlocks > 0
    ensures r < numBlocks
  {
    SplitMix64(Xor64(key, seed)) % numBlocks
  }

  function BitOf(key: u64, seed: u64, i: nat): (r: nat)
    requires i < WORDS
    ensures r < 64
  {
    var h2 := SplitMix64(SplitMix64(Xor64(key, seed)));
    var h3 := SplitMix64(h2);
    Xor64(Shr(h2, i * 6), Shr(h3, (7 - i) * 6)) % 0x40
  }

  function PackPageKey(arch: u16, slot: u16, page: u16): u64 {
    arch * 0x1_0000_0000 + slot * 0x1_0000 + page
  }

  // ── What a filter answers ──────────────────────────────────────────────────

  datatype BloomView = BloomView(blocks: seq<Block>, seed: u64) {
    /** BlockedBloomFilter::contains and BloomView::contains: no blocks, no denial. */
    predicate Has(key: u64) {
      |blocks| == 0 ||
      var block := blocks[BlockOf(key, seed, |blocks|)];
      forall i :: 0 <= i < WORDS ==> TestBit(block[i], BitOf(key, seed, i))
    }

    /** The filter with the bits of a key set in the one block the key probes. */
    function With(key: u64): BloomView {
      if |blocks| == 0 then this
      else
        var b := BlockOf(key, seed, |blocks|);
        BloomView(blocks[b := Marked(blocks[b], key, seed, WORDS)], seed)
    }
  }

  /** The block with the bit of the key set in each of its first `n` words. */
  function Marked(block: Block, key: u64, seed: u64, n: nat): Block
    requires n <= WORDS
  {
    if n == 0 then block
    else
      var before := Marked(block, key, seed, n - 1);
      before[n - 1 := SetBit64(before[n - 1], BitOf(key, seed, n - 1))]
  }

  /** Marking sets the key's bits, and clears none. */
  lemma {:induction false} MarkedSets(block: Block, key: u64, seed: u64, n: nat)
    requires n <= WORDS
    ensures forall i :: 0 <= i < n ==> TestBit(Marked(block, key, seed, n)[i], BitOf(key, seed, i))
    ensures forall i, c: nat {:trigger TestBit(Marked(block, key, seed, n)[i], c)} ::
      0 <= i < WORDS && TestBit(block[i], c) ==> TestBit(Marked(block, key, seed, n)[i], c)
  {
    hide TestBit, SetBit, BitOf;
    if n != 0 {
      MarkedSets(block, key, seed, n - 1);
      var before := Marked(block, key, seed, n - 1);
      var word, bit := before[n - 1], BitOf(key, seed, n - 1);
      SetBitTests(word, bit, 0);
      forall c: nat | TestBit(word, c) ensures TestBit(SetBit(word, bit), c) {
        SetBitTests(word, bit, c);
      }
    }
  }

  /** Every bit set in `a` is set in `b`. */
  ghost predicate Below(a: seq<Block>, b: seq<Block>) {
    |a| == |b| && forall i, j, c: nat {:trigger TestBit(b[i][j], c)} ::
      0 <= i < |a| && 0 <= j < WORDS && TestBit(a[i][j], c) ==> TestBit(b[i][j], c)
  }

  lemma HasMonotone(a: BloomView, b: BloomView, key: u64)
    requires a.seed == b.seed && Below(a.blocks, b.blocks) && a.Has(key)
    ensures b.Has(key)
  {
    hide BlockOf, BitOf, TestBit;
  }

  /** A key added is found, and every key found before. */
  lemma WithHas(v: BloomView, key: u64)
    ensures v.With(key).Has(key) && |v.With(key).blocks| == |v.blocks| && v.With(key).seed == v.seed
    ensures Below(v.blocks, v.With(key).blocks)
  {
    hide TestBit, BitOf, BlockOf, Marked;
    if |v.blocks| != 0 {
      MarkedSets(v.blocks[BlockOf(key, v.seed, |v.blocks|)], key, v.seed, WORDS);
    }
  }

  // ── What a filter denies ───────────────────────────────────────────────────

  lemma {:induction false} NoBitInZero(b: nat)
    ensures !TestBit(0, b)
  {
    if b != 0 { NoBitInZero(b - 1); }
  }

  /** A filter without bits denies every key. */
  lemma EmptyDenies(n: nat, seed: u64, key: u64)
    requires n > 0
    ensures !BloomView(seq(n, _ => [0, 0, 0, 0, 0, 0, 0, 0]), seed).Has(key)
  {
    NoBitInZero(BitOf(key, seed, 0));
    hide BitOf, BlockOf, TestBit;
  }

  /** One without blocks denies none. */
  lemma NoBlocksNoDenial(seed: u64, key: u64)
    ensures BloomView([], seed).Has(key)
  {
  }

  /** Setting a bit sets no other. */
  lemma {:induction false} SetBitOnly(w: nat, b: nat, c: nat)
    requires TestBit(SetBit(w, b), c)
    ensures c == b || TestBit(w, c)
  {
    if b == 0 {
      assert SetBit(w, b) / 2 == w / 2;
    } else {
      assert SetBit(w, b) / 2 == SetBit(w / 2, b - 1) && SetBit(w, b) % 2 == w % 2;
      if c != 0 { SetBitOnly(w / 2, b - 1, c - 1); }
    }
  }

  lemma {:induction false} MarkedOnly(block: Block, key: u64, seed: u64, n: nat, i: nat, c: nat)
    requires n <= WORDS && i < WORDS && TestBit(Marked(block, key, seed, n)[i], c)
    ensures TestBit(block[i], c) || c == BitOf(key, seed, i)
  {
    hide TestBit, SetBit, BitOf;
    if n != 0 {
      if i == n - 1 {
        SetBitOnly(Marked(block, key, seed, n - 1)[i], BitOf(key, seed, i), c);
      }
      if TestBit(Marked(block, key, seed, n - 1)[i], c) {
        MarkedOnly(block, key, seed, n - 1, i, c);
      }
    }
  }

  /** Adding a key sets its bit in each word of one block, and no other bit: a key that probes
      another block is denied as before. */
  lemma WithOnly(v: BloomView, key: u64, b: nat, i: nat, c: nat)
    requires b < |v.blocks| && i < WORDS && TestBit(v.With(key).blocks[b][i], c)
    ensures TestBit(v.blocks[b][i], c) || (b == BlockOf(key, v.seed, |v.blocks|) && c == BitOf(key, v.seed, i))
  {
    hide TestBit, BitOf, BlockOf, Marked;
    if b == BlockOf(key, v.seed, |v.blocks|) {
      MarkedOnly(v.blocks[b], key, v.seed, WORDS, i, c);
    }
  }

  /** Page keys are told apart in packed form. */
  lemma PackedInjective(a: u16, s: u16, p: u16, a': u16, s': u16, p': u16)
    requires PackPageKey(a, s, p) == PackPageKey(a', s', p')
    ensures a == a' && s == s' && p == p'
  {
  }

  function BlocksFor(n: nat): (r: u32) {
    if n == 0 then 0
    else
      var blocks := (n * BITS_PER_KEY + BLOCK_BITS - 1) / BLOCK_BITS;
      (if blocks == 0 then 1 else blocks) % 0x1_0000_0000
  }

  /** The filter has 10 bits for each key, and no block more than that takes. */
  lemma BlocksAreEnough(n: nat)
    requires 0 < n < 0x1_0000_0000
    ensures 10 * n <= 512 * BlocksFor(n) < 10 * n + 512
  {
  }

  /** As many empty blocks as the keys need. */
  function NoBits(n: nat): (blocks: seq<Block>)
    ensures |blocks| == BlocksFor(n)
  {
    seq(BlocksFor(n), _ => [0, 0, 0, 0, 0, 0, 0, 0])
  }

  class BlockedBloomFilter {
    var blocks: seq<Block>
    const seed: u64

    function View(): BloomView reads this { BloomView(blocks, seed) }

    constructor (expectedKeys: nat, seed: u64)
      ensures blocks == NoBits(expectedKeys) && this.seed == seed
    {
      this.blocks := NoBits(expectedKeys);
      this.seed := seed;
    }

    method Insert(key: u64)
      modifies this
      ensures View() == old(View()).With(key)
      ensures View().Has(key) && Below(old(blocks), blocks)
    {
      WithHas(View(), key);
      hide TestBit, SetBit, BitOf, BlockOf, Below, BloomView.Has, SetBit64;
      if |blocks| == 0 {
        return;
      }
      var b := BlockOf(key, seed, |blocks|);
      var block := blocks[b];
      for i := 0 to WORDS
        invariant blocks == old(blocks) && block == Marked(blocks[b], key, seed, i)
      {
        block := block[i := SetBit64(block[i], BitOf(key, seed, i))];
      }
      blocks := blocks[b := block];
    }

    method Contains(key: u64) returns (r: bool)
      ensures r == View().Has(key)
    {
      hide TestBit, BitOf, BlockOf;
      if |blocks| == 0 {
        return true;
      }
      var block := blocks[BlockOf(key, seed, |blocks|)];
      for i := 0 to WORDS
        invariant forall j :: 0 <= j < i ==> TestBit(block[j], BitOf(key, seed, j))
      {
        if !TestBit(block[i], BitOf(key, seed, i)) {
          return false;
        }
      }
      return true;
    }

    /** write_to: refuses a filter without blocks. */
    method WriteTo(out: bytes) returns (r: Option<bytes>)
      ensures r == if |blocks| == 0 then None else Some(out + EncBloom(View()))
    {
      hide EncBlock, Le32, Le64, Concat;
      if |blocks| == 0 {
        return None;
      }
      var head := Le32(|blocks| % 0x1_0000_0000) + (Le64(seed) + [0, 0, 0, 0]);
      var w := out + head;
      EmptyParts();
      for i := 0 to |blocks|
        invariant w == out + head + Concat(Parts(EncBlock, blocks[..i]))
      {
        ghost var before := w;
        var block := blocks[i];
        EmptyWords();
        for j := 0 to WORDS
          invariant w == before + Concat(Parts(Le64, block[..j]))
        {
          PartsStep(Le64, block, j);
          Assoc(before, Concat(Parts(Le64, block[..j])), Le64(block[j]));
          w := w + Le64(block[j]);
        }
        assert block[..WORDS] == block;
        BlockWords(block);
        PartsStep(EncBlock, blocks, i);
        Assoc(out + head, Concat(Parts(EncBlock, blocks[..i])), EncBlock(block));
      }
      assert blocks[..|blocks|] == blocks;
      Assoc(out, head, Concat(Parts(EncBlock, blocks)));
      return Some(w);
    }
  }

  lemma EmptyParts()
    ensures Concat(Parts(EncBlock, [])) == []
  {
  }

  lemma EmptyWords()
    ensures Concat(Parts(Le64, [])) == []
  {
  }

  lemma BlockWords(block: Block)
    ensures EncBlock(block) == Concat(Parts(Le64, block))
  {
  }

  // ── Wire format ────────────────────────────────────────────────────────────

  function EncBlock(block: Block): (s: bytes)
    ensures |s| == BLOCK_BYTES
  {
    ConcatLength(Parts(Le64, block), 8);
    Concat(Parts(Le64, block))
  }

  function EncBlocks(blocks: seq<Block>): bytes { Concat(Parts(EncBlock, blocks)) }

  function EncBloom(v: BloomView): bytes {
    Le32(|v.blocks| % 0x1_0000_0000) + (Le64(v.seed) + [0, 0, 0, 0]) + EncBlocks(v.blocks)
  }

  /** `v` is the filter encoded at `off`; the four padding bytes are not looked at. */
  predicate BloomAt(buf: bytes, off: nat, v: BloomView) {
    Read32(buf, off) == Some(|v.blocks|) && Read64(buf, off + 4) == Some(v.seed)
    && off + 16 <= |buf| && At(buf, off + 16, EncBlocks(v.blocks))
  }

  lemma EncBlocksLength(blocks: seq<Block>)
    ensures |EncBlocks(blocks)| == BLOCK_BYTES * |blocks|
  {
    ConcatLength(Parts(EncBlock, blocks), BLOCK_BYTES);
  }

  lemma EncBloomLength(v: BloomView)
    ensures |EncBloom(v)| == 16 + BLOCK_BYTES * |v.blocks|
  {
    EncBlocksLength(v.blocks);
  }

  lemma EncodedBloomIsAt(buf: bytes, off: nat, v: BloomView)
    requires At(buf, off, EncBloom(v)) && |v.blocks| < 0x1_0000_0000
    ensures BloomAt(buf, off, v)
  {
    var n, seed, pad: bytes := Le32(|v.blocks|), Le64(v.seed), [0, 0, 0, 0];
    AtConcat(buf, off, n + (seed + pad), EncBlocks(v.blocks));
    AtConcat(buf, off, n, seed + pad);
    AtConcat(buf, off + 4, seed, pad);
    Read32At(buf, off, |v.blocks|);
    Read64At(buf, off + 4, v.seed);
  }

  lemma BlockUnique(buf: bytes, off: nat, a: Block, b: Block)
    requires At(buf, off, EncBlock(a)) && At(buf, off, EncBlock(b))
    ensures a == b
  {
    forall j | 0 <= j < WORDS ensures a[j] == b[j] {
      WordAt(buf, off, a, j);
      WordAt(buf, off, b, j);
    }
  }

  lemma WordAt(buf: bytes, off: nat, a: Block, j: nat)
    requires At(buf, off, EncBlock(a)) && j < WORDS
    ensures Read64(buf, off + 8 * j) == Some(a[j])
  {
    BlockWords(a);
    AtElement(buf, off, Le64, a, j);
    ConcatLength(Parts(Le64, a[..j]), 8);
    Read64At(buf, off + 8 * j, a[j]);
  }

  lemma BlocksUnique(buf: bytes, off: nat, a: seq<Block>, b: seq<Block>)
    requires |a| == |b| && At(buf, off, EncBlocks(a)) && At(buf, off, EncBlocks(b))
    ensures a == b
  {
    hide EncBlock, At;
    assert PrefixFree(EncBlock, (x: Block) => true) by {
      forall data: bytes, off: nat, x: Block, y: Block | At(data, off, EncBlock(x)) && At(data, off, EncBlock(y))
        ensures x == y
      {
        BlockUnique(data, off, x, y);
      }
    }
    ListUnique(EncBlock, (x: Block) => true, buf, off, a, b);
  }

  lemma BloomUnique(buf: bytes, off: nat, a: BloomView, b: BloomView)
    requires BloomAt(buf, off, a) && BloomAt(buf, off, b)
    ensures a == b
  {
    hide EncBlocks, At, Read32, Read64;
    BlocksUnique(buf, off + 16, a.blocks, b.blocks);
  }

  method ReadBlock(buf: bytes, off: nat) returns (block: Block)
    requires off + BLOCK_BYTES <= |buf|
    ensures At(buf, off, EncBlock(block))
  {
    hide Le64, Concat, EncBlock, At;
    var words: seq<u64> := [];
    AtEmpty(buf, off);
    EmptyWords();
    for j := 0 to WORDS
      invariant |words| == j && At(buf, off, Concat(Parts(Le64, words)))
    {
      var w := Read64(buf, off + 8 * j).value;
      Read64At(buf, off + 8 * j, w);
      ConcatLength(Parts(Le64, words), 8);
      PartsPush(Le64, words, w);
      AtConcat(buf, off, Concat(Parts(Le64, words)), Le64(w));
      words := words + [w];
    }
    block := words;
    BlockWords(block);
  }

  /** BloomView::from_bytes, reading words as little-endian. */
  method FromBytes(buf: bytes, off: nat) returns (r: Option<BloomView>)
    ensures forall v {:trigger BloomAt(buf, off, v)} :: BloomAt(buf, off, v) <==> r == Some(v)
  {
    forall v {:trigger BloomAt(buf, off, v)} | BloomAt(buf, off, v)
      ensures off + 16 + BLOCK_BYTES * |v.blocks| <= |buf|
    {
      EncBlocksLength(v.blocks);
    }
    hide EncBlocks, EncBlock, At;
    if off + 16 > |buf| {
      return None;
    }
    var n: nat := Read32(buf, off).value;
    var seed := Read64(buf, off + 4).value;
    if off + 16 + n * BLOCK_BYTES > |buf| {
      return None;
    }
    var blocks: seq<Block> := [];
    AtEmpty(buf, off + 16);
    EmptyParts();
    EncBlocksLength([]);
    for i := 0 to n
      invariant |blocks| == i && At(buf, off + 16, EncBlocks(blocks))
    {
      EncBlocksLength(blocks);
      var block := ReadBlock(buf, off + 16 + BLOCK_BYTES * i);
      PushBlock(buf, off + 16, blocks, block);
      blocks := blocks + [block];
    }
    var view := BloomView(blocks, seed);
    forall v {:trigger BloomAt(buf, off, v)} | BloomAt(buf, off, v) ensures v == view {
      BloomUnique(buf, off, v, view);
    }
    return Some(view);
  }

  lemma PushBlock(buf: bytes, off: nat, blocks: seq<Block>, block: Block)
    requires At(buf, off, EncBlocks(blocks)) && At(buf, off + |EncBlocks(blocks)|, EncBlock(block))
    ensures At(buf, off, EncBlocks(blocks + [block]))
  {
    PartsPush(EncBlock, blocks, block);
    AtConcat(buf, off, EncBlocks(blocks), EncBlock(block));
  }

  /** The filter of these keys, added one by one to an empty one sized for them all. */
  function FilterOf(keys: seq<u64>, seed: u64): BloomView {
    Filled(NoBits(|keys|), keys, seed)
  }

  function Filled(blocks: seq<Block>, keys: seq<u64>, seed: u64): BloomView {
    if |keys| == 0 then BloomView(blocks, seed)
    else Filled(blocks, keys[..|keys| - 1], seed).With(keys[|keys| - 1])
  }

  /** The filter denies none of its keys, whatever the seed. */
  lemma {:induction false} FilledHas(blocks: seq<Block>, keys: seq<u64>, seed: u64)
    ensures |Filled(blocks, keys, seed).blocks| == |blocks| && Filled(blocks, keys, seed).seed == seed
    ensures forall i :: 0 <= i < |keys| ==> Filled(blocks, keys, seed).Has(keys[i])
  {
    hide BloomView.With, BloomView.Has, Below;
    if |keys| != 0 {
      var last := |keys| - 1;
      var before, after := Filled(blocks, keys[..last], seed), Filled(blocks, keys, seed);
      FilledHas(blocks, keys[..last], seed);
      WithHas(before, keys[last]);
      forall i | 0 <= i < last ensures after.Has(keys[i]) {
        assert keys[..last][i] == keys[i];
        HasMonotone(before, after, keys[i]);
      }
    }
  }

  /** write_bloom_section's filter: built from the keys in order, it denies none of
      them. */
  method Build(keys: seq<u64>, seed: u64) returns (f: BlockedBloomFilter)
    ensures fresh(f) && f.View() == FilterOf(keys, seed) && |f.blocks| == BlocksFor(|keys|)
    ensures forall i :: 0 <= i < |keys| ==> f.View().Has(keys[i])
  {
    hide BloomView.With, BloomView.Has, Below;
    f := new BlockedBloomFilter(|keys|, seed);
    ghost var empty := f.blocks;
    for i := 0 to |keys|
      invariant f.View() == Filled(empty, keys[..i], seed)
    {
      f.Insert(keys[i]);
      assert keys[..i + 1][..i] == keys[..i];
    }
    assert keys[..|keys|] == keys;
    FilledHas(empty, keys, seed);
  }
}
