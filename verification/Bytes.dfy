/** Machine integers, little-endian byte strings and the cursor predicate `At`
    that every codec of the storage engine is specified with. */
module Bytes {

  type u8 = x: int | 0 <= x < 0x100
  type u16 = x: int | 0 <= x < 0x1_0000
  type u32 = x: int | 0 <= x < 0x1_0000_0000
  type u64 = x: int | 0 <= x < 0x1_0000_0000_0000_0000

  type bytes = seq<u8>

  datatype Option<+T> = None | Some(value: T) {
    function GetOr(default: T): T { if Some? then value else default }
  }

  /** Little-endian image of `n` in `k` bytes (the low `k` bytes of `n`). */
  function Le(n: nat, k: nat): (s: bytes)
    ensures |s| == k
  {
    if k == 0 then [] else [n % 0x100] + Le(n / 0x100, k - 1)
  }

  /** The number whose little-endian image is `s`. */
  function FromLe(s: bytes): nat {
    if |s| == 0 then 0 else s[0] + 0x100 * FromLe(s[1..])
  }

  function Pow256(k: nat): (p: nat)
    ensures p >= 1
  {
    if k == 0 then 1 else 0x100 * Pow256(k - 1)
  }

  lemma Pow256Values()
    ensures Pow256(2) == 0x1_0000
    ensures Pow256(4) == 0x1_0000_0000
    ensures Pow256(8) == 0x1_0000_0000_0000_0000
  {
    assert Pow256(4) == 0x100 * (0x100 * Pow256(2));
    assert Pow256(8) == 0x100 * (0x100 * (0x100 * (0x100 * Pow256(4))));
  }

  lemma {:induction false} FromLeLe(n: nat, k: nat)
    requires n < Pow256(k)
    ensures FromLe(Le(n, k)) == n
  {
    if k != 0 {
      FromLeLe(n / 0x100, k - 1);
      assert Le(n, k)[1..] == Le(n / 0x100, k - 1);
    }
  }

  lemma {:induction false} LeFromLe(s: bytes)
    ensures FromLe(s) < Pow256(|s|)
    ensures Le(FromLe(s), |s|) == s
  {
    if |s| != 0 {
      LeFromLe(s[1..]);
      var low, high := s[0], FromLe(s[1..]);
      assert (low + 0x100 * high) % 0x100 == low && (low + 0x100 * high) / 0x100 == high;
      assert s == [s[0]] + s[1..];
    }
  }

  function Le16(n: u16): (s: bytes) ensures |s| == 2 { Le(n, 2) }
  function Le32(n: u32): (s: bytes) ensures |s| == 4 { Le(n, 4) }
  function Le64(n: u64): (s: bytes) ensures |s| == 8 { Le(n, 8) }

  lemma Image16(n: u16)
    ensures Le16(n) == Le(n, 2)
  {
  }

  lemma Image32(n: u32)
    ensures Le32(n) == Le(n, 4)
  {
  }

  lemma Image64(n: u64)
    ensures Le64(n) == Le(n, 8)
  {
  }

  /** `s` lies at offset `off` of `data`. */
  predicate At(data: bytes, off: nat, s: bytes) {
    off + |s| <= |data| && data[off..off + |s|] == s
  }

  lemma Assoc(a: bytes, b: bytes, c: bytes)
    ensures a + b + c == a + (b + c)
  {
  }

  lemma Middle(a: bytes, m: bytes, b: bytes)
    ensures (a + (m + b))[|a|..|a| + |m|] == m
  {
  }

  lemma Assoc4(a: bytes, b: bytes, c: bytes, d: bytes)
    ensures a + b + c + d == a + (b + (c + d))
  {
    Assoc(a + b, c, d);
    Assoc(a, b, c + d);
  }

  lemma AtConcat(data: bytes, off: nat, a: bytes, b: bytes)
    ensures At(data, off, a + b) <==> At(data, off, a) && At(data, off + |a|, b)
  {
    if off + |a| + |b| <= |data| {
      var s := data[off..off + |a| + |b|];
      assert s[..|a|] == data[off..off + |a|];
      assert s[|a|..] == data[off + |a|..off + |a| + |b|];
      assert s == s[..|a|] + s[|a|..];
    }
    assert (a + b)[..|a|] == a && (a + b)[|a|..] == b;
  }

  lemma At3(data: bytes, off: nat, a: bytes, b: bytes, c: bytes)
    ensures At(data, off, a + (b + c)) <==>
      At(data, off, a) && At(data, off + |a|, b) && At(data, off + |a| + |b|, c)
  {
    AtConcat(data, off, a, b + c);
    AtConcat(data, off + |a|, b, c);
  }

  lemma At4(data: bytes, off: nat, a: bytes, b: bytes, c: bytes, d: bytes)
    ensures At(data, off, a + (b + (c + d))) <==>
      && At(data, off, a) && At(data, off + |a|, b) && At(data, off + |a| + |b|, c)
      && At(data, off + |a| + |b| + |c|, d)
  {
    AtConcat(data, off, a, b + (c + d));
    AtConcat(data, off + |a|, b, c + d);
    AtConcat(data, off + |a| + |b|, c, d);
  }

  lemma AtByte(data: bytes, off: nat, b: u8)
    ensures At(data, off, [b]) <==> off < |data| && data[off] == b
  {
  }

  lemma AtEmpty(data: bytes, off: nat)
    ensures At(data, off, []) <==> off <= |data|
  {
  }

  /** format.rs read_u16_le / read_u32_le / read_u64_le: the little-endian number
      at `off`, or nothing when the data ends before it does. */
  function Read16(data: bytes, off: nat): (r: Option<u16>)
    ensures r.None? <==> off + 2 > |data|
  {
    if off + 2 > |data| then None else U16Bound(data[off..off + 2]); Some(FromLe(data[off..off + 2]))
  }

  function Read32(data: bytes, off: nat): (r: Option<u32>)
    ensures r.None? <==> off + 4 > |data|
  {
    if off + 4 > |data| then None else U32Bound(data[off..off + 4]); Some(FromLe(data[off..off + 4]))
  }

  function Read64(data: bytes, off: nat): (r: Option<u64>)
    ensures r.None? <==> off + 8 > |data|
  {
    if off + 8 > |data| then None else U64Bound(data[off..off + 8]); Some(FromLe(data[off..off + 8]))
  }

  lemma U16Bound(s: bytes) requires |s| == 2 ensures FromLe(s) < 0x1_0000 {
    LeFromLe(s);
    Pow256Values();
  }

  lemma U32Bound(s: bytes) requires |s| == 4 ensures FromLe(s) < 0x1_0000_0000 {
    LeFromLe(s);
    Pow256Values();
  }

  lemma U64Bound(s: bytes) requires |s| == 8 ensures FromLe(s) < 0x1_0000_0000_0000_0000 {
    LeFromLe(s);
    Pow256Values();
  }

  /** Reading finds `n` exactly where the image of `n` lies. */
  lemma Read16At(data: bytes, off: nat, n: u16)
    ensures At(data, off, Le16(n)) <==> Read16(data, off) == Some(n)
  {
    Pow256Values();
    FromLeLe(n, 2);
    if off + 2 <= |data| { LeFromLe(data[off..off + 2]); }
  }

  lemma Read32At(data: bytes, off: nat, n: u32)
    ensures At(data, off, Le32(n)) <==> Read32(data, off) == Some(n)
  {
    Pow256Values();
    FromLeLe(n, 4);
    if off + 4 <= |data| { LeFromLe(data[off..off + 4]); }
  }

  lemma Read64At(data: bytes, off: nat, n: u64)
    ensures At(data, off, Le64(n)) <==> Read64(data, off) == Some(n)
  {
    Pow256Values();
    FromLeLe(n, 8);
    if off + 8 <= |data| { LeFromLe(data[off..off + 8]); }
  }

  // ── Concatenation of parts ─────────────────────────────────────────────────

  function Concat(parts: seq<bytes>): bytes {
    if |parts| == 0 then [] else parts[0] + Concat(parts[1..])
  }

  lemma {:induction false} ConcatAppend(a: seq<bytes>, b: seq<bytes>)
    ensures Concat(a + b) == Concat(a) + Concat(b)
  {
    if |a| == 0 {
      assert a + b == b;
    } else {
      ConcatAppend(a[1..], b);
      assert (a + b)[1..] == a[1..] + b;
      Assoc(a[0], Concat(a[1..]), Concat(b));
    }
  }

  lemma ConcatOne(s: bytes)
    ensures Concat([s]) == s
  {
    assert Concat([s]) == s + Concat([s][1..]);
  }

  lemma ConcatPush(parts: seq<bytes>, s: bytes)
    ensures Concat(parts + [s]) == Concat(parts) + s
  {
    ConcatAppend(parts, [s]);
    ConcatOne(s);
  }

  /** Part `i` lies right behind the parts before it. */
  lemma ConcatSplit(parts: seq<bytes>, i: nat)
    requires i < |parts|
    ensures Concat(parts) == Concat(parts[..i]) + (parts[i] + Concat(parts[i + 1..]))
    ensures Concat(parts[..i + 1]) == Concat(parts[..i]) + parts[i]
  {
    assert parts == parts[..i] + parts[i..];
    ConcatAppend(parts[..i], parts[i..]);
    assert parts[..i + 1] == parts[..i] + [parts[i]];
    ConcatPush(parts[..i], parts[i]);
  }

  lemma AtPart(data: bytes, off: nat, parts: seq<bytes>, i: nat)
    requires i < |parts| && At(data, off, Concat(parts))
    ensures At(data, off + |Concat(parts[..i])|, parts[i])
  {
    ConcatSplit(parts, i);
    AtConcat(data, off, Concat(parts[..i]), parts[i] + Concat(parts[i + 1..]));
    AtConcat(data, off + |Concat(parts[..i])|, parts[i], Concat(parts[i + 1..]));
  }

  lemma {:induction false} ConcatLength(parts: seq<bytes>, w: nat)
    requires forall i :: 0 <= i < |parts| ==> |parts[i]| == w
    ensures |Concat(parts)| == |parts| * w
  {
    if |parts| != 0 {
      ConcatLength(parts[1..], w);
      assert |parts| * w == w + (|parts| - 1) * w;
    }
  }

  /** The images of the elements of `s`, one part each. */
  function Parts<T>(f: T -> bytes, s: seq<T>): (r: seq<bytes>)
    ensures |r| == |s| && forall i :: 0 <= i < |s| ==> r[i] == f(s[i])
  {
    seq(|s|, i requires 0 <= i < |s| => f(s[i]))
  }

  lemma PartsAppend<T>(f: T -> bytes, a: seq<T>, b: seq<T>)
    ensures Parts(f, a + b) == Parts(f, a) + Parts(f, b)
    ensures Concat(Parts(f, a + b)) == Concat(Parts(f, a)) + Concat(Parts(f, b))
  {
    ConcatAppend(Parts(f, a), Parts(f, b));
    assert Parts(f, a + b) == Parts(f, a) + Parts(f, b);
  }

  lemma PartsPush<T>(f: T -> bytes, s: seq<T>, x: T)
    ensures Concat(Parts(f, s + [x])) == Concat(Parts(f, s)) + f(x)
  {
    PartsAppend(f, s, [x]);
    assert Parts(f, [x]) == [f(x)];
    ConcatOne(f(x));
  }

  lemma PartsTake<T>(f: T -> bytes, s: seq<T>, k: nat)
    requires k <= |s|
    ensures Parts(f, s)[..k] == Parts(f, s[..k])
  {
  }

  lemma PartsStep<T>(f: T -> bytes, s: seq<T>, k: nat)
    requires k < |s|
    ensures Concat(Parts(f, s[..k + 1])) == Concat(Parts(f, s[..k])) + f(s[k])
  {
    assert s[..k + 1] == s[..k] + [s[k]];
    PartsPush(f, s[..k], s[k]);
  }

  /** Element `i` lies right behind the images of the elements before it. */
  lemma AtElement<T>(data: bytes, off: nat, f: T -> bytes, s: seq<T>, i: nat)
    requires i < |s| && At(data, off, Concat(Parts(f, s)))
    ensures At(data, off + |Concat(Parts(f, s[..i]))|, f(s[i]))
  {
    AtPart(data, off, Parts(f, s), i);
    PartsTake(f, s, i);
  }

  /** No image of an accepted element is a proper prefix of another's: what lies at a
      place determines the element. */
  ghost predicate PrefixFree<T(!new)>(f: T -> bytes, ok: T -> bool) {
    forall data: bytes, off: nat, x: T, y: T {:trigger At(data, off, f(x)), At(data, off, f(y))} ::
      ok(x) && ok(y) && At(data, off, f(x)) && At(data, off, f(y)) ==> x == y
  }

  lemma {:induction false} ListUniqueUpTo<T(!new)>(f: T -> bytes, ok: T -> bool, data: bytes, off: nat, a: seq<T>,
                                            b: seq<T>, k: nat)
    requires PrefixFree(f, ok) && k <= |a| == |b|
    requires forall i :: 0 <= i < |a| ==> ok(a[i]) && ok(b[i])
    requires At(data, off, Concat(Parts(f, a))) && At(data, off, Concat(Parts(f, b)))
    ensures a[..k] == b[..k]
  {
    hide At, Concat;
    if k != 0 {
      ListUniqueUpTo(f, ok, data, off, a, b, k - 1);
      AtElement(data, off, f, a, k - 1);
      AtElement(data, off, f, b, k - 1);
      assert a[..k] == a[..k - 1] + [a[k - 1]] && b[..k] == b[..k - 1] + [b[k - 1]];
    }
  }

  /** Lists of prefix-free elements are determined by their bytes and their length. */
  lemma ListUnique<T(!new)>(f: T -> bytes, ok: T -> bool, data: bytes, off: nat, a: seq<T>, b: seq<T>)
    requires PrefixFree(f, ok) && |a| == |b|
    requires forall i :: 0 <= i < |a| ==> ok(a[i]) && ok(b[i])
    requires At(data, off, Concat(Parts(f, a))) && At(data, off, Concat(Parts(f, b)))
    ensures a == b
  {
    ListUniqueUpTo(f, ok, data, off, a, b, |a|);
    assert a[..|a|] == a && b[..|a|] == b;
  }

  /** A longer list encoded where a shorter one was read starts with it, and its next
      element lies right behind. */
  lemma NextOfList<T(!new)>(f: T -> bytes, ok: T -> bool, data: bytes, off: nat, out: seq<T>, a: seq<T>)
    requires PrefixFree(f, ok) && |out| < |a|
    requires (forall i :: 0 <= i < |a| ==> ok(a[i])) && forall i :: 0 <= i < |out| ==> ok(out[i])
    requires At(data, off, Concat(Parts(f, out))) && At(data, off, Concat(Parts(f, a)))
    ensures a[..|out|] == out && At(data, off + |Concat(Parts(f, out))|, f(a[|out|]))
  {
    hide At, Concat;
    var k := |out|;
    assert a == a[..k] + a[k..];
    PartsAppend(f, a[..k], a[k..]);
    AtConcat(data, off, Concat(Parts(f, a[..k])), Concat(Parts(f, a[k..])));
    ListUnique(f, ok, data, off, out, a[..k]);
    AtElement(data, off, f, a, k);
  }

  function Zeros(n: nat): (s: bytes)
    ensures |s| == n
  {
    seq(n, _ => 0)
  }

  // ── UTF-8 well-formedness (RFC 3629) ───────────────────────────────────────

  predicate Tail(b: u8) { 0x80 <= b <= 0xBF }

  /** Length of the UTF-8 character `s` starts with; 0 when there is none. */
  function CharLen(s: bytes): (n: nat)
    ensures n <= |s|
  {
    if |s| == 0 then 0
    else if s[0] <= 0x7F then 1
    else if |s| >= 2 && 0xC2 <= s[0] <= 0xDF && Tail(s[1]) then 2
    else if |s| >= 3 && 0xE0 <= s[0] <= 0xEF && Tail(s[1]) && Tail(s[2])
      && (s[0] == 0xE0 ==> s[1] >= 0xA0) && (s[0] == 0xED ==> s[1] <= 0x9F) then 3
    else if |s| >= 4 && 0xF0 <= s[0] <= 0xF4 && Tail(s[1]) && Tail(s[2]) && Tail(s[3])
      && (s[0] == 0xF0 ==> s[1] >= 0x90) && (s[0] == 0xF4 ==> s[1] <= 0x8F) then 4
    else 0
  }

  predicate Utf8(s: bytes)
    decreases |s|
  {
    |s| == 0 || (CharLen(s) > 0 && Utf8(s[CharLen(s)..]))
  }

}
