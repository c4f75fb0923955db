/** Orders on bytes, names and signatures, and the stable sort that stands for the
    standard library's. */
module Order {
  import opened Bytes

  /** A level of levels; one that is not there is empty. */
  function LevelOf<T>(levels: seq<seq<T>>, l: int): seq<T> { if 0 <= l < |levels| then levels[l] else [] }

  /** The element at a position, of a sequence that has one there. */
  predicate IsAt<T(==)>(s: seq<T>, i: int, x: T) { 0 <= i < |s| && s[i] == x }

  ghost predicate TotalOrder<T(!new)>(le: (T, T) -> bool) {
    && (forall x, y :: le(x, y) || le(y, x))
    && (forall x, y, z :: le(x, y) && le(y, z) ==> le(x, z))
  }

  ghost predicate Antisymmetric<T(!new)>(le: (T, T) -> bool) {
    forall x, y :: le(x, y) && le(y, x) ==> x == y
  }

  ghost predicate SortedBy<T>(le: (T, T) -> bool, s: seq<T>) {
    forall i, j :: 0 <= i < j < |s| ==> le(s[i], s[j])
  }

  predicate NoDup<T(==)>(s: seq<T>) {
    forall i, j :: 0 <= i < j < |s| ==> s[i] != s[j]
  }

  /** `x` behind the last element it is not below. */
  function Insert<T>(le: (T, T) -> bool, x: T, s: seq<T>): (r: seq<T>)
    ensures multiset(r) == multiset(s) + multiset{x}
  {
    if |s| == 0 then [x]
    else
      var last, init := s[|s| - 1], s[..|s| - 1];
      assert s == init + [last];
      if le(last, x) then s + [x] else Insert(le, x, init) + [last]
  }

  /** Stable sort. */
  function Sort<T>(le: (T, T) -> bool, s: seq<T>): (r: seq<T>)
    ensures multiset(r) == multiset(s)
  {
    if |s| == 0 then []
    else
      assert s == s[..|s| - 1] + [s[|s| - 1]];
      Insert(le, s[|s| - 1], Sort(le, s[..|s| - 1]))
  }

  lemma SortPush<T>(le: (T, T) -> bool, s: seq<T>, x: T)
    ensures Sort(le, s + [x]) == Insert(le, x, Sort(le, s))
  {
    assert (s + [x])[..|s + [x]| - 1] == s;
  }

  lemma SameElements<T>(a: seq<T>, b: seq<T>)
    requires multiset(a) == multiset(b)
    ensures |a| == |b|
    ensures forall x :: x in a <==> x in b
  {
    assert |multiset(a)| == |multiset(b)|;
    forall x ensures x in a <==> x in b {
      assert x in multiset(a) <==> x in multiset(b);
    }
  }

  lemma {:induction false} InsertSorts<T(!new)>(le: (T, T) -> bool, x: T, s: seq<T>)
    requires TotalOrder(le) && SortedBy(le, s)
    ensures SortedBy(le, Insert(le, x, s))
  {
    if |s| != 0 {
      var last, init := s[|s| - 1], s[..|s| - 1];
      if !le(last, x) {
        InsertSorts(le, x, init);
        var r := Insert(le, x, init);
        SameElements(r, init + [x]);
        forall i | 0 <= i < |r| ensures le(r[i], last) {
          assert r[i] in init + [x];
        }
      }
    }
  }

  lemma {:induction false} SortSorts<T(!new)>(le: (T, T) -> bool, s: seq<T>)
    requires TotalOrder(le)
    ensures SortedBy(le, Sort(le, s))
  {
    if |s| != 0 {
      SortSorts(le, s[..|s| - 1]);
      InsertSorts(le, s[|s| - 1], Sort(le, s[..|s| - 1]));
    }
  }

  lemma {:induction false} NoDupCount<T>(s: seq<T>)
    requires NoDup(s)
    ensures forall x :: multiset(s)[x] <= 1
  {
    if |s| != 0 {
      var last, init := s[|s| - 1], s[..|s| - 1];
      NoDupCount(init);
      assert s == init + [last];
      assert last !in init;
    }
  }

  lemma NoDupFromCount<T>(s: seq<T>)
    requires forall x :: multiset(s)[x] <= 1
    ensures NoDup(s)
  {
    forall i, j | 0 <= i < j < |s| ensures s[i] != s[j] {
      if s[i] == s[j] {
        CountTwo(s, i, j);
      }
    }
  }

  lemma CountTwo<T>(s: seq<T>, i: nat, j: nat)
    requires i < j < |s| && s[i] == s[j]
    ensures multiset(s)[s[i]] >= 2
  {
    assert s == s[..j] + (s[j..j + 1] + s[j + 1..]);
    assert s[..j][i] == s[i] && s[j..j + 1] == [s[j]];
    assert multiset(s)[s[i]] == multiset(s[..j])[s[i]] + (multiset([s[j]])[s[i]] + multiset(s[j + 1..])[s[i]]);
  }

  /** Sorting keeps distinct elements distinct. */
  lemma SortNoDup<T>(le: (T, T) -> bool, s: seq<T>)
    requires NoDup(s)
    ensures NoDup(Sort(le, s))
  {
    NoDupCount(s);
    NoDupFromCount(Sort(le, s));
  }

  /** Elements that the order tells apart come out strictly sorted, none lost or added. */
  lemma SortStrict<T(!new)>(le: (T, T) -> bool, s: seq<T>)
    requires TotalOrder(le)
    requires forall i, j :: 0 <= i < j < |s| ==> !(le(s[i], s[j]) && le(s[j], s[i]))
    ensures |Sort(le, s)| == |s| && forall x :: x in Sort(le, s) <==> x in s
    ensures forall i, j :: 0 <= i < j < |s| ==> !le(Sort(le, s)[j], Sort(le, s)[i])
  {
    hide Sort;
    var sorted := Sort(le, s);
    SortSorts(le, s);
    SameElements(sorted, s);
    assert NoDup(s) by {
      forall i, j | 0 <= i < j < |s| ensures s[i] != s[j] {
        assert le(s[i], s[j]) || le(s[j], s[i]);
      }
    }
    SortNoDup(le, s);
    forall i, j | 0 <= i < j < |s| ensures !le(sorted[j], sorted[i]) {
      assert sorted[i] in s && sorted[j] in s && sorted[i] != sorted[j];
      var k :| 0 <= k < |s| && s[k] == sorted[i];
      var l :| 0 <= l < |s| && s[l] == sorted[j];
      assert k != l && le(sorted[i], sorted[j]);
    }
  }

  /** The elements of a set, each once. */
  lemma {:induction false} Listed<T>(elements: set<T>) returns (list: seq<T>)
    ensures NoDup(list) && forall x :: x in list <==> x in elements
  {
    if elements == {} {
      list := [];
    } else {
      var some :| some in elements;
      var rest := Listed(elements - {some});
      list := rest + [some];
    }
  }

  lemma SubsetSize<T>(a: set<T>, b: set<T>)
    requires a <= b
    ensures |a| <= |b|
  {
    assert b == a + (b - a);
  }

  // ── Lexicographic order ────────────────────────────────────────────────────

  predicate Lex<T(==)>(le: (T, T) -> bool, a: seq<T>, b: seq<T>) {
    |a| == 0 || (|b| > 0 && if a[0] == b[0] then Lex(le, a[1..], b[1..]) else le(a[0], b[0]))
  }

  lemma {:induction false} LexTotal<T(!new)>(le: (T, T) -> bool, a: seq<T>, b: seq<T>)
    requires TotalOrder(le)
    ensures Lex(le, a, b) || Lex(le, b, a)
  {
    if |a| != 0 && |b| != 0 && a[0] == b[0] { LexTotal(le, a[1..], b[1..]); }
  }

  lemma {:induction false} LexAntisymmetric<T(!new)>(le: (T, T) -> bool, a: seq<T>, b: seq<T>)
    requires Antisymmetric(le) && Lex(le, a, b) && Lex(le, b, a)
    ensures a == b
  {
    if |a| != 0 && |b| != 0 {
      assert a[0] == b[0];
      LexAntisymmetric(le, a[1..], b[1..]);
      assert a == [a[0]] + a[1..] && b == [b[0]] + b[1..];
    }
  }

  lemma {:induction false} LexTransitive<T(!new)>(le: (T, T) -> bool, a: seq<T>, b: seq<T>, c: seq<T>)
    requires TotalOrder(le) && Antisymmetric(le) && Lex(le, a, b) && Lex(le, b, c)
    ensures Lex(le, a, c)
  {
    if |a| != 0 && a[0] == b[0] && b[0] == c[0] { LexTransitive(le, a[1..], b[1..], c[1..]); }
  }

  predicate ByteLe(x: u8, y: u8) { x <= y }

  type Name = bytes

  /** The component names of an archetype, ascending. */
  type Signature = seq<Name>

  /** Order of component names: bytewise, as Rust compares strings. */
  predicate NameLe(a: Name, b: Name) { Lex(ByteLe, a, b) }

  predicate NameLess(a: Name, b: Name) { NameLe(a, b) && a != b }

  predicate SigLe(a: seq<Name>, b: seq<Name>) { Lex(NameLe, a, b) }

  lemma ByteOrder()
    ensures TotalOrder(ByteLe) && Antisymmetric(ByteLe)
  {
  }

  lemma NameOrder()
    ensures TotalOrder(NameLe) && Antisymmetric(NameLe)
  {
    ByteOrder();
    forall x, y ensures NameLe(x, y) || NameLe(y, x) { LexTotal(ByteLe, x, y); }
    forall x, y, z | NameLe(x, y) && NameLe(y, z) ensures NameLe(x, z) { LexTransitive(ByteLe, x, y, z); }
    forall x, y | NameLe(x, y) && NameLe(y, x) ensures x == y { LexAntisymmetric(ByteLe, x, y); }
  }

  lemma SigOrder()
    ensures TotalOrder(SigLe) && Antisymmetric(SigLe)
  {
    NameOrder();
    forall x, y ensures SigLe(x, y) || SigLe(y, x) { LexTotal(NameLe, x, y); }
    forall x, y, z | SigLe(x, y) && SigLe(y, z) ensures SigLe(x, z) { LexTransitive(NameLe, x, y, z); }
    forall x, y | SigLe(x, y) && SigLe(y, x) ensures x == y { LexAntisymmetric(NameLe, x, y); }
  }

  /** Names in strictly ascending order, as slots number them. */
  ghost predicate Ascending(names: seq<Name>) {
    forall i, j :: 0 <= i < j < |names| ==> NameLess(names[i], names[j])
  }

  lemma SortedNamesAscend(names: seq<Name>)
    requires NoDup(names)
    ensures Ascending(Sort(NameLe, names))
  {
    NameOrder();
    SortSorts(NameLe, names);
    SortNoDup(NameLe, names);
  }

  /** An ascending list is determined by the set of its names. */
  lemma {:induction false} AscendingUnique(a: seq<Name>, b: seq<Name>)
    requires Ascending(a) && Ascending(b) && forall x :: x in a <==> x in b
    ensures a == b
  {
    if |a| == 0 || |b| == 0 {
      NonEmpty(a);
      NonEmpty(b);
    } else {
      NameOrder();
      assert a[0] in b && b[0] in a;
      var i :| 0 <= i < |b| && b[i] == a[0];
      var j :| 0 <= j < |a| && a[j] == b[0];
      assert a[0] == b[0];
      forall x ensures x in a[1..] <==> x in b[1..] {
        TailMember(a, x);
        TailMember(b, x);
      }
      AscendingUnique(a[1..], b[1..]);
      assert a == [a[0]] + a[1..] && b == [b[0]] + b[1..];
    }
  }

  lemma NonEmpty<T>(a: seq<T>)
    ensures |a| > 0 ==> exists x :: x in a
  {
    if |a| > 0 { assert a[0] in a; }
  }

  lemma TailMember(a: seq<Name>, x: Name)
    requires |a| > 0 && Ascending(a)
    ensures x in a[1..] <==> x in a && x != a[0]
  {
    if x in a && x != a[0] {
      var i :| 0 <= i < |a| && a[i] == x;
      assert a[1..][i - 1] == x;
    }
  }
}
