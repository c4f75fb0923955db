/** Run file names: `{lo}-{hi}.run` for flushes, `{lo}-{hi}.compact.run` for compactions,
    and when the name of a compaction output is taken. */
module OutputNames {
  import opened Bytes
  import opened Manifest

  predicate EndsWith(p: Path, suffix: bytes) {
    |suffix| <= |p| && p[|p| - |suffix|..] == suffix
  }

  /** ".run.tmp" and ".run" */
  const TMP_SUFFIX: bytes := [46, 114, 117, 110, 46, 116, 109, 112]
  const RUN_SUFFIX: bytes := [46, 114, 117, 110]

  /** Decimal digits of `n`. */
  function Dec(n: nat): (s: bytes)
    ensures |s| > 0
  {
    if n < 10 then [48 + n] else Dec(n / 10) + [48 + n % 10]
  }

  /** ".compact.run" */
  const COMPACT_SUFFIX: bytes := [46, 99, 111, 109, 112, 97, 99, 116, 46, 114, 117, 110]

  /** make_output_path: `{dir}/{lo}-{hi}.compact.run`. */
  function OutputPath(dir: Path, lo: u64, hi: u64): Path {
    dir + [47] + Dec(lo) + [45] + Dec(hi) + COMPACT_SUFFIX
  }

  predicate Digits(s: bytes) { forall i :: 0 <= i < |s| ==> 48 <= s[i] <= 57 }

  lemma {:induction false} DecDigits(n: nat)
    ensures Digits(Dec(n))
  {
    if n >= 10 { DecDigits(n / 10); }
  }

  lemma {:induction false} DecInjective(a: nat, b: nat)
    requires Dec(a) == Dec(b)
    ensures a == b
  {
    if a < 10 || b < 10 {
      assert |Dec(a)| == |Dec(b)|;
    } else {
      assert Dec(a)[..|Dec(a)| - 1] == Dec(a / 10) && Dec(b)[..|Dec(b)| - 1] == Dec(b / 10);
      DecInjective(a / 10, b / 10);
      assert Dec(a)[|Dec(a)| - 1] == Dec(b)[|Dec(b)| - 1];
    }
  }

  lemma SplitAtDash(a: bytes, x: bytes, b: bytes, y: bytes)
    requires Digits(a) && Digits(b) && a + [45] + x == b + [45] + y
    ensures a == b && x == y
  {
    var s := a + [45] + x;
    assert s[|a|] == 45 && s[|b|] == 45;
    forall i | 0 <= i < |a| ensures s[i] != 45 {
      assert s[i] == a[i];
    }
    forall i | 0 <= i < |b| ensures s[i] != 45 {
      assert s[i] == b[i];
    }
    assert |a| == |b|;
    assert s[..|a|] == a && s[..|b|] == b && s[|a| + 1..] == x && s[|b| + 1..] == y;
  }

  lemma SameTail(dir: bytes, x: bytes, y: bytes)
    requires dir + x == dir + y
    ensures x == y
  {
    assert (dir + x)[|dir|..] == x && (dir + y)[|dir|..] == y;
  }

  lemma SameHead(x: bytes, y: bytes, tail: bytes)
    requires x + tail == y + tail
    ensures x == y
  {
    assert (x + tail)[..|x|] == x && (y + tail)[..|y|] == y;
  }

  lemma RangeOfName(dir: Path, lo: u64, hi: u64, lo': u64, hi': u64)
    requires dir + [47] + Dec(lo) + [45] + Dec(hi) == dir + [47] + Dec(lo') + [45] + Dec(hi')
    ensures lo == lo' && hi == hi'
  {
    DecDigits(lo);
    DecDigits(lo');
    hide Dec;
    Assoc4(dir + [47], Dec(lo), [45], Dec(hi));
    Assoc4(dir + [47], Dec(lo'), [45], Dec(hi'));
    SameTail(dir + [47], Dec(lo) + ([45] + Dec(hi)), Dec(lo') + ([45] + Dec(hi')));
    Assoc(Dec(lo), [45], Dec(hi));
    Assoc(Dec(lo'), [45], Dec(hi'));
    SplitAtDash(Dec(lo), Dec(hi), Dec(lo'), Dec(hi'));
    DecInjective(lo, lo');
    DecInjective(hi, hi');
  }

  /** The output name determines the range. */
  lemma OutputPathInjective(dir: Path, lo: u64, hi: u64, lo': u64, hi': u64)
    requires OutputPath(dir, lo, hi) == OutputPath(dir, lo', hi')
    ensures lo == lo' && hi == hi'
  {
    hide Dec;
    SameHead(dir + [47] + Dec(lo) + [45] + Dec(hi), dir + [47] + Dec(lo') + [45] + Dec(hi'), COMPACT_SUFFIX);
    RangeOfName(dir, lo, hi, lo', hi');
  }

  /** The name a flush gives its run: `{dir}/{lo}-{hi}.run`. */
  function FlushPath(dir: Path, lo: u64, hi: u64): Path {
    dir + [47] + Dec(lo) + [45] + Dec(hi) + [46, 114, 117, 110]
  }

  /** So does the name of a flush. */
  lemma FlushPathInjective(dir: Path, lo: u64, hi: u64, lo': u64, hi': u64)
    requires FlushPath(dir, lo, hi) == FlushPath(dir, lo', hi')
    ensures lo == lo' && hi == hi'
  {
    hide Dec;
    SameHead(dir + [47] + Dec(lo) + [45] + Dec(hi), dir + [47] + Dec(lo') + [45] + Dec(hi'), [46, 114, 117, 110]);
    RangeOfName(dir, lo, hi, lo', hi');
  }

  /** Before ".run" a flush has a digit and a compaction does not. */
  lemma FlushIsNoOutput(dir: Path, lo: u64, hi: u64, lo': u64, hi': u64)
    ensures FlushPath(dir, lo, hi) != OutputPath(dir, lo', hi')
  {
    DecDigits(hi);
    hide Dec;
    var f, o := FlushPath(dir, lo, hi), OutputPath(dir, lo', hi');
    assert f[|f| - 5] == Dec(hi)[|Dec(hi)| - 1];
    assert o[|o| - 5] == 116;
  }

  /** The sweep takes neither for a temporary file. */
  lemma NotTemporary(dir: Path, lo: u64, hi: u64)
    ensures !EndsWith(FlushPath(dir, lo, hi), TMP_SUFFIX) && !EndsWith(OutputPath(dir, lo, hi), TMP_SUFFIX)
  {
    hide Dec;
    var f, o := FlushPath(dir, lo, hi), OutputPath(dir, lo, hi);
    assert f[|f| - 1] == 110 && o[|o| - 1] == 110;
  }

  /** Flushes and outputs have names in ".run", so what is left of them is swept. */
  lemma NamesEndInRun(dir: Path, lo: u64, hi: u64)
    ensures
      var f, o := FlushPath(dir, lo, hi), OutputPath(dir, lo, hi);
      |f| >= 4 && f[|f| - 4..] == [46, 114, 117, 110] && |o| >= 4 && o[|o| - 4..] == [46, 114, 117, 110]
  {
    hide Dec;
    var head := dir + [47] + Dec(lo) + [45] + Dec(hi);
    assert OutputPath(dir, lo, hi) == head + COMPACT_SUFFIX && COMPACT_SUFFIX[8..] == [46, 114, 117, 110];
    Tail(head, COMPACT_SUFFIX);
  }

  lemma Tail(head: bytes, s: bytes)
    requires |s| >= 4
    ensures (head + s)[|head + s| - 4..] == s[|s| - 4..]
  {
  }

  // ── When the output name is taken ──────────────────────────────────────────

  predicate Named(dir: Path, r: RunMeta) {
    r.path == FlushPath(dir, r.lo, r.hi) || r.path == OutputPath(dir, r.lo, r.hi)
  }

  ghost predicate SpanOf(inputs: set<RunMeta>, lo: u64, hi: u64) {
    && (forall r :: r in inputs ==> lo <= r.lo && r.hi <= hi)
    && (exists r :: r in inputs && r.lo == lo) && exists r :: r in inputs && r.hi == hi
  }

  /** A compaction's output that alone covers the whole range of the job. */
  ghost predicate Spanning(dir: Path, inputs: set<RunMeta>, lo: u64, hi: u64) {
    exists r :: r in inputs && r.lo == lo && r.hi == hi && r.path == OutputPath(dir, lo, hi)
  }

  /** Among tracked runs named by their ranges, no two of the same hi, the output path of
      a job is taken if and only if one of its own inputs, itself a compaction output,
      spans the job. */
  lemma OutputTakenIff(dir: Path, tracked: set<RunMeta>, inputs: set<RunMeta>, lo: u64, hi: u64)
    requires inputs <= tracked && SpanOf(inputs, lo, hi) && forall r :: r in tracked ==> Named(dir, r)
    requires forall a, b :: a in tracked && b in tracked && a.hi == b.hi ==> a == b
    ensures (exists r :: r in tracked && r.path == OutputPath(dir, lo, hi)) <==> Spanning(dir, inputs, lo, hi)
  {
    hide OutputPath, FlushPath;
    if r :| r in tracked && r.path == OutputPath(dir, lo, hi) {
      FlushIsNoOutput(dir, r.lo, r.hi, lo, hi);
      OutputPathInjective(dir, r.lo, r.hi, lo, hi);
      var top :| top in inputs && top.hi == hi;
      assert top == r;
    }
  }

  /** `a` is newer than `b`, as flushes in sequence and merges of them are. */
  predicate After(a: RunMeta, b: RunMeta) { b.hi <= a.lo && b.hi < a.hi }

  /** Three runs in sequence: none spans them all. So the output path of a job whose
      inputs are in sequence is always fresh. */
  lemma SequenceHasNoSpan(dir: Path, tracked: set<RunMeta>, inputs: set<RunMeta>, lo: u64, hi: u64, a: RunMeta,
                          b: RunMeta, c: RunMeta)
    requires inputs <= tracked && SpanOf(inputs, lo, hi) && forall r :: r in tracked ==> Named(dir, r)
    requires forall a, b :: a in tracked && b in tracked && a.hi == b.hi ==> a == b
    requires forall r :: r in inputs ==> r.lo <= r.hi
    requires forall r, q :: r in inputs && q in inputs && r != q ==> After(r, q) || After(q, r)
    requires a in inputs && b in inputs && c in inputs && After(b, a) && After(c, b)
    ensures forall r :: r in tracked ==> r.path != OutputPath(dir, lo, hi)
  {
    OutputTakenIff(dir, tracked, inputs, lo, hi);
    hide OutputPath, FlushPath, Named;
    forall r | r in inputs && r.lo == lo ensures r.hi != hi {
      assert r == c || After(r, c) || After(c, r);
      assert r == b || After(r, b) || After(b, r);
    }
  }
}
