/** Wire format of manifest entries. `EncEntry` is the format; the decoder is
    specified by it alone: `ParseEntry(data)` is the one encodable entry whose
    encoding `data` starts with. */
module EntryCodec {
  import opened Bytes
  import opened Manifest

  const MAX_COMPACTION_INPUTS: nat := 1024

  // ── The format ─────────────────────────────────────────────────────────────

  predicate PathEncodable(p: Path) { Utf8(p) && |p| < 0x1_0000 }

  function EncPath(p: Path): bytes { Le(|p|, 2) + p }

  function EncU16s(c: seq<u16>): bytes { Concat(Parts(Le16, c)) }

  predicate MetaEncodable(m: SortedRunMeta) { PathEncodable(m.path) && |m.coverage| < 0x1_0000 }

  /** The numbers and the coverage list behind the path. */
  function EncMetaTail(m: SortedRunMeta): bytes {
    (Le64(m.lo) + (Le64(m.hi) + (Le(|m.coverage|, 2) + EncU16s(m.coverage)))) + (Le64(m.pageCount) + Le64(m.sizeBytes))
  }

  function EncMeta(m: SortedRunMeta): bytes { EncPath(m.path) + EncMetaTail(m) }

  function EncInput(e: (Level, Path)): bytes { [e.0] + EncPath(e.1) }

  function EncInputs(inputs: seq<(Level, Path)>): bytes { Concat(Parts(EncInput, inputs)) }

  /** When encode_entry returns Ok. */
  predicate Encodable(e: ManifestEntry) {
    match e
    case AddRun(_, meta) => MetaEncodable(meta)
    case RemoveRun(_, p) => PathEncodable(p)
    case PromoteRun(_, _, p) => PathEncodable(p)
    case SetSequence(_) => true
    case AddRunAndSequence(_, meta, _) => MetaEncodable(meta)
    case CompactionCommit(_, output, inputs) =>
      |inputs| <= MAX_COMPACTION_INPUTS && MetaEncodable(output)
      && InputsOk(inputs)
  }

  /** The limits of the format: paths of UTF-8 below 64 KiB, coverage below 65536
      archetypes, at most 1024 inputs. */
  lemma CommitEncodableIff(out: Level, output: SortedRunMeta, inputs: seq<(Level, Path)>)
    ensures Encodable(CompactionCommit(out, output, inputs)) <==>
      && |inputs| <= 1024 && Utf8(output.path) && |output.path| < 65536 && |output.coverage| < 65536
      && forall i :: 0 <= i < |inputs| ==> Utf8(inputs[i].1) && |inputs[i].1| < 65536
  {
    hide Utf8;
  }

  function EncEntry(e: ManifestEntry): bytes {
    match e
    case AddRun(l, meta) => [1, l] + EncMeta(meta)
    case RemoveRun(l, p) => [2, l] + EncPath(p)
    case PromoteRun(from, to, p) => [3, from, to] + EncPath(p)
    case SetSequence(s) => [4] + Le64(s)
    case AddRunAndSequence(l, meta, s) => [5, l] + (EncMeta(meta) + Le64(s))
    case CompactionCommit(l, output, inputs) =>
      [6, l] + (EncMeta(output) + (Le(|inputs|, 4) + EncInputs(inputs)))
  }

  /** `e` is what `data` starts with. */
  predicate Starts(data: bytes, e: ManifestEntry) {
    Encodable(e) && At(data, 0, EncEntry(e))
  }

  ghost function ParseEntry(data: bytes): (r: Option<ManifestEntry>)
    ensures r.Some? ==> Starts(data, r.value)
  {
    if e: ManifestEntry :| Starts(data, e) then Some(e) else None
  }

  // ── Encoders ───────────────────────────────────────────────────────────────

  method EncodePath(buf: bytes, path: Path) returns (ok: bool, out: bytes)
    ensures ok == PathEncodable(path)
    ensures ok ==> out == buf + EncPath(path)
  {
    out := buf;
    if !Utf8(path) || |path| >= 0x1_0000 {
      return false, out;
    }
    out := out + Le16(|path|);
    out := out + path;
    return true, out;
  }

  method EncodeCoverage(buf: bytes, coverage: seq<u16>) returns (ok: bool, out: bytes)
    ensures ok == (|coverage| < 0x1_0000)
    ensures ok ==> out == buf + Le(|coverage|, 2) + EncU16s(coverage)
  {
    out := buf;
    if |coverage| >= 0x1_0000 {
      return false, out;
    }
    out := out + Le16(|coverage|);
    for i := 0 to |coverage|
      invariant out == buf + Le(|coverage|, 2) + EncU16s(coverage[..i])
    {
      out := out + Le16(coverage[i]);
      PartsStep(Le16, coverage, i);
    }
    assert coverage[..|coverage|] == coverage;
    return true, out;
  }

  lemma Regroup(b: bytes, p: bytes, lo: bytes, hi: bytes, n: bytes, c: bytes, pages: bytes, size: bytes)
    ensures b + p + lo + hi + n + c + pages + size == b + (p + ((lo + (hi + (n + c))) + (pages + size)))
  {
    var head := lo + (hi + (n + c));
    Assoc4(b + p + lo, hi, n, c);
    Assoc(b + p, lo, hi + (n + c));
    Assoc(b + p + head, pages, size);
    Assoc(b + p, head, pages + size);
    Assoc(b, p, head + (pages + size));
  }

  method EncodeMeta(buf: bytes, meta: SortedRunMeta) returns (ok: bool, out: bytes)
    ensures ok == MetaEncodable(meta)
    ensures ok ==> out == buf + EncMeta(meta)
  {
    hide EncPath, EncU16s, PathEncodable, Le64;
    ok, out := EncodePath(buf, meta.path);
    if !ok {
      return;
    }
    out := out + Le64(meta.lo);
    out := out + Le64(meta.hi);
    ok, out := EncodeCoverage(out, meta.coverage);
    if !ok {
      return;
    }
    out := out + Le64(meta.pageCount);
    out := out + Le64(meta.sizeBytes);
    Regroup(buf, EncPath(meta.path), Le64(meta.lo), Le64(meta.hi), Le(|meta.coverage|, 2), EncU16s(meta.coverage),
      Le64(meta.pageCount), Le64(meta.sizeBytes));
  }

  method EncodeEntry(e: ManifestEntry) returns (r: Option<bytes>)
    ensures r == if Encodable(e) then Some(EncEntry(e)) else None
  {
    var ok: bool, buf: bytes := false, [];
    match e {
    case AddRun(l, meta) =>
      ok, buf := EncodeMeta([1, l], meta);
    case RemoveRun(l, p) =>
      ok, buf := EncodePath([2, l], p);
    case PromoteRun(from, to, p) =>
      ok, buf := EncodePath([3, from, to], p);
    case SetSequence(s) =>
      ok, buf := true, [4] + Le64(s);
    case AddRunAndSequence(l, meta, s) =>
      ok, buf := EncodeMeta([5, l], meta);
      if ok {
        Assoc([5, l], EncMeta(meta), Le64(s));
        buf := buf + Le64(s);
      }
    case CompactionCommit(l, output, inputs) =>
      if |inputs| > MAX_COMPACTION_INPUTS {
        return None;
      }
      ok, buf := EncodeMeta([6, l], output);
      if ok {
        Assoc([6, l], EncMeta(output), Le32(|inputs|));
        Assoc([6, l], EncMeta(output) + Le32(|inputs|), EncInputs(inputs));
        Assoc(EncMeta(output), Le32(|inputs|), EncInputs(inputs));
        buf := buf + Le32(|inputs|);
        ok, buf := EncodeInputs(buf, inputs);
      }
    }
    r := if ok then Some(buf) else None;
  }

  method EncodeInputs(buf: bytes, inputs: seq<(Level, Path)>) returns (ok: bool, out: bytes)
    ensures ok == InputsOk(inputs)
    ensures ok ==> out == buf + EncInputs(inputs)
  {
    out := buf;
    assert EncInputs(inputs[..0]) == [];
    hide EncPath, PathEncodable, Concat;
    for i := 0 to |inputs|
      invariant out == buf + EncInputs(inputs[..i])
      invariant InputsOk(inputs[..i])
    {
      out := out + [inputs[i].0];
      ok, out := EncodePath(out, inputs[i].1);
      if !ok {
        return;
      }
      PartsStep(EncInput, inputs, i);
      Assoc(buf, EncInputs(inputs[..i]), [inputs[i].0]);
      Assoc(buf + EncInputs(inputs[..i]), [inputs[i].0], EncPath(inputs[i].1));
      Assoc(buf, EncInputs(inputs[..i]), EncInput(inputs[i]));
      assert inputs[..i + 1] == inputs[..i] + [inputs[i]];
    }
    assert inputs[..|inputs|] == inputs;
    ok := true;
  }

  // ── Decoders ───────────────────────────────────────────────────────────────

  lemma PathAt(data: bytes, off: nat, p: Path)
    ensures At(data, off, EncPath(p)) <==> At(data, off, Le(|p|, 2)) && At(data, off + 2, p)
  {
    AtConcat(data, off, Le(|p|, 2), p);
  }

  method DecodePath(data: bytes, off: nat) returns (r: Option<Path>, end: nat)
    ensures r.Some? ==> PathEncodable(r.value) && At(data, off, EncPath(r.value)) && end == off + |EncPath(r.value)|
    ensures forall p: Path {:trigger EncPath(p)} :: PathEncodable(p) && At(data, off, EncPath(p)) ==> r == Some(p)
  {
    forall p: Path {:trigger EncPath(p)} | PathEncodable(p) && At(data, off, EncPath(p))
      ensures Read16(data, off) == Some(|p|) && At(data, off + 2, p)
    {
      PathAt(data, off, p);
      Read16At(data, off, |p|);
    }
    end := off;
    var len := Read16(data, off);
    if len.None? {
      return None, end;
    }
    end := end + 2;
    if end + len.value > |data| {
      return None, end;
    }
    var p := data[end..end + len.value];
    if !Utf8(p) {
      return None, end;
    }
    PathAt(data, off, p);
    Read16At(data, off, len.value);
    return Some(p), end + len.value;
  }

  lemma EncU16sLength(c: seq<u16>)
    ensures |EncU16s(c)| == 2 * |c|
  {
    ConcatLength(Parts(Le16, c), 2);
  }

  /** The loop of decode_meta that reads `count` coverage ids. */
  method DecodeU16s(data: bytes, off: nat, count: nat) returns (r: Option<seq<u16>>)
    requires off + 2 * count <= |data|
    ensures r.Some? && |r.value| == count && At(data, off, EncU16s(r.value))
    ensures forall c: seq<u16> {:trigger EncU16s(c)} :: |c| == count && At(data, off, EncU16s(c)) ==> r == Some(c)
  {
    var out: seq<u16> := [];
    var end := off;
    for i := 0 to count
      invariant |out| == i && end == off + 2 * i
      invariant At(data, off, EncU16s(out))
      invariant forall c: seq<u16> {:trigger EncU16s(c)} :: |c| == count && At(data, off, EncU16s(c)) ==> c[..i] == out
    {
      forall c: seq<u16> {:trigger EncU16s(c)} | |c| == count && At(data, off, EncU16s(c))
        ensures Read16(data, end) == Some(c[i])
      {
        AtElement(data, off, Le16, c, i);
        EncU16sLength(c[..i]);
        Read16At(data, end, c[i]);
      }
      var v := Read16(data, end);
      if v.None? {
        assert false;
        return None;
      }
      Read16At(data, end, v.value);
      PartsPush(Le16, out, v.value);
      EncU16sLength(out);
      AtConcat(data, off, EncU16s(out), Le16(v.value));
      out := out + [v.value];
      end := end + 2;
    }
    forall c: seq<u16> {:trigger EncU16s(c)} | |c| == count && At(data, off, EncU16s(c))
      ensures c == out
    {
      assert c[..count] == c;
    }
    return Some(out);
  }

  /** The fields of a SortedRunMeta behind its path, before they are validated. */
  datatype MetaTail = MetaTail(lo: u64, hi: u64, coverage: seq<u16>, pageCount: u64, sizeBytes: u64)

  function TailOf(m: SortedRunMeta): MetaTail { MetaTail(m.lo, m.hi, m.coverage, m.pageCount, m.sizeBytes) }

  /** What the readers of decode_meta find where `t` is encoded. */
  predicate TailReads(data: bytes, o: nat, t: MetaTail) {
    var k := 2 * |t.coverage|;
    && Read64(data, o) == Some(t.lo)
    && Read64(data, o + 8) == Some(t.hi)
    && Read16(data, o + 16) == Some(|t.coverage|)
    && At(data, o + 18, EncU16s(t.coverage))
    && Read64(data, o + 18 + k) == Some(t.pageCount)
    && Read64(data, o + 26 + k) == Some(t.sizeBytes)
  }


  lemma MetaTailAt(data: bytes, o: nat, m: SortedRunMeta)
    requires |m.coverage| < 0x1_0000
    ensures At(data, o, EncMetaTail(m)) <==> TailReads(data, o, TailOf(m))
    ensures |EncMetaTail(m)| == 34 + 2 * |m.coverage|
  {
    EncU16sLength(m.coverage);
    var n, c := Le16(|m.coverage|), EncU16s(m.coverage);
    var head, pages, size := Le64(m.lo) + (Le64(m.hi) + (n + c)), Le64(m.pageCount), Le64(m.sizeBytes);
    AtConcat(data, o, head, pages + size);
    At4(data, o, Le64(m.lo), Le64(m.hi), n, c);
    AtConcat(data, o + |head|, pages, size);
    TailReadsAt(data, o, m);
  }

  lemma TailReadsAt(data: bytes, o: nat, m: SortedRunMeta)
    requires |m.coverage| < 0x1_0000
    ensures
      var k := 2 * |m.coverage|;
      TailReads(data, o, TailOf(m)) <==>
        && At(data, o, Le64(m.lo)) && At(data, o + 8, Le64(m.hi)) && At(data, o + 16, Le16(|m.coverage|))
        && At(data, o + 18, EncU16s(m.coverage))
        && At(data, o + 18 + k, Le64(m.pageCount)) && At(data, o + 26 + k, Le64(m.sizeBytes))
  {
    var k := 2 * |m.coverage|;
    Read64At(data, o, m.lo);
    Read64At(data, o + 8, m.hi);
    Read16At(data, o + 16, |m.coverage|);
    Read64At(data, o + 18 + k, m.pageCount);
    Read64At(data, o + 26 + k, m.sizeBytes);
  }

  lemma MetaAt(data: bytes, off: nat, m: SortedRunMeta)
    requires MetaEncodable(m)
    ensures At(data, off, EncMeta(m)) <==> At(data, off, EncPath(m.path)) && TailReads(data, off + |EncPath(m.path)|, TailOf(m))
    ensures |EncU16s(m.coverage)| == 2 * |m.coverage|
    ensures |EncMeta(m)| == |EncPath(m.path)| + 34 + 2 * |m.coverage|
  {
    EncU16sLength(m.coverage);
    MetaTailAt(data, off + |EncPath(m.path)|, m);
    AtConcat(data, off, EncPath(m.path), EncMetaTail(m));
  }

  method DecodeMetaTail(data: bytes, o: nat) returns (r: Option<MetaTail>, end: nat)
    ensures r.Some? ==> TailReads(data, o, r.value) && end == o + 34 + 2 * |r.value.coverage|
    ensures forall t {:trigger TailReads(data, o, t)} :: TailReads(data, o, t) ==> r == Some(t)
  {
    end := o + 18;
    forall t {:trigger TailReads(data, o, t)} | TailReads(data, o, t)
      ensures o + 34 + 2 * |t.coverage| <= |data| && 2 * |t.coverage| == |EncU16s(t.coverage)|
    {
      EncU16sLength(t.coverage);
    }
    var lo, hi, count := Read64(data, o), Read64(data, o + 8), Read16(data, o + 16);
    if lo.None? || hi.None? || count.None? {
      return None, end;
    }
    var n: nat := count.value;
    if end + 2 * n > |data| {
      return None, end;
    }
    var coverage := DecodeU16s(data, end, n);
    end := end + 2 * n;
    var pageCount, size := Read64(data, end), Read64(data, end + 8);
    if pageCount.None? || size.None? {
      return None, end;
    }
    return Some(MetaTail(lo.value, hi.value, coverage.value, pageCount.value, size.value)), end + 16;
  }

  method DecodeMeta(data: bytes, off: nat) returns (r: Option<SortedRunMeta>, end: nat)
    ensures r.Some? ==> MetaEncodable(r.value) && At(data, off, EncMeta(r.value)) && end == off + |EncMeta(r.value)|
    ensures forall m: SortedRunMeta {:trigger EncMeta(m)} :: MetaEncodable(m) && At(data, off, EncMeta(m)) ==> r == Some(m)
  {
    var path;
    path, end := DecodePath(data, off);
    ghost var o := end;
    forall m: SortedRunMeta {:trigger EncMeta(m)} | MetaEncodable(m) && At(data, off, EncMeta(m))
      ensures path == Some(m.path) && TailReads(data, o, TailOf(m))
    {
      MetaAt(data, off, m);
    }
    if path.None? {
      return None, end;
    }
    var tail;
    tail, end := DecodeMetaTail(data, end);
    if tail.None? {
      return None, end;
    }
    var t := tail.value;
    var meta := RunMeta(path.value, t.lo, t.hi, t.coverage, t.pageCount, t.sizeBytes);
    if !meta.Ok() {
      return None, end;
    }
    MetaAt(data, off, meta);
    return Some(meta), end;
  }

  predicate InputsOk(ins: seq<(Level, Path)>) {
    forall i :: 0 <= i < |ins| ==> PathEncodable(ins[i].1)
  }

  lemma InputAt(data: bytes, off: nat, ins: seq<(Level, Path)>, i: nat)
    requires i < |ins| && At(data, off, EncInputs(ins))
    ensures
      var o := off + |EncInputs(ins[..i])|;
      At(data, o, [ins[i].0]) && At(data, o + 1, EncPath(ins[i].1))
  {
    AtElement(data, off, EncInput, ins, i);
    AtConcat(data, off + |EncInputs(ins[..i])|, [ins[i].0], EncPath(ins[i].1));
  }

  lemma InputPush(data: bytes, off: nat, ins: seq<(Level, Path)>, e: (Level, Path))
    requires At(data, off, EncInputs(ins))
    requires At(data, off + |EncInputs(ins)|, [e.0]) && At(data, off + |EncInputs(ins)| + 1, EncPath(e.1))
    ensures At(data, off, EncInputs(ins + [e]))
    ensures |EncInputs(ins + [e])| == |EncInputs(ins)| + 1 + |EncPath(e.1)|
  {
    PartsPush(EncInput, ins, e);
    AtConcat(data, off + |EncInputs(ins)|, [e.0], EncPath(e.1));
    AtConcat(data, off, EncInputs(ins), EncInput(e));
  }

  /** What lies behind the inputs read so far, in any list of inputs encoded here. */
  lemma NextInput(data: bytes, off: nat, count: nat, out: seq<(Level, Path)>)
    requires |out| < count
    ensures forall ins: seq<(Level, Path)> {:trigger EncInputs(ins)} ::
      |ins| == count && InputsOk(ins) && At(data, off, EncInputs(ins)) && ins[..|out|] == out ==>
        var end, e := off + |EncInputs(out)|, ins[|out|];
        && end < |data| && data[end] == e.0 && PathEncodable(e.1) && At(data, end + 1, EncPath(e.1))
        && ins[..|out| + 1] == out + [e]
  {
    hide EncInputs, EncPath, At, PathEncodable;
    forall ins: seq<(Level, Path)> {:trigger EncInputs(ins)} |
      |ins| == count && InputsOk(ins) && At(data, off, EncInputs(ins)) && ins[..|out|] == out
      ensures
        var end, e := off + |EncInputs(out)|, ins[|out|];
        && end < |data| && data[end] == e.0 && PathEncodable(e.1) && At(data, end + 1, EncPath(e.1))
        && ins[..|out| + 1] == out + [e]
    {
      InputAt(data, off, ins, |out|);
      AtByte(data, off + |EncInputs(out)|, ins[|out|].0);
      assert ins[..|out| + 1] == ins[..|out|] + [ins[|out|]];
    }
  }

  /** The loop of decode_entry that reads `count` compaction inputs. */
  method DecodeInputs(data: bytes, off: nat, count: nat) returns (r: Option<seq<(Level, Path)>>)
    requires off <= |data|
    ensures r.Some? ==> |r.value| == count && InputsOk(r.value) && At(data, off, EncInputs(r.value))
    ensures forall ins: seq<(Level, Path)> {:trigger EncInputs(ins)} ::
      |ins| == count && InputsOk(ins) && At(data, off, EncInputs(ins)) ==> r == Some(ins)
  {
    var out: seq<(Level, Path)> := [];
    var end := off;
    assert EncInputs(out) == [];
    AtEmpty(data, off);
    hide EncInputs, EncPath, At, PathEncodable;
    for i := 0 to count
      invariant |out| == i && end == off + |EncInputs(out)|
      invariant At(data, off, EncInputs(out)) && InputsOk(out)
      invariant forall ins: seq<(Level, Path)> {:trigger EncInputs(ins)} ::
        |ins| == count && InputsOk(ins) && At(data, off, EncInputs(ins)) ==> ins[..i] == out
    {
      NextInput(data, off, count, out);
      if end >= |data| {
        return None;
      }
      var b := data[end];
      if b >= MAX_LEVELS {
        return None;
      }
      var path, next := DecodePath(data, end + 1);
      if path.None? {
        return None;
      }
      AtByte(data, end, b);
      InputPush(data, off, out, (b, path.value));
      out := out + [(b, path.value)];
      end := next;
    }
    forall ins: seq<(Level, Path)> {:trigger EncInputs(ins)} |
      |ins| == count && InputsOk(ins) && At(data, off, EncInputs(ins))
      ensures ins == out
    {
      assert ins[..count] == ins;
    }
    return Some(out);
  }

  /** `Starts`, field by field: the tag byte, the level bytes, and what follows. */
  predicate EntryReads(data: bytes, e: ManifestEntry) {
    match e
    case AddRun(l, meta) => |data| >= 2 && data[0] == 1 && data[1] == l && At(data, 2, EncMeta(meta))
    case RemoveRun(l, p) => |data| >= 2 && data[0] == 2 && data[1] == l && At(data, 2, EncPath(p))
    case PromoteRun(from, to, p) =>
      |data| >= 3 && data[0] == 3 && data[1] == from && data[2] == to && At(data, 3, EncPath(p))
    case SetSequence(s) => |data| >= 1 && data[0] == 4 && Read64(data, 1) == Some(s)
    case AddRunAndSequence(l, meta, s) =>
      |data| >= 2 && data[0] == 5 && data[1] == l && At(data, 2, EncMeta(meta))
      && Read64(data, 2 + |EncMeta(meta)|) == Some(s)
    case CompactionCommit(l, output, inputs) =>
      |data| >= 2 && data[0] == 6 && data[1] == l && At(data, 2, EncMeta(output))
      && Read32(data, 2 + |EncMeta(output)|) == Some(|inputs|)
      && At(data, 6 + |EncMeta(output)|, EncInputs(inputs))
  }

  lemma At2(data: bytes, a: u8, b: u8, s: bytes)
    ensures At(data, 0, [a, b] + s) <==> |data| >= 2 && data[0] == a && data[1] == b && At(data, 2, s)
  {
    AtConcat(data, 0, [a, b], s);
  }

  lemma EntryAt(data: bytes, e: ManifestEntry)
    ensures Starts(data, e) <==> Encodable(e) && EntryReads(data, e)
  {
    hide EncMeta, EncPath, EncInputs, Utf8;
    match e
    case AddRun(l, meta) => At2(data, 1, l, EncMeta(meta));
    case RemoveRun(l, p) => At2(data, 2, l, EncPath(p));
    case PromoteRun(from, to, p) =>
      AtConcat(data, 0, [3, from, to], EncPath(p));
    case SetSequence(s) =>
      AtConcat(data, 0, [4], Le64(s));
      Read64At(data, 1, s);
    case AddRunAndSequence(l, meta, s) =>
      At2(data, 5, l, EncMeta(meta) + Le64(s));
      AtConcat(data, 2, EncMeta(meta), Le64(s));
      Read64At(data, 2 + |EncMeta(meta)|, s);
    case CompactionCommit(l, output, inputs) =>
      CommitAt(data, l, output, inputs);
  }

  lemma CommitAt(data: bytes, l: Level, output: SortedRunMeta, inputs: seq<(Level, Path)>)
    ensures var e := CompactionCommit(l, output, inputs); Starts(data, e) <==> Encodable(e) && EntryReads(data, e)
  {
    hide EncMeta, EncInputs, MetaEncodable;
    if |inputs| <= MAX_COMPACTION_INPUTS {
      At5(data, l, EncMeta(output), Le32(|inputs|), EncInputs(inputs));
      Read32At(data, 2 + |EncMeta(output)|, |inputs|);
    }
  }

  lemma At5(data: bytes, l: Level, m: bytes, n: bytes, ins: bytes)
    ensures At(data, 0, [6, l] + (m + (n + ins))) <==>
      && |data| >= 2 && data[0] == 6 && data[1] == l && At(data, 2, m) && At(data, 2 + |m|, n)
      && At(data, 2 + |m| + |n|, ins)
  {
    At2(data, 6, l, m + (n + ins));
    AtConcat(data, 2, m, n + ins);
    AtConcat(data, 2 + |m|, n, ins);
  }

  /** decode_entry. Bytes after the entry are ignored, as in the code. */
  method DecodeEntry(data: bytes) returns (r: Option<ManifestEntry>)
    ensures r == ParseEntry(data)
    ensures forall e {:trigger Starts(data, e)} :: Starts(data, e) ==> r == Some(e)
  {
    r := DecodeTagged(data);
    forall e {:trigger Starts(data, e)} | Starts(data, e) ensures r == Some(e) {
      EntryAt(data, e);
    }
    if r.Some? {
      EntryAt(data, r.value);
    }
  }

  method DecodeTagged(data: bytes) returns (r: Option<ManifestEntry>)
    ensures r.Some? ==> Encodable(r.value) && EntryReads(data, r.value)
    ensures forall e {:trigger EntryReads(data, e)} :: Encodable(e) && EntryReads(data, e) ==> r == Some(e)
  {
    hide EncMeta, EncPath, EncInputs, At, MetaEncodable, PathEncodable;
    if |data| == 0 {
      return None;
    }
    var tag := data[0];
    if tag == 4 {
      var s := Read64(data, 1);
      return if s.None? then None else Some(SetSequence(s.value));
    }
    if tag == 0 || tag > 6 || |data| < 2 || data[1] >= MAX_LEVELS {
      return None;
    }
    var l: Level := data[1];
    if tag == 1 {
      var meta, _ := DecodeMeta(data, 2);
      return if meta.None? then None else Some(AddRun(l, meta.value));
    } else if tag == 2 {
      var path, _ := DecodePath(data, 2);
      return if path.None? then None else Some(RemoveRun(l, path.value));
    } else if tag == 3 {
      if |data| < 3 || data[2] >= MAX_LEVELS {
        return None;
      }
      var path, _ := DecodePath(data, 3);
      return if path.None? then None else Some(PromoteRun(l, data[2], path.value));
    } else if tag == 5 {
      var meta, end := DecodeMeta(data, 2);
      if meta.None? {
        return None;
      }
      var s := Read64(data, end);
      return if s.None? then None else Some(AddRunAndSequence(l, meta.value, s.value));
    } else {
      r := DecodeCommit(data, l);
    }
  }

  method DecodeCommit(data: bytes, l: Level) returns (r: Option<ManifestEntry>)
    requires |data| >= 2 && data[0] == 6 && data[1] == l
    ensures r.Some? ==> Encodable(r.value) && EntryReads(data, r.value)
    ensures forall e {:trigger EntryReads(data, e)} :: Encodable(e) && EntryReads(data, e) ==> r == Some(e)
  {
    hide EncMeta, EncInputs, At, Read32, MetaEncodable;
    var output, end := DecodeMeta(data, 2);
    if output.None? {
      return None;
    }
    var count := Read32(data, end);
    if count.None? || count.value > MAX_COMPACTION_INPUTS {
      return None;
    }
    var n: nat := count.value;
    var inputs := DecodeInputs(data, end + 4, n);
    return if inputs.None? then None else Some(CompactionCommit(l, output.value, inputs.value));
  }

  // ── What the codec promises ────────────────────────────────────────────────

  lemma PathUnique(data: bytes, off: nat, p: Path, q: Path)
    requires PathEncodable(p) && At(data, off, EncPath(p))
    requires PathEncodable(q) && At(data, off, EncPath(q))
    ensures p == q
  {
    PathAt(data, off, p);
    PathAt(data, off, q);
    Read16At(data, off, |p|);
    Read16At(data, off, |q|);
  }

  lemma U16sUnique(data: bytes, off: nat, c: seq<u16>, d: seq<u16>)
    requires |c| == |d| && At(data, off, EncU16s(c)) && At(data, off, EncU16s(d))
    ensures c == d
  {
    hide At, Le16, Read16;
    assert PrefixFree(Le16, (n: u16) => true) by {
      forall data: bytes, off: nat, x: u16, y: u16 | At(data, off, Le16(x)) && At(data, off, Le16(y)) ensures x == y {
        Read16At(data, off, x);
        Read16At(data, off, y);
      }
    }
    ListUnique(Le16, n => true, data, off, c, d);
  }

  lemma MetaUnique(data: bytes, off: nat, a: SortedRunMeta, b: SortedRunMeta)
    requires MetaEncodable(a) && At(data, off, EncMeta(a))
    requires MetaEncodable(b) && At(data, off, EncMeta(b))
    ensures a == b
  {
    hide EncMeta, EncPath, At, EncU16s, Read64, Read16;
    MetaAt(data, off, a);
    MetaAt(data, off, b);
    PathUnique(data, off, a.path, b.path);
    U16sUnique(data, off + |EncPath(a.path)| + 18, a.coverage, b.coverage);
  }

  predicate InputOk(e: (Level, Path)) { PathEncodable(e.1) }

  lemma InputsUnique(data: bytes, off: nat, a: seq<(Level, Path)>, b: seq<(Level, Path)>)
    requires |a| == |b| && InputsOk(a) && InputsOk(b)
    requires At(data, off, EncInputs(a)) && At(data, off, EncInputs(b))
    ensures a == b
  {
    hide At, EncPath, PathEncodable;
    assert PrefixFree(EncInput, InputOk) by {
      forall data: bytes, off: nat, x: (Level, Path), y: (Level, Path) |
        InputOk(x) && InputOk(y) && At(data, off, EncInput(x)) && At(data, off, EncInput(y))
        ensures x == y
      {
        AtConcat(data, off, [x.0], EncPath(x.1));
        AtConcat(data, off, [y.0], EncPath(y.1));
        AtByte(data, off, x.0);
        AtByte(data, off, y.0);
        PathUnique(data, off + 1, x.1, y.1);
      }
    }
    ListUnique(EncInput, InputOk, data, off, a, b);
  }

  /** At most one entry is at the start of any data: no encodable entry's encoding
      is a prefix of another's. */
  lemma EntryUnique(data: bytes, a: ManifestEntry, b: ManifestEntry)
    requires Starts(data, a) && Starts(data, b)
    ensures a == b
  {
    hide EncEntry, EncMeta, EncPath, At, EncInputs;
    EntryAt(data, a);
    EntryAt(data, b);
    match a
    case AddRun(_, meta) => MetaUnique(data, 2, meta, b.meta);
    case RemoveRun(_, p) => PathUnique(data, 2, p, b.path);
    case PromoteRun(_, _, p) => PathUnique(data, 3, p, b.path);
    case SetSequence(_) =>
    case AddRunAndSequence(_, meta, _) => MetaUnique(data, 2, meta, b.meta);
    case CompactionCommit(_, _, _) => CommitUnique(data, a, b);
  }

  lemma CommitUnique(data: bytes, a: ManifestEntry, b: ManifestEntry)
    requires a.CompactionCommit? && Encodable(a) && EntryReads(data, a)
    requires b.CompactionCommit? && Encodable(b) && EntryReads(data, b)
    ensures a == b
  {
    MetaUnique(data, 2, a.output, b.output);
    InputsUnique(data, 6 + |EncMeta(a.output)|, a.inputs, b.inputs);
  }

  /** Round trip, whatever follows the entry. */
  lemma EncodedParses(e: ManifestEntry, more: bytes)
    requires Encodable(e)
    ensures ParseEntry(EncEntry(e) + more) == Some(e)
  {
    assert Starts(EncEntry(e) + more, e);
    EntryUnique(EncEntry(e) + more, e, ParseEntry(EncEntry(e) + more).value);
  }

  lemma ParsesBack(e: ManifestEntry)
    requires Encodable(e)
    ensures ParseEntry(EncEntry(e)) == Some(e)
  {
    EncodedParses(e, []);
    NoSuffix(EncEntry(e));
  }

  lemma NoSuffix(s: bytes)
    ensures s + [] == s
  {
  }
}
