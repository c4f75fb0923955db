/** What the manifest log promises: torn tails, idempotent and maximal recovery,
    and exactly which appended entries a later recovery sees. */
module LogRecovery {
  import opened Bytes
  import opened Bits
  import opened Manifest
  import opened EntryCodec
  import opened ManifestLog

  // ── Replay reads only what it replays ──────────────────────────────────────

  lemma ReadFramePrefix(file: bytes, cut: nat, pos: nat)
    requires cut <= |file| && ReadFrame(file, pos).Frame? && ReadFrame(file, pos).next <= cut
    ensures ReadFrame(file[..cut], pos) == ReadFrame(file, pos)
  {
    var next := ReadFrame(file, pos).next;
    assert file[..cut][pos..pos + 4] == file[pos..pos + 4];
    assert file[..cut][pos + 4..pos + 8] == file[pos + 4..pos + 8];
    assert file[..cut][pos + 8..next] == file[pos + 8..next];
  }

  /** A replay from `pos` that ends at `p` is the same on any cut at or after `p`,
      up to `p`; what follows `p` only decides whether it goes on. */
  lemma {:induction false} ReplayCut(file: bytes, cut: nat, pos: nat, m: ManifestState)
    requires pos <= Replay(file, pos, m).1 <= cut <= |file|
    ensures Replay(file[..cut], pos, m) == Replay(file[..cut], Replay(file, pos, m).1, Replay(file, pos, m).0)
    decreases |file| - pos
  {
    var step := ReplayStep(file, pos, m);
    if step.Some? {
      ReadFramePrefix(file, cut, pos);
      ReplayCut(file, cut, step.value.2, step.value.1);
    }
  }

  lemma ReplayPastEnd(file: bytes, m: ManifestState)
    ensures Replay(file, |file|, m) == (m, |file|)
  {
  }

  /** Recovery is idempotent on arbitrary bytes: a second recovery finds the same
      manifest and position and truncates nothing. */
  lemma RecoverIdempotent(file: bytes, n: nat)
    requires RecoverFile(file, n).Some?
    ensures
      var r := RecoverFile(file, n).value;
      RecoverFile(r.file, n) == Some(r) && r.file <= file && r.writePos == |r.file|
  {
    var r := RecoverFile(file, n).value;
    ReplayCut(file, r.writePos, HEADER_SIZE, EmptyState(n));
    ReplayPastEnd(r.file, r.state);
    assert r.file[..4] == file[..4];
    assert r.file[..r.writePos] == r.file;
  }

  /** Recovery loses nothing it could keep: its manifest is the fold of the entries
      it replayed, and at the write position there is no frame, or an ill-formed
      one, or one that does not decode, or one that does not apply. */
  lemma RecoverMaximal(file: bytes, n: nat)
    requires RecoverFile(file, n).Some?
    ensures
      var r := RecoverFile(file, n).value;
      && ApplyAll(EmptyState(n), Replayed(file, HEADER_SIZE, EmptyState(n))) == Some(r.state)
      && (match ReadFrame(file, r.writePos)
          case Frame(payload, _) => ParseEntry(payload).None? || Apply(r.state, ParseEntry(payload).value).None?
          case _ => true)
  {
    ReplayFold(file, HEADER_SIZE, EmptyState(n));
  }

  lemma {:induction false} ReplayFold(file: bytes, pos: nat, m: ManifestState)
    ensures ApplyAll(m, Replayed(file, pos, m)) == Some(Replay(file, pos, m).0)
    ensures ReplayStep(file, Replay(file, pos, m).1, Replay(file, pos, m).0).None?
    decreases |file| - pos
  {
    var step := ReplayStep(file, pos, m);
    if step.Some? {
      ReplayFold(file, step.value.2, step.value.1);
      var es := Replayed(file, step.value.2, step.value.1);
      assert ([step.value.0] + es)[1..] == es;
    }
  }

  // ── Frames of entries ──────────────────────────────────────────────────────

  function EntryFrame(e: ManifestEntry): (f: bytes)
    ensures |f| == 8 + |EncEntry(e)|
  {
    FrameOf(EncEntry(e))
  }

  function Frames(es: seq<ManifestEntry>): bytes { Concat(Parts(EntryFrame, es)) }

  /** Entries that both the encoder and the frame reader accept. */
  predicate Loggable(e: ManifestEntry) { Encodable(e) && |EncEntry(e)| <= MAX_FRAME_PAYLOAD }

  /** No encodable entry is long enough for its frame's length field to wrap. */
  lemma EncodedBound(e: ManifestEntry)
    requires Encodable(e)
    ensures |EncEntry(e)| < 0x1_0000_0000
  {
    match e
    case AddRun(_, meta) => EncU16sLength(meta.coverage);
    case AddRunAndSequence(_, meta, _) => EncU16sLength(meta.coverage);
    case CompactionCommit(_, output, inputs) =>
      EncU16sLength(output.coverage);
      EncInputsBound(inputs);
    case _ =>
  }

  lemma {:induction false} EncInputsBound(inputs: seq<(Level, Path)>)
    requires InputsOk(inputs)
    ensures |EncInputs(inputs)| <= 65538 * |inputs|
  {
    if |inputs| != 0 {
      EncInputsBound(inputs[1..]);
      assert Parts(EncInput, inputs)[1..] == Parts(EncInput, inputs[1..]);
    }
  }

  lemma FrameFields(file: bytes, pos: nat, payload: bytes)
    requires |payload| < 0x1_0000_0000 && At(file, pos, FrameOf(payload))
    ensures Read32(file, pos) == Some(|payload|) && Read32(file, pos + 4) == Some(Crc32(payload))
    ensures At(file, pos + 8, payload)
  {
    hide Crc32;
    AtConcat(file, pos, Le32(|payload|), Le32(Crc32(payload)) + payload);
    AtConcat(file, pos + 4, Le32(Crc32(payload)), payload);
    Read32At(file, pos, |payload|);
    Read32At(file, pos + 4, Crc32(payload));
  }

  /** A frame that was written is read back exactly when its payload is within the
      reader's bound, which the writer does not check. */
  lemma FrameReadsBack(file: bytes, pos: nat, payload: bytes)
    requires |payload| < 0x1_0000_0000 && At(file, pos, FrameOf(payload))
    ensures ReadFrame(file, pos) ==
      if |payload| <= MAX_FRAME_PAYLOAD then Frame(payload, pos + 8 + |payload|) else Bad
  {
    FrameFields(file, pos, payload);
  }

  /** A proper prefix of a frame at the end of the file is no frame. */
  lemma TornFrame(file: bytes, payload: bytes, t: nat)
    requires |payload| < 0x1_0000_0000 && t < |FrameOf(payload)|
    ensures ReadFrame(file + FrameOf(payload)[..t], |file|) == if t == 0 then Eof else Bad
  {
    var torn := file + FrameOf(payload)[..t];
    if t >= 8 {
      var whole := file + FrameOf(payload);
      assert At(whole, |file|, FrameOf(payload));
      FrameFields(whole, |file|, payload);
      assert torn[|file|..|file| + 4] == whole[|file|..|file| + 4];
    }
  }

  // ── Clean logs ─────────────────────────────────────────────────────────────

  /** `file` is a log that replays to its very end, giving `m`. */
  ghost predicate Clean(file: bytes, n: nat, m: ManifestState) {
    HeaderOk(file, n) && Replay(file, HEADER_SIZE, EmptyState(n)) == (m, |file|)
  }

  lemma CleanRecovers(file: bytes, n: nat, m: ManifestState)
    requires Clean(file, n, m)
    ensures RecoverFile(file, n) == Some(Recovered(m, file, |file|))
  {
    assert file[..|file|] == file;
  }

  lemma RecoveredIsClean(file: bytes, n: nat)
    requires RecoverFile(file, n).Some?
    ensures Clean(RecoverFile(file, n).value.file, n, RecoverFile(file, n).value.state)
  {
    RecoverIdempotent(file, n);
  }

  lemma HeaderIsClean(n: u8)
    ensures Clean(Header(n), n, EmptyState(n))
  {
    assert Header(n)[..4] == MAGIC;
  }

  /** Behind a clean log replay goes on from the log's manifest. */
  lemma CleanExtends(file: bytes, n: nat, m: ManifestState, more: bytes)
    requires Clean(file, n, m)
    ensures HeaderOk(file + more, n)
    ensures Replay(file + more, HEADER_SIZE, EmptyState(n)) == Replay(file + more, |file|, m)
  {
    assert (file + more)[..4] == file[..4];
    ReplayExtend(file, more, HEADER_SIZE, EmptyState(n));
  }

  lemma {:induction false} ReplayExtend(file: bytes, more: bytes, pos: nat, m: ManifestState)
    requires Replay(file, pos, m).1 == |file|
    ensures Replay(file + more, pos, m) == Replay(file + more, |file|, Replay(file, pos, m).0)
    decreases |file| - pos
  {
    var step := ReplayStep(file, pos, m);
    if step.Some? {
      ReadFrameExtend(file, more, pos);
      ReplayExtend(file, more, step.value.2, step.value.1);
    }
  }

  lemma ReadFrameExtend(file: bytes, more: bytes, pos: nat)
    requires ReadFrame(file, pos).Frame?
    ensures ReadFrame(file + more, pos) == ReadFrame(file, pos)
  {
    var longer, next := file + more, ReadFrame(file, pos).next;
    assert longer[pos..pos + 4] == file[pos..pos + 4];
    assert longer[pos + 4..pos + 8] == file[pos + 4..pos + 8];
    assert longer[pos + 8..next] == file[pos + 8..next];
  }

  lemma StepOnPayload(file: bytes, pos: nat, m: ManifestState, payload: bytes, e: ManifestEntry)
    requires |payload| < 0x1_0000_0000 && At(file, pos, FrameOf(payload)) && ParseEntry(payload) == Some(e)
    ensures ReplayStep(file, pos, m) ==
      if |payload| <= MAX_FRAME_PAYLOAD && Apply(m, e).Some? then Some((e, Apply(m, e).value, pos + 8 + |payload|))
      else None
  {
    hide Crc32, FrameOf, At, ReadFrame, Apply;
    FrameReadsBack(file, pos, payload);
  }

  /** Replay at a written frame of `e`. */
  lemma StepOnFrame(file: bytes, pos: nat, m: ManifestState, e: ManifestEntry)
    requires Encodable(e) && At(file, pos, EntryFrame(e))
    ensures ReplayStep(file, pos, m) ==
      if Loggable(e) && Apply(m, e).Some? then Some((e, Apply(m, e).value, pos + |EntryFrame(e)|)) else None
  {
    hide EncEntry;
    EncodedBound(e);
    ParsesBack(e);
    StepOnPayload(file, pos, m, EncEntry(e), e);
  }

  lemma AtEnd(a: bytes, b: bytes)
    ensures At(a + b, |a|, b) && (a + b)[..|a|] == a && Overwrite(a, |a|, b) == a + b
  {
  }

  /** Appending to a clean log. When the payload is within the reader's bound the
      log stays clean with the entry applied; otherwise recovery discards the entry. */
  lemma AppendToClean(file: bytes, n: nat, m: ManifestState, e: ManifestEntry)
    requires Clean(file, n, m) && Encodable(e) && Apply(m, e).Some?
    ensures Overwrite(file, |file|, EntryFrame(e)) == file + EntryFrame(e)
    ensures Loggable(e) ==> Clean(file + EntryFrame(e), n, Apply(m, e).value)
    ensures !Loggable(e) ==> RecoverFile(file + EntryFrame(e), n) == Some(Recovered(m, file, |file|))
  {
    hide EncEntry, EntryFrame, At, Overwrite, Apply, ReplayStep, Encodable;
    var frame := EntryFrame(e);
    AtEnd(file, frame);
    StepOnFrame(file + frame, |file|, m, e);
    CleanExtends(file, n, m, frame);
    ReplayPastEnd(file + frame, Apply(m, e).value);
  }

  /** An appended entry that applies survives the next recovery if and only if its
      encoding fits MAX_FRAME_PAYLOAD. `append` returns Ok either way. */
  lemma AppendSurvivesIff(file: bytes, n: nat, m: ManifestState, e: ManifestEntry, after: Recovered)
    requires Clean(file, n, m) && Encodable(e) && Apply(m, e).Some? && Apply(m, e).value != m
    requires RecoverFile(Overwrite(file, |file|, EntryFrame(e)), n) == Some(after)
    ensures |EncEntry(e)| <= MAX_FRAME_PAYLOAD <==> after.state == Apply(m, e).value
    ensures |EncEntry(e)| > MAX_FRAME_PAYLOAD ==> after == Recovered(m, file, |file|)
  {
    hide EncEntry, EntryFrame, Apply, Encodable, Overwrite;
    AppendToClean(file, n, m, e);
    if Loggable(e) {
      CleanRecovers(file + EntryFrame(e), n, Apply(m, e).value);
    }
  }

  /** A crash inside an append, at any byte of the frame, recovers the log before it. */
  lemma TornAppend(file: bytes, n: nat, m: ManifestState, e: ManifestEntry, t: nat)
    requires Clean(file, n, m) && Encodable(e) && t < |EntryFrame(e)|
    ensures RecoverFile(file + EntryFrame(e)[..t], n) == Some(Recovered(m, file, |file|))
  {
    var torn := file + EntryFrame(e)[..t];
    EncodedBound(e);
    TornFrame(file, EncEntry(e), t);
    CleanExtends(file, n, m, EntryFrame(e)[..t]);
    assert torn[..|file|] == file;
  }

  // ── Torn tail at any byte of a whole log ───────────────────────────────────

  /** Every entry loggable, and the entries apply in turn. */
  ghost predicate GoodRun(m: ManifestState, es: seq<ManifestEntry>) {
    (forall i :: 0 <= i < |es| ==> Loggable(es[i])) && ApplyAll(m, es).Some?
  }

  lemma {:induction false} ApplyAllSplit(m: ManifestState, es: seq<ManifestEntry>, k: nat)
    requires k <= |es| && ApplyAll(m, es).Some?
    decreases k
    ensures ApplyAll(m, es[..k]).Some?
    ensures ApplyAll(ApplyAll(m, es[..k]).value, es[k..]) == ApplyAll(m, es)
  {
    if k != 0 {
      ApplyAllSplit(Apply(m, es[0]).value, es[1..], k - 1);
      assert es[..k][1..] == es[1..][..k - 1];
      assert es[1..][k - 1..] == es[k..];
    } else {
      assert es[0..] == es;
    }
  }

  function LogOf(n: u8, es: seq<ManifestEntry>): bytes { Header(n) + Frames(es) }

  lemma LogPush(n: u8, es: seq<ManifestEntry>, k: nat)
    requires k < |es|
    ensures LogOf(n, es[..k + 1]) == LogOf(n, es[..k]) + EntryFrame(es[k])
    ensures |Frames(es[..k + 1])| == |Frames(es[..k])| + |EntryFrame(es[k])|
  {
    PartsStep(EntryFrame, es, k);
    Assoc(Header(n), Frames(es[..k]), EntryFrame(es[k]));
  }

  lemma LogAppend(n: u8, a: seq<ManifestEntry>, b: seq<ManifestEntry>)
    ensures LogOf(n, a + b) == LogOf(n, a) + Frames(b)
  {
    PartsAppend(EntryFrame, a, b);
    Assoc(Header(n), Frames(a), Frames(b));
  }

  lemma ApplyLast(m: ManifestState, es: seq<ManifestEntry>, k: nat)
    requires k < |es| && ApplyAll(m, es).Some?
    ensures ApplyAll(m, es[..k]).Some? && ApplyAll(m, es[..k + 1]).Some?
    ensures Apply(ApplyAll(m, es[..k]).value, es[k]) == ApplyAll(m, es[..k + 1])
  {
    ApplyAllSplit(m, es, k + 1);
    ApplyAllSplit(m, es[..k + 1], k);
    assert es[..k + 1][..k] == es[..k] && es[..k + 1][k..] == [es[k]];
    ApplyOne(ApplyAll(m, es[..k]).value, es[k]);
  }

  lemma ApplyOne(m: ManifestState, e: ManifestEntry)
    ensures ApplyAll(m, [e]) == Apply(m, e)
  {
    assert [e][1..] == [];
  }

  /** The log of a good run is clean, and so is that of each of its prefixes. */
  lemma {:induction false} LogIsClean(n: u8, es: seq<ManifestEntry>, k: nat)
    requires GoodRun(EmptyState(n), es) && k <= |es|
    ensures ApplyAll(EmptyState(n), es[..k]).Some?
    ensures Clean(LogOf(n, es[..k]), n, ApplyAll(EmptyState(n), es[..k]).value)
    decreases k
  {
    if k == 0 {
      assert es[..0] == [];
      assert LogOf(n, []) == Header(n);
      HeaderIsClean(n);
    } else {
      LogIsClean(n, es, k - 1);
      LogIsCleanStep(n, es, k - 1);
    }
  }

  lemma LogIsCleanStep(n: u8, es: seq<ManifestEntry>, k: nat)
    requires GoodRun(EmptyState(n), es) && k < |es|
    requires ApplyAll(EmptyState(n), es[..k]).Some?
    requires Clean(LogOf(n, es[..k]), n, ApplyAll(EmptyState(n), es[..k]).value)
    ensures ApplyAll(EmptyState(n), es[..k + 1]).Some?
    ensures Clean(LogOf(n, es[..k + 1]), n, ApplyAll(EmptyState(n), es[..k + 1]).value)
  {
    ApplyLast(EmptyState(n), es, k);
    LogPush(n, es, k);
    AppendToClean(LogOf(n, es[..k]), n, ApplyAll(EmptyState(n), es[..k]).value, es[k]);
  }

  /** How many of the frames fit wholly in the first `c` bytes behind the header. */
  function WholeFrames(es: seq<ManifestEntry>, c: nat): (k: nat)
    ensures k <= |es|
    decreases |es|
  {
    if |es| == 0 || c < |EntryFrame(es[0])| then 0
    else 1 + WholeFrames(es[1..], c - |EntryFrame(es[0])|)
  }

  lemma {:induction false} WholeFramesFit(es: seq<ManifestEntry>, c: nat)
    ensures
      var k := WholeFrames(es, c);
      |Frames(es[..k])| <= c && (k < |es| ==> c < |Frames(es[..k + 1])|)
    decreases |es|
  {
    hide EntryFrame, EncEntry;
    assert es[..0] == [];
    assert Frames([]) == [];
    if |es| != 0 {
      FramesCons(es, 0);
      if c >= |EntryFrame(es[0])| {
        var k := WholeFrames(es[1..], c - |EntryFrame(es[0])|);
        WholeFramesFit(es[1..], c - |EntryFrame(es[0])|);
        FramesCons(es, k);
        if k + 1 < |es| {
          FramesCons(es, k + 1);
        }
      }
    }
  }

  lemma FramesCons(es: seq<ManifestEntry>, k: nat)
    requires k < |es|
    ensures |Frames(es[..k + 1])| == |EntryFrame(es[0])| + |Frames(es[1..][..k])|
  {
    hide EntryFrame;
    assert es[..k + 1] == [es[0]] + es[1..][..k];
    PartsAppend(EntryFrame, [es[0]], es[1..][..k]);
    assert Parts(EntryFrame, [es[0]]) == [EntryFrame(es[0])];
    ConcatOne(EntryFrame(es[0]));
  }

  /** Torn tail at any byte: cutting the log of a good run anywhere at or after its
      header recovers the fold of exactly the entries whose frames lie wholly before
      the cut, truncated and positioned behind the last of them. */
  lemma TornTail(n: u8, es: seq<ManifestEntry>, c: nat)
    requires GoodRun(EmptyState(n), es) && HEADER_SIZE <= c <= |LogOf(n, es)|
    ensures
      var kept := es[..WholeFrames(es, c - HEADER_SIZE)];
      && GoodRun(EmptyState(n), kept)
      && RecoverFile(LogOf(n, es)[..c], n)
        == Some(Recovered(ApplyAll(EmptyState(n), kept).value, LogOf(n, kept), |LogOf(n, kept)|))
  {
    hide EntryFrame, RecoverFile, Clean, Encodable, EncEntry;
    var k := WholeFrames(es, c - HEADER_SIZE);
    WholeFramesFit(es, c - HEADER_SIZE);
    LogIsClean(n, es, k);
    if k < |es| {
      LogPush(n, es, k);
    }
    if k == |es| {
      assert es[..k] == es;
      NoCut(LogOf(n, es), c);
      CleanRecovers(LogOf(n, es), n, ApplyAll(EmptyState(n), es).value);
    } else {
      TornInside(n, es, c, k);
    }
  }

  lemma NoCut(s: bytes, c: nat)
    requires c == |s|
    ensures s[..c] == s
  {
  }

  lemma TornInside(n: u8, es: seq<ManifestEntry>, c: nat, k: nat)
    requires k < |es| && ApplyAll(EmptyState(n), es[..k]).Some? && Encodable(es[k])
    requires Clean(LogOf(n, es[..k]), n, ApplyAll(EmptyState(n), es[..k]).value)
    requires |LogOf(n, es[..k])| <= c < |LogOf(n, es[..k])| + |EntryFrame(es[k])|
    requires c <= |LogOf(n, es)|
    ensures RecoverFile(LogOf(n, es)[..c], n)
      == Some(Recovered(ApplyAll(EmptyState(n), es[..k]).value, LogOf(n, es[..k]), |LogOf(n, es[..k])|))
  {
    hide LogOf, Frames, EntryFrame, RecoverFile, Clean, Encodable, EncEntry;
    var base, frame := LogOf(n, es[..k]), EntryFrame(es[k]);
    LogPush(n, es, k);
    LogAppend(n, es[..k + 1], es[k + 1..]);
    TakeDrop(es, k + 1);
    CutInFrame(base, frame, Frames(es[k + 1..]), c);
    TornAppend(base, n, ApplyAll(EmptyState(n), es[..k]).value, es[k], c - |base|);
  }

  lemma TakeDrop(es: seq<ManifestEntry>, k: nat)
    requires k <= |es|
    ensures es[..k] + es[k..] == es
  {
  }

  lemma CutInFrame(base: bytes, frame: bytes, rest: bytes, c: nat)
    requires |base| <= c <= |base| + |frame|
    ensures (base + frame + rest)[..c] == base + frame[..c - |base|]
  {
  }

  /** After a torn tail the log is used on: the recovered log followed by further
      good entries recovers as the kept prefix followed by the new entries. */
  lemma TornTailThenAppend(n: u8, es: seq<ManifestEntry>, c: nat, more: seq<ManifestEntry>, r: Recovered)
    requires GoodRun(EmptyState(n), es) && HEADER_SIZE <= c <= |LogOf(n, es)|
    requires RecoverFile(LogOf(n, es)[..c], n) == Some(r) && GoodRun(r.state, more)
    ensures
      var all := es[..WholeFrames(es, c - HEADER_SIZE)] + more;
      var file := r.file + Frames(more);
      GoodRun(EmptyState(n), all) && RecoverFile(file, n) == Some(Recovered(ApplyAll(EmptyState(n), all).value, file, |file|))
  {
    hide Frames, LogOf, WholeFrames, RecoverFile, Clean, Loggable;
    var kept := es[..WholeFrames(es, c - HEADER_SIZE)];
    var all := kept + more;
    TornTail(n, es, c);
    ApplyAllAppend(EmptyState(n), kept, more);
    LogIsClean(n, all, |all|);
    NoSlice(all);
    LogAppend(n, kept, more);
    CleanRecovers(LogOf(n, all), n, ApplyAll(EmptyState(n), all).value);
  }

  lemma NoSlice(es: seq<ManifestEntry>)
    ensures es[..|es|] == es
  {
  }

  lemma {:induction false} ApplyAllAppend(m: ManifestState, a: seq<ManifestEntry>, b: seq<ManifestEntry>)
    requires ApplyAll(m, a).Some?
    ensures ApplyAll(m, a + b) == ApplyAll(ApplyAll(m, a).value, b)
    decreases |a|
  {
    if |a| == 0 {
      assert a + b == b;
    } else {
      ApplyAllAppend(Apply(m, a[0]).value, a[1..], b);
      assert (a + b)[1..] == a[1..] + b;
    }
  }

  // ── Nothing good is lost ───────────────────────────────────────────────────

  lemma StepExtend(file: bytes, more: bytes, pos: nat, m: ManifestState)
    requires ReplayStep(file, pos, m).Some?
    ensures ReplayStep(file + more, pos, m) == ReplayStep(file, pos, m)
  {
    hide ReadFrame, Apply;
    ReadFrameExtend(file, more, pos);
  }

  /** Behind a log that replays to its end, replay applies what it applied before and
      then what follows. */
  lemma {:induction false} ReplayedExtend(file: bytes, more: bytes, pos: nat, m: ManifestState)
    requires Replay(file, pos, m).1 == |file|
    ensures Replayed(file + more, pos, m) == Replayed(file, pos, m) + Replayed(file + more, |file|, Replay(file, pos, m).0)
    decreases |file| - pos
  {
    hide ReplayStep, Apply;
    var step := ReplayStep(file, pos, m);
    if step.Some? {
      StepExtend(file, more, pos, m);
      ReplayedExtend(file, more, step.value.2, step.value.1);
    }
  }

  lemma ReplayedOne(file: bytes, pos: nat, m: ManifestState, e: ManifestEntry)
    requires Loggable(e) && Apply(m, e).Some? && At(file, pos, EntryFrame(e)) && |file| == pos + |EntryFrame(e)|
    ensures Replayed(file, pos, m) == [e]
  {
    hide EncEntry, EntryFrame, At, Apply, ReplayStep, ReadFrame;
    StepOnFrame(file, pos, m, e);
    ReplayedAtEnd(file, Apply(m, e).value);
  }

  lemma ReplayedAtEnd(file: bytes, m: ManifestState)
    ensures Replayed(file, |file|, m) == []
  {
  }

  lemma {:induction false} ReplayedIs(n: u8, es: seq<ManifestEntry>, k: nat)
    requires GoodRun(EmptyState(n), es) && k <= |es|
    ensures Replayed(LogOf(n, es[..k]), HEADER_SIZE, EmptyState(n)) == es[..k]
    decreases k
  {
    hide LogOf, Replayed, GoodRun;
    if k == 0 {
      ReplayedNothing(n);
      assert es[..0] == [];
    } else {
      ReplayedIs(n, es, k - 1);
      ReplayedPush(n, es, k - 1);
      assert es[..k] == es[..k - 1] + [es[k - 1]];
    }
  }

  lemma ReplayedNothing(n: u8)
    ensures Replayed(LogOf(n, []), HEADER_SIZE, EmptyState(n)) == []
  {
    assert LogOf(n, []) == Header(n);
    ReplayedAtEnd(Header(n), EmptyState(n));
  }

  lemma ReplayedPush(n: u8, es: seq<ManifestEntry>, k: nat)
    requires GoodRun(EmptyState(n), es) && k < |es|
    ensures Replayed(LogOf(n, es[..k + 1]), HEADER_SIZE, EmptyState(n)) ==
      Replayed(LogOf(n, es[..k]), HEADER_SIZE, EmptyState(n)) + [es[k]]
  {
    LogIsClean(n, es, k);
    ApplyLast(EmptyState(n), es, k);
    LogPush(n, es, k);
    hide EntryFrame, LogOf, Apply, ApplyAll, Replayed, Overwrite;
    var file, m := LogOf(n, es[..k]), ApplyAll(EmptyState(n), es[..k]).value;
    ReplayedExtend(file, EntryFrame(es[k]), HEADER_SIZE, EmptyState(n));
    AtEnd(file, EntryFrame(es[k]));
    ReplayedOne(file + EntryFrame(es[k]), |file|, m, es[k]);
  }

  /** Whatever bytes follow the log of a good run, recovery applies all of its entries
      first. */
  lemma GoodPrefixRecovered(n: u8, es: seq<ManifestEntry>, tail: bytes)
    requires GoodRun(EmptyState(n), es)
    ensures RecoverFile(LogOf(n, es) + tail, n).Some?
    ensures es <= Replayed(LogOf(n, es) + tail, HEADER_SIZE, EmptyState(n))
  {
    assert es[..|es|] == es;
    LogIsClean(n, es, |es|);
    ReplayedIs(n, es, |es|);
    hide LogOf, Replayed, ApplyAll;
    CleanExtends(LogOf(n, es), n, ApplyAll(EmptyState(n), es).value, tail);
    ReplayedExtend(LogOf(n, es), tail, HEADER_SIZE, EmptyState(n));
  }
}
