/** What recovery reads was written, and what was damaged stops it: the frames of the
    manifest log against the bytes of the file. */
module LogDamage {
  import opened Bytes
  import opened Bits
  import opened Manifest
  import opened EntryCodec
  import opened ManifestLog
  import opened LogRecovery

  // ── Frames that are read ───────────────────────────────────────────────────

  /** Length, checksum and payload, as they lie in a file; the checksum is any number. */
  function RawFrame(crc: u32, payload: bytes): bytes
    requires |payload| < 0x1_0000_0000
  {
    Le32(|payload|) + (Le32(crc) + payload)
  }

  lemma RawFields(file: bytes, pos: nat, crc: u32, payload: bytes)
    requires |payload| < 0x1_0000_0000
    ensures At(file, pos, RawFrame(crc, payload)) <==>
      Read32(file, pos) == Some(|payload|) && Read32(file, pos + 4) == Some(crc) && At(file, pos + 8, payload)
  {
    hide Le32, Read32, At;
    AtConcat(file, pos, Le32(|payload|), Le32(crc) + payload);
    AtConcat(file, pos + 4, Le32(crc), payload);
    Read32At(file, pos, |payload|);
    Read32At(file, pos + 4, crc);
  }

  /** A frame is read if and only if it lies there whole, within the payload limit, with the
      checksum of its payload. */
  lemma FrameReadIff(file: bytes, pos: nat, payload: bytes, next: nat)
    ensures ReadFrame(file, pos) == Frame(payload, next) <==>
      |payload| <= MAX_FRAME_PAYLOAD && next == pos + 8 + |payload| && At(file, pos, RawFrame(Crc32(payload), payload))
  {
    hide Crc32;
    if |payload| <= MAX_FRAME_PAYLOAD {
      RawFields(file, pos, Crc32(payload), payload);
    }
  }

  /** So whatever is read was framed. */
  lemma ReadIsFramed(file: bytes, pos: nat, payload: bytes, next: nat)
    requires ReadFrame(file, pos) == Frame(payload, next)
    ensures At(file, pos, FrameOf(payload)) && |payload| <= MAX_FRAME_PAYLOAD && next == pos + 8 + |payload|
  {
    hide Crc32, ReadFrame, At;
    FrameReadIff(file, pos, payload, next);
  }

  /** A stored checksum that is not the payload's. */
  lemma BadChecksum(file: bytes, pos: nat, crc: u32, payload: bytes)
    requires |payload| < 0x1_0000_0000 && At(file, pos, RawFrame(crc, payload)) && crc != Crc32(payload)
    ensures ReadFrame(file, pos) == Bad
  {
    hide Crc32;
    RawFields(file, pos, crc, payload);
  }

  // ── Recovery replays what was framed ───────────────────────────────────────

  lemma StepReads(file: bytes, pos: nat, m: ManifestState)
    requires ReplayStep(file, pos, m).Some?
    ensures ReadFrame(file, pos).Frame? && ReadFrame(file, pos).next == ReplayStep(file, pos, m).value.2
    ensures ParseEntry(ReadFrame(file, pos).payload) == Some(ReplayStep(file, pos, m).value.0)
  {
    hide ReadFrame, Apply, ParseEntry;
  }

  lemma AtSlice(file: bytes, pos: nat, s: bytes)
    requires At(file, pos, s)
    ensures pos + |s| <= |file| && file[pos..pos + |s|] == s
  {
  }

  lemma StepIsFramed(file: bytes, pos: nat, m: ManifestState) returns (payload: bytes)
    requires ReplayStep(file, pos, m).Some?
    ensures |payload| <= MAX_FRAME_PAYLOAD && ParseEntry(payload) == Some(ReplayStep(file, pos, m).value.0)
    ensures pos <= ReplayStep(file, pos, m).value.2 <= |file| && file[pos..ReplayStep(file, pos, m).value.2] == FrameOf(payload)
  {
    hide ReadFrame, FrameOf, Apply, ParseEntry, ReplayStep, At;
    StepReads(file, pos, m);
    payload := ReadFrame(file, pos).payload;
    ReadIsFramed(file, pos, payload, ReadFrame(file, pos).next);
    FrameLength(payload);
    AtSlice(file, pos, FrameOf(payload));
  }

  lemma {:induction false} ReplayIsFrames(file: bytes, pos: nat, m: ManifestState) returns (ps: seq<bytes>)
    requires pos <= |file|
    ensures |ps| == |Replayed(file, pos, m)|
    ensures forall i :: 0 <= i < |ps| ==> |ps[i]| <= MAX_FRAME_PAYLOAD && ParseEntry(ps[i]) == Some(Replayed(file, pos, m)[i])
    ensures file[pos..Replay(file, pos, m).1] == Concat(Parts(FrameOf, ps))
    decreases |file| - pos
  {
    hide ReplayStep, FrameOf, Apply, ParseEntry;
    var step := ReplayStep(file, pos, m);
    if step.None? {
      ps := [];
      assert Parts(FrameOf, ps) == [];
    } else {
      var payload := StepIsFramed(file, pos, m);
      var next := step.value.2;
      var rest := ReplayIsFrames(file, next, step.value.1);
      ps := [payload] + rest;
      FramesPush(payload, rest);
      SplitAt(file, pos, next, Replay(file, next, step.value.1).1);
    }
  }

  lemma FramesPush(payload: bytes, rest: seq<bytes>)
    ensures Concat(Parts(FrameOf, [payload] + rest)) == FrameOf(payload) + Concat(Parts(FrameOf, rest))
  {
    hide FrameOf;
    assert Parts(FrameOf, [payload] + rest) == [FrameOf(payload)] + Parts(FrameOf, rest);
  }

  lemma SplitAt(file: bytes, a: nat, b: nat, c: nat)
    requires a <= b <= c <= |file|
    ensures file[a..c] == file[a..b] + file[b..c]
  {
  }

  lemma FrameLength(payload: bytes)
    ensures |FrameOf(payload)| == 8 + |payload|
  {
  }

  /** Whatever bytes the file holds, the log recovery leaves is the header and, one after the
      other, whole frames with the checksums of their payloads, of which the entries replayed
      are decoded. */
  lemma RecoveredIsFramed(file: bytes, n: nat) returns (ps: seq<bytes>)
    requires RecoverFile(file, n).Some?
    ensures
      var es := Replayed(file, HEADER_SIZE, EmptyState(n));
      |ps| == |es| && forall i :: 0 <= i < |ps| ==> |ps[i]| <= MAX_FRAME_PAYLOAD && ParseEntry(ps[i]) == Some(es[i])
    ensures RecoverFile(file, n).value.file == file[..HEADER_SIZE] + Concat(Parts(FrameOf, ps))
  {
    hide ReadFrame, FrameOf, Apply, Replayed;
    ps := ReplayIsFrames(file, HEADER_SIZE, EmptyState(n));
    var end := RecoverFile(file, n).value.writePos;
    assert file[..end] == file[..HEADER_SIZE] + file[HEADER_SIZE..end];
  }

  // ── The sequence number ────────────────────────────────────────────────────

  /** The sequence number that the last of the entries to set one sets, or 0. */
  function LastSequence(es: seq<ManifestEntry>): u64 {
    if |es| == 0 then 0
    else
      match es[|es| - 1]
      case SetSequence(next) => next
      case AddRunAndSequence(_, _, next) => next
      case _ => LastSequence(es[..|es| - 1])
  }

  lemma StepSequence(m: ManifestState, e: ManifestEntry)
    requires Apply(m, e).Some?
    ensures Apply(m, e).value.nextSequence ==
      match e
      case SetSequence(next) => next
      case AddRunAndSequence(_, _, next) => next
      case _ => m.nextSequence
  {
  }

  lemma {:induction false} AppliedSequence(n: nat, es: seq<ManifestEntry>)
    requires ApplyAll(EmptyState(n), es).Some?
    ensures ApplyAll(EmptyState(n), es).value.nextSequence == LastSequence(es)
  {
    hide Apply;
    if |es| != 0 {
      var k := |es| - 1;
      ApplyLast(EmptyState(n), es, k);
      assert es[..k + 1] == es;
      AppliedSequence(n, es[..k]);
      StepSequence(ApplyAll(EmptyState(n), es[..k]).value, es[k]);
    }
  }

  /** The sequence number recovery finds is that of the last entry replayed that sets one,
      or 0. */
  lemma RecoveredSequence(file: bytes, n: nat)
    requires RecoverFile(file, n).Some?
    ensures RecoverFile(file, n).value.state.nextSequence == LastSequence(Replayed(file, HEADER_SIZE, EmptyState(n)))
  {
    hide RecoverFile, Replayed, ReadFrame, ApplyAll, LastSequence;
    RecoverMaximal(file, n);
    AppliedSequence(n, Replayed(file, HEADER_SIZE, EmptyState(n)));
  }

  // ── Damage ─────────────────────────────────────────────────────────────────

  /** Behind a clean log a frame with a wrong checksum is where recovery ends, whatever
      follows. */
  lemma RecoveryStopsAt(base: bytes, n: nat, m: ManifestState, crc: u32, payload: bytes, tail: bytes)
    requires Clean(base, n, m) && |payload| < 0x1_0000_0000 && crc != Crc32(payload)
    ensures RecoverFile(base + (RawFrame(crc, payload) + tail), n) == Some(Recovered(m, base, |base|))
  {
    hide Crc32, RawFrame;
    var frame := RawFrame(crc, payload);
    var file := base + (frame + tail);
    assert At(file, |base|, frame);
    BadChecksum(file, |base|, crc, payload);
    CleanExtends(base, n, m, frame + tail);
    assert file[..|base|] == base;
  }

  /** A frame of which a byte behind the length field has changed has the wrong checksum. */
  lemma DamagedFrame(payload: bytes, damaged: bytes, i: nat) returns (crc: u32, other: bytes)
    requires |payload| < 0x1_0000_0000 && 4 <= i && OneByteOff(FrameOf(payload), damaged, i)
    ensures |other| == |payload| && damaged == RawFrame(crc, other) && crc != Crc32(other)
  {
    hide Crc32, Le32;
    var frame := FrameOf(payload);
    assert frame[..4] == Le32(|payload|) && frame[4..8] == Le32(Crc32(payload)) && frame[8..] == payload;
    assert damaged[..4] == frame[..4];
    other := damaged[8..];
    U32Bound(damaged[4..8]);
    crc := FromLe(damaged[4..8]);
    assert Le32(crc) == damaged[4..8] by { LeOfField(damaged[4..8]); }
    assert damaged == damaged[..4] + (damaged[4..8] + damaged[8..]);
    if i < 8 {
      assert other == payload;
      assert damaged[4..8][i - 4] != frame[4..8][i - 4];
    } else {
      assert damaged[4..8] == frame[4..8];
      SameField(crc, Crc32(payload));
      OneByteChangesCrc(payload, other, i - 8);
    }
  }

  lemma LeOfField(s: bytes)
    requires |s| == 4
    ensures FromLe(s) < 0x1_0000_0000 && Le32(FromLe(s)) == s
  {
    U32Bound(s);
    LeFromLe(s);
  }

  lemma SameField(a: u32, b: u32)
    requires Le32(a) == Le32(b)
    ensures a == b
  {
    Pow256Values();
    FromLeLe(a, 4);
    FromLeLe(b, 4);
  }

  /** One byte of a logged entry has changed, in its checksum or in its payload: recovery
      finds exactly the entries before it, whatever lies behind. */
  lemma DamageStopsRecovery(n: u8, es: seq<ManifestEntry>, k: nat, damaged: bytes, i: nat, tail: bytes)
    requires GoodRun(EmptyState(n), es) && k < |es| && 4 <= i && OneByteOff(EntryFrame(es[k]), damaged, i)
    ensures ApplyAll(EmptyState(n), es[..k]).Some?
    ensures RecoverFile(LogOf(n, es[..k]) + (damaged + tail), n)
      == Some(Recovered(ApplyAll(EmptyState(n), es[..k]).value, LogOf(n, es[..k]), |LogOf(n, es[..k])|))
  {
    hide LogOf, EncEntry, RecoverFile, Clean, RawFrame, FrameOf;
    LogIsClean(n, es, k);
    EncodedBound(es[k]);
    var crc, other := DamagedFrame(EncEntry(es[k]), damaged, i);
    RecoveryStopsAt(LogOf(n, es[..k]), n, ApplyAll(EmptyState(n), es[..k]).value, crc, other, tail);
  }

  // ── The header ─────────────────────────────────────────────────────────────

  /** A log is opened if and only if it begins as a log of this many levels does: "MKMF",
      version 2, the number of levels, two bytes of any value. */
  lemma OpensIff(file: bytes, n: nat)
    ensures RecoverFile(file, n).Some? <==>
      |file| >= 8 && n < 0x100 && file[..6] == [0x4D, 0x4B, 0x4D, 0x46, 2, n]
  {
    hide Replay;
    if |file| >= 8 {
      assert file[..6][..4] == file[..4] && file[..6][4] == file[4] && file[..6][5] == file[5];
      if HeaderOk(file, n) {
        assert file[..6] == file[..4] + [file[4], file[5]];
      }
    }
  }

  /** A log kept for a manifest of `k` levels opens for no other number of levels. */
  lemma OpensForItsLevels(k: u8, es: seq<ManifestEntry>, n: nat)
    ensures RecoverFile(LogOf(k, es), n).Some? <==> n == k
  {
    hide RecoverFile, Frames;
    OpensIff(LogOf(k, es), n);
    assert LogOf(k, es)[..6] == [0x4D, 0x4B, 0x4D, 0x46, 2, k];
    assert LogOf(k, es)[..6][5] == k;
  }
}
