/** The append-only manifest log: checksummed frames behind an 8-byte header,
    replayed on recovery up to the first frame that does not hold. */
module ManifestLog {
  import opened Bytes
  import opened Bits
  import opened Manifest
  import opened EntryCodec

  const MAGIC: bytes := [0x4D, 0x4B, 0x4D, 0x46]
  const CURRENT_VERSION: u8 := 2
  const HEADER_SIZE: nat := 8
  const MAX_FRAME_PAYLOAD: nat := 1_048_576

  function Header(n: u8): bytes { MAGIC + [CURRENT_VERSION, n, 0, 0] }

  predicate HeaderOk(file: bytes, n: nat) {
    |file| >= HEADER_SIZE && file[..4] == MAGIC && file[4] == CURRENT_VERSION && file[5] == n
  }

  // ── Frames ─────────────────────────────────────────────────────────────────

  /** write_frame: the length field is the low 32 bits of the payload length. */
  function FrameOf(payload: bytes): bytes {
    Le32(|payload| % 0x1_0000_0000) + (Le32(Crc32(payload)) + payload)
  }

  datatype FrameRead = Eof | Bad | Frame(payload: bytes, next: nat)

  function ReadFrame(file: bytes, pos: nat): (r: FrameRead)
    ensures r.Frame? ==> pos + 8 <= r.next <= |file| && r.payload == file[pos + 8..r.next]
  {
    if pos >= |file| then Eof
    else
      var len := Read32(file, pos);
      var crc := Read32(file, pos + 4);
      if len.None? || crc.None? then Bad
      else if len.value > MAX_FRAME_PAYLOAD then Bad
      else
        var next: int := pos + 8 + len.value;
        if next > |file| then Bad
        else if Crc32(file[pos + 8..next]) != crc.value then Bad
        else Frame(file[pos + 8..next], next)
  }

  // ── Replay ─────────────────────────────────────────────────────────────────

  /** The frame at `pos`, decoded and applied to `m`: the manifest after it and the
      position behind it, or nothing when replay must stop here. */
  ghost function ReplayStep(file: bytes, pos: nat, m: ManifestState): (r: Option<(ManifestEntry, ManifestState, nat)>)
    ensures r.Some? ==> pos < r.value.2 <= |file| && Apply(m, r.value.0) == Some(r.value.1)
  {
    match ReadFrame(file, pos)
    case Frame(payload, next) =>
      var e := ParseEntry(payload);
      if e.Some? && Apply(m, e.value).Some? then Some((e.value, Apply(m, e.value).value, next)) else None
    case _ => None
  }

  ghost function Replay(file: bytes, pos: nat, m: ManifestState): (r: (ManifestState, nat))
    ensures pos <= r.1 && (pos <= |file| ==> r.1 <= |file|)
    decreases |file| - pos
  {
    var step := ReplayStep(file, pos, m);
    if step.None? then (m, pos) else Replay(file, step.value.2, step.value.1)
  }

  /** The entries that replay applies. */
  ghost function Replayed(file: bytes, pos: nat, m: ManifestState): seq<ManifestEntry>
    decreases |file| - pos
  {
    var step := ReplayStep(file, pos, m);
    if step.None? then [] else [step.value.0] + Replayed(file, step.value.2, step.value.1)
  }

  function ApplyAll(m: ManifestState, es: seq<ManifestEntry>): Option<ManifestState>
    decreases |es|
  {
    if |es| == 0 then Some(m)
    else
      var next := Apply(m, es[0]);
      if next.None? then None else ApplyAll(next.value, es[1..])
  }

  datatype Recovered = Recovered(state: ManifestState, file: bytes, writePos: nat)

  /** What recovering an existing log file yields: manifest, truncated file and
      write position; nothing when the header is refused. */
  ghost function RecoverFile(file: bytes, n: nat): (r: Option<Recovered>)
    ensures r.Some? ==> HEADER_SIZE <= r.value.writePos <= |file|
  {
    if !HeaderOk(file, n) then None
    else
      var (m, pos) := Replay(file, HEADER_SIZE, EmptyState(n));
      Some(Recovered(m, file[..pos], pos))
  }

  // ── The log object ─────────────────────────────────────────────────────────

  function Overwrite(file: bytes, pos: nat, s: bytes): bytes
    requires pos <= |file|
  {
    file[..pos] + s + (if pos + |s| < |file| then file[pos + |s|..] else [])
  }

  class Log {
    var file: bytes
    var writePos: nat

    ghost predicate Valid() reads this { writePos <= |file| }

    constructor (file: bytes, writePos: nat)
      requires writePos <= |file|
      ensures Valid() && this.file == file && this.writePos == writePos
    {
      this.file := file;
      this.writePos := writePos;
    }

    /** append: encode, frame and write at the write position. */
    method Append(e: ManifestEntry) returns (ok: bool)
      requires Valid()
      modifies this
      ensures Valid()
      ensures ok == Encodable(e)
      ensures !ok ==> file == old(file) && writePos == old(writePos)
      ensures ok ==> file == Overwrite(old(file), old(writePos), FrameOf(EncEntry(e)))
      ensures ok ==> writePos == old(writePos) + |FrameOf(EncEntry(e))|
    {
      var payload := EncodeEntry(e);
      if payload.None? {
        return false;
      }
      var frame := FrameOf(payload.value);
      file := Overwrite(file, writePos, frame);
      writePos := writePos + |frame|;
      return true;
    }
  }

  /** replay_frames: applies frames to a fresh manifest and truncates `log`'s file
      at the first one that is torn, corrupt, undecodable or inapplicable. */
  method ReplayFrames(log: Log, n: nat) returns (manifest: LsmManifest)
    requires HEADER_SIZE <= |log.file|
    modifies log
    ensures fresh(manifest) && manifest.Valid() && manifest.n == n && log.Valid()
    ensures (manifest.State(), log.writePos) == Replay(old(log.file), HEADER_SIZE, EmptyState(n))
    ensures log.file == old(log.file)[..log.writePos]
  {
    manifest := new LsmManifest(n);
    var pos := HEADER_SIZE;
    ghost var file := log.file;
    while true
      invariant fresh(manifest) && manifest.Valid() && manifest.n == n
      invariant log.file == file && pos <= |file|
      invariant Replay(file, pos, manifest.State()) == Replay(file, HEADER_SIZE, EmptyState(n))
      decreases |file| - pos
    {
      var frame := ReadFrame(log.file, pos);
      match frame {
        case Eof =>
          assert file[..pos] == file;
          break;
        case Bad =>
          log.file := log.file[..pos];
          break;
        case Frame(payload, next) =>
          var e := DecodeEntry(payload);
          if e.None? {
            log.file := log.file[..pos];
            break;
          }
          var ok := ApplyEntry(manifest, e.value);
          if !ok {
            log.file := log.file[..pos];
            break;
          }
          pos := next;
      }
    }
    log.writePos := pos;
  }

  /** recover: opens the log, or starts one when there is none. `disk` is the file's
      content. Nothing is returned when the header is refused or cannot be written. */
  method Recover(disk: Option<bytes>, n: nat) returns (r: Option<(LsmManifest, Log)>)
    ensures disk.None? ==> r.Some? == (n < 0x100)
    ensures disk.None? && r.Some? ==>
      Recovered(r.value.0.State(), r.value.1.file, r.value.1.writePos) == Recovered(EmptyState(n), Header(n), HEADER_SIZE)
    ensures disk.Some? ==> r.Some? == RecoverFile(disk.value, n).Some?
    ensures disk.Some? && r.Some? ==>
      Recovered(r.value.0.State(), r.value.1.file, r.value.1.writePos) == RecoverFile(disk.value, n).value
    ensures r.Some? ==> r.value.0.Valid() && r.value.0.n == n && r.value.1.Valid()
    ensures r.Some? ==> fresh(r.value.0) && fresh(r.value.1)
  {
    if disk.None? {
      if n >= 0x100 {
        return None;
      }
      var manifest := new LsmManifest(n);
      var log := new Log(Header(n), HEADER_SIZE);
      return Some((manifest, log));
    }
    if !HeaderOk(disk.value, n) {
      return None;
    }
    var log := new Log(disk.value, HEADER_SIZE);
    var manifest := ReplayFrames(log, n);
    return Some((manifest, log));
  }
}
