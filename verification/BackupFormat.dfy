/**
The backup file: a header, then frames sealed under the backup's own key, each
bound to the header, its position and whether it is the last
(backend/backup_format.py, the header and frame binding of backend/helpers.py).
AES-GCM is ideal: a box opens exactly when the key's owner sealed it.
*/
module BackupFormat {
  import opened Wrappers
  import opened ByteStrings

  const NONCE_BYTES := 12
  const TAG_BYTES := 16
  const HEADER_BYTES := 75
  const MAX_FRAMES := 1_000_001
  const MAGIC: Bytes := [67, 77, 66, 65, 67, 75, 85, 80]
  const VERSION := 2
  const ARGON2ID := 1

  datatype KdfParams = KdfParams(memoryKib: nat, iterations: nat, lanes: nat)

  datatype Header = Header(params: KdfParams, salt: Bytes, frames: nat, commitment: Bytes)

  datatype Error = Incomplete | NotABackup | DecryptionFailed | TooManyFrames | TooFewFrames

  predicate Supported(p: KdfParams) {
    19456 <= p.memoryKib <= 262144 && 1 <= p.iterations <= 10 && 1 <= p.lanes <= 8 && p.memoryKib >= 8 * p.lanes
  }

  // ----- Header -----------------------------------------------------------------

  predicate Packable(h: Header) {
    && Supported(h.params)
    && |h.salt| == 16 && |h.commitment| == 32
    && h.frames < UINT32_LIMIT
  }

  function Pack(h: Header): (b: Bytes)
    requires Packable(h)
    ensures |b| == HEADER_BYTES
  {
    MAGIC + BE16(VERSION) + [ARGON2ID] + BE32(h.params.memoryKib) + BE32(h.params.iterations) + BE32(h.params.lanes)
    + h.salt + BE32(h.frames) + h.commitment
  }

  function Parse(b: Bytes): Result<Header, Error> {
    if |b| != HEADER_BYTES then Err(Incomplete)
    else if b[..8] != MAGIC || FromBE16(b[8..10]) != VERSION || b[10] != ARGON2ID then Err(NotABackup)
    else
      var params := KdfParams(FromBE32(b[11..15]), FromBE32(b[15..19]), FromBE32(b[19..23]));
      var h := Header(params, b[23..39], FromBE32(b[39..43]), b[43..]);
      if !Supported(params) || h.frames < 1 then Err(NotABackup) else Ok(h)
  }

  lemma ParsePacked(h: Header)
    requires Packable(h) && h.frames >= 1
    ensures Parse(Pack(h)) == Ok(h)
  {
    var b := Pack(h);
    BE16RoundTrip(VERSION);
    BE32RoundTrip(h.params.memoryKib);
    BE32RoundTrip(h.params.iterations);
    BE32RoundTrip(h.params.lanes);
    BE32RoundTrip(h.frames);
    assert b[8..10] == BE16(VERSION) && b[11..15] == BE32(h.params.memoryKib) && b[15..19] == BE32(h.params.iterations);
    assert b[19..23] == BE32(h.params.lanes) && b[23..39] == h.salt && b[39..43] == BE32(h.frames)
           && b[43..] == h.commitment;
  }

  /** Nothing but a packed header parses: every byte is accounted for. */
  lemma ParsesOnlyPacked(b: Bytes)
    requires Parse(b).Ok?
    ensures Packable(Parse(b).value) && Pack(Parse(b).value) == b
  {
    var h := Parse(b).value;
    FromBE16RoundTrip(b[8..10]);
    FromBE32RoundTrip(b[11..15]);
    FromBE32RoundTrip(b[15..19]);
    FromBE32RoundTrip(b[19..23]);
    FromBE32RoundTrip(b[39..43]);
    assert b == b[..8] + b[8..10] + b[10..11] + b[11..15] + b[15..19] + b[19..23] + b[23..39] + b[39..43] + b[43..];
  }

  // ----- Frames -----------------------------------------------------------------

  /** What AES-GCM is given and returns: `bound` is the associated data. */
  datatype Box = Box(nonce: Bytes, ciphertext: Bytes, bound: Bytes)

  /** Every box sealed under one key, with what it holds. */
  type Sealings = map<Box, Bytes>

  /** One frame as the writer sealed it. */
  datatype Sent = Sent(plaintext: Bytes, nonce: Bytes, ciphertext: Bytes)

  predicate Sealable(s: Sent) {
    |s.nonce| == NONCE_BYTES && |s.ciphertext| == |s.plaintext| + TAG_BYTES && |s.ciphertext| < UINT32_LIMIT
  }

  function FrameBinding(header: Bytes, index: nat, last: bool): Bytes
    requires index < UINT32_LIMIT
  {
    header + BE32(index) + [if last then 1 else 0]
  }

  function FrameBytes(s: Sent): Bytes
    requires Sealable(s)
  {
    BE32(|s.ciphertext|) + s.nonce + s.ciphertext
  }

  function BoxOf(header: Bytes, frames: nat, index: nat, s: Sent): Box
    requires index < frames < UINT32_LIMIT
  {
    Box(s.nonce, s.ciphertext, FrameBinding(header, index, index == frames - 1))
  }

  function SealingsOf(header: Bytes, frames: nat, sent: seq<Sent>): Sealings
    requires |sent| <= frames < UINT32_LIMIT
  {
    if sent == [] then map[]
    else
      var i := |sent| - 1;
      SealingsOf(header, frames, sent[..i])[BoxOf(header, frames, i, sent[i]) := sent[i].plaintext]
  }

  predicate AllSealable(sent: seq<Sent>) { forall i :: 0 <= i < |sent| ==> Sealable(sent[i]) }

  /** The bytes of frames `index` on. */
  function FramesFrom(sent: seq<Sent>, index: nat): Bytes
    requires index <= |sent| && AllSealable(sent)
    decreases |sent| - index
  {
    if index == |sent| then [] else FrameBytes(sent[index]) + FramesFrom(sent, index + 1)
  }

  function FileOf(header: Bytes, sent: seq<Sent>): Bytes
    requires AllSealable(sent)
  {
    header + FramesFrom(sent, 0)
  }

  lemma BindingInjective(header: Bytes, header': Bytes, i: nat, j: nat, last: bool, last': bool)
    requires |header| == |header'| && i < UINT32_LIMIT && j < UINT32_LIMIT
    requires FrameBinding(header, i, last) == FrameBinding(header', j, last')
    ensures header == header' && i == j && last == last'
  {
    var n := |header|;
    var b := FrameBinding(header, i, last);
    var b' := FrameBinding(header', j, last');
    assert b[..n] == header && b'[..n] == header';
    assert b[n..n + 4] == BE32(i) && b'[n..n + 4] == BE32(j);
    assert b[n + 4] == b'[n + 4];
    BE32RoundTrip(i);
    BE32RoundTrip(j);
  }

  /** A box opens only at the position it was sealed for, under its own header. */
  lemma {:induction false} OpensOnlyInPlace(header: Bytes, frames: nat, sent: seq<Sent>, header': Bytes, index: nat,
          last: bool, nonce: Bytes, ciphertext: Bytes)
    requires |sent| <= frames < UINT32_LIMIT && index < UINT32_LIMIT && |header| == |header'|
    requires Box(nonce, ciphertext, FrameBinding(header', index, last)) in SealingsOf(header, frames, sent)
    ensures header' == header && index < |sent|
    ensures sent[index].nonce == nonce && sent[index].ciphertext == ciphertext
    ensures SealingsOf(header, frames, sent)[Box(nonce, ciphertext, FrameBinding(header', index, last))]
            == sent[index].plaintext
  {
    var i := |sent| - 1;
    var box := Box(nonce, ciphertext, FrameBinding(header', index, last));
    if box == BoxOf(header, frames, i, sent[i]) {
      BindingInjective(header', header, index, i, last, i == frames - 1);
    } else {
      OpensOnlyInPlace(header, frames, sent[..i], header', index, last, nonce, ciphertext);
    }
  }

  lemma {:induction false} OpensInPlace(header: Bytes, frames: nat, sent: seq<Sent>, index: nat)
    requires index < |sent| <= frames < UINT32_LIMIT
    ensures BoxOf(header, frames, index, sent[index]) in SealingsOf(header, frames, sent)
    ensures SealingsOf(header, frames, sent)[BoxOf(header, frames, index, sent[index])] == sent[index].plaintext
  {
    var i := |sent| - 1;
    if index < i {
      OpensInPlace(header, frames, sent[..i], index);
      if BoxOf(header, frames, index, sent[index]) == BoxOf(header, frames, i, sent[i]) {
        BindingInjective(header, header, index, i, index == frames - 1, i == frames - 1);
      }
    }
  }

  // ----- Reading ------------------------------------------------------------------

  /** One frame, and the bytes after it. */
  function ReadFrame(sealings: Sealings, header: Bytes, frames: nat, index: nat, rest: Bytes,
          maxBytes: nat): Result<(Bytes, Bytes), Error>
    requires index <= frames < UINT32_LIMIT
  {
    if index >= frames || |rest| < 4 then Err(Incomplete)
    else
      var length := FromBE32(rest[..4]);
      if length < TAG_BYTES || length > maxBytes + TAG_BYTES || |rest| < 4 + NONCE_BYTES + length then Err(Incomplete)
      else
        var nonce := rest[4..4 + NONCE_BYTES];
        var ciphertext := rest[4 + NONCE_BYTES..4 + NONCE_BYTES + length];
        var box := Box(nonce, ciphertext, FrameBinding(header, index, index == frames - 1));
        if box !in sealings then Err(DecryptionFailed)
        else Ok((sealings[box], rest[4 + NONCE_BYTES + length..]))
  }

  /** One read for each of `maxes`, in order. */
  function ReadFrames(sealings: Sealings, header: Bytes, frames: nat, index: nat, rest: Bytes,
          maxes: seq<nat>): Result<(seq<Bytes>, Bytes), Error>
    requires index + |maxes| <= frames < UINT32_LIMIT
    decreases |maxes|
  {
    if maxes == [] then Ok(([], rest))
    else
      match ReadFrame(sealings, header, frames, index, rest, maxes[0])
      case Err(e) => Err(e)
      case Ok((plaintext, after)) =>
        match ReadFrames(sealings, header, frames, index + 1, after, maxes[1..])
        case Err(e) => Err(e)
        case Ok((more, end)) => Ok(([plaintext] + more, end))
  }

  /** The whole file: header, one read per announced frame, `finish`. */
  function ReadFile(sealings: Sealings, file: Bytes, maxes: seq<nat>): Result<seq<Bytes>, Error> {
    if |file| < HEADER_BYTES then Err(Incomplete)
    else
      var header := file[..HEADER_BYTES];
      match Parse(header)
      case Err(e) => Err(e)
      case Ok(h) =>
        if h.frames > MAX_FRAMES then Err(TooManyFrames)
        else if |maxes| != h.frames then Err(Incomplete)
        else
          match ReadFrames(sealings, header, h.frames, 0, file[HEADER_BYTES..], maxes)
          case Err(e) => Err(e)
          case Ok((plaintexts, end)) => if end == [] then Ok(plaintexts) else Err(Incomplete)
  }

  function Plaintexts(sent: seq<Sent>): (p: seq<Bytes>)
    ensures |p| == |sent| && forall i :: 0 <= i < |sent| ==> p[i] == sent[i].plaintext
  {
    seq(|sent|, i requires 0 <= i < |sent| => sent[i].plaintext)
  }

  lemma FrameSplits(s: Sent, after: Bytes)
    requires Sealable(s)
    ensures var b := FrameBytes(s) + after;
            && b[..4] == BE32(|s.ciphertext|)
            && b[4..4 + NONCE_BYTES] == s.nonce
            && b[4 + NONCE_BYTES..4 + NONCE_BYTES + |s.ciphertext|] == s.ciphertext
            && b[4 + NONCE_BYTES + |s.ciphertext|..] == after
  {
  }

  lemma FrameReadsBack(header: Bytes, frames: nat, sent: seq<Sent>, index: nat, after: Bytes, max: nat)
    requires index < |sent| == frames < UINT32_LIMIT && AllSealable(sent) && |sent[index].plaintext| <= max
    ensures ReadFrame(SealingsOf(header, frames, sent), header, frames, index, FrameBytes(sent[index]) + after, max)
         == Ok((sent[index].plaintext, after))
  {
    FrameSplits(sent[index], after);
    BE32RoundTrip(|sent[index].ciphertext|);
    OpensInPlace(header, frames, sent, index);
  }

  lemma {:induction false} ReadsWhatWasWritten(header: Bytes, frames: nat, sent: seq<Sent>, sealings: Sealings,
          index: nat, maxes: seq<nat>)
    requires |sent| == frames < UINT32_LIMIT && AllSealable(sent) && index + |maxes| == frames
    requires sealings == SealingsOf(header, frames, sent)
    requires forall i :: 0 <= i < |maxes| ==> |sent[index + i].plaintext| <= maxes[i]
    ensures ReadFrames(sealings, header, frames, index, FramesFrom(sent, index), maxes)
         == Ok((Plaintexts(sent[index..]), []))
    decreases |maxes|
  {
    if maxes != [] {
      FrameReadsBack(header, frames, sent, index, FramesFrom(sent, index + 1), maxes[0]);
      ReadsWhatWasWritten(header, frames, sent, sealings, index + 1, maxes[1..]);
      FramesStep(sent, index, []);
    }
  }

  /** A frame that reads without error was written, and at that position. */
  lemma OnlyWrittenFrameReads(header: Bytes, frames: nat, sent: seq<Sent>, header': Bytes, frames': nat, index: nat,
          rest: Bytes, max: nat)
    requires |sent| <= frames < UINT32_LIMIT && AllSealable(sent)
    requires |header| == |header'| && index <= frames' < UINT32_LIMIT
    requires ReadFrame(SealingsOf(header, frames, sent), header', frames', index, rest, max).Ok?
    ensures header' == header && index < |sent|
    ensures var (plaintext, after) :=
              ReadFrame(SealingsOf(header, frames, sent), header', frames', index, rest, max).value;
            plaintext == sent[index].plaintext && rest == FrameBytes(sent[index]) + after
  {
    var length := FromBE32(rest[..4]);
    var nonce := rest[4..4 + NONCE_BYTES];
    var ciphertext := rest[4 + NONCE_BYTES..4 + NONCE_BYTES + length];
    OpensOnlyInPlace(header, frames, sent, header', index, index == frames' - 1, nonce, ciphertext);
    FromBE32RoundTrip(rest[..4]);
    assert rest == rest[..4] + nonce + ciphertext + rest[4 + NONCE_BYTES + length..];
  }

  lemma {:induction false} ReadsNoFurther(header: Bytes, frames: nat, sent: seq<Sent>, header': Bytes, frames': nat,
          index: nat, rest: Bytes, maxes: seq<nat>)
    requires |sent| <= frames < UINT32_LIMIT && AllSealable(sent)
    requires |header| == |header'| && index + |maxes| == frames' < UINT32_LIMIT && maxes != []
    requires ReadFrames(SealingsOf(header, frames, sent), header', frames', index, rest, maxes).Ok?
    ensures header' == header && frames' <= |sent|
    decreases |maxes|
  {
    OnlyWrittenFrameReads(header, frames, sent, header', frames', index, rest, maxes[0]);
    if |maxes| > 1 {
      var after := ReadFrame(SealingsOf(header, frames, sent), header', frames', index, rest, maxes[0]).value.1;
      ReadsNoFurther(header, frames, sent, header', frames', index + 1, after, maxes[1..]);
    }
  }

  lemma FramesStep(sent: seq<Sent>, index: nat, end: Bytes)
    requires index < |sent| && AllSealable(sent)
    ensures FrameBytes(sent[index]) + (FramesFrom(sent, index + 1) + end) == FramesFrom(sent, index) + end
    ensures Plaintexts(sent[index..]) == [sent[index].plaintext] + Plaintexts(sent[index + 1..])
  {
  }

  lemma {:induction false} OnlyWrittenFramesRead(header: Bytes, frames: nat, sent: seq<Sent>, sealings: Sealings,
          index: nat, rest: Bytes, maxes: seq<nat>, plaintexts: seq<Bytes>, end: Bytes)
    requires |sent| == frames < UINT32_LIMIT && AllSealable(sent) && index + |maxes| == frames
    requires sealings == SealingsOf(header, frames, sent)
    requires ReadFrames(sealings, header, frames, index, rest, maxes) == Ok((plaintexts, end))
    ensures plaintexts == Plaintexts(sent[index..]) && rest == FramesFrom(sent, index) + end
    decreases |maxes|
  {
    if maxes != [] {
      OnlyWrittenFrameReads(header, frames, sent, header, frames, index, rest, maxes[0]);
      var (plaintext, after) := ReadFrame(sealings, header, frames, index, rest, maxes[0]).value;
      var more := ReadFrames(sealings, header, frames, index + 1, after, maxes[1..]).value.0;
      OnlyWrittenFramesRead(header, frames, sent, sealings, index + 1, after, maxes[1..], more, end);
      FramesStep(sent, index, end);
    }
  }

  /** The writer's finished file reads back, frame by frame, under limits that
      allow its frames. */
  lemma WriterOutputReads(h: Header, sent: seq<Sent>, maxes: seq<nat>)
    requires Packable(h) && 1 <= h.frames <= MAX_FRAMES && |sent| == h.frames && AllSealable(sent)
    requires |maxes| == h.frames && forall i :: 0 <= i < |maxes| ==> |sent[i].plaintext| <= maxes[i]
    ensures ReadFile(SealingsOf(Pack(h), h.frames, sent), FileOf(Pack(h), sent), maxes) == Ok(Plaintexts(sent))
  {
    FileSplits(Pack(h), FramesFrom(sent, 0));
    ParsePacked(h);
    WriterFramesRead(Pack(h), h.frames, sent, maxes);
  }

  lemma FileSplits(header: Bytes, frames: Bytes)
    requires |header| == HEADER_BYTES
    ensures (header + frames)[..HEADER_BYTES] == header && (header + frames)[HEADER_BYTES..] == frames
  {
  }

  lemma WriterFramesRead(header: Bytes, frames: nat, sent: seq<Sent>, maxes: seq<nat>)
    requires |sent| == |maxes| == frames < UINT32_LIMIT && AllSealable(sent)
    requires forall i :: 0 <= i < |maxes| ==> |sent[i].plaintext| <= maxes[i]
    ensures ReadFrames(SealingsOf(header, frames, sent), header, frames, 0, FramesFrom(sent, 0), maxes)
         == Ok((Plaintexts(sent), []))
  {
    ReadsWhatWasWritten(header, frames, sent, SealingsOf(header, frames, sent), 0, maxes);
    assert sent[0..] == sent;
  }

  lemma OnlyWriterFramesRead(h: Header, sent: seq<Sent>, sealings: Sealings, header: Bytes, rest: Bytes,
          maxes: seq<nat>)
    requires Packable(h) && |sent| == h.frames && AllSealable(sent)
    requires header == Pack(h) && Parse(header) == Ok(h) && sealings == SealingsOf(header, h.frames, sent)
    requires ReadFile(sealings, header + rest, maxes).Ok?
    ensures rest == FramesFrom(sent, 0)
    ensures ReadFile(sealings, header + rest, maxes).value == Plaintexts(sent)
  {
    FileSplits(header, rest);
    var plaintexts := ReadFile(sealings, header + rest, maxes).value;
    OnlyWrittenFramesRead(header, h.frames, sent, sealings, 0, rest, maxes, plaintexts, []);
    assert sent[0..] == sent;
  }

  lemma HeaderIsWriters(h: Header, sent: seq<Sent>, sealings: Sealings, file: Bytes, maxes: seq<nat>)
    requires Packable(h) && |sent| <= h.frames && AllSealable(sent)
    requires sealings == SealingsOf(Pack(h), h.frames, sent) && ReadFile(sealings, file, maxes).Ok?
    ensures |sent| == h.frames && |file| >= HEADER_BYTES && file[..HEADER_BYTES] == Pack(h) && Parse(Pack(h)) == Ok(h)
  {
    var header := file[..HEADER_BYTES];
    var h' := Parse(header).value;
    ParsesOnlyPacked(header);
    ReadsNoFurther(Pack(h), h.frames, sent, header, h'.frames, 0, file[HEADER_BYTES..], maxes);
    ParsedAlike(h, h');
  }

  /** The only byte string that reads to the end is the writer's own finished
      file: nothing truncated, reordered, repeated, extended, moved from another
      backup or left unfinished does. */
  lemma OnlyWriterOutputReads(h: Header, header: Bytes, sent: seq<Sent>, sealings: Sealings, file: Bytes,
          maxes: seq<nat>)
    requires Packable(h) && header == Pack(h) && |sent| <= h.frames && AllSealable(sent)
    requires sealings == SealingsOf(header, h.frames, sent)
    requires ReadFile(sealings, file, maxes).Ok?
    ensures |sent| == h.frames
    ensures file == FileOf(header, sent)
    ensures ReadFile(sealings, file, maxes).value == Plaintexts(sent)
  {
    HeaderIsWriters(h, sent, sealings, file, maxes);
    var rest := file[HEADER_BYTES..];
    assert file == header + rest;
    OnlyWriterFramesRead(h, sent, sealings, header, rest, maxes);
  }

  lemma ParsedAlike(h: Header, h': Header)
    requires Packable(h) && Packable(h') && Pack(h) == Pack(h') && h'.frames >= 1
    ensures h == h'
  {
    var b := Pack(h);
    var b' := Pack(h');
    assert b[39..43] == BE32(h.frames) && b'[39..43] == BE32(h'.frames);
    BE32RoundTrip(h.frames);
    BE32RoundTrip(h'.frames);
    ParsePacked(h);
    ParsePacked(h');
  }

  // ----- The writer and the reader at work ------------------------------------------

  class BackupWriter {
    const header: Bytes
    const frames: nat
    var target: Bytes
    var index: nat
    var sealings: Sealings        // what this backup's key has sealed
    ghost var sent: seq<Sent>

    ghost predicate Valid()
      reads this
    {
      && |header| == HEADER_BYTES
      && index == |sent| <= frames < UINT32_LIMIT
      && AllSealable(sent)
      && target == FileOf(header, sent)
      && sealings == SealingsOf(header, frames, sent)
    }

    constructor (h: Header)
      requires Packable(h)
      ensures Valid() && sent == [] && header == Pack(h) && frames == h.frames
    {
      header := Pack(h);
      frames := h.frames;
      target := Pack(h);
      index := 0;
      sealings := map[];
      sent := [];
    }

    /** `nonce` and `ciphertext` are what sealing returns; false where the code
        raises because the header announced fewer frames. */
    method Write(plaintext: Bytes, nonce: Bytes, ciphertext: Bytes) returns (ok: bool)
      requires Valid() && Sealable(Sent(plaintext, nonce, ciphertext))
      modifies this
      ensures Valid()
      ensures ok <==> |old(sent)| < frames
      ensures sent == if ok then old(sent) + [Sent(plaintext, nonce, ciphertext)] else old(sent)
    {
      if index >= frames { return false; }
      var last := index == frames - 1;
      sealings := sealings[Box(nonce, ciphertext, FrameBinding(header, index, last)) := plaintext];
      target := target + BE32(|ciphertext|) + nonce + ciphertext;
      index := index + 1;
      FramesAppend(sent, Sent(plaintext, nonce, ciphertext), 0);
      sent := sent + [Sent(plaintext, nonce, ciphertext)];
      assert sent[..|sent| - 1] == old(sent);
      ok := true;
    }

    method Finish() returns (ok: bool)
      requires Valid()
      ensures ok <==> |sent| == frames
    {
      ok := index == frames;
    }
  }

  lemma {:induction false} FramesAppend(sent: seq<Sent>, s: Sent, index: nat)
    requires index <= |sent| && AllSealable(sent) && Sealable(s)
    ensures AllSealable(sent + [s])
    ensures FramesFrom(sent + [s], index) == FramesFrom(sent, index) + FrameBytes(s)
    decreases |sent| - index
  {
    if index < |sent| {
      FramesAppend(sent, s, index + 1);
    } else {
      assert FramesFrom(sent + [s], index + 1) == [];
    }
  }

  class BackupReader {
    const sealings: Sealings
    var rest: Bytes               // of the source, from its position on
    var header: Bytes
    var frames: nat
    var index: nat

    constructor (sealings: Sealings, source: Bytes)
      ensures this.sealings == sealings && rest == source && index == 0
    {
      this.sealings := sealings;
      rest, header, frames, index := source, [], 0, 0;
    }

    predicate Started()
      reads this
    {
      index <= frames < UINT32_LIMIT
    }

    /** `_read_exactly`: a short read raises. */
    method ReadExactly(size: nat) returns (r: Result<Bytes, Error>)
      modifies this`rest
      ensures if |old(rest)| >= size then r == Ok(old(rest)[..size]) && rest == old(rest)[size..]
              else r == Err(Incomplete) && rest == []
    {
      var n := if |rest| >= size then size else |rest|;
      var data := rest[..n];
      rest := rest[n..];
      r := if |data| == size then Ok(data) else Err(Incomplete);
    }

    method Start() returns (r: Result<Header, Error>)
      requires index == 0
      modifies this`rest, this`header, this`frames
      ensures r == if |old(rest)| < HEADER_BYTES then Err(Incomplete)
                   else match Parse(old(rest)[..HEADER_BYTES])
                        case Err(e) => Err(e)
                        case Ok(h) => if h.frames > MAX_FRAMES then Err(TooManyFrames) else Ok(h)
      ensures r.Ok? ==> Started() && header == old(rest)[..HEADER_BYTES] && frames == r.value.frames
                        && rest == old(rest)[HEADER_BYTES..]
    {
      var data := ReadExactly(HEADER_BYTES);
      if data.Err? { return Err(data.error); }
      header := data.value;
      var parsed := Parse(header);
      if parsed.Err? { return parsed; }
      if parsed.value.frames > MAX_FRAMES { return Err(TooManyFrames); }
      frames := parsed.value.frames;
      r := parsed;
    }

    /** One frame, as `ReadFrame` says. */
    method Read(maxBytes: nat) returns (r: Result<Bytes, Error>)
      requires Started()
      modifies this`rest, this`index
      ensures match ReadFrame(sealings, header, frames, old(index), old(rest), maxBytes)
              case Err(e) => r == Err(e) && index == old(index)
              case Ok((plaintext, after)) => r == Ok(plaintext) && rest == after && index == old(index) + 1
      ensures Started()
    {
      if index >= frames { return Err(Incomplete); }
      var prefix := ReadExactly(4);
      if prefix.Err? { return Err(Incomplete); }
      var length := FromBE32(prefix.value);
      if length < TAG_BYTES || length > maxBytes + TAG_BYTES { return Err(Incomplete); }
      var nonce := ReadExactly(NONCE_BYTES);
      if nonce.Err? { return Err(Incomplete); }
      var ciphertext := ReadExactly(length);
      if ciphertext.Err? { return Err(Incomplete); }
      var last := index == frames - 1;
      var box := Box(nonce.value, ciphertext.value, FrameBinding(header, index, last));
      assert nonce.value == old(rest)[4..4 + NONCE_BYTES];
      assert ciphertext.value == old(rest)[4 + NONCE_BYTES..4 + NONCE_BYTES + length];
      if box !in sealings { return Err(DecryptionFailed); }
      index := index + 1;
      r := Ok(sealings[box]);
    }

    method Finish() returns (ok: bool)
      requires Started()
      modifies this`rest
      ensures ok <==> index == frames && old(rest) == []
    {
      ok := index == frames;
      if ok {
        ok := rest == [];
        rest := if rest == [] then [] else rest[1..];
      }
    }
  }

  function After(read: seq<Bytes>, r: Result<(seq<Bytes>, Bytes), Error>): Result<(seq<Bytes>, Bytes), Error> {
    match r
    case Err(e) => Err(e)
    case Ok((more, end)) => Ok((read + more, end))
  }

  lemma AfterOne(sealings: Sealings, header: Bytes, frames: nat, index: nat, rest: Bytes, maxes: seq<nat>, i: nat,
          read: seq<Bytes>)
    requires i < |maxes| && index + |maxes| - i <= frames < UINT32_LIMIT
    ensures After(read, ReadFrames(sealings, header, frames, index, rest, maxes[i..]))
         == match ReadFrame(sealings, header, frames, index, rest, maxes[i])
            case Err(e) => Err(e)
            case Ok((plaintext, after)) =>
              After(read + [plaintext], ReadFrames(sealings, header, frames, index + 1, after, maxes[i + 1..]))
  {
    assert maxes[i..][1..] == maxes[i + 1..];
    var r := ReadFrame(sealings, header, frames, index, rest, maxes[i]);
    if r.Ok? {
      var tail := ReadFrames(sealings, header, frames, index + 1, r.value.1, maxes[i + 1..]);
      if tail.Ok? { assert read + ([r.value.0] + tail.value.0) == (read + [r.value.0]) + tail.value.0; }
    }
  }

  method ReadEveryFrame(reader: BackupReader, maxes: seq<nat>) returns (r: Result<seq<Bytes>, Error>)
    requires reader.Started() && reader.index == 0 && |maxes| == reader.frames
    modifies reader
    ensures match ReadFrames(reader.sealings, old(reader.header), old(reader.frames), 0, old(reader.rest), maxes)
            case Err(e) => r == Err(e)
            case Ok((plaintexts, end)) =>
              r == Ok(plaintexts) && reader.rest == end && reader.Started() && reader.index == reader.frames
  {
    var plaintexts: seq<Bytes> := [];
    ghost var all := ReadFrames(reader.sealings, reader.header, reader.frames, 0, reader.rest, maxes);
    assert maxes[0..] == maxes && (all.Ok? ==> [] + all.value.0 == all.value.0);
    for i := 0 to |maxes|
      invariant reader.Started() && reader.index == i && reader.frames == old(reader.frames)
      invariant reader.header == old(reader.header)
      invariant all == After(plaintexts,
                             ReadFrames(reader.sealings, reader.header, reader.frames, i, reader.rest, maxes[i..]))
    {
      AfterOne(reader.sealings, reader.header, reader.frames, i, reader.rest, maxes, i, plaintexts);
      var frame := reader.Read(maxes[i]);
      if frame.Err? { return Err(frame.error); }
      plaintexts := plaintexts + [frame.value];
    }
    assert plaintexts + [] == plaintexts;
    r := Ok(plaintexts);
  }

  /** A restore's use of the reader: it accepts a file exactly when `ReadFile` does. */
  method ReadWholeFile(sealings: Sealings, file: Bytes, maxes: seq<nat>) returns (r: Result<seq<Bytes>, Error>)
    ensures r == ReadFile(sealings, file, maxes)
  {
    var reader := new BackupReader(sealings, file);
    var started := reader.Start();
    if started.Err? { return Err(started.error); }
    if |maxes| != reader.frames { return Err(Incomplete); }
    r := ReadEveryFrame(reader, maxes);
    if r.Ok? {
      var ok := reader.Finish();
      if !ok { r := Err(Incomplete); }
    }
  }
}
