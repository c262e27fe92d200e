/**
Frames on the pipe between the desktop shell and its core
(desktop/core/desktop_core/framing.py and server.py,
desktop/src-tauri/src/protocol.rs). A pipe hands out its bytes in pieces of any
size; both readers must find the same frames in them.
*/
module Framing {
  import opened Wrappers
  import opened ByteStrings

  const MAGIC: Bytes := [67, 77]
  const VERSION := 1
  const PREFIX_SIZE := 16
  const MAX_HEADER := 64 * 1024
  const MAX_BODY := 24 * 1024 * 1024
  const READ_CHUNK := 0x10_0000
  const DISCARD_CHUNK := 64 * 1024

  /** REQUEST, RESPONSE, CANCEL, READY, ERROR, SHUTDOWN. */
  predicate Known(kind: Byte) { 1 <= kind <= 6 }

  datatype Prefix = Prefix(kind: Byte, id: nat, headerLength: nat, bodyLength: nat)

  datatype Frame = Frame(kind: Byte, id: nat, header: Bytes, body: Bytes)

  datatype Reason = UnknownKind | HeaderTooLarge | BodyTooLarge

  /** What the Python reader delivers. */
  datatype Item = Received(frame: Frame) | Rejected(prefix: Prefix, reason: Reason) | Eof | Desync

  datatype RustError = AtEnd | Io | OutOfStep

  // ----- Bytes of a frame -----------------------------------------------------------

  predicate Sized(f: Frame) {
    f.id < UINT32_LIMIT && |f.header| < UINT32_LIMIT && |f.body| < UINT32_LIMIT
  }

  function PackPrefix(p: Prefix): (raw: Bytes)
    requires p.id < UINT32_LIMIT && p.headerLength < UINT32_LIMIT && p.bodyLength < UINT32_LIMIT
    ensures |raw| == PREFIX_SIZE
  {
    MAGIC + [VERSION, p.kind] + BE32(p.id) + BE32(p.headerLength) + BE32(p.bodyLength)
  }

  function ParsePrefix(raw: Bytes): (p: Option<Prefix>)
    requires |raw| == PREFIX_SIZE
    ensures p.Some? ==> p.value.id < UINT32_LIMIT
    ensures p.Some? ==> p.value.headerLength < UINT32_LIMIT && p.value.bodyLength < UINT32_LIMIT
  {
    if raw[..2] != MAGIC || raw[2] != VERSION then None
    else Some(Prefix(raw[3], FromBE32(raw[4..8]), FromBE32(raw[8..12]), FromBE32(raw[12..])))
  }

  lemma PrefixRoundTrip(p: Prefix)
    requires p.id < UINT32_LIMIT && p.headerLength < UINT32_LIMIT && p.bodyLength < UINT32_LIMIT
    ensures ParsePrefix(PackPrefix(p)) == Some(p)
  {
    var raw := PackPrefix(p);
    assert raw[..2] == MAGIC;
    assert raw[4..8] == BE32(p.id) && raw[8..12] == BE32(p.headerLength) && raw[12..] == BE32(p.bodyLength);
    BE32RoundTrip(p.id);
    BE32RoundTrip(p.headerLength);
    BE32RoundTrip(p.bodyLength);
  }

  lemma ParsesOnlyPacked(raw: Bytes)
    requires |raw| == PREFIX_SIZE && ParsePrefix(raw).Some?
    ensures PackPrefix(ParsePrefix(raw).value) == raw
  {
    FromBE32RoundTrip(raw[4..8]);
    FromBE32RoundTrip(raw[8..12]);
    FromBE32RoundTrip(raw[12..]);
    assert raw == raw[..2] + [raw[2], raw[3]] + raw[4..8] + raw[8..12] + raw[12..];
  }

  function PrefixOf(f: Frame): Prefix { Prefix(f.kind, f.id, |f.header|, |f.body|) }

  /** The bytes of a frame; a sender that ignores the limits can send any. */
  function Raw(f: Frame): (raw: Bytes)
    requires Sized(f)
    ensures |raw| == PREFIX_SIZE + |f.header| + |f.body|
  {
    PackPrefix(PrefixOf(f)) + f.header + f.body
  }

  /** The encoder of both sides: the header is checked first. */
  function Encode(f: Frame): Result<Bytes, Reason>
    requires f.id < UINT32_LIMIT
  {
    if |f.header| > MAX_HEADER then Err(HeaderTooLarge)
    else if |f.body| > MAX_BODY then Err(BodyTooLarge)
    else Ok(Raw(f))
  }

  method EncodeVec(f: Frame) returns (r: Result<Bytes, Reason>)
    requires f.id < UINT32_LIMIT
    ensures r == Encode(f)
  {
    if |f.header| > MAX_HEADER { return Err(HeaderTooLarge); }
    if |f.body| > MAX_BODY { return Err(BodyTooLarge); }
    var out: Bytes := MAGIC;
    out := out + [VERSION];
    out := out + [f.kind];
    out := out + BE32(f.id);
    out := out + BE32(|f.header|);
    out := out + BE32(|f.body|);
    out := out + f.header;
    out := out + f.body;
    assert out == PackPrefix(PrefixOf(f)) + f.header + f.body;
    return Ok(out);
  }

  // ----- What a byte string contains -------------------------------------------------

  function ReasonOf(p: Prefix): Option<Reason> {
    if !Known(p.kind) then Some(UnknownKind)
    else if p.headerLength > MAX_HEADER then Some(HeaderTooLarge)
    else if p.bodyLength > MAX_BODY then Some(BodyTooLarge)
    else None
  }

  function FrameAt(p: Prefix, rest: Bytes): Frame
    requires |rest| >= SizeOf(p)
  {
    var start := PREFIX_SIZE + p.headerLength;
    Frame(p.kind, p.id, rest[PREFIX_SIZE..start], rest[start..start + p.bodyLength])
  }

  function SizeOf(p: Prefix): nat { PREFIX_SIZE + p.headerLength + p.bodyLength }

  /** What the Python reader delivers first, and the bytes it goes on with. */
  function Next(rest: Bytes): (r: (Item, Option<Bytes>))
    ensures r.1.Some? ==> |r.1.value| < |rest|
  {
    if |rest| < PREFIX_SIZE then (Eof, None)
    else
      match ParsePrefix(rest[..PREFIX_SIZE])
      case None => (Desync, None)
      case Some(p) =>
        if |rest| < SizeOf(p) then (Eof, None)
        else
          var item := if ReasonOf(p).Some? then Rejected(p, ReasonOf(p).value) else Received(FrameAt(p, rest));
          (item, Some(rest[SizeOf(p)..]))
  }

  function Items(rest: Bytes): seq<Item>
    decreases |rest|
  {
    var (item, after) := Next(rest);
    if after.None? then [item] else [item] + Items(after.value)
  }

  function ItemOf(f: Frame): Item {
    match ReasonOf(PrefixOf(f))
    case None => Received(f)
    case Some(reason) => Rejected(PrefixOf(f), reason)
  }

  predicate AllSized(frames: seq<Frame>) { forall i :: 0 <= i < |frames| ==> Sized(frames[i]) }

  function Stream(frames: seq<Frame>): Bytes
    requires AllSized(frames)
  {
    if frames == [] then [] else Raw(frames[0]) + Stream(frames[1..])
  }

  function ItemsOf(frames: seq<Frame>): seq<Item> {
    if frames == [] then [] else [ItemOf(frames[0])] + ItemsOf(frames[1..])
  }

  lemma RawIsNext(f: Frame, after: Bytes)
    requires Sized(f)
    ensures Next(Raw(f) + after) == (ItemOf(f), Some(after))
  {
    RawSplits(f, after);
  }

  lemma RawSplits(f: Frame, after: Bytes)
    requires Sized(f)
    ensures var rest := Raw(f) + after;
            && rest[..PREFIX_SIZE] == PackPrefix(PrefixOf(f))
            && ParsePrefix(rest[..PREFIX_SIZE]) == Some(PrefixOf(f))
            && FrameAt(PrefixOf(f), rest) == f
            && rest[|Raw(f)|..] == after
  {
    PrefixRoundTrip(PrefixOf(f));
    var rest := Raw(f) + after;
    var start := PREFIX_SIZE + |f.header|;
    assert rest[..PREFIX_SIZE] == PackPrefix(PrefixOf(f));
    assert rest[PREFIX_SIZE..start] == f.header && rest[start..start + |f.body|] == f.body;
  }

  /** One item per frame, in order; a rejected frame takes exactly its own
      bytes with it, whatever they are. */
  lemma {:induction false} OneItemPerFrame(frames: seq<Frame>, after: Bytes)
    requires AllSized(frames)
    ensures Items(Stream(frames) + after) == ItemsOf(frames) + Items(after)
  {
    if frames == [] {
      assert Stream(frames) + after == after;
    } else {
      var rest := Stream(frames[1..]) + after;
      assert Stream(frames) + after == Raw(frames[0]) + rest;
      RawIsNext(frames[0], rest);
      OneItemPerFrame(frames[1..], after);
    }
  }

  /** What may follow the last whole frame: too little for a prefix or for the
      lengths its prefix names, or a prefix that is none. */
  predicate Unfinished(rest: Bytes) { Items(rest) == [Eof] }

  predicate Garbled(rest: Bytes) { |rest| >= PREFIX_SIZE && ParsePrefix(rest[..PREFIX_SIZE]).None? }

  lemma TruncatedIsUnfinished(f: Frame, k: nat)
    requires Sized(f) && k < |Raw(f)|
    ensures Unfinished(Raw(f)[..k])
  {
    RawSplits(f, []);
    assert Raw(f) + [] == Raw(f);
    if k >= PREFIX_SIZE { assert Raw(f)[..k][..PREFIX_SIZE] == Raw(f)[..PREFIX_SIZE]; }
  }

  /** Every byte string is the bytes of some frames and a rest that is
      unfinished or garbled, so the lemma above says all that is delivered. */
  lemma {:induction false} EveryStream(rest: Bytes) returns (frames: seq<Frame>, after: Bytes)
    ensures AllSized(frames) && rest == Stream(frames) + after && (Unfinished(after) || Garbled(after))
    ensures Items(rest) == ItemsOf(frames) + [if Garbled(after) then Desync else Eof]
    decreases |rest|
  {
    match Next(rest).1
    case None => frames, after := [], rest;
    case Some(end) =>
      var f := FirstFrame(rest);
      var others;
      others, after := EveryStream(end);
      frames := [f] + others;
      OneFrameMore(f, others, after);
      OneItemPerFrame(frames, after);
      EndItem(after);
  }

  lemma OneFrameMore(f: Frame, frames: seq<Frame>, after: Bytes)
    requires Sized(f) && AllSized(frames)
    ensures AllSized([f] + frames) && Stream([f] + frames) + after == Raw(f) + (Stream(frames) + after)
  {
    assert ([f] + frames)[1..] == frames;
  }

  lemma EndItem(after: Bytes)
    requires Unfinished(after) || Garbled(after)
    ensures Items(after) == [if Garbled(after) then Desync else Eof]
  {
  }

  lemma FirstFrame(rest: Bytes) returns (f: Frame)
    requires Next(rest).1.Some?
    ensures Sized(f) && rest == Raw(f) + Next(rest).1.value
  {
    var p := ParsePrefix(rest[..PREFIX_SIZE]).value;
    f := FrameAt(p, rest);
    ParsesOnlyPacked(rest[..PREFIX_SIZE]);
  }

  // ----- The Rust reader -----------------------------------------------------------------

  /** One frame and the bytes after it. Kinds are not checked; limits are. */
  function RustNext(rest: Bytes): Result<(Frame, Bytes), RustError> {
    if rest == [] then Err(AtEnd)
    else if |rest| < PREFIX_SIZE then Err(OutOfStep)
    else
      match ParsePrefix(rest[..PREFIX_SIZE])
      case None => Err(OutOfStep)
      case Some(p) =>
        if p.headerLength > MAX_HEADER || p.bodyLength > MAX_BODY || |rest| < SizeOf(p) then Err(OutOfStep)
        else Ok((FrameAt(p, rest), rest[SizeOf(p)..]))
  }

  /** Both sides read what either encoder wrote, as far as it encodes at all. */
  lemma EncodedReadsBack(f: Frame, after: Bytes)
    requires f.id < UINT32_LIMIT && Encode(f).Ok?
    ensures RustNext(Encode(f).value + after) == Ok((f, after))
    ensures Next(Encode(f).value + after) == (ItemOf(f), Some(after))
    ensures ItemOf(f) == if Known(f.kind) then Received(f) else Rejected(PrefixOf(f), UnknownKind)
  {
    RawSplits(f, after);
  }

  /** The Python reader delivers a frame exactly when the Rust reader returns
      that frame and its kind is one of the six, and both go on in step. */
  lemma ReadersAgree(rest: Bytes, f: Frame, after: Bytes)
    ensures Next(rest) == (Received(f), Some(after)) <==> RustNext(rest) == Ok((f, after)) && Known(f.kind)
  {
  }

  /** What the Python reader skips, the Rust reader gives up at or passes on. */
  lemma ReadersDiffer(rest: Bytes)
    requires Next(rest).0.Rejected?
    ensures RustNext(rest).Ok?
            <==> Next(rest).0.prefix.headerLength <= MAX_HEADER && Next(rest).0.prefix.bodyLength <= MAX_BODY
    ensures RustNext(rest).Ok? ==>
              && Next(rest) == (Rejected(PrefixOf(RustNext(rest).value.0), UnknownKind), Some(RustNext(rest).value.1))
              && !Known(RustNext(rest).value.0.kind)
  {
  }

  datatype ReadOutcome = Count(n: nat) | Interrupted | Failed

  // ----- The Python reader -------------------------------------------------------------

  /** `rest` are the bytes the other side will still send before it closes. A
      read returns some of them, at least one unless there are none. */
  class Pipe {
    var rest: Bytes
    var interrupts: nat

    constructor (bytes: Bytes, signals: nat)
      ensures rest == bytes && interrupts == signals
    {
      rest, interrupts := bytes, signals;
    }

    method Read(max: nat) returns (chunk: Bytes)
      requires max > 0
      modifies `rest
      ensures old(rest) == chunk + rest && |chunk| <= max
      ensures chunk == [] ==> rest == []
    {
      var limit := if |rest| < max then |rest| else max;
      var n: nat :| n <= limit && (n == 0 ==> limit == 0);
      chunk := rest[..n];
      rest := rest[n..];
    }

    method ReadExact(size: nat) returns (r: Option<Bytes>)
      modifies `rest
      ensures |old(rest)| >= size ==> r == Some(old(rest)[..size]) && rest == old(rest)[size..]
      ensures |old(rest)| < size ==> r == None && rest == []
    {
      var buffer: Bytes := [];
      while |buffer| < size
        invariant |buffer| <= size && old(rest) == buffer + rest
      {
        var want := size - |buffer|;
        var chunk := Read(if want < READ_CHUNK then want else READ_CHUNK);
        if chunk == [] { return None; }
        buffer := buffer + chunk;
      }
      return Some(buffer);
    }

    method Discard(size: nat) returns (ok: bool)
      modifies `rest
      ensures ok == (|old(rest)| >= size)
      ensures rest == if ok then old(rest)[size..] else []
    {
      var left := size;
      while left > 0
        invariant 0 <= left <= size && size - left <= |old(rest)| && rest == old(rest)[size - left..]
        decreases left
      {
        var chunk := Read(if left < DISCARD_CHUNK then left else DISCARD_CHUNK);
        if chunk == [] { return false; }
        left := left - |chunk|;
      }
      return true;
    }

    /** One pass of the reader's loop. */
    method ReadItem() returns (item: Item, more: bool)
      modifies `rest
      ensures item == Next(old(rest)).0 && more == Next(old(rest)).1.Some?
      ensures more ==> rest == Next(old(rest)).1.value
    {
      ghost var before := rest;
      var raw := ReadExact(PREFIX_SIZE);
      if raw.None? { return Eof, false; }
      var parsed := ParsePrefix(raw.value);
      if parsed.None? { return Desync, false; }
      var p := parsed.value;
      var reason := ReasonOf(p);
      if reason.Some? {
        var ok := Discard(p.headerLength + p.bodyLength);
        if !ok { return Eof, false; }
        assert rest == before[SizeOf(p)..];
        return Rejected(p, reason.value), true;
      }
      var header := ReadExact(p.headerLength);
      if header.None? { return Eof, false; }
      var body := ReadExact(p.bodyLength);
      if body.None? { return Eof, false; }
      assert rest == before[SizeOf(p)..];
      assert FrameAt(p, before) == Frame(p.kind, p.id, header.value, body.value);
      return Received(Frame(p.kind, p.id, header.value, body.value)), true;
    }

    /** However the pipe splits its bytes, the items are the ones above. */
    method Reader() returns (delivered: seq<Item>)
      modifies `rest
      ensures delivered == Items(old(rest))
    {
      delivered := [];
      var more := true;
      while more
        invariant more ==> Items(old(rest)) == delivered + Items(rest)
        invariant !more ==> Items(old(rest)) == delivered
        decreases more, |rest|
      {
        var item;
        item, more := ReadItem();
        delivered := delivered + [item];
      }
    }

    /** A read into a slice of a buffer; it may be interrupted or fail. */
    method ReadInto(buf: array<Byte>, filled: nat) returns (r: ReadOutcome)
      requires filled < buf.Length
      modifies this, buf
      ensures buf[..filled] == old(buf[..filled])
      ensures r.Count? ==> filled + r.n <= buf.Length && old(rest) == buf[filled..filled + r.n] + rest
      ensures r.Count? ==> interrupts == old(interrupts) && (r.n == 0 ==> rest == [])
      ensures r.Interrupted? ==> rest == old(rest) && interrupts < old(interrupts)
    {
      if interrupts > 0 {
        interrupts := interrupts - 1;
        return Interrupted;
      }
      var broken: bool := *;
      if broken { return Failed; }
      var chunk := Read(buf.Length - filled);
      forall k | 0 <= k < |chunk| { buf[filled + k] := chunk[k]; }
      assert buf[filled..filled + |chunk|] == chunk;
      return Count(|chunk|);
    }

    method ReadExactOrEof(buf: array<Byte>, atBoundary: bool) returns (r: Result<(), RustError>)
      modifies this, buf
      ensures r == Err(Io) || r == (if |old(rest)| >= buf.Length then Ok(())
                                    else if old(rest) == [] && atBoundary then Err(AtEnd) else Err(OutOfStep))
      ensures r.Ok? ==> buf[..] == old(rest)[..buf.Length] && rest == old(rest)[buf.Length..]
    {
      var filled := 0;
      while filled < buf.Length
        invariant 0 <= filled <= buf.Length && old(rest) == buf[..filled] + rest
        decreases buf.Length - filled, interrupts
      {
        ghost var before := buf[..filled];
        var got := ReadInto(buf, filled);
        match got {
          case Count(n) =>
            if n == 0 { return Err(if filled == 0 && atBoundary then AtEnd else OutOfStep); }
            assert buf[..filled + n] == before + buf[filled..filled + n];
            filled := filled + n;
          case Interrupted =>
          case Failed => return Err(Io);
        }
      }
      assert buf[..filled] == buf[..];
      return Ok(());
    }

    /** However the pipe splits its bytes and whenever it is interrupted, the
        frame is the one above, unless the pipe fails. */
    method ReadFrame() returns (r: Result<Frame, RustError>)
      modifies this
      ensures r == Err(Io) || match RustNext(old(rest))
                              case Ok((f, after)) => r == Ok(f) && rest == after
                              case Err(e) => r == Err(e)
    {
      ghost var before := rest;
      var prefix := new Byte[PREFIX_SIZE];
      var at := ReadExactOrEof(prefix, true);
      if at.Err? { return Err(at.error); }
      var raw := prefix[..];
      if raw[0..2] != MAGIC || raw[2] != VERSION { return Err(OutOfStep); }
      var headerLength, bodyLength := FromBE32(raw[8..12]), FromBE32(raw[12..16]);
      if headerLength > MAX_HEADER || bodyLength > MAX_BODY { return Err(OutOfStep); }
      var header := new Byte[headerLength];
      at := ReadExactOrEof(header, false);
      if at.Err? { return Err(at.error); }
      var body := new Byte[bodyLength];
      at := ReadExactOrEof(body, false);
      if at.Err? { return Err(at.error); }
      assert rest == before[PREFIX_SIZE + headerLength + bodyLength..];
      assert raw == before[..PREFIX_SIZE] && raw[12..16] == raw[12..];
      assert FrameAt(ParsePrefix(raw).value, before) == Frame(raw[3], FromBE32(raw[4..8]), header[..], body[..]);
      return Ok(Frame(raw[3], FromBE32(raw[4..8]), header[..], body[..]));
    }
  }
}
