/** The padding protocol of the naive inbound: the first eight writes travel in frames with
    a three-byte header and padding, everything after that is raw. */
module NaiveFraming {

  type Byte = b: int | 0 <= b < 256

  const FIRST_PADDINGS := 8
  const MAX_FRAME := 65535

  function Min(a: nat, b: nat): nat { if a < b then a else b }

  function Header(size: nat, pad: Byte): (h: seq<Byte>)
    requires size <= MAX_FRAME
    ensures |h| == 3 && SizeOf(h) == size && h[2] == pad
  {
    [size / 256, size % 256, pad]
  }

  function SizeOf(h: seq<Byte>): nat
    requires |h| >= 2
  {
    (h[0] as int) * 256 + h[1]
  }

  // ---- what a reader will deliver ----

  /** A reader part-way through the stream: frames begun, payload and padding left of the
      current frame, and the bytes still to come. */
  datatype Reader = Reader(frames: nat, remaining: nat, padding: nat, wire: seq<Byte>)

  /** The payload the stream still holds for this reader. */
  function Payload(s: Reader): seq<Byte>
    decreases FIRST_PADDINGS - s.frames, s.remaining > 0, s.padding > 0
  {
    if s.remaining > 0 then
      if |s.wire| < s.remaining then s.wire
      else s.wire[..s.remaining] + Payload(s.(remaining := 0, wire := s.wire[s.remaining..]))
    else if s.padding > 0 then
      if |s.wire| < s.padding then [] else Payload(s.(padding := 0, wire := s.wire[s.padding..]))
    else if s.frames < FIRST_PADDINGS then
      if |s.wire| < 3 then []
      else Payload(Reader(s.frames + 1, SizeOf(s.wire), s.wire[2], s.wire[3..]))
    else s.wire
  }

  // ---- one read ----

  /** A read into a buffer of the given size; the connection delivers at most chunk bytes
      at a time. Failed: the stream ends inside padding or a header. */
  datatype Delivery = Delivered(bytes: seq<Byte>, after: Reader) | Failed(after: Reader)

  /** The connection's own Read into a buffer of the given size. */
  function RawRead(wire: seq<Byte>, size: nat, chunk: nat): nat { Min(chunk, Min(size, |wire|)) }

  function ReadFrame(s: Reader, size: nat, chunk: nat): Delivery {
    if s.frames < FIRST_PADDINGS then
      if |s.wire| < 3 then Failed(s.(wire := []))
      else
        var data, wire := SizeOf(s.wire), s.wire[3..];
        var n := RawRead(wire, Min(size, data), chunk);
        Delivered(wire[..n], Reader(s.frames + 1, data - n, s.wire[2], wire[n..]))
    else
      var n := RawRead(s.wire, size, chunk);
      Delivered(s.wire[..n], s.(wire := s.wire[n..]))
  }

  function ReadStep(s: Reader, size: nat, chunk: nat): Delivery {
    if s.remaining > 0 then
      var n := RawRead(s.wire, Min(size, s.remaining), chunk);
      Delivered(s.wire[..n], s.(remaining := s.remaining - n, wire := s.wire[n..]))
    else if |s.wire| < s.padding then Failed(s.(wire := []))
    else ReadFrame(s.(padding := 0, wire := s.wire[s.padding..]), size, chunk)
  }

  /** Taking some bytes of the current frame leaves the rest of the payload. */
  lemma {:induction false} TakeFromFrame(s: Reader, n: nat)
    requires n <= s.remaining && n <= |s.wire|
    ensures Payload(s) == s.wire[..n] + Payload(s.(remaining := s.remaining - n, wire := s.wire[n..]))
  {
    var t := s.(remaining := s.remaining - n, wire := s.wire[n..]);
    if s.remaining == 0 {
      assert s.wire[0..] == s.wire && s.wire[..0] + Payload(s) == Payload(s);
    } else if |s.wire| < s.remaining {
      assert s.wire == s.wire[..n] + s.wire[n..];
    } else if n == s.remaining {
    } else {
      assert s.wire[..s.remaining] == s.wire[..n] + t.wire[..t.remaining];
      assert s.wire[s.remaining..] == t.wire[t.remaining..];
      var rest := Payload(s.(remaining := 0, wire := s.wire[s.remaining..]));
      assert (s.wire[..n] + t.wire[..t.remaining]) + rest == s.wire[..n] + (t.wire[..t.remaining] + rest);
    }
  }

  /** Every successful read delivers the next bytes of the payload, and nothing else:
      never padding, never a header, never a byte twice. */
  lemma {:induction false} ReadDeliversPayload(s: Reader, size: nat, chunk: nat)
    requires ReadStep(s, size, chunk).Delivered?
    ensures var d := ReadStep(s, size, chunk); Payload(s) == d.bytes + Payload(d.after)
    ensures var d := ReadStep(s, size, chunk); |d.bytes| <= size
  {
    if s.remaining > 0 {
      TakeFromFrame(s, RawRead(s.wire, Min(size, s.remaining), chunk));
    } else {
      var t := s.(padding := 0, wire := s.wire[s.padding..]);
      if s.padding == 0 { assert s.wire[0..] == s.wire; }
      assert Payload(s) == Payload(t);
      if t.frames < FIRST_PADDINGS {
        var u := Reader(t.frames + 1, SizeOf(t.wire), t.wire[2], t.wire[3..]);
        TakeFromFrame(u, RawRead(u.wire, Min(size, u.remaining), chunk));
      } else {
        var n := RawRead(t.wire, size, chunk);
        assert t.wire == t.wire[..n] + t.wire[n..];
      }
    }
  }

  /** A read that fails delivers nothing because no payload is left. */
  lemma {:induction false} FailureMeansExhausted(s: Reader, size: nat, chunk: nat)
    requires ReadStep(s, size, chunk).Failed?
    ensures Payload(s) == []
  {
    if s.padding == 0 { assert s.wire[0..] == s.wire; }
  }

  /** A read that the connection serves makes progress on the stream unless the buffer is
      empty; with a buffer and a served chunk it delivers bytes, except at the end of a
      stream or at a frame without payload. */
  lemma {:induction false} ReadMakesProgress(s: Reader, size: nat, chunk: nat)
    requires size > 0 && chunk > 0 && Payload(s) != []
    ensures ReadStep(s, size, chunk).Delivered?
    ensures var d := ReadStep(s, size, chunk); |d.after.wire| < |s.wire|
  {
    if ReadStep(s, size, chunk).Failed? { FailureMeansExhausted(s, size, chunk); }
    if s.padding == 0 { assert s.wire[0..] == s.wire; }
  }

  // ---- whole runs of reads ----

  /** Buffer size and chunk of one call. */
  datatype Call = Call(size: nat, chunk: nat)

  /** All bytes delivered by a run of reads that stops at the first failure. */
  function ReadAll(s: Reader, calls: seq<Call>): (seq<Byte>, Reader)
    decreases calls
  {
    if calls == [] then ([], s)
    else match ReadStep(s, calls[0].size, calls[0].chunk)
      case Failed(t) => ([], t)
      case Delivered(bytes, t) =>
        var (rest, u) := ReadAll(t, calls[1..]);
        (bytes + rest, u)
  }

  lemma {:induction false} RunDeliversPrefix(s: Reader, calls: seq<Call>)
    ensures ReadAll(s, calls).0 <= Payload(s)
    decreases calls
  {
    if calls != [] && ReadStep(s, calls[0].size, calls[0].chunk).Delivered? {
      ReadDeliversPayload(s, calls[0].size, calls[0].chunk);
      var d := ReadStep(s, calls[0].size, calls[0].chunk);
      RunDeliversPrefix(d.after, calls[1..]);
    }
  }

  // ---- writing ----

  /** The padding bytes are whatever the buffer held there. */
  function Frame(data: seq<Byte>, filler: seq<Byte>): seq<Byte>
    requires |data| <= MAX_FRAME && |filler| < 256
  {
    Header(|data|, |filler|) + data + filler
  }

  /** The stream of a list of WriteBuffer calls, k of them already framed. */
  function Encode(k: nat, writes: seq<seq<Byte>>, fillers: seq<seq<Byte>>): seq<Byte>
    requires Framable(k, writes, fillers)
    decreases writes
  {
    if writes == [] then []
    else if k < FIRST_PADDINGS then Frame(writes[0], fillers[0]) + Encode(k + 1, writes[1..], fillers[1..])
    else writes[0] + Encode(k, writes[1..], fillers[1..])
  }

  /** Framed buffers fit a frame; paddings are below 256 bytes. */
  ghost predicate Framable(k: nat, writes: seq<seq<Byte>>, fillers: seq<seq<Byte>>) {
    |fillers| == |writes| &&
    forall i | 0 <= i < |writes| :: (k + i < FIRST_PADDINGS ==> |writes[i]| <= MAX_FRAME) && |fillers[i]| < 256
  }

  function Concat(writes: seq<seq<Byte>>): seq<Byte> {
    if writes == [] then [] else writes[0] + Concat(writes[1..])
  }

  /** A frame is undone by the reader, whatever follows it. */
  lemma {:induction false} FrameIsUndone(k: nat, data: seq<Byte>, filler: seq<Byte>, rest: seq<Byte>)
    requires k < FIRST_PADDINGS && |data| <= MAX_FRAME && |filler| < 256
    ensures Payload(Reader(k, 0, 0, Frame(data, filler) + rest)) == data + Payload(Reader(k + 1, 0, 0, rest))
  {
    var wire := Frame(data, filler) + rest;
    assert wire[..3] == Header(|data|, |filler|) && wire[3..] == data + (filler + rest);
    assert wire[0] == Header(|data|, |filler|)[0] && wire[1] == Header(|data|, |filler|)[1];
    var s := Reader(k + 1, |data|, |filler|, data + (filler + rest));
    assert Payload(Reader(k, 0, 0, wire)) == Payload(s);
    TakeFromFrame(s, |data|);
    assert s.wire[..|data|] == data && s.wire[|data|..] == filler + rest;
    assert (filler + rest)[|filler|..] == rest;
  }

  /** Reading undoes writing, across the switch to raw mode. */
  lemma {:induction false} RoundTrip(k: nat, writes: seq<seq<Byte>>, fillers: seq<seq<Byte>>)
    requires k <= FIRST_PADDINGS && Framable(k, writes, fillers)
    ensures Payload(Reader(k, 0, 0, Encode(k, writes, fillers))) == Concat(writes)
    decreases writes
  {
    if writes == [] {
    } else if k < FIRST_PADDINGS {
      FrameIsUndone(k, writes[0], fillers[0], Encode(k + 1, writes[1..], fillers[1..]));
      RoundTrip(k + 1, writes[1..], fillers[1..]);
    } else {
      RoundTrip(k, writes[1..], fillers[1..]);
    }
  }

  /** The stream grows by one frame, or by raw bytes, with every call of WriteBuffer. */
  lemma {:induction false} EncodeSnoc(k: nat, writes: seq<seq<Byte>>, fillers: seq<seq<Byte>>, data: seq<Byte>, filler: seq<Byte>)
    requires k <= FIRST_PADDINGS && Framable(k, writes + [data], fillers + [filler]) && Framable(k, writes, fillers)
    requires |filler| < 256 && (k + |writes| < FIRST_PADDINGS ==> |data| <= MAX_FRAME)
    ensures var framed := Min(FIRST_PADDINGS, k + |writes|);
            Encode(k, writes + [data], fillers + [filler]) ==
            Encode(k, writes, fillers) + if framed < FIRST_PADDINGS then Frame(data, filler) else data
    decreases writes
  {
    var ws, fs := writes + [data], fillers + [filler];
    if writes == [] {
      assert ws[1..] == [] && fs[1..] == [];
      assert Encode(if k < FIRST_PADDINGS then k + 1 else k, ws[1..], fs[1..]) == [];
    } else {
      assert ws[1..] == writes[1..] + [data] && fs[1..] == fillers[1..] + [filler];
      EncodeSnoc(if k < FIRST_PADDINGS then k + 1 else k, writes[1..], fillers[1..], data, filler);
    }
  }

  lemma {:induction false} EncodeGrows(k: nat, writes: seq<seq<Byte>>, fillers: seq<seq<Byte>>, i: nat)
    requires k <= FIRST_PADDINGS && Framable(k, writes, fillers) && i <= |writes|
    ensures Framable(k, writes[..i], fillers[..i])
    ensures Encode(k, writes[..i], fillers[..i]) <= Encode(k, writes, fillers)
    decreases |writes| - i
  {
    if i == |writes| {
      assert writes[..i] == writes && fillers[..i] == fillers;
    } else {
      EncodeGrows(k, writes, fillers, i + 1);
      assert writes[..i + 1] == writes[..i] + [writes[i]] && fillers[..i + 1] == fillers[..i] + [fillers[i]];
      EncodeSnoc(k, writes[..i], fillers[..i], writes[i], fillers[i]);
    }
  }

  /** The bytes of write i: the size of the data in two bytes, the high one first, the size of
      the padding in one, the data and the padding; from the ninth write on only the data. */
  lemma {:induction false} WireTold(writes: seq<seq<Byte>>, fillers: seq<seq<Byte>>, i: nat)
    requires Framable(0, writes, fillers) && i < |writes|
    ensures Framable(0, writes[..i], fillers[..i])
    ensures var wire, at, data, filler := Encode(0, writes, fillers), |Encode(0, writes[..i], fillers[..i])|, writes[i], fillers[i];
            Encode(0, writes[..i], fillers[..i]) <= wire &&
            if i < 8 then
              at + 3 <= |wire| && data + filler <= wire[at + 3..] && (wire[at] as int) * 256 + wire[at + 1] == |data| && wire[at + 2] == |filler|
            else data <= wire[at..]
  {
    hide Encode;
    EncodeGrows(0, writes, fillers, i);
    EncodeGrows(0, writes, fillers, i + 1);
    assert writes[..i + 1] == writes[..i] + [writes[i]] && fillers[..i + 1] == fillers[..i] + [fillers[i]];
    EncodeSnoc(0, writes[..i], fillers[..i], writes[i], fillers[i]);
    var wire, before, data, filler := Encode(0, writes, fillers), Encode(0, writes[..i], fillers[..i]), writes[i], fillers[i];
    var at := |before|;
    if i < 8 {
      var frame := Frame(data, filler);
      assert before + frame <= wire;
      assert wire[at..at + |frame|] == frame;
      assert frame[3..] == data + filler;
      assert wire[at] == frame[0] && wire[at + 1] == frame[1] && wire[at + 2] == frame[2];
    } else {
      assert before + data <= wire;
    }
  }

  /** End to end: any run of reads of any sizes on the stream of any list of WriteBuffer
      calls delivers a prefix of what was written. */
  lemma {:induction false} DeliveredIsPrefixOfWritten(writes: seq<seq<Byte>>, fillers: seq<seq<Byte>>, calls: seq<Call>)
    requires Framable(0, writes, fillers)
    ensures ReadAll(Reader(0, 0, 0, Encode(0, writes, fillers)), calls).0 <= Concat(writes)
  {
    RoundTrip(0, writes, fillers);
    RunDeliversPrefix(Reader(0, 0, 0, Encode(0, writes, fillers)), calls);
  }

  /** Reads with room and service drain the stream: no more calls are needed than it has
      bytes. */
  lemma {:induction false} ReadsDrainStream(s: Reader, calls: seq<Call>)
    requires (forall i | 0 <= i < |calls| :: calls[i].size > 0 && calls[i].chunk > 0) && |calls| >= |s.wire|
    ensures ReadAll(s, calls).0 == Payload(s)
    decreases calls
  {
    RunDeliversPrefix(s, calls);
    if Payload(s) != [] {
      PayloadWithinWire(s);
      ReadMakesProgress(s, calls[0].size, calls[0].chunk);
      ReadDeliversPayload(s, calls[0].size, calls[0].chunk);
      ReadsDrainStream(ReadStep(s, calls[0].size, calls[0].chunk).after, calls[1..]);
    }
  }

  lemma {:induction false} PayloadWithinWire(s: Reader)
    ensures |Payload(s)| <= |s.wire|
    decreases FIRST_PADDINGS - s.frames, s.remaining > 0, s.padding > 0
  {
    if s.remaining > 0 {
      if |s.wire| >= s.remaining { PayloadWithinWire(s.(remaining := 0, wire := s.wire[s.remaining..])); }
    } else if s.padding > 0 {
      if |s.wire| >= s.padding { PayloadWithinWire(s.(padding := 0, wire := s.wire[s.padding..])); }
    } else if s.frames < FIRST_PADDINGS && |s.wire| >= 3 {
      PayloadWithinWire(Reader(s.frames + 1, SizeOf(s.wire), s.wire[2], s.wire[3..]));
    }
  }

  // ---- the Write path, which announces padding it does not send ----

  /** What write puts on the wire for one piece of at most 65535 bytes. */
  function WritePiece(k: nat, data: seq<Byte>, pad: Byte): seq<Byte>
    requires |data| <= MAX_FRAME
  {
    if k < FIRST_PADDINGS then Header(|data|, pad) + data else data
  }

  /** What Write puts on the wire: pieces of 65535 bytes; draw is the padding of each. */
  function WriteStream(k: nat, p: seq<Byte>, draw: nat -> Byte): seq<Byte>
    decreases |p|
  {
    if |p| == 0 then []
    else if |p| > MAX_FRAME then WritePiece(k, p[..MAX_FRAME], draw(k)) + WriteStream(k + 1, p[MAX_FRAME..], draw)
    else WritePiece(k, p, draw(k))
  }

  /** The number of pieces a Write of n bytes is cut into. */
  function Pieces(n: nat): (m: nat)
    ensures MAX_FRAME * m >= n && (m > 0 ==> MAX_FRAME * (m - 1) < n)
  {
    if n == 0 then 0 else if n > MAX_FRAME then 1 + Pieces(n - MAX_FRAME) else 1
  }

  /** The frame count after a Write of n bytes: it stops at eight. */
  function FramesAfter(k: nat, n: nat): nat {
    if k >= FIRST_PADDINGS then k else Min(FIRST_PADDINGS, k + Pieces(n))
  }

  /** A Write of any length comes through exactly when no framed piece but the last drew
      padding: the reader skips announced padding that is not there. */
  lemma {:induction false} WriteComesThroughIff(k: nat, p: seq<Byte>, draw: nat -> Byte)
    requires k <= FIRST_PADDINGS
    ensures Payload(Reader(k, 0, 0, WriteStream(k, p, draw))) == p
       <==> forall i | k <= i < FIRST_PADDINGS && i < k + Pieces(|p|) - 1 :: draw(i) == 0
    decreases |p|
  {
    hide Payload, WritePiece;
    if |p| == 0 {
      PayloadWithinWire(Reader(k, 0, 0, []));
    } else if k == FIRST_PADDINGS {
      RawWriteIsVerbatim(k, p, draw);
      RawIsVerbatim(p);
    } else {
      var m := Min(|p|, MAX_FRAME);
      var rest := WriteStream(k + 1, p[m..], draw);
      WriteStreamStep(k, p, draw);
      var s := FirstPieceRead(k, p[..m], draw(k), rest);
      assert p == p[..m] + p[m..];
      CancelPrefix(p[..m], Payload(s), p[m..]);
      if m == |p| {
        PayloadWithinWire(s);
      } else if draw(k) == 0 {
        WriteComesThroughIff(k + 1, p[m..], draw);
      } else {
        SkippedStreamIsShort(k + 1, draw(k), p[m..], draw);
        assert k < k + Pieces(|p|) - 1;
      }
    }
  }

  /** How many headers the reader takes from the stream. */
  function HeadersRead(s: Reader): nat
    decreases FIRST_PADDINGS - s.frames, s.remaining > 0, s.padding > 0
  {
    if s.remaining > 0 then
      if |s.wire| < s.remaining then 0 else HeadersRead(s.(remaining := 0, wire := s.wire[s.remaining..]))
    else if s.padding > 0 then
      if |s.wire| < s.padding then 0 else HeadersRead(s.(padding := 0, wire := s.wire[s.padding..]))
    else if s.frames < FIRST_PADDINGS && |s.wire| >= 3 then
      1 + HeadersRead(Reader(s.frames + 1, SizeOf(s.wire), s.wire[2], s.wire[3..]))
    else 0
  }

  /** Headers are not payload, and a reader that never leaves framed mode gets at most a
      frame per header. */
  lemma {:induction false} HeadersBoundPayload(s: Reader)
    requires s.frames <= FIRST_PADDINGS
    ensures |Payload(s)| + 3 * HeadersRead(s) <= |s.wire|
    ensures HeadersRead(s) <= FIRST_PADDINGS - s.frames
    ensures HeadersRead(s) < FIRST_PADDINGS - s.frames ==> |Payload(s)| <= s.remaining + MAX_FRAME * HeadersRead(s)
    decreases FIRST_PADDINGS - s.frames, s.remaining > 0, s.padding > 0
  {
    if s.remaining > 0 {
      if |s.wire| >= s.remaining { HeadersBoundPayload(s.(remaining := 0, wire := s.wire[s.remaining..])); }
    } else if s.padding > 0 {
      if |s.wire| >= s.padding { HeadersBoundPayload(s.(padding := 0, wire := s.wire[s.padding..])); }
    } else if s.frames < FIRST_PADDINGS && |s.wire| >= 3 {
      HeadersBoundPayload(Reader(s.frames + 1, SizeOf(s.wire), s.wire[2], s.wire[3..]));
    }
  }

  lemma {:induction false} WriteStreamLength(k: nat, p: seq<Byte>, draw: nat -> Byte)
    requires k <= FIRST_PADDINGS
    ensures |WriteStream(k, p, draw)| == |p| + 3 * Min(FIRST_PADDINGS - k, Pieces(|p|))
    decreases |p|
  {
    if k == FIRST_PADDINGS {
      RawWriteIsVerbatim(k, p, draw);
    } else if |p| > MAX_FRAME {
      WriteStreamLength(k + 1, p[MAX_FRAME..], draw);
    }
  }

  /** Skipping into a written stream leaves fewer payload bytes than were written. */
  lemma {:induction false} SkippedStreamIsShort(k: nat, skip: nat, p: seq<Byte>, draw: nat -> Byte)
    requires k <= FIRST_PADDINGS && skip > 0 && |p| > 0
    ensures |Payload(Reader(k, 0, skip, WriteStream(k, p, draw)))| < |p|
  {
    var wire := WriteStream(k, p, draw);
    WriteStreamLength(k, p, draw);
    if |wire| >= skip {
      var t := Reader(k, 0, 0, wire[skip..]);
      assert Payload(Reader(k, 0, skip, wire)) == Payload(t);
      hide Payload, HeadersRead;
      HeadersBoundPayload(t);
      var framed := Min(FIRST_PADDINGS - k, Pieces(|p|));
      if HeadersRead(t) < framed {
        assert MAX_FRAME * HeadersRead(t) <= MAX_FRAME * (Pieces(|p|) - 1);
      }
    }
  }

  /** Two writes in a row, the first framed, come through exactly when the first drew no
      padding or the second is empty. */
  lemma {:induction false} UnsentPaddingLosesData(k: nat, a: seq<Byte>, padA: Byte, b: seq<Byte>, padB: Byte)
    requires k < FIRST_PADDINGS && |a| <= MAX_FRAME && |b| <= MAX_FRAME
    ensures Payload(Reader(k, 0, 0, WritePiece(k, a, padA) + WritePiece(k + 1, b, padB))) == a + b
       <==> padA == 0 || b == []
  {
    hide Payload, WritePiece;
    var second := WritePiece(k + 1, b, padB);
    var s := FirstPieceRead(k, a, padA, second);
    CancelPrefix(a, Payload(s), b);
    if padA == 0 {
      OnePieceRead(k + 1, b, padB);
    } else {
      SkippedPieceIsShort(k + 1, padA, b, padB);
    }
  }

  lemma CancelPrefix(a: seq<Byte>, x: seq<Byte>, y: seq<Byte>)
    ensures a + x == a + y <==> x == y
  {
    if a + x == a + y {
      assert x == (a + x)[|a|..] && y == (a + y)[|a|..];
    }
  }

  /** Skipping into a piece leaves fewer bytes than its data. */
  lemma {:induction false} SkippedPieceIsShort(k: nat, skip: nat, b: seq<Byte>, pad: Byte)
    requires k <= FIRST_PADDINGS && |b| <= MAX_FRAME && skip > 0
    ensures var left := Payload(Reader(k, 0, skip, WritePiece(k, b, pad)));
            if b == [] then left == [] else |left| < |b|
  {
    var wire := WritePiece(k, b, pad);
    assert |wire| == |b| + if k < FIRST_PADDINGS then 3 else 0;
    if |wire| >= skip {
      var t := Reader(k, 0, 0, wire[skip..]);
      if k < FIRST_PADDINGS && |t.wire| >= 3 { PayloadWithinWire(Reader(k + 1, SizeOf(t.wire), t.wire[2], t.wire[3..])); }
    }
  }

  /** A single piece is read back, framed or raw. */
  lemma {:induction false} OnePieceRead(k: nat, b: seq<Byte>, pad: Byte)
    requires k <= FIRST_PADDINGS && |b| <= MAX_FRAME
    ensures Payload(Reader(k, 0, 0, WritePiece(k, b, pad))) == b
  {
    if k < FIRST_PADDINGS {
      var u := FirstPieceRead(k, b, pad, []);
      assert WritePiece(k, b, pad) + [] == WritePiece(k, b, pad) && b + [] == b;
      PayloadWithinWire(u);
    }
  }

  /** Reading one piece leaves a reader that expects its announced padding. */
  lemma {:induction false} FirstPieceRead(k: nat, a: seq<Byte>, pad: Byte, rest: seq<Byte>) returns (s: Reader)
    requires k < FIRST_PADDINGS && |a| <= MAX_FRAME
    ensures s == Reader(k + 1, 0, pad, rest)
    ensures Payload(Reader(k, 0, 0, WritePiece(k, a, pad) + rest)) == a + Payload(s)
  {
    s := Reader(k + 1, 0, pad, rest);
    var wire := WritePiece(k, a, pad) + rest;
    assert wire[..3] == Header(|a|, pad) && wire[3..] == a + rest;
    assert wire[0] == Header(|a|, pad)[0] && wire[1] == Header(|a|, pad)[1];
    var t := Reader(k + 1, |a|, pad, a + rest);
    assert Payload(Reader(k, 0, 0, wire)) == Payload(t);
    TakeFromFrame(t, |a|);
    assert t.wire[..|a|] == a && t.wire[|a|..] == rest;
  }

  /** Without padding drawn, a Write of any length comes through, before, across and after
      the switch to raw mode. */
  lemma {:induction false} UnpaddedWriteIsUndone(k: nat, p: seq<Byte>, draw: nat -> Byte)
    requires forall i | k <= i < FIRST_PADDINGS :: draw(i) == 0
    ensures Payload(Reader(Min(k, FIRST_PADDINGS), 0, 0, WriteStream(k, p, draw))) == p
    decreases |p|
  {
    hide Payload, WritePiece;
    if |p| == 0 {
      PayloadWithinWire(Reader(Min(k, FIRST_PADDINGS), 0, 0, []));
    } else if k >= FIRST_PADDINGS {
      RawWriteIsVerbatim(k, p, draw);
      RawIsVerbatim(p);
    } else {
      var m := Min(|p|, MAX_FRAME);
      WriteStreamStep(k, p, draw);
      var s := FirstPieceRead(k, p[..m], 0, WriteStream(k + 1, p[m..], draw));
      UnpaddedWriteIsUndone(k + 1, p[m..], draw);
      assert p == p[..m] + p[m..];
    }
  }

  lemma RawIsVerbatim(wire: seq<Byte>)
    ensures Payload(Reader(FIRST_PADDINGS, 0, 0, wire)) == wire
  {
  }

  lemma WriteStreamStep(k: nat, p: seq<Byte>, draw: nat -> Byte)
    requires |p| > 0
    ensures var m := Min(|p|, MAX_FRAME);
            WriteStream(k, p, draw) == WritePiece(k, p[..m], draw(k)) + WriteStream(k + 1, p[m..], draw)
  {
    hide WritePiece;
    if |p| <= MAX_FRAME {
      assert p[..|p|] == p && WriteStream(k + 1, p[|p|..], draw) == [];
      assert WritePiece(k, p, draw(k)) + [] == WritePiece(k, p, draw(k));
    }
  }

  /** The bytes of a Write, piece by piece: at most 65535 bytes of data after a header that
      announces them and the padding drawn; from the ninth piece on only the data. */
  lemma {:induction false} PieceTold(k: nat, p: seq<Byte>, draw: nat -> Byte)
    requires |p| > 0
    ensures var wire, m := WriteStream(k, p, draw), if |p| > 65535 then 65535 else |p|;
            if k < 8 then
              |wire| >= 3 && (wire[0] as int) * 256 + wire[1] == m && wire[2] == draw(k) && wire[3..] == p[..m] + WriteStream(k + 1, p[m..], draw)
            else wire == p
  {
    if k < 8 {
      WriteStreamStep(k, p, draw);
      var m := Min(|p|, MAX_FRAME);
      var wire, rest := WriteStream(k, p, draw), WriteStream(k + 1, p[m..], draw);
      hide WriteStream;
      assert wire == (Header(m, draw(k)) + p[..m]) + rest;
      assert wire[3..] == p[..m] + rest;
    } else {
      RawWriteIsVerbatim(k, p, draw);
    }
  }

  lemma {:induction false} RawWriteIsVerbatim(k: nat, p: seq<Byte>, draw: nat -> Byte)
    requires k >= FIRST_PADDINGS
    ensures WriteStream(k, p, draw) == p
    decreases |p|
  {
    if |p| > MAX_FRAME {
      RawWriteIsVerbatim(k + 1, p[MAX_FRAME..], draw);
      assert p == p[..MAX_FRAME] + p[MAX_FRAME..];
    }
  }

  lemma NothingEncoded(k: nat)
    ensures Framable(k, [], []) && Encode(k, [], []) == []
  {
  }

  lemma NothingToWrite(k: nat, draw: nat -> Byte)
    ensures WriteStream(k, [], draw) == []
  {
  }

  /** In raw mode the frame count and the draw no longer matter. */
  lemma SamePiece(k: nat, l: nat, data: seq<Byte>, draw: nat -> Byte)
    requires |data| <= MAX_FRAME && (k == l || (k >= FIRST_PADDINGS && l >= FIRST_PADDINGS))
    ensures WritePiece(k, data, draw(k)) == WritePiece(l, data, draw(l))
  {
  }

  lemma Associates(a: seq<Byte>, b: seq<Byte>, c: seq<Byte>)
    ensures a + (b + c) == (a + b) + c
  {
  }

  // ---- the connection ----

  class NaiveConn {
    var incoming: seq<Byte>
    var outgoing: seq<Byte>
    var readPadding: nat
    var writePadding: nat
    var readRemaining: nat
    var paddingRemaining: nat

    constructor (incoming: seq<Byte>)
      ensures this.incoming == incoming && outgoing == []
      ensures State() == Reader(0, 0, 0, incoming) && writePadding == 0
    {
      this.incoming, outgoing := incoming, [];
      readPadding, writePadding, readRemaining, paddingRemaining := 0, 0, 0, 0;
    }

    function State(): Reader
      reads this
    {
      Reader(readPadding, readRemaining, paddingRemaining, incoming)
    }

    /** The underlying connection fills p[..n]. */
    method ConnRead(p: array<Byte>, size: nat, chunk: nat) returns (n: nat)
      requires size <= p.Length
      modifies `incoming, p
      ensures n == RawRead(old(incoming), size, chunk)
      ensures p[..n] == old(incoming)[..n] && incoming == old(incoming)[n..]
      ensures forall i | n <= i < p.Length :: p[i] == old(p[i])
    {
      n := RawRead(incoming, size, chunk);
      for i := 0 to n
        invariant incoming == old(incoming)
        invariant forall j | 0 <= j < i :: p[j] == incoming[j]
        invariant forall j | i <= j < p.Length :: p[j] == old(p[j])
      {
        p[i] := incoming[i];
      }
      incoming := incoming[n..];
    }

    method Read(p: array<Byte>, chunk: nat) returns (n: nat, failed: bool)
      modifies this, p
      ensures outgoing == old(outgoing) && writePadding == old(writePadding)
      ensures n <= p.Length
      ensures match ReadStep(old(State()), p.Length, chunk)
              case Failed(after) => failed && n == 0 && State() == after
              case Delivered(bytes, after) => !failed && p[..n] == bytes && State() == after
    {
      n, failed := 0, false;
      if readRemaining > 0 {
        n := ConnRead(p, Min(p.Length, readRemaining), chunk);
        readRemaining := readRemaining - n;
        return;
      }
      if paddingRemaining > 0 {
        if |incoming| < paddingRemaining {
          incoming := [];
          return 0, true;
        }
        incoming := incoming[paddingRemaining..];
        paddingRemaining := 0;
      }
      n, failed := ReadFramed(p, chunk);
    }

    /** The rest of read, at the start of a frame or in raw mode. */
    method ReadFramed(p: array<Byte>, chunk: nat) returns (n: nat, failed: bool)
      requires readRemaining == 0 && paddingRemaining == 0
      modifies this, p
      ensures outgoing == old(outgoing) && writePadding == old(writePadding)
      ensures n <= p.Length
      ensures match ReadFrame(old(State()), p.Length, chunk)
              case Failed(after) => failed && n == 0 && State() == after
              case Delivered(bytes, after) => !failed && p[..n] == bytes && State() == after
    {
      n, failed := 0, false;
      if readPadding < FIRST_PADDINGS {
        // The header is read into the caller's buffer when it has room.
        var header := p;
        if p.Length < 3 { header := new Byte[3]; }
        ghost var wire := incoming;
        if |incoming| < 3 {
          incoming := [];
          return 0, true;
        }
        var three := ConnRead(header, 3, 3);
        assert header[..3] == wire[..3];
        var size, pad := (header[0] as int) * 256 + header[1], header[2];
        assert size == SizeOf(wire) by { assert header[0] == wire[0] && header[1] == wire[1]; }
        assert pad == wire[2];
        n := ConnRead(p, Min(p.Length, size), chunk);
        readPadding := readPadding + 1;
        readRemaining := size - n;
        paddingRemaining := pad;
        return;
      }
      n := ConnRead(p, p.Length, chunk);
    }

    /** naiveH1Conn.write: the drawn padding is announced, not sent. */
    method WriteOnce(p: seq<Byte>, pad: Byte)
      requires |p| <= MAX_FRAME
      modifies `outgoing, `writePadding
      ensures outgoing == old(outgoing) + WritePiece(old(writePadding), p, pad)
      ensures writePadding == old(writePadding) + if old(writePadding) < FIRST_PADDINGS then 1 else 0
    {
      if writePadding < FIRST_PADDINGS {
        outgoing := outgoing + (Header(|p|, pad) + p);
        writePadding := writePadding + 1;
      } else {
        outgoing := outgoing + p;
      }
    }

    method Write(p: seq<Byte>, draw: nat -> Byte) returns (n: nat)
      modifies `outgoing, `writePadding
      ensures n == |p| && outgoing == old(outgoing) + WriteStream(old(writePadding), p, draw)
      ensures writePadding == FramesAfter(old(writePadding), |p|)
    {
      hide WritePiece, WriteStream;
      var rest := p;
      n := 0;
      ghost var k := writePadding;
      while |rest| > 0
        invariant n + |rest| == |p|
        invariant writePadding == k || (writePadding >= FIRST_PADDINGS && k >= FIRST_PADDINGS)
        invariant FramesAfter(writePadding, |rest|) == FramesAfter(old(writePadding), |p|)
        invariant old(outgoing) + WriteStream(old(writePadding), p, draw) == outgoing + WriteStream(k, rest, draw)
        decreases |rest|
      {
        var m := Min(|rest|, MAX_FRAME);
        ghost var before := outgoing;
        WriteStreamStep(k, rest, draw);
        SamePiece(k, writePadding, rest[..m], draw);
        WriteOnce(rest[..m], draw(writePadding));
        Associates(before, WritePiece(k, rest[..m], draw(k)), WriteStream(k + 1, rest[m..], draw));
        rest := rest[m..];
        n := n + m;
        k := k + 1;
      }
      NothingToWrite(k, draw);
      assert outgoing + [] == outgoing;
    }

    /** WriteBuffer: header and padding travel with the data; an oversized buffer is handed
        to Write while frames are in use. */
    method WriteBuffer(data: seq<Byte>, filler: seq<Byte>, draw: nat -> Byte)
      requires |filler| < 256
      modifies `outgoing, `writePadding
      ensures outgoing == old(outgoing) +
                if old(writePadding) >= FIRST_PADDINGS then data
                else if |data| > MAX_FRAME then WriteStream(old(writePadding), data, draw)
                else Frame(data, filler)
      ensures writePadding == if |data| == 0 then FramesAfter(old(writePadding), 1) else FramesAfter(old(writePadding), |data|)
    {
      if writePadding < FIRST_PADDINGS {
        if |data| > MAX_FRAME {
          var n := Write(data, draw);
          return;
        }
        outgoing := outgoing + Frame(data, filler);
        writePadding := writePadding + 1;
      } else {
        outgoing := outgoing + data;
      }
    }

    /** Any list of buffers sent one after the other. */
    method WriteBuffers(writes: seq<seq<Byte>>, fillers: seq<seq<Byte>>, draw: nat -> Byte)
      requires writePadding <= FIRST_PADDINGS && Framable(writePadding, writes, fillers)
      modifies `outgoing, `writePadding
      ensures outgoing == old(outgoing) + Encode(old(writePadding), writes, fillers)
    {
      hide Encode, Frame, WriteStream;
      ghost var k := writePadding;
      assert writes[..0] == [] && fillers[..0] == [];
      NothingEncoded(k);
      assert outgoing + [] == outgoing;
      for i := 0 to |writes|
        invariant Framable(k, writes[..i], fillers[..i])
        invariant writePadding == Min(FIRST_PADDINGS, k + i)
        invariant outgoing == old(outgoing) + Encode(k, writes[..i], fillers[..i])
      {
        assert writes[..i + 1] == writes[..i] + [writes[i]] && fillers[..i + 1] == fillers[..i] + [fillers[i]];
        EncodeSnoc(k, writes[..i], fillers[..i], writes[i], fillers[i]);
        ghost var before, sent := outgoing, Encode(k, writes[..i], fillers[..i]);
        WriteBuffer(writes[i], fillers[i], draw);
        Associates(old(outgoing), sent, outgoing[|before|..]);
      }
      assert writes[..|writes|] == writes && fillers[..|fillers|] == fillers;
    }
  }
}
