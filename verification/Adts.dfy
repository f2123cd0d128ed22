/** ADTS framing of AAC: each packet follows a header of 7 bytes (9 with a checksum) that holds the
    sampling rate, the channels and the length of the frame (section 6.2 of ISO/IEC 13818-7). */
module Adts {

  datatype Option<T> = None | Some(value: T)

  type Byte = b: int | 0 <= b < 256

  /** The sampling frequency index (section 1.6.3.4 of ISO/IEC 14496-3). */
  const SAMPLE_RATES: seq<nat> :=
    [96000, 88200, 64000, 48000, 44100, 32000, 24000, 22050, 16000, 12000, 11025, 8000, 7350]

  const MAX_FRAME := 0x1FFF

  datatype AacPackets = AacPackets(sampleRate: nat, channels: nat, bytes: seq<Byte>, offsets: seq<nat>) {

    function PacketCount(): nat { if |offsets| > 0 then |offsets| - 1 else 0 }

    predicate Ordered() {
      && (forall i, j | 0 <= i < j < |offsets| :: offsets[i] < offsets[j])
      && (forall i | 0 <= i < |offsets| :: offsets[i] <= |bytes|)
    }

    /** Offset and size of a packet. */
    function PacketInfo(index: nat): Option<(nat, nat)>
      requires Ordered()
    {
      if index + 1 >= |offsets| then None
      else
        assert offsets[index] < offsets[index + 1];
        Some((offsets[index], offsets[index + 1] - offsets[index]))
    }

    function PacketSizeUpperBound(): nat
      requires Ordered()
    {
      LargestBefore(PacketCount())
    }

    function LargestBefore(n: nat): nat
      requires Ordered() && n <= PacketCount()
    {
      if n == 0 then 0 else
        assert offsets[n - 1] < offsets[n];
        var size := offsets[n] - offsets[n - 1];
        if size > LargestBefore(n - 1) then size else LargestBefore(n - 1)
    }
  }

  // ---- Headers ----

  // Shifts and masks are written as division and remainder, and a union of bits that do not overlap
  // as a sum.

  function HeaderByte2(rate: nat, channels: nat): Byte
    requires rate < 16 && channels < 8
  {
    0x40 + rate * 4 + channels / 4
  }

  function HeaderByte3(channels: nat, frame: nat): Byte { channels % 4 * 64 + frame / 2048 % 4 }

  function HeaderByte4(frame: nat): Byte { frame / 8 % 256 }

  function HeaderByte5(frame: nat): Byte { frame % 8 * 32 + 0x1F }

  /** A header without checksum. */
  function Header(rate: nat, channels: nat, payloadLength: nat): (h: seq<Byte>)
    requires rate < 16 && channels < 8
    ensures |h| == 7
  {
    var frame := payloadLength + 7;
    [0xFF, 0xF1, HeaderByte2(rate, channels), HeaderByte3(channels, frame), HeaderByte4(frame), HeaderByte5(frame), 0xFC]
  }

  /** The number with these digits, the most significant first. */
  function BigEndian(s: seq<Byte>): nat { if s == [] then 0 else 256 * BigEndian(s[..|s| - 1]) + s[|s| - 1] }

  lemma SevenDigits(s: seq<Byte>)
    requires |s| == 7
    ensures BigEndian(s) == s[0] as int * 0x1_0000_0000_0000 + s[1] as int * 0x100_0000_0000 + s[2] as int * 0x1_0000_0000 + s[3] as int * 0x100_0000
      + s[4] as int * 0x1_0000 + s[5] as int * 0x100 + s[6]
  {
    assert BigEndian(s[..1]) == s[0] by { assert s[..1][..0] == []; }
    assert forall n | 1 <= n < 7 :: s[..n + 1][..n] == s[..n];
    assert BigEndian(s[..2]) == 256 * BigEndian(s[..1]) + s[1];
    assert BigEndian(s[..3]) == 256 * BigEndian(s[..2]) + s[2];
    assert BigEndian(s[..4]) == 256 * BigEndian(s[..3]) + s[3];
    assert BigEndian(s[..5]) == 256 * BigEndian(s[..4]) + s[4];
    assert BigEndian(s[..6]) == 256 * BigEndian(s[..5]) + s[5];
  }

  /** The 56 bits of a header, field by field: 12 of syncword, MPEG-4, 2 of layer, no checksum, 2 of
      profile (AAC LC), 4 of rate index, a private one, 3 of channels, 4 unused, 13 of frame length, 11 of
      buffer fullness and 2 of further blocks. */
  lemma HeaderLayout(rate: nat, channels: nat, payloadLength: nat)
    requires rate < 16 && channels < 8 && payloadLength + 7 <= MAX_FRAME
    ensures BigEndian(Header(rate, channels, payloadLength)) ==
      0xFFF * 0x1000_0000_0000 + 0 * 0x800_0000_0000 + 0 * 0x200_0000_0000 + 1 * 0x100_0000_0000
      + 1 * 0x40_0000_0000 + rate * 0x4_0000_0000 + 0 * 0x2_0000_0000 + channels * 0x4000_0000 + 0 * 0x400_0000
      + (payloadLength + 7) * 0x2000 + 0x7FF * 4 + 0
  {
    var frame := payloadLength + 7;
    SevenDigits(Header(rate, channels, payloadLength));
    FrameDigits(frame);
    assert channels == channels / 4 * 4 + channels % 4;
  }

  /** Every rate from the fourth to the twelfth is half of the rate three places before it. */
  lemma RateTable()
    ensures |SAMPLE_RATES| == 13 && SAMPLE_RATES[..3] == [96000, 88200, 64000] && SAMPLE_RATES[12] == 7350
    ensures forall i | 0 <= i < 9 :: SAMPLE_RATES[i] == 2 * SAMPLE_RATES[i + 3]
  {}

  function LengthField(b3: Byte, b4: Byte, b5: Byte): nat { b3 as int % 4 * 2048 + b4 as int * 8 + b5 as int / 32 }

  function RateField(b2: Byte): nat { b2 as int / 4 % 16 }

  function ChannelField(b2: Byte, b3: Byte): nat { b2 as int % 2 * 4 + b3 as int / 64 }

  /** The length survives exactly if it fits the 13 bits of its field. */
  lemma LengthRoundTrip(channels: nat, frame: nat)
    ensures LengthField(HeaderByte3(channels, frame), HeaderByte4(frame), HeaderByte5(frame)) == frame <==> frame <= MAX_FRAME
  {
    FrameDigits(frame);
    assert HeaderByte3(channels, frame) as int % 4 == frame / 2048 % 4;
    assert HeaderByte5(frame) as int / 32 == frame % 8;
  }

  /** The three parts of a length. */
  lemma FrameDigits(frame: nat)
    ensures frame == frame / 2048 * 2048 + frame / 8 % 256 * 8 + frame % 8
    ensures frame / 2048 % 4 == frame / 2048 <==> frame <= MAX_FRAME
  {
    assert frame / 8 == frame / 2048 * 256 + frame / 8 % 256;
  }

  lemma RateRoundTrip(rate: nat, channels: nat)
    requires rate < 13 && channels <= 7
    ensures RateField(HeaderByte2(rate, channels)) == rate
  {}

  lemma ChannelRoundTrip(rate: nat, channels: nat, frame: nat)
    requires rate < 13 && channels <= 7
    ensures ChannelField(HeaderByte2(rate, channels), HeaderByte3(channels, frame)) == channels
  {}

  // ---- What a stream says ----

  predicate HasSync(bytes: seq<Byte>, pos: nat)
    requires pos + 7 <= |bytes|
  {
    bytes[pos] == 0xFF && bytes[pos + 1] as int / 16 == 0xF
  }

  function HeaderSize(bytes: seq<Byte>, pos: nat): nat
    requires pos + 7 <= |bytes|
  {
    if bytes[pos + 1] as int % 2 != 0 then 7 else 9
  }

  function FrameLength(bytes: seq<Byte>, pos: nat): nat
    requires pos + 7 <= |bytes|
  {
    LengthField(bytes[pos + 3], bytes[pos + 4], bytes[pos + 5])
  }

  /** What is read of a header are these bits of it. */
  lemma FieldsRead(bytes: seq<Byte>, pos: nat)
    requires pos + 7 <= |bytes|
    ensures var h := BigEndian(bytes[pos..pos + 7]);
      && (HasSync(bytes, pos) <==> h / 0x1000_0000_0000 == 0xFFF)
      && (HeaderSize(bytes, pos) == 7 <==> h / 0x100_0000_0000 % 2 == 1)
      && RateField(bytes[pos + 2]) == h / 0x4_0000_0000 % 16
      && ChannelField(bytes[pos + 2], bytes[pos + 3]) == h / 0x4000_0000 % 8
      && FrameLength(bytes, pos) == h / 0x2000 % 0x2000
  {
    var s := bytes[pos..pos + 7];
    SevenDigits(s);
    FieldsOfDigits(s, BigEndian(s));
  }

  lemma FieldsOfDigits(s: seq<Byte>, h: nat)
    requires |s| == 7
    requires h == s[0] as int * 0x1_0000_0000_0000 + s[1] as int * 0x100_0000_0000 + s[2] as int * 0x1_0000_0000 + s[3] as int * 0x100_0000
      + s[4] as int * 0x1_0000 + s[5] as int * 0x100 + s[6]
    ensures h / 0x1000_0000_0000 == s[0] as int * 16 + s[1] as int / 16
    ensures h / 0x100_0000_0000 % 2 == s[1] as int % 2
    ensures h / 0x4_0000_0000 % 16 == s[2] as int / 4 % 16
    ensures h / 0x4000_0000 % 8 == s[2] as int % 2 * 4 + s[3] as int / 64
    ensures h / 0x2000 % 0x2000 == s[3] as int % 4 * 2048 + s[4] as int * 8 + s[5] as int / 32
  {
    var s0, s1, s2, s3, s4, s5, s6 := s[0] as int, s[1] as int, s[2] as int, s[3] as int, s[4] as int, s[5] as int, s[6] as int;
    TopBits(s0, s1, 0x1_0000_0000 * s2 + 0x100_0000 * s3 + 0x1_0000 * s4 + 0x100 * s5 + s6, h);
    MiddleBits(0x100 * s0 + s1, s2, s3, 0x1_0000 * s4 + 0x100 * s5 + s6, h);
    LengthBits(0x1_0000 * s0 + 0x100 * s1 + s2, s3, s4, s5, s6, h);
  }

  lemma Quotient(h: nat, unit: nat, q: nat, r: nat)
    requires r < unit && h == unit * q + r
    ensures h / unit == q
  {
    var d := h / unit;
    assert h == unit * d + h % unit;
    if d < q { MulMonotone(unit, d + 1, q); } else if q < d { MulMonotone(unit, q + 1, d); }
  }

  lemma MulMonotone(k: nat, a: nat, b: nat)
    requires a <= b
    ensures k * a <= k * b
  {}

  lemma TopBits(s0: nat, s1: nat, rest: nat, h: nat)
    requires s1 < 256 && rest < 0x100_0000_0000 && h == 0x1_0000_0000_0000 * s0 + 0x100_0000_0000 * s1 + rest
    ensures h / 0x1000_0000_0000 == s0 * 16 + s1 / 16 && h / 0x100_0000_0000 % 2 == s1 % 2
  {
    Quotient(h, 0x1000_0000_0000, s0 * 16 + s1 / 16, 0x100_0000_0000 * (s1 % 16) + rest);
    Quotient(h, 0x100_0000_0000, s0 * 256 + s1, rest);
  }

  lemma MiddleBits(top: nat, s2: nat, s3: nat, rest: nat, h: nat)
    requires s2 < 256 && s3 < 256 && rest < 0x100_0000
    requires h == 0x100_0000_0000 * top + 0x1_0000_0000 * s2 + 0x100_0000 * s3 + rest
    ensures h / 0x4_0000_0000 % 16 == s2 / 4 % 16 && h / 0x4000_0000 % 8 == s2 % 2 * 4 + s3 / 64
  {
    RateBits(top, s2, 0x100_0000 * s3 + rest, h);
    var q, r := top * 128 + s2 / 2, s2 % 2 * 4 + s3 / 64;
    Quotient(h, 0x4000_0000, 8 * q + r, 0x100_0000 * (s3 % 64) + rest);
    Remainder(8, q, r);
  }

  lemma RateBits(top: nat, s2: nat, rest: nat, h: nat)
    requires s2 < 256 && rest < 0x1_0000_0000 && h == 0x100_0000_0000 * top + 0x1_0000_0000 * s2 + rest
    ensures h / 0x4_0000_0000 % 16 == s2 / 4 % 16
  {
    var q, r := top * 4 + s2 / 64, s2 / 4 % 16;
    Quotient(h, 0x4_0000_0000, 16 * q + r, 0x1_0000_0000 * (s2 % 4) + rest);
    Remainder(16, q, r);
  }

  lemma Remainder(n: nat, q: nat, r: nat)
    requires n in {8, 16} && r < n
    ensures (n * q + r) % n == r
  {}

  lemma LengthBits(top: nat, s3: nat, s4: nat, s5: nat, s6: nat, h: nat)
    requires s3 < 256 && s4 < 256 && s5 < 256 && s6 < 256
    requires h == 0x1_0000_0000 * top + 0x100_0000 * s3 + 0x1_0000 * s4 + 0x100 * s5 + s6
    ensures h / 0x2000 % 0x2000 == s3 % 4 * 2048 + s4 * 8 + s5 / 32
  {
    var q := top * 0x8_0000 + s3 * 2048 + s4 * 8 + s5 / 32;
    Quotient(h, 0x2000, q, 0x100 * (s5 % 32) + s6);
    assert q == 0x2000 * (top * 64 + s3 / 4) + (s3 % 4 * 2048 + s4 * 8 + s5 / 32);
  }

  /** A complete frame, as long as its header says and at least as long as the header. */
  predicate IsFrame(bytes: seq<Byte>, pos: nat) {
    && pos + 7 <= |bytes| && HasSync(bytes, pos)
    && HeaderSize(bytes, pos) <= FrameLength(bytes, pos) && pos + FrameLength(bytes, pos) <= |bytes|
  }

  /** Where the frames from a position on start, and where the last of them ends. */
  function Offsets(bytes: seq<Byte>, pos: nat): (r: seq<nat>)
    requires pos <= |bytes|
    ensures r != [] && r[0] == pos
    decreases |bytes| - pos
  {
    if IsFrame(bytes, pos) then [pos] + Offsets(bytes, pos + FrameLength(bytes, pos)) else [pos]
  }

  function Last(s: seq<nat>): nat
    requires s != []
  {
    s[|s| - 1]
  }

  function SampleRate(bytes: seq<Byte>): nat
    requires 7 <= |bytes|
  {
    var i := RateField(bytes[2]);
    if i < |SAMPLE_RATES| then SAMPLE_RATES[i] else 44100
  }

  function Channels(bytes: seq<Byte>): nat
    requires 7 <= |bytes|
  {
    var c := ChannelField(bytes[2], bytes[3]);
    if c == 0 then 2 else c
  }

  /** The packets of a stream; an input that does not start with a frame is refused. */
  function Parse(bytes: seq<Byte>): Option<AacPackets> {
    if !IsFrame(bytes, 0) then None
    else
      var offsets := Offsets(bytes, 0);
      OffsetsOrdered(bytes, 0);
      Some(AacPackets(SampleRate(bytes), Channels(bytes), bytes[..Last(offsets)], offsets))
  }

  /** A frame from a to b. */
  predicate FrameTo(bytes: seq<Byte>, a: nat, b: nat) { IsFrame(bytes, a) && b == a + FrameLength(bytes, a) }

  /** Offsets in order, each starting a frame that ends at the next. */
  predicate IsChain(bytes: seq<Byte>, pos: nat, r: seq<nat>)
    requires r != []
  {
    && (forall i, j | 0 <= i < j < |r| :: r[i] < r[j])
    && (forall i | 0 <= i < |r| :: pos <= r[i] <= Last(r) <= |bytes|)
    && (forall i | 0 <= i < |r| - 1 :: FrameTo(bytes, r[i], r[i + 1]))
  }

  lemma ChainCons(bytes: seq<Byte>, pos: nat, next: nat, r: seq<nat>)
    requires FrameTo(bytes, pos, next) && next > pos
    requires r != [] && r[0] == next && IsChain(bytes, next, r)
    ensures IsChain(bytes, pos, [pos] + r)
  {
    var s := [pos] + r;
    hide FrameTo;
    forall i, j | 0 <= i < j < |s| ensures s[i] < s[j] {
      assert s[j] == r[j - 1] && next <= r[j - 1];
      if i > 0 { assert s[i] == r[i - 1]; }
    }
    forall i | 0 <= i < |s| ensures pos <= s[i] <= Last(s) <= |bytes| {
      assert Last(s) == Last(r) && next <= r[0] <= Last(r);
      if i > 0 { assert s[i] == r[i - 1]; }
    }
    forall i | 0 <= i < |s| - 1 ensures FrameTo(bytes, s[i], s[i + 1]) {
      if i > 0 { assert FrameTo(bytes, r[i - 1], r[i - 1 + 1]); }
    }
  }

  lemma {:induction false} OffsetsOrdered(bytes: seq<Byte>, pos: nat)
    requires pos <= |bytes|
    ensures IsChain(bytes, pos, Offsets(bytes, pos)) && !IsFrame(bytes, Last(Offsets(bytes, pos)))
    decreases |bytes| - pos
  {
    hide IsFrame, FrameLength;
    if IsFrame(bytes, pos) {
      FrameIsLong(bytes, pos);
      var next := pos + FrameLength(bytes, pos);
      OffsetsOrdered(bytes, next);
      ChainCons(bytes, pos, next, Offsets(bytes, next));
    }
  }

  lemma FrameIsLong(bytes: seq<Byte>, pos: nat)
    requires IsFrame(bytes, pos)
    ensures FrameLength(bytes, pos) >= 7 && pos + FrameLength(bytes, pos) <= |bytes|
  {}

  // ---- What is accepted ----

  /** The packets are a prefix of the input; they tile it; each is one whole frame, and what
      follows the last is not one. */
  lemma AcceptedPackets(bytes: seq<Byte>)
    requires Parse(bytes).Some?
    ensures var p := Parse(bytes).value;
      && p.bytes <= bytes && p.Ordered() && p.PacketCount() >= 1
      && p.offsets[0] == 0 && Last(p.offsets) == |p.bytes| && !IsFrame(bytes, |p.bytes|)
      && (forall i | 0 <= i < p.PacketCount() :: IsFrame(bytes, p.offsets[i]))
      && (forall i | 0 <= i < p.PacketCount() :: p.PacketInfo(i) == Some((p.offsets[i], FrameLength(bytes, p.offsets[i]))))
  {
    OffsetsOrdered(bytes, 0);
    var p := Parse(bytes).value;
    hide IsFrame, FrameLength;
    forall i | 0 <= i < p.PacketCount()
      ensures IsFrame(bytes, p.offsets[i]) && p.PacketInfo(i) == Some((p.offsets[i], FrameLength(bytes, p.offsets[i])))
    {
      assert FrameTo(bytes, p.offsets[i], p.offsets[i + 1]);
    }
  }

  /** The bound is met by every packet and reached by one. */
  lemma UpperBoundIsLargest(p: AacPackets)
    requires p.Ordered() && p.PacketCount() >= 1
    ensures forall i | 0 <= i < p.PacketCount() :: p.PacketInfo(i).value.1 <= p.PacketSizeUpperBound()
    ensures exists i: nat | i < p.PacketCount() :: p.PacketInfo(i).value.1 == p.PacketSizeUpperBound()
  {
    var i := LargestIsSome(p, p.PacketCount());
    assert p.PacketInfo(i).value.1 == p.PacketSizeUpperBound();
    forall k | 0 <= k < p.PacketCount() ensures p.PacketInfo(k).value.1 <= p.PacketSizeUpperBound() {
      LargestIsBound(p, p.PacketCount(), k);
    }
  }

  lemma {:induction false} LargestIsBound(p: AacPackets, n: nat, k: nat)
    requires p.Ordered() && n <= p.PacketCount() && k < n
    ensures p.PacketInfo(k).value.1 <= p.LargestBefore(n)
    decreases n
  {
    if k < n - 1 { LargestIsBound(p, n - 1, k); }
  }

  lemma {:induction false} LargestIsSome(p: AacPackets, n: nat) returns (i: nat)
    requires p.Ordered() && 1 <= n <= p.PacketCount()
    ensures i < n && p.PacketInfo(i).value.1 == p.LargestBefore(n)
    decreases n
  {
    if n > 1 && p.LargestBefore(n - 1) >= p.PacketInfo(n - 1).value.1 {
      i := LargestIsSome(p, n - 1);
    } else {
      i := n - 1;
    }
  }

  lemma FrameInPrefix(bytes: seq<Byte>, pos: nat, end: nat)
    requires end <= |bytes| && IsFrame(bytes, pos) && pos + FrameLength(bytes, pos) <= end
    ensures IsFrame(bytes[..end], pos) && FrameLength(bytes[..end], pos) == FrameLength(bytes, pos)
  {
    FrameIsLong(bytes, pos);
    var b := bytes[..end];
    assert forall k | pos <= k < pos + 7 :: b[k] == bytes[k];
  }

  /** Cutting off what follows the last frame changes no offset. */
  lemma {:induction false} OffsetsInPrefix(bytes: seq<Byte>, pos: nat, end: nat)
    requires pos <= |bytes| && end == Last(Offsets(bytes, pos))
    ensures pos <= end <= |bytes| && Offsets(bytes[..end], pos) == Offsets(bytes, pos)
    decreases |bytes| - pos
  {
    hide FrameLength, IsFrame;
    OffsetsOrdered(bytes, pos);
    if IsFrame(bytes, pos) {
      FrameIsLong(bytes, pos);
      var next := pos + FrameLength(bytes, pos);
      OffsetsOrdered(bytes, next);
      assert Offsets(bytes, pos) == [pos] + Offsets(bytes, next);
      assert Last(Offsets(bytes, next)) == end;
      OffsetsInPrefix(bytes, next, end);
      FrameInPrefix(bytes, pos, end);
    } else {
      NothingLeft(bytes[..end], end);
    }
  }

  lemma NothingLeft(bytes: seq<Byte>, pos: nat)
    requires pos == |bytes|
    ensures !IsFrame(bytes, pos)
  {}

  /** Parsing what was accepted gives the same answer again. */
  lemma ParsingIsIdempotent(bytes: seq<Byte>)
    requires Parse(bytes).Some?
    ensures Parse(Parse(bytes).value.bytes) == Parse(bytes)
  {
    var offsets := Offsets(bytes, 0);
    var end := Last(offsets);
    OffsetsOrdered(bytes, 0);
    OffsetsInPrefix(bytes, 0, end);
    FrameIsLong(bytes, 0);
    assert offsets[1] <= end;
    FrameInPrefix(bytes, 0, end);
    var b := bytes[..end];
    assert b[2] == bytes[2] && b[3] == bytes[3] && b[..end] == b;
  }

  // ---- Frames made of payloads ----

  predicate Fit(payloads: seq<seq<Byte>>) { forall i | 0 <= i < |payloads| :: |payloads[i]| + 7 <= MAX_FRAME }

  function Frame(rate: nat, channels: nat, payload: seq<Byte>): seq<Byte>
    requires |payload| + 7 <= MAX_FRAME && rate < 13 && channels <= 7
  {
    Header(rate, channels, |payload|) + payload
  }

  /** The frames of the payloads, one after the other. */
  function Stream(rate: nat, channels: nat, payloads: seq<seq<Byte>>): seq<Byte>
    requires Fit(payloads) && rate < 13 && channels <= 7
  {
    if payloads == [] then [] else Frame(rate, channels, payloads[0]) + Stream(rate, channels, payloads[1..])
  }

  function StreamOffsets(pos: nat, payloads: seq<seq<Byte>>): (r: seq<nat>)
    ensures |r| == |payloads| + 1 && r[0] == pos
    decreases |payloads|
  {
    if payloads == [] then [pos] else [pos] + StreamOffsets(pos + 7 + |payloads[0]|, payloads[1..])
  }

  lemma StreamSnoc(rate: nat, channels: nat, payloads: seq<seq<Byte>>, p: seq<Byte>, pos: nat)
    requires Fit(payloads) && |p| + 7 <= MAX_FRAME && rate < 13 && channels <= 7
    ensures Fit(payloads + [p]) && Stream(rate, channels, payloads + [p]) == Stream(rate, channels, payloads) + Frame(rate, channels, p)
    ensures Last(StreamOffsets(pos, payloads)) == pos + |Stream(rate, channels, payloads)|
    ensures StreamOffsets(pos, payloads + [p]) == StreamOffsets(pos, payloads) + [pos + |Stream(rate, channels, payloads)| + 7 + |p|]
  {
    hide Frame, Stream, StreamOffsets;
    BytesSnoc(rate, channels, payloads, p);
    StreamEnd(rate, channels, payloads, pos);
    OffsetsSnoc(payloads, p, pos);
  }

  lemma {:induction false} BytesSnoc(rate: nat, channels: nat, payloads: seq<seq<Byte>>, p: seq<Byte>)
    requires Fit(payloads) && |p| + 7 <= MAX_FRAME && rate < 13 && channels <= 7
    ensures Fit(payloads + [p]) && Stream(rate, channels, payloads + [p]) == Stream(rate, channels, payloads) + Frame(rate, channels, p)
    decreases |payloads|
  {
    hide Frame;
    if payloads == [] {
      assert ([] + [p])[1..] == [] && [] + [p] == [p];
    } else {
      BytesSnoc(rate, channels, payloads[1..], p);
      assert (payloads + [p])[0] == payloads[0] && (payloads + [p])[1..] == payloads[1..] + [p];
    }
  }

  lemma {:induction false} StreamEnd(rate: nat, channels: nat, payloads: seq<seq<Byte>>, pos: nat)
    requires Fit(payloads) && rate < 13 && channels <= 7
    ensures Last(StreamOffsets(pos, payloads)) == pos + |Stream(rate, channels, payloads)|
    decreases |payloads|
  {
    hide Frame;
    if payloads != [] {
      FrameSize(rate, channels, payloads[0]);
      StreamEnd(rate, channels, payloads[1..], pos + 7 + |payloads[0]|);
    }
  }

  lemma {:induction false} OffsetsSnoc(payloads: seq<seq<Byte>>, p: seq<Byte>, pos: nat)
    ensures StreamOffsets(pos, payloads + [p]) == StreamOffsets(pos, payloads) + [Last(StreamOffsets(pos, payloads)) + 7 + |p|]
    decreases |payloads|
  {
    if payloads == [] {
      assert ([] + [p])[1..] == [] && [] + [p] == [p];
    } else {
      OffsetsSnoc(payloads[1..], p, pos + 7 + |payloads[0]|);
      assert (payloads + [p])[0] == payloads[0] && (payloads + [p])[1..] == payloads[1..] + [p];
    }
  }

  lemma FrameSize(rate: nat, channels: nat, payload: seq<Byte>)
    requires |payload| + 7 <= MAX_FRAME && rate < 13 && channels <= 7
    ensures |Frame(rate, channels, payload)| == 7 + |payload|
  {}

  lemma PartOf(before: seq<Byte>, middle: seq<Byte>, after: seq<Byte>, k: nat)
    requires k < |middle|
    ensures (before + middle + after)[|before| + k] == middle[k]
  {}

  lemma HeaderInFrame(rate: nat, channels: nat, payload: seq<Byte>, k: nat)
    requires |payload| + 7 <= MAX_FRAME && rate < 13 && channels <= 7 && k < 7
    ensures Frame(rate, channels, payload)[k] == Header(rate, channels, |payload|)[k]
  {
    hide Header;
  }

  /** The header of a frame in a stream. */
  lemma HeaderIsFound(before: seq<Byte>, rate: nat, channels: nat, payload: seq<Byte>, after: seq<Byte>, k: nat)
    requires |payload| + 7 <= MAX_FRAME && rate < 13 && channels <= 7 && k < 7
    ensures (before + Frame(rate, channels, payload) + after)[|before| + k] == Header(rate, channels, |payload|)[k]
  {
    hide Frame, Header;
    FrameSize(rate, channels, payload);
    PartOf(before, Frame(rate, channels, payload), after, k);
    HeaderInFrame(rate, channels, payload, k);
  }

  /** A frame in a stream is found, whole, with its own length. */
  lemma FrameIsFound(before: seq<Byte>, rate: nat, channels: nat, payload: seq<Byte>, after: seq<Byte>)
    requires |payload| + 7 <= MAX_FRAME && rate < 13 && channels <= 7
    ensures var bytes := before + Frame(rate, channels, payload) + after;
      IsFrame(bytes, |before|) && FrameLength(bytes, |before|) == 7 + |payload|
  {
    hide Frame, Header, LengthField;
    FrameSize(rate, channels, payload);
    HeaderFields(rate, channels, |payload|);
    HeaderIsFound(before, rate, channels, payload, after, 0);
    HeaderIsFound(before, rate, channels, payload, after, 1);
    HeaderIsFound(before, rate, channels, payload, after, 3);
    HeaderIsFound(before, rate, channels, payload, after, 4);
    HeaderIsFound(before, rate, channels, payload, after, 5);
  }

  lemma HeaderFields(rate: nat, channels: nat, n: nat)
    requires n + 7 <= MAX_FRAME && rate < 13 && channels <= 7
    ensures var h := Header(rate, channels, n);
      h[0] == 0xFF && h[1] == 0xF1 && LengthField(h[3], h[4], h[5]) == n + 7
  {
    hide LengthField, HeaderByte3, HeaderByte4, HeaderByte5;
    LengthRoundTrip(channels, n + 7);
  }

  lemma {:induction false} StreamIsFound(before: seq<Byte>, rate: nat, channels: nat, payloads: seq<seq<Byte>>)
    requires Fit(payloads) && rate < 13 && channels <= 7
    ensures Offsets(before + Stream(rate, channels, payloads), |before|) == StreamOffsets(|before|, payloads)
    decreases |payloads|
  {
    hide IsFrame, FrameLength, Frame;
    if payloads == [] {
      NothingLeft(before + [], |before|);
    } else {
      var f, rest := Frame(rate, channels, payloads[0]), Stream(rate, channels, payloads[1..]);
      FrameSize(rate, channels, payloads[0]);
      FrameIsFound(before, rate, channels, payloads[0], rest);
      assert before + (f + rest) == before + f + rest;
      StreamIsFound(before + f, rate, channels, payloads[1..]);
    }
  }

  /** Parsing the frames of any payloads recovers the bytes, the offsets, the sampling rate and the
      channels. */
  lemma StreamRoundTrip(rate: nat, channels: nat, payloads: seq<seq<Byte>>)
    requires payloads != [] && Fit(payloads) && rate < 13 && 1 <= channels <= 7
    ensures Parse(Stream(rate, channels, payloads)) ==
      Some(AacPackets(SAMPLE_RATES[rate], channels, Stream(rate, channels, payloads), StreamOffsets(0, payloads)))
  {
    hide Frame, Offsets, IsFrame;
    var bytes := Stream(rate, channels, payloads);
    assert [] + bytes == bytes;
    StreamIsFound([], rate, channels, payloads);
    var init, last := payloads[..|payloads| - 1], payloads[|payloads| - 1];
    assert payloads == init + [last];
    StreamSnoc(rate, channels, payloads, [], 0);
    FirstHeader(rate, channels, payloads);
    assert bytes[..|bytes|] == bytes;
  }

  lemma FirstHeader(rate: nat, channels: nat, payloads: seq<seq<Byte>>)
    requires payloads != [] && Fit(payloads) && rate < 13 && 1 <= channels <= 7
    ensures var bytes := Stream(rate, channels, payloads);
      IsFrame(bytes, 0) && SampleRate(bytes) == SAMPLE_RATES[rate] && Channels(bytes) == channels
  {
    hide Frame, Header, IsFrame, RateField, ChannelField, HeaderByte2, HeaderByte3;
    var bytes, f, n := Stream(rate, channels, payloads), Frame(rate, channels, payloads[0]), |payloads[0]|;
    var rest := Stream(rate, channels, payloads[1..]);
    assert [] + f + rest == bytes;
    FrameIsFound([], rate, channels, payloads[0], rest);
    FrameSize(rate, channels, payloads[0]);
    HeaderIsFound([], rate, channels, payloads[0], rest, 2);
    HeaderIsFound([], rate, channels, payloads[0], rest, 3);
    HeaderHas(rate, channels, n);
    RateRoundTrip(rate, channels);
    ChannelRoundTrip(rate, channels, n + 7);
  }

  lemma HeaderHas(rate: nat, channels: nat, n: nat)
    requires rate < 13 && channels <= 7
    ensures var h := Header(rate, channels, n); h[2] == HeaderByte2(rate, channels) && h[3] == HeaderByte3(channels, n + 7)
  {
    hide HeaderByte2, HeaderByte3, HeaderByte4, HeaderByte5;
  }

  // ---- The loops ----

  lemma OffsetsFrom(bytes: seq<Byte>, pos: nat, packetOffsets: seq<nat>)
    requires IsFrame(bytes, pos)
    ensures packetOffsets + Offsets(bytes, pos) == (packetOffsets + [pos]) + Offsets(bytes, pos + FrameLength(bytes, pos))
  {
    hide IsFrame, FrameLength;
    FrameIsLong(bytes, pos);
    assert Offsets(bytes, pos) == [pos] + Offsets(bytes, pos + FrameLength(bytes, pos));
  }

  lemma OffsetsEnd(bytes: seq<Byte>, pos: nat)
    requires pos <= |bytes| && !IsFrame(bytes, pos)
    ensures Offsets(bytes, pos) == [pos]
  {}

  method ParseAdtsAac(bytes: seq<Byte>) returns (r: Option<AacPackets>)
    ensures r == Parse(bytes)
  {
    hide LengthField, RateField, ChannelField, HasSync, FrameLength, SampleRate, Channels, Offsets;
    var pos, sampleRate, channels := 0, 44100, 2;
    var packetBytes: seq<Byte> := [];
    var packetOffsets: seq<nat> := [];
    var first := true;
    while pos + 7 <= |bytes|
      invariant pos <= |bytes| && packetBytes == bytes[..pos] && (pos == 0 <==> packetOffsets == []) && (first <==> pos == 0)
      invariant Offsets(bytes, 0) == packetOffsets + Offsets(bytes, pos)
      invariant pos > 0 ==> IsFrame(bytes, 0) && sampleRate == SampleRate(bytes) && channels == Channels(bytes)
      decreases |bytes| - pos
    {
      if !HasSync(bytes, pos) {
        if packetOffsets == [] { return None; }
        break;
      }
      var headerSize := HeaderSize(bytes, pos);
      if first {
        sampleRate := SampleRate(bytes);
        channels := Channels(bytes);
        first := false;
      }
      var frameLength := FrameLength(bytes, pos);
      if frameLength < headerSize || pos + frameLength > |bytes| { break; }
      OffsetsFrom(bytes, pos, packetOffsets);
      packetOffsets := packetOffsets + [|packetBytes|];
      packetBytes := packetBytes + bytes[pos..pos + frameLength];
      pos := pos + frameLength;
    }
    if packetOffsets == [] { return None; }
    OffsetsEnd(bytes, pos);
    packetOffsets := packetOffsets + [|packetBytes|];
    r := Some(AacPackets(sampleRate, channels, packetBytes, packetOffsets));
  }

  /** The packets of a file, each wrapped in a header; refused if the sampling rate has no index,
      the channels do not fit their field, or a packet does not fit a frame. */
  method PackPackets(sampleRate: nat, channels: nat, packets: seq<seq<Byte>>) returns (r: Option<AacPackets>, ghost rate: nat)
    ensures r.Some? <==> sampleRate in SAMPLE_RATES && 1 <= channels <= 7 && Fit(packets)
    ensures r.Some? && packets != [] ==> Parse(r.value.bytes) == r
    ensures r.Some? ==> rate < |SAMPLE_RATES| && SAMPLE_RATES[rate] == sampleRate
    ensures r.Some? ==>
      r.value == AacPackets(sampleRate, channels, Stream(rate, channels, packets), StreamOffsets(0, packets))
  {
    hide Frame;
    rate := 0;
    var index := 0;
    while index < |SAMPLE_RATES| && SAMPLE_RATES[index] != sampleRate
      invariant index <= |SAMPLE_RATES| && sampleRate !in SAMPLE_RATES[..index]
    {
      index := index + 1;
    }
    assert SAMPLE_RATES[..|SAMPLE_RATES|] == SAMPLE_RATES;
    if index == |SAMPLE_RATES| || !(1 <= channels <= 7) { return None, 0; }
    rate := index;
    var config := channels;
    var packetBytes: seq<Byte> := [];
    var packetOffsets: seq<nat> := [];
    for i := 0 to |packets|
      invariant rate == index && Fit(packets[..i]) && packetBytes == Stream(index, config, packets[..i])
      invariant packetOffsets + [|packetBytes|] == StreamOffsets(0, packets[..i])
    {
      if |packets[i]| + 7 > MAX_FRAME { return None, 0; }
      StreamSnoc(index, config, packets[..i], packets[i], 0);
      assert packets[..i + 1] == packets[..i] + [packets[i]];
      FrameSize(index, config, packets[i]);
      packetOffsets := packetOffsets + [|packetBytes|];
      packetBytes := packetBytes + Frame(index, config, packets[i]);
    }
    assert packets[..|packets|] == packets;
    packetOffsets := packetOffsets + [|packetBytes|];
    r := Some(AacPackets(sampleRate, channels, packetBytes, packetOffsets));
    if packets != [] { StreamRoundTrip(index, config, packets); }
  }
}
