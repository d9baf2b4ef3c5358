/**
 The packet format shared by the firmware and the PC tool, and the grammar of a received byte stream.
 A packet is the header A5 5A, one length byte (1..251), that many data bytes, and the XOR of the data.
 */
module Packets {
  import opened Bytes

  const HEADER_LSB: Byte := 0xA5
  const HEADER_MSB: Byte := 0x5A
  const MAX_DATA_LENGTH: nat := 251

  /** What a receiver cuts out of the stream: the data bytes and the check byte that came with them. */
  datatype Frame = Frame(data: seq<Byte>, check: Byte)

  predicate IsPayload(p: seq<Byte>) {
    1 <= |p| <= MAX_DATA_LENGTH
  }

  predicate Intact(f: Frame) {
    XorAll(f.data) == f.check
  }

  function FrameOf(p: seq<Byte>): Frame {
    Frame(p, XorAll(p))
  }

  /** A packet with an arbitrary check byte. */
  function Packet(p: seq<Byte>, check: Byte): (s: seq<Byte>)
    requires |p| < 256
    ensures |s| == |p| + 4
    ensures s[3..3 + |p|] == p && s[3 + |p|] == check
  {
    [HEADER_LSB, HEADER_MSB, |p|] + p + [check]
  }

  function Encode(p: seq<Byte>): seq<Byte>
    requires |p| < 256
  {
    Packet(p, XorAll(p))
  }

  /**
   The frames in a stream, read from the left. Note two properties of the hunt for a header: the byte
   after a lone A5 is consumed even when it is itself A5, and a bad length byte is consumed as well.
   */
  function Scan(s: seq<Byte>): seq<Frame>
    decreases |s|
  {
    if s == [] then []
    else if s[0] != HEADER_LSB then Scan(s[1..])
    else if |s| < 2 then []
    else if s[1] != HEADER_MSB then Scan(s[2..])
    else if |s| < 3 then []
    else if 0 < s[2] <= MAX_DATA_LENGTH then ScanBody(s[2], s[3..])
    else Scan(s[3..])
  }

  /** The frames of a stream that continues with `n` data bytes and a check byte. */
  function ScanBody(n: nat, s: seq<Byte>): seq<Frame>
    decreases |s|
  {
    if |s| < n + 1 then [] else [Frame(s[..n], s[n])] + Scan(s[n + 1..])
  }

  /** A stretch of the stream that contains no frame and leaves the hunt where it started. */
  predicate Quiet(s: seq<Byte>) {
    || s == []
    || (s[0] != HEADER_LSB && Quiet(s[1..]))
    || (|s| >= 2 && s[0] == HEADER_LSB && s[1] != HEADER_MSB && Quiet(s[2..]))
    || (|s| >= 3 && s[0] == HEADER_LSB && s[1] == HEADER_MSB
        && !(0 < s[2] <= MAX_DATA_LENGTH) && Quiet(s[3..]))
  }

  lemma {:induction false} NoHeaderByteIsQuiet(s: seq<Byte>)
    requires HEADER_LSB !in s
    ensures Quiet(s)
  {
    if s == [] {
    } else {
      NoHeaderByteIsQuiet(s[1..]);
    }
  }

  lemma {:induction false} ScanSkipsQuiet(s: seq<Byte>, t: seq<Byte>)
    requires Quiet(s)
    ensures Scan(s + t) == Scan(t)
  {
    if s == [] {
      assert s + t == t;
    } else if s[0] != HEADER_LSB {
      assert (s + t)[1..] == s[1..] + t;
      ScanSkipsQuiet(s[1..], t);
    } else if s[1] != HEADER_MSB {
      assert (s + t)[2..] == s[2..] + t;
      ScanSkipsQuiet(s[2..], t);
    } else {
      assert (s + t)[3..] == s[3..] + t;
      ScanSkipsQuiet(s[3..], t);
    }
  }

  /** The stream starts with the packet that carries `p` and `check`. */
  ghost predicate StartsWithPacket(s: seq<Byte>, p: seq<Byte>, check: Byte) {
    && IsPayload(p)
    && |s| >= |p| + 4
    && s[0] == HEADER_LSB && s[1] == HEADER_MSB && s[2] == |p|
    && s[3..3 + |p|] == p
    && s[3 + |p|] == check
  }

  lemma ScanReadsPacket(s: seq<Byte>, p: seq<Byte>, check: Byte)
    requires StartsWithPacket(s, p, check)
    ensures Scan(s) == [Frame(p, check)] + Scan(s[4 + |p|..])
  {
    var n, body := |p|, s[3..];
    assert body[..n] == s[3..3 + n];
    assert body[n] == s[3 + n];
    assert body[n + 1..] == s[4 + n..];
    assert Scan(s) == ScanBody(n, body);
    assert ScanBody(n, body) == [Frame(body[..n], body[n])] + Scan(body[n + 1..]);
  }

  lemma PacketStartsStream(p: seq<Byte>, check: Byte, t: seq<Byte>)
    requires IsPayload(p)
    ensures StartsWithPacket(Packet(p, check) + t, p, check)
    ensures (Packet(p, check) + t)[4 + |p|..] == t
  {
    var packet := Packet(p, check);
    assert (packet + t)[3..3 + |p|] == packet[3..3 + |p|];
  }

  lemma EncodeIsPacket(p: seq<Byte>)
    requires IsPayload(p)
    ensures StartsWithPacket(Encode(p), p, XorAll(p)) && |Encode(p)| == |p| + 4
  {
    PacketStartsStream(p, XorAll(p), []);
    assert Encode(p) + [] == Encode(p);
  }

  /** A payload on the wire, preceded by whatever the line carried before it. */
  datatype Segment = Segment(noise: seq<Byte>, payload: seq<Byte>)

  ghost predicate Clean(segments: seq<Segment>) {
    forall i :: 0 <= i < |segments| ==> Quiet(segments[i].noise) && IsPayload(segments[i].payload)
  }

  function Stream(segments: seq<Segment>): seq<Byte>
    requires forall i :: 0 <= i < |segments| ==> |segments[i].payload| < 256
  {
    if segments == [] then []
    else segments[0].noise + Encode(segments[0].payload) + Stream(segments[1..])
  }

  function Frames(segments: seq<Segment>): (r: seq<Frame>)
    ensures |r| == |segments|
    ensures forall i :: 0 <= i < |segments| ==> r[i] == FrameOf(segments[i].payload)
  {
    seq(|segments|, i requires 0 <= i < |segments| => FrameOf(segments[i].payload))
  }

  lemma ScanReadsEncoded(p: seq<Byte>, t: seq<Byte>)
    requires IsPayload(p)
    ensures Scan(Encode(p) + t) == [FrameOf(p)] + Scan(t)
  {
    PacketStartsStream(p, XorAll(p), t);
    ScanReadsPacket(Encode(p) + t, p, XorAll(p));
  }

  /** The packet on the wire, byte for byte, and its reading. */
  lemma WireFormat(p: seq<Byte>, check: Byte, t: seq<Byte>)
    requires 1 <= |p| <= 251
    ensures Encode(p) == [0xA5, 0x5A, |p|] + p + [XorAll(p)]
    ensures Scan([0xA5, 0x5A, |p|] + p + [check] + t) == [Frame(p, check)] + Scan(t)
  {
    PacketStartsStream(p, check, t);
    ScanReadsPacket(Packet(p, check) + t, p, check);
    assert [0xA5, 0x5A, |p|] + p + [check] + t == Packet(p, check) + t;
  }

  lemma Regroup<T>(a: seq<T>, b: seq<T>, c: seq<T>, d: seq<T>)
    ensures a + b + c + d == a + (b + (c + d))
  {
  }

  lemma FramesFirst(segments: seq<Segment>)
    requires segments != []
    ensures Frames(segments) == [FrameOf(segments[0].payload)] + Frames(segments[1..])
  {
  }

  /** Round trip: whatever separates the packets, as long as it is quiet, exactly the payloads come out. */
  lemma {:induction false} ScanInvertsStream(segments: seq<Segment>, tail: seq<Byte>)
    requires Clean(segments) && Quiet(tail)
    ensures Scan(Stream(segments) + tail) == Frames(segments)
  {
    if segments == [] {
      ScanSkipsQuiet(tail, []);
      assert tail + [] == tail == Stream(segments) + tail;
    } else {
      var noise, payload, rest := segments[0].noise, segments[0].payload, segments[1..];
      ScanInvertsStream(rest, tail);
      Regroup(noise, Encode(payload), Stream(rest), tail);
      ScanSkipsQuiet(noise, Encode(payload) + (Stream(rest) + tail));
      ScanReadsEncoded(payload, Stream(rest) + tail);
      FramesFirst(segments);
    }
  }

  /** In particular through any noise that is free of the header byte A5. */
  lemma StreamThroughPlainNoise(segments: seq<Segment>, tail: seq<Byte>)
    requires forall i :: 0 <= i < |segments| ==> 1 <= |segments[i].payload| <= MAX_DATA_LENGTH
    requires forall i :: 0 <= i < |segments| ==> HEADER_LSB !in segments[i].noise
    requires HEADER_LSB !in tail
    ensures Scan(Stream(segments) + tail) == Frames(segments)
  {
    forall i | 0 <= i < |segments| ensures Quiet(segments[i].noise) {
      NoHeaderByteIsQuiet(segments[i].noise);
    }
    NoHeaderByteIsQuiet(tail);
    ScanInvertsStream(segments, tail);
  }

  /** The frames are payloads, each of at least four bytes less than `n`. */
  predicate FramesFit(fs: seq<Frame>, n: nat) {
    forall i :: 0 <= i < |fs| ==> IsPayload(fs[i].data) && |fs[i].data| + 4 <= n
  }

  lemma {:induction false} ScannedFramesFit(s: seq<Byte>)
    ensures FramesFit(Scan(s), |s|)
    decreases |s|, 1
  {
    if s == [] {
    } else if s[0] != HEADER_LSB {
      ScannedFramesFit(s[1..]);
    } else if |s| >= 2 && s[1] != HEADER_MSB {
      ScannedFramesFit(s[2..]);
    } else if |s| >= 3 {
      if 0 < s[2] <= MAX_DATA_LENGTH {
        ScannedBodyFits(s[2], s[3..]);
      } else {
        ScannedFramesFit(s[3..]);
      }
    }
  }

  lemma {:induction false} ScannedBodyFits(n: nat, s: seq<Byte>)
    requires 1 <= n <= MAX_DATA_LENGTH
    ensures FramesFit(ScanBody(n, s), |s| + 3)
    decreases |s|, 0
  {
    if |s| > n {
      ScannedFramesFit(s[n + 1..]);
      assert IsPayload(s[..n]);
    }
  }

  /** `k` header bytes in a row. */
  function Strays(k: nat): seq<Byte> {
    seq(k, _ => HEADER_LSB)
  }

  lemma {:induction false} StraysCancelInPairs(k: nat, t: seq<Byte>)
    ensures Scan(Strays(k) + t) == Scan(if k % 2 == 0 then t else [HEADER_LSB] + t)
  {
    hide ScanBody;
    if k == 0 {
      assert Strays(0) + t == t;
    } else if k == 1 {
      assert Strays(1) == [HEADER_LSB];
    } else {
      var s := Strays(k) + t;
      assert s[0] == s[1] == HEADER_LSB && s[2..] == Strays(k - 2) + t;
      assert Scan(s) == Scan(s[2..]);
      StraysCancelInPairs(k - 2, t);
    }
  }

  /**
   The defect of the hunt, exactly: whatever quiet noise and however many stray A5 come before a packet, and
   whatever its bytes are, the packet is found if and only if the number of stray A5 is even.
   */
  lemma StrayHeaderBytesHidePacket(noise: seq<Byte>, k: nat, p: seq<Byte>)
    requires Quiet(noise) && IsPayload(p)
    ensures FrameOf(p) in Scan(noise + (Strays(k) + Encode(p))) <==> k % 2 == 0
    ensures k % 2 == 0 ==> Scan(noise + (Strays(k) + Encode(p))) == [FrameOf(p)]
  {
    ScanSkipsQuiet(noise, Strays(k) + Encode(p));
    StraysCancelInPairs(k, Encode(p));
    if k % 2 == 0 {
      assert Encode(p) + [] == Encode(p);
      ScanReadsEncoded(p, []);
    } else {
      assert ([HEADER_LSB] + Encode(p))[2..] == Encode(p)[1..];
      ScannedFramesFit(Encode(p)[1..]);
    }
  }

  // ---- what the check byte detects ----

  /** An error on data and check byte goes unnoticed exactly when its bytes XOR to zero. */
  lemma ErrorIsMissedIffItXorsToZero(p: seq<Byte>, error: seq<Byte>, checkError: Byte)
    requires |p| == |error|
    ensures Intact(Frame(Disturb(p, error), XorByte(XorAll(p), checkError))) <==> XorAll(error + [checkError]) == 0
  {
    var data, check := XorAll(p), XorAll(error);
    XorAllDisturb(p, error);
    assert (error + [checkError])[..|error|] == error;
    XorIsZeroIffEqual(check, checkError);
    XorIsZeroIffEqual(XorByte(data, check), XorByte(data, checkError));
    XorInterchange(data, check, data, checkError);
    XorIsZeroIffEqual(data, data);
    XorCommutative(0, XorByte(check, checkError));
    XorZero(XorByte(check, checkError));
  }

  /** Every corruption confined to one byte is noticed. */
  lemma OneBadByteIsNoticed(p: seq<Byte>, error: seq<Byte>, checkError: Byte, k: nat)
    requires |p| == |error| && k <= |p|
    requires (error + [checkError])[k] != 0
    requires forall i :: 0 <= i <= |p| && i != k ==> (error + [checkError])[i] == 0
    ensures !Intact(Frame(Disturb(p, error), XorByte(XorAll(p), checkError)))
  {
    ErrorIsMissedIffItXorsToZero(p, error, checkError);
    XorAllOneNonzero(error + [checkError], k);
  }

  /** Every odd number of flipped bits, wherever they are, is noticed. */
  lemma OddBitErrorsAreNoticed(p: seq<Byte>, error: seq<Byte>, checkError: Byte)
    requires |p| == |error|
    requires TotalBits(error + [checkError]) % 2 == 1
    ensures !Intact(Frame(Disturb(p, error), XorByte(XorAll(p), checkError)))
  {
    ErrorIsMissedIffItXorsToZero(p, error, checkError);
    ParityOfXorAll(error + [checkError]);
  }
}
