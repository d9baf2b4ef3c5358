/**
 The PC's implementation of the packet protocol (pc_stepper_motor_commander/ipc.py) and its agreement with the firmware.
 */
module Commander {
  import opened Bytes
  import opened Packets
  import opened Inbox

  // The PC tool's own constants.
  const PC_HEADER: seq<Byte> := [0xA5, 0x5A]
  const PC_MAX_DATA_LENGTH: nat := 0xFF - 2 - 1 - 1

  /** Outcome of one receive call: still blocked in a read, None, or a list of data bytes. */
  datatype Reception = Waiting | Rejected | Received(data: seq<Byte>)

  /** What one receive call makes of the bytes that will ever arrive, and what it leaves unread. */
  function ReceivePacket(s: seq<Byte>): (r: (Reception, seq<Byte>))
    ensures r.0.Received? ==> |r.1| < |s|
  {
    if |s| < 2 then (Waiting, [])
    else if s[..2] != PC_HEADER then (Rejected, s[2..])
    else if |s| < 3 then (Waiting, [])
    else
      var n := s[2];
      if n > PC_MAX_DATA_LENGTH then (Rejected, s[3..])
      else if |s| < n + 4 then (Waiting, [])
      else (if s[3 + n] != XorAll(s[3..3 + n]) then Rejected else Received(s[3..3 + n]), s[4 + n..])
  }

  /** The bytes one send call writes; `None` is the ValueError raised when the length does not fit in a byte. */
  function FormatPacket(p: seq<Byte>): Option<seq<Byte>> {
    if |p| < 256 then Some(PC_HEADER + [|p|] + p + [XorAll(p)]) else None
  }

  method CalculateCrc(data: seq<Byte>) returns (xorCrc: Byte)
    ensures xorCrc == XorAll(data)
  {
    xorCrc := 0;
    for i := 0 to |data|
      invariant xorCrc == XorAll(data[..i])
    {
      xorCrc := XorByte(xorCrc, data[i]);
      assert data[..i + 1][..i] == data[..i];
    }
    assert data[..|data|] == data;
  }

  class SerialLink {
    var input: seq<Byte>
    var output: seq<Byte>

    /** A blocking read of exactly `n` bytes; not `ok` when the line never delivers them. */
    method Read(n: nat) returns (ok: bool, bytes: seq<Byte>)
      modifies this`input
      ensures ok <==> n <= |old(input)|
      ensures ok ==> bytes == old(input)[..n] && input == old(input)[n..]
      ensures !ok ==> input == []
    {
      ok := n <= |input|;
      if ok {
        bytes, input := input[..n], input[n..];
      } else {
        bytes, input := input, [];
      }
    }

    method ReceiveDataPacket() returns (result: Reception)
      modifies this`input
      ensures (result, input) == ReceivePacket(old(input))
    {
      var ok, bytes := Read(2);
      if !ok { return Waiting; }
      if bytes != PC_HEADER { return Rejected; }
      ok, bytes := Read(1);
      if !ok { return Waiting; }
      var expected := bytes[0];
      if expected > PC_MAX_DATA_LENGTH { return Rejected; }
      var data;
      ok, data := Read(expected);
      if !ok { return Waiting; }
      ok, bytes := Read(1);
      if !ok { return Waiting; }
      var crc := CalculateCrc(data);
      assert data == old(input)[3..3 + expected];
      if bytes[0] != crc { return Rejected; }
      result := Received(data);
    }

    method SendDataPacket(p: seq<Byte>) returns (valueError: bool)
      modifies this`output
      ensures valueError <==> |p| > 255
      ensures valueError <==> FormatPacket(p).None?
      ensures !valueError ==> output == old(output) + ([0xA5, 0x5A, |p|] + p + [XorAll(p)])
      ensures output == old(output) + (if valueError then [] else FormatPacket(p).value)
    {
      valueError := |p| > 255;
      if !valueError {
        var crc := CalculateCrc(p);
        output := output + (PC_HEADER + [|p|] + p + [crc]);
        assert PC_HEADER + [|p|] == [0xA5, 0x5A, |p|];
      }
    }
  }

  // ---- one reception, case by case ----

  /** The line starts with two bytes that are not A5 5A. */
  predicate BadHeader(s: seq<Byte>) {
    |s| >= 2 && !(s[0] == 0xA5 && s[1] == 0x5A)
  }

  /** The line starts with the header and a length above 251. */
  predicate BadLength(s: seq<Byte>) {
    |s| >= 3 && s[0] == 0xA5 && s[1] == 0x5A && s[2] > 251
  }

  /** The line starts with the header, a length n up to 251, n data bytes and a check byte. */
  predicate WholeFrame(s: seq<Byte>) {
    |s| >= 4 && s[0] == 0xA5 && s[1] == 0x5A && s[2] <= 251 && |s| >= s[2] + 4
  }

  /** The first n data bytes XOR to the check byte behind them. */
  predicate GoodCheck(s: seq<Byte>)
    requires WholeFrame(s)
  {
    s[3 + s[2]] == XorAll(s[3..3 + s[2]])
  }

  /**
   A reception is rejected if and only if the header is wrong, the length is too large, or a whole frame has a wrong
   check byte; it returns the data of a whole frame with the right one; and otherwise it still waits. It leaves unread
   what follows the two, three or n + 4 bytes it has looked at.
   */
  lemma ReceptionCases(s: seq<Byte>)
    ensures var (reception, rest) := ReceivePacket(s);
            && (reception.Rejected? <==> BadHeader(s) || BadLength(s) || (WholeFrame(s) && !GoodCheck(s)))
            && (reception.Received? <==> WholeFrame(s) && GoodCheck(s))
            && (reception.Received? ==> reception.data == s[3..3 + s[2]])
            && (BadHeader(s) ==> rest == s[2..]) && (BadLength(s) ==> rest == s[3..])
            && (WholeFrame(s) ==> rest == s[s[2] + 4..])
            && (reception.Waiting? ==> rest == [])
  {
    if |s| >= 2 {
      assert s[..2] == [s[0], s[1]];
    }
  }

  /** A reception that is decided stays so, whatever follows on the line, and leaves that unread. */
  lemma ReceptionIsFinal(s: seq<Byte>, t: seq<Byte>)
    requires !ReceivePacket(s).0.Waiting?
    ensures ReceivePacket(s + t) == (ReceivePacket(s).0, ReceivePacket(s).1 + t)
  {
    ReceptionCases(s);
    ReceptionCases(s + t);
    var u := s + t;
    assert u[0] == s[0] && u[1] == s[1];
    if BadHeader(s) {
      assert u[2..] == s[2..] + t;
    } else if BadLength(s) {
      assert u[2] == s[2] && u[3..] == s[3..] + t;
    } else {
      var n := s[2];
      assert u[2] == n && u[3 + n] == s[3 + n] && u[3..3 + n] == s[3..3 + n] && u[n + 4..] == s[n + 4..] + t;
    }
  }

  /** After two bytes that are no header the next call reads the packet behind them. */
  lemma NextCallReadsOn(a: Byte, b: Byte, p: seq<Byte>, t: seq<Byte>)
    requires !(a == 0xA5 && b == 0x5A) && |p| <= 251
    ensures ReceivePacket([a, b] + (Encode(p) + t)) == (Rejected, Encode(p) + t)
    ensures ReceivePacket(ReceivePacket([a, b] + (Encode(p) + t)).1) == (Received(p), t)
  {
    var s := [a, b] + (Encode(p) + t);
    ReceptionCases(s);
    assert s[2..] == Encode(p) + t;
    CommanderInvertsSender(p, t);
  }

  // ---- the two implementations ----

  /** The two senders put the same bytes on the line. */
  lemma SendersAgree(p: seq<Byte>)
    ensures |p| < 256 ==> FormatPacket(p) == Some(Encode(p))
    ensures |p| >= 256 ==> FormatPacket(p).None?
  {
    if |p| < 256 {
      assert PC_HEADER + [|p|] + p + [XorAll(p)] == Encode(p);
    }
  }

  /** A header, a length byte up to 251, as many data bytes as it says, and a check byte. */
  ghost predicate IsCompleteFrame(s: seq<Byte>) {
    && |s| >= 4 && s[0] == HEADER_LSB && s[1] == HEADER_MSB
    && s[2] <= MAX_DATA_LENGTH && |s| == s[2] + 4
  }

  /** On every complete frame the PC returns a payload exactly when the firmware reports that payload intact. */
  lemma ImplementationsAgree(s: seq<Byte>, p: seq<Byte>)
    requires IsCompleteFrame(s) && p != []
    ensures ReceivePacket(s).0 == Received(p) <==> CheckAll(Scan(s)) == [Report(Ok, p)]
    ensures ReceivePacket(s).1 == []
  {
    var n, body := s[2], s[3..];
    assert s[..2] == [s[0], s[1]];
    assert s[4 + n..] == [];
    if n == 0 {
      assert body[1..] == [];
      assert s[3..3 + n] == [];
      assert Scan(s) == Scan(body) == [];
    } else {
      assert body[..n] == s[3..3 + n] && body[n + 1..] == [];
      assert Scan(s) == ScanBody(n, body) == [Frame(body[..n], body[n])] + Scan([]);
      assert CheckAll(Scan(s))[0] == Check(Frame(body[..n], body[n]));
      assert |CheckAll(Scan(s))| == 1;
    }
  }

  /** The PC reads back exactly the payload the firmware sent, and nothing more. */
  lemma CommanderInvertsSender(p: seq<Byte>, t: seq<Byte>)
    requires |p| <= MAX_DATA_LENGTH
    ensures ReceivePacket(Encode(p) + t) == (Received(p), t)
  {
    var s := Encode(p) + t;
    var n := |p|;
    assert s[..2] == [HEADER_LSB, HEADER_MSB];
    assert s[2] == n;
    assert s[3..3 + n] == Encode(p)[3..3 + n] == p;
    assert s[3 + n] == XorAll(p);
    assert s[4 + n..] == t;
  }

  /** The firmware reports intact exactly the payloads of 1..251 bytes among all that the PC can format. */
  lemma FirmwareInvertsCommander(p: seq<Byte>)
    requires FormatPacket(p).Some?
    ensures CheckAll(Scan(FormatPacket(p).value)) == [Report(Ok, p)] <==> IsPayload(p)
  {
    SendersAgree(p);
    if IsPayload(p) {
      ScanReadsEncoded(p, []);
      assert Encode(p) + [] == Encode(p);
      assert Scan([]) == [];
    } else {
      var frames := Scan(Encode(p));
      ScannedFramesFit(Encode(p));
      assert |frames| == 0 || CheckAll(frames)[0] != Report(Ok, p);
    }
  }

  /**
   Where they differ: behind any quiet noise, even noise with header bytes in it, the firmware finds the packet,
   but the PC, which does not hunt for a header, does if and only if there is no noise.
   */
  lemma CommanderDoesNotHunt(noise: seq<Byte>, p: seq<Byte>)
    requires Quiet(noise) && IsPayload(p)
    ensures CheckAll(Scan(noise + Encode(p))) == [Report(Ok, p)]
    ensures ReceivePacket(noise + Encode(p)).0 == Received(p) <==> noise == []
  {
    var s := noise + Encode(p);
    ScanSkipsQuiet(noise, Encode(p));
    SendersAgree(p);
    FirmwareInvertsCommander(p);
    if noise == [] {
      CommanderInvertsSender(p, []);
      assert s == Encode(p) + [];
    } else {
      hide Scan, XorAll, Encode;
      ReceptionCases(s);
      QuietIsNoFrame(noise, s);
    }
  }

  /** A stream that starts with quiet noise is either rejected at its header or claims no data. */
  lemma QuietIsNoFrame(noise: seq<Byte>, s: seq<Byte>)
    requires Quiet(noise) && noise != [] && noise <= s && |s| >= 2
    ensures BadHeader(s) || |s| == 2 || s[2] == 0 || s[2] > 251
  {
    assert s[0] == noise[0];
    assert |noise| >= 2 ==> s[1] == noise[1];
    assert |noise| >= 3 ==> s[2] == noise[2];
  }
}
