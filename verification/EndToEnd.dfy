/**
 From the PC and back: the command the PC tool formats (pc_stepper_motor_commander/main.py), any run of the whole
 firmware that receives it, and the angle the PC shows.
 */
module EndToEnd {
  import opened Bytes
  import opened Packets
  import opened QuadratureEncoder
  import opened Receiver
  import opened Inbox
  import opened Commander
  import opened Application
  import opened SystemModel
  import opened SystemInbox

  function CommandBytes(angle: nat): (s: seq<Byte>)
    requires angle < 0x1_0000
    ensures |s| == 3
  {
    [SET_ANGLE] + LittleEndian(angle)
  }

  /** What the PC tool makes of one reception; a one-byte response makes it index past the end. */
  datatype Shown = NoProperResponse | InvalidResponse | IndexError | InvalidAngleRequested | Achieved(angle: nat)

  function Show(r: Reception): Shown {
    if !r.Received? || r.data == [] then NoProperResponse
    else if r.data[0] != 0 then InvalidResponse
    else if |r.data| < 2 then IndexError
    else if r.data[1] != 0 then InvalidAngleRequested
    else Achieved(FromLittleEndian(if |r.data| > 2 then r.data[2] else 0, if |r.data| > 3 then r.data[3] else 0))
  }

  /** What the PC tool shows for `n` receptions in a row from the bytes `s`. */
  function ShowAll(s: seq<Byte>, n: nat): (r: seq<Shown>)
    ensures |r| == n
    decreases n
  {
    if n == 0 then [] else [Show(ReceivePacket(s).0)] + ShowAll(ReceivePacket(s).1, n - 1)
  }

  /** What the firmware sends for its answers. */
  function ResponseStream(answers: seq<Answer>): seq<Byte>
    requires forall i :: 0 <= i < |answers| ==> answers[i].response.angle < 0x1_0000
  {
    if answers == [] then []
    else Encode(ResponseBytes(answers[0].response)) + ResponseStream(answers[1..])
  }

  lemma {:induction false} ResponseStreamGrows(answers: seq<Answer>, a: Answer)
    requires forall i :: 0 <= i < |answers| ==> answers[i].response.angle < 0x1_0000
    requires a.response.angle < 0x1_0000
    ensures ResponseStream(answers + [a]) == ResponseStream(answers) + Encode(ResponseBytes(a.response))
  {
    if answers == [] {
      assert [] + [a] == [a] && [a][1..] == [];
    } else {
      ResponseStreamGrows(answers[1..], a);
      assert (answers + [a])[1..] == answers[1..] + [a];
    }
  }

  lemma ShowsResponse(r: Response, rest: seq<Byte>)
    requires r.angle < 0x1_0000
    ensures ReceivePacket(Encode(ResponseBytes(r)) + rest).1 == rest
    ensures Show(ReceivePacket(Encode(ResponseBytes(r)) + rest).0) == ShownFor(r)
  {
    CommanderInvertsSender(ResponseBytes(r), rest);
  }

  function ShownFor(r: Response): Shown {
    if r.status.RespOk? then Achieved(r.angle) else InvalidAngleRequested
  }

  /** Reading once per response the PC shows each of them, in order. */
  lemma {:induction false} ShowsResponses(answers: seq<Answer>)
    requires forall i :: 0 <= i < |answers| ==> answers[i].response.angle < 0x1_0000
    ensures forall i :: 0 <= i < |answers| ==>
              ShowAll(ResponseStream(answers), |answers|)[i] == ShownFor(answers[i].response)
  {
    if answers == [] {
    } else {
      var rest := answers[1..];
      ShowsResponses(rest);
      ShowsResponse(answers[0].response, ResponseStream(rest));
      assert ShowAll(ResponseStream(answers), |answers|)
          == [ShownFor(answers[0].response)] + ShowAll(ResponseStream(rest), |rest|);
    }
  }

  lemma CommandSurvivesTransport(angle: nat)
    requires angle < 0x1_0000
    ensures CommandIn(CommandBytes(angle)) == CmdRequest(SET_ANGLE, angle)
  {
  }

  /** The command frame: type 0, then the angle, least significant byte first. */
  lemma CommandFrame(angle: nat)
    requires angle < 0x1_0000
    ensures CommandBytes(angle) == [0, angle % 256, angle / 256]
  {
  }

  /** For instance 90 degrees, from the bytes that the PC writes to the command that the application reads. */
  lemma NinetyDegrees()
    ensures FormatPacket(CommandBytes(90)) == Some([0xA5, 0x5A, 0x03, 0x00, 0x5A, 0x00, 0x5A])
    ensures Scan([0xA5, 0x5A, 0x03, 0x00, 0x5A, 0x00, 0x5A]) == [FrameOf([0x00, 0x5A, 0x00])]
    ensures CommandIn([0x00, 0x5A, 0x00]) == CmdRequest(0, 90)
  {
    var p: seq<Byte> := [0x00, 0x5A, 0x00];
    CommandFrame(90);
    XorAllOneNonzero(p, 1);
    assert PC_HEADER + [|p|] + p + [XorAll(p)] == [0xA5, 0x5A, 0x03, 0x00, 0x5A, 0x00, 0x5A];
    WireFormat(p, 0x5A, []);
    assert [0xA5, 0x5A, |p|] + p + [0x5A] + [] == [0xA5, 0x5A, 0x03, 0x00, 0x5A, 0x00, 0x5A];
    CommandLayout(p);
  }

  // ---- what the firmware sends ----

  lemma {:induction false} ScanReadsResponses(answers: seq<Answer>)
    requires forall i :: 0 <= i < |answers| ==> answers[i].response.angle < 0x1_0000
    ensures |Scan(ResponseStream(answers))| == |answers|
    ensures forall i :: 0 <= i < |answers| ==>
              Scan(ResponseStream(answers))[i] == FrameOf(ResponseBytes(answers[i].response))
  {
    if answers == [] {
    } else {
      hide Encode, ResponseBytes;
      ScanReadsResponses(answers[1..]);
      ScanReadsEncoded(ResponseBytes(answers[0].response), ResponseStream(answers[1..]));
    }
  }

  /**
   The frame is the response to a command for this angle: type 0; status 0 if half the angle, kept in 8 bits, is a
   position, and 1 if not; and twice that half, least significant byte first.
   */
  ghost predicate IsResponseTo(f: Frame, angle: nat) {
    var answered := 2 * (angle / 2 % 256);
    && Intact(f) && |f.data| == 4
    && f.data[0] == 0 && f.data[1] == (if answered < 360 then 0 else 1)
    && f.data[2] == answered % 256 && f.data[3] == answered / 256
  }

  lemma ResponseFrame(angle: nat)
    ensures IsResponseTo(FrameOf(ResponseBytes(ResponseTo(angle))), angle)
  {
  }

  /** Over every run from power-up, what has been sent are the responses to the accepted commands, in order. */
  lemma SentResponses(e: Encoder, p: Parser, moves: seq<Move>)
    requires QuadratureEncoder.Valid(e) && Receiver.Valid(p)
    ensures var j := Reached(e, p, moves).journal;
            && |j.answers| <= |j.accepted|
            && (forall i :: 0 <= i < |j.answers| ==> j.answers[i].response.angle < 0x1_0000)
            && |Scan(ResponseStream(j.answers))| == |j.answers|
            && forall i :: 0 <= i < |j.answers| ==> IsResponseTo(Scan(ResponseStream(j.answers))[i], j.accepted[i])
  {
    hide Reached, Scan, ResponseStream, IsResponseTo, ResponseBytes;
    EveryReachableStateIsSafe(e, p, moves);
    var j := Reached(e, p, moves).journal;
    ScanReadsResponses(j.answers);
    forall i | 0 <= i < |j.answers|
      ensures IsResponseTo(Scan(ResponseStream(j.answers))[i], j.accepted[i])
    {
      assert j.answers[i].response == ResponseTo(j.accepted[i]);
      ResponseFrame(j.accepted[i]);
    }
  }

  // ---- what the PC shows ----

  /** What is shown for every reception: only four bytes or more of type and status 0 give an angle. */
  lemma ShownCases(r: Reception)
    ensures Show(r).NoProperResponse? <==> !r.Received? || r.data == []
    ensures Show(r).InvalidResponse? <==> r.Received? && r.data != [] && r.data[0] != 0
    ensures Show(r).IndexError? <==> r.Received? && |r.data| == 1 && r.data[0] == 0
    ensures Show(r).InvalidAngleRequested? <==> r.Received? && |r.data| >= 2 && r.data[0] == 0 && r.data[1] != 0
    ensures Show(r).Achieved? <==> r.Received? && |r.data| >= 2 && r.data[0] == 0 && r.data[1] == 0
    ensures Show(r).Achieved? ==>
              var low: int := if |r.data| > 2 then r.data[2] else 0;
              var high: int := if |r.data| > 3 then r.data[3] else 0;
              Show(r).angle == low + 256 * high
  {
  }

  /** A response with errors is shown as no proper response if and only if the errors do not XOR to zero. */
  lemma CorruptedResponseIsImproper(r: Response, error: seq<Byte>, checkError: Byte, t: seq<Byte>)
    requires r.angle < 0x1_0000 && |error| == 4
    ensures var data, check := Disturb(ResponseBytes(r), error), XorByte(XorAll(ResponseBytes(r)), checkError);
            var reception := ReceivePacket([0xA5, 0x5A, 4] + data + [check] + t);
            && (Show(reception.0).NoProperResponse? <==> XorAll(error + [checkError]) != 0)
            && reception.1 == t
  {
    var p := ResponseBytes(r);
    var data, check := Disturb(p, error), XorByte(XorAll(p), checkError);
    ErrorIsMissedIffItXorsToZero(p, error, checkError);
    FourByteFrame(data, check, t);
    hide ReceivePacket, Show;
    ShownCases(ReceivePacket([0xA5, 0x5A, 4] + data + [check] + t).0);
  }

  lemma FourByteFrame(data: seq<Byte>, check: Byte, t: seq<Byte>)
    requires |data| == 4
    ensures ReceivePacket([0xA5, 0x5A, 4] + data + [check] + t)
         == (if XorAll(data) == check then Received(data) else Rejected, t)
  {
    hide XorAll, ReceivePacket;
    var s := [0xA5, 0x5A, 4] + data + [check] + t;
    ReceptionCases(s);
    assert s[3..7] == data && s[7] == check && s[8..] == t;
  }

  /** The line carries a command for each of these angles, with quiet noise before, between and after them. */
  ghost predicate Carries(line: seq<Byte>, angles: seq<nat>, segments: seq<Segment>, tail: seq<Byte>) {
    && |segments| == |angles| && Clean(segments) && Quiet(tail) && line == Stream(segments) + tail
    && forall i :: 0 <= i < |angles| ==> angles[i] < 0x1_0000 && segments[i].payload == CommandBytes(angles[i])
  }

  /** No check or command was refused a place or dropped by an overrun, and no check is left. */
  ghost predicate NothingLost(s: System)
    requires ValidSystem(s)
  {
    OfCheck !in s.lost && OfCommand !in s.lost && JobsIn(Unacted(s)) == []
  }

  /** The PC, reading once per accepted command, shows for each the even angle just below. */
  ghost predicate ShowsEach(j: Journal) {
    && |j.answers| == |j.accepted|
    && (forall i :: 0 <= i < |j.answers| ==> j.answers[i].response.angle < 0x1_0000)
    && forall i :: 0 <= i < |j.accepted| ==>
         ShowAll(ResponseStream(j.answers), |j.answers|)[i] == Achieved(j.accepted[i] - j.accepted[i] % 2)
  }

  /** At power-up neither checks nor commands are queued. */
  lemma PowerUpIsQuiet(s: System, e: Encoder, p: Parser)
    requires QuadratureEncoder.Valid(e) && Receiver.Valid(p) && s == PowerUp(e, p)
    ensures s.parser == p && JobsIn(Unacted(s)) == [] && CommandsIn(Unacted(s)) == [] && s.journal.accepted == []
  {
    assert s.queue == [AppEvent(Internal)] && s.queue[..0] == [];
  }

  lemma AnglesSurvive(handled: seq<Event>, waiting: seq<Event>, angles: seq<nat>, segments: seq<Segment>)
    requires |segments| == |angles|
    requires forall i :: 0 <= i < |angles| ==> angles[i] < 0x1_0000 && segments[i].payload == CommandBytes(angles[i])
    requires forall i :: 0 <= i < |segments| ==> |segments[i].payload| >= 3
    requires handled + waiting == seq(|segments|, i requires 0 <= i < |segments| => CommandIn(segments[i].payload))
    ensures Angles(handled) + Angles(waiting) == angles
  {
    assert Angles(handled) + Angles(waiting) == Angles(handled + waiting);
    forall i | 0 <= i < |angles| ensures Angles(handled + waiting)[i] == angles[i] {
      CommandSurvivesTransport(angles[i]);
    }
  }

  /**
   From line to application: whatever else happens in a run from power-up with a hunting parser, if each check runs in
   time and no check or command is lost, the commands accepted are commands sent, in the order sent and each at most
   once; if as many are accepted as were sent, they are those.
   */
  lemma SentCommandsAreAccepted(e: Encoder, p: Parser, angles: seq<nat>, segments: seq<Segment>, tail: seq<Byte>,
                                moves: seq<Move>)
    requires QuadratureEncoder.Valid(e) && Receiver.Valid(p) && Hunting(p)
    requires Carries(BytesIn(moves), angles, segments, tail) && ChecksInTime(PowerUp(e, p), moves)
    requires NothingLost(Reached(e, p, moves))
    ensures var accepted := Reached(e, p, moves).journal.accepted;
            Subsequence(accepted, angles) && (|accepted| == |angles| ==> accepted == angles)
  {
    hide PowerUp, ApplyAll, ChecksInTime, JobsIn, CommandsIn, HandledIn, BytesIn, Subsequence, CommandBytes, CommandIn;
    hide Angles, Unacted, Stream, Quiet;
    var s := PowerUp(e, p);
    PowerUpIsQuiet(s, e, p);
    SystemQueuesCommands(s, moves, segments, tail);
    AcceptedAreHandled(s, moves);
    var handled, waiting := HandledIn(s, moves), CommandsIn(Unacted(ApplyAll(s, moves)));
    var accepted := ApplyAll(s, moves).journal.accepted;
    AnglesSurvive(handled, waiting, angles, segments);
    SubsequenceOfPrefix(accepted, Angles(handled), Angles(waiting));
    SubsequenceOfEqualLength(accepted, angles);
  }

  /**
   End to end: the PC sends commands for any angles of the circle, with any quiet noise on the line, and the
   firmware goes through any run of loop steps, encoder interrupts and received bytes from power-up, in which checks
   run in time, no check or command is lost, and the last command accepted is completed. Then the PC, reading once per
   accepted command, shows for each the even angle just below the one it sent.
   */
  lemma CommandedAnglesAreShown(e: Encoder, p: Parser, angles: seq<nat>, segments: seq<Segment>, tail: seq<Byte>,
                                moves: seq<Move>)
    requires QuadratureEncoder.Valid(e) && Receiver.Valid(p) && Hunting(p)
    requires Carries(BytesIn(moves), angles, segments, tail) && ChecksInTime(PowerUp(e, p), moves)
    requires forall i :: 0 <= i < |angles| ==> angles[i] < 360
    requires NothingLost(Reached(e, p, moves)) && !Reached(e, p, moves).journal.app.state.Execution?
    ensures var j := Reached(e, p, moves).journal;
            Subsequence(j.accepted, angles) && (|j.accepted| == |angles| ==> j.accepted == angles) && ShowsEach(j)
  {
    hide PowerUp, Reached, ChecksInTime, JobsIn, BytesIn, Carries, NothingLost, ShowAll, ResponseStream, Subsequence;
    SentCommandsAreAccepted(e, p, angles, segments, tail, moves);
    EveryReachableStateIsSafe(e, p, moves);
    var j := Reached(e, p, moves).journal;
    AcceptedAreOfTheCircle(j.accepted, angles);
    forall i | 0 <= i < |j.accepted|
      ensures j.answers[i].response == Response(RespOk, j.accepted[i] - j.accepted[i] % 2)
    {
      CircleAngleRoundsDown(j.accepted[i]);
    }
    ShowsResponses(j.answers);
  }

  lemma {:induction false} AcceptedAreOfTheCircle(accepted: seq<nat>, angles: seq<nat>)
    requires Subsequence(accepted, angles) && forall i :: 0 <= i < |angles| ==> angles[i] < 360
    ensures forall i :: 0 <= i < |accepted| ==> accepted[i] < 360
  {
    if accepted == [] {
    } else {
      var m, n := |accepted| - 1, |angles| - 1;
      if Subsequence(accepted, angles[..n]) {
        AcceptedAreOfTheCircle(accepted, angles[..n]);
      } else {
        AcceptedAreOfTheCircle(accepted[..m], angles[..n]);
        assert accepted == accepted[..m] + [angles[n]];
      }
    }
  }
}
