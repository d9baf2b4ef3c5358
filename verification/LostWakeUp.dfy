/**
 How a wake-up is really lost: a run from power-up in which a command is accepted just after 49 more packets have
 arrived, so that its own internal event finds no place. Nothing answers the command then.
 */
module LostWakeUp {
  import opened Bytes
  import opened Packets
  import opened QuadratureEncoder
  import opened Receiver
  import opened Inbox
  import opened Application
  import opened SystemModel
  import opened EndToEnd

  // ---- packets that arrive ----

  function Arriving(s: seq<Byte>): (moves: seq<Move>)
    ensures |moves| == |s|
  {
    seq(|s|, i requires 0 <= i < |s| => ByteIrq(s[i]))
  }

  /** Bytes that complete no frame only move the parser. */
  lemma {:induction false} BytesMoveParser(s: System, bytes: seq<Byte>)
    requires ValidSystem(s) && Run(s.parser, bytes).1 == []
    ensures ApplyAll(s, Arriving(bytes)) == s.(parser := Run(s.parser, bytes).0)
  {
    if bytes == [] {
    } else {
      var n := |bytes| - 1;
      assert bytes == bytes[..n] + [bytes[n]] && Arriving(bytes)[..n] == Arriving(bytes[..n]);
      RunAppend(s.parser, bytes[..n], [bytes[n]]);
      RunSingle(Run(s.parser, bytes[..n]).0, bytes[n]);
      BytesMoveParser(s, bytes[..n]);
    }
  }

  /** What a packet does to the system when it has arrived. */
  function WithPacket(s: System, p: seq<Byte>): (r: System)
    requires ValidSystem(s) && IsPayload(p)
    ensures ValidSystem(r)
  {
    PutTask(s.(parser := s.parser.(buffer := p + s.parser.buffer[|p|..])), PacketCheck(Job(|p|, XorAll(p))))
  }

  /** The parser over a packet: nothing completes before the check byte, which completes the packet. */
  lemma PacketMovesParser(parser: Parser, p: seq<Byte>) returns (q: Parser)
    requires Receiver.Valid(parser) && Hunting(parser) && IsPayload(p)
    ensures Receiver.Valid(q) && Run(parser, Encode(p)[..|p| + 3]) == (q, [])
    ensures Receive(q, XorAll(p)) == (parser.(buffer := p + parser.buffer[|p|..]), Some(Job(|p|, XorAll(p))))
  {
    hide Run, Receive;
    var bytes := Encode(p)[..|p| + 3];
    assert bytes[3..] == p;
    RunReadsHeader(parser, bytes);
    var storing := parser.(state := GetData, expected := |p|);
    RunStoresData(storing, p);
    q := Storing(storing, p);
    LastByte(q, parser, p, XorAll(p));
  }

  lemma LastByte(q: Parser, parser: Parser, p: seq<Byte>, check: Byte)
    requires Receiver.Valid(parser) && Hunting(parser) && IsPayload(p)
    requires q == Storing(parser.(state := GetData, expected := |p|), p)
    ensures Receive(q, check) == (parser.(buffer := p + parser.buffer[|p|..]), Some(Job(|p|, check)))
  {
    assert q.buffer == p + parser.buffer[|p|..];
  }

  lemma PacketArrives(s: System, p: seq<Byte>)
    requires ValidSystem(s) && Hunting(s.parser) && IsPayload(p)
    ensures ApplyAll(s, Arriving(Encode(p))) == WithPacket(s, p)
  {
    hide Run, Receive, XorAll, Hunting, ApplyAll;
    var n := |p| + 3;
    var q := PacketMovesParser(s.parser, p);
    LastByteQueues(s, Encode(p)[..n], XorAll(p), q);
    assert Encode(p) == Encode(p)[..n] + [XorAll(p)];
  }

  lemma LastByteQueues(s: System, bytes: seq<Byte>, check: Byte, q: Parser)
    requires ValidSystem(s) && Run(s.parser, bytes) == (q, [])
    requires Receiver.Valid(q)
    ensures ApplyAll(s, Arriving(bytes + [check])) == Apply(s.(parser := q), ByteIrq(check))
  {
    hide Run, Receive, Apply;
    BytesMoveParser(s, bytes);
    assert Arriving(bytes + [check]) == Arriving(bytes) + [ByteIrq(check)];
    ApplyAllAppend(s, Arriving(bytes), [ByteIrq(check)]);
    ApplyAllOne(s.(parser := q), ByteIrq(check));
  }

  /** The bytes of `k` packets of one zero byte each, one after the other. */
  function Flood(k: nat): seq<Move> {
    if k == 0 then [] else Flood(k - 1) + Arriving(Encode([0]))
  }

  /** The front of the queue, and nothing but checks of packets behind it. */
  ghost predicate Flooded(r: System, s: System, k: nat) {
    && r.service == s.service && r.encoder == s.encoder && r.journal == s.journal && Hunting(r.parser)
    && |r.queue| == |s.queue| + k && r.queue[..|s.queue|] == s.queue
    && forall i :: |s.queue| <= i < |r.queue| ==> r.queue[i].PacketCheck?
  }

  lemma {:induction false} FloodFillsQueue(s: System, k: nat)
    requires ValidSystem(s) && Hunting(s.parser) && s.queue != [] && !InWindow(s) && |s.queue| + k <= QUEUE_PLACES
    ensures Flooded(ApplyAll(s, Flood(k)), s, k)
  {
    if k == 0 {
      assert s.queue[..|s.queue|] == s.queue;
    } else {
      hide Arriving, Encode, Apply, ValidSystem, XorAll, ApplyAll, WithPacket, Flooded, Hunting, InWindow;
      FloodFillsQueue(s, k - 1);
      var before := ApplyAll(s, Flood(k - 1));
      FloodedHasRoom(before, s, k - 1);
      ApplyAllAppend(s, Flood(k - 1), Arriving(Encode([0])));
      PacketArrives(before, [0]);
      OneMorePacket(before, s, k - 1, [0]);
    }
  }

  lemma FloodedHasRoom(r: System, s: System, k: nat)
    requires Flooded(r, s, k) && s.queue != [] && !InWindow(s) && |s.queue| + k < QUEUE_PLACES
    ensures Hunting(r.parser) && !InWindow(r) && r.queue != [] && |r.queue| < QUEUE_PLACES
  {
  }

  lemma OneMorePacket(r: System, s: System, k: nat, p: seq<Byte>)
    requires Flooded(r, s, k) && ValidSystem(r) && IsPayload(p)
    requires !InWindow(r) && |r.queue| < QUEUE_PLACES && r.queue != []
    ensures Flooded(WithPacket(r, p), s, k + 1)
  {
    hide XorAll;
    var q := r.queue + [PacketCheck(Job(|p|, XorAll(p)))];
    assert q[..|s.queue|] == r.queue[..|s.queue|];
  }

  /** The bytes of a command, and the service of its check. */
  function CommandMoves(angle: nat): seq<Move>
    requires angle < 0x1_0000
  {
    Arriving(Encode(CommandBytes(angle))) + Steps(6)
  }

  lemma CommandIsQueued(s: System, angle: nat)
    requires ValidSystem(s) && s.service.NotServing? && s.queue == [] && Hunting(s.parser) && angle < 0x1_0000
    ensures var r := ApplyAll(s, CommandMoves(angle));
            && r.queue == [AppEvent(CmdRequest(SET_ANGLE, angle))] && Hunting(r.parser) && r.service.NotServing?
            && r.encoder == s.encoder && r.journal == s.journal
  {
    var p := CommandBytes(angle);
    var arrived := WithPacket(s, p);
    PacketArrives(s, p);
    ApplyAllAppend(s, Arriving(Encode(p)), Steps(6));
    SixStepsServe(arrived);
    assert arrived.parser.buffer[..3] == p;
    CommandSurvivesTransport(angle);
    assert CommandIn(arrived.parser.buffer) == CommandIn(p);
    assert HandlerPut(arrived, arrived.encoder.position) == Some(AppEvent(CmdRequest(SET_ANGLE, angle)));
  }

  // ---- the run ----

  /** A command is under way that can be concluded, nothing queued will conclude it, and draining answers nothing. */
  ghost predicate Hangs(s: System) {
    && ValidSystem(s) && s.service.NotServing? && s.journal.app.state.Execution?
    && Concludes(s.journal.app, s.encoder.position) && !WakePending(s)
    && Drain(s).journal == s.journal
  }

  predicate NeedsNoEdge(angle: nat, e: Encoder) {
    !IsPositionValid(AngleToPosition(angle)) || e.position == AngleToPosition(angle)
  }

  /** The handler has read the position of a command that needs no edge, and the other 49 places are taken by checks. */
  ghost predicate Smothered(s: System, angle: nat) {
    && ValidSystem(s) && s.journal.app.state.Ready? && s.service == PositionRead(s.encoder.position)
    && |s.queue| == QUEUE_PLACES && s.queue[0] == AppEvent(CmdRequest(SET_ANGLE, angle))
    && (forall i :: 1 <= i < |s.queue| ==> s.queue[i].PacketCheck?) && NeedsNoEdge(angle, s.encoder)
  }

  lemma SmotheredActs(s: System, angle: nat)
    requires Smothered(s, angle)
    ensures var r := MainStep(s);
            && r.queue == s.queue && r.encoder == s.encoder && r.service == Acted
            && r.journal.app.state.Execution? && Concludes(r.journal.app, s.encoder.position)
            && r.journal.answers == s.journal.answers && r.journal.accepted == s.journal.accepted + [angle]
  {
  }

  lemma CommandIsSmothered(s: System, angle: nat)
    requires Smothered(s, angle)
    ensures var r := ApplyAll(s, Steps(4));
            Hangs(r) && r.journal.answers == s.journal.answers && r.journal.accepted == s.journal.accepted + [angle]
  {
    SmotheredActs(s, angle);
    FourSteps(s);
    hide ActOn, Concludes;
    var acted := MainStep(s);
    ReleaseIsThreeSteps(acted);
    var r := MainStep(MainStep(MainStep(acted)));
    assert r.queue == s.queue[1..];
    DrainWithoutWakeChangesNothing(r);
  }

  // ---- the same by an overrun, with no put refused ----

  /** The command's own event is queued behind 47 checks, and its slot is just being given up. */
  ghost predicate Releasing(s: System, angle: nat) {
    && ValidSystem(s) && s.service.Released? && s.notFull && |s.queue| == QUEUE_PLACES - 2 && Hunting(s.parser)
    && s.journal.app.state.Execution? && Concludes(s.journal.app, s.encoder.position)
  }

  lemma CommandReleases(s: System, angle: nat)
    requires ValidSystem(s) && s.journal.app.state.Ready? && s.service == PositionRead(s.encoder.position)
    requires |s.queue| == QUEUE_PLACES - 2 && s.queue[0] == AppEvent(CmdRequest(SET_ANGLE, angle))
    requires NeedsNoEdge(angle, s.encoder) && Hunting(s.parser)
    ensures var r := ApplyAll(s, Steps(2));
            && Releasing(r, angle) && r.journal.answers == s.journal.answers
            && r.journal.accepted == s.journal.accepted + [angle]
  {
    FourSteps(s);
    CommandActs(s, angle);
    hide ActOn;
  }

  lemma CommandActs(s: System, angle: nat)
    requires ValidSystem(s) && s.journal.app.state.Ready? && s.service == PositionRead(s.encoder.position)
    requires |s.queue| == QUEUE_PLACES - 2 && s.queue[0] == AppEvent(CmdRequest(SET_ANGLE, angle))
    requires NeedsNoEdge(angle, s.encoder)
    ensures var r := MainStep(s);
            && |r.queue| == |s.queue| + 1 && r.service.Acted? && r.notFull
            && r.encoder == s.encoder && r.parser == s.parser
            && r.journal.app.state.Execution? && Concludes(r.journal.app, s.encoder.position)
            && r.journal.answers == s.journal.answers && r.journal.accepted == s.journal.accepted + [angle]
  {
  }

  /** Two packets in the window drop everything that is queued. */
  lemma TwoPacketsOverrun(s: System, angle: nat)
    requires Releasing(s, angle)
    ensures var r := ApplyAll(ApplyAll(s, Flood(2)), Steps(2));
            Hangs(r) && r.overrun && r.journal == s.journal
  {
    var second := WithPacket(WithPacket(s, [0]), [0]);
    FloodOfTwo(s);
    BothPut(s, angle);
    hide WithPacket, XorAll;
    FourSteps(second);
    var r := ApplyAll(second, Steps(2));
    assert r.queue == [];
    DrainWithoutWakeChangesNothing(r);
  }

  lemma BothPut(s: System, angle: nat)
    requires Releasing(s, angle)
    ensures var r := WithPacket(WithPacket(s, [0]), [0]);
            && r.queue == [] && r.overrun && r.service.Released?
            && r.journal == s.journal && r.encoder == s.encoder
  {
    hide XorAll;
  }

  lemma FloodOfTwo(s: System)
    requires ValidSystem(s) && Hunting(s.parser)
    ensures ApplyAll(s, Flood(2)) == WithPacket(WithPacket(s, [0]), [0])
  {
    hide Apply, XorAll, PutTask, Encode, Arriving;
    assert Flood(1) == Flood(0) + Arriving(Encode([0])) == Arriving(Encode([0]));
    ApplyAllAppend(s, Flood(1), Arriving(Encode([0])));
    PacketArrives(s, [0]);
    PacketArrives(WithPacket(s, [0]), [0]);
  }

  /** From every idle state that is ready, two packets in the window can make a command hang that needs no edge. */
  lemma AnyIdleCommandCanBeDropped(s: System, angle: nat) returns (moves: seq<Move>)
    requires ValidSystem(s) && s.service.NotServing? && s.queue == [] && Hunting(s.parser)
    requires s.journal.app.state.Ready? && angle < 0x1_0000 && NeedsNoEdge(angle, s.encoder)
    ensures var r := ApplyAll(s, moves);
            && Hangs(r) && r.overrun
            && r.journal.answers == s.journal.answers && r.journal.accepted == s.journal.accepted + [angle]
  {
    hide Hangs, Encode, Flood, CommandMoves, Releasing, ApplyAll, Steps;
    CommandIsQueued(s, angle);
    var queued := ApplyAll(s, CommandMoves(angle));
    FourSteps(queued);
    var read := ApplyAll(queued, Steps(2));
    FloodFillsQueue(read, QUEUE_PLACES - 3);
    var many := ApplyAll(read, Flood(QUEUE_PLACES - 3));
    assert many.queue[0] == many.queue[..1][0];
    CommandReleases(many, angle);
    TwoPacketsOverrun(ApplyAll(many, Steps(2)), angle);
    var a := CommandMoves(angle) + Steps(2);
    var b := a + Flood(QUEUE_PLACES - 3);
    var c := b + Steps(2);
    moves := c + Flood(2) + Steps(2);
    ApplyAllAppend(s, c + Flood(2), Steps(2));
    ApplyAllAppend(s, c, Flood(2));
    ApplyAllAppend(s, b, Steps(2));
    ApplyAllAppend(s, a, Flood(QUEUE_PLACES - 3));
    ApplyAllAppend(s, CommandMoves(angle), Steps(2));
  }

  // ---- from power-up ----

  lemma FourSteps(s: System)
    requires ValidSystem(s)
    ensures ApplyAll(s, Steps(4)) == MainStep(MainStep(MainStep(MainStep(s))))
    ensures ApplyAll(s, Steps(2)) == MainStep(MainStep(s))
  {
    hide MainStep, Steps, ApplyAll;
    OneMoreStep(s, 0);
    OneMoreStep(s, 1);
    OneMoreStep(s, 2);
    OneMoreStep(s, 3);
  }

  /** From every idle state that is ready, a command that needs no edge can be made to hang. */
  lemma AnyIdleCommandCanHang(s: System, angle: nat) returns (moves: seq<Move>)
    requires ValidSystem(s) && s.service.NotServing? && s.queue == [] && Hunting(s.parser)
    requires s.journal.app.state.Ready? && angle < 0x1_0000 && NeedsNoEdge(angle, s.encoder)
    ensures var r := ApplyAll(s, moves);
            Hangs(r) && r.journal.answers == s.journal.answers && r.journal.accepted == s.journal.accepted + [angle]
  {
    hide Hangs, Encode, Flood, CommandMoves, WakePending, Consistent;
    CommandIsQueued(s, angle);
    var queued := ApplyAll(s, CommandMoves(angle));
    FourSteps(queued);
    var read := ApplyAll(queued, Steps(2));
    assert read == queued.(service := PositionRead(s.encoder.position));
    FloodFillsQueue(read, QUEUE_PLACES - 1);
    var full := ApplyAll(read, Flood(QUEUE_PLACES - 1));
    assert full.queue[0] == full.queue[..1][0];
    CommandIsSmothered(full, angle);
    moves := CommandMoves(angle) + Steps(2) + Flood(QUEUE_PLACES - 1) + Steps(4);
    ApplyAllAppend(s, CommandMoves(angle) + Steps(2) + Flood(QUEUE_PLACES - 1), Steps(4));
    ApplyAllAppend(s, CommandMoves(angle) + Steps(2), Flood(QUEUE_PLACES - 1));
    ApplyAllAppend(s, CommandMoves(angle), Steps(2));
  }

  lemma CalibrationStarts(s: System, e: Encoder, p: Parser)
    requires QuadratureEncoder.Valid(e) && Receiver.Valid(p) && Hunting(p) && s == PowerUp(e, p)
    ensures s.service.NotServing? && s.queue != []
    ensures var r := ServeFront(s);
            && r.service.NotServing? && r.queue == [] && r.parser == s.parser && Hunting(r.parser)
            && r.journal.app.state.Calibration? && r.journal.accepted == [] && r.journal.answers == []
  {
  }

  lemma HomePulseEndsIt(s: System)
    requires ValidSystem(s) && s.service.NotServing? && s.queue == [AppEvent(HomeActivity)]
    requires s.journal.app.state.Calibration?
    ensures var r := ServeFront(s);
            && r.service.NotServing? && r.queue == [] && r.parser == s.parser
            && r.journal.app.state.Ready?
            && r.journal.accepted == s.journal.accepted && r.journal.answers == s.journal.answers
  {
  }

  /** From power-up the first home pulse makes the machine ready. */
  lemma CalibrationEnds(e: Encoder, p: Parser) returns (moves: seq<Move>)
    requires QuadratureEncoder.Valid(e) && Receiver.Valid(p) && Hunting(p)
    ensures var r := Reached(e, p, moves);
            && r.service.NotServing? && r.queue == [] && Hunting(r.parser)
            && r.journal.app.state.Ready? && r.journal.accepted == [] && r.journal.answers == []
  {
    hide PowerUp, ApplyAll, Steps;
    var s, home := PowerUp(e, p), EncoderIrq(Interrupt(PinZ, true, false));
    CalibrationStarts(s, e, p);
    SixStepsServe(s);
    var started := ApplyAll(s, Steps(6));
    var pulsed := Apply(started, home);
    ApplyAllOne(started, home);
    SixStepsServe(pulsed);
    HomePulseEndsIt(pulsed);
    moves := Steps(6) + [home] + Steps(6);
    ApplyAllAppend(s, Steps(6) + [home], Steps(6));
    ApplyAllAppend(s, Steps(6), [home]);
  }

  /** So a state in which a wake-up is lost and the command hangs is reachable. */
  lemma WakeUpCanBeLost(e: Encoder, p: Parser) returns (moves: seq<Move>)
    requires QuadratureEncoder.Valid(e) && Receiver.Valid(p) && Hunting(p)
    ensures var r := Reached(e, p, moves);
            && Hangs(r) && !NoLostWakeUp(r) && OfWake in r.lost
            && r.journal.accepted == [360] && r.journal.answers == []
  {
    hide Hangs;
    var first := CalibrationEnds(e, p);
    var ready := Reached(e, p, first);
    var more := AnyIdleCommandCanHang(ready, 360);
    moves := first + more;
    ApplyAllAppend(PowerUp(e, p), first, more);
    EveryReachableStateIsSafe(e, p, moves);
    HangingCommandIsAsleep(Reached(e, p, moves));
  }

  /** A rejected command that hangs is a lost wake-up. */
  lemma HangingCommandIsAsleep(s: System)
    requires Hangs(s) && Consistent(s.journal) && s.journal.accepted == [360] && s.journal.answers == []
    ensures !NoLostWakeUp(s)
  {
    assert s.journal.app.respStatus.InvalidAngle?;
  }
}
