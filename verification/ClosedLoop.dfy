/**
 The closed loop: the motor turns the shaft in quarter steps as commanded, with home pulses at least 180 counted edges
 apart, while bytes arrive and the main loop takes its steps, in any order. The only condition on the order is that
 between the edge that reaches the target and the handler that concludes the command neither a counted edge nor a
 home pulse comes; module WorstRuns shows what a pulse in that gap does. This module has the plant, the measure and
 single motions; module Convergence has the runs.
 */
module ClosedLoop {
  import opened Bytes
  import opened QuadratureEncoder
  import opened Shaft
  import opened Receiver
  import opened Application
  import opened SystemModel

  /** The firmware, the shaft, the counted edges since the last home pulse, and all counted edges. */
  datatype Plant = Plant(system: System, at: int, sinceHome: nat, edges: nat)

  datatype Motion = QuarterStep | HomePulse | ByteArrives(b: Byte) | LoopStep

  const HOME := Interrupt(PinZ, true, false)

  ghost predicate ValidPlant(p: Plant) {
    && ValidSystem(p.system)
    && (p.system.encoder.homeSeen <==> p.sinceHome == 0)
    && (p.system.encoder.homeSeen ==> p.system.encoder.position == 0)
  }

  function MotorOf(p: Plant): Motor {
    p.system.journal.app.motor
  }

  /** The edge that the next quarter step of the motor gives. */
  function NextEdge(p: Plant): Option<Interrupt> {
    match MotorOf(p)
    case Off => None
    case On(d) => Edge(p.at, p.at + Sign(d))
  }

  function Move(p: Plant, m: Motion): (q: Plant)
    requires ValidPlant(p)
    ensures ValidPlant(q)
  {
    match m
    case LoopStep => p.(system := Apply(p.system, MainLoop))
    case ByteArrives(b) => p.(system := Apply(p.system, ByteIrq(b)))
    case HomePulse => p.(system := Apply(p.system, EncoderIrq(HOME)), sinceHome := 0)
    case QuarterStep =>
      match MotorOf(p)
      case Off => p
      case On(d) =>
        var to := p.at + Sign(d);
        match Edge(p.at, to)
        case None => p.(at := to)
        case Some(i) => Turned(p, to, i)
  }

  /** The shaft arrives at `to` with step edge `i`. */
  function Turned(p: Plant, to: int, i: Interrupt): (q: Plant)
    requires ValidPlant(p) && !IsHome(i)
    ensures ValidPlant(q)
  {
    var n := if Count(p.system.encoder, i) == 0 then 0 else 1;
    Plant(Apply(p.system, EncoderIrq(i)), to, p.sinceHome + n, p.edges + n)
  }

  function MoveAll(p: Plant, run: seq<Motion>): (q: Plant)
    requires ValidPlant(p)
    ensures ValidPlant(q)
  {
    if run == [] then p else Move(MoveAll(p, run[..|run| - 1]), run[|run| - 1])
  }

  // ---- plant runs are runs of the system ----

  function SystemMoves(p: Plant, m: Motion): seq<SystemModel.Move> {
    match m
    case LoopStep => [MainLoop]
    case ByteArrives(b) => [ByteIrq(b)]
    case HomePulse => [EncoderIrq(HOME)]
    case QuarterStep => if NextEdge(p).Some? then [EncoderIrq(NextEdge(p).value)] else []
  }

  function SystemRun(p: Plant, run: seq<Motion>): seq<SystemModel.Move>
    requires ValidPlant(p)
  {
    if run == [] then []
    else SystemRun(p, run[..|run| - 1]) + SystemMoves(MoveAll(p, run[..|run| - 1]), run[|run| - 1])
  }

  lemma {:induction false} MoveAllIsRun(p: Plant, run: seq<Motion>)
    requires ValidPlant(p)
    ensures MoveAll(p, run).system == ApplyAll(p.system, SystemRun(p, run))
  {
    if run == [] {
    } else {
      hide Apply, ValidPlant;
      var n := |run| - 1;
      var q := MoveAll(p, run[..n]);
      MoveAllIsRun(p, run[..n]);
      var moves := SystemMoves(q, run[n]);
      ApplyAllAppend(p.system, SystemRun(p, run[..n]), moves);
      MoveIsSystemMove(q, run[n]);
    }
  }

  lemma MoveIsSystemMove(p: Plant, m: Motion)
    requires ValidPlant(p)
    ensures Move(p, m).system == ApplyAll(p.system, SystemMoves(p, m))
  {
    hide Apply;
    if SystemMoves(p, m) != [] {
      ApplyAllOne(p.system, SystemMoves(p, m)[0]);
    }
  }

  // ---- the hypotheses on runs ----

  /** The encoder stands at the target of the command under way, or a handler has read it there. */
  predicate AtTarget(s: System)
    requires s.service.PositionRead? ==> s.queue != []
  {
    var app := s.journal.app;
    && app.state.Execution? && app.respStatus.RespOk?
    && (ShowsPosition(s.encoder, app.positionRequested) || WakeInHand(s))
  }

  /** The motion is a counted edge or a home pulse. */
  predicate Disturbs(p: Plant, m: Motion) {
    m.HomePulse? || (m.QuarterStep? && NextEdge(p).Some? && Count(p.system.encoder, NextEdge(p).value) != 0)
  }

  /** Home pulses come only from a turning motor, and at least 180 counted edges after the last one. */
  predicate SpacedPulse(p: Plant, m: Motion) {
    m.HomePulse? ==> MotorOf(p).On? && p.sinceHome >= RESOLUTION
  }

  ghost predicate Spaced(p: Plant, run: seq<Motion>)
    requires ValidPlant(p)
  {
    run != [] ==> Spaced(p, run[..|run| - 1]) && SpacedPulse(MoveAll(p, run[..|run| - 1]), run[|run| - 1])
  }

  /** The main loop concludes the command before the next counted edge or home pulse. */
  predicate InTime(p: Plant, m: Motion)
    requires p.system.service.PositionRead? ==> p.system.queue != []
  {
    Disturbs(p, m) ==> !AtTarget(p.system)
  }

  ghost predicate Regular(p: Plant, run: seq<Motion>)
    requires ValidPlant(p)
  {
    run != [] ==>
      var q := MoveAll(p, run[..|run| - 1]);
      Regular(p, run[..|run| - 1]) && SpacedPulse(q, run[|run| - 1]) && InTime(q, run[|run| - 1])
  }

  /** Every step and internal event has been handled. */
  ghost predicate Settled(s: System) {
    forall k :: (if s.service.Acted? then 1 else 0) <= k < |s.queue| ==> !IsWake(s.queue[k])
  }

  /** In a settled state nothing can come too early, so handling each event before the next edge is always in time. */
  lemma SettledIsInTime(p: Plant, m: Motion)
    requires ValidPlant(p) && Awake(p.system) && Settled(p.system)
    ensures InTime(p, m)
  {
  }

  // ---- the measure ----

  /** Counted edges from `position` to `target` in direction `d`. */
  function Distance(position: nat, target: nat, d: Direction): (n: nat)
    requires position < RESOLUTION && target < RESOLUTION
    ensures n < RESOLUTION && (n == 0 <==> position == target)
  {
    var ahead := if d.Anticlockwise? then target - position else position - target;
    if ahead >= 0 then ahead else ahead + RESOLUTION
  }

  function EdgesLeft(e: Encoder, target: nat, d: Direction): (n: nat)
    requires e.position < RESOLUTION && target < RESOLUTION
    ensures n == 0 <==> ShowsPosition(e, target)
  {
    Distance(e.position, target, d) + (if e.homeSeen then 1 else 0)
  }

  /** What is left if no home pulse intervenes: the distance, and one more if the home flag will eat an edge. */
  function Remaining(p: Plant, target: nat, d: Direction): nat
    requires ValidPlant(p) && target < RESOLUTION
  {
    EdgesLeft(p.system.encoder, target, d)
  }

  /** What is left in the worst case: a home pulse, if one is still possible, comes at the last moment. */
  function WorstCase(p: Plant, target: nat, d: Direction): nat
    requires ValidPlant(p) && target < RESOLUTION
  {
    WorstLeft(p.system.encoder, p.sinceHome, target, d)
  }

  function WorstLeft(e: Encoder, sinceHome: nat, target: nat, d: Direction): nat
    requires e.position < RESOLUTION && target < RESOLUTION
  {
    var r := EdgesLeft(e, target, d);
    if r > 0 && sinceHome + r - 1 >= RESOLUTION then r - 1 + Distance(0, target, d) + 1 else r
  }

  lemma WorstCaseIsBounded(p: Plant, target: nat, d: Direction)
    requires ValidPlant(p) && target < RESOLUTION
    ensures Remaining(p, target, d) <= WorstCase(p, target, d) <= 358
  {
  }

  lemma DistanceShrinks(position: nat, target: nat, d: Direction)
    requires position < RESOLUTION && target < RESOLUTION && position != target
    ensures Distance((position + Sign(d)) % RESOLUTION, target, d) == Distance(position, target, d) - 1
  {
    var next := (position + Sign(d)) % RESOLUTION;
    if d.Anticlockwise? {
      assert next == if position == 179 then 0 else position + 1;
    } else {
      assert next == if position == 0 then 179 else position - 1;
    }
  }

  lemma EdgeTakesOneOff(e: Encoder, i: Interrupt, sinceHome: nat, target: nat, d: Direction)
    requires QuadratureEncoder.Valid(e) && target < RESOLUTION
    requires Count(e, i) == Sign(d) && !IsHome(i) && EdgesLeft(e, target, d) > 0
    ensures !Step(e, i).homeSeen && EdgesLeft(Step(e, i), target, d) == EdgesLeft(e, target, d) - 1
    ensures WorstLeft(Step(e, i), sinceHome + 1, target, d) <= WorstLeft(e, sinceHome, target, d) - 1
  {
    if !e.homeSeen {
      DistanceShrinks(e.position, target, d);
    }
  }

  /** Turning in one direction counts in that direction or not at all, and certainly once every four quarter steps. */
  function StepsToCertainCount(at: int, d: Direction): (n: nat)
    ensures 1 <= n <= 4
  {
    if d.Anticlockwise? then (if at % 4 == 0 then 1 else 5 - at % 4) else at % 4 + 1
  }

  lemma TurningCounts(e: Encoder, at: int, d: Direction)
    ensures Edge(at, at + Sign(d)).Some? ==>
              Count(e, Edge(at, at + Sign(d)).value) in {0, Sign(d)} && !IsHome(Edge(at, at + Sign(d)).value)
    ensures StepsToCertainCount(at, d) == 1 ==>
              && Edge(at, at + Sign(d)).Some? && Count(e, Edge(at, at + Sign(d)).value) == Sign(d)
              && StepsToCertainCount(at + Sign(d), d) == 4
    ensures StepsToCertainCount(at, d) > 1 ==> StepsToCertainCount(at + Sign(d), d) == StepsToCertainCount(at, d) - 1
  {
  }

  // ---- one motion while the command is under way ----

  /** The command for `target` is under way, with the motor turning in direction `d`. */
  ghost predicate Driving(p: Plant, target: nat, d: Direction) {
    && ValidPlant(p) && target < RESOLUTION && Consistent(p.system.journal) && Awake(p.system)
    && p.system.journal.app == App(Execution, SET_ANGLE, RespOk, target, On(d))
  }

  /** It has just been answered, the motor is off. */
  ghost predicate Arrived(p: Plant, target: nat, answers: seq<Answer>) {
    && ValidPlant(p) && target < RESOLUTION
    && p.system.journal.app == App(Ready, SET_ANGLE, RespOk, target, Off)
    && p.system.journal.answers == answers + [Answer(Response(RespOk, PositionToAngle(target)), target)]
  }

  /** The interrupt or step leaves the command under way and the answers alone, and no wake-up is lost. */
  ghost predicate Undisturbed(p: Plant, q: Plant, target: nat, d: Direction) {
    Driving(q, target, d) && q.system.journal == p.system.journal
  }

  lemma InterruptWhileDriving(s: System, m: SystemModel.Move)
    requires ValidSystem(s) && Consistent(s.journal) && Awake(s) && !m.MainLoop? && OfWake !in Apply(s, m).lost
    ensures Apply(s, m).journal == s.journal && Awake(Apply(s, m)) && Apply(s, m).encoder == EncoderAfter(s, m)
    ensures Apply(s, m).service == s.service && (s.service.PositionRead? ==> Apply(s, m).queue[0] == s.queue[0])
  {
    hide Awake, Consistent;
    MoveKeepsAwakeIff(s, m);
  }

  /** Every counted edge takes exactly one off the remaining count. */
  lemma CountedEdge(p: Plant, target: nat, d: Direction, to: int, i: Interrupt)
    requires Driving(p, target, d) && Count(p.system.encoder, i) == Sign(d) && !IsHome(i) && !AtTarget(p.system)
    requires OfWake !in Turned(p, to, i).system.lost
    ensures var q := Turned(p, to, i);
            && Undisturbed(p, q, target, d) && q.edges == p.edges + 1 && q.at == to && q.sinceHome == p.sinceHome + 1
            && Remaining(q, target, d) == Remaining(p, target, d) - 1
            && WorstCase(q, target, d) <= WorstCase(p, target, d) - 1
            && !q.system.encoder.homeSeen && !WakeInHand(q.system)
  {
    InterruptWhileDriving(p.system, EncoderIrq(i));
    hide Step, Count, Apply, Awake, Consistent, EdgesLeft, WorstLeft;
    EdgeTakesOneOff(p.system.encoder, i, p.sinceHome, target, d);
  }

  lemma UncountedEdge(p: Plant, target: nat, d: Direction, to: int, i: Interrupt)
    requires Driving(p, target, d) && Count(p.system.encoder, i) == 0 && !IsHome(i)
    requires OfWake !in Turned(p, to, i).system.lost
    ensures var q := Turned(p, to, i);
            && Undisturbed(p, q, target, d) && q.edges == p.edges && q.at == to && q.sinceHome == p.sinceHome
            && SameStanding(p, q)
  {
    InterruptWhileDriving(p.system, EncoderIrq(i));
    hide Apply, Awake, Consistent;
  }

  /** The encoder shows the same, and the handler in hand has read the same. */
  ghost predicate SameStanding(p: Plant, q: Plant)
    requires ValidPlant(p) && ValidPlant(q)
  {
    && q.system.encoder.position == p.system.encoder.position && q.system.encoder.homeSeen == p.system.encoder.homeSeen
    && WakeInHand(q.system) == WakeInHand(p.system)
  }

  lemma ByteWhileDriving(p: Plant, target: nat, d: Direction, b: Byte)
    requires Driving(p, target, d) && OfWake !in Move(p, ByteArrives(b)).system.lost
    ensures var q := Move(p, ByteArrives(b));
            Undisturbed(p, q, target, d) && q.system.encoder == p.system.encoder && SameStanding(p, q)
  {
    InterruptWhileDriving(p.system, ByteIrq(b));
    hide Apply, Awake, Consistent;
  }

  /** A home pulse, which cannot come before the 180th edge, does not raise the worst case if it comes in time... */
  lemma HomeWhileDriving(p: Plant, target: nat, d: Direction)
    requires Driving(p, target, d) && p.sinceHome >= RESOLUTION && OfWake !in Move(p, HomePulse).system.lost
    ensures var q := Move(p, HomePulse);
            && Undisturbed(p, q, target, d) && q.edges == p.edges && q.at == p.at
            && Remaining(q, target, d) == Distance(0, target, d) + 1
    ensures WorstCase(Move(p, HomePulse), target, d) <= WorstCase(p, target, d) <==> Remaining(p, target, d) > 0
  {
    InterruptWhileDriving(p.system, EncoderIrq(HOME));
    hide Apply, Awake, Consistent;
  }

  /** A step of the main loop leaves a driving plant as it is, or answers the command on the position it has read. */
  lemma LoopWhileDriving(p: Plant, target: nat, d: Direction)
    requires Driving(p, target, d) && OfWake !in Move(p, LoopStep).system.lost
    ensures var q := Move(p, LoopStep);
            && q.system.encoder == p.system.encoder
            && (Undisturbed(p, q, target, d) || (Arrived(q, target, p.system.journal.answers) && WakeInHand(p.system)))
            && (Undisturbed(p, q, target, d) && WakeInHand(q.system) ==> q.system.encoder.position == target)
  {
    MoveKeepsAwakeIff(p.system, MainLoop);
    ApplyKeepsConsistent(p.system, MainLoop);
    hide Awake, Consistent, ValidSystem;
    StepOfCommand(p.system);
  }

  /** What a loop step makes of the command under way. */
  lemma StepOfCommand(s: System)
    requires ValidSystem(s) && s.journal.app.state.Execution? && s.journal.app.savedCmdType == SET_ANGLE
    ensures var r := MainStep(s);
            && r.encoder == s.encoder
            && (WakeInHand(s) ==>
                  && r.journal.app == s.journal.app.(state := Ready, motor := Off)
                  && r.journal.answers == s.journal.answers
                     + [Answer(Response(s.journal.app.respStatus, PositionToAngle(s.journal.app.positionRequested)),
                               s.service.position)])
            && (!WakeInHand(s) ==> r.journal == s.journal)
            && (WakeInHand(r) ==> s.service.Called? && Concludes(r.journal.app, s.encoder.position))
  {
  }

  lemma StepWhileDriving(p: Plant, target: nat, d: Direction)
    requires Driving(p, target, d) && InTime(p, QuarterStep) && OfWake !in Move(p, QuarterStep).system.lost
    ensures var q := Move(p, QuarterStep);
            && Undisturbed(p, q, target, d) && p.edges <= q.edges
            && q.edges + WorstCase(q, target, d) <= p.edges + WorstCase(p, target, d)
            && q.edges + Remaining(q, target, d) == p.edges + Remaining(p, target, d)
            && StepsToCertainCount(q.at, d) + 1 - 4 * q.edges <= StepsToCertainCount(p.at, d) - 4 * p.edges
            && (Sharp(p, target) ==> Sharp(q, target))
  {
    hide Turned, Count, Edge, Distance, Consistent, Awake;
    TurningCounts(p.system.encoder, p.at, d);
    var to := p.at + Sign(d);
    match Edge(p.at, to)
    case None =>
    case Some(i) =>
      if Count(p.system.encoder, i) != 0 {
        CountedEdge(p, target, d, to, i);
      } else {
        UncountedEdge(p, target, d, to, i);
      }
  }

  /** Only an encoder that stands at the target, with its flag down, can be read as standing there. */
  ghost predicate Sharp(p: Plant, target: nat)
    requires ValidPlant(p)
  {
    && (p.system.encoder.homeSeen ==> p.system.encoder.position != target)
    && (WakeInHand(p.system) ==> p.system.encoder.position == target)
  }

  // ---- accepting a command ----

  /** The handler of a command request has read the position and is about to act. */
  ghost predicate AboutToAccept(p: Plant, position: nat, angle: nat) {
    && ValidPlant(p) && Consistent(p.system.journal) && Awake(p.system)
    && p.system.journal.app.state.Ready? && p.system.service == PositionRead(position)
    && p.system.queue[0] == AppEvent(CmdRequest(SET_ANGLE, angle))
  }

  /**
   A command for an angle of the circle whose position is not the one read starts the motor, in the direction in which
   the target lies from the position read without passing zero, with at most 358 counted edges to go; if the encoder
   has not moved since, with as many as the positions differ, and one more if the home flag is set.
   */
  lemma CommandStartsDriving(p: Plant, position: nat, angle: nat)
    requires AboutToAccept(p, position, angle) && angle < 360 && position != angle / 2
    requires OfWake !in Move(p, LoopStep).system.lost
    ensures var q, target := Move(p, LoopStep), angle / 2;
            var d := if target > position then Anticlockwise else Clockwise;
            && Driving(q, target, d)
            && q.system.journal.accepted == p.system.journal.accepted + [angle]
            && q.system.journal.answers == p.system.journal.answers
            && (p.system.encoder.position == position ==>
                  && Sharp(q, target)
                  && Remaining(q, target, d)
                     == (if target > position then target - position else position - target)
                        + (if p.system.encoder.homeSeen then 1 else 0))
  {
    AcceptanceByHalfAngle(angle);
    MoveKeepsAwakeIff(p.system, MainLoop);
    ApplyKeepsConsistent(p.system, MainLoop);
    hide Awake, Consistent;
  }

  /** The command is for the position where the encoder stands; the motor is off and a wake-up is queued or in hand. */
  ghost predicate Standing(p: Plant, target: nat) {
    && ValidPlant(p) && target < RESOLUTION
    && p.system.journal.app == App(Execution, SET_ANGLE, RespOk, target, Off)
    && p.system.encoder.position == target
    && (p.system.service.PositionRead? ==> p.system.service.position == target)
    && (WakePending(p.system) || WakeInHand(p.system))
  }

  lemma CommandStandsAtTarget(p: Plant, angle: nat)
    requires AboutToAccept(p, angle / 2, angle) && angle < 360 && p.system.encoder.position == angle / 2
    requires OfWake !in Move(p, LoopStep).system.lost
    ensures var q := Move(p, LoopStep);
            && Standing(q, angle / 2)
            && q.system.journal.accepted == p.system.journal.accepted + [angle]
            && q.system.journal.answers == p.system.journal.answers
  {
    AcceptanceByHalfAngle(angle);
    var s := p.system;
    var acted := s.(journal := Record(s.journal, s.queue[0].event, angle / 2));
    PutKeepsWake(acted, HandlerPut(s, angle / 2));
    assert WakePending(ActOn(s, angle / 2)) <==> WakePending(MainStep(s));
  }

  lemma StandingStep(p: Plant, target: nat, m: Motion)
    requires Standing(p, target) && SpacedPulse(p, m) && OfWake !in Move(p, m).system.lost
    ensures var q := Move(p, m);
            || (Standing(q, target) && q.system.journal == p.system.journal)
            || Arrived(q, target, p.system.journal.answers)
  {
    match m
    case QuarterStep =>
    case HomePulse =>
    case ByteArrives(b) => ByteWhileStanding(p, target, b);
    case LoopStep => LoopWhileStanding(p, target);
  }

  lemma ByteWhileStanding(p: Plant, target: nat, b: Byte)
    requires Standing(p, target) && OfWake !in Move(p, ByteArrives(b)).system.lost
    ensures var q := Move(p, ByteArrives(b));
            Standing(q, target) && q.system.journal == p.system.journal
  {
    var s := p.system;
    var moved := s.(parser := Receive(s.parser, b).0);
    PutKeepsWake(moved, PutOf(s, ByteIrq(b)));
    assert WakePending(s) <==> WakePending(moved);
  }

  lemma LoopWhileStanding(p: Plant, target: nat)
    requires Standing(p, target)
    ensures var q := Move(p, LoopStep);
            || (Standing(q, target) && q.system.journal == p.system.journal)
            || Arrived(q, target, p.system.journal.answers)
  {
    var s := p.system;
    StepOfCommand(s);
    if WakePending(s) {
      var k :| FirstUnread(s) <= k < |s.queue| && IsWake(s.queue[k]);
      hide HandlerPut;
      assert s.service.Acted? ==> MainStep(s).queue[k - 1] == s.queue[k];
      assert !s.service.Acted? && !s.service.PositionRead? ==> MainStep(s).queue == s.queue;
      if s.service.PositionRead? {
        PendingSurvivesAct(s, k);
      }
    }
  }

  lemma PendingSurvivesAct(s: System, k: nat)
    requires ValidSystem(s) && s.service.PositionRead? && 1 <= k < |s.queue| && IsWake(s.queue[k])
    ensures WakePending(MainStep(s))
  {
    var put := HandlerPut(s, s.service.position);
    hide HandlerPut;
    assert MainStep(s).queue[k] == s.queue[k];
  }

  lemma StandingIsUnsettled(p: Plant, target: nat)
    requires Standing(p, target)
    ensures !Settled(p.system)
  {
  }
}
