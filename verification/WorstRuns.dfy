/**
 Extreme runs of the closed loop: one that attains the bound on counted edges, and, when home pulses fall between the
 edge that reaches the target and its handling, runs of any length that never answer the command.
 */
module WorstRuns {
  import opened QuadratureEncoder
  import opened Shaft
  import opened Application
  import opened SystemModel
  import opened ClosedLoop

  // ---- putting runs together ----

  lemma {:induction false} MoveAllAppend(p: Plant, run: seq<Motion>, more: seq<Motion>)
    requires ValidPlant(p)
    ensures MoveAll(p, run + more) == MoveAll(MoveAll(p, run), more)
    ensures Spaced(p, run) && Spaced(MoveAll(p, run), more) ==> Spaced(p, run + more)
    ensures Regular(p, run) && Regular(MoveAll(p, run), more) ==> Regular(p, run + more)
  {
    hide ClosedLoop.Move, SpacedPulse, InTime;
    if more == [] {
      assert run + more == run;
    } else {
      var n := |more| - 1;
      MoveAllAppend(p, run, more[..n]);
      assert (run + more)[..|run + more| - 1] == run + more[..n];
    }
  }

  lemma MoveAllOne(p: Plant, m: Motion)
    requires ValidPlant(p)
    ensures MoveAll(p, [m]) == ClosedLoop.Move(p, m)
    ensures SpacedPulse(p, m) ==> Spaced(p, [m])
    ensures SpacedPulse(p, m) && InTime(p, m) ==> Regular(p, [m])
  {
    hide ClosedLoop.Move, SpacedPulse, InTime;
    assert [m][..0] == [];
  }

  lemma {:induction false} RegularIsSpaced(p: Plant, run: seq<Motion>)
    requires ValidPlant(p) && Regular(p, run)
    ensures Spaced(p, run)
  {
    hide ClosedLoop.Move, SpacedPulse, InTime;
    if run == [] {
    } else {
      RegularIsSpaced(p, run[..|run| - 1]);
    }
  }

  function Loops(n: nat): seq<Motion> {
    seq(n, _ => LoopStep)
  }

  lemma {:induction false} LoopsAreSteps(p: Plant, n: nat)
    requires ValidPlant(p)
    ensures MoveAll(p, Loops(n)) == p.(system := ApplyAll(p.system, Steps(n))) && Regular(p, Loops(n))
  {
    if n == 0 {
    } else {
      hide Apply, MainStep;
      LoopsAreSteps(p, n - 1);
      assert Loops(n)[..n - 1] == Loops(n - 1) && Steps(n)[..n - 1] == Steps(n - 1);
    }
  }

  // ---- edges that are handled at once ----

  /** Nothing is queued. */
  predicate Idle(p: Plant) {
    p.system.queue == [] && p.system.service.NotServing?
  }

  /** Serving the front task. */
  lemma LoopsServe(p: Plant)
    requires ValidPlant(p) && p.system.service.NotServing? && p.system.queue != []
    ensures MoveAll(p, Loops(6)) == p.(system := ServeFront(p.system)) && Regular(p, Loops(6))
  {
    hide ServeFront;
    LoopsAreSteps(p, 6);
    SixStepsServe(p.system);
  }

  /** A command is under way, and the one task queued is an event that does not conclude it. */
  lemma ServingEvent(s: System, event: Event)
    requires ValidSystem(s) && s.service.NotServing? && s.queue != [] && s.queue[0] == AppEvent(event)
    requires s.journal.app.state.Execution? && !event.CmdRequest?
    requires event.HomeActivity? || !Concludes(s.journal.app, s.encoder.position)
    ensures var r := ServeFront(s);
            && r.queue == s.queue[1..] && r.service == NotServing
            && r.journal == s.journal && r.encoder == s.encoder && r.lost == s.lost
  {
  }

  /** Where a driving plant stands: the counted edges so far, those left, and those since the last pulse. */
  ghost predicate StandsAt(q: Plant, p: Plant, target: nat, d: Direction, edges: nat, left: int) {
    && Driving(q, target, d) && q.edges == p.edges + edges && Remaining(q, target, d) == left
    && q.sinceHome == p.sinceHome + edges && q.system.lost == p.system.lost && q.system.journal == p.system.journal
  }

  /** An idle plant that drives reaches its next counted edge, which queues a step event. */
  lemma EdgeRun(p: Plant, target: nat, d: Direction) returns (run: seq<Motion>)
    requires Driving(p, target, d) && Idle(p) && OfWake !in p.system.lost
    ensures Regular(p, run)
    ensures var q := MoveAll(p, run);
            && StandsAt(q, p, target, d, 1, Remaining(p, target, d) - 1)
            && q.system.queue == [AppEvent(StepActivity)] && q.system.service.NotServing?
            && !q.system.encoder.homeSeen
    decreases StepsToCertainCount(p.at, d)
  {
    var q := ClosedLoop.Move(p, QuarterStep);
    IdleIsOffTarget(p, target, d);
    MoveAllOne(p, QuarterStep);
    run := [QuarterStep];
    TurningCounts(p.system.encoder, p.at, d);
    QuarterStepOfIdle(p, target, d);
    if q.edges == p.edges {
      var more := EdgeRun(q, target, d);
      MoveAllAppend(p, run, more);
      run := run + more;
    }
  }

  lemma IdleIsOffTarget(p: Plant, target: nat, d: Direction)
    requires Driving(p, target, d) && Idle(p)
    ensures InTime(p, QuarterStep) && InTime(p, HomePulse) && Remaining(p, target, d) > 0
  {
  }

  lemma QuarterStepOfIdle(p: Plant, target: nat, d: Direction)
    requires Driving(p, target, d) && Idle(p) && OfWake !in p.system.lost && InTime(p, QuarterStep)
    ensures var q := ClosedLoop.Move(p, QuarterStep);
            if q.edges == p.edges then
              && StandsAt(q, p, target, d, 0, Remaining(p, target, d)) && Idle(q)
              && q.at == p.at + Sign(d) && StepsToCertainCount(p.at, d) > 1
            else
              && StandsAt(q, p, target, d, 1, Remaining(p, target, d) - 1)
              && q.system.queue == [AppEvent(StepActivity)] && q.system.service.NotServing?
              && !q.system.encoder.homeSeen
  {
    TurningCounts(p.system.encoder, p.at, d);
    hide Consistent, Awake, EdgesLeft, WorstLeft, Count, Edge;
    match Edge(p.at, p.at + Sign(d))
    case None =>
    case Some(i) =>
      IdlePuts(p);
      if Count(p.system.encoder, i) != 0 {
        CountedEdge(p, target, d, p.at + Sign(d), i);
      } else {
        UncountedEdge(p, target, d, p.at + Sign(d), i);
        SameEdgesLeft(p.system.encoder, Step(p.system.encoder, i), target, d);
      }
  }

  lemma SameEdgesLeft(e: Encoder, f: Encoder, target: nat, d: Direction)
    requires e.position == f.position < RESOLUTION && e.homeSeen == f.homeSeen && target < RESOLUTION
    ensures EdgesLeft(e, target, d) == EdgesLeft(f, target, d)
  {
  }

  /** A put into an empty queue is stored. */
  lemma IdlePuts(p: Plant)
    requires ValidPlant(p) && Idle(p) && NextEdge(p).Some? && !IsHome(NextEdge(p).value)
    ensures var i := NextEdge(p).value;
            var r := Apply(p.system, EncoderIrq(i));
            && r.queue == (if Count(p.system.encoder, i) != 0 then [AppEvent(StepActivity)] else [])
            && r.lost == p.system.lost && r.service.NotServing?
  {
    hide Step, Count;
  }

  /** A driving plant that is not yet at its last edge passes the next one and is idle again. */
  lemma HandledEdge(p: Plant, target: nat, d: Direction) returns (run: seq<Motion>)
    requires Driving(p, target, d) && Idle(p) && OfWake !in p.system.lost && Remaining(p, target, d) > 1
    ensures Regular(p, run)
    ensures StandsAt(MoveAll(p, run), p, target, d, 1, Remaining(p, target, d) - 1) && Idle(MoveAll(p, run))
  {
    hide Regular, Consistent;
    var edge := EdgeRun(p, target, d);
    var q := MoveAll(p, edge);
    LoopsServe(q);
    ServedStepDrives(q, target, d);
    MoveAllAppend(p, edge, Loops(6));
    run := edge + Loops(6);
  }

  lemma ServedStepDrives(q: Plant, target: nat, d: Direction)
    requires Driving(q, target, d) && q.system.queue == [AppEvent(StepActivity)] && q.system.service.NotServing?
    requires Remaining(q, target, d) > 0 && !q.system.encoder.homeSeen
    ensures var r := q.(system := ServeFront(q.system));
            Driving(r, target, d) && Idle(r) && r.system.encoder == q.system.encoder
            && r.system.lost == q.system.lost && r.system.journal == q.system.journal
  {
    ServingEvent(q.system, StepActivity);
    hide ServeFront;
  }

  lemma {:induction false} HandledEdges(p: Plant, target: nat, d: Direction, k: nat) returns (run: seq<Motion>)
    requires Driving(p, target, d) && Idle(p) && OfWake !in p.system.lost && k < Remaining(p, target, d)
    ensures Regular(p, run)
    ensures StandsAt(MoveAll(p, run), p, target, d, k, Remaining(p, target, d) - k) && Idle(MoveAll(p, run))
  {
    run := [];
    if k == 0 {
    } else {
      hide Regular, Driving;
      var first := HandledEdges(p, target, d, k - 1);
      var more := HandledEdge(MoveAll(p, first), target, d);
      MoveAllAppend(p, first, more);
      run := first + more;
    }
  }

  // ---- the bound is attained ----

  /** A pulse that comes in time, and its handling. */
  lemma HandledPulse(p: Plant, target: nat, d: Direction) returns (run: seq<Motion>)
    requires Driving(p, target, d) && Idle(p) && OfWake !in p.system.lost && p.sinceHome >= RESOLUTION
    ensures Regular(p, run)
    ensures var q := MoveAll(p, run);
            && Driving(q, target, d) && Idle(q) && q.edges == p.edges && q.sinceHome == 0
            && Remaining(q, target, d) == Distance(0, target, d) + 1 && q.system.lost == p.system.lost
  {
    IdleIsOffTarget(p, target, d);
    MoveAllOne(p, HomePulse);
    var q := ClosedLoop.Move(p, HomePulse);
    PulseOfIdle(p);
    HomeWhileDriving(p, target, d);
    LoopsServe(q);
    ServedHomeDrives(q, target, d);
    MoveAllAppend(p, [HomePulse], Loops(6));
    run := [HomePulse] + Loops(6);
  }

  lemma PulseOfIdle(p: Plant)
    requires ValidPlant(p) && Idle(p)
    ensures var r := Apply(p.system, EncoderIrq(HOME));
            r.queue == [AppEvent(HomeActivity)] && r.lost == p.system.lost && r.service.NotServing?
  {
  }

  lemma ServedHomeDrives(q: Plant, target: nat, d: Direction)
    requires Driving(q, target, d) && q.system.queue == [AppEvent(HomeActivity)] && q.system.service.NotServing?
    requires q.system.encoder.homeSeen
    ensures var r := q.(system := ServeFront(q.system));
            Driving(r, target, d) && Idle(r) && r.system.encoder == q.system.encoder && r.system.lost == q.system.lost
  {
    ServingEvent(q.system, HomeActivity);
    hide ServeFront;
  }

  /**
   From position 0 to 179, with a home pulse at the last moment, a regular run still drives after 357 counted edges;
   the next one is the last.
   */
  lemma WorstCaseIsAttained(p: Plant) returns (run: seq<Motion>)
    requires Driving(p, 179, Anticlockwise) && Idle(p) && OfWake !in p.system.lost
    requires p.system.encoder.position == 0 && p.sinceHome >= RESOLUTION
    ensures Regular(p, run)
    ensures var q := MoveAll(p, run);
            Driving(q, 179, Anticlockwise) && q.edges == p.edges + 357 && Remaining(q, 179, Anticlockwise) == 1
  {
    assert ValidPlant(p);
    hide Regular, Driving, MoveAll, Idle;
    var early := LatePulse(p);
    var late := HandledEdges(MoveAll(p, early), 179, Anticlockwise, 179);
    MoveAllAppend(p, early, late);
    run := early + late;
  }

  lemma LatePulse(p: Plant) returns (run: seq<Motion>)
    requires Driving(p, 179, Anticlockwise) && Idle(p) && OfWake !in p.system.lost
    requires p.system.encoder.position == 0 && p.sinceHome >= RESOLUTION
    ensures Regular(p, run)
    ensures var q := MoveAll(p, run);
            && Driving(q, 179, Anticlockwise) && Idle(q) && OfWake !in q.system.lost
            && q.edges == p.edges + 178 && Remaining(q, 179, Anticlockwise) == 180
  {
    hide Regular, Consistent, Awake, MoveAll, Idle;
    var early := HandledEdges(p, 179, Anticlockwise, 178);
    var q := MoveAll(p, early);
    var pulse := HandledPulse(q, 179, Anticlockwise);
    MoveAllAppend(p, early, pulse);
    run := early + pulse;
  }

  // ---- a home pulse between the edge that reaches the target and its handling ----

  /**
   What such a pulse does: the encoder forgets the target, a whole distance from zero and one more edge are left, and
   what is queued answers the command if and only if the target is zero.
   */
  lemma PulseInTheGap(s: System, target: nat, d: Direction)
    requires ValidSystem(s) && s.service.NotServing? && Consistent(s.journal) && target < RESOLUTION
    requires s.journal.app == App(Execution, SET_ANGLE, RespOk, target, On(d))
    requires ShowsPosition(s.encoder, target) && WakePending(s)
    ensures var r := Apply(s, EncoderIrq(HOME));
            && EdgesLeft(r.encoder, target, d) == Distance(0, target, d) + 1
            && (Drain(r).journal == s.journal <==> target != 0)
  {
    var r := Apply(s, EncoderIrq(HOME));
    var moved := s.(encoder := Step(s.encoder, HOME));
    PutKeepsWake(moved, PutOf(s, EncoderIrq(HOME)));
    assert WakePending(s) <==> WakePending(moved);
    if target == 0 {
      WakeUpIsAnswered(r);
    } else {
      DrainWithoutTargetChangesNothing(r);
    }
  }

  /** The plant has just been pulsed home, on its way to 179 anticlockwise. */
  ghost predicate JustPulsed(p: Plant) {
    Driving(p, 179, Anticlockwise) && Idle(p) && OfWake !in p.system.lost && p.sinceHome == 0
  }

  /** One revolution: 180 counted edges, the last of which reaches the target, a pulse, and only then the handlers. */
  lemma RevolutionWithPulseInGap(p: Plant) returns (run: seq<Motion>)
    requires JustPulsed(p)
    ensures Spaced(p, run)
    ensures JustPulsed(MoveAll(p, run)) && MoveAll(p, run).edges == p.edges + 180
    ensures MoveAll(p, run).system.journal == p.system.journal
  {
    hide Regular, Spaced, Consistent, Awake;
    var edges := HandledEdges(p, 179, Anticlockwise, 179);
    var q := MoveAll(p, edges);
    RegularIsSpaced(p, edges);
    var last := EdgeRun(q, 179, Anticlockwise);
    var r := MoveAll(q, last);
    RegularIsSpaced(q, last);
    MoveAllAppend(p, edges, last);
    MoveAllOne(r, HomePulse);
    var h := ClosedLoop.Move(r, HomePulse);
    PulseBehindStep(r);
    MoveAllAppend(p, edges + last, [HomePulse]);
    var rest := HandlersAfterPulse(h);
    MoveAllAppend(p, edges + last + [HomePulse], rest);
    run := edges + last + [HomePulse] + rest;
  }

  lemma PulseBehindStep(r: Plant)
    requires Driving(r, 179, Anticlockwise) && OfWake !in r.system.lost
    requires r.system.queue == [AppEvent(StepActivity)] && r.system.service.NotServing?
    ensures var h := ClosedLoop.Move(r, HomePulse);
            && h.system.queue == [AppEvent(StepActivity), AppEvent(HomeActivity)] && h.system.service.NotServing?
            && h.system.journal == r.system.journal && h.system.lost == r.system.lost
            && h.system.encoder.position == 0 && h.system.encoder.homeSeen && h.sinceHome == 0 && h.edges == r.edges
  {
  }

  lemma HandlersAfterPulse(h: Plant) returns (run: seq<Motion>)
    requires ValidPlant(h) && Consistent(h.system.journal)
    requires h.system.journal.app == App(Execution, SET_ANGLE, RespOk, 179, On(Anticlockwise))
    requires h.system.queue == [AppEvent(StepActivity), AppEvent(HomeActivity)] && h.system.service.NotServing?
    requires OfWake !in h.system.lost
    requires h.system.encoder.position == 0 && h.system.encoder.homeSeen && h.sinceHome == 0
    ensures Spaced(h, run)
    ensures var q := MoveAll(h, run);
            JustPulsed(q) && q.edges == h.edges && q.system.journal == h.system.journal
  {
    hide Spaced, Regular, MoveAll, ServeFront, Loops;
    LoopsServe(h);
    ServingEvent(h.system, StepActivity);
    var g := MoveAll(h, Loops(6));
    LoopsServe(g);
    ServedHomeIsPulsed(g);
    RegularIsSpaced(h, Loops(6));
    RegularIsSpaced(g, Loops(6));
    MoveAllAppend(h, Loops(6), Loops(6));
    run := Loops(6) + Loops(6);
  }

  lemma ServedHomeIsPulsed(g: Plant)
    requires ValidPlant(g) && Consistent(g.system.journal) && OfWake !in g.system.lost
    requires g.system.journal.app == App(Execution, SET_ANGLE, RespOk, 179, On(Anticlockwise))
    requires g.system.queue == [AppEvent(HomeActivity)] && g.system.service.NotServing? && g.sinceHome == 0
    ensures var q := g.(system := ServeFront(g.system));
            JustPulsed(q) && q.system.journal == g.system.journal
  {
    ServingEvent(g.system, HomeActivity);
    hide ServeFront, Consistent;
  }

  /**
   So no bound holds without the condition: with pulses exactly 180 counted edges apart, each where position 179 is
   reached, there are runs of any number of revolutions with every event handled, no wake-up lost, and no answer.
   */
  lemma {:induction false} NoBoundWithPulsesInTheGap(p: Plant, n: nat) returns (run: seq<Motion>)
    requires JustPulsed(p)
    ensures Spaced(p, run)
    ensures var q := MoveAll(p, run);
            JustPulsed(q) && q.edges == p.edges + 180 * n && q.system.journal == p.system.journal
  {
    run := [];
    if n == 0 {
    } else {
      hide JustPulsed, Spaced;
      var first := NoBoundWithPulsesInTheGap(p, n - 1);
      var more := RevolutionWithPulseInGap(MoveAll(p, first));
      MoveAllAppend(p, first, more);
      run := first + more;
    }
  }
}
