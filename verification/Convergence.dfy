/** Convergence of the closed loop, over runs of the plant of module ClosedLoop. */
module Convergence {
  import opened Bytes
  import opened QuadratureEncoder
  import opened Shaft
  import opened Application
  import opened SystemModel
  import opened ClosedLoop

  lemma LastHome(run: seq<Motion>)
    requires run != []
    ensures HomePulse in run <==> HomePulse in run[..|run| - 1] || run[|run| - 1].HomePulse?
  {
    assert run == run[..|run| - 1] + [run[|run| - 1]];
  }

  lemma LossLasts(p: Plant, m: Motion)
    requires ValidPlant(p)
    ensures p.system.lost <= ClosedLoop.Move(p, m).system.lost
    ensures p.system.journal.answers <= ClosedLoop.Move(p, m).system.journal.answers
  {
  }

  /** Whatever happens, an answer once given stays given. */
  lemma {:induction false} AnswersAreKept(p: Plant, run: seq<Motion>)
    requires ValidPlant(p)
    ensures p.system.journal.answers <= MoveAll(p, run).system.journal.answers
  {
    if run == [] {
    } else {
      hide ClosedLoop.Move;
      var n := |run| - 1;
      AnswersAreKept(p, run[..n]);
      LossLasts(MoveAll(p, run[..n]), run[n]);
    }
  }

  lemma {:induction false} MoveAllParts(p: Plant, run: seq<Motion>, k: nat)
    requires ValidPlant(p) && k <= |run|
    ensures MoveAll(p, run) == MoveAll(MoveAll(p, run[..k]), run[k..])
  {
    hide ClosedLoop.Move;
    if k == |run| {
      assert run[..k] == run && run[k..] == [];
    } else {
      var n := |run| - 1;
      MoveAllParts(p, run[..n], k);
      assert run[..n][..k] == run[..k] && run[k..][..n - k] == run[..n][k..];
    }
  }

  lemma {:induction false} LossLastsInRun(p: Plant, run: seq<Motion>)
    requires ValidPlant(p)
    ensures p.system.lost <= MoveAll(p, run).system.lost
  {
    if run == [] {
    } else {
      hide ClosedLoop.Move;
      var n := |run| - 1;
      LossLastsInRun(p, run[..n]);
      LossLasts(MoveAll(p, run[..n]), run[n]);
    }
  }

  function QuarterSteps(run: seq<Motion>): nat {
    if run == [] then 0 else QuarterSteps(run[..|run| - 1]) + (if run[|run| - 1].QuarterStep? then 1 else 0)
  }

  /** A run that started out driving is still on its way, within the worst case. */
  ghost predicate OnCourse(p: Plant, target: nat, d: Direction, q: Plant, steps: nat, homed: bool)
    requires Driving(p, target, d)
  {
    && Undisturbed(p, q, target, d) && p.edges <= q.edges
    && q.edges + WorstCase(q, target, d) <= p.edges + WorstCase(p, target, d)
    && (!homed ==> q.edges + Remaining(q, target, d) == p.edges + Remaining(p, target, d))
    && (!homed && Sharp(p, target) ==> Sharp(q, target))
    && steps + StepsToCertainCount(q.at, d) <= StepsToCertainCount(p.at, d) + 4 * (q.edges - p.edges)
  }

  /** It has just been answered, within the worst case. */
  ghost predicate OnTarget(p: Plant, target: nat, d: Direction, q: Plant, homed: bool)
    requires Driving(p, target, d)
  {
    && Arrived(q, target, p.system.journal.answers)
    && q.edges - p.edges <= WorstCase(p, target, d)
    && (!homed && Sharp(p, target) ==>
          q.edges - p.edges == Remaining(p, target, d) && ShowsPosition(q.system.encoder, target))
  }

  lemma OnCourseStep(p: Plant, target: nat, d: Direction, q: Plant, steps: nat, homed: bool, m: Motion)
    requires Driving(p, target, d) && OnCourse(p, target, d, q, steps, homed)
    requires SpacedPulse(q, m) && InTime(q, m) && OfWake !in ClosedLoop.Move(q, m).system.lost
    ensures var r, quarters := ClosedLoop.Move(q, m), if m.QuarterStep? then steps + 1 else steps;
            var pulsed := homed || m.HomePulse?;
            OnCourse(p, target, d, r, quarters, pulsed) || OnTarget(p, target, d, r, pulsed)
  {
    hide Apply, Consistent, Awake, WorstLeft, EdgesLeft;
    match m
    case LoopStep => LoopWhileDriving(q, target, d);
    case ByteArrives(b) => ByteWhileDriving(q, target, d, b);
    case HomePulse => HomeWhileDriving(q, target, d);
    case QuarterStep => StepWhileDriving(q, target, d);
  }

  /** The command is answered by the first `k` motions of the run. */
  ghost predicate AnsweredAt(p: Plant, target: nat, d: Direction, run: seq<Motion>, k: nat)
    requires Driving(p, target, d)
  {
    k <= |run| && OnTarget(p, target, d, MoveAll(p, run[..k]), HomePulse in run[..k])
  }

  lemma {:induction false} DrivingStaysOnCourse(p: Plant, target: nat, d: Direction, run: seq<Motion>)
    requires Driving(p, target, d) && Regular(p, run) && OfWake !in MoveAll(p, run).system.lost
    ensures OnCourse(p, target, d, MoveAll(p, run), QuarterSteps(run), HomePulse in run)
         || exists k :: AnsweredAt(p, target, d, run, k)
  {
    assert ValidPlant(p);
    if run == [] {
      CourseStarts(p, target, d);
    } else {
      hide ClosedLoop.Move, OnCourse, OnTarget, SpacedPulse, InTime, Driving, ValidPlant, AnsweredAt;
      var n := |run| - 1;
      LossLasts(MoveAll(p, run[..n]), run[n]);
      DrivingStaysOnCourse(p, target, d, run[..n]);
      if k: nat :| AnsweredAt(p, target, d, run[..n], k) {
        AnsweredEarlier(p, target, d, run, k);
      } else {
        OnCourseStep(p, target, d, MoveAll(p, run[..n]), QuarterSteps(run[..n]), HomePulse in run[..n], run[n]);
        LastHome(run);
        AnsweredNow(p, target, d, run);
      }
    }
  }

  lemma CourseStarts(p: Plant, target: nat, d: Direction)
    requires Driving(p, target, d)
    ensures OnCourse(p, target, d, p, 0, false)
  {
  }

  lemma AnsweredEarlier(p: Plant, target: nat, d: Direction, run: seq<Motion>, k: nat)
    requires Driving(p, target, d) && run != [] && AnsweredAt(p, target, d, run[..|run| - 1], k)
    ensures AnsweredAt(p, target, d, run, k)
  {
    hide MoveAll, OnTarget;
    assert run[..|run| - 1][..k] == run[..k];
  }

  lemma AnsweredNow(p: Plant, target: nat, d: Direction, run: seq<Motion>)
    requires Driving(p, target, d)
    ensures OnTarget(p, target, d, MoveAll(p, run), HomePulse in run) ==> AnsweredAt(p, target, d, run, |run|)
  {
    hide MoveAll, OnTarget;
    assert run[..|run|] == run;
  }

  /**
   Convergence: from the moment a command drives the motor, on every regular run of quarter steps, home pulses, received
   bytes and loop steps in which no wake-up is lost,
   - the command is answered by some prefix of the run, once, with OK and its own angle, the motor off, and within the
     worst case, never more than 358 counted edges; or it is still under way with nothing answered, and the edges
     counted and the worst case of what is left together are within the worst case;
   - it is answered if the run has four quarter steps for each edge of the worst case and ends with no step or
     internal event unhandled;
   - if no home pulse intervenes, the answer comes after exactly the remaining count, with the encoder at the target.
   */
  lemma DrivingConverges(p: Plant, target: nat, d: Direction, run: seq<Motion>)
    requires Driving(p, target, d) && Regular(p, run) && OfWake !in MoveAll(p, run).system.lost
    ensures WorstCase(p, target, d) <= 358
    ensures var q := MoveAll(p, run);
            || (exists k :: AnsweredAt(p, target, d, run, k))
            || (&& Undisturbed(p, q, target, d)
                && q.edges - p.edges + WorstCase(q, target, d) <= WorstCase(p, target, d)
                && !(QuarterSteps(run) >= 4 * WorstCase(p, target, d) && Settled(q.system)))
  {
    DrivingStaysOnCourse(p, target, d, run);
    WorstCaseIsBounded(p, target, d);
    if OnCourse(p, target, d, MoveAll(p, run), QuarterSteps(run), HomePulse in run) {
      LateIsUnsettled(p, target, d, MoveAll(p, run), QuarterSteps(run), HomePulse in run);
    }
  }

  /** After four quarter steps for each edge of the worst case the target is reached, and a wake-up is unhandled. */
  lemma LateIsUnsettled(p: Plant, target: nat, d: Direction, q: Plant, steps: nat, homed: bool)
    requires Driving(p, target, d) && OnCourse(p, target, d, q, steps, homed)
    ensures steps >= 4 * WorstCase(p, target, d) ==> Remaining(q, target, d) == 0 && !Settled(q.system)
  {
    hide Consistent, Distance;
  }

  /** And it is answered by what is queued, as soon as the main loop gets to it. */
  lemma TargetIsAnswered(q: Plant, target: nat, d: Direction)
    requires Driving(q, target, d) && Remaining(q, target, d) == 0 && q.system.service.NotServing?
    ensures |q.system.journal.answers| < |q.system.journal.accepted|
    ensures q.system.journal.answers + [AnswerOwed(q.system)] <= Drain(q.system).journal.answers
  {
    WakeUpIsAnswered(q.system);
  }

  lemma {:induction false} StandingIsAnswered(p: Plant, target: nat, run: seq<Motion>) returns (k: nat)
    requires Standing(p, target) && Regular(p, run) && OfWake !in MoveAll(p, run).system.lost
    ensures k <= |run|
    ensures var q := MoveAll(p, run[..k]);
            || Arrived(q, target, p.system.journal.answers)
            || (k == |run| && Standing(q, target) && q.system.journal == p.system.journal)
  {
    if run == [] {
      k := 0;
    } else {
      hide ClosedLoop.Move, Standing, Arrived, SpacedPulse;
      var n := |run| - 1;
      LossLasts(MoveAll(p, run[..n]), run[n]);
      k := StandingIsAnswered(p, target, run[..n]);
      assert run[..n][..k] == run[..k] && run[..n + 1] == run;
      if !Arrived(MoveAll(p, run[..k]), target, p.system.journal.answers) {
        StandingStep(MoveAll(p, run[..n]), target, run[n]);
        k := n + 1;
      }
    }
  }

  /**
   Every command for an angle of the circle, accepted while the encoder stands where its handler has read it, is
   answered with OK and its own even angle, as the very next answer, on every regular run that is long enough and ends
   with no step or internal event unhandled; and the answer stays in the history.
   */
  lemma EveryCommandIsAnswered(p: Plant, position: nat, angle: nat, run: seq<Motion>) returns (k: nat)
    requires AboutToAccept(p, position, angle) && angle < 360 && p.system.encoder.position == position
    requires Regular(ClosedLoop.Move(p, LoopStep), run) && QuarterSteps(run) >= 4 * 358
    requires var q := MoveAll(ClosedLoop.Move(p, LoopStep), run); OfWake !in q.system.lost && Settled(q.system)
    ensures k <= |run| && Arrived(MoveAll(ClosedLoop.Move(p, LoopStep), run[..k]), angle / 2, p.system.journal.answers)
    ensures PositionToAngle(angle / 2) == angle - angle % 2
    ensures MoveAll(ClosedLoop.Move(p, LoopStep), run[..k]).system.journal.answers
         <= MoveAll(ClosedLoop.Move(p, LoopStep), run).system.journal.answers
  {
    hide ClosedLoop.Move, Settled, Standing, Regular;
    var q, target := ClosedLoop.Move(p, LoopStep), angle / 2;
    LossLastsInRun(q, run);
    if position == target {
      CommandStandsAtTarget(p, angle);
      k := StandingIsAnswered(q, target, run);
      if k == |run| && Standing(MoveAll(q, run[..k]), target) {
        assert run[..k] == run;
        StandingIsUnsettled(MoveAll(q, run), target);
      }
    } else {
      var d := if target > position then Anticlockwise else Clockwise;
      CommandStartsDriving(p, position, angle);
      DrivingConverges(q, target, d, run);
      k :| AnsweredAt(q, target, d, run, k);
    }
    MoveAllParts(q, run, k);
    AnswersAreKept(MoveAll(q, run[..k]), run[k..]);
  }
}
