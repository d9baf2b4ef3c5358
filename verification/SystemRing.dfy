/**
 The event queue inside the whole system: module SystemModel keeps its queue as a plain sequence; here every run of
 the system, with interrupts between any two statements of the loop, is a run of the ring of module EventRing.
 */
module SystemRing {
  import opened Bytes
  import opened QuadratureEncoder
  import opened Receiver
  import opened Application
  import opened EventRing
  import opened SystemModel

  /** Where the system is in the loop of the ring. */
  function PhaseOf(v: Service): Phase {
    match v
    case NotServing => AtTest
    case Called => InHandler
    case PositionRead(_) => InHandler
    case Acted => InHandler
    case Released => TailIncremented
    case Wrapped => TailWrapped
  }

  /** The queue of the system as the queue of a ring. */
  function QueueOf(s: System): (x: Queue<Task>)
    requires ValidSystem(s)
    ensures Coherent(x)
  {
    Queue(s.queue, PhaseOf(s.service), s.tail, s.notFull)
  }

  lemma PutIsQueuePut(s: System, t: Task)
    requires ValidSystem(s) && JobsFit([t])
    ensures ValidSystem(PutTask(s, t)) && QueueOf(PutTask(s, t)) == QueuePut(QueueOf(s), t)
  {
  }

  /** What a move does to the queue: a put, a statement of the loop, or nothing. */
  function RingActs(s: System, m: Move): (acts: seq<Act<Task>>)
    requires ValidSystem(s)
    ensures |acts| <= 1
  {
    if PutOf(s, m).Some? then [PutEvent(PutOf(s, m).value)]
    else if m.MainLoop? && !s.service.Called? && !s.service.PositionRead? then [LoopStep]
    else []
  }

  function RunActs(s: System, moves: seq<Move>): seq<Act<Task>>
    requires ValidSystem(s)
  {
    if moves == [] then []
    else RunActs(s, moves[..|moves| - 1]) + RingActs(ApplyAll(s, moves[..|moves| - 1]), moves[|moves| - 1])
  }

  /** Each move does to the queue what the ring's queue does, refusals and overruns included. */
  lemma MoveIsQueueRun(s: System, m: Move)
    requires ValidSystem(s)
    ensures QueuePerformAll(QueueOf(s), RingActs(s, m)) == QueueOf(Apply(s, m))
  {
    if RingActs(s, m) != [] {
      QueuePerformAllOne(QueueOf(s), RingActs(s, m)[0]);
    }
    hide QueuePerformAll;
    match m {
      case MainLoop => StatementIsQueueRun(s);
      case EncoderIrq(i) => InterruptIsQueueRun(s.(encoder := Step(s.encoder, i)), PutOf(s, m));
      case ByteIrq(b) => InterruptIsQueueRun(s.(parser := Receive(s.parser, b).0), PutOf(s, m));
    }
  }

  lemma QueuePerformAllOne<T>(x: Queue<T>, a: Act<T>)
    requires Coherent(x)
    ensures QueuePerformAll(x, [a]) == QueuePerform(x, a)
  {
    assert [a][..0] == [];
  }

  lemma InterruptIsQueueRun(s: System, t: Option<Task>)
    requires ValidSystem(s) && (t.Some? ==> JobsFit([t.value]))
    ensures QueueOf(PutIf(s, t)) == if t.Some? then QueuePut(QueueOf(s), t.value) else QueueOf(s)
  {
    if t.Some? {
      PutIsQueuePut(s, t.value);
    }
  }

  lemma StatementIsQueueRun(s: System)
    requires ValidSystem(s)
    ensures QueueOf(MainStep(s))
         == if RingActs(s, MainLoop) == [] then QueueOf(s) else QueuePerform(QueueOf(s), RingActs(s, MainLoop)[0])
  {
    if s.service.PositionRead? {
      hide HandlerPut;
      ActIsQueueRun(s);
    } else {
      hide ActOn;
    }
  }

  lemma ActIsQueueRun(s: System)
    requires ValidSystem(s) && s.service.PositionRead?
    ensures var t := HandlerPut(s, s.service.position);
            QueueOf(MainStep(s)) == if t.Some? then QueuePut(QueueOf(s), t.value) else QueueOf(s)
  {
    hide HandlerPut, QueuePut, PutTask;
    var position := s.service.position;
    var acted := match s.queue[0]
      case PacketCheck(_) => s
      case AppEvent(event) => s.(journal := Record(s.journal, event, position));
    InterruptIsQueueRun(acted, HandlerPut(s, position));
  }

  lemma QueuePerformAllAppend<T>(x: Queue<T>, acts: seq<Act<T>>, more: seq<Act<T>>)
    requires Coherent(x) && |more| <= 1
    ensures QueuePerformAll(x, acts + more) == QueuePerformAll(QueuePerformAll(x, acts), more)
  {
    if more == [] {
      assert acts + more == acts;
    } else {
      assert (acts + more)[..|acts|] == acts && more[..0] == [];
    }
  }

  lemma {:induction false} RunIsQueueRun(s: System, moves: seq<Move>)
    requires ValidSystem(s)
    ensures QueuePerformAll(QueueOf(s), RunActs(s, moves)) == QueueOf(ApplyAll(s, moves))
  {
    if moves == [] {
    } else {
      hide Apply, RingActs, QueueOf, QueuePerformAll, Coherent;
      var n := |moves| - 1;
      var before := ApplyAll(s, moves[..n]);
      RunIsQueueRun(s, moves[..n]);
      MoveIsQueueRun(before, moves[n]);
      QueuePerformAllAppend(QueueOf(s), RunActs(s, moves[..n]), RingActs(before, moves[n]));
    }
  }

  /**
   The system runs on the ring: from a ring that shows the system's queue, every run of the system whatever is a run
   of the ring, after which the ring shows the system's queue and flag again and the loop is at the same statement.
   */
  lemma RunIsRingRun(s: System, moves: seq<Move>, m: Machine<Task>)
    requires ValidSystem(s) && ValidMachine(m) && m.phase == PhaseOf(s.service) && Shows(m.ring, QueueOf(s))
    ensures var r, t := PerformAll(m, RunActs(s, moves)), ApplyAll(s, moves);
            r.phase == PhaseOf(t.service) && Shows(r.ring, QueueOf(t))
  {
    hide ApplyAll, PerformAll, QueuePerformAll, RunActs, Shows;
    RunIsQueueRun(s, moves);
    RingIsQueue(m, QueueOf(s), RunActs(s, moves));
  }

  /** In particular from power-up, whose queue holds the event that starts the calibration. */
  lemma PowerUpRunsOnRing(e: Encoder, p: Parser, r: Ring<Task>, moves: seq<Move>)
    requires QuadratureEncoder.Valid(e) && Receiver.Valid(p)
    requires Represents(r, AtTest, [AppEvent(Internal)]) && r.tail == 0
    ensures var m := PerformAll(Machine(r, AtTest, [AppEvent(Internal)], []), RunActs(PowerUp(e, p), moves));
            Shows(m.ring, QueueOf(Reached(e, p, moves)))
  {
    hide ApplyAll, PerformAll, RunActs;
    RepresentsShows(r, AtTest, [AppEvent(Internal)]);
    RunIsRingRun(PowerUp(e, p), moves, Machine(r, AtTest, [AppEvent(Internal)], []));
  }

  // ---- runs without an overrun ----

  /** The system and the abstract first-in first-out queue are at the same point. */
  ghost predicate Follows(f: Fifo<Task>, s: System)
    requires ValidSystem(s)
  {
    ValidFifo(f) && f.q == s.queue && f.phase == PhaseOf(s.service)
  }

  /** On a ring that refines the abstract queue a put overruns exactly where the model says. */
  lemma RefinesAtBrink(s: System, m: Machine<Task>, f: Fifo<Task>)
    requires ValidSystem(s) && Follows(f, s) && Refines(m, f) && Shows(m.ring, QueueOf(s))
    ensures Overruns(m.ring, m.phase, |f.q|) <==> AtBrink(s)
    ensures EventRing.InWindow(PhaseOf(s.service)) && !s.notFull ==> |s.queue| == CAPACITY - 1
  {
  }

  lemma MoveKeepsFollowing(s: System, m: Move, r: Machine<Task>, f: Fifo<Task>)
    requires ValidSystem(s) && Follows(f, s) && ValidMachine(r) && Refines(r, f) && Shows(r.ring, QueueOf(s))
    requires !Apply(s, m).overrun
    ensures Follows(FifoPerformAll(f, RingActs(s, m)), Apply(s, m))
    ensures var acts := RingActs(s, m);
            acts != [] && acts[0].PutEvent? ==> !Overruns(r.ring, r.phase, |f.q|)
  {
    RefinesAtBrink(s, r, f);
    MoveIsQueueRun(s, m);
    if PutOf(s, m).Some? {
      NoOverrunNoBrink(s, m);
    }
    var acts := RingActs(s, m);
    if acts != [] {
      assert acts[..0] == [];
      assert FifoPerformAll(f, acts) == FifoPerform(f, acts[0]);
      QueuePerformAllOne(QueueOf(s), acts[0]);
      FifoIsQueue(QueueOf(s), f, acts[0]);
    }
    hide Apply, RingActs, FifoPerform, QueuePerform, Refines, Shows;
  }

  lemma NoOverrunNoBrink(s: System, m: Move)
    requires ValidSystem(s) && !Apply(s, m).overrun && PutOf(s, m).Some?
    ensures !AtBrink(s)
  {
    hide HandlerPut, Receive, Step;
  }

  /** Short of an overrun, and of what one leaves behind, the ring's queue is the abstract one. */
  lemma FifoIsQueue<T>(x: Queue<T>, f: Fifo<T>, a: Act<T>)
    requires Coherent(x) && ValidFifo(f) && f.q == x.events && f.phase == x.phase
    requires EventRing.InWindow(x.phase) && !x.notFull ==> |x.events| == CAPACITY - 1
    requires a.PutEvent? ==> !(EventRing.InWindow(x.phase) && x.notFull && |x.events| == CAPACITY - 1)
    ensures FifoPerform(f, a).q == QueuePerform(x, a).events && FifoPerform(f, a).phase == QueuePerform(x, a).phase
  {
  }

  lemma FifoPerformAllAppend<T>(f: Fifo<T>, acts: seq<Act<T>>, more: seq<Act<T>>)
    requires ValidFifo(f) && |more| <= 1
    ensures FifoPerformAll(f, acts + more) == FifoPerformAll(FifoPerformAll(f, acts), more)
  {
    if more == [] {
      assert acts + more == acts;
    } else {
      assert (acts + more)[..|acts|] == acts && more[..0] == [];
    }
  }

  lemma NoOverrunAppend<T>(m: Machine<T>, f: Fifo<T>, acts: seq<Act<T>>, more: seq<Act<T>>)
    requires ValidMachine(m) && ValidFifo(f) && NoOverrun(m, f, acts) && |more| <= 1
    requires more != [] && more[0].PutEvent? ==>
               var before := PerformAll(m, acts);
               !Overruns(before.ring, before.phase, |FifoPerformAll(f, acts).q|)
    ensures NoOverrun(m, f, acts + more)
  {
    forall i | 0 <= i < |acts + more| && (acts + more)[i].PutEvent?
      ensures var before := PerformAll(m, (acts + more)[..i]);
              !Overruns(before.ring, before.phase, |FifoPerformAll(f, (acts + more)[..i]).q|)
    {
      if i < |acts| {
        assert (acts + more)[i] == acts[i] && (acts + more)[..i] == acts[..i];
      } else {
        assert (acts + more)[i] == more[0] && (acts + more)[..i] == acts;
      }
    }
  }

  lemma {:induction false} RunFollows(s: System, moves: seq<Move>, m: Machine<Task>, f: Fifo<Task>)
    requires ValidSystem(s) && Follows(f, s) && ValidMachine(m) && Refines(m, f) && Shows(m.ring, QueueOf(s))
    requires !ApplyAll(s, moves).overrun
    ensures NoOverrun(m, f, RunActs(s, moves)) && Follows(FifoPerformAll(f, RunActs(s, moves)), ApplyAll(s, moves))
  {
    if moves == [] {
    } else {
      hide Apply, FifoPerform, FifoPerformAll, PerformAll, Perform, Shows, Represents, NoOverrun, Refines, QueueOf;
      hide Follows, RingActs;
      var n := |moves| - 1;
      var before, acts := ApplyAll(s, moves[..n]), RunActs(s, moves[..n]);
      OverrunLasts(before, moves[n]);
      RunFollows(s, moves[..n], m, f);
      RefinesPhase(m, f, s);
      RunIsRingRun(s, moves[..n], m);
      RingRefinesFifo(m, f, acts);
      MoveKeepsFollowing(before, moves[n], PerformAll(m, acts), FifoPerformAll(f, acts));
      NoOverrunAppend(m, f, acts, RingActs(before, moves[n]));
      FifoPerformAllAppend(f, acts, RingActs(before, moves[n]));
    }
  }

  lemma OverrunLasts(s: System, m: Move)
    requires ValidSystem(s)
    ensures s.overrun ==> Apply(s, m).overrun
  {
  }

  lemma RefinesPhase(m: Machine<Task>, f: Fifo<Task>, s: System)
    requires ValidSystem(s) && Refines(m, f) && Follows(f, s)
    ensures m.phase == PhaseOf(s.service) && ValidFifo(f)
  {
  }

  /**
   Without an overrun nothing is lost, duplicated or reordered: the tasks accepted in a run of the system are those
   whose handlers were called, followed by those still waiting.
   */
  lemma AcceptedAreCalledOrWaiting(s: System, moves: seq<Move>, m: Machine<Task>, f: Fifo<Task>)
    requires ValidSystem(s) && Follows(f, s) && ValidMachine(m) && Refines(m, f) && Shows(m.ring, QueueOf(s))
    requires !ApplyAll(s, moves).overrun
    ensures var r, t := PerformAll(m, RunActs(s, moves)), ApplyAll(s, moves);
            && Represents(r.ring, PhaseOf(t.service), t.queue)
            && r.accepted == r.handled + (if PhaseOf(t.service).InHandler? then t.queue[1..] else t.queue)
  {
    hide ApplyAll, PerformAll, FifoPerformAll, RunActs, Represents, Shows, QueueOf, NoOverrun;
    RunFollows(s, moves, m, f);
    RingRefinesFifo(m, f, RunActs(s, moves));
  }
}
