/**
 The event queue (components/scheduler) as a ring of 50 slots whose fullness is one flag, drained by a loop
 that runs each handler on its slot in place. Interrupts may put events between any two steps of the loop.
 Each put is one atomic step.
 */
module EventRing {
  const CAPACITY: nat := 50

  /** `notFull` is the source's `is_empty` flag: it is cleared when a put makes head meet tail. */
  datatype Ring<T> = Ring(slots: seq<T>, head: nat, tail: nat, notFull: bool)

  /** Where the draining loop is: at its test, in a handler, after the tail increment, after the wrap of the tail. */
  datatype Phase = AtTest | InHandler | TailIncremented | TailWrapped

  predicate InBounds<T>(r: Ring<T>, phase: Phase) {
    && |r.slots| == CAPACITY
    && r.head < CAPACITY
    && (if phase.TailIncremented? then 1 <= r.tail <= CAPACITY else r.tail < CAPACITY)
  }

  function Put<T>(r: Ring<T>, e: T): (s: Ring<T>)
    requires |r.slots| == CAPACITY && r.head < CAPACITY
    ensures |s.slots| == CAPACITY && s.head < CAPACITY && s.tail == r.tail
  {
    if !r.notFull then r
    else
      var head := if r.head + 1 == CAPACITY then 0 else r.head + 1;
      Ring(r.slots[r.head := e], head, r.tail, head != r.tail)
  }

  predicate HasEvents<T>(r: Ring<T>) {
    r.head != r.tail || !r.notFull
  }

  /** The next statement of the loop: test and call, increment the tail, wrap it, set the flag. */
  function Advance<T>(r: Ring<T>, phase: Phase): (s: (Ring<T>, Phase))
    requires InBounds(r, phase)
    ensures InBounds(s.0, s.1)
  {
    match phase
    case AtTest => if HasEvents(r) then (r, InHandler) else (r, AtTest)
    case InHandler => (r.(tail := r.tail + 1), TailIncremented)
    case TailIncremented => (r.(tail := if r.tail == CAPACITY then 0 else r.tail), TailWrapped)
    case TailWrapped => (r.(notFull := true), AtTest)
  }

  // ---- the queue a ring stands for ----

  function SlotAt(tail: nat, i: nat): nat {
    if tail + i < CAPACITY then tail + i else tail + i - CAPACITY
  }

  /** The events between tail and head, oldest first. */
  ghost predicate HoldsEvents<T>(r: Ring<T>, q: seq<T>)
    requires |r.slots| == CAPACITY && r.tail <= CAPACITY && |q| <= CAPACITY
  {
    var tail := if r.tail == CAPACITY then 0 else r.tail;
    && r.head == SlotAt(tail, |q|)
    && forall i :: 0 <= i < |q| ==> q[i] == r.slots[SlotAt(tail, i)]
  }

  /**
   Ring `r` in phase `phase` stands for the queue `q`, oldest first. Until the tail moves the event being
   handled is still part of `q`. While its slot is being given up, `q` has at most 49 events.
   */
  ghost predicate Represents<T>(r: Ring<T>, phase: Phase, q: seq<T>) {
    && InBounds(r, phase)
    && |q| <= CAPACITY
    && (phase.InHandler? ==> q != [])
    && (if phase.AtTest? || phase.InHandler?
        then r.notFull == (|q| < CAPACITY)
        else |q| < CAPACITY && (!r.notFull ==> |q| == CAPACITY - 1))
    && HoldsEvents(r, q)
  }

  lemma AdvanceRepresents<T>(r: Ring<T>, phase: Phase, q: seq<T>)
    requires Represents(r, phase, q)
    ensures phase.AtTest? ==> (HasEvents(r) <==> q != [])
    ensures var (s, next) := Advance(r, phase);
            Represents(s, next, if phase.InHandler? then q[1..] else q)
  {
    if phase.InHandler? {
      var t := r.tail + 1;
      var tail := if t == CAPACITY then 0 else t;
      assert forall i :: 0 <= i < |q| - 1 ==> SlotAt(tail, i) == SlotAt(r.tail, i + 1);
    }
  }

  /** The places that are taken: the events waiting, and the slot of the handled event until the loop starts over. */
  function Taken(phase: Phase, n: nat): nat {
    if phase.TailIncremented? || phase.TailWrapped? then n + 1 else n
  }

  /**
   The one way to break the queue: a put between the tail increment and the write of the flag that is
   accepted although it takes the fiftieth place.
   */
  predicate Overruns<T>(r: Ring<T>, phase: Phase, n: nat) {
    (phase.TailIncremented? || phase.TailWrapped?) && r.notFull && n == CAPACITY - 1
  }

  lemma PutRepresents<T>(r: Ring<T>, phase: Phase, q: seq<T>, e: T)
    requires Represents(r, phase, q) && !Overruns(r, phase, |q|)
    ensures r.notFull <==> Taken(phase, |q|) < CAPACITY
    ensures Represents(Put(r, e), phase, if r.notFull then q + [e] else q)
    ensures r.notFull && (phase.TailIncremented? || phase.TailWrapped?) ==> Put(r, e).notFull
  {
    if r.notFull {
      var tail := if r.tail == CAPACITY then 0 else r.tail;
      assert forall i :: 0 <= i < |q| ==> SlotAt(tail, i) != r.head;
    }
  }

  // ---- whole runs ----

  /** One step of a run: somebody (an interrupt or a handler) puts an event, or the loop advances. */
  datatype Act<T> = PutEvent(e: T) | LoopStep

  /** The ring with the events accepted so far and the events whose handler was called so far, both in order. */
  datatype Machine<T> = Machine(ring: Ring<T>, phase: Phase, accepted: seq<T>, handled: seq<T>)

  ghost predicate ValidMachine<T>(m: Machine<T>) {
    InBounds(m.ring, m.phase)
  }

  function Perform<T>(m: Machine<T>, a: Act<T>): (r: Machine<T>)
    requires ValidMachine(m)
    ensures ValidMachine(r)
  {
    match a
    case PutEvent(e) =>
      m.(ring := Put(m.ring, e), accepted := if m.ring.notFull then m.accepted + [e] else m.accepted)
    case LoopStep =>
      var (ring, phase) := Advance(m.ring, m.phase);
      Machine(ring, phase, m.accepted,
              if m.phase.AtTest? && phase.InHandler? then m.handled + [ring.slots[ring.tail]] else m.handled)
  }

  function PerformAll<T>(m: Machine<T>, acts: seq<Act<T>>): (r: Machine<T>)
    requires ValidMachine(m)
    ensures ValidMachine(r)
  {
    if acts == [] then m else Perform(PerformAll(m, acts[..|acts| - 1]), acts[|acts| - 1])
  }

  /** First in first out, with 50 places; the handled event keeps its place until the loop starts over. */
  datatype Fifo<T> = Fifo(q: seq<T>, phase: Phase, accepted: seq<T>, handled: seq<T>)

  ghost predicate ValidFifo<T>(f: Fifo<T>) {
    |f.q| <= CAPACITY && (f.phase.InHandler? ==> f.q != [])
  }

  function FifoPerform<T>(f: Fifo<T>, a: Act<T>): (r: Fifo<T>)
    requires ValidFifo(f)
    ensures ValidFifo(r)
  {
    match a
    case PutEvent(e) =>
      if Taken(f.phase, |f.q|) < CAPACITY then f.(q := f.q + [e], accepted := f.accepted + [e]) else f
    case LoopStep =>
      match f.phase
      case AtTest => if f.q == [] then f else f.(phase := InHandler, handled := f.handled + [f.q[0]])
      case InHandler => f.(phase := TailIncremented, q := f.q[1..])
      case TailIncremented => f.(phase := TailWrapped)
      case TailWrapped => f.(phase := AtTest)
  }

  function FifoPerformAll<T>(f: Fifo<T>, acts: seq<Act<T>>): (r: Fifo<T>)
    requires ValidFifo(f)
    ensures ValidFifo(r)
  {
    if acts == [] then f else FifoPerform(FifoPerformAll(f, acts[..|acts| - 1]), acts[|acts| - 1])
  }

  /** The accepted events whose handler has not been called. */
  function Waiting<T>(f: Fifo<T>): seq<T>
    requires ValidFifo(f)
  {
    if f.phase.InHandler? then f.q[1..] else f.q
  }

  ghost predicate Refines<T>(m: Machine<T>, f: Fifo<T>) {
    && ValidFifo(f)
    && Represents(m.ring, m.phase, f.q)
    && m.phase == f.phase && m.accepted == f.accepted && m.handled == f.handled
    && f.accepted == f.handled + Waiting(f)
  }

  /** No put of the run overruns the queue. */
  ghost predicate NoOverrun<T>(m: Machine<T>, f: Fifo<T>, acts: seq<Act<T>>)
    requires ValidMachine(m) && ValidFifo(f)
  {
    forall i :: 0 <= i < |acts| && acts[i].PutEvent? ==>
      var before := PerformAll(m, acts[..i]);
      !Overruns(before.ring, before.phase, |FifoPerformAll(f, acts[..i]).q|)
  }

  lemma PerformRefines<T>(m: Machine<T>, f: Fifo<T>, a: Act<T>)
    requires Refines(m, f)
    requires a.PutEvent? ==> !Overruns(m.ring, m.phase, |f.q|)
    ensures Refines(Perform(m, a), FifoPerform(f, a))
    ensures a.PutEvent? ==> (m.ring.notFull <==> Taken(f.phase, |f.q|) < CAPACITY)
  {
    if a.PutEvent? {
      PutRepresents(m.ring, m.phase, f.q, a.e);
      if m.ring.notFull {
        assert Waiting(FifoPerform(f, a)) == Waiting(f) + [a.e];
        assert f.accepted + [a.e] == f.handled + (Waiting(f) + [a.e]);
      }
    } else {
      LoopStepRefines(m, f);
    }
  }

  lemma LoopStepRefines<T>(m: Machine<T>, f: Fifo<T>)
    requires Refines(m, f)
    ensures Refines(Perform(m, LoopStep), FifoPerform(f, LoopStep))
  {
    AdvanceRepresents(m.ring, m.phase, f.q);
    if m.phase.AtTest? && f.q != [] {
      CallRefines(m, f);
    } else {
      hide Represents;
      assert Waiting(FifoPerform(f, LoopStep)) == Waiting(f);
    }
  }

  lemma CallRefines<T>(m: Machine<T>, f: Fifo<T>)
    requires Refines(m, f) && m.phase.AtTest? && f.q != []
    ensures Refines(Perform(m, LoopStep), FifoPerform(f, LoopStep))
  {
    assert SlotAt(m.ring.tail, 0) == m.ring.tail;
    assert m.ring.slots[m.ring.tail] == f.q[0];
    assert f.handled + f.q == (f.handled + [f.q[0]]) + f.q[1..];
  }

  /**
   Interrupted queue: whatever puts arrive between any two steps of the loop, as long as none overruns, the
   ring is the abstract queue. In particular the accepted events are the handled ones followed by the waiting
   ones: none is lost, duplicated or reordered.
   */
  lemma {:induction false} RingRefinesFifo<T>(m: Machine<T>, f: Fifo<T>, acts: seq<Act<T>>)
    requires ValidMachine(m) && Refines(m, f) && NoOverrun(m, f, acts)
    ensures Refines(PerformAll(m, acts), FifoPerformAll(f, acts))
    ensures var r := PerformAll(m, acts); r.accepted == r.handled + Waiting(FifoPerformAll(f, acts))
  {
    hide Represents, Perform, FifoPerform;
    if acts == [] {
    } else {
      var n := |acts| - 1;
      assert forall i :: 0 <= i < n ==> acts[..n][i] == acts[i] && acts[..n][..i] == acts[..i];
      RingRefinesFifo(m, f, acts[..n]);
      PerformRefines(PerformAll(m, acts[..n]), FifoPerformAll(f, acts[..n]), acts[n]);
    }
  }

  lemma EmptyRingRefines<T>(r: Ring<T>)
    requires |r.slots| == CAPACITY && r.head == r.tail == 0 && r.notFull
    ensures Represents(r, AtTest, [])
    ensures Refines(Machine(r, AtTest, [], []), Fifo([], AtTest, [], []))
  {
  }

  function PutAll<T>(r: Ring<T>, es: seq<T>): (s: Ring<T>)
    requires |r.slots| == CAPACITY && r.head < CAPACITY
    ensures |s.slots| == CAPACITY && s.head < CAPACITY && s.tail == r.tail
  {
    if es == [] then r else Put(PutAll(r, es[..|es| - 1]), es[|es| - 1])
  }

  /** A put during a handler leaves the slot at the tail, which holds the front event, alone. */
  lemma PutKeepsFront<T>(r: Ring<T>, q: seq<T>, e: T)
    requires Represents(r, InHandler, q)
    ensures Put(r, e).slots[r.tail] == r.slots[r.tail] == q[0]
    ensures Represents(Put(r, e), InHandler, if r.notFull then q + [e] else q)
  {
    PutRepresents(r, InHandler, q, e);
    assert SlotAt(r.tail, 0) == r.tail;
  }

  /** The events put during a handler that are accepted. */
  lemma {:induction false} PutsKeepFront<T>(r: Ring<T>, q: seq<T>, es: seq<T>) returns (more: seq<T>)
    requires Represents(r, InHandler, q)
    ensures PutAll(r, es).slots[r.tail] == r.slots[r.tail] == q[0]
    ensures Represents(PutAll(r, es), InHandler, q + more)
  {
    if es == [] {
      more := [];
      assert q + [] == q;
      assert SlotAt(r.tail, 0) == r.tail;
    } else {
      var n := |es| - 1;
      more := PutsKeepFront(r, q, es[..n]);
      var s := PutAll(r, es[..n]);
      PutKeepsFront(s, q + more, es[n]);
      hide Represents, Put;
      if s.notFull {
        assert (q + more) + [es[n]] == q + (more + [es[n]]);
        more := more + [es[n]];
      }
    }
  }

  /** While a handler runs, its slot does not change, whatever the handler and the interrupts put. */
  lemma SlotIsStableInHandler<T>(r: Ring<T>, q: seq<T>, es: seq<T>)
    requires Represents(r, InHandler, q)
    ensures PutAll(r, es).tail == r.tail && PutAll(r, es).slots[r.tail] == r.slots[r.tail] == q[0]
    ensures exists more :: Represents(PutAll(r, es), InHandler, q + more)
  {
    var more := PutsKeepFront(r, q, es);
  }

  lemma {:induction false} PutsAtTest<T>(r: Ring<T>, q: seq<T>, es: seq<T>)
    requires Represents(r, AtTest, q) && |q| + |es| <= CAPACITY
    ensures Represents(PutAll(r, es), AtTest, q + es)
  {
    if es == [] {
      assert q + es == q;
    } else {
      var n := |es| - 1;
      PutsAtTest(r, q, es[..n]);
      PutRepresents(PutAll(r, es[..n]), AtTest, q + es[..n], es[n]);
      assert (q + es[..n]) + [es[n]] == q + es;
    }
  }

  /** An empty queue takes fifty events, the fiftieth included, and refuses the next. */
  lemma FiftyPlaces<T>(r: Ring<T>, es: seq<T>, e: T)
    requires Represents(r, AtTest, []) && |es| == 50
    ensures PutAll(r, es[..49]).notFull && Represents(PutAll(r, es), AtTest, es)
    ensures Put(PutAll(r, es), e) == PutAll(r, es)
  {
    PutsAtTest(r, [], es[..49]);
    PutsAtTest(r, [], es);
    assert [] + es == es && [] + es[..49] == es[..49];
  }

  // ---- the exact condition on puts while a slot is given up ----

  /** Tail incremented, some puts, tail wrapped, some more puts, flag written. */
  function ThroughWindow<T>(r: Ring<T>, early: seq<T>, late: seq<T>): (s: Ring<T>)
    requires InBounds(r, TailIncremented)
    ensures InBounds(s, AtTest)
  {
    var wrapped := Advance(PutAll(r, early), TailIncremented).0;
    Advance(PutAll(wrapped, late), TailWrapped).0
  }

  lemma {:induction false} WindowPuts<T>(r: Ring<T>, phase: Phase, q: seq<T>, es: seq<T>)
    requires InBounds(r, phase) && (phase.TailIncremented? || phase.TailWrapped?)
    requires Represents(r, phase, q) && r.notFull && |q| + |es| < CAPACITY
    ensures Represents(PutAll(r, es), phase, q + es) && PutAll(r, es).notFull
  {
    hide Represents, Put;
    if es == [] {
      assert q + es == q;
    } else {
      var n := |es| - 1;
      WindowPuts(r, phase, q, es[..n]);
      PutRepresents(PutAll(r, es[..n]), phase, q + es[..n], es[n]);
      assert (q + es[..n]) + [es[n]] == q + es;
    }
  }

  /**
   Exact condition: the events put while the slot is given up join the queue if and only if at most 49 events
   are then waiting.
   */
  lemma WindowIsSafeIff<T>(r: Ring<T>, q: seq<T>, early: seq<T>, late: seq<T>)
    requires Represents(r, TailIncremented, q) && r.notFull
    ensures Represents(ThroughWindow(r, early, late), AtTest, q + early + late)
       <==> |q| + |early| + |late| < CAPACITY
  {
    if |q| + |early| + |late| < CAPACITY {
      var s := PutAll(r, early);
      WindowPuts(r, TailIncremented, q, early);
      AdvanceRepresents(s, TailIncremented, q + early);
      var t := Advance(s, TailIncremented).0;
      WindowPuts(t, TailWrapped, q + early, late);
      AdvanceRepresents(PutAll(t, late), TailWrapped, q + early + late);
    }
  }

  /** A single put can never break this: when the window opens it has room for one more, or the flag is down. */
  lemma WindowAdmitsOnePut<T>(r: Ring<T>, q: seq<T>)
    requires Represents(r, InHandler, q)
    ensures !Overruns(Advance(r, InHandler).0, TailIncremented, |q| - 1)
  {
  }

  /** If the queue was full, every put in the window is refused and nothing is lost. */
  lemma {:induction false} FullWindowRefuses<T>(r: Ring<T>, es: seq<T>)
    requires |r.slots| == CAPACITY && r.head < CAPACITY && !r.notFull
    ensures PutAll(r, es) == r
  {
    if es == [] {
    } else {
      FullWindowRefuses(r, es[..|es| - 1]);
    }
  }

  // ---- the queue a ring really is, overruns included ----

  /** The waiting events with the fullness flag and the tail, on which the effect of an overrun depends. */
  datatype Queue<T> = Queue(events: seq<T>, phase: Phase, tail: nat, notFull: bool)

  predicate InWindow(phase: Phase) {
    phase.TailIncremented? || phase.TailWrapped?
  }

  predicate Coherent<T>(x: Queue<T>) {
    && (x.phase.InHandler? ==> x.events != [])
    && (if InWindow(x.phase)
        then |x.events| < CAPACITY && (x.notFull || |x.events| == CAPACITY - 1 || x.events == [])
        else |x.events| <= CAPACITY && x.notFull == (|x.events| < CAPACITY))
    && (if x.phase.TailIncremented? then 1 <= x.tail <= CAPACITY else x.tail < CAPACITY)
  }

  /**
   A put. In the window one that takes the fiftieth place makes head meet tail: everything queued is lost, with the
   event itself, and the flag is lowered unless the tail still stands at 50.
   */
  function QueuePut<T>(x: Queue<T>, e: T): (y: Queue<T>)
    requires Coherent(x)
    ensures Coherent(y)
  {
    if !x.notFull then x
    else if InWindow(x.phase) && |x.events| == CAPACITY - 1 then x.(events := [], notFull := x.tail == CAPACITY)
    else x.(events := x.events + [e], notFull := InWindow(x.phase) || |x.events| + 1 < CAPACITY)
  }

  function QueueAdvance<T>(x: Queue<T>): (y: Queue<T>)
    requires Coherent(x)
    ensures Coherent(y)
  {
    match x.phase
    case AtTest => if x.events == [] then x else x.(phase := InHandler)
    case InHandler => Queue(x.events[1..], TailIncremented, x.tail + 1, x.notFull)
    case TailIncremented => x.(phase := TailWrapped, tail := if x.tail == CAPACITY then 0 else x.tail)
    case TailWrapped => x.(phase := AtTest, notFull := true)
  }

  function QueuePerform<T>(x: Queue<T>, a: Act<T>): (y: Queue<T>)
    requires Coherent(x)
    ensures Coherent(y)
  {
    match a
    case PutEvent(e) => QueuePut(x, e)
    case LoopStep => QueueAdvance(x)
  }

  function QueuePerformAll<T>(x: Queue<T>, acts: seq<Act<T>>): (y: Queue<T>)
    requires Coherent(x)
    ensures Coherent(y)
  {
    if acts == [] then x else QueuePerform(QueuePerformAll(x, acts[..|acts| - 1]), acts[|acts| - 1])
  }

  ghost predicate Shows<T>(r: Ring<T>, x: Queue<T>) {
    && Coherent(x) && InBounds(r, x.phase) && r.tail == x.tail && r.notFull == x.notFull
    && HoldsEvents(r, x.events)
  }

  lemma RepresentsShows<T>(r: Ring<T>, phase: Phase, q: seq<T>)
    requires Represents(r, phase, q)
    ensures var x := Queue(q, phase, r.tail, r.notFull); Coherent(x) && Shows(r, x)
  {
  }

  lemma EmptyRingShows<T>(r: Ring<T>)
    requires |r.slots| == CAPACITY && r.head == r.tail == 0 && r.notFull
    ensures Shows(r, Queue([], AtTest, 0, true))
  {
  }

  lemma PutShows<T>(r: Ring<T>, x: Queue<T>, e: T)
    requires Shows(r, x)
    ensures Shows(Put(r, e), QueuePut(x, e))
  {
    if r.notFull {
      var tail := if r.tail == CAPACITY then 0 else r.tail;
      assert forall i :: 0 <= i < |x.events| ==> SlotAt(tail, i) != r.head;
    }
  }

  lemma AdvanceShows<T>(r: Ring<T>, x: Queue<T>)
    requires Shows(r, x)
    ensures x.phase.AtTest? ==> (HasEvents(r) <==> x.events != [])
    ensures x.phase.AtTest? && x.events != [] ==> r.slots[r.tail] == x.events[0]
    ensures Advance(r, x.phase).1 == QueueAdvance(x).phase && Shows(Advance(r, x.phase).0, QueueAdvance(x))
  {
    if x.phase.InHandler? {
      var t := r.tail + 1;
      var tail := if t == CAPACITY then 0 else t;
      assert forall i :: 0 <= i < |x.events| - 1 ==> SlotAt(tail, i) == SlotAt(r.tail, i + 1);
    } else if x.phase.AtTest? && x.events != [] {
      assert SlotAt(r.tail, 0) == r.tail;
    }
  }

  /** The ring is this queue over every run whatever, with no condition on the puts. */
  lemma {:induction false} RingIsQueue<T>(m: Machine<T>, x: Queue<T>, acts: seq<Act<T>>)
    requires ValidMachine(m) && m.phase == x.phase && Shows(m.ring, x)
    ensures var r, y := PerformAll(m, acts), QueuePerformAll(x, acts);
            r.phase == y.phase && Shows(r.ring, y)
  {
    if acts == [] {
    } else {
      hide Shows, Put, Advance, QueuePut, QueueAdvance;
      var n := |acts| - 1;
      RingIsQueue(m, x, acts[..n]);
      var r, y := PerformAll(m, acts[..n]), QueuePerformAll(x, acts[..n]);
      match acts[n]
      case PutEvent(e) => PutShows(r.ring, y, e);
      case LoopStep => AdvanceShows(r.ring, y);
    }
  }

  // ---- what an overrun leaves ----

  function QueuePutAll<T>(x: Queue<T>, es: seq<T>): (y: Queue<T>)
    requires Coherent(x)
    ensures Coherent(y) && y.phase == x.phase && y.tail == x.tail
  {
    if es == [] then x else QueuePut(QueuePutAll(x, es[..|es| - 1]), es[|es| - 1])
  }

  lemma {:induction false} PutAllShows<T>(r: Ring<T>, x: Queue<T>, es: seq<T>)
    requires Shows(r, x)
    ensures Shows(PutAll(r, es), QueuePutAll(x, es))
  {
    if es == [] {
    } else {
      hide Shows, Put, QueuePut;
      var n := |es| - 1;
      PutAllShows(r, x, es[..n]);
      PutShows(PutAll(r, es[..n]), QueuePutAll(x, es[..n]), es[n]);
    }
  }

  /** The window on the queue: puts, the wrap of the tail, more puts, the flag. */
  function QueueThroughWindow<T>(x: Queue<T>, early: seq<T>, late: seq<T>): (y: Queue<T>)
    requires Coherent(x) && x.phase.TailIncremented?
    ensures Coherent(y) && y.phase.AtTest?
  {
    QueueAdvance(QueuePutAll(QueueAdvance(QueuePutAll(x, early)), late))
  }

  lemma ThroughWindowShows<T>(r: Ring<T>, x: Queue<T>, early: seq<T>, late: seq<T>)
    requires InBounds(r, TailIncremented) && Coherent(x) && x.phase.TailIncremented? && Shows(r, x)
    ensures Shows(ThroughWindow(r, early, late), QueueThroughWindow(x, early, late))
  {
    hide Shows;
    PutAllShows(r, x, early);
    var s, y := PutAll(r, early), QueuePutAll(x, early);
    AdvanceShows(s, y);
    PutAllShows(Advance(s, TailIncremented).0, QueueAdvance(y), late);
    AdvanceShows(PutAll(Advance(s, TailIncremented).0, late), QueuePutAll(QueueAdvance(y), late));
  }

  /** Puts into an open window, by whether they reach the fiftieth place and whether the flag is lowered there. */
  lemma {:induction false} WindowPutAll<T>(x: Queue<T>, es: seq<T>)
    requires Coherent(x) && InWindow(x.phase)
    ensures !x.notFull ==> QueuePutAll(x, es) == x
    ensures x.notFull && |x.events| + |es| < CAPACITY ==> QueuePutAll(x, es) == x.(events := x.events + es)
    ensures x.notFull && CAPACITY <= |x.events| + |es| && x.tail < CAPACITY ==>
              QueuePutAll(x, es) == x.(events := [], notFull := false)
    ensures x.notFull && CAPACITY <= |x.events| + |es| < 2 * CAPACITY && x.tail == CAPACITY ==>
              QueuePutAll(x, es) == x.(events := es[CAPACITY - |x.events|..])
  {
    if es == [] {
      assert x.events + es == x.events;
    } else {
      var n := |es| - 1;
      WindowPutAll(x, es[..n]);
      assert es == es[..n] + [es[n]];
      assert (x.events + es[..n]) + [es[n]] == x.events + es;
      var k := CAPACITY - |x.events|;
      assert k < |es| ==> es[..n][k..] + [es[n]] == es[k..];
    }
  }

  /**
   Where the loss is total: if the fiftieth place is taken in the window while the tail is below 50, then whatever
   else is put in the window, the loop sees an empty queue afterwards.
   */
  lemma OverrunLosesEverything<T>(r: Ring<T>, q: seq<T>, early: seq<T>, late: seq<T>)
    requires Represents(r, TailIncremented, q) && r.notFull && CAPACITY <= |q| + |early| + |late|
    requires r.tail < CAPACITY || |q| + |early| < CAPACITY
    ensures !HasEvents(ThroughWindow(r, early, late))
  {
    hide QueuePutAll;
    var x := Queue(q, TailIncremented, r.tail, r.notFull);
    RepresentsShows(r, TailIncremented, q);
    ThroughWindowShows(r, x, early, late);
    WindowPutAll(x, early);
    WindowPutAll(QueueAdvance(QueuePutAll(x, early)), late);
    AdvanceShows(ThroughWindow(r, early, late), QueueThroughWindow(x, early, late));
  }

  /**
   With the tail transiently at 50 the overrunning put does not lower the flag, since the head wraps to 0: the puts
   that follow it are all that is left.
   */
  lemma TransientOverrunKeepsNewest<T>(r: Ring<T>, q: seq<T>, early: seq<T>, late: seq<T>)
    requires Represents(r, TailIncremented, q) && r.notFull && r.tail == CAPACITY
    requires CAPACITY <= |q| + |early| && |q| + |early| + |late| < 2 * CAPACITY
    ensures Shows(ThroughWindow(r, early, late), Queue(early[CAPACITY - |q|..] + late, AtTest, 0, true))
  {
    hide QueuePutAll, Shows;
    var x := Queue(q, TailIncremented, r.tail, r.notFull);
    RepresentsShows(r, TailIncremented, q);
    ThroughWindowShows(r, x, early, late);
    WindowPutAll(x, early);
    WindowPutAll(QueueAdvance(QueuePutAll(x, early)), late);
  }
}
