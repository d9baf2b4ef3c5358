/** The scheduler (components/scheduler) as it updates its static arrays in place. */
module Scheduler {
  import opened Bytes
  import opened EventRing

  const MAX_DATA: nat := 10

  /** One slot: the handler, the 10 byte data buffer, and how many of its bytes belong to the event. */
  datatype Slot<H> = Slot(handler: H, buffer: seq<Byte>, length: nat)

  /** The arguments of a put; no data stands for the null pointer. */
  datatype Request<H> = Request(data: Option<seq<Byte>>, size: nat, handler: H)

  predicate WellFormed<H>(q: Request<H>) {
    q.data.Some? ==> q.size <= |q.data.value|
  }

  /** What a put leaves in the slot: bytes past the new data, or all without data, are those of the last event. */
  function Filled<H>(prior: Slot<H>, q: Request<H>): (s: Slot<H>)
    requires WellFormed(q) && q.size <= MAX_DATA && |prior.buffer| == MAX_DATA
    ensures |s.buffer| == MAX_DATA
  {
    Slot(q.handler,
         if q.data.Some? && q.size > 0 then q.data.value[..q.size] + prior.buffer[q.size..] else prior.buffer,
         q.size)
  }

  /** Byte by byte: the new data in front, and behind them, or everywhere without data, what the slot held before. */
  lemma FilledBytes<H>(prior: Slot<H>, q: Request<H>, k: nat)
    requires WellFormed(q) && q.size <= 10 && |prior.buffer| == 10 && k < 10
    ensures var s := Filled(prior, q);
            && s.handler == q.handler && s.length == q.size && |s.buffer| == 10
            && (q.data.Some? && k < q.size ==> s.buffer[k] == q.data.value[k])
            && (q.data.None? || k >= q.size ==> s.buffer[k] == prior.buffer[k])
  {
  }

  datatype PutStatus = Success | InvalidLength | QueueFull

  /** The puts that happen during one iteration of the loop, by where they happen. */
  datatype Interference<H> = Interference(inHandler: seq<Request<H>>, afterIncrement: seq<Request<H>>,
                          afterWrap: seq<Request<H>>, afterFlag: seq<Request<H>>)

  function QuietInterference<H>(): Interference<H> {
    Interference([], [], [], [])
  }

  predicate AllWellFormed<H>(qs: seq<Request<H>>) {
    forall i :: 0 <= i < |qs| ==> WellFormed(qs[i])
  }

  predicate WellFormedInterference<H>(p: Interference<H>) {
    && AllWellFormed(p.inHandler) && AllWellFormed(p.afterIncrement)
    && AllWellFormed(p.afterWrap) && AllWellFormed(p.afterFlag)
  }

  // ---- the loop on values ----

  ghost predicate Sound<H>(r: Ring<Slot<H>>) {
    && |r.slots| == CAPACITY && r.head < CAPACITY && r.tail <= CAPACITY
    && forall i :: 0 <= i < CAPACITY ==> |r.slots[i].buffer| == MAX_DATA
  }

  ghost function PutRequest<H>(r: Ring<Slot<H>>, q: Request<H>): (s: Ring<Slot<H>>)
    requires Sound(r) && WellFormed(q)
    ensures Sound(s) && s.tail == r.tail
  {
    if q.size > MAX_DATA then r else Put(r, Filled(r.slots[r.head], q))
  }

  ghost function PutRequests<H>(r: Ring<Slot<H>>, qs: seq<Request<H>>): (s: Ring<Slot<H>>)
    requires Sound(r) && AllWellFormed(qs)
    ensures Sound(s) && s.tail == r.tail
  {
    if qs == [] then r else PutRequest(PutRequests(r, qs[..|qs| - 1]), qs[|qs| - 1])
  }

  /** The puts of a burst as acts of the ring machine; a put of an oversized event is none. */
  ghost function ActsOf<H>(r: Ring<Slot<H>>, qs: seq<Request<H>>): (acts: seq<Act<Slot<H>>>)
    requires Sound(r) && AllWellFormed(qs)
    ensures forall i :: 0 <= i < |acts| ==> acts[i].PutEvent?
  {
    if qs == [] then []
    else
      var n := |qs| - 1;
      var s := PutRequests(r, qs[..n]);
      ActsOf(r, qs[..n]) + (if qs[n].size > MAX_DATA then [] else [PutEvent(Filled(s.slots[s.head], qs[n]))])
  }

  lemma PerformAllAppend<T>(m: Machine<T>, acts: seq<Act<T>>, more: seq<Act<T>>)
    requires ValidMachine(m)
    ensures PerformAll(m, acts + more) == PerformAll(PerformAll(m, acts), more)
  {
    hide Perform;
    if more == [] {
      assert acts + more == acts;
    } else {
      var n := |more| - 1;
      PerformAllAppend(m, acts, more[..n]);
      assert (acts + more)[..|acts + more| - 1] == acts + more[..n];
    }
  }

  lemma PerformAllOne<T>(m: Machine<T>, a: Act<T>)
    requires ValidMachine(m)
    ensures PerformAll(m, [a]) == Perform(m, a)
  {
    assert [a][..0] == [];
  }

  /** The machine `m` is now at this ring and phase and has called these handlers. */
  ghost predicate At<T>(m: Machine<T>, r: Ring<T>, phase: Phase, handled: seq<T>) {
    m.ring == r && m.phase == phase && m.handled == handled
  }

  lemma {:induction false} BurstIsRun<H>(m: Machine<Slot<H>>, qs: seq<Request<H>>)
    requires ValidMachine(m) && Sound(m.ring) && AllWellFormed(qs)
    ensures At(PerformAll(m, ActsOf(m.ring, qs)), PutRequests(m.ring, qs), m.phase, m.handled)
  {
    if qs == [] {
    } else {
      var n := |qs| - 1;
      BurstIsRun(m, qs[..n]);
      if qs[n].size <= MAX_DATA {
        var s := PutRequests(m.ring, qs[..n]);
        var a := PutEvent(Filled(s.slots[s.head], qs[n]));
        PerformAllAppend(m, ActsOf(m.ring, qs[..n]), [a]);
        PerformAllOne(PerformAll(m, ActsOf(m.ring, qs[..n])), a);
      } else {
        assert ActsOf(m.ring, qs) == ActsOf(m.ring, qs[..n]);
      }
    }
  }

  /** One statement of the loop and the puts that follow it. */
  ghost function StepAndPut<H>(r: Ring<Slot<H>>, phase: Phase, qs: seq<Request<H>>): (s: Ring<Slot<H>>)
    requires Sound(r) && InBounds(r, phase) && AllWellFormed(qs)
    ensures Sound(s) && InBounds(s, Advance(r, phase).1)
  {
    PutRequests(Advance(r, phase).0, qs)
  }

  lemma StepAndPutIsRun<H>(m: Machine<Slot<H>>, qs: seq<Request<H>>) returns (acts: seq<Act<Slot<H>>>)
    requires ValidMachine(m) && Sound(m.ring) && AllWellFormed(qs)
    ensures At(PerformAll(m, acts), StepAndPut(m.ring, m.phase, qs), Advance(m.ring, m.phase).1,
               if m.phase.AtTest? && HasEvents(m.ring) then m.handled + [m.ring.slots[m.ring.tail]] else m.handled)
  {
    var next := Perform(m, LoopStep);
    PerformAllOne(m, LoopStep);
    BurstIsRun(next, qs);
    acts := [LoopStep] + ActsOf(next.ring, qs);
    PerformAllAppend(m, [LoopStep], ActsOf(next.ring, qs));
  }

  /** One iteration of the loop on a queue that has events. */
  ghost function Iteration<H>(r: Ring<Slot<H>>, env: Interference<H>): (s: Ring<Slot<H>>)
    requires Sound(r) && InBounds(r, AtTest) && HasEvents(r) && WellFormedInterference(env)
    ensures Sound(s) && InBounds(s, AtTest)
  {
    var r1 := StepAndPut(r, AtTest, env.inHandler);
    var r2 := StepAndPut(r1, InHandler, env.afterIncrement);
    var r3 := StepAndPut(r2, TailIncremented, env.afterWrap);
    StepAndPut(r3, TailWrapped, env.afterFlag)
  }

  /** An upper bound on the iterations to come when nothing is put any more. */
  ghost function Backlog<H>(r: Ring<Slot<H>>): nat
    requires Sound(r)
  {
    (if r.tail <= r.head then r.head - r.tail else r.head + CAPACITY - r.tail) + (if r.notFull then 0 else CAPACITY)
  }

  lemma QuietIterationShrinks<H>(r: Ring<Slot<H>>)
    requires Sound(r) && InBounds(r, AtTest) && HasEvents(r)
    ensures Backlog(Iteration(r, QuietInterference())) < Backlog(r)
  {
  }

  lemma IterationIsRun<H>(m: Machine<Slot<H>>, env: Interference<H>) returns (acts: seq<Act<Slot<H>>>)
    requires ValidMachine(m) && Sound(m.ring) && m.phase.AtTest? && HasEvents(m.ring) && WellFormedInterference(env)
    ensures At(PerformAll(m, acts), Iteration(m.ring, env), AtTest, m.handled + [m.ring.slots[m.ring.tail]])
  {
    var acts1 := StepAndPutIsRun(m, env.inHandler);
    var m1 := PerformAll(m, acts1);
    var acts2 := StepAndPutIsRun(m1, env.afterIncrement);
    var m2 := PerformAll(m1, acts2);
    var acts3 := StepAndPutIsRun(m2, env.afterWrap);
    var m3 := PerformAll(m2, acts3);
    var acts4 := StepAndPutIsRun(m3, env.afterFlag);
    acts := acts1 + acts2 + acts3 + acts4;
    PerformAllAppend(m, acts1 + acts2 + acts3, acts4);
    PerformAllAppend(m, acts1 + acts2, acts3);
    PerformAllAppend(m, acts1, acts2);
  }

  class Scheduler<H(0)> {
    const eventHandler: array<H>
    const dataBuffer: array<seq<Byte>>
    const dataLength: array<nat>
    var head: nat
    var tail: nat
    var isEmpty: bool
    ghost var ring: Ring<Slot<H>>  // the arrays and indices as one value

    ghost predicate Valid()
      reads this, eventHandler, dataBuffer, dataLength
    {
      && eventHandler.Length == dataBuffer.Length == dataLength.Length == |ring.slots| == CAPACITY
      && (eventHandler as object) != dataBuffer && (eventHandler as object) != dataLength
      && ring.head == head < CAPACITY && ring.tail == tail <= CAPACITY && ring.notFull == isEmpty
      && forall i :: 0 <= i < CAPACITY ==>
           && ring.slots[i] == Slot(eventHandler[i], dataBuffer[i], dataLength[i])
           && |dataBuffer[i]| == MAX_DATA
    }

    constructor (unset: H)
      ensures Valid() && fresh(eventHandler) && fresh(dataBuffer) && fresh(dataLength)
      ensures ring.head == ring.tail == 0 && ring.notFull
      ensures forall i :: 0 <= i < CAPACITY ==> ring.slots[i] == Slot(unset, seq(10, _ => 0), 0)
    {
      var blank: seq<Byte> := seq(MAX_DATA, _ => 0);
      eventHandler := new H[CAPACITY](_ => unset);
      dataBuffer := new seq<Byte>[CAPACITY](_ => blank);
      dataLength := new nat[CAPACITY](_ => 0);
      head, tail, isEmpty := 0, 0, true;
      ring := Ring(seq(CAPACITY, _ => Slot(unset, blank, 0)), 0, 0, true);
    }

    method Init()
      requires Valid()
      modifies this
      ensures Valid() && ring == old(ring).(head := 0, tail := 0, notFull := true)
    {
      head, tail, isEmpty := 0, 0, true;
      ring := ring.(head := 0, tail := 0, notFull := true);
    }

    method EventPut(q: Request<H>) returns (status: PutStatus)
      requires Valid() && WellFormed(q)
      modifies this`head, this`isEmpty, this`ring, eventHandler, dataBuffer, dataLength
      ensures Valid()
      ensures status == if q.size > 10 then InvalidLength else if old(isEmpty) then Success else QueueFull
      ensures ring == if q.size > MAX_DATA then old(ring) else Put(old(ring), Filled(old(ring).slots[old(head)], q))
    {
      if q.size <= MAX_DATA {
        if isEmpty {
          ring := Put(ring, Filled(ring.slots[head], q));
          if q.data.Some? && q.size != 0 {
            dataBuffer[head] := q.data.value[..q.size] + dataBuffer[head][q.size..];
          }
          eventHandler[head] := q.handler;
          dataLength[head] := q.size;
          head := head + 1;
          if head == CAPACITY {
            head := 0;
          }
          if head == tail {
            isEmpty := false;
          }
          status := Success;
        } else {
          status := QueueFull;
        }
      } else {
        status := InvalidLength;
      }
    }

    // The three statements of the loop after the call of the handler. Puts may come between them.

    method IncrementTail()
      requires Valid() && tail < CAPACITY
      modifies this`tail, this`ring
      ensures Valid() && ring == Advance(old(ring), InHandler).0
    {
      ring := Advance(ring, InHandler).0;
      tail := tail + 1;
    }

    method WrapTail()
      requires Valid() && 1 <= tail
      modifies this`tail, this`ring
      ensures Valid() && tail < CAPACITY && ring == Advance(old(ring), TailIncremented).0
    {
      ring := Advance(ring, TailIncremented).0;
      if tail == CAPACITY {
        tail := 0;
      }
    }

    method RaiseFlag()
      requires Valid() && tail < CAPACITY
      modifies this`isEmpty, this`ring
      ensures Valid() && ring == Advance(old(ring), TailWrapped).0
    {
      ring := Advance(ring, TailWrapped).0;
      isEmpty := true;
    }

    /** A burst of puts, as interrupts or a handler make them. */
    method EventPutAll(qs: seq<Request<H>>)
      requires Valid() && AllWellFormed(qs)
      modifies this`head, this`isEmpty, this`ring, eventHandler, dataBuffer, dataLength
      ensures Valid() && Sound(old(ring)) && ring == PutRequests(old(ring), qs)
    {
      assert qs[..0] == [];
      var k := 0;
      while k < |qs|
        invariant 0 <= k <= |qs| && Valid() && ring == PutRequests(old(ring), qs[..k])
      {
        var status := EventPut(qs[k]);
        k := k + 1;
        assert qs[..k][..k - 1] == qs[..k - 1];
      }
      assert qs[..k] == qs;
    }

    /** The body of the loop, with puts let in between all of its statements. */
    method Iterate(env: Interference<H>) returns (slot: Slot<H>)
      requires Valid() && tail < CAPACITY && HasEvents(ring) && WellFormedInterference(env)
      modifies this, eventHandler, dataBuffer, dataLength
      ensures Valid() && tail < CAPACITY && Sound(old(ring))
      ensures slot == old(ring).slots[old(tail)] && ring == Iteration(old(ring), env)
    {
      hide PutRequests;
      slot := Slot(eventHandler[tail], dataBuffer[tail], dataLength[tail]);
      EventPutAll(env.inHandler);
      IncrementTail();
      EventPutAll(env.afterIncrement);
      WrapTail();
      EventPutAll(env.afterWrap);
      RaiseFlag();
      EventPutAll(env.afterFlag);
    }

    /**
     The draining loop, which ends when its test finds the queue empty. The puts of `env` come in the first
     iterations and none after them. Whatever they are, loop and puts perform some run of the ring machine, from
     this ring to that one, calling these handlers.
     */
    method Execute(env: seq<Interference<H>>) returns (handled: seq<Slot<H>>, ghost acts: seq<Act<Slot<H>>>)
      requires Valid() && tail < CAPACITY
      requires forall i :: 0 <= i < |env| ==> WellFormedInterference(env[i])
      modifies this, eventHandler, dataBuffer, dataLength
      ensures Valid() && tail < CAPACITY && !HasEvents(ring)
      ensures At(PerformAll(Machine(old(ring), AtTest, [], []), acts), ring, AtTest, handled)
    {
      ghost var start := Machine(ring, AtTest, [], []);
      handled, acts := [], [];
      var i := 0;
      while head != tail || isEmpty == false
        invariant 0 <= i <= |env|
        invariant Valid() && tail < CAPACITY && At(PerformAll(start, acts), ring, AtTest, handled)
        decreases |env| - i, Backlog(ring)
      {
        var now := if i < |env| then env[i] else QuietInterference();
        ghost var more := IterationIsRun(PerformAll(start, acts), now);
        PerformAllAppend(start, acts, more);
        acts := acts + more;
        if i == |env| {
          QuietIterationShrinks(ring);
        }
        var slot := Iterate(now);
        handled := handled + [slot];
        i := if i < |env| then i + 1 else i;
      }
    }
  }
}
