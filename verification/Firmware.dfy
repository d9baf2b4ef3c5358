/**
 The firmware put together: the scheduler's arrays, the packet driver, the encoder driver and the application
 as objects, with events as bytes in the slots. It implements every move of the transition system of module
 SystemModel, with interrupts between any two statements of the loop and inside its handlers.
 */
module Firmware {
  import opened Bytes
  import opened Packets
  import opened QuadratureEncoder
  import opened Receiver
  import opened Inbox
  import opened IpcDriver
  import opened EventRing
  import opened Scheduler
  import opened Application
  import opened SystemModel
  import opened SystemRing
  import EndToEnd

  /** The two handlers that are ever queued. */
  datatype Handler = Unset | PostProcessing | StateMachine

  // ---- tasks as bytes in a slot ----

  predicate Encodable(t: Task) {
    match t
    case PacketCheck(job) => job.size < 256
    case AppEvent(CmdRequest(_, angle)) => angle < 0x1_0000
    case AppEvent(_) => true
  }

  function EventBytes(e: Event): (s: seq<Byte>)
    requires e.CmdRequest? ==> e.angle < 0x1_0000
    ensures |s| == 4
  {
    match e
    case Internal => [0, 0, 0, 0]
    case CmdRequest(cmdType, angle) => [1, cmdType] + LittleEndian(angle)
    case StepActivity => [2, 0, 0, 0]
    case HomeActivity => [3, 0, 0, 0]
  }

  function EventIn(s: seq<Byte>): Event
    requires |s| == 4
  {
    if s[0] == 0 then Internal
    else if s[0] == 1 then CmdRequest(s[1], FromLittleEndian(s[2], s[3]))
    else if s[0] == 2 then StepActivity
    else HomeActivity
  }

  /** An event survives the slot it travels in. */
  lemma EventSurvivesSlot(e: Event)
    requires e.CmdRequest? ==> e.angle < 0x1_0000
    ensures EventIn(EventBytes(e)) == e
  {
  }

  /** The first byte of an event in its slot is its kind, and a command follows as it came in its packet. */
  lemma SlotLayout(e: Event, job: Job)
    requires e.CmdRequest? ==> e.angle < 0x1_0000
    requires job.size < 256
    ensures EventBytes(e)[0] == (match e case Internal => 0 case CmdRequest(_, _) => 1
                                         case StepActivity => 2 case HomeActivity => 3)
    ensures e.CmdRequest? ==> EventBytes(e)[1..] == [e.cmdType, e.angle % 256, e.angle / 256]
    ensures RequestOf(PacketCheck(job)).data == Some([job.size, job.crc])
    ensures RequestOf(PacketCheck(job)).handler.PostProcessing? && RequestOf(AppEvent(e)).handler.StateMachine?
  {
  }

  function RequestOf(t: Task): (q: Request<Handler>)
    requires Encodable(t)
    ensures WellFormed(q) && q.size <= MAX_DATA
  {
    match t
    case PacketCheck(job) => Request(Some([job.size, job.crc]), 2, PostProcessing)
    case AppEvent(event) => Request(Some(EventBytes(event)), 4, StateMachine)
  }

  /** The slot holds the task. */
  ghost predicate Holds(slot: Slot<Handler>, t: Task) {
    && Encodable(t) && slot.length <= |slot.buffer|
    && slot.handler == RequestOf(t).handler && slot.length == RequestOf(t).size
    && slot.buffer[..slot.length] == RequestOf(t).data.value
  }

  /** What the loop reads back from a slot. */
  lemma HeldTask(slot: Slot<Handler>, t: Task)
    requires Holds(slot, t)
    ensures slot.handler == PostProcessing <==> t.PacketCheck?
    ensures var data := slot.buffer[..slot.length];
            if t.PacketCheck? then |data| == 2 && Job(data[0], data[1]) == t.job
            else |data| == 4 && EventIn(data) == t.event
  {
    if t.AppEvent? {
      EventSurvivesSlot(t.event);
    }
  }

  lemma FilledHolds(prior: Slot<Handler>, t: Task)
    requires Encodable(t) && |prior.buffer| == MAX_DATA
    ensures Holds(Filled(prior, RequestOf(t)), t)
  {
  }

  ghost predicate AnswersFit(answers: seq<Answer>) {
    forall i :: 0 <= i < |answers| ==> answers[i].response.angle < 0x1_0000
  }

  /** Handling an event sends the bytes of its response, if it has one, after those of the earlier answers. */
  lemma RecordedAnswersAreSent(j: Journal, event: Event, position: nat)
    requires AnswersFit(j.answers)
    ensures var response, answers := Handle(j.app, event, position).response, Record(j, event, position).answers;
            && AnswersFit(answers)
            && (response.Some? ==> response.value.angle < 0x1_0000)
            && EndToEnd.ResponseStream(answers)
               == EndToEnd.ResponseStream(j.answers)
                  + (if response.Some? then Encode(ResponseBytes(response.value)) else [])
  {
    hide Handle;
    HandleShape(j.app, event, position);
    var response := Handle(j.app, event, position).response;
    if response.Some? {
      EndToEnd.ResponseStreamGrows(j.answers, Answer(response.value, position));
    }
  }

  /** The system of the static initialisers, before anything is queued. */
  function AtRest(): (s: System)
    ensures ValidSystem(s) && s.queue == [] && s.service.NotServing? && !s.encoder.homeSeen
    ensures s.encoder == POWER_UP && s.parser == FreshParser() && s.journal.app == POWER_UP_APP
    ensures s.tail == 0 && s.notFull && s.journal == POWER_UP_JOURNAL
    ensures s.journal.answers == [] && AnswersFit(s.journal.answers) && EndToEnd.ResponseStream(s.journal.answers) == []
  {
    PowerUp(POWER_UP, FreshParser()).(queue := [])
  }

  /** The initialisation of the scheduler, which forgets whatever interrupts have put by then. */
  function Reset(s: System): System {
    s.(queue := [], tail := 0, notFull := true, lost := {}, overrun := false)
  }

  // ---- interrupted statements of the main loop, on values ----

  predicate OnlyInterrupts(moves: seq<Move>) {
    forall i :: 0 <= i < |moves| ==> !moves[i].MainLoop?
  }

  /** The interrupts after each of `n` statements. */
  predicate IsEnvironment(env: seq<seq<Move>>, n: nat) {
    |env| == n && forall k :: 0 <= k < n ==> OnlyInterrupts(env[k])
  }

  /** One statement of the loop after the other, each followed by its interrupts. */
  function Statements(s: System, env: seq<seq<Move>>): (r: System)
    requires ValidSystem(s)
    ensures ValidSystem(r)
  {
    if env == [] then s else ApplyAll(MainStep(Statements(s, env[..|env| - 1])), env[|env| - 1])
  }

  function Interleaved(env: seq<seq<Move>>): seq<Move> {
    if env == [] then [] else Interleaved(env[..|env| - 1]) + ([MainLoop] + env[|env| - 1])
  }

  /** Interrupted statements are a run of the transition system. */
  lemma {:induction false} StatementsAreRun(s: System, env: seq<seq<Move>>)
    requires ValidSystem(s)
    ensures Statements(s, env) == ApplyAll(s, Interleaved(env))
  {
    if env == [] {
    } else {
      hide MainStep;
      var n := |env| - 1;
      var before := Statements(s, env[..n]);
      StatementsAreRun(s, env[..n]);
      ApplyAllOne(before, MainLoop);
      ApplyAllAppend(before, [MainLoop], env[n]);
      ApplyAllAppend(s, Interleaved(env[..n]), [MainLoop] + env[n]);
    }
  }

  lemma ThreeStatements(s: System, env: seq<seq<Move>>)
    requires ValidSystem(s) && |env| == 3
    ensures Statements(s, env)
         == ApplyAll(MainStep(ApplyAll(MainStep(ApplyAll(MainStep(s), env[0])), env[1])), env[2])
  {
    hide MainStep, ApplyAll;
    assert env[..2][..1] == env[..1] && env[..1][..0] == [];
    assert Statements(s, env[..1]) == ApplyAll(MainStep(s), env[0]);
    assert Statements(s, env[..2]) == ApplyAll(MainStep(Statements(s, env[..1])), env[1]);
  }

  lemma {:induction false} StatementsAppend(s: System, env: seq<seq<Move>>, more: seq<seq<Move>>)
    requires ValidSystem(s)
    ensures Statements(s, env + more) == Statements(Statements(s, env), more)
  {
    hide MainStep, ApplyAll;
    if more == [] {
      assert env + more == env;
    } else {
      var n := |more| - 1;
      StatementsAppend(s, env, more[..n]);
      assert (env + more)[..|env + more| - 1] == env + more[..n];
    }
  }

  const QUIET: seq<seq<Move>> := [[], [], [], [], [], []]

  lemma QuietStatements(s: System)
    requires ValidSystem(s) && s.service.NotServing? && s.queue != []
    ensures Statements(s, QUIET) == SystemModel.ServeFront(s)
  {
    hide MainStep, SystemModel.ServeFront;
    ServeFrontIsSixSteps(s);
    assert QUIET[..3] == QUIET[3..] == [[], [], []] && QUIET[..3] + QUIET[3..] == QUIET;
    ThreeStatements(s, QUIET[..3]);
    ThreeStatements(Statements(s, QUIET[..3]), QUIET[3..]);
    StatementsAppend(s, QUIET[..3], QUIET[3..]);
  }

  /** An iteration without interrupts brings the drained state closer. */
  lemma QuietProgress(s: System)
    requires ValidSystem(s) && s.service.NotServing? && s.queue != []
    ensures var r := Statements(s, QUIET);
            && r.service.NotServing? && TotalWeight(r.queue) < TotalWeight(s.queue)
            && Drain(r) == Drain(s) && Calls(s) == 1 + Calls(r)
  {
    QuietStatements(s);
    ServeFrontIsLighter(s);
    hide Statements, SystemModel.ServeFront;
  }

  lemma QuietIsEnvironment()
    ensures IsEnvironment(QUIET, 6)
  {
  }

  lemma {:induction false} InterruptsKeepService(s: System, moves: seq<Move>)
    requires ValidSystem(s) && OnlyInterrupts(moves)
    ensures ApplyAll(s, moves).service == s.service
  {
    if moves == [] {
    } else {
      var n := |moves| - 1;
      InterruptsKeepService(s, moves[..n]);
      InterruptKeepsService(ApplyAll(s, moves[..n]), moves[n]);
    }
  }

  lemma InterruptKeepsService(s: System, m: Move)
    requires ValidSystem(s) && !m.MainLoop?
    ensures Apply(s, m).service == s.service
  {
  }

  /** The slots in the ring hold the tasks in the model's queue. */
  ghost predicate HoldAll(slots: seq<Slot<Handler>>, q: seq<Task>) {
    |slots| == |q| && forall i :: 0 <= i < |slots| ==> Holds(slots[i], q[i])
  }

  /** A put does to the slots in the ring what it does to the model's queue. */
  lemma PutsAgree(s: System, slots: seq<Slot<Handler>>, t: Task, slot: Slot<Handler>)
    requires HoldAll(slots, s.queue) && Holds(slot, t)
    requires Coherent(Queue(slots, PhaseOf(s.service), s.tail, s.notFull))
    ensures var r, y := PutTask(s, t), QueuePut(Queue(slots, PhaseOf(s.service), s.tail, s.notFull), slot);
            HoldAll(y.events, r.queue) && y == Queue(y.events, PhaseOf(r.service), r.tail, r.notFull)
  {
    hide Holds;
  }

  class Firmware {
    const scheduler: Scheduler<Handler>
    const ipc: IpcReceiver
    const encoder: EncoderDriver
    const app: UserApplication
    var sent: seq<Byte>
    var at: Service  // the next statement of the main loop, with the position its handler has read
    ghost var model: System
    ghost var waiting: seq<Slot<Handler>>

    ghost const Repr: set<object>

    ghost predicate Separate()
    {
      && Repr == {this, scheduler, scheduler.eventHandler, scheduler.dataBuffer, scheduler.dataLength,
                  ipc, ipc.buffer, encoder, app}
      && (ipc.buffer as object) != scheduler.eventHandler && (ipc.buffer as object) != scheduler.dataBuffer
      && (ipc.buffer as object) != scheduler.dataLength
    }

    /** The ring shows the model's queue, flag and tail, and its slots hold the tasks. */
    ghost predicate QueueShown()
      reads this, scheduler, scheduler.eventHandler, scheduler.dataBuffer, scheduler.dataLength
    {
      && scheduler.Valid()
      && Shows(scheduler.ring, Queue(waiting, PhaseOf(model.service), model.tail, model.notFull))
      && HoldAll(waiting, model.queue)
    }

    /** The drivers and the loop are where the model has them. */
    ghost predicate DriversShown()
      reads this, ipc, ipc.buffer, encoder
    {
      && ValidSystem(model) && model.service == at
      && encoder.Ready() && model.encoder == encoder.View()
      && model.parser == ipc.View()
    }

    /** Application and sent bytes are those of the model. */
    ghost predicate AppShown()
      reads this, app
    {
      && model.journal.app == app.View()
      && AnswersFit(model.journal.answers) && sent == EndToEnd.ResponseStream(model.journal.answers)
    }

    ghost predicate Valid()
      reads Repr, this, scheduler, scheduler.eventHandler, scheduler.dataBuffer, scheduler.dataLength,
            ipc, ipc.buffer, encoder, app
    {
      Separate() && QueueShown() && DriversShown() && AppShown()
    }

    /** The static initialisers: everything empty and at rest. */
    constructor ()
      ensures Valid() && fresh(Repr) && model == AtRest()
    {
      hide Shows, Holds, AtRest, ValidSystem, FreshParser, AnswersFit, EndToEnd.ResponseStream;
      var s := new Scheduler<Handler>(Unset);
      var p := new IpcReceiver();
      var e := new EncoderDriver();
      var a := new UserApplication();
      scheduler, ipc, encoder, app := s, p, e, a;
      sent := [];
      at := NotServing;
      waiting := [];
      model := AtRest();
      Repr := {this, s, s.eventHandler, s.dataBuffer, s.dataLength, p, p.buffer, e, a};
      new;
      EmptyRingShows(scheduler.ring);
    }

    /** The end of the initialisation drops whatever is queued and puts the event that starts the calibration. */
    method Init()
      requires Valid() && at.NotServing?
      modifies Repr
      ensures Valid() && model == PutTask(Reset(old(model)), AppEvent(Internal))
      ensures old(model).journal == POWER_UP_JOURNAL ==> model == PowerUp(old(model).encoder, old(model).parser)
    {
      scheduler.Init();
      EmptyRingShows(scheduler.ring);
      waiting := [];
      model := Reset(model);
      Put(AppEvent(Internal));
    }

    /** A put by a handler or an interrupt, wherever the main loop is. */
    method Put(t: Task)
      requires Separate() && QueueShown() && DriversShown()
      requires Encodable(t) && JobsFit([t])
      modifies this`model, this`waiting, scheduler`head, scheduler`isEmpty, scheduler`ring,
               scheduler.eventHandler, scheduler.dataBuffer, scheduler.dataLength
      ensures QueueShown() && DriversShown() && model == PutTask(old(model), t)
    {
      hide Shows, Holds;
      PutInRing(t);
    }

    method PutInRing(t: Task)
      requires Separate() && QueueShown() && Encodable(t)
      modifies this`model, this`waiting, scheduler`head, scheduler`isEmpty, scheduler`ring,
               scheduler.eventHandler, scheduler.dataBuffer, scheduler.dataLength
      ensures QueueShown() && model == PutTask(old(model), t)
    {
      ghost var r := scheduler.ring;
      ghost var slot := Filled(r.slots[r.head], RequestOf(t));
      ghost var x := Queue(waiting, PhaseOf(model.service), model.tail, model.notFull);
      assert Coherent(x);
      PutShows(r, x, slot);
      FilledHolds(r.slots[r.head], t);
      PutsAgree(model, waiting, t, slot);
      hide Shows, Holds, EventRing.Put, QueuePut, PutTask, Coherent;
      var status := scheduler.EventPut(RequestOf(t));
      waiting := QueuePut(x, slot).events;
      model := PutTask(model, t);
    }

    // ---- interrupts, at any point of the main loop ----

    method EncoderInterrupt(i: Interrupt)
      requires Valid()
      modifies Repr
      ensures Valid() && model == Apply(old(model), EncoderIrq(i))
    {
      hide Shows, Holds;
      var stepActivity, homeActivity := MoveEncoder(i);
      if stepActivity {
        Put(AppEvent(StepActivity));
      } else if homeActivity {
        Put(AppEvent(HomeActivity));
      }
    }

    method MoveEncoder(i: Interrupt) returns (stepActivity: bool, homeActivity: bool)
      requires Separate() && DriversShown()
      modifies this`model, encoder
      ensures DriversShown()
      ensures model == old(model).(encoder := Step(old(model).encoder, i))
      ensures stepActivity <==> Count(old(model).encoder, i) != 0
      ensures homeActivity <==> IsHome(i)
    {
      stepActivity, homeActivity := encoder.TransitionsCallback(i);
      model := model.(encoder := Step(model.encoder, i));
    }

    method ByteInterrupt(b: Byte)
      requires Valid()
      modifies Repr
      ensures Valid() && model == Apply(old(model), ByteIrq(b))
    {
      hide Shows, Holds, Receive;
      var job := ipc.StateMachineEventHandler(b);
      model := model.(parser := Receive(model.parser, b).0);
      if job.Some? {
        Put(PacketCheck(job.value));
      }
    }

    // ---- the statements of the main loop ----

    /** The test of the loop, and the call of the handler on the slot at the tail. */
    method Test() returns (called: bool)
      requires Valid() && at.NotServing?
      modifies this`at, this`model
      ensures Valid() && model == MainStep(old(model)) && (called <==> old(model).queue != [])
      ensures called ==> at == Called
    {
      AdvanceShows(scheduler.ring, Queue(waiting, AtTest, model.tail, model.notFull));
      called := scheduler.head != scheduler.tail || scheduler.isEmpty == false;
      if called {
        at := Called;
        model := MainStep(model);
      }
    }

    method ReadPosition()
      requires Valid() && at.Called?
      modifies this`at, this`model
      ensures Valid() && model == MainStep(old(model)) && at.PositionRead?
    {
      hide Shows, Holds;
      var position := encoder.GetPosition();
      at := PositionRead(position);
      model := MainStep(model);
    }

    method RunHandler()
      requires Valid() && at.PositionRead?
      modifies Repr
      ensures Valid() && model == MainStep(old(model)) && at.Acted?
    {
      hide ActOn, Shows, Holds;
      Dispatch(at.position);
      at := Acted;
      model := model.(service := Acted);
    }

    method IncrementTail()
      requires Valid() && at.Acted?
      modifies Repr
      ensures Valid() && model == MainStep(old(model)) && at.Released?
    {
      AdvanceShows(scheduler.ring, Queue(waiting, InHandler, model.tail, model.notFull));
      hide Shows, Holds, ActOn;
      scheduler.IncrementTail();
      waiting := waiting[1..];
      at := Released;
      model := MainStep(model);
    }

    method WrapTail()
      requires Valid() && at.Released?
      modifies Repr
      ensures Valid() && model == MainStep(old(model)) && at.Wrapped?
    {
      AdvanceShows(scheduler.ring, Queue(waiting, TailIncremented, model.tail, model.notFull));
      hide Shows, Holds, ActOn, JobsFit;
      scheduler.WrapTail();
      at := Wrapped;
      model := MainStep(model);
    }

    method RaiseFlag()
      requires Valid() && at.Wrapped?
      modifies Repr
      ensures Valid() && model == MainStep(old(model)) && at.NotServing?
    {
      AdvanceShows(scheduler.ring, Queue(waiting, TailWrapped, model.tail, model.notFull));
      hide Shows, Holds, ActOn, JobsFit;
      scheduler.RaiseFlag();
      at := NotServing;
      model := MainStep(model);
    }

    // ---- the handlers ----

    method Dispatch(position: nat)
      requires Valid() && at == PositionRead(position)
      modifies Repr
      ensures Valid() && at == old(at) && model == ActOn(old(model), position)
    {
      var tail := scheduler.tail;
      HeldTask(scheduler.ring.slots[tail], model.queue[0]);
      var data := scheduler.dataBuffer[tail][..scheduler.dataLength[tail]];
      if scheduler.eventHandler[tail] == PostProcessing {
        RunPacketCheck(Job(data[0], data[1]));
      } else {
        RunEvent(EventIn(data), position);
      }
    }

    /** The queued check of a packet: an intact one is turned into a command request. */
    method RunPacketCheck(job: Job)
      requires Valid() && at.PositionRead? && model.queue[0] == PacketCheck(job)
      modifies Repr
      ensures Valid() && at == old(at) && model == ActOn(old(model), old(at).position)
    {
      hide Shows, Holds, CheckJob;
      var report := ipc.PostProcess(job);
      if report.status.Ok? {
        Put(AppEvent(CmdRequest(ipc.buffer[0], FromLittleEndian(ipc.buffer[1], ipc.buffer[2]))));
      }
    }

    /** The application's handler, which may send a response and may put an event. */
    method RunEvent(event: Event, position: nat)
      requires Valid() && at == PositionRead(position) && model.queue[0] == AppEvent(event)
      modifies Repr
      ensures Valid() && at == old(at) && model == ActOn(old(model), position)
    {
      hide Shows, Holds, Handle, Record;
      var put := HandleEvent(event, position);
      if put.Some? {
        Put(AppEvent(put.value));
      }
    }

    method HandleEvent(event: Event, position: nat) returns (put: Option<Event>)
      requires Separate() && AppShown()
      modifies this`model, this`sent, app
      ensures AppShown()
      ensures put == Handle(old(model).journal.app, event, position).put && (put.Some? ==> put.value == Internal)
      ensures model == old(model).(journal := Record(old(model).journal, event, position))
    {
      hide Handle, AnswersFit;
      HandleShape(model.journal.app, event, position);
      RecordedAnswersAreSent(model.journal, event, position);
      var response;
      put, response := app.StateMachineEventHandler(event, position);
      model := model.(journal := Record(model.journal, event, position));
      if response.Some? {
        SendResponse(response.value);
      }
    }

    method SendResponse(r: Response)
      requires r.angle < 0x1_0000
      modifies this`sent
      ensures sent == old(sent) + Encode(ResponseBytes(r))
    {
      var status, out := SendDataPacket(Some(ResponseBytes(r)), 4);
      assert ResponseBytes(r)[..4] == ResponseBytes(r);
      sent := sent + out;
    }

    /** After every run from power-up the bytes sent are the responses to the accepted commands, in order. */
    lemma SentOnTheWire(e: Encoder, p: Parser, moves: seq<Move>)
      requires Valid() && QuadratureEncoder.Valid(e) && Receiver.Valid(p) && model == Reached(e, p, moves)
      ensures var frames := Scan(sent);
              && |frames| == |model.journal.answers| <= |model.journal.accepted|
              && forall i :: 0 <= i < |frames| ==> EndToEnd.IsResponseTo(frames[i], model.journal.accepted[i])
    {
      EndToEnd.SentResponses(e, p, moves);
    }

    // ---- runs ----

    /** One move of the transition system, on the objects. */
    method Perform(m: Move)
      requires Valid()
      modifies Repr
      ensures Valid() && model == Apply(old(model), m)
    {
      hide Shows, Holds;
      match m {
        case EncoderIrq(i) => EncoderInterrupt(i);
        case ByteIrq(b) => ByteInterrupt(b);
        case MainLoop =>
          match at {
            case NotServing =>
              var called := Test();
            case Called => ReadPosition();
            case PositionRead(_) => RunHandler();
            case Acted => IncrementTail();
            case Released => WrapTail();
            case Wrapped => RaiseFlag();
          }
      }
    }

    /** Every interleaving whatever of loop statements and interrupts is a run of the transition system. */
    method PerformAll(moves: seq<Move>)
      requires Valid()
      modifies Repr
      ensures Valid() && model == ApplyAll(old(model), moves)
    {
      hide Apply, Shows, Holds;
      for k := 0 to |moves|
        invariant Valid() && model == ApplyAll(old(model), moves[..k])
      {
        assert moves[..k + 1][..k] == moves[..k];
        Perform(moves[k]);
      }
      assert moves[..|moves|] == moves;
    }

    /** Interrupts leave the main loop where it is. */
    method Interrupts(moves: seq<Move>)
      requires Valid() && OnlyInterrupts(moves)
      modifies Repr
      ensures Valid() && model == ApplyAll(old(model), moves) && at == old(at)
    {
      hide ApplyAll, Shows, Holds;
      InterruptsKeepService(model, moves);
      PerformAll(moves);
    }

    /** The test of the loop, and the handler of the front task: called, its position read, run. */
    method CallHandler(env: seq<seq<Move>>)
      requires Valid() && at.NotServing? && model.queue != [] && IsEnvironment(env, 3)
      modifies Repr
      ensures Valid() && at.Acted? && model == Statements(old(model), env)
    {
      ThreeStatements(model, env);
      hide Valid, ApplyAll, MainStep, Statements;
      var called := Test();
      Interrupts(env[0]);
      ReadPosition();
      Interrupts(env[1]);
      RunHandler();
      Interrupts(env[2]);
    }

    /** The three statements that give up its slot. */
    method GiveUpSlot(env: seq<seq<Move>>)
      requires Valid() && at.Acted? && IsEnvironment(env, 3)
      modifies Repr
      ensures Valid() && at.NotServing? && model == Statements(old(model), env)
    {
      ThreeStatements(model, env);
      hide Valid, ApplyAll, MainStep, Statements;
      IncrementTail();
      Interrupts(env[0]);
      WrapTail();
      Interrupts(env[1]);
      RaiseFlag();
      Interrupts(env[2]);
    }

    /** One iteration of the main loop, with interrupts after each of its six statements. */
    method ServeFront(env: seq<seq<Move>>)
      requires Valid() && at.NotServing? && model.queue != [] && IsEnvironment(env, 6)
      modifies Repr
      ensures Valid() && at.NotServing? && model == Statements(old(model), env)
    {
      assert ValidSystem(model);
      hide Valid, Statements, ApplyAll, OnlyInterrupts, ValidSystem;
      StatementsAppend(model, env[..3], env[3..]);
      assert env[..3] + env[3..] == env;
      CallHandler(env[..3]);
      GiveUpSlot(env[3..]);
    }

    /**
     The main loop, with interrupts after every statement of its first iterations: it terminates on every queue and
     with any finite interference, having performed a run of the transition system, with an empty queue. With no
     interrupts it ends in the drained state, after no more handler calls than the weight of the queue.
     */
    method Execute(env: seq<seq<seq<Move>>>) returns (calls: nat, ghost moves: seq<Move>)
      requires Valid() && at.NotServing?
      requires forall i :: 0 <= i < |env| ==> IsEnvironment(env[i], 6)
      modifies Repr
      ensures Valid() && at.NotServing? && model.queue == [] && model == ApplyAll(old(model), moves)
      ensures env == [] ==> model == Drain(old(model)) && calls == Calls(old(model)) <= TotalWeight(old(model).queue)
    {
      ghost var start := model;
      calls, moves := 0, [];
      RunsNothing(model);
      TestShows();
      QuietIsEnvironment();
      assert Calls(model) <= TotalWeight(model.queue);
      hide Valid, ApplyAll, Statements, Interleaved, IsEnvironment, ValidSystem, Drain, Calls, TotalWeight, QUIET;
      var i := 0;
      while scheduler.head != scheduler.tail || scheduler.isEmpty == false
        invariant 0 <= i <= |env| && Valid() && at.NotServing?
        invariant ValidSystem(model) && model.service.NotServing? && model == ApplyAll(start, moves)
        invariant env == [] ==> Drain(model) == Drain(start) && calls + Calls(model) == Calls(start)
        decreases |env| - i, TotalWeight(model.queue)
      {
        var now := if i < |env| then env[i] else QUIET;
        TestShows();
        QuietProgress(model);
        StatementsAreRun(model, now);
        ApplyAllAppend(start, moves, Interleaved(now));
        ServeFront(now);
        TestShows();
        moves := moves + Interleaved(now);
        calls := calls + 1;
        i := if i < |env| then i + 1 else i;
      }
      TestShows();
      RunsNothing(model);
    }

    /** The test of the loop tells whether the queue is empty. */
    lemma TestShows()
      requires Valid() && at.NotServing?
      ensures scheduler.head != scheduler.tail || scheduler.isEmpty == false <==> model.queue != []
      ensures ValidSystem(model) && model.service.NotServing?
    {
      AdvanceShows(scheduler.ring, Queue(waiting, AtTest, model.tail, model.notFull));
    }
  }

  lemma RunsNothing(s: System)
    requires ValidSystem(s)
    ensures ApplyAll(s, []) == s && (s.service.NotServing? && s.queue == [] ==> Drain(s) == s && Calls(s) == 0)
  {
  }
}
