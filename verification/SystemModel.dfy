/**
 The whole firmware as one transition system: the event queue drained by the main loop, the encoder and the
 packet parser changed by interrupts, and the application state machine changed by handlers. A handler reads
 the encoder position in one step and acts on what it read in a later one; interrupts come at any point.
 */
module SystemModel {
  import opened Bytes
  import opened Packets
  import opened QuadratureEncoder
  import opened Receiver
  import opened Inbox
  import opened Shaft
  import opened Application

  const QUEUE_PLACES: nat := 50

  /** A queued event: the check of a received packet, or an event for the application state machine. */
  datatype Task = PacketCheck(job: Job) | AppEvent(event: Event)

  /**
   Where the main loop is: at its test, in the handler of the front task (called, position read, acted), after
   the increment of the tail, after the wrap of the tail.
   */
  datatype Service = NotServing | Called | PositionRead(position: nat) | Acted | Released | Wrapped

  datatype Kind = OfWake | OfCommand | OfCheck | OfHome

  /**
   `tail` and `notFull` are the scheduler's: on them depends what becomes of a put. `lost` records the kinds of the
   tasks that were refused a place or dropped by an overrun, `overrun` whether there was one.
   */
  datatype System = System(queue: seq<Task>, tail: nat, notFull: bool, service: Service, encoder: Encoder,
                           parser: Parser, journal: Journal, lost: set<Kind>, overrun: bool)

  /** The slot of the handled task is being given up; its place is not free before the flag is raised. */
  predicate InWindow(s: System) {
    s.service.Released? || s.service.Wrapped?
  }

  ghost predicate JobsFit(q: seq<Task>) {
    forall i :: 0 <= i < |q| && q[i].PacketCheck? ==> q[i].job.size <= MAX_DATA_LENGTH
  }

  ghost predicate ValidQueue(s: System) {
    && (if InWindow(s)
        then |s.queue| < QUEUE_PLACES && (s.notFull || |s.queue| == QUEUE_PLACES - 1 || s.queue == [])
        else |s.queue| <= QUEUE_PLACES && (s.notFull <==> |s.queue| < QUEUE_PLACES))
    && (if s.service.Released? then 1 <= s.tail <= QUEUE_PLACES else s.tail < QUEUE_PLACES)
    && (s.queue == [] ==> s.service.NotServing? || InWindow(s))
    && JobsFit(s.queue)
  }

  ghost predicate ValidSystem(s: System) {
    ValidQueue(s) && QuadratureEncoder.Valid(s.encoder) && Receiver.Valid(s.parser)
  }

  /** The two events on which the application can conclude a command. */
  predicate IsWake(t: Task) {
    t.AppEvent? && (t.event.Internal? || t.event.StepActivity?)
  }

  function KindOf(t: Task): Kind {
    if t.PacketCheck? then OfCheck
    else if t.event.CmdRequest? then OfCommand
    else if t.event.HomeActivity? then OfHome
    else OfWake
  }

  function Kinds(q: seq<Task>): (r: set<Kind>)
    ensures forall i :: 0 <= i < |q| ==> KindOf(q[i]) in r
  {
    set i | 0 <= i < |q| :: KindOf(q[i])
  }

  /** A put now would be accepted although it makes head meet tail while a slot is being given up. */
  predicate AtBrink(s: System) {
    InWindow(s) && s.notFull && |s.queue| == QUEUE_PLACES - 1
  }

  predicate HasRoom(s: System) {
    s.notFull && !AtBrink(s)
  }

  /** A put: refused when the flag is down, and at the brink the end of everything queued and of the task itself. */
  function PutTask(s: System, t: Task): (r: System)
    ensures ValidQueue(s) && JobsFit([t]) && (s.queue != [] || s.service.NotServing? || InWindow(s)) ==> ValidQueue(r)
    ensures s.queue != [] && !InWindow(s) ==> r.queue != [] && r.queue[0] == s.queue[0]
    ensures r == s.(queue := r.queue, notFull := r.notFull, lost := r.lost, overrun := r.overrun)
    ensures s.lost <= r.lost && (s.overrun ==> r.overrun)
  {
    if !s.notFull then s.(lost := s.lost + {KindOf(t)})
    else if AtBrink(s) then
      s.(queue := [], notFull := s.tail == QUEUE_PLACES, lost := s.lost + Kinds(s.queue) + {KindOf(t)}, overrun := true)
    else s.(queue := s.queue + [t], notFull := InWindow(s) || |s.queue| + 1 < QUEUE_PLACES)
  }

  function PutIf(s: System, t: Option<Task>): (r: System)
    ensures ValidQueue(s) && (t.Some? ==> JobsFit([t.value])) ==> ValidQueue(r)
    ensures s.queue != [] && !InWindow(s) ==> r.queue != [] && r.queue[0] == s.queue[0]
    ensures r == s.(queue := r.queue, notFull := r.notFull, lost := r.lost, overrun := r.overrun)
    ensures s.lost <= r.lost && (s.overrun ==> r.overrun)
  {
    match t
    case None => s
    case Some(task) => PutTask(s, task)
  }

  /** The command the application takes out of the shared buffer. */
  function CommandIn(buffer: seq<Byte>): Event
    requires |buffer| >= 3
  {
    CmdRequest(buffer[0], FromLittleEndian(buffer[1], buffer[2]))
  }

  /** What the front task's handler puts if it read `position`. */
  function HandlerPut(s: System, position: nat): (t: Option<Task>)
    requires ValidSystem(s) && s.queue != []
    ensures t.Some? ==> t.value.AppEvent?
  {
    match s.queue[0]
    case PacketCheck(job) =>
      if CheckJob(s.parser.buffer, job).status.Ok? then Some(AppEvent(CommandIn(s.parser.buffer))) else None
    case AppEvent(event) =>
      var put := Handle(s.journal.app, event, position).put;
      if put.Some? then Some(AppEvent(put.value)) else None
  }

  /** The effect of the front task's handler, which read `position`; its slot is not yet free. */
  function ActOn(s: System, position: nat): (r: System)
    requires ValidSystem(s) && s.queue != [] && !InWindow(s)
    ensures ValidSystem(r) && r.queue != [] && r.queue[0] == s.queue[0]
    ensures r.service == s.service && r.tail == s.tail && r.encoder == s.encoder && r.parser == s.parser
    ensures s.lost <= r.lost && (s.overrun ==> r.overrun)
  {
    var put := HandlerPut(s, position);
    match s.queue[0]
    case PacketCheck(_) => PutIf(s, put)
    case AppEvent(event) => PutIf(s.(journal := Record(s.journal, event, position)), put)
  }

  datatype Move = MainLoop | EncoderIrq(i: Interrupt) | ByteIrq(b: Byte)

  /** The task a move puts, whether or not there is a place for it. */
  function PutOf(s: System, m: Move): Option<Task>
    requires ValidSystem(s)
  {
    match m
    case MainLoop => if s.service.PositionRead? then HandlerPut(s, s.service.position) else None
    case EncoderIrq(i) =>
      if IsHome(i) then Some(AppEvent(HomeActivity))
      else if Count(s.encoder, i) != 0 then Some(AppEvent(StepActivity)) else None
    case ByteIrq(b) =>
      var job := Receive(s.parser, b).1;
      if job.Some? then Some(PacketCheck(job.value)) else None
  }

  function MainStep(s: System): (r: System)
    requires ValidSystem(s)
    ensures ValidSystem(r)
  {
    match s.service
    case NotServing => if s.queue == [] then s else s.(service := Called)
    case Called => s.(service := PositionRead(s.encoder.position))
    case PositionRead(position) => ActOn(s, position).(service := Acted)
    case Acted => s.(queue := s.queue[1..], tail := s.tail + 1, service := Released)
    case Released => s.(tail := if s.tail == QUEUE_PLACES then 0 else s.tail, service := Wrapped)
    case Wrapped => s.(notFull := true, service := NotServing)
  }

  function Apply(s: System, m: Move): (r: System)
    requires ValidSystem(s)
    ensures ValidSystem(r)
  {
    match m
    case MainLoop => MainStep(s)
    case EncoderIrq(i) => PutIf(s.(encoder := Step(s.encoder, i)), PutOf(s, m))
    case ByteIrq(b) => PutIf(s.(parser := Receive(s.parser, b).0), PutOf(s, m))
  }

  function ApplyAll(s: System, moves: seq<Move>): (r: System)
    requires ValidSystem(s)
    ensures ValidSystem(r)
  {
    if moves == [] then s else Apply(ApplyAll(s, moves[..|moves| - 1]), moves[|moves| - 1])
  }

  lemma {:induction false} ApplyAllAppend(s: System, moves: seq<Move>, more: seq<Move>)
    requires ValidSystem(s)
    ensures ApplyAll(s, moves + more) == ApplyAll(ApplyAll(s, moves), more)
  {
    hide Apply;
    if more == [] {
      assert moves + more == moves;
    } else {
      var n := |more| - 1;
      ApplyAllAppend(s, moves, more[..n]);
      assert (moves + more)[..|moves + more| - 1] == moves + more[..n];
    }
  }

  lemma ApplyAllNone(s: System)
    requires ValidSystem(s)
    ensures ApplyAll(s, []) == s
  {
  }

  lemma ApplyAllOne(s: System, m: Move)
    requires ValidSystem(s)
    ensures ApplyAll(s, [m]) == Apply(s, m)
  {
    assert [m][..0] == [];
  }

  /**
   After initialisation the queue holds the event that starts the calibration. Encoder and parser are whatever the
   interrupts that came during the initialisation have made of them.
   */
  function PowerUp(e: Encoder, p: Parser): (s: System)
    requires QuadratureEncoder.Valid(e) && Receiver.Valid(p)
    ensures ValidSystem(s)
  {
    System([AppEvent(Internal)], 0, true, NotServing, e, p, POWER_UP_JOURNAL, {}, false)
  }

  // ---- no lost wake-up ----

  /** The first task whose handler has not yet read the position. */
  function FirstUnread(s: System): nat {
    if s.service.PositionRead? || s.service.Acted? then 1 else 0
  }

  ghost predicate WakePending(s: System) {
    exists k :: FirstUnread(s) <= k < |s.queue| && IsWake(s.queue[k])
  }

  /** The running handler read a position on which it will conclude the command. */
  predicate WakeInHand(s: System)
    requires s.service.PositionRead? ==> s.queue != []
  {
    s.service.PositionRead? && IsWake(s.queue[0]) && Concludes(s.journal.app, s.service.position)
  }

  predicate ShowsPosition(e: Encoder, p: nat) {
    e.position == p && !e.homeSeen
  }

  /** A command is under way that the encoder says can be concluded. */
  predicate CanConclude(app: App, e: Encoder) {
    app.state.Execution? && (app.respStatus.InvalidAngle? || ShowsPosition(e, app.positionRequested))
  }

  /** A command under way that can be concluded will be: a step or internal event is queued or in hand. */
  ghost predicate NoLostWakeUp(s: System)
    requires ValidSystem(s)
  {
    CanConclude(s.journal.app, s.encoder) ==> WakePending(s) || WakeInHand(s)
  }

  /** The same for a command whose handler has read the position but not yet acted on it. */
  ghost predicate CommandInHand(s: System)
    requires ValidSystem(s)
  {
    && s.service.PositionRead? && s.queue[0].AppEvent? && Accepts(s.journal.app, s.queue[0].event) ==>
      var requested := AngleToPosition(s.queue[0].event.angle);
      ShowsPosition(s.encoder, requested) && s.service.position != requested ==> WakePending(s)
  }

  ghost predicate Awake(s: System)
    requires ValidSystem(s)
  {
    NoLostWakeUp(s) && CommandInHand(s)
  }

  /** The handler in hand is about to accept a command. */
  predicate AcceptsInHand(s: System)
    requires ValidSystem(s)
  {
    s.service.PositionRead? && s.queue[0].AppEvent? && Accepts(s.journal.app, s.queue[0].event)
  }

  /** The edge brings the encoder to the target of the command under way, or of the one about to be accepted. */
  predicate ReachesTarget(s: System, i: Interrupt)
    requires ValidSystem(s)
  {
    var app, e := s.journal.app, Step(s.encoder, i);
    && Count(s.encoder, i) != 0
    && (|| (app.state.Execution? && app.respStatus.RespOk? && ShowsPosition(e, app.positionRequested) && !WakeInHand(s))
        || (&& AcceptsInHand(s)
            && var requested := AngleToPosition(s.queue[0].event.angle);
               ShowsPosition(e, requested) && s.service.position != requested))
  }

  /** The handler in hand accepts a command that it will have to conclude without any further edge. */
  predicate AcceptsConcludable(s: System)
    requires ValidSystem(s)
  {
    && AcceptsInHand(s)
    && var requested := AngleToPosition(s.queue[0].event.angle);
       !IsPositionValid(requested) || ShowsPosition(s.encoder, requested)
  }

  function EncoderAfter(s: System, m: Move): Encoder
    requires ValidSystem(s)
  {
    if m.EncoderIrq? then Step(s.encoder, m.i) else s.encoder
  }

  /**
   The moves that lose a wake-up: a put at the brink while a command can be concluded, which drops all that is
   queued; and a put that is refused although its event is needed and no other wake-up is queued.
   */
  ghost predicate LosesWakeUp(s: System, m: Move)
    requires ValidSystem(s)
  {
    && PutOf(s, m).Some? && !HasRoom(s)
    && if AtBrink(s) then CanConclude(s.journal.app, EncoderAfter(s, m))
       else
         && !WakePending(s)
         && match m
            case EncoderIrq(i) => ReachesTarget(s, i)
            case MainLoop => AcceptsConcludable(s)
            case ByteIrq(_) => false
  }

  /** A put that has room never hides a pending wake-up; a refused one changes nothing; at the brink all are lost. */
  lemma PutKeepsWake(s: System, t: Option<Task>)
    requires ValidSystem(s)
    ensures HasRoom(s) ==>
              (WakePending(PutIf(s, t)) <==> WakePending(s) || (t.Some? && IsWake(t.value)))
    ensures !s.notFull || t.None? ==> (WakePending(PutIf(s, t)) <==> WakePending(s))
    ensures AtBrink(s) && t.Some? ==> !WakePending(PutIf(s, t)) && (WakePending(s) ==> OfWake in PutIf(s, t).lost)
  {
    var r := PutIf(s, t);
    if WakePending(s) {
      var k :| FirstUnread(s) <= k < |s.queue| && IsWake(s.queue[k]);
      assert HasRoom(s) ==> r.queue[k] == s.queue[k];
      assert KindOf(s.queue[k]) in Kinds(s.queue);
    }
    if t.Some? && IsWake(t.value) && HasRoom(s) {
      assert r.queue[|s.queue|] == t.value;
    }
  }

  lemma EncoderIrqKeepsAwakeIff(s: System, i: Interrupt)
    requires ValidSystem(s) && Awake(s)
    ensures Awake(Apply(s, EncoderIrq(i))) <==> !LosesWakeUp(s, EncoderIrq(i))
    ensures LosesWakeUp(s, EncoderIrq(i)) ==> OfWake in Apply(s, EncoderIrq(i)).lost
  {
    var moved := s.(encoder := Step(s.encoder, i));
    PutKeepsWake(moved, PutOf(s, EncoderIrq(i)));
    assert WakePending(s) <==> WakePending(moved);
    if Count(s.encoder, i) == 0 && !IsHome(i) {
      assert moved.encoder.position == s.encoder.position && moved.encoder.homeSeen == s.encoder.homeSeen;
    }
  }

  lemma ByteIrqKeepsAwakeIff(s: System, b: Byte)
    requires ValidSystem(s) && Awake(s)
    ensures Awake(Apply(s, ByteIrq(b))) <==> !LosesWakeUp(s, ByteIrq(b))
    ensures LosesWakeUp(s, ByteIrq(b)) ==> OfWake in Apply(s, ByteIrq(b)).lost
  {
    var moved := s.(parser := Receive(s.parser, b).0);
    PutKeepsWake(moved, PutOf(s, ByteIrq(b)));
    assert WakePending(s) <==> WakePending(moved);
  }

  lemma MainStepKeepsAwakeIff(s: System)
    requires ValidSystem(s) && Awake(s) && Consistent(s.journal)
    ensures Awake(MainStep(s)) <==> !LosesWakeUp(s, MainLoop)
  {
    match s.service {
      case PositionRead(position) =>
        ActKeepsAwakeIff(s, position);
      case Acted =>
        if WakePending(s) {
          var k :| 1 <= k < |s.queue| && IsWake(s.queue[k]);
          assert MainStep(s).queue[k - 1] == s.queue[k];
        }
      case _ =>
        LoopKeepsAwake(s);
    }
  }

  lemma LoopKeepsAwake(s: System)
    requires ValidSystem(s) && Awake(s) && !s.service.PositionRead? && !s.service.Acted?
    ensures Awake(MainStep(s))
  {
    if WakePending(s) {
      var k :| 0 <= k < |s.queue| && IsWake(s.queue[k]);
      assert MainStep(s).queue[k] == s.queue[k];
    }
  }

  lemma ActKeepsAwakeIff(s: System, position: nat)
    requires ValidSystem(s) && Awake(s) && Consistent(s.journal)
    requires s.service == PositionRead(position)
    ensures Awake(MainStep(s)) <==> !LosesWakeUp(s, MainLoop)
  {
    var acted := match s.queue[0]
      case PacketCheck(_) => s
      case AppEvent(event) => s.(journal := Record(s.journal, event, position));
    var put := HandlerPut(s, position);
    assert WakePending(MainStep(s)) <==>
           WakePending(s) || (put.Some? && IsWake(put.value) && s.notFull)
    by {
      PutKeepsWake(acted, put);
      assert WakePending(s) <==> WakePending(acted);
      assert WakePending(ActOn(s, position)) <==> WakePending(MainStep(s));
    }
    if AcceptsInHand(s) {
      AcceptedAwakeIff(s, position);
    } else {
      NotAcceptedKeepsAwake(s, position);
    }
  }

  lemma NotAcceptedKeepsAwake(s: System, position: nat)
    requires ValidSystem(s) && Awake(s) && Consistent(s.journal)
    requires s.service == PositionRead(position) && !AcceptsInHand(s)
    requires WakePending(s) ==> WakePending(MainStep(s))
    ensures Awake(MainStep(s))
  {
    hide WakePending;
  }

  lemma AcceptedAwakeIff(s: System, position: nat)
    requires ValidSystem(s) && Awake(s) && s.service == PositionRead(position) && AcceptsInHand(s)
    requires WakePending(MainStep(s)) <==>
             WakePending(s) || (PutOf(s, MainLoop).Some? && s.notFull)
    ensures Awake(MainStep(s)) <==> !LosesWakeUp(s, MainLoop)
  {
    hide WakePending;
  }

  /**
   Exactly when a wake-up is lost: a put overruns the queue while a command can be concluded; or, with no other
   wake-up queued, the put of an edge that reaches the target, or of a command that is invalid or finds the encoder
   at its target, is refused. No other move ever loses one.
   */
  lemma MoveKeepsAwakeIff(s: System, m: Move)
    requires ValidSystem(s) && Awake(s) && Consistent(s.journal)
    ensures Awake(Apply(s, m)) <==> !LosesWakeUp(s, m)
    ensures LosesWakeUp(s, m) ==> OfWake in Apply(s, m).lost
  {
    hide NoLostWakeUp, WakePending, Consistent;
    match m {
      case MainLoop => MainStepKeepsAwakeIff(s);
      case EncoderIrq(i) => EncoderIrqKeepsAwakeIff(s, i);
      case ByteIrq(b) => ByteIrqKeepsAwakeIff(s, b);
    }
  }

  /**
   The same for one handler, with the queue spelled out: a command that is invalid or for the position shown keeps
   its wake-up if and only if a place is free for its own internal event or another wake-up is queued behind it.
   */
  lemma CommandKeepsWakeUpIff(s: System, position: nat, angle: nat)
    requires ValidSystem(s) && s.service == PositionRead(position) && s.journal.app.state.Ready?
    requires s.queue[0] == AppEvent(CmdRequest(SET_ANGLE, angle))
    requires !IsPositionValid(AngleToPosition(angle))
          || (AngleToPosition(angle) == position && ShowsPosition(s.encoder, position))
    ensures NoLostWakeUp(MainStep(s))
       <==> |s.queue| < QUEUE_PLACES || exists k :: 1 <= k < |s.queue| && IsWake(s.queue[k])
  {
    var acted := s.(journal := Record(s.journal, s.queue[0].event, position));
    PutKeepsWake(acted, HandlerPut(s, position));
    assert WakePending(s) <==> WakePending(acted);
    assert WakePending(ActOn(s, position)) <==> WakePending(MainStep(s));
  }

  lemma ApplyKeepsConsistent(s: System, m: Move)
    requires ValidSystem(s) && Consistent(s.journal)
    ensures Consistent(Apply(s, m).journal)
    ensures s.lost <= Apply(s, m).lost && (s.overrun ==> Apply(s, m).overrun)
  {
    hide Consistent;
    if m.MainLoop? && s.service.PositionRead? && s.queue[0].AppEvent? {
      RecordKeepsConsistent(s.journal, s.queue[0].event, s.service.position);
    }
  }

  /** A state that is reached from power-up, whatever encoder and parser were then. */
  function Reached(e: Encoder, p: Parser, moves: seq<Move>): (s: System)
    requires QuadratureEncoder.Valid(e) && Receiver.Valid(p)
    ensures ValidSystem(s)
  {
    ApplyAll(PowerUp(e, p), moves)
  }

  /**
   Safety of the whole system: in every state reachable by any interleaving of loop steps, encoder interrupts and
   received bytes, requests and responses correspond, and if no step or internal event was refused a place or dropped
   by an overrun, no wake-up is lost, whatever else was lost.
   */
  lemma {:induction false} EveryReachableStateIsSafe(e: Encoder, p: Parser, moves: seq<Move>)
    requires QuadratureEncoder.Valid(e) && Receiver.Valid(p)
    ensures var s := Reached(e, p, moves);
            Consistent(s.journal) && (OfWake !in s.lost ==> Awake(s))
  {
    SafetyLasts(PowerUp(e, p), moves);
  }

  /** From any safe state every run stays safe. */
  lemma {:induction false} SafetyLasts(s: System, moves: seq<Move>)
    requires ValidSystem(s) && Consistent(s.journal) && Awake(s)
    ensures s.lost <= ApplyAll(s, moves).lost
    ensures Consistent(ApplyAll(s, moves).journal) && (OfWake !in ApplyAll(s, moves).lost ==> Awake(ApplyAll(s, moves)))
  {
    if moves == [] {
    } else {
      hide Apply, Consistent, NoLostWakeUp, Awake;
      var n := |moves| - 1;
      var before := ApplyAll(s, moves[..n]);
      SafetyLasts(s, moves[..n]);
      ApplyKeepsConsistent(before, moves[n]);
      if OfWake !in before.lost {
        MoveKeepsAwakeIff(before, moves[n]);
      }
    }
  }

  // ---- runs of the system as runs of the application ----

  /** The event handled in a move, with the position its handler had read. */
  function Occurrences(s: System, m: Move): seq<Occurrence>
    requires ValidSystem(s)
  {
    if m.MainLoop? && s.service.PositionRead? && s.queue[0].AppEvent?
    then [Occurrence(s.queue[0].event, s.service.position)] else []
  }

  function AllOccurrences(s: System, moves: seq<Move>): seq<Occurrence>
    requires ValidSystem(s)
  {
    if moves == [] then []
    else AllOccurrences(s, moves[..|moves| - 1]) + Occurrences(ApplyAll(s, moves[..|moves| - 1]), moves[|moves| - 1])
  }

  lemma {:induction false} RunIsApplicationRun(s: System, moves: seq<Move>)
    requires ValidSystem(s)
    ensures ApplyAll(s, moves).journal == RecordAll(s.journal, AllOccurrences(s, moves))
  {
    if moves == [] {
    } else {
      hide Apply, Record, RecordAll, Occurrences;
      var n := |moves| - 1;
      var before, earlier := ApplyAll(s, moves[..n]), AllOccurrences(s, moves[..n]);
      RunIsApplicationRun(s, moves[..n]);
      MoveRecords(before, moves[n]);
      RecordMore(s.journal, earlier, Occurrences(before, moves[n]));
    }
  }

  lemma MoveRecords(s: System, m: Move)
    requires ValidSystem(s)
    ensures var now := Occurrences(s, m);
            && |now| <= 1
            && Apply(s, m).journal
               == if now == [] then s.journal else Record(s.journal, now[0].event, now[0].position)
  {
    hide Record;
  }

  lemma RecordMore(j: Journal, earlier: seq<Occurrence>, now: seq<Occurrence>)
    requires |now| <= 1
    ensures var before := RecordAll(j, earlier);
            RecordAll(j, earlier + now) == if now == [] then before else Record(before, now[0].event, now[0].position)
  {
    hide Record;
    if now == [] {
      assert earlier + now == earlier;
    } else {
      assert (earlier + now)[..|earlier|] == earlier;
    }
  }

  /**
   In the whole system the calibration lasts exactly until the first home event is handled, with the motor turning
   clockwise from the first internal event on.
   */
  lemma SystemCalibrates(e: Encoder, p: Parser, moves: seq<Move>)
    requires QuadratureEncoder.Valid(e) && Receiver.Valid(p)
    ensures var app, run := Reached(e, p, moves).journal.app, AllOccurrences(PowerUp(e, p), moves);
            && (app.state.Calibration? <==> !HomeHandled(run))
            && (app.state.Calibration? ==> app.motor == if InternalHandled(run) then On(Clockwise) else Off)
  {
    RunIsApplicationRun(PowerUp(e, p), moves);
    CalibrationLastsUntilHome(AllOccurrences(PowerUp(e, p), moves));
  }

  /**
   What the handler of an application event puts: its own internal event if it accepts a command, in ready and of type
   0, whose half angle kept in 8 bits is no position or the position read, and otherwise nothing.
   */
  lemma ApplicationPutsIff(s: System)
    requires ValidSystem(s) && s.service.PositionRead? && s.queue[0].AppEvent?
    ensures var event := s.queue[0].event;
            && (PutOf(s, MainLoop).Some? <==>
                  && s.journal.app.state.Ready? && event.CmdRequest? && event.cmdType == 0
                  && (event.angle / 2 % 256 >= 180 || event.angle / 2 % 256 == s.service.position))
            && (PutOf(s, MainLoop).Some? ==> PutOf(s, MainLoop) == Some(AppEvent(Internal)))
  {
    if s.queue[0].event.CmdRequest? {
      AcceptanceByHalfAngle(s.queue[0].event.angle);
    }
  }

  /** The command read from the receive buffer: the type, then the angle, least significant byte first. */
  lemma CommandLayout(buffer: seq<Byte>)
    requires |buffer| >= 3
    ensures var (low: int, high: int) := (buffer[1], buffer[2]);
            CommandIn(buffer).cmdType == buffer[0] && CommandIn(buffer).angle == low + 256 * high
  {
  }

  // ---- draining the queue ----

  /** A check can put a command, a command an internal event, and those nothing. */
  function Weight(t: Task): nat {
    match t
    case PacketCheck(_) => 3
    case AppEvent(CmdRequest(_, _)) => 2
    case AppEvent(_) => 1
  }

  function TotalWeight(q: seq<Task>): nat {
    if q == [] then 0 else TotalWeight(q[..|q| - 1]) + Weight(q[|q| - 1])
  }

  lemma {:induction false} TotalWeightOfRest(q: seq<Task>)
    requires q != []
    ensures TotalWeight(q) == Weight(q[0]) + TotalWeight(q[1..])
  {
    if |q| == 1 {
      assert q[..0] == [] && q[1..] == [];
    } else {
      TotalWeightOfRest(q[..|q| - 1]);
      assert q[..|q| - 1][1..] == q[1..][..|q| - 2];
    }
  }

  /** Serving the front task from call to release, with no interrupt in between. */
  function ServeFront(s: System): (r: System)
    requires ValidSystem(s) && s.service.NotServing? && s.queue != []
    ensures ValidSystem(r) && r.service.NotServing? && r.encoder == s.encoder
  {
    var acted := ActOn(s, s.encoder.position);
    acted.(queue := acted.queue[1..], tail := if s.tail + 1 == QUEUE_PLACES then 0 else s.tail + 1, notFull := true)
  }

  lemma ServeFrontIsSixSteps(s: System)
    requires ValidSystem(s) && s.service.NotServing? && s.queue != []
    ensures ServeFront(s) == MainStep(MainStep(MainStep(MainStep(MainStep(MainStep(s))))))
  {
    var read := MainStep(MainStep(s));
    assert read == s.(service := PositionRead(s.encoder.position));
    ActIgnoresService(s, read.service);
    hide ActOn;
    var acted := ActOn(s, s.encoder.position);
    assert MainStep(read) == acted.(service := Acted);
    ReleaseIsThreeSteps(acted.(service := Acted));
  }

  lemma ActIgnoresService(s: System, v: Service)
    requires ValidSystem(s) && s.service.NotServing? && s.queue != [] && v.PositionRead?
    ensures ActOn(s.(service := v), v.position) == ActOn(s, v.position).(service := v)
  {
  }

  lemma ReleaseIsThreeSteps(s: System)
    requires ValidSystem(s) && s.service.Acted?
    ensures MainStep(MainStep(MainStep(s)))
         == s.(queue := s.queue[1..], tail := if s.tail + 1 == QUEUE_PLACES then 0 else s.tail + 1, notFull := true,
               service := NotServing)
  {
  }

  /** `n` steps of the main loop. */
  function Steps(n: nat): seq<Move> {
    seq(n, _ => MainLoop)
  }

  lemma OneMoreStep(s: System, n: nat)
    requires ValidSystem(s)
    ensures ApplyAll(s, Steps(n + 1)) == MainStep(ApplyAll(s, Steps(n)))
    ensures ApplyAll(s, Steps(0)) == s
  {
    hide MainStep, ApplyAll;
    assert Steps(n + 1) == Steps(n) + [MainLoop] && Steps(0) == [];
    ApplyAllAppend(s, Steps(n), [MainLoop]);
    ApplyAllOne(ApplyAll(s, Steps(n)), MainLoop);
    ApplyAllNone(s);
  }

  lemma SixStepsServe(s: System)
    requires ValidSystem(s) && s.service.NotServing? && s.queue != []
    ensures ApplyAll(s, Steps(6)) == ServeFront(s)
  {
    hide MainStep, ServeFront, Steps, ApplyAll;
    ServeFrontIsSixSteps(s);
    OneMoreStep(s, 0);
    OneMoreStep(s, 1);
    OneMoreStep(s, 2);
    OneMoreStep(s, 3);
    OneMoreStep(s, 4);
    OneMoreStep(s, 5);
  }

  /** The queue gets strictly lighter with every task served, although its handler may put another. */
  lemma ServeFrontIsLighter(s: System)
    requires ValidSystem(s) && s.service.NotServing? && s.queue != []
    ensures TotalWeight(ServeFront(s).queue) < TotalWeight(s.queue)
  {
    var t := ActPutsLighter(s, s.encoder.position);
    TotalWeightOfRest(s.queue);
    if t.Some? {
      assert (s.queue + [t.value])[1..] == s.queue[1..] + [t.value];
      assert (s.queue[1..] + [t.value])[..|s.queue| - 1] == s.queue[1..];
    }
  }

  /** A handler puts at most one task, an application event that weighs less than the task it handles. */
  lemma ActPutsLighter(s: System, position: nat) returns (t: Option<Task>)
    requires ValidSystem(s) && s.queue != [] && !InWindow(s)
    ensures t.Some? ==> t.value.AppEvent? && Weight(t.value) < Weight(s.queue[0])
    ensures ActOn(s, position).queue == if t.Some? then s.queue + [t.value] else s.queue
  {
    var queue := ActOn(s, position).queue;
    t := if |queue| > |s.queue| then Some(queue[|s.queue|]) else None;
  }

  /** The main loop with no interrupts: it ends on every queue. */
  function Drain(s: System): (r: System)
    requires ValidSystem(s) && s.service.NotServing?
    ensures ValidSystem(r) && r.queue == [] && r.service.NotServing? && r.encoder == s.encoder
    decreases TotalWeight(s.queue)
  {
    if s.queue == [] then s
    else
      ServeFrontIsLighter(s);
      Drain(ServeFront(s))
  }

  /** How many handlers that takes. */
  function Calls(s: System): (n: nat)
    requires ValidSystem(s) && s.service.NotServing?
    ensures n <= TotalWeight(s.queue)
    decreases TotalWeight(s.queue)
  {
    if s.queue == [] then 0
    else
      ServeFrontIsLighter(s);
      1 + Calls(ServeFront(s))
  }

  /** The response owed to the command under way, as the handler that reads the position now would send it. */
  function AnswerOwed(s: System): Answer
    requires |s.journal.answers| < |s.journal.accepted|
  {
    Answer(ResponseTo(s.journal.accepted[|s.journal.answers|]), s.encoder.position)
  }

  lemma ServingWakeAnswers(s: System)
    requires ValidSystem(s) && s.service.NotServing? && Consistent(s.journal)
    requires s.journal.app.state.Execution? && Concludes(s.journal.app, s.encoder.position)
    requires s.queue != [] && IsWake(s.queue[0])
    ensures ServeFront(s).journal.answers == s.journal.answers + [AnswerOwed(s)]
  {
  }

  lemma ServingOtherKeepsWake(s: System)
    requires ValidSystem(s) && s.service.NotServing? && s.journal.app.state.Execution?
    requires WakePending(s) && !IsWake(s.queue[0])
    ensures var t := ServeFront(s);
            t.journal == s.journal && t.encoder == s.encoder && WakePending(t)
  {
    var k :| 0 <= k < |s.queue| && IsWake(s.queue[k]);
    assert ServeFront(s).queue[k - 1] == s.queue[k];
  }

  /**
   What a wake-up is for: with a concludable command under way and no further interrupts, draining the queue
   sends the response to that very command.
   */
  lemma {:induction false} WakeUpIsAnswered(s: System)
    requires ValidSystem(s) && s.service.NotServing? && Consistent(s.journal)
    requires s.journal.app.state.Execution? && Concludes(s.journal.app, s.encoder.position)
    requires WakePending(s)
    ensures s.journal.answers + [AnswerOwed(s)] <= Drain(s).journal.answers
    decreases TotalWeight(s.queue)
  {
    hide ActOn, ServeFront;
    ServeFrontIsLighter(s);
    if IsWake(s.queue[0]) {
      ServingWakeAnswers(s);
      DrainKeepsHistory(ServeFront(s));
    } else {
      ServingOtherKeepsWake(s);
      WakeUpIsAnswered(ServeFront(s));
    }
  }

  /** Without a wake-up nothing that is queued, nor what it puts, concludes the command under way. */
  lemma {:induction false} DrainWithoutWakeChangesNothing(s: System)
    requires ValidSystem(s) && s.service.NotServing?
    requires s.journal.app.state.Execution? && !WakePending(s)
    ensures Drain(s).journal == s.journal
    decreases TotalWeight(s.queue)
  {
    if s.queue == [] {
    } else {
      ServeFrontIsLighter(s);
      var t := ServeFront(s);
      ServingOtherAddsNoWake(s);
      DrainWithoutWakeChangesNothing(t);
    }
  }

  lemma ServingOtherAddsNoWake(s: System)
    requires ValidSystem(s) && s.service.NotServing? && s.queue != []
    requires s.journal.app.state.Execution? && !WakePending(s)
    ensures var t := ServeFront(s);
            t.journal == s.journal && !WakePending(t)
  {
    assert !IsWake(s.queue[0]);
    var t := ServeFront(s);
    var acted := ActOn(s, s.encoder.position);
    assert forall k :: 0 <= k < |t.queue| ==> t.queue[k] == acted.queue[k + 1];
  }

  /** As long as the encoder does not stand at the target, draining leaves the command under way alone. */
  lemma {:induction false} DrainWithoutTargetChangesNothing(s: System)
    requires ValidSystem(s) && s.service.NotServing?
    requires s.journal.app.state.Execution? && !Concludes(s.journal.app, s.encoder.position)
    ensures Drain(s).journal == s.journal
    decreases TotalWeight(s.queue)
  {
    if s.queue == [] {
    } else {
      ServeFrontIsLighter(s);
      ServingKeepsCommand(s);
      hide ServeFront;
      DrainWithoutTargetChangesNothing(ServeFront(s));
    }
  }

  lemma ServingKeepsCommand(s: System)
    requires ValidSystem(s) && s.service.NotServing? && s.queue != []
    requires s.journal.app.state.Execution? && !Concludes(s.journal.app, s.encoder.position)
    ensures ServeFront(s).journal == s.journal
  {
  }

  /** So a command that can be concluded is answered by draining the queue if and only if a wake-up is queued. */
  lemma DrainAnswersIffAwake(s: System)
    requires ValidSystem(s) && s.service.NotServing? && Consistent(s.journal)
    requires s.journal.app.state.Execution? && Concludes(s.journal.app, s.encoder.position)
    ensures s.journal.answers + [AnswerOwed(s)] <= Drain(s).journal.answers <==> WakePending(s)
  {
    if WakePending(s) {
      WakeUpIsAnswered(s);
    } else {
      DrainWithoutWakeChangesNothing(s);
    }
  }

  lemma {:induction false} DrainKeepsHistory(s: System)
    requires ValidSystem(s) && s.service.NotServing?
    ensures s.journal.answers <= Drain(s).journal.answers
    decreases TotalWeight(s.queue)
  {
    if s.queue == [] {
    } else {
      hide ActOn;
      ServeFrontIsLighter(s);
      DrainKeepsHistory(ServeFront(s));
      ServingKeepsHistory(s);
    }
  }

  lemma ServingKeepsHistory(s: System)
    requires ValidSystem(s) && s.service.NotServing? && s.queue != []
    ensures s.journal.answers <= ServeFront(s).journal.answers
  {
  }

  /**
   No command hangs at its target: in every reachable state between two handlers in which no wake-up was refused or
   dropped, if the command under way is invalid or the encoder shows its position, the queue holds what will answer it.
   */
  lemma ReachableCommandIsAnswered(e: Encoder, p: Parser, moves: seq<Move>)
    requires QuadratureEncoder.Valid(e) && Receiver.Valid(p)
    requires var s := Reached(e, p, moves);
             OfWake !in s.lost && s.service.NotServing? && CanConclude(s.journal.app, s.encoder)
    ensures var s := Reached(e, p, moves);
            && |s.journal.answers| < |s.journal.accepted|
            && s.journal.answers + [AnswerOwed(s)] <= Drain(s).journal.answers
  {
    EveryReachableStateIsSafe(e, p, moves);
    WakeUpIsAnswered(Reached(e, p, moves));
  }
}
