/** The application state machine (application/user_application.c): one handled event, and runs of events. */
module Application {
  import opened Bytes
  import opened QuadratureEncoder
  import opened Shaft

  datatype AppState = Calibration | Ready | Execution
  datatype Motor = Off | On(direction: Direction)
  datatype RespStatus = RespOk | InvalidAngle

  /** The queued events. A command request carries the first three bytes of the packet: type and 16-bit angle. */
  datatype Event = Internal | CmdRequest(cmdType: Byte, angle: nat) | StepActivity | HomeActivity

  const SET_ANGLE: Byte := 0

  /** The static variables of the handler and what it last told the motor driver. */
  datatype App = App(state: AppState, savedCmdType: Byte, respStatus: RespStatus, positionRequested: Byte, motor: Motor)

  const POWER_UP_APP := App(Calibration, 0, RespOk, 0, Off)

  datatype Response = Response(status: RespStatus, angle: nat)

  // ---- angles and positions ----

  /** The macro's value as the 8-bit field keeps it. */
  function AngleToPosition(angle: nat): Byte {
    ((angle * RESOLUTION) / 360) % 256
  }

  function PositionToAngle(position: nat): nat {
    (position * 360) / RESOLUTION
  }

  predicate IsPositionValid(position: nat) {
    position <= RESOLUTION - 1
  }

  /** The response a command must get, from the angle alone: half the angle, kept in 8 bits, must be a position. */
  function ResponseTo(angle: nat): Response {
    var half := angle / 2 % 256;
    Response(if half < 180 then RespOk else InvalidAngle, 2 * half)
  }

  lemma AcceptanceByHalfAngle(angle: nat)
    ensures AngleToPosition(angle) == angle / 2 % 256
    ensures IsPositionValid(AngleToPosition(angle)) <==> ResponseTo(angle).status.RespOk?
    ensures PositionToAngle(AngleToPosition(angle)) == ResponseTo(angle).angle
  {
    assert (angle * 180) / 360 == angle / 2;
  }

  /**
   The 8-bit field makes the validity check look at the angle modulo 512 only, so that it accepts angles far outside
   the circle. It means "below 360" for exactly those angles that are below 512 or at least 360 modulo 512.
   */
  lemma AcceptanceIsExactIff(angle: nat)
    ensures ResponseTo(angle).status.RespOk? <==> angle % 512 < 360
    ensures (ResponseTo(angle).status.RespOk? <==> angle < 360) <==> angle < 512 || angle % 512 >= 360
  {
    HalfModulo(angle / 512, angle % 512);
  }

  lemma HalfModulo(turns: nat, rest: nat)
    requires rest < 512
    ensures (512 * turns + rest) / 2 % 256 == rest / 2
  {
    assert (512 * turns + rest) / 2 == 256 * turns + rest / 2;
  }

  lemma AngleOutsideCircleIsAccepted()
    ensures ResponseTo(512) == Response(RespOk, 0)
  {
  }

  /** For every angle of the circle the response is OK and carries the angle rounded down to an even one. */
  lemma CircleAngleRoundsDown(angle: nat)
    requires angle < 360
    ensures ResponseTo(angle) == Response(RespOk, angle - angle % 2)
  {
  }

  /** Position to angle to position is the identity for every resolution that divides 360. */
  lemma PositionSurvivesAngle(resolution: nat, position: nat, degrees: nat)
    requires resolution * degrees == 360 && position < resolution
    ensures (((position * 360) / resolution) * resolution) / 360 == position
  {
    assert position * 360 == (position * degrees) * resolution by {
      assert position * (resolution * degrees) == (position * degrees) * resolution;
    }
    DivideProduct(position * degrees, resolution);
    DivideProduct(position, 360);
  }

  lemma DivideProduct(a: nat, b: nat)
    requires b > 0
    ensures (a * b) / b == a
  {
    var q, r := (a * b) / b, (a * b) % b;
    assert a * b == q * b + r;
    UniqueQuotient(a, q, b, r);
  }

  lemma UniqueQuotient(a: nat, q: int, b: nat, r: nat)
    requires r < b && a * b == q * b + r
    ensures a == q
  {
    if a > q {
      MulAtLeast(a - q, b);
    } else if a < q {
      MulAtLeast(q - a, b);
    }
  }

  lemma MulAtLeast(n: nat, b: nat)
    requires n >= 1
    ensures n * b >= b
  {
  }

  // ---- one event ----

  datatype Outcome = Outcome(app: App, put: Option<Event>, response: Option<Response>)

  /** Starting a command for `requested` when the encoder read `position`. */
  function Begin(app: App, cmdType: Byte, requested: Byte, position: nat): Outcome {
    var status := if IsPositionValid(requested) then RespOk else InvalidAngle;
    var motor := if status.InvalidAngle? || requested == position then app.motor
                 else On(if requested > position then Anticlockwise else Clockwise);
    Outcome(App(Execution, cmdType, status, requested, motor),
            if status.InvalidAngle? || requested == position then Some(Internal) else None,
            None)
  }

  predicate Concludes(app: App, position: nat) {
    app.positionRequested == position || !app.respStatus.RespOk?
  }

  /** What handling `event` does when the encoder position it reads is `position`. */
  function Handle(app: App, event: Event, position: nat): Outcome {
    var ignored := Outcome(app, None, None);
    match (app.state, event)
    case (Calibration, Internal) => ignored.(app := app.(motor := On(Clockwise)))
    case (Calibration, HomeActivity) => ignored.(app := app.(motor := Off, state := Ready))
    case (Ready, CmdRequest(cmdType, angle)) =>
      if cmdType == SET_ANGLE then Begin(app, cmdType, AngleToPosition(angle), position) else ignored
    case (Execution, Internal) => Progress(app, position)
    case (Execution, StepActivity) => Progress(app, position)
    case _ => ignored
  }

  function Progress(app: App, position: nat): Outcome {
    if app.savedCmdType == SET_ANGLE && Concludes(app, position)
    then Outcome(app.(motor := Off, state := Ready), None,
                 Some(Response(app.respStatus, PositionToAngle(app.positionRequested))))
    else Outcome(app, None, None)
  }

  /** All a handler ever puts is the internal event, and every angle it reports fits in 16 bits. */
  lemma HandleShape(app: App, event: Event, position: nat)
    ensures var o := Handle(app, event, position);
            && (o.put.Some? ==> o.put.value == Internal)
            && (o.response.Some? ==> o.response.value.angle < 0x1_0000)
  {
  }

  predicate Accepts(app: App, event: Event) {
    app.state.Ready? && event.CmdRequest? && event.cmdType == SET_ANGLE
  }

  /** The response frame: type, status and angle. */
  function ResponseBytes(r: Response): (s: seq<Byte>)
    requires r.angle < 0x1_0000
    ensures |s| == 4
  {
    [0, if r.status.RespOk? then 0 else 1] + LittleEndian(r.angle)
  }

  class UserApplication {
    var state: AppState
    var savedCmdType: Byte
    var respStatus: RespStatus
    var positionRequested: Byte
    var motor: Motor

    ghost function View(): App
      reads this
    {
      App(state, savedCmdType, respStatus, positionRequested, motor)
    }

    constructor ()
      ensures View() == POWER_UP_APP
      ensures state.Calibration? && savedCmdType == 0 && respStatus.RespOk? && positionRequested == 0 && motor.Off?
    {
      state, savedCmdType, respStatus, positionRequested, motor := Calibration, 0, RespOk, 0, Off;
    }

    method DriveAnticlockwise()
      modifies this`motor
      ensures motor == On(Anticlockwise)
    {
      motor := On(Anticlockwise);
    }

    method DriveClockwise()
      modifies this`motor
      ensures motor == On(Clockwise)
    {
      motor := On(Clockwise);
    }

    method DriveStop()
      modifies this`motor
      ensures motor == Off
    {
      motor := Off;
    }

    /** The event handler; `position` is what its read of the encoder position returns. */
    method StateMachineEventHandler(event: Event, position: nat)
      returns (put: Option<Event>, response: Option<Response>)
      modifies this
      ensures Outcome(View(), put, response) == Handle(old(View()), event, position)
    {
      put, response := None, None;
      match state {
        case Calibration =>
          match event {
            case Internal =>
              DriveClockwise();
            case CmdRequest(_, _) =>
            case StepActivity =>
            case HomeActivity =>
              DriveStop();
              state := Ready;
          }
        case Ready =>
          match event {
            case CmdRequest(cmdType, angle) =>
              if cmdType == SET_ANGLE {
                savedCmdType := cmdType;
                positionRequested := AngleToPosition(angle);
                if !IsPositionValid(positionRequested) {
                  respStatus := InvalidAngle;
                  state := Execution;
                  put := Some(Internal);
                } else {
                  respStatus := RespOk;
                  state := Execution;
                  if positionRequested > position {
                    DriveAnticlockwise();
                  } else if positionRequested < position {
                    DriveClockwise();
                  } else {
                    put := Some(Internal);
                  }
                }
              }
            case Internal =>
            case StepActivity =>
            case HomeActivity =>
          }
        case Execution =>
          match event {
            case CmdRequest(_, _) =>
            case HomeActivity =>
            case Internal =>
              response := ProgressOrConclude(position);
            case StepActivity =>
              response := ProgressOrConclude(position);
          }
      }
    }

    method ProgressOrConclude(position: nat) returns (response: Option<Response>)
      modifies this
      ensures Outcome(View(), None, response) == Progress(old(View()), position)
    {
      response := None;
      if savedCmdType == SET_ANGLE {
        if positionRequested == position || respStatus != RespOk {
          DriveStop();
          response := Some(Response(respStatus, PositionToAngle(positionRequested)));
          state := Ready;
        }
      }
    }
  }

  // ---- runs of events ----

  /** A response sent, with the position read by the handler that sent it. */
  datatype Answer = Answer(response: Response, read: nat)

  /** The machine with its history: the angles of the accepted commands and the responses sent, in order. */
  datatype Journal = Journal(app: App, accepted: seq<nat>, answers: seq<Answer>)

  const POWER_UP_JOURNAL := Journal(POWER_UP_APP, [], [])

  function Record(j: Journal, event: Event, position: nat): Journal {
    var o := Handle(j.app, event, position);
    Journal(o.app,
            if Accepts(j.app, event) then j.accepted + [event.angle] else j.accepted,
            if o.response.Some? then j.answers + [Answer(o.response.value, position)] else j.answers)
  }

  /** What every history shows. */
  ghost predicate Consistent(j: Journal) {
    // accepted commands minus responses is 1 in execution and 0 otherwise
    && |j.accepted| == |j.answers| + (if j.app.state.Execution? then 1 else 0)
    // the i-th response is the one the i-th accepted command must get
    && (forall i :: 0 <= i < |j.answers| ==> j.answers[i].response == ResponseTo(j.accepted[i]))
    // an OK response is sent only by a handler that read the position asked for
    && (forall i :: 0 <= i < |j.answers| && j.answers[i].response.status.RespOk? ==>
          j.answers[i].response.angle == PositionToAngle(j.answers[i].read))
    // the command under way
    && (j.app.state.Execution? ==>
          && j.app.savedCmdType == SET_ANGLE
          && Response(j.app.respStatus, PositionToAngle(j.app.positionRequested)) == ResponseTo(j.accepted[|j.answers|])
          && (j.app.respStatus.RespOk? <==> IsPositionValid(j.app.positionRequested))
          && (j.app.respStatus.InvalidAngle? ==> j.app.motor.Off?))
    // the motor is off while no command is under way
    && (j.app.state.Ready? ==> j.app.motor.Off?)
    && (j.app.state.Calibration? ==> j.accepted == [])
  }

  lemma RecordKeepsConsistent(j: Journal, event: Event, position: nat)
    requires Consistent(j)
    ensures Consistent(Record(j, event, position))
  {
    if Accepts(j.app, event) {
      AcceptanceByHalfAngle(event.angle);
    }
  }

  /** An event together with the position the encoder happens to show when it is handled. */
  datatype Occurrence = Occurrence(event: Event, position: nat)

  function RecordAll(j: Journal, run: seq<Occurrence>): Journal {
    if run == [] then j
    else Record(RecordAll(j, run[..|run| - 1]), run[|run| - 1].event, run[|run| - 1].position)
  }

  /** Requests and responses correspond over every event sequence and every asynchronous position change. */
  lemma {:induction false} EveryRunIsConsistent(run: seq<Occurrence>)
    ensures Consistent(RecordAll(POWER_UP_JOURNAL, run))
  {
    if run == [] {
    } else {
      EveryRunIsConsistent(run[..|run| - 1]);
      var last := run[|run| - 1];
      RecordKeepsConsistent(RecordAll(POWER_UP_JOURNAL, run[..|run| - 1]), last.event, last.position);
    }
  }

  // ---- what each state does ----

  predicate HomeHandled(run: seq<Occurrence>) {
    exists i :: 0 <= i < |run| && run[i].event.HomeActivity?
  }

  predicate InternalHandled(run: seq<Occurrence>) {
    exists i :: 0 <= i < |run| && run[i].event.Internal?
  }

  /**
   The calibration, over every run from power-up: it lasts exactly until the first home event is handled, and in it the
   motor turns clockwise from the first internal event on and is off before; nothing else changes.
   */
  lemma {:induction false} CalibrationLastsUntilHome(run: seq<Occurrence>)
    ensures var app := RecordAll(POWER_UP_JOURNAL, run).app;
            && (app.state.Calibration? <==> !HomeHandled(run))
            && (app.state.Calibration? ==>
                  app == App(Calibration, 0, RespOk, 0, if InternalHandled(run) then On(Clockwise) else Off))
  {
    if run == [] {
    } else {
      var n := |run| - 1;
      CalibrationLastsUntilHome(run[..n]);
      OneMoreHandled(run);
    }
  }

  lemma OneMoreHandled(run: seq<Occurrence>)
    requires run != []
    ensures var n := |run| - 1;
            && (HomeHandled(run) <==> HomeHandled(run[..n]) || run[n].event.HomeActivity?)
            && (InternalHandled(run) <==> InternalHandled(run[..n]) || run[n].event.Internal?)
  {
    var n := |run| - 1;
    assert forall i :: 0 <= i < n ==> run[..n][i] == run[i];
  }

  /**
   A command is accepted in ready if and only if its type is 0, and nothing is accepted in any other state. Then the
   command is under way with its type saved, and the motor is started if and only if half the angle, kept in 8 bits, is a position other
   than the one read: anticlockwise toward a higher one, clockwise toward a lower one.
   */
  lemma ReadyAcceptsTypeZero(j: Journal, event: Event, position: nat)
    requires Consistent(j)
    ensures var r := Record(j, event, position);
            var accepted := j.app.state.Ready? && event.CmdRequest? && event.cmdType == 0;
            && r.accepted == (if accepted then j.accepted + [event.angle] else j.accepted)
            && (j.app.state.Ready? ==> r.app.state == if accepted then Execution else Ready)
            && (j.app.state.Ready? && !accepted ==> r == j)
            && (accepted ==> r.app.savedCmdType == 0)
            && (accepted ==> var half := event.angle / 2 % 256;
                             r.app.motor == if half >= 180 || half == position then Off
                                            else if half > position then On(Anticlockwise) else On(Clockwise))
  {
    if event.CmdRequest? {
      AcceptanceByHalfAngle(event.angle);
    }
  }
}
