/**
 The packet path inside the whole system: whatever the encoder and the application do in between, parser and
 queued checks behave as the inbox of module Inbox, and intact packets become command requests.
 */
module SystemInbox {
  import opened Bytes
  import opened Packets
  import opened QuadratureEncoder
  import opened Receiver
  import opened Inbox
  import opened Application
  import opened SystemModel

  function JobsIn(q: seq<Task>): seq<Job> {
    if q == [] then []
    else JobsIn(q[..|q| - 1]) + (if q[|q| - 1].PacketCheck? then [q[|q| - 1].job] else [])
  }

  lemma {:induction false} JobsInFirst(q: seq<Task>)
    requires q != []
    ensures JobsIn(q) == (if q[0].PacketCheck? then [q[0].job] else []) + JobsIn(q[1..])
  {
    if |q| == 1 {
      assert q[..0] == [] && q[1..] == [];
    } else {
      var n := |q| - 1;
      JobsInFirst(q[..n]);
      assert q[..n][1..] == q[1..][..n - 1];
    }
  }

  lemma JobsInPut(q: seq<Task>, t: Task)
    ensures JobsIn(q + [t]) == JobsIn(q) + (if t.PacketCheck? then [t.job] else [])
  {
    assert (q + [t])[..|q|] == q;
  }

  /** The tasks whose handler has not acted yet. */
  function Unacted(s: System): seq<Task>
    requires ValidSystem(s)
  {
    if s.service.Acted? then s.queue[1..] else s.queue
  }

  function InboxOf(s: System): Inbox
    requires ValidSystem(s)
  {
    Inbox(s.parser, JobsIn(Unacted(s)))
  }

  predicate ActsOnPacket(s: System, m: Move)
    requires ValidSystem(s)
  {
    m.MainLoop? && s.service.PositionRead? && s.queue[0].PacketCheck?
  }

  /** What a move of the system is to the inbox. */
  function ActionOf(s: System, m: Move): (r: seq<Action>)
    requires ValidSystem(s)
    ensures |r| <= 1
  {
    if m.ByteIrq? then [Arrive(m.b)] else if ActsOnPacket(s, m) then [PostProcess] else []
  }

  lemma {:induction false} JobsInFit(q: seq<Task>)
    requires forall i :: 0 <= i < |q| && q[i].PacketCheck? ==> q[i].job.size <= MAX_DATA_LENGTH
    ensures forall i :: 0 <= i < |JobsIn(q)| ==> JobsIn(q)[i].size <= MAX_DATA_LENGTH
  {
    if q == [] {
    } else {
      JobsInFit(q[..|q| - 1]);
    }
  }

  lemma InboxIsValid(s: System)
    requires ValidSystem(s)
    ensures ValidInbox(InboxOf(s))
  {
    JobsInFit(Unacted(s));
  }

  /** Each move is at most one inbox action, unless a check was refused a place or dropped. */
  lemma MoveRefinesInbox(s: System, m: Move)
    requires ValidSystem(s) && OfCheck !in Apply(s, m).lost
    ensures ValidInbox(InboxOf(s))
    ensures InboxOf(Apply(s, m)) == ActAll(InboxOf(s), ActionOf(s, m)).0
  {
    InboxIsValid(s);
    match m {
      case ByteIrq(b) =>
        ByteRefinesInbox(s, b);
        ActAllOne(InboxOf(s), Arrive(b));
      case EncoderIrq(i) =>
        EncoderRefinesInbox(s, i);
      case MainLoop =>
        if s.service.PositionRead? {
          ActRefinesInbox(s);
          if ActsOnPacket(s, m) {
            ActAllOne(InboxOf(s), PostProcess);
          }
        }
    }
  }

  lemma ByteRefinesInbox(s: System, b: Byte)
    requires ValidSystem(s) && ValidInbox(InboxOf(s)) && OfCheck !in Apply(s, ByteIrq(b)).lost
    ensures InboxOf(Apply(s, ByteIrq(b))) == Act(InboxOf(s), Arrive(b)).0
  {
    var (parser, job) := Receive(s.parser, b);
    if job.Some? {
      JobsInPut(Unacted(s), PacketCheck(job.value));
      assert Unacted(Apply(s, ByteIrq(b))) == Unacted(s) + [PacketCheck(job.value)];
    } else {
      assert JobsIn(Unacted(s)) + [] == JobsIn(Unacted(s));
    }
  }

  lemma EncoderRefinesInbox(s: System, i: Interrupt)
    requires ValidSystem(s) && OfCheck !in Apply(s, EncoderIrq(i)).lost
    ensures InboxOf(Apply(s, EncoderIrq(i))) == InboxOf(s)
  {
    var moved := s.(encoder := Step(s.encoder, i));
    if PutOf(s, EncoderIrq(i)).Some? {
      PutEventKeepsJobs(moved, PutOf(s, EncoderIrq(i)).value);
    }
  }

  lemma PutEventKeepsJobs(s: System, t: Task)
    requires ValidSystem(s) && t.AppEvent? && OfCheck !in PutTask(s, t).lost
    ensures ValidSystem(PutTask(s, t)) && InboxOf(PutTask(s, t)) == InboxOf(s)
  {
    if HasRoom(s) {
      JobsInPut(Unacted(s), t);
      assert Unacted(PutTask(s, t)) == Unacted(s) + [t];
    } else if AtBrink(s) {
      NoCheckNoJob(s.queue);
    }
  }

  lemma KindsOfParts(q: seq<Task>)
    requires q != []
    ensures Kinds(q[..|q| - 1]) <= Kinds(q) && KindOf(q[|q| - 1]) in Kinds(q)
  {
    var p := q[..|q| - 1];
    forall k | k in Kinds(p) ensures k in Kinds(q) {
      var i :| 0 <= i < |p| && k == KindOf(p[i]);
      assert p[i] == q[i];
    }
  }

  lemma {:induction false} NoCheckNoJob(q: seq<Task>)
    requires OfCheck !in Kinds(q)
    ensures JobsIn(q) == []
  {
    hide Kinds;
    if q == [] {
    } else {
      var n := |q| - 1;
      KindsOfParts(q);
      NoCheckNoJob(q[..n]);
    }
  }

  /** Acting takes the front task out of the inbox and puts at most one application event. */
  lemma ActRefinesInbox(s: System)
    requires ValidSystem(s) && ValidInbox(InboxOf(s)) && s.service.PositionRead?
    ensures InboxOf(MainStep(s))
         == if s.queue[0].PacketCheck? then Act(InboxOf(s), PostProcess).0 else InboxOf(s)
  {
    hide ActOn;
    var t := ActPutsLighter(s, s.service.position);
    var rest := s.queue[1..];
    JobsInFirst(s.queue);
    if t.Some? {
      JobsInPut(rest, t.value);
      assert (s.queue + [t.value])[1..] == rest + [t.value];
    }
    assert JobsIn(Unacted(MainStep(s))) == JobsIn(rest);
  }

  lemma ActAllOne(x: Inbox, a: Action)
    requires ValidInbox(x)
    ensures ActAll(x, [a]).0 == Act(x, a).0
  {
    assert [a][1..] == [];
  }

  lemma {:induction false} ActAllAppend(x: Inbox, trace: seq<Action>, more: seq<Action>)
    requires ValidInbox(x)
    ensures ActAll(x, trace + more).0 == ActAll(ActAll(x, trace).0, more).0
    ensures ActAll(x, trace + more).1 == ActAll(x, trace).1 + ActAll(ActAll(x, trace).0, more).1
    ensures Timely(x, trace) && Timely(ActAll(x, trace).0, more) ==> Timely(x, trace + more)
    decreases |trace|
  {
    hide Act, ValidInbox;
    if trace == [] {
      assert trace + more == more;
    } else {
      assert (trace + more)[0] == trace[0] && (trace + more)[1..] == trace[1..] + more;
      var (y, out) := Act(x, trace[0]);
      ActAllAppend(y, trace[1..], more);
      var later, last := ActAll(y, trace[1..]).1, ActAll(ActAll(x, trace).0, more).1;
      assert out + (later + last) == (out + later) + last;
    }
  }

  lemma {:induction false} BytesOfAppend(trace: seq<Action>, more: seq<Action>)
    ensures BytesOf(trace + more) == BytesOf(trace) + BytesOf(more)
  {
    if trace == [] {
      assert trace + more == more;
    } else {
      assert (trace + more)[0] == trace[0] && (trace + more)[1..] == trace[1..] + more;
      BytesOfAppend(trace[1..], more);
    }
  }

  // ---- runs ----

  /** The inbox actions of a run of the system. */
  function ActionsOf(s: System, moves: seq<Move>): seq<Action>
    requires ValidSystem(s)
  {
    if moves == [] then []
    else ActionsOf(s, moves[..|moves| - 1]) + ActionOf(ApplyAll(s, moves[..|moves| - 1]), moves[|moves| - 1])
  }

  /** The bytes received in a run. */
  function BytesIn(moves: seq<Move>): seq<Byte> {
    if moves == [] then []
    else BytesIn(moves[..|moves| - 1]) + (if moves[|moves| - 1].ByteIrq? then [moves[|moves| - 1].b] else [])
  }

  /** No data byte arrives while the check of an earlier packet has not yet read the buffer. */
  predicate ChecksInTime(s: System, moves: seq<Move>)
    requires ValidSystem(s)
  {
    moves == [] ||
    (&& ChecksInTime(s, moves[..|moves| - 1])
     && var before := ApplyAll(s, moves[..|moves| - 1]);
        moves[|moves| - 1].ByteIrq? && before.parser.state.GetData? ==> JobsIn(Unacted(before)) == [])
  }

  lemma LossLasts(s: System, m: Move)
    requires ValidSystem(s)
    ensures s.lost <= Apply(s, m).lost
  {
  }

  /** A run in which no check is refused a place or dropped is a run of the inbox, on the bytes received. */
  lemma {:induction false} RunRefinesInbox(s: System, moves: seq<Move>)
    requires ValidSystem(s) && OfCheck !in ApplyAll(s, moves).lost
    ensures ValidInbox(InboxOf(s))
    ensures InboxOf(ApplyAll(s, moves)) == ActAll(InboxOf(s), ActionsOf(s, moves)).0
    ensures BytesOf(ActionsOf(s, moves)) == BytesIn(moves)
    ensures ChecksInTime(s, moves) ==> Timely(InboxOf(s), ActionsOf(s, moves))
  {
    InboxIsValid(s);
    if moves == [] {
    } else {
      hide Apply, Act, Receive;
      var n := |moves| - 1;
      var before := ApplyAll(s, moves[..n]);
      LossLasts(before, moves[n]);
      RunRefinesInbox(s, moves[..n]);
      MoveRefinesInbox(before, moves[n]);
      ActAllAppend(InboxOf(s), ActionsOf(s, moves[..n]), ActionOf(before, moves[n]));
      BytesOfAppend(ActionsOf(s, moves[..n]), ActionOf(before, moves[n]));
      OneActionIsTimely(before, moves[n]);
    }
  }

  lemma OneActionIsTimely(s: System, m: Move)
    requires ValidSystem(s) && ValidInbox(InboxOf(s))
    ensures BytesOf(ActionOf(s, m)) == if m.ByteIrq? then [m.b] else []
    ensures (m.ByteIrq? && s.parser.state.GetData? ==> JobsIn(Unacted(s)) == []) ==> Timely(InboxOf(s), ActionOf(s, m))
  {
    hide Act;
    var trace := ActionOf(s, m);
    if trace != [] {
      assert trace[1..] == [];
      assert Timely(Act(InboxOf(s), trace[0]).0, trace[1..]);
    }
  }

  /**
   The stream round trip in the running system: from any state with the parser hunting and no check queued, if no
   check is lost, each runs before the next packet's first data byte, and none is left at the end, the checks
   report exactly the payloads sent, in order and intact.
   */
  lemma SystemReportsPayloads(s: System, moves: seq<Move>, segments: seq<Segment>, tail: seq<Byte>)
    requires ValidSystem(s) && ValidInbox(InboxOf(s)) && Hunting(s.parser) && InboxOf(s).jobs == []
    requires Clean(segments) && Quiet(tail)
    requires OfCheck !in ApplyAll(s, moves).lost && InboxOf(ApplyAll(s, moves)).jobs == []
    requires BytesIn(moves) == Stream(segments) + tail && ChecksInTime(s, moves)
    ensures ActAll(InboxOf(s), ActionsOf(s, moves)).1
         == seq(|segments|, i requires 0 <= i < |segments| => Report(Ok, segments[i].payload))
  {
    RunRefinesInbox(s, moves);
    StreamRoundTrip(InboxOf(s), ActionsOf(s, moves), segments, tail);
  }

  /**
   An intact packet of any size queues a command made of the first three bytes of its data and, if there are
   fewer, of what earlier packets left behind them in the buffer; a corrupted packet queues nothing.
   */
  lemma IntactPacketBecomesCommand(s: System)
    requires ValidSystem(s) && ActsOnPacket(s, MainLoop)
    ensures s.queue[0].job.size <= |s.parser.buffer|
    ensures var report := CheckJob(s.parser.buffer, s.queue[0].job);
            && PutOf(s, MainLoop)
               == (if report.status.Ok?
                   then Some(AppEvent(CommandIn(report.data + s.parser.buffer[|report.data|..]))) else None)
            && (report.status.Ok? && |report.data| >= 3 ==>
                  PutOf(s, MainLoop) == Some(AppEvent(CommandIn(report.data))))
            && MainStep(s).journal == s.journal
  {
    var data := CheckJob(s.parser.buffer, s.queue[0].job).data;
    assert data + s.parser.buffer[|data|..] == s.parser.buffer;
  }

  // ---- from reports to accepted commands ----

  /** The command requests in a queue. */
  function CommandsIn(q: seq<Task>): seq<Event> {
    if q == [] then [] else CommandsIn(q[..|q| - 1]) + CommandOf(q[|q| - 1])
  }

  function CommandOf(t: Task): seq<Event> {
    if t.AppEvent? && t.event.CmdRequest? then [t.event] else []
  }

  lemma {:induction false} CommandsInFirst(q: seq<Task>)
    requires q != []
    ensures CommandsIn(q) == CommandOf(q[0]) + CommandsIn(q[1..])
  {
    hide CommandOf;
    if |q| == 1 {
      assert q[..0] == [] && q[1..] == [];
    } else {
      var n := |q| - 1;
      CommandsInFirst(q[..n]);
      assert q[..n][1..] == q[1..][..n - 1];
    }
  }

  lemma CommandsInPut(q: seq<Task>, t: Task)
    ensures CommandsIn(q + [t]) == CommandsIn(q) + CommandOf(t)
  {
    assert (q + [t])[..|q|] == q;
  }

  /** The weight that bounds the handler calls is 3 for each check, 2 for each command and 1 for each other event. */
  lemma {:induction false} WeightIsThreeTwoOne(q: seq<Task>)
    ensures TotalWeight(q) == |q| + 2 * |JobsIn(q)| + |CommandsIn(q)|
  {
    if q == [] {
    } else {
      WeightIsThreeTwoOne(q[..|q| - 1]);
    }
  }

  /** The command a move handles, and the one it has the queue take in. */
  function Handled(s: System, m: Move): seq<Event>
    requires ValidSystem(s)
  {
    if m.MainLoop? && s.service.PositionRead? then CommandOf(s.queue[0]) else []
  }

  function Queued(s: System, m: Move): seq<Event>
    requires ValidSystem(s)
  {
    if PutOf(s, m).Some? then CommandOf(PutOf(s, m).value) else []
  }

  predicate Handling(s: System, m: Move) {
    m.MainLoop? && s.service.PositionRead?
  }

  lemma UnactedAfter(s: System, m: Move)
    requires ValidSystem(s)
    ensures var rest := if Handling(s, m) then s.queue[1..] else Unacted(s);
            var put := PutOf(s, m);
            Unacted(Apply(s, m))
            == if put.None? || !s.notFull then rest else if AtBrink(s) then [] else rest + [put.value]
  {
    var put := PutOf(s, m);
    if m.MainLoop? {
      if put.Some? && HasRoom(s) {
        assert (s.queue + [put.value])[1..] == s.queue[1..] + [put.value];
      }
    } else {
      InterruptPuts(s, m);
    }
  }

  lemma InterruptPuts(s: System, m: Move)
    requires ValidSystem(s) && !m.MainLoop?
    ensures var put := PutOf(s, m);
            Unacted(Apply(s, m))
            == if put.None? || !s.notFull then Unacted(s) else if AtBrink(s) then [] else Unacted(s) + [put.value]
  {
    hide PutOf, Receive, Step;
    var put := PutOf(s, m);
    if put.Some? && HasRoom(s) && s.service.Acted? {
      assert (s.queue + [put.value])[1..] == s.queue[1..] + [put.value];
    }
  }

  /** A put without room that loses no command neither was one nor dropped one. */
  lemma NoCommandLost(s: System, m: Move)
    requires ValidSystem(s) && PutOf(s, m).Some? && !HasRoom(s) && OfCommand !in Apply(s, m).lost
    ensures CommandOf(PutOf(s, m).value) == []
    ensures AtBrink(s) ==> CommandsIn(Unacted(s)) == CommandsIn([]) == []
  {
    if AtBrink(s) {
      NoCommandIn(s.queue);
    }
  }

  lemma {:induction false} NoCommandIn(q: seq<Task>)
    requires OfCommand !in Kinds(q)
    ensures CommandsIn(q) == []
  {
    hide Kinds;
    if q == [] {
    } else {
      var n := |q| - 1;
      KindsOfParts(q);
      NoCommandIn(q[..n]);
    }
  }

  /** A command that is queued is handled or still waiting, unless it was lost. */
  lemma MoveConservesCommands(s: System, m: Move)
    requires ValidSystem(s) && OfCommand !in Apply(s, m).lost
    ensures Handled(s, m) + CommandsIn(Unacted(Apply(s, m))) == CommandsIn(Unacted(s)) + Queued(s, m)
  {
    hide PutOf, Handled, CommandsIn, Apply, Unacted, Handling, ValidSystem;
    HandledLeaves(s, m);
    UnactedAfter(s, m);
    var put := PutOf(s, m);
    var rest := if Handling(s, m) then s.queue[1..] else Unacted(s);
    if put.Some? {
      CommandsInPut(rest, put.value);
      if !HasRoom(s) {
        NoCommandLost(s, m);
      }
    }
    assert CommandsIn(Unacted(Apply(s, m))) == CommandsIn(rest) + Queued(s, m);
    assert Handled(s, m) + (CommandsIn(rest) + Queued(s, m)) == (Handled(s, m) + CommandsIn(rest)) + Queued(s, m);
  }

  lemma HandledLeaves(s: System, m: Move)
    requires ValidSystem(s)
    ensures Handling(s, m) ==> s.queue != [] && !AtBrink(s)
    ensures var rest := if Handling(s, m) then s.queue[1..] else Unacted(s);
            Handled(s, m) + CommandsIn(rest) == CommandsIn(Unacted(s))
  {
    if Handling(s, m) {
      CommandsInFirst(s.queue);
    }
  }

  function HandledIn(s: System, moves: seq<Move>): seq<Event>
    requires ValidSystem(s)
  {
    if moves == [] then []
    else HandledIn(s, moves[..|moves| - 1]) + Handled(ApplyAll(s, moves[..|moves| - 1]), moves[|moves| - 1])
  }

  function QueuedIn(s: System, moves: seq<Move>): seq<Event>
    requires ValidSystem(s)
  {
    if moves == [] then []
    else QueuedIn(s, moves[..|moves| - 1]) + Queued(ApplyAll(s, moves[..|moves| - 1]), moves[|moves| - 1])
  }

  lemma {:induction false} RunConservesCommands(s: System, moves: seq<Move>)
    requires ValidSystem(s) && OfCommand !in ApplyAll(s, moves).lost
    ensures HandledIn(s, moves) + CommandsIn(Unacted(ApplyAll(s, moves))) == CommandsIn(Unacted(s)) + QueuedIn(s, moves)
  {
    if moves == [] {
      assert [] + CommandsIn(Unacted(s)) == CommandsIn(Unacted(s)) + [];
    } else {
      hide Apply, Handled, Queued, Unacted;
      var n := |moves| - 1;
      var before := ApplyAll(s, moves[..n]);
      LossLasts(before, moves[n]);
      RunConservesCommands(s, moves[..n]);
      MoveConservesCommands(before, moves[n]);
      Chain(HandledIn(s, moves[..n]), CommandsIn(Unacted(before)), CommandsIn(Unacted(s)), QueuedIn(s, moves[..n]),
            Handled(before, moves[n]), CommandsIn(Unacted(Apply(before, moves[n]))), Queued(before, moves[n]));
    }
  }

  lemma Chain<T>(done: seq<T>, waiting: seq<T>, start: seq<T>, queued: seq<T>, now: seq<T>, left: seq<T>, more: seq<T>)
    requires done + waiting == start + queued && now + left == waiting + more
    ensures (done + now) + left == start + (queued + more)
  {
    assert (done + now) + left == done + (now + left) == (done + waiting) + more;
    assert (start + queued) + more == start + (queued + more);
  }

  /** The command that an intact report stands for. */
  function CommandsOfReport(r: Report): seq<Event> {
    if r.status.Ok? && |r.data| >= 3 then [CommandIn(r.data)] else []
  }

  function CommandsOf(reports: seq<Report>): seq<Event> {
    if reports == [] then []
    else CommandsOf(reports[..|reports| - 1]) + CommandsOfReport(reports[|reports| - 1])
  }

  ghost predicate LongEnough(reports: seq<Report>) {
    forall i :: 0 <= i < |reports| ==> |reports[i].data| >= 3
  }

  /** What a run queues are the commands of its reports. */
  lemma {:induction false} QueuedAreReported(s: System, moves: seq<Move>)
    requires ValidSystem(s) && OfCheck !in ApplyAll(s, moves).lost && ValidInbox(InboxOf(s))
    requires LongEnough(ActAll(InboxOf(s), ActionsOf(s, moves)).1)
    ensures QueuedIn(s, moves) == CommandsOf(ActAll(InboxOf(s), ActionsOf(s, moves)).1)
  {
    if moves == [] {
    } else {
      hide Apply, Act, ActAll, InboxOf, ActionOf, Queued, CommandsOf, CommandsOfReport, LongEnough;
      hide Timely, BytesOf, BytesIn, ChecksInTime;
      var n := |moves| - 1;
      var x, before := InboxOf(s), ApplyAll(s, moves[..n]);
      LossLasts(before, moves[n]);
      RunRefinesInbox(s, moves[..n]);
      ActAllAppend(x, ActionsOf(s, moves[..n]), ActionOf(before, moves[n]));
      var earlier, now := ActAll(x, ActionsOf(s, moves[..n])).1, ActAll(InboxOf(before), ActionOf(before, moves[n])).1;
      LongEnoughParts(earlier, now);
      QueuedAreReported(s, moves[..n]);
      QueuedIsReported(before, moves[n]);
      CommandsOfMore(earlier, now);
    }
  }

  lemma LongEnoughParts(earlier: seq<Report>, now: seq<Report>)
    requires LongEnough(earlier + now)
    ensures LongEnough(earlier) && LongEnough(now)
  {
    assert forall i :: 0 <= i < |earlier| ==> earlier[i] == (earlier + now)[i];
    assert forall i :: 0 <= i < |now| ==> now[i] == (earlier + now)[|earlier| + i];
  }

  lemma CommandsOfMore(earlier: seq<Report>, now: seq<Report>)
    requires |now| <= 1
    ensures CommandsOf(earlier + now) == CommandsOf(earlier) + (if now != [] then CommandsOfReport(now[0]) else [])
  {
    if now != [] {
      assert (earlier + now)[..|earlier|] == earlier;
    } else {
      assert earlier + now == earlier;
    }
  }

  lemma QueuedIsReported(s: System, m: Move)
    requires ValidSystem(s) && ValidInbox(InboxOf(s))
    requires LongEnough(ActAll(InboxOf(s), ActionOf(s, m)).1)
    ensures var now := ActAll(InboxOf(s), ActionOf(s, m)).1;
            && |now| <= 1
            && Queued(s, m) == if now != [] then CommandsOfReport(now[0]) else []
  {
    if ActsOnPacket(s, m) {
      PacketIsReported(s);
    } else {
      OtherMovesQueueNone(s, m);
      hide Queued;
      if m.ByteIrq? {
        ReportsOne(InboxOf(s), Arrive(m.b));
      }
    }
  }

  lemma PacketIsReported(s: System)
    requires ValidSystem(s) && ValidInbox(InboxOf(s)) && ActsOnPacket(s, MainLoop)
    requires LongEnough(ActAll(InboxOf(s), [PostProcess]).1)
    ensures var now := ActAll(InboxOf(s), [PostProcess]).1;
            |now| == 1 && Queued(s, MainLoop) == CommandsOfReport(now[0])
  {
    JobsInFirst(s.queue);
    assert InboxOf(s).jobs[0] == s.queue[0].job;
    ReportsOne(InboxOf(s), PostProcess);
    hide ActAll, JobsIn;
    IntactPacketBecomesCommand(s);
  }

  lemma OtherMovesQueueNone(s: System, m: Move)
    requires ValidSystem(s) && !ActsOnPacket(s, m)
    ensures Queued(s, m) == []
  {
    if m.MainLoop? && s.service.PositionRead? {
      HandleShape(s.journal.app, s.queue[0].event, s.service.position);
    }
  }

  lemma ReportsOne(x: Inbox, a: Action)
    requires ValidInbox(x)
    ensures ActAll(x, [a]).1 == Act(x, a).1
  {
    assert [a][1..] == [];
    assert Act(x, a).1 + [] == Act(x, a).1;
  }

  /**
   Packets to commands, in the running system: under the conditions of the round trip, and if no command is
   lost either, the commands handled and the commands waiting are, in order, those of the payloads sent.
   */
  lemma SystemQueuesCommands(s: System, moves: seq<Move>, segments: seq<Segment>, tail: seq<Byte>)
    requires ValidSystem(s) && Hunting(s.parser) && JobsIn(Unacted(s)) == [] && CommandsIn(Unacted(s)) == []
    requires Clean(segments) && Quiet(tail) && forall i :: 0 <= i < |segments| ==> |segments[i].payload| >= 3
    requires var r := ApplyAll(s, moves); OfCheck !in r.lost && OfCommand !in r.lost && JobsIn(Unacted(r)) == []
    requires BytesIn(moves) == Stream(segments) + tail && ChecksInTime(s, moves)
    ensures HandledIn(s, moves) + CommandsIn(Unacted(ApplyAll(s, moves)))
         == seq(|segments|, i requires 0 <= i < |segments| => CommandIn(segments[i].payload))
  {
    hide HandledIn, QueuedIn, ActAll, ActionsOf, ChecksInTime, CommandsIn, CommandsOf, ApplyAll, Timely, Scan;
    InboxIsValid(s);
    SystemReportsPayloads(s, moves, segments, tail);
    QueuedAreReported(s, moves);
    RunConservesCommands(s, moves);
    CommandsOfPayloads(segments);
  }

  lemma {:induction false} CommandsOfPayloads(segments: seq<Segment>)
    requires forall i :: 0 <= i < |segments| ==> |segments[i].payload| >= 3
    ensures CommandsOf(seq(|segments|, i requires 0 <= i < |segments| => Report(Ok, segments[i].payload)))
         == seq(|segments|, i requires 0 <= i < |segments| => CommandIn(segments[i].payload))
  {
    if segments == [] {
    } else {
      var n := |segments| - 1;
      CommandsOfPayloads(segments[..n]);
      var reports := seq(|segments|, i requires 0 <= i < |segments| => Report(Ok, segments[i].payload));
      assert reports[..n] == seq(n, i requires 0 <= i < n => Report(Ok, segments[..n][i].payload));
    }
  }

  // ---- accepted commands ----

  predicate Subsequence<T(==)>(a: seq<T>, b: seq<T>) {
    || a == []
    || (b != [] && (|| Subsequence(a, b[..|b| - 1])
                    || (a[|a| - 1] == b[|b| - 1] && Subsequence(a[..|a| - 1], b[..|b| - 1]))))
  }

  lemma {:induction false} SubsequenceOfEqualLength<T>(a: seq<T>, b: seq<T>)
    requires Subsequence(a, b)
    ensures |a| <= |b| && (|a| == |b| ==> a == b)
  {
    if a == [] {
    } else {
      var m, n := |a| - 1, |b| - 1;
      if Subsequence(a, b[..n]) {
        SubsequenceOfEqualLength(a, b[..n]);
      } else {
        SubsequenceOfEqualLength(a[..m], b[..n]);
        assert a == a[..m] + [a[m]] && b == b[..n] + [b[n]];
      }
    }
  }

  lemma {:induction false} SubsequenceOfPrefix<T>(a: seq<T>, b: seq<T>, c: seq<T>)
    requires Subsequence(a, b)
    ensures Subsequence(a, b + c)
  {
    if c == [] {
      assert b + c == b;
    } else {
      var n := |c| - 1;
      SubsequenceOfPrefix(a, b, c[..n]);
      assert (b + c)[..|b + c| - 1] == b + c[..n];
    }
  }

  function Angles(events: seq<Event>): (r: seq<nat>)
    ensures |r| == |events|
  {
    seq(|events|, i requires 0 <= i < |events| => if events[i].CmdRequest? then events[i].angle else 0)
  }

  /** The commands accepted in a run are some of those it handles, in the same order. */
  lemma {:induction false} AcceptedAreHandled(s: System, moves: seq<Move>)
    requires ValidSystem(s) && s.journal.accepted == []
    ensures Subsequence(ApplyAll(s, moves).journal.accepted, Angles(HandledIn(s, moves)))
  {
    if moves == [] {
    } else {
      hide Apply, Handled, Subsequence, Angles;
      var n := |moves| - 1;
      var before, earlier := ApplyAll(s, moves[..n]), HandledIn(s, moves[..n]);
      AcceptedAreHandled(s, moves[..n]);
      MoveAccepts(before, moves[n]);
      var now := Handled(before, moves[n]);
      OneMoreHandled(before.journal.accepted, earlier, now, ApplyAll(s, moves).journal.accepted);
    }
  }

  lemma OneMoreHandled(accepted: seq<nat>, earlier: seq<Event>, now: seq<Event>, after: seq<nat>)
    requires Subsequence(accepted, Angles(earlier))
    requires |now| <= 1 && (now != [] ==> now[0].CmdRequest?)
    requires after == accepted || (now != [] && after == accepted + [now[0].angle])
    ensures Subsequence(after, Angles(earlier + now))
  {
    hide Subsequence;
    if now != [] {
      SubsequenceMore(accepted, Angles(earlier), now[0].angle);
      assert Angles(earlier + now) == Angles(earlier) + [now[0].angle];
    } else {
      assert earlier + now == earlier;
    }
  }

  lemma SubsequenceMore<T>(a: seq<T>, b: seq<T>, x: T)
    requires Subsequence(a, b)
    ensures Subsequence(a, b + [x]) && Subsequence(a + [x], b + [x])
  {
    assert (b + [x])[..|b|] == b && (a + [x])[..|a|] == a;
  }

  lemma MoveAccepts(s: System, m: Move)
    requires ValidSystem(s)
    ensures var now, accepted := Handled(s, m), Apply(s, m).journal.accepted;
            && |now| <= 1
            && (now != [] ==> now[0].CmdRequest?)
            && (accepted == s.journal.accepted || (now != [] && accepted == s.journal.accepted + [now[0].angle]))
  {
  }
}
