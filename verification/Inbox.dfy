/**
 Deferred checking over a shared buffer: a complete packet only queues its size and check byte, and the
 data are read from the receive buffer when the queued job runs, possibly after more bytes have arrived.
 */
module Inbox {
  import opened Bytes
  import opened Packets
  import opened Receiver

  datatype ReceptionStatus = Ok | Corrupted
  datatype Report = Report(status: ReceptionStatus, data: seq<Byte>)

  /** What an immediate check of a frame reports. */
  function Check(f: Frame): Report {
    Report(if Intact(f) then Ok else Corrupted, f.data)
  }

  function CheckAll(fs: seq<Frame>): (r: seq<Report>)
    ensures |r| == |fs|
    ensures forall i :: 0 <= i < |fs| ==> r[i] == Check(fs[i])
  {
    seq(|fs|, i requires 0 <= i < |fs| => Check(fs[i]))
  }

  /** A packet with errors is reported OK if and only if their bytes XOR to zero, and corrupted otherwise. */
  lemma ErrorIsReportedIff(p: seq<Byte>, error: seq<Byte>, checkError: Byte)
    requires |p| == |error|
    ensures var received := Disturb(p, error);
            Check(Frame(received, XorByte(XorAll(p), checkError)))
            == Report(if XorAll(error + [checkError]) == 0 then Ok else Corrupted, received)
  {
    ErrorIsMissedIffItXorsToZero(p, error, checkError);
  }

  /** What a deferred check reports: the data are whatever the buffer holds by now. */
  function CheckJob(buffer: seq<Byte>, job: Job): Report
    requires job.size <= |buffer|
  {
    Check(Frame(buffer[..job.size], job.crc))
  }

  datatype Inbox = Inbox(parser: Parser, jobs: seq<Job>)

  ghost predicate ValidInbox(x: Inbox) {
    Valid(x.parser) && forall i :: 0 <= i < |x.jobs| ==> x.jobs[i].size <= MAX_DATA_LENGTH
  }

  datatype Action = Arrive(b: Byte) | PostProcess

  function Act(x: Inbox, a: Action): (r: (Inbox, seq<Report>))
    requires ValidInbox(x)
    ensures ValidInbox(r.0)
  {
    match a
    case Arrive(b) =>
      var (parser, done) := Receive(x.parser, b);
      (Inbox(parser, x.jobs + (if done.Some? then [done.value] else [])), [])
    case PostProcess =>
      if x.jobs == [] then (x, [])
      else (x.(jobs := x.jobs[1..]), [CheckJob(x.parser.buffer, x.jobs[0])])
  }

  function ActAll(x: Inbox, trace: seq<Action>): (r: (Inbox, seq<Report>))
    requires ValidInbox(x)
    ensures ValidInbox(r.0)
    decreases |trace|
  {
    if trace == [] then (x, [])
    else
      var first := Act(x, trace[0]);
      var rest := ActAll(first.0, trace[1..]);
      (rest.0, first.1 + rest.1)
  }

  function BytesOf(trace: seq<Action>): seq<Byte> {
    if trace == [] then []
    else (if trace[0].Arrive? then [trace[0].b] else []) + BytesOf(trace[1..])
  }

  /** No data byte is stored while the check of an earlier packet is still queued. */
  predicate Timely(x: Inbox, trace: seq<Action>)
    requires ValidInbox(x)
    decreases |trace|
  {
    trace == [] ||
    ((trace[0].Arrive? && x.parser.state.GetData? ==> x.jobs == []) && Timely(Act(x, trace[0]).0, trace[1..]))
  }

  /** The reports the queued jobs would give right now. */
  function Outstanding(x: Inbox): (r: seq<Report>)
    requires ValidInbox(x)
    ensures |r| == |x.jobs|
    ensures forall i :: 0 <= i < |x.jobs| ==> r[i] == CheckJob(x.parser.buffer, x.jobs[i])
  {
    seq(|x.jobs|, i requires 0 <= i < |x.jobs| => CheckJob(x.parser.buffer, x.jobs[i]))
  }

  /** One action neither loses nor changes a report that is owed, and owes one more per completed frame. */
  lemma ActKeepsReports(x: Inbox, a: Action)
    requires ValidInbox(x) && (a.Arrive? && x.parser.state.GetData? ==> x.jobs == [])
    ensures Act(x, a).1 + Outstanding(Act(x, a).0)
         == Outstanding(x) + CheckAll(FramesNow(x.parser, a))
  {
    if a.Arrive? {
      var (parser, done) := Receive(x.parser, a.b);
      if done.Some? {
        assert CheckJob(parser.buffer, done.value) == Check(Completed((parser, done))[0]);
      }
    }
  }

  lemma {:induction false} DeferredReports(x: Inbox, trace: seq<Action>)
    requires ValidInbox(x) && Timely(x, trace)
    ensures ActAll(x, trace).1 + Outstanding(ActAll(x, trace).0)
         == Outstanding(x) + CheckAll(Run(x.parser, BytesOf(trace)).1)
    decreases |trace|
  {
    if trace == [] {
    } else {
      var (y, out) := Act(x, trace[0]);
      var rest := ActAll(y, trace[1..]);
      ActKeepsReports(x, trace[0]);
      DeferredReports(y, trace[1..]);
      FramesOfFirst(x.parser, trace);
      var now, later := FramesNow(x.parser, trace[0]), Run(y.parser, BytesOf(trace[1..])).1;
      CheckAllAppend(now, later);
      Regroup(out, rest.1, Outstanding(rest.0), Outstanding(y), CheckAll(later), Outstanding(x), CheckAll(now));
    }
  }

  /** The accounting of one action, on the sequences of reports alone. */
  lemma Regroup<T>(out: seq<T>, outs: seq<T>, end: seq<T>, owed: seq<T>, later: seq<T>, owed0: seq<T>, now: seq<T>)
    requires out + owed == owed0 + now
    requires outs + end == owed + later
    ensures (out + outs) + end == owed0 + (now + later)
  {
    assert (out + outs) + end == out + (outs + end);
    assert out + (owed + later) == (out + owed) + later;
    assert (owed0 + now) + later == owed0 + (now + later);
  }

  function FramesNow(p: Parser, a: Action): seq<Frame>
    requires Valid(p)
  {
    if a.Arrive? then Completed(Receive(p, a.b)) else []
  }

  lemma FramesOfFirst(p: Parser, trace: seq<Action>)
    requires Valid(p) && trace != []
    ensures var q := if trace[0].Arrive? then Receive(p, trace[0].b).0 else p;
            Run(p, BytesOf(trace)).1 == FramesNow(p, trace[0]) + Run(q, BytesOf(trace[1..])).1
  {
    if trace[0].Arrive? {
      assert BytesOf(trace)[1..] == BytesOf(trace[1..]);
    } else {
      assert BytesOf(trace) == BytesOf(trace[1..]);
    }
  }

  lemma CheckAllAppend(fs: seq<Frame>, gs: seq<Frame>)
    ensures CheckAll(fs + gs) == CheckAll(fs) + CheckAll(gs)
  {
  }

  /** Deferred checking, when timely, is immediate checking of the frames of the grammar. */
  lemma DeferredCheckRefinesScan(x: Inbox, trace: seq<Action>)
    requires ValidInbox(x) && Hunting(x.parser) && x.jobs == [] && Timely(x, trace)
    ensures ActAll(x, trace).1 + Outstanding(ActAll(x, trace).0) == CheckAll(Scan(BytesOf(trace)))
  {
    DeferredReports(x, trace);
    ParserRefinesScan(x.parser, BytesOf(trace));
  }

  /** Stream round trip: exactly the payloads sent are reported, in order, each with status OK. */
  lemma StreamRoundTrip(x: Inbox, trace: seq<Action>, segments: seq<Segment>, tail: seq<Byte>)
    requires ValidInbox(x) && Hunting(x.parser) && x.jobs == [] && Timely(x, trace)
    requires Clean(segments) && Quiet(tail)
    requires BytesOf(trace) == Stream(segments) + tail
    requires ActAll(x, trace).0.jobs == []
    ensures ActAll(x, trace).1 == seq(|segments|, i requires 0 <= i < |segments| => Report(Ok, segments[i].payload))
  {
    DeferredCheckRefinesScan(x, trace);
    ScanInvertsStream(segments, tail);
    assert Outstanding(ActAll(x, trace).0) == [];
  }

  // ---- what goes wrong when a check is late ----

  function Arrivals(s: seq<Byte>): (r: seq<Action>)
    ensures |r| == |s|
    ensures forall i :: 0 <= i < |s| ==> r[i] == Arrive(s[i])
  {
    seq(|s|, i requires 0 <= i < |s| => Arrive(s[i]))
  }

  function JobsOf(fs: seq<Frame>): (r: seq<Job>)
    ensures |r| == |fs|
    ensures forall i :: 0 <= i < |fs| ==> r[i] == Job(|fs[i].data|, fs[i].check)
  {
    seq(|fs|, i requires 0 <= i < |fs| => Job(|fs[i].data|, fs[i].check))
  }

  lemma JobsOfAppend(fs: seq<Frame>, gs: seq<Frame>)
    ensures JobsOf(fs + gs) == JobsOf(fs) + JobsOf(gs)
  {
  }

  lemma JobsOfCompleted(p: Parser, b: Byte)
    requires Valid(p)
    ensures JobsOf(Completed(Receive(p, b))) == if Receive(p, b).1.Some? then [Receive(p, b).1.value] else []
  {
    hide Receive;
  }

  lemma {:induction false} ArrivalsQueueJobs(x: Inbox, s: seq<Byte>)
    requires ValidInbox(x)
    ensures ActAll(x, Arrivals(s)).0 == Inbox(Run(x.parser, s).0, x.jobs + JobsOf(Run(x.parser, s).1))
    decreases |s|
  {
    hide JobsOf, Receive, Completed;
    if s == [] {
      assert x.jobs + JobsOf([]) == x.jobs;
    } else {
      var first := Receive(x.parser, s[0]);
      var y := Act(x, Arrive(s[0])).0;
      ArrivalsQueueJobs(y, s[1..]);
      JobsOfAppend(Completed(first), Run(first.0, s[1..]).1);
      assert Arrivals(s)[1..] == Arrivals(s[1..]);
      var now, later := JobsOf(Completed(first)), JobsOf(Run(first.0, s[1..]).1);
      JobsOfCompleted(x.parser, s[0]);
      assert y.jobs == x.jobs + now;
      assert (x.jobs + now) + later == x.jobs + (now + later);
    }
  }

  /** What is left of payload `p` in the buffer once payload `q` has been stored over it. */
  function Overwritten(p: seq<Byte>, q: seq<Byte>): (r: seq<Byte>)
    ensures |r| == |p|
  {
    if |p| <= |q| then q[..|p|] else q + p[|q|..]
  }

  lemma RunReadsPacket(p: Parser, s: seq<Byte>, data: seq<Byte>)
    requires Valid(p) && Hunting(p)
    requires StartsWithPacket(s, data, XorAll(data)) && |s| == |data| + 4
    ensures Run(p, s) == (p.(buffer := data + p.buffer[|data|..]), [FrameOf(data)])
  {
    hide Run, XorAll;
    RunReadsHeader(p, s);
    assert s[3..] == data + [XorAll(data)];
    RunReadsBody(p.(state := GetData, expected := |data|), data, XorAll(data));
  }

  /** How much of payload `q` is stored when `n` bytes of its packet have arrived. */
  function StoredBy(q: seq<Byte>, n: nat): seq<Byte> {
    if n <= 3 then [] else if n - 3 <= |q| then q[..n - 3] else q
  }

  /**
   A check that runs late, when any number of bytes of the next packet have already arrived, finds the stored part
   of the next payload in place of the beginning of its own, so it reports its own payload exactly when the two
   agree on that part. The check of the second packet, once complete, is not affected.
   */
  lemma LateCheckReadsOverwrittenData(parser: Parser, p: seq<Byte>, q: seq<Byte>, n: nat)
    requires Valid(parser) && Hunting(parser) && IsPayload(p) && IsPayload(q) && n <= |q| + 4
    ensures var stored := StoredBy(q, n);
            var late := LateReportsAt(parser, p, q, n);
            && late == [Check(Frame(Overwritten(p, stored), XorAll(p)))]
                       + (if n == |q| + 4 then [Report(Ok, q)] else [])
            && (late[0] == Report(Ok, p) <==> forall i :: 0 <= i < |p| && i < |stored| ==> p[i] == q[i])
  {
    hide LateReportsAt, Overwritten, StoredBy, XorAll, Encode, Hunting;
    LateReportsAre(parser, p, q, n);
    OverwrittenIsOriginal(p, StoredBy(q, n));
    StoredIsPrefix(q, n);
    OwnDataIff(p, Overwritten(p, StoredBy(q, n)));
  }

  /** The reports still outstanding when packet `p` and `n` bytes of packet `q` have arrived and no check has run. */
  function LateReportsAt(parser: Parser, p: seq<Byte>, q: seq<Byte>, n: nat): seq<Report>
    requires Valid(parser) && IsPayload(p) && IsPayload(q) && n <= |q| + 4
  {
    Outstanding(ActAll(Inbox(parser, []), Arrivals(Encode(p) + Encode(q)[..n])).0)
  }

  lemma LateReportsAre(parser: Parser, p: seq<Byte>, q: seq<Byte>, n: nat)
    requires Valid(parser) && Hunting(parser) && IsPayload(p) && IsPayload(q) && n <= |q| + 4
    ensures LateReportsAt(parser, p, q, n)
         == [Check(Frame(Overwritten(p, StoredBy(q, n)), XorAll(p)))] + (if n == |q| + 4 then [Report(Ok, q)] else [])
  {
    hide Encode, StartsWithPacket, XorAll, Overwritten, ActAll, Arrivals, Hunting;
    EncodeIsPacket(p);
    EncodeIsPacket(q);
    if n == |q| + 4 {
      assert Encode(q)[..n] == Encode(q);
      LateCheckOfPackets(parser, Encode(p), p, Encode(q), q);
    } else {
      LateCheckOfPrefix(parser, Encode(p), p, Encode(q), q, n);
    }
  }

  lemma StoredIsPrefix(q: seq<Byte>, n: nat)
    ensures |StoredBy(q, n)| <= |q| && forall i :: 0 <= i < |StoredBy(q, n)| ==> StoredBy(q, n)[i] == q[i]
  {
  }

  lemma OwnDataIff(p: seq<Byte>, data: seq<Byte>)
    ensures Check(Frame(data, XorAll(p))) == Report(Ok, p) <==> data == p
  {
  }

  /** A packet that has not arrived completely has only put part of its data into the buffer. */
  lemma RunReadsPrefix(p: Parser, s: seq<Byte>, data: seq<Byte>, n: nat)
    requires Valid(p) && Hunting(p)
    requires StartsWithPacket(s, data, XorAll(data)) && n < |data| + 4
    ensures Run(p, s[..n]).1 == []
    ensures Run(p, s[..n]).0.buffer == StoredBy(data, n) + p.buffer[|StoredBy(data, n)|..]
  {
    hide XorAll;
    if n >= 3 {
      var t := s[..n];
      assert t[3..] == data[..n - 3] by {
        assert forall i :: 0 <= i < n - 3 ==> t[3..][i] == s[3..3 + |data|][i];
      }
      HeaderAndData(p, t, data);
    } else if n == 2 {
      assert s[..2] == [s[0], s[1]];
      TwoHeaderBytes(p, s[0], s[1]);
    } else if n == 1 {
      assert s[..1] == [s[0]];
      RunSingle(p, s[0]);
    }
  }

  lemma HeaderAndData(p: Parser, t: seq<Byte>, data: seq<Byte>)
    requires Valid(p) && Hunting(p) && IsPayload(data) && 3 <= |t| <= |data| + 3
    requires t[0] == HEADER_LSB && t[1] == HEADER_MSB && t[2] == |data| && t[3..] == data[..|t| - 3]
    ensures Run(p, t).1 == []
    ensures Run(p, t).0.buffer == StoredBy(data, |t|) + p.buffer[|StoredBy(data, |t|)|..]
  {
    hide Run, Receive;
    RunReadsHeader(p, t);
    RunStoresData(p.(state := GetData, expected := |data|), data[..|t| - 3]);
    assert StoredBy(data, |t|) == data[..|t| - 3];
  }

  lemma TwoHeaderBytes(p: Parser, b: Byte, c: Byte)
    requires Valid(p) && Hunting(p)
    ensures Run(p, [b, c]).1 == [] && Run(p, [b, c]).0.buffer == p.buffer
  {
    hide Run;
    assert [b, c] == [b] + [c];
    RunAppend(p, [b], [c]);
    RunSingle(p, b);
    RunSingle(Receive(p, b).0, c);
  }

  lemma JobsOfOne(p: seq<Byte>)
    ensures JobsOf([FrameOf(p)] + []) == [Job(|p|, XorAll(p))]
  {
    assert [FrameOf(p)] + [] == [FrameOf(p)];
  }

  lemma LateCheckOfPrefix(parser: Parser, s: seq<Byte>, p: seq<Byte>, t: seq<Byte>, q: seq<Byte>, n: nat)
    requires Valid(parser) && Hunting(parser)
    requires StartsWithPacket(s, p, XorAll(p)) && |s| == |p| + 4
    requires StartsWithPacket(t, q, XorAll(q)) && n < |q| + 4
    ensures Outstanding(ActAll(Inbox(parser, []), Arrivals(s + t[..n])).0)
         == [Check(Frame(Overwritten(p, StoredBy(q, n)), XorAll(p)))]
  {
    hide Run, ActAll, Arrivals, XorAll, JobsOf, Overwritten, Outstanding, Check;
    assert JobsOf([FrameOf(p)] + []) == [Job(|p|, XorAll(p))] by {
      JobsOfOne(p);
    }
    RunAppend(parser, s, t[..n]);
    RunReadsPacket(parser, s, p);
    RunReadsPrefix(Run(parser, s).0, t, q, n);
    ArrivalsQueueJobs(Inbox(parser, []), s + t[..n]);
    var x := ActAll(Inbox(parser, []), Arrivals(s + t[..n])).0;
    assert x.jobs == [Job(|p|, XorAll(p))];
    BufferIsOverwritten(p, StoredBy(q, n), parser.buffer, x.parser.buffer);
    LateReport(x, p, StoredBy(q, n));
  }

  lemma BufferIsOverwritten(p: seq<Byte>, d: seq<Byte>, before: seq<Byte>, after: seq<Byte>)
    requires |p| <= |before| && |d| <= |before|
    requires after == d + (p + before[|p|..])[|d|..]
    ensures after[..|p|] == Overwritten(p, d)
  {
  }

  lemma LateReport(x: Inbox, p: seq<Byte>, d: seq<Byte>)
    requires ValidInbox(x) && |p| <= MAX_DATA_LENGTH
    requires x.jobs == [Job(|p|, XorAll(p))] && x.parser.buffer[..|p|] == Overwritten(p, d)
    ensures Outstanding(x) == [Check(Frame(Overwritten(p, d), XorAll(p)))]
  {
    hide XorAll, Overwritten;
  }

  lemma LateCheckOfPackets(parser: Parser, s: seq<Byte>, p: seq<Byte>, t: seq<Byte>, q: seq<Byte>)
    requires Valid(parser) && Hunting(parser)
    requires StartsWithPacket(s, p, XorAll(p)) && |s| == |p| + 4
    requires StartsWithPacket(t, q, XorAll(q)) && |t| == |q| + 4
    ensures Outstanding(ActAll(Inbox(parser, []), Arrivals(s + t)).0)
         == [Check(Frame(Overwritten(p, q), XorAll(p))), Report(Ok, q)]
  {
    RunAppend(parser, s, t);
    RunReadsPacket(parser, s, p);
    RunReadsPacket(Run(parser, s).0, t, q);
    ArrivalsQueueJobs(Inbox(parser, []), s + t);
    var x := ActAll(Inbox(parser, []), Arrivals(s + t)).0;
    assert x.jobs == [Job(|p|, XorAll(p)), Job(|q|, XorAll(q))];
    assert x.parser.buffer == q + (p + parser.buffer[|p|..])[|q|..];
    LateReports(x, p, q);
  }

  lemma LateReports(x: Inbox, p: seq<Byte>, q: seq<Byte>)
    requires ValidInbox(x) && |p| <= MAX_DATA_LENGTH && |q| <= MAX_DATA_LENGTH
    requires x.jobs == [Job(|p|, XorAll(p)), Job(|q|, XorAll(q))]
    requires x.parser.buffer[..|p|] == Overwritten(p, q) && x.parser.buffer[..|q|] == q
    ensures Outstanding(x) == [Check(Frame(Overwritten(p, q), XorAll(p))), Report(Ok, q)]
  {
  }

  lemma OverwrittenIsOriginal(p: seq<Byte>, q: seq<Byte>)
    ensures Overwritten(p, q) == p <==> forall i :: 0 <= i < |p| && i < |q| ==> p[i] == q[i]
  {
    if k :| 0 <= k < |p| && k < |q| && p[k] != q[k] {
      assert Overwritten(p, q)[k] == q[k];
    }
  }
}
