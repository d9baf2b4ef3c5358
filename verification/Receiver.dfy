/**
 The firmware's byte-at-a-time packet receiver (components/ipc/ipc.c): the parser as a state machine over
 values, its agreement with the grammar of module Packets, and the in-place implementation.
 */
module Receiver {
  import opened Bytes
  import opened Packets

  datatype State = Idle | GetDataLength | GetData | GetDataCrc

  /** The static state of the parser, with the receive buffer that the deferred check reads later. */
  datatype Parser = Parser(state: State, headerIndex: nat, offset: nat, expected: nat, buffer: seq<Byte>)

  /** The event queued when a packet is complete. The data stay behind in the shared buffer. */
  datatype Job = Job(size: nat, crc: Byte)

  /** What holds between any two received bytes. */
  predicate Valid(p: Parser) {
    && |p.buffer| == MAX_DATA_LENGTH
    && p.headerIndex <= 1 && (p.headerIndex == 1 ==> p.state.Idle?)
    && (if p.state.GetData? then p.offset < p.expected else p.offset == 0)
    && p.expected <= MAX_DATA_LENGTH
    && (p.expected != 0 <==> p.state.GetData? || p.state.GetDataCrc?)
  }

  predicate Hunting(p: Parser) {
    p.state.Idle? && p.headerIndex == 0
  }

  function FreshParser(): (p: Parser)
    ensures Valid(p) && Hunting(p) && forall i :: 0 <= i < |p.buffer| ==> p.buffer[i] == 0
  {
    Parser(Idle, 0, 0, 0, seq(MAX_DATA_LENGTH, _ => 0))
  }

  function Receive(p: Parser, b: Byte): (r: (Parser, Option<Job>))
    requires Valid(p)
    ensures Valid(r.0)
    ensures r.1.Some? ==> 1 <= r.1.value.size <= MAX_DATA_LENGTH && p.state.GetDataCrc? && Hunting(r.0)
    ensures !p.state.GetData? ==> r.0.buffer == p.buffer
  {
    match p.state
    case Idle =>
      if p.headerIndex == 0 then (p.(headerIndex := if b == HEADER_LSB then 1 else 0), None)
      else (p.(headerIndex := 0, state := if b == HEADER_MSB then GetDataLength else Idle), None)
    case GetDataLength =>
      if 0 < b <= MAX_DATA_LENGTH then (p.(expected := b, state := GetData), None)
      else (p.(expected := 0, state := Idle), None)
    case GetData =>
      var q := p.(buffer := p.buffer[p.offset := b]);
      if p.offset + 1 == p.expected then (q.(offset := 0, state := GetDataCrc), None)
      else (q.(offset := p.offset + 1), None)
    case GetDataCrc =>
      (p.(expected := 0, state := Idle), Some(Job(p.expected, b)))
  }

  /** The frame a finished packet stands for at the moment it is queued. */
  function Completed(r: (Parser, Option<Job>)): seq<Frame>
    requires Valid(r.0) && (r.1.Some? ==> r.1.value.size <= MAX_DATA_LENGTH)
  {
    match r.1
    case None => []
    case Some(job) => [Frame(r.0.buffer[..job.size], job.crc)]
  }

  /** The parser after a run of bytes, and the frames completed on the way. */
  function Run(p: Parser, s: seq<Byte>): (r: (Parser, seq<Frame>))
    requires Valid(p)
    ensures Valid(r.0)
    decreases |s|
  {
    if s == [] then (p, [])
    else
      var first := Receive(p, s[0]);
      var rest := Run(first.0, s[1..]);
      (rest.0, Completed(first) + rest.1)
  }

  lemma {:induction false} RunAppend(p: Parser, s: seq<Byte>, t: seq<Byte>)
    requires Valid(p)
    ensures Run(p, s + t).0 == Run(Run(p, s).0, t).0
    ensures Run(p, s + t).1 == Run(p, s).1 + Run(Run(p, s).0, t).1
    decreases |s|
  {
    if s == [] {
      assert s + t == t;
    } else {
      var first := Receive(p, s[0]);
      assert (s + t)[1..] == s[1..] + t;
      RunAppend(first.0, s[1..], t);
    }
  }

  lemma RunSingle(p: Parser, b: Byte)
    requires Valid(p)
    ensures Run(p, [b]) == (Receive(p, b).0, Completed(Receive(p, b)))
  {
    var first := Receive(p, b);
    assert [b][1..] == [];
    assert Run(first.0, []) == (first.0, []);
    assert Completed(first) + [] == Completed(first);
  }

  /** A byte that completes nothing is just a step. */
  lemma RunFirst(p: Parser, s: seq<Byte>)
    requires Valid(p) && s != [] && Receive(p, s[0]).1.None?
    ensures Run(p, s) == Run(Receive(p, s[0]).0, s[1..])
  {
    assert [] + Run(Receive(p, s[0]).0, s[1..]).1 == Run(Receive(p, s[0]).0, s[1..]).1;
  }

  // ---- the parser and the grammar ----

  /** The parser after some of the expected data bytes: they lie one after the other in the buffer. */
  function Storing(p: Parser, d: seq<Byte>): (q: Parser)
    requires Valid(p) && p.state.GetData? && |d| <= p.expected - p.offset
    ensures Valid(q)
  {
    var stored := p.buffer[..p.offset] + d + p.buffer[p.offset + |d|..];
    if p.offset + |d| == p.expected then p.(buffer := stored, offset := 0, state := GetDataCrc)
    else p.(buffer := stored, offset := p.offset + |d|)
  }

  lemma {:induction false} RunStoresData(p: Parser, d: seq<Byte>)
    requires Valid(p) && p.state.GetData? && |d| <= p.expected - p.offset
    ensures Run(p, d) == (Storing(p, d), [])
    decreases |d|
  {
    if d == [] {
      assert Storing(p, d).buffer == p.buffer;
    } else {
      var n := |d| - 1;
      assert d == d[..n] + [d[n]];
      RunAppend(p, d[..n], [d[n]]);
      RunStoresData(p, d[..n]);
      RunSingle(Storing(p, d[..n]), d[n]);
      StoreOneMore(p, d);
    }
  }

  lemma StoreOneMore(p: Parser, d: seq<Byte>)
    requires Valid(p) && p.state.GetData? && 0 < |d| <= p.expected - p.offset
    ensures Receive(Storing(p, d[..|d| - 1]), d[|d| - 1]) == (Storing(p, d), None)
  {
    var n := |d| - 1;
    var before := Storing(p, d[..n]);
    assert before.offset == p.offset + n;
    assert before.buffer[before.offset := d[n]] == Storing(p, d).buffer;
  }

  /** A well-formed header takes a hunting parser to the first data byte; a bad length byte resumes the hunt. */
  lemma RunReadsHeader(p: Parser, s: seq<Byte>)
    requires Valid(p) && Hunting(p) && |s| >= 3
    requires s[0] == HEADER_LSB && s[1] == HEADER_MSB
    ensures var q := if 0 < s[2] <= MAX_DATA_LENGTH then p.(state := GetData, expected := s[2]) else p;
            Valid(q) && Run(p, s) == Run(q, s[3..])
  {
    var p1 := Receive(p, s[0]).0;
    var p2 := Receive(p1, s[1]).0;
    assert s[1..][0] == s[1] && s[2..][0] == s[2];
    assert s[1..][1..] == s[2..] && s[2..][1..] == s[3..];
    RunFirst(p, s);
    RunFirst(p1, s[1..]);
    RunFirst(p2, s[2..]);
  }

  /**
   What a hunting parser makes of the first bytes of a packet: it waits for A5, drops back unless 5A follows, and then
   expects as many data bytes as the length byte says if that is 1 to 251, and hunts again otherwise.
   */
  lemma HeaderOnTheWire(p: Parser, other: Byte, n: Byte)
    requires Valid(p) && Hunting(p)
    ensures other != 0xA5 ==> Run(p, [other]) == (p, [])
    ensures other != 0x5A ==> Run(p, [0xA5, other]) == (p, [])
    ensures Run(p, [0xA5, 0x5A, n]) == (if 1 <= n <= 251 then p.(state := GetData, expected := n) else p, [])
  {
    RunSingle(p, other);
    assert [0xA5, other] == [0xA5] + [other];
    RunAppend(p, [0xA5], [other]);
    RunSingle(p, 0xA5);
    RunSingle(Receive(p, 0xA5).0, other);
    RunReadsHeader(p, [0xA5, 0x5A, n]);
    assert [0xA5, 0x5A, n][3..] == [];
  }

  /** Data and check byte of a packet produce its frame and resume the hunt, with the data left in the buffer. */
  lemma RunReadsBody(p: Parser, d: seq<Byte>, check: Byte)
    requires Valid(p) && p.state.GetData? && p.offset == 0 && |d| == p.expected
    ensures Run(p, d + [check]).1 == [Frame(d, check)]
    ensures Run(p, d + [check]).0
         == p.(buffer := d + p.buffer[|d|..], offset := 0, expected := 0, state := Idle)
  {
    var q := Storing(p, d);
    RunAppend(p, d, [check]);
    RunStoresData(p, d);
    RunSingle(q, check);
    assert q.buffer == d + p.buffer[|d|..];
    assert q.buffer[..|d|] == d;
  }

  /** Refinement: from the hunt, the state machine completes exactly the frames of the left-to-right scan. */
  lemma {:induction false} ParserRefinesScan(p: Parser, s: seq<Byte>)
    requires Valid(p) && Hunting(p)
    ensures Run(p, s).1 == Scan(s)
    decreases |s|, 1
  {
    if s == [] {
    } else if s[0] != HEADER_LSB {
      RunFirst(p, s);
      ParserRefinesScan(p, s[1..]);
    } else if |s| < 3 || s[1] != HEADER_MSB {
      ParserRefinesScanInHeader(p, s);
    } else {
      ParserRefinesScanAfterHeader(p, s);
    }
  }

  lemma {:induction false} ParserRefinesScanAfterHeader(p: Parser, s: seq<Byte>)
    requires Valid(p) && Hunting(p) && |s| >= 3 && s[0] == HEADER_LSB && s[1] == HEADER_MSB
    ensures Run(p, s).1 == Scan(s)
    decreases |s|, 0
  {
    RunReadsHeader(p, s);
    var n := s[2];
    if 0 < n <= MAX_DATA_LENGTH {
      ParserRefinesScanInBody(p.(state := GetData, expected := n), s[3..]);
    } else {
      ParserRefinesScan(p, s[3..]);
    }
  }

  lemma {:induction false} ParserRefinesScanInHeader(p: Parser, s: seq<Byte>)
    requires Valid(p) && Hunting(p) && s != [] && s[0] == HEADER_LSB
    requires |s| < 3 || s[1] != HEADER_MSB
    ensures Run(p, s).1 == Scan(s)
    decreases |s|, 0
  {
    var p1 := Receive(p, s[0]).0;
    RunFirst(p, s);
    if |s| >= 2 {
      RunFirst(p1, s[1..]);
      assert s[1..][1..] == s[2..];
      if s[1] != HEADER_MSB {
        ParserRefinesScan(p, s[2..]);
      }
    }
  }

  lemma {:induction false} ParserRefinesScanInBody(p: Parser, s: seq<Byte>)
    requires Valid(p) && p.state.GetData? && p.offset == 0
    ensures Run(p, s).1 == ScanBody(p.expected, s)
    decreases |s|, 0
  {
    var n := p.expected;
    if |s| <= n {
      RunStoresData(p, s);
    } else {
      assert s == (s[..n] + [s[n]]) + s[n + 1..];
      RunAppend(p, s[..n] + [s[n]], s[n + 1..]);
      RunReadsBody(p, s[..n], s[n]);
      ParserRefinesScan(Run(p, s[..n] + [s[n]]).0, s[n + 1..]);
    }
  }

  function Concat(chunks: seq<seq<Byte>>): seq<Byte> {
    if chunks == [] then [] else chunks[0] + Concat(chunks[1..])
  }

  /** The frames completed when the stream arrives split over several receive callbacks. */
  function RunCallbacks(p: Parser, chunks: seq<seq<Byte>>): (r: (Parser, seq<Frame>))
    requires Valid(p)
    ensures Valid(r.0)
    decreases |chunks|
  {
    if chunks == [] then (p, [])
    else
      var first := Run(p, chunks[0]);
      var rest := RunCallbacks(first.0, chunks[1..]);
      (rest.0, first.1 + rest.1)
  }

  lemma {:induction false} CallbackSplitIsInvisible(p: Parser, chunks: seq<seq<Byte>>)
    requires Valid(p)
    ensures RunCallbacks(p, chunks) == Run(p, Concat(chunks))
    decreases |chunks|
  {
    if chunks == [] {
    } else {
      CallbackSplitIsInvisible(Run(p, chunks[0]).0, chunks[1..]);
      RunAppend(p, chunks[0], Concat(chunks[1..]));
    }
  }

  /** However the line splits the stream into callbacks, the frames are those of the grammar. */
  lemma EverySplitRefinesScan(p: Parser, chunks: seq<seq<Byte>>)
    requires Valid(p) && Hunting(p)
    ensures RunCallbacks(p, chunks).1 == Scan(Concat(chunks))
  {
    CallbackSplitIsInvisible(p, chunks);
    ParserRefinesScan(p, Concat(chunks));
  }

  // ---- bounded return to the idle state ----

  /** How many further bytes take the parser to idle: a length byte, the rest of the body and a check byte at most. */
  function BytesToIdle(p: Parser, s: seq<Byte>): nat
    requires Valid(p) && s != []
  {
    match p.state
    case Idle => 0
    case GetDataLength => if 0 < s[0] <= MAX_DATA_LENGTH then 2 + s[0] else 1
    case GetData => p.expected - p.offset + 1
    case GetDataCrc => 1
  }

  /** From every state, idle is first reached after exactly BytesToIdle bytes, never more than 253. */
  lemma IdleIsReached(p: Parser, s: seq<Byte>, k: nat)
    requires Valid(p) && |s| >= 253
    ensures BytesToIdle(p, s) <= 253
    ensures k == BytesToIdle(p, s) ==> Run(p, s[..k]).0.state.Idle?
    ensures k < BytesToIdle(p, s) ==> !Run(p, s[..k]).0.state.Idle?
  {
    if 0 < k <= BytesToIdle(p, s) {
      if p.state.GetData? {
        StaysInBody(p, s, k);
      } else {
        RunFirstState(p, s[..k]);
        var q := Receive(p, s[0]).0;
        assert s[..k][1..] == s[1..][..k - 1];
        if q.state.GetData? {
          StaysInBody(q, s[1..], k - 1);
        }
      }
    }
  }

  lemma RunFirstState(p: Parser, s: seq<Byte>)
    requires Valid(p) && s != []
    ensures Run(p, s).0 == Run(Receive(p, s[0]).0, s[1..]).0
  {
  }

  lemma StaysInBody(p: Parser, s: seq<Byte>, k: nat)
    requires Valid(p) && p.state.GetData? && |s| >= k
    requires k <= p.expected - p.offset + 1
    ensures Run(p, s[..k]).0.state.Idle? <==> k == p.expected - p.offset + 1
  {
    var n := p.expected - p.offset;
    if k <= n {
      RunStoresData(p, s[..k]);
    } else {
      assert s[..k] == s[..n] + [s[n]];
      RunStoresData(p, s[..n]);
      RunAppend(p, s[..n], [s[n]]);
      RunSingle(Storing(p, s[..n]), s[n]);
    }
  }
}
