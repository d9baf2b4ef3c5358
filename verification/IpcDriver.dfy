/** The firmware's packet driver (components/ipc/ipc.c) as it updates its static variables and buffer in place. */
module IpcDriver {
  import opened Bytes
  import opened Packets
  import opened Receiver
  import opened Inbox

  datatype SendStatus = SendOk | InvalidLength | InvalidData

  class IpcReceiver {
    var state: State
    var headerIndex: nat
    var offset: nat
    var expected: nat
    const buffer: array<Byte>

    ghost function View(): Parser
      reads this, buffer
    {
      Parser(state, headerIndex, offset, expected, buffer[..])
    }

    constructor ()
      ensures fresh(buffer)
      ensures View() == FreshParser()
    {
      state, headerIndex, offset, expected := Idle, 0, 0, 0;
      buffer := new Byte[MAX_DATA_LENGTH](_ => 0);
    }

    method StateMachineEventHandler(b: Byte) returns (job: Option<Job>)
      requires Valid(View())
      modifies this, buffer
      ensures (View(), job) == Receive(old(View()), b)
    {
      job := None;
      match state {
        case Idle =>
          if headerIndex == 0 {
            if b == HEADER_LSB {
              headerIndex := headerIndex + 1;
            }
          } else {
            if b == HEADER_MSB {
              state := GetDataLength;
            }
            headerIndex := 0;
          }
        case GetDataLength =>
          if 0 < b && b <= MAX_DATA_LENGTH {
            expected := b;
            state := GetData;
          } else {
            expected := 0;
            state := Idle;
          }
        case GetData =>
          buffer[offset] := b;
          offset := offset + 1;
          if offset == expected {
            offset := 0;
            state := GetDataCrc;
          }
        case GetDataCrc =>
          job := Some(Job(expected, b));
          expected := 0;
          state := Idle;
      }
      assert old(state).GetData? ==> buffer[..] == old(buffer[..])[old(offset) := b];
    }

    /** Reads what the line has available and feeds it to the state machine; the jobs are queued in order. */
    method DataAvailableCallback(available: seq<Byte>) returns (jobs: seq<Job>)
      requires Valid(View())
      modifies this, buffer
      ensures View() == Run(old(View()), available).0
      ensures jobs == JobsOf(Run(old(View()), available).1)
    {
      jobs := [];
      var i := 0;
      while i < |available|
        invariant 0 <= i <= |available|
        invariant View() == Run(old(View()), available[..i]).0
        invariant jobs == JobsOf(Run(old(View()), available[..i]).1)
      {
        ghost var before := View();
        var job := StateMachineEventHandler(available[i]);
        if job.Some? {
          jobs := jobs + [job.value];
        }
        assert available[..i + 1] == available[..i] + [available[i]];
        RunAppend(old(View()), available[..i], [available[i]]);
        RunSingle(before, available[i]);
        i := i + 1;
      }
      assert available[..i] == available;
    }

    /** The queued check: XORs the stored data and compares with the check byte that came along. */
    method PostProcess(job: Job) returns (report: Report)
      requires Valid(View()) && job.size <= MAX_DATA_LENGTH
      ensures report == CheckJob(View().buffer, job)
    {
      var crc: Byte := 0;
      var i := 0;
      while i < job.size
        invariant 0 <= i <= job.size
        invariant crc == XorAll(buffer[..i])
      {
        crc := XorByte(crc, buffer[i]);
        i := i + 1;
        assert buffer[..i][..i - 1] == buffer[..i - 1];
      }
      report := Report(if crc == job.crc then Ok else Corrupted, buffer[..job.size]);
    }
  }

  /** Sends a packet byte by byte; `None` is the null pointer. */
  method SendDataPacket(packet: Option<seq<Byte>>, length: Byte) returns (status: SendStatus, out: seq<Byte>)
    requires packet.Some? ==> length <= |packet.value|
    ensures status == if packet.None? then InvalidData
                      else if !IsPayload(packet.value[..length]) then InvalidLength else SendOk
    ensures status.SendOk? <==> packet.Some? && 1 <= length <= 251
    ensures out == if status.SendOk? then Encode(packet.value[..length]) else []
    ensures status.SendOk? ==>
              out == [0xA5, 0x5A, length] + packet.value[..length] + [XorAll(packet.value[..length])]
  {
    out := [];
    if packet.None? {
      return InvalidData, out;
    }
    if !(0 < length && length <= MAX_DATA_LENGTH) {
      return InvalidLength, out;
    }
    out := out + [HEADER_LSB];
    out := out + [HEADER_MSB];
    out := out + [length];
    var crc: Byte := 0;
    var i := 0;
    while i < length
      invariant 0 <= i <= length
      invariant out == [HEADER_LSB, HEADER_MSB, length] + packet.value[..i]
      invariant crc == XorAll(packet.value[..i])
    {
      out := out + [packet.value[i]];
      crc := XorByte(crc, packet.value[i]);
      i := i + 1;
      assert packet.value[..i][..i - 1] == packet.value[..i - 1];
    }
    out := out + [crc];
    status := SendOk;
  }
}
