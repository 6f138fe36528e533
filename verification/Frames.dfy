/** Length-prefixed frames over a writer that may write partially. */
module Frames {
  import opened Wrappers

  type Byte = x: int | 0 <= x < 0x100

  const MAX_FRAME: nat := 65536

  function BigEndian(n: nat): (bytes: seq<Byte>)
    requires n < 0x1_0000_0000
    ensures |bytes| == 4
  {
    var third := n / 0x100;
    var second := third / 0x100;
    var first := second / 0x100;
    [first, second % 0x100, third % 0x100, n % 0x100]
  }

  function FromBigEndian(b: seq<Byte>): (n: int)
    requires |b| == 4
    ensures 0 <= n < 0x1_0000_0000
  {
    var first: int, second: int, third: int, fourth: int := b[0], b[1], b[2], b[3];
    ((first * 0x100 + second) * 0x100 + third) * 0x100 + fourth
  }

  lemma BigEndianRoundTrip(n: nat)
    requires n < 0x1_0000_0000
    ensures FromBigEndian(BigEndian(n)) == n
  {}

  lemma FromBigEndianRoundTrip(b: seq<Byte>)
    requires |b| == 4
    ensures BigEndian(FromBigEndian(b)) == b
  {
    var first: int, second: int, third: int, fourth: int := b[0], b[1], b[2], b[3];
    var n := FromBigEndian(b);
    assert n / 0x100 == (first * 0x100 + second) * 0x100 + third;
    assert n / 0x100 / 0x100 == first * 0x100 + second;
  }

  predicate FrameSize(n: int) { 2 <= n <= MAX_FRAME }

  function Frame(payload: seq<Byte>): seq<Byte>
    requires FrameSize(|payload|)
  {
    BigEndian(|payload|) + payload
  }

  function Encode(payloads: seq<seq<Byte>>): seq<Byte>
    requires forall p :: p in payloads ==> FrameSize(|p|)
  {
    if payloads == [] then [] else Frame(payloads[0]) + Encode(payloads[1..])
  }

  datatype ReadError = EndOfStream | BadLength | BadJson

  /** One read: four length bytes, the bounds, the payload, then the JSON check. */
  function Read(stream: seq<Byte>, json: seq<Byte> -> bool): Result<(seq<Byte>, seq<Byte>), ReadError> {
    if |stream| < 4 then Err(EndOfStream)
    else
      var n := FromBigEndian(stream[..4]);
      if !FrameSize(n) then Err(BadLength)
      else if |stream| < 4 + n then Err(EndOfStream)
      else if !json(stream[4..4 + n]) then Err(BadJson)
      else Ok((stream[4..4 + n], stream[4 + n..]))
  }

  /** Every payload up to the first failed read, and how the stream ends. */
  function ReadAll(stream: seq<Byte>, json: seq<Byte> -> bool): (seq<seq<Byte>>, ReadError)
    decreases |stream|
  {
    match Read(stream, json)
    case Err(e) => ([], e)
    case Ok((payload, rest)) =>
      var (more, e) := ReadAll(rest, json);
      ([payload] + more, e)
  }

  lemma ReadFrame(payload: seq<Byte>, rest: seq<Byte>, json: seq<Byte> -> bool)
    requires FrameSize(|payload|) && json(payload)
    ensures Read(Frame(payload) + rest, json) == Ok((payload, rest))
  {
    BigEndianRoundTrip(|payload|);
    var s := Frame(payload) + rest;
    assert s[..4] == BigEndian(|payload|);
    assert s[4..4 + |payload|] == payload && s[4 + |payload|..] == rest;
  }

  /** Reading what was written gives back exactly the payloads, then the end of the stream. */
  lemma {:induction false} ReadsBackWhatWasWritten(payloads: seq<seq<Byte>>, json: seq<Byte> -> bool)
    requires forall p :: p in payloads ==> 2 <= |p| <= 65536 && json(p)
    ensures ReadAll(Encode(payloads), json) == (payloads, EndOfStream)
  {
    if payloads == [] {
    } else {
      assert payloads[0] in payloads;
      ReadFrame(payloads[0], Encode(payloads[1..]), json);
      hide Read, Frame, BigEndian;
      ReadsBackWhatWasWritten(payloads[1..], json);
      assert payloads == [payloads[0]] + payloads[1..];
    }
  }

  /** A read accepts exactly a big-endian length from 2 to 65536, that many bytes, and bytes that pass the JSON check. */
  lemma ReadIff(stream: seq<Byte>, json: seq<Byte> -> bool)
    ensures Read(stream, json).Ok? <==>
      |stream| >= 4
      && var n: int := (stream[0] as int) * 0x100_0000 + (stream[1] as int) * 0x1_0000 + (stream[2] as int) * 0x100 + (stream[3] as int);
         2 <= n <= 65536 && |stream| >= 4 + n && json(stream[4..4 + n])
    ensures Read(stream, json).Ok? ==>
      var (payload, rest) := Read(stream, json).value;
      stream == stream[..4] + payload + rest && 2 <= |payload| <= 65536 && json(payload)
  {
    if |stream| >= 4 {
      var b := stream[..4];
      assert b[0] == stream[0] && b[1] == stream[1] && b[2] == stream[2] && b[3] == stream[3];
      assert FromBigEndian(b)
        == (stream[0] as int) * 0x100_0000 + (stream[1] as int) * 0x1_0000 + (stream[2] as int) * 0x100 + (stream[3] as int);
    }
  }

  /** A read accepts nothing but a frame: what it consumed is the frame of what it returned. */
  lemma ReadConsumesAFrame(stream: seq<Byte>, json: seq<Byte> -> bool)
    requires Read(stream, json).Ok?
    ensures var (payload, rest) := Read(stream, json).value;
      FrameSize(|payload|) && json(payload) && stream == Frame(payload) + rest
  {
    FromBigEndianRoundTrip(stream[..4]);
    var n := FromBigEndian(stream[..4]);
    assert stream == stream[..4] + stream[4..4 + n] + stream[4 + n..];
  }

  datatype WriteError = WriterFailed | ShortWrite | BadSize

  /** One call of the underlying writer: how many bytes it takes, and whether it reports an error. */
  datatype Accepts = Accepts(count: int, failed: bool)

  /** A connection; its schedule says how each call will go, and a call past the schedule fails. */
  class Connection {
    var out: seq<Byte>
    var schedule: seq<Accepts>

    constructor (schedule: seq<Accepts>)
      ensures out == [] && this.schedule == schedule
    {
      out, this.schedule := [], schedule;
    }

    /** `io.Writer`: takes a prefix of the payload. */
    method Write(payload: seq<Byte>) returns (written: int, failed: bool)
      modifies this
      ensures old(schedule) == [] ==> failed && out == old(out) && schedule == []
      ensures old(schedule) != [] ==>
        && schedule == old(schedule)[1..]
        && written == (if old(schedule)[0].count <= |payload| then old(schedule)[0].count else |payload|)
        && failed == old(schedule)[0].failed
        && out == old(out) + payload[..if written <= 0 then 0 else written]
    {
      if schedule == [] { return 0, true; }
      var step := schedule[0];
      written := if step.count <= |payload| then step.count else |payload|;
      failed := step.failed;
      out := out + payload[..if written <= 0 then 0 else written];
      schedule := schedule[1..];
    }
  }

  /** The writer takes at least one byte, without error, on each of its next n calls. */
  ghost predicate Progresses(schedule: seq<Accepts>, n: nat) {
    |schedule| >= n && forall i :: 0 <= i < n ==> schedule[i].count > 0 && !schedule[i].failed
  }

  /** Writes all of the payload or stops after a prefix with an error; a writer that progresses gets all of it. */
  method WriteBytes(c: Connection, payload: seq<Byte>) returns (e: Option<WriteError>)
    modifies c
    ensures e.None? ==> c.out == old(c.out) + payload
    ensures e.Some? ==> e.value != BadSize && exists n :: 0 <= n <= |payload| && c.out == old(c.out) + payload[..n]
    ensures Progresses(old(c.schedule), |payload|) ==> e.None?
    ensures e.None? ==> exists k :: 0 <= k <= |old(c.schedule)| && k <= |payload| && c.schedule == old(c.schedule)[k..]
  {
    var rest := payload;
    ghost var calls := 0;
    while |rest| > 0
      invariant 0 <= calls <= |payload| - |rest| && calls <= |old(c.schedule)|
      invariant rest == payload[|payload| - |rest|..]
      invariant c.out == old(c.out) + payload[..|payload| - |rest|]
      invariant c.schedule == old(c.schedule)[calls..]
      decreases |rest|
    {
      ghost var before := |payload| - |rest|;
      var written, failed := c.Write(rest);
      if failed || written <= 0 {
        ghost var taken := if old(c.schedule)[calls..] == [] || written <= 0 then 0 else written;
        assert payload[..before] + rest[..taken] == payload[..before + taken];
        return Some(if failed then WriterFailed else ShortWrite);
      }
      assert payload[..before] + rest[..written] == payload[..before + written];
      rest := rest[written..];
      calls := calls + 1;
    }
    assert payload[..|payload|] == payload;
    e := None;
  }

  /** Writes the length and the payload; over a writer that progresses, exactly one frame is appended. */
  method WriteFrame(c: Connection, payload: seq<Byte>) returns (e: Option<WriteError>)
    modifies c
    ensures !(2 <= |payload| <= 65536) <==> e == Some(BadSize)
    ensures e == Some(BadSize) ==> c.out == old(c.out)
    ensures e.None? ==> c.out == old(c.out) + Frame(payload)
    ensures e.Some? && e.value != BadSize ==>
      exists n :: 0 <= n <= |Frame(payload)| && c.out == old(c.out) + Frame(payload)[..n]
    ensures FrameSize(|payload|) && Progresses(old(c.schedule), 4 + |payload|) ==> e.None?
  {
    if |payload| < 2 || |payload| > MAX_FRAME { return Some(BadSize); }
    var header := BigEndian(|payload|);
    ghost var frame := Frame(payload);
    e := WriteBytes(c, header);
    if e.Some? {
      ghost var n :| 0 <= n <= 4 && c.out == old(c.out) + header[..n];
      assert header[..n] == frame[..n];
      return;
    }
    ghost var k :| 0 <= k <= |old(c.schedule)| && k <= 4 && c.schedule == old(c.schedule)[k..];
    ghost var middle := c.out;
    assert Progresses(old(c.schedule), 4 + |payload|) ==> Progresses(c.schedule, |payload|);
    e := WriteBytes(c, payload);
    if e.Some? {
      ghost var n :| 0 <= n <= |payload| && c.out == middle + payload[..n];
      assert frame[..4 + n] == header + payload[..n];
      assert c.out == old(c.out) + frame[..4 + n];
    }
  }
}
