/** Reading a pppd record file: two interleaved async-HDLC streams, deframed (sections 3 and 4.2 of RFC 1662). */
module PppRecord {
  import opened Wrappers
  import opened Sequences

  type Octet = bv8

  const FLAG: Octet := 0x7E
  const ESCAPE: Octet := 0x7D
  const GOOD_FCS: bv16 := 0xF0B8

  datatype Direction = Sent | Rcvd

  /** A deframed packet: `raw` still has its address, control and check octets. */
  datatype Frame = Frame(
    direction: Direction, timestamp: real, raw: seq<Octet>, fcsOk: bool, protocol: Option<nat>, payload: seq<Octet>)

  // ----- frame check sequence (appendix C.2 of RFC 1662) -----

  function Shift(fcs: bv16): bv16 {
    if fcs & 1 == 1 then (fcs >> 1) ^ 0x8408 else fcs >> 1
  }

  function Shifts(fcs: bv16, n: nat): bv16 {
    if n == 0 then fcs else Shift(Shifts(fcs, n - 1))
  }

  function FcsStep(fcs: bv16, octet: Octet): bv16 {
    Shift(Shift(Shift(Shift(Shift(Shift(Shift(Shift(fcs ^ (octet as bv16)))))))))
  }

  function FcsOf(data: seq<Octet>): bv16 {
    if data == [] then 0xFFFF else FcsStep(FcsOf(data[..|data| - 1]), data[|data| - 1])
  }

  lemma {:induction false} EightShifts(fcs: bv16)
    ensures Shifts(fcs, 8) == Shift(Shift(Shift(Shift(Shift(Shift(Shift(Shift(fcs))))))))
  {
    ShiftsNext(fcs, 0);
    ShiftsNext(fcs, 1);
    ShiftsNext(fcs, 2);
    ShiftsNext(fcs, 3);
    ShiftsNext(fcs, 4);
    ShiftsNext(fcs, 5);
    ShiftsNext(fcs, 6);
    ShiftsNext(fcs, 7);
  }

  lemma {:induction false} ShiftsNext(fcs: bv16, n: nat)
    ensures Shifts(fcs, n + 1) == Shift(Shifts(fcs, n))
  {}

  /** One octet of the check: mixed in, then eight conditional shifts. */
  method FcsOctet(fcs: bv16, octet: Octet) returns (r: bv16)
    ensures r == FcsStep(fcs, octet)
  {
    r := fcs ^ (octet as bv16);
    ghost var mixed := r;
    for n := 0 to 8
      invariant r == Shifts(mixed, n)
    {
      ShiftsNext(mixed, n);
      r := if r & 1 == 1 then (r >> 1) ^ 0x8408 else r >> 1;
    }
    EightShifts(mixed);
  }

  method Fcs16(data: seq<Octet>) returns (fcs: bv16)
    ensures fcs == FcsOf(data)
  {
    fcs := 0xFFFF;
    for i := 0 to |data|
      invariant fcs == FcsOf(data[..i])
    {
      assert data[..i + 1][..i] == data[..i];
      fcs := FcsOctet(fcs, data[i]);
    }
    assert data[..|data|] == data;
  }

  // ----- deframing -----

  /** What is left of escaped octets; `escaped` says the next one follows an escape. */
  function Unescaped(chunk: seq<Octet>, escaped: bool): seq<Octet> {
    if chunk == [] then []
    else if escaped then [chunk[0] ^ 0x20] + Unescaped(chunk[1..], false)
    else if chunk[0] == ESCAPE then Unescaped(chunk[1..], true)
    else [chunk[0]] + Unescaped(chunk[1..], false)
  }

  lemma {:induction false} UnescapedStep(out: seq<Octet>, chunk: seq<Octet>, i: nat, escaped: bool)
    requires i < |chunk|
    ensures out + Unescaped(chunk[i..], escaped) ==
        if escaped then (out + [chunk[i] ^ 0x20]) + Unescaped(chunk[i + 1..], false)
        else if chunk[i] == ESCAPE then out + Unescaped(chunk[i + 1..], true)
        else (out + [chunk[i]]) + Unescaped(chunk[i + 1..], false)
  {
    assert chunk[i..][0] == chunk[i] && chunk[i..][1..] == chunk[i + 1..];
    Assoc(out, [chunk[i] ^ 0x20], Unescaped(chunk[i + 1..], false));
    Assoc(out, [chunk[i]], Unescaped(chunk[i + 1..], false));
  }

  method Unescape(chunk: seq<Octet>) returns (out: seq<Octet>)
    ensures out == Unescaped(chunk, false)
  {
    out := [];
    var escaped := false;
    ghost var whole := Unescaped(chunk, false);
    assert chunk[0..] == chunk && [] + whole == whole;
    for i := 0 to |chunk|
      invariant whole == out + Unescaped(chunk[i..], escaped)
    {
      UnescapedStep(out, chunk, i, escaped);
      if escaped {
        out := out + [chunk[i] ^ 0x20];
        escaped := false;
      } else if chunk[i] == ESCAPE {
        escaped := true;
      } else {
        out := out + [chunk[i]];
      }
    }
  }

  function ParseFrame(direction: Direction, timestamp: real, body: seq<Octet>): Option<Frame> {
    ParseRaw(direction, timestamp, Unescaped(body, false))
  }

  /** The same once the body is unescaped. */
  function ParseRaw(direction: Direction, timestamp: real, raw: seq<Octet>): Option<Frame> {
    if |raw| < 4 then None
    else
      var ok := FcsOf(raw) == GOOD_FCS;
      var framed := raw[..|raw| - 2];
      var content := if framed[..2] == [0xFF, 0x03] then framed[2..] else framed;
      if content == [] then None else Some(ParseContent(direction, timestamp, raw, ok, content))
  }

  /** The protocol field is one octet when its lowest bit is set. */
  function ParseContent(direction: Direction, timestamp: real, raw: seq<Octet>, ok: bool, content: seq<Octet>): Frame
    requires content != []
  {
    if content[0] & 1 == 1 then Frame(direction, timestamp, raw, ok, Some(content[0] as nat), content[1..])
    else if |content| >= 2 then
      Frame(direction, timestamp, raw, ok, Some(content[0] as nat * 256 + content[1] as nat), content[2..])
    else Frame(direction, timestamp, raw, ok, None, [])
  }

  // ----- the record stream -----

  /** A closed HDLC body, still escaped. */
  datatype Closed = Closed(direction: Direction, timestamp: real, body: seq<Octet>)

  datatype State = State(now: real, sent: seq<Octet>, rcvd: seq<Octet>, frames: seq<Closed>)

  const START := State(0.0, [], [], [])

  function Pending(s: State, d: Direction): seq<Octet> {
    if d.Sent? then s.sent else s.rcvd
  }

  function WithPending(s: State, d: Direction, pending: seq<Octet>): State {
    if d.Sent? then s.(sent := pending) else s.(rcvd := pending)
  }

  /** Closes what is pending in a direction, if anything. */
  function Flush(s: State, d: Direction): State {
    if Pending(s, d) == [] then s
    else WithPending(s, d, []).(frames := s.frames + [Closed(d, s.now, Pending(s, d))])
  }

  function FeedOctet(s: State, d: Direction, octet: Octet): State {
    if octet == FLAG then Flush(s, d) else WithPending(s, d, Pending(s, d) + [octet])
  }

  function FeedOctets(s: State, d: Direction, octets: seq<Octet>): State
    decreases |octets|
  {
    if octets == [] then s else FeedOctets(FeedOctet(s, d, octets[0]), d, octets[1..])
  }

  function Take(data: seq<Octet>, n: nat): seq<Octet> { if n <= |data| then data[..n] else data }

  function Drop(data: seq<Octet>, n: nat): seq<Octet> { if n <= |data| then data[n..] else [] }

  function FromBig(octets: seq<Octet>): nat {
    if octets == [] then 0 else FromBig(octets[..|octets| - 1]) * 256 + octets[|octets| - 1] as nat
  }

  /** One record: how many octets it took and the state after it, or the end of the reading. */
  datatype Read = Stop | Next(used: nat, state: State)

  function ReadData(rest: seq<Octet>, d: Direction, s: State): Read {
    if |rest| < 2 then Stop
    else
      var length := rest[0] as nat * 256 + rest[1] as nat;
      Next(3 + length, FeedOctets(s, d, Take(rest[2..], length)))
  }

  /** An unknown type or a cut-off length stops the reading; a record cut off later is taken as it is. */
  function ReadRecord(data: seq<Octet>, s: State): (r: Read)
    requires data != []
    ensures r.Next? ==> r.used > 0
  {
    var (kind, rest) := (data[0], data[1..]);
    if kind == 1 || kind == 2 then ReadData(rest, if kind == 1 then Sent else Rcvd, s)
    else if kind == 3 || kind == 4 then Next(1, Flush(s, if kind == 3 then Sent else Rcvd))
    else if kind == 5 then Next(5, s.(now := s.now + FromBig(Take(rest, 4)) as real / 10.0))
    else if kind == 6 then Next(2, if rest == [] then s else s.(now := s.now + rest[0] as nat as real / 10.0))
    else if kind == 7 then Next(5, s.(now := FromBig(Take(rest, 4)) as real))
    else Stop
  }

  function Demux(data: seq<Octet>, s: State): State
    decreases |data|
  {
    if data == [] then s
    else
      match ReadRecord(data, s)
      case Stop => s
      case Next(used, next) => Demux(Drop(data, used), next)
  }

  function ParseOne(c: Closed): seq<Frame> {
    match ParseFrame(c.direction, c.timestamp, c.body)
    case None => []
    case Some(f) => [f]
  }

  /** What each body gives, in order. */
  function Each(parse: Closed -> seq<Frame>, frames: seq<Closed>): seq<Frame> {
    if frames == [] then [] else parse(frames[0]) + Each(parse, frames[1..])
  }

  function ParseAll(frames: seq<Closed>): seq<Frame> { Each(ParseOne, frames) }

  lemma {:induction false} ParseStep(parsed: seq<Frame>, frames: seq<Closed>, i: nat)
    requires i < |frames|
    ensures parsed + ParseAll(frames[i..]) == (parsed + ParseOne(frames[i])) + ParseAll(frames[i + 1..])
  {
    assert frames[i..][0] == frames[i] && frames[i..][1..] == frames[i + 1..];
    var (one, rest) := (ParseOne(frames[i]), ParseAll(frames[i + 1..]));
    assert parsed + (one + rest) == (parsed + one) + rest;
  }

  /** The frames of a record file. */
  function Frames(data: seq<Octet>): seq<Frame> {
    ParseAll(Demux(data, START).frames)
  }

  method ParseRecordFile(data: seq<Octet>) returns (parsed: seq<Frame>)
    ensures parsed == Frames(data)
  {
    var frames := Collect(data);
    parsed := [];
    ghost var whole := ParseAll(frames);
    assert frames[0..] == frames && [] + whole == whole;
    for i := 0 to |frames|
      invariant whole == parsed + ParseAll(frames[i..])
    {
      ParseStep(parsed, frames, i);
      var frame := ParseFrame(frames[i].direction, frames[i].timestamp, frames[i].body);
      if frame.Some? {
        parsed := parsed + [frame.value];
      } else {
        assert parsed + [] == parsed;
      }
    }
  }

  /** One data record: a flag closes what is pending, any other octet joins it. */
  method Absorb(chunk: seq<Octet>, d: Direction, s: State) returns (s': State)
    ensures s' == FeedOctets(s, d, chunk)
  {
    var pending, frames := Pending(s, d), s.frames;
    ghost var end := FeedOctets(s, d, chunk);
    assert chunk[0..] == chunk;
    for i := 0 to |chunk|
      invariant end == FeedOctets(WithPending(s, d, pending).(frames := frames), d, chunk[i..])
    {
      assert chunk[i..][0] == chunk[i] && chunk[i..][1..] == chunk[i + 1..];
      if chunk[i] == FLAG {
        if pending != [] {
          frames := frames + [Closed(d, s.now, pending)];
          pending := [];
        }
      } else {
        pending := pending + [chunk[i]];
      }
    }
    s' := WithPending(s, d, pending).(frames := frames);
  }

  /** A data record after its type octet: its length, and the state it leaves. */
  method AdvanceData(rest: seq<Octet>, d: Direction, s: State) returns (length: nat, s': State)
    requires |rest| >= 2
    ensures ReadData(rest, d, s) == Next(3 + length, s')
  {
    length := rest[0] as nat * 256 + rest[1] as nat;
    s' := Absorb(Take(rest[2..], length), d, s);
  }

  /** Reads the record at `pos`; `more` is false when the reading must stop. */
  method Advance(data: seq<Octet>, pos: nat, s: State) returns (more: bool, pos': nat, s': State)
    requires pos < |data|
    ensures pos < pos'
    ensures ReadRecord(data[pos..], s) == if more then Next(pos' - pos, s') else Stop
    ensures !more ==> s' == s
  {
    var kind, rest := data[pos], data[pos + 1..];
    assert data[pos..][0] == kind && data[pos..][1..] == rest;
    more, pos', s' := true, pos + 1, s;
    if kind == 1 || kind == 2 {
      if |rest| < 2 {
        more := false;
        return;
      }
      var length;
      length, s' := AdvanceData(rest, if kind == 1 then Sent else Rcvd, s);
      pos' := pos + 3 + length;
    } else if kind == 3 || kind == 4 {
      var d := if kind == 3 then Sent else Rcvd;
      if Pending(s, d) != [] {
        s' := WithPending(s, d, []).(frames := s.frames + [Closed(d, s.now, Pending(s, d))]);
      }
    } else if kind == 5 {
      s' := s.(now := s.now + FromBig(Take(rest, 4)) as real / 10.0);
      pos' := pos + 5;
    } else if kind == 6 {
      if rest != [] {
        s' := s.(now := s.now + rest[0] as nat as real / 10.0);
      }
      pos' := pos + 2;
    } else if kind == 7 {
      s' := s.(now := FromBig(Take(rest, 4)) as real);
      pos' := pos + 5;
    } else {
      more := false;
    }
  }

  /** The record loop: advances through the data, keeping the clock and what is pending in each direction. */
  method Collect(data: seq<Octet>) returns (frames: seq<Closed>)
    ensures frames == Demux(data, START).frames
  {
    var pos, s := 0, START;
    while pos < |data|
      invariant Demux(Drop(data, pos), s) == Demux(data, START)
      decreases |data| - pos
    {
      var more, pos', s' := Advance(data, pos, s);
      if !more {
        return s.frames;
      }
      assert Drop(data[pos..], pos' - pos) == Drop(data, pos');
      pos, s := pos', s';
    }
    return s.frames;
  }
}
