/**
 Two streams of packets, cut into data records anywhere and interleaved with each
 other and with time records, read back as the packets in the order they closed.
 */
module PppDemux {
  import opened Wrappers
  import opened Sequences
  import opened PppRecord
  import opened PppWire

  /** One octet on a line, marked with the packet whose closing flag it is. */
  datatype Mark = Mark(octet: Octet, closes: Option<Packet>)

  function Plain(octets: seq<Octet>): (r: seq<Mark>)
    ensures |r| == |octets|
    ensures forall i :: 0 <= i < |r| ==> r[i] == Mark(octets[i], None)
  {
    if octets == [] then [] else [Mark(octets[0], None)] + Plain(octets[1..])
  }

  /** A packet as sent: any number of opening flags, the body escaped under the map in force, the closing flag. */
  datatype Burst = Burst(flags: nat, accm: set<Octet>, packet: Packet)

  function Flags(n: nat): (r: seq<Mark>)
    ensures |r| == n
    ensures forall i :: 0 <= i < |r| ==> r[i] == Mark(FLAG, None)
  {
    if n == 0 then [] else [Mark(FLAG, None)] + Flags(n - 1)
  }

  predicate ValidBursts(bursts: seq<Burst>) {
    forall b :: b in bursts ==> ValidPacket(b.packet) && ControlMap(b.accm)
  }

  /** A whole direction: every burst, then any number of idle flags. */
  function Stream(bursts: seq<Burst>, idle: nat): seq<Mark>
    requires ValidBursts(bursts)
  {
    if bursts == [] then Flags(idle)
    else
      assert bursts[0] in bursts;
      Flags(bursts[0].flags) + Plain(Escaped(Raw(bursts[0].packet), bursts[0].accm))
      + [Mark(FLAG, Some(bursts[0].packet))] + Stream(bursts[1..], idle)
  }

  // ----- the record file -----

  datatype Record =
    | Data(direction: Direction, high: Octet, low: Octet, marks: seq<Mark>)
    | End(direction: Direction, closes: Option<Packet>)
    | Tenths32(tenths: Word)
    | Tenths8(tenth: Octet)
    | Absolute(seconds: Word)

  /** A 32-bit number, most significant octet first. */
  datatype Word = Word(a: Octet, b: Octet, c: Octet, d: Octet)

  function ValueOf(w: Word): nat { ((w.a as nat * 256 + w.b as nat) * 256 + w.c as nat) * 256 + w.d as nat }

  /** A data record's two length octets say how much it holds. */
  predicate ValidRecord(r: Record) { r.Data? ==> r.high as nat * 256 + r.low as nat == |r.marks| }

  function Octets(marks: seq<Mark>): (r: seq<Octet>)
    ensures |r| == |marks|
    ensures forall i :: 0 <= i < |r| ==> r[i] == marks[i].octet
  {
    if marks == [] then [] else [marks[0].octet] + Octets(marks[1..])
  }

  function Encode(r: Record): seq<Octet> {
    match r
    case Data(d, high, low, marks) => [if d.Sent? then 1 else 2, high, low] + Octets(marks)
    case End(d, _) => [if d.Sent? then 3 else 4]
    case Tenths32(w) => [5, w.a, w.b, w.c, w.d]
    case Tenths8(n) => [6, n]
    case Absolute(w) => [7, w.a, w.b, w.c, w.d]
  }

  predicate ValidRecords(rs: seq<Record>) { forall r :: r in rs ==> ValidRecord(r) }

  function EncodeAll(rs: seq<Record>): seq<Octet>
    requires ValidRecords(rs)
  {
    if rs == [] then [] else (assert rs[0] in rs; Encode(rs[0])) + EncodeAll(rs[1..])
  }

  /** What a record adds to its direction's stream: an end record stands for one more flag. */
  function MarksOf(r: Record): (marks: seq<Mark>)
    ensures marks != [] ==> r.Data? || r.End?
  {
    match r
    case Data(_, _, _, marks) => marks
    case End(_, closes) => [Mark(FLAG, closes)]
    case _ => []
  }

  predicate IsOf(r: Record, d: Direction) { (r.Data? || r.End?) && r.direction == d }

  /** Everything recorded of one direction, across all the cuts and all the sessions. */
  function DataOf(rs: seq<Record>, d: Direction): seq<Mark> {
    if rs == [] then [] else (if IsOf(rs[0], d) then MarksOf(rs[0]) else []) + DataOf(rs[1..], d)
  }

  // ----- what should be reported -----

  function Clock(now: real, r: Record): real {
    match r
    case Tenths32(w) => now + ValueOf(w) as real / 10.0
    case Tenths8(n) => now + n as nat as real / 10.0
    case Absolute(w) => ValueOf(w) as real
    case _ => now
  }

  predicate ValidMarks(marks: seq<Mark>) {
    forall m :: m in marks && m.closes.Some? ==> ValidPacket(m.closes.value)
  }

  /** The packet whose closing flag this octet is. */
  function ReportedMark(d: Direction, now: real, m: Mark): seq<Frame>
    requires m.closes.Some? ==> ValidPacket(m.closes.value)
  {
    if m.closes.Some? then Reported(d, now, m.closes.value) else []
  }

  /** The packets whose closing flags these octets hold, in order. */
  function ReportedIn(d: Direction, now: real, marks: seq<Mark>): seq<Frame>
    requires ValidMarks(marks)
  {
    if marks == [] then []
    else
      assert marks[0] in marks;
      ReportedMark(d, now, marks[0]) + ReportedIn(d, now, marks[1..])
  }

  predicate AllValidMarks(rs: seq<Record>) {
    forall r :: r in rs ==> ValidMarks(MarksOf(r))
  }

  /** The packets one record closes. */
  function ReportedRecord(r: Record, now: real): seq<Frame>
    requires ValidMarks(MarksOf(r))
  {
    if r.Data? || r.End? then ReportedIn(r.direction, now, MarksOf(r)) else []
  }

  /** Record by record: each closing flag reports its packet, in its direction, at the clock's time. */
  function Expected(rs: seq<Record>, now: real): seq<Frame>
    requires AllValidMarks(rs)
  {
    if rs == [] then []
    else
      assert rs[0] in rs;
      ReportedRecord(rs[0], now) + Expected(rs[1..], Clock(now, rs[0]))
  }

  // ----- pending octets and the rest of a stream fit together -----

  /** The packet, escaped under some map. */
  ghost predicate IsBodyOf(body: seq<Octet>, p: Packet) {
    exists accm :: ControlMap(accm) && body == Escaped(Raw(p), accm)
  }

  /** What is pending and what is still to come close exactly the marked packets. */
  ghost predicate Fits(pending: seq<Octet>, marks: seq<Mark>)
    decreases |marks|
  {
    if marks == [] then pending == []
    else if marks[0].octet == FLAG then
      && (if marks[0].closes.None? then pending == []
          else ValidPacket(marks[0].closes.value) && IsBodyOf(pending, marks[0].closes.value))
      && Fits([], marks[1..])
    else marks[0].closes.None? && Fits(pending + [marks[0].octet], marks[1..])
  }

  lemma {:induction false} FlagsFit(n: nat, rest: seq<Mark>)
    requires Fits([], rest)
    ensures Fits([], Flags(n) + rest)
  {
    if n == 0 {
      assert Flags(n) + rest == rest;
    } else {
      FlagsFit(n - 1, rest);
      assert (Flags(n) + rest)[1..] == Flags(n - 1) + rest;
    }
  }

  lemma {:induction false} PlainFits(pending: seq<Octet>, body: seq<Octet>, rest: seq<Mark>)
    requires FLAG !in body && Fits(pending + body, rest)
    ensures Fits(pending, Plain(body) + rest)
    decreases |body|
  {
    if body == [] {
      assert Plain(body) + rest == rest && pending + body == pending;
    } else {
      assert (pending + [body[0]]) + body[1..] == pending + body;
      PlainFits(pending + [body[0]], body[1..], rest);
      assert (Plain(body) + rest)[0] == Mark(body[0], None);
      assert (Plain(body) + rest)[1..] == Plain(body[1..]) + rest;
    }
  }

  /** A freshly started stream fits. */
  lemma {:induction false} StreamFits(bursts: seq<Burst>, idle: nat)
    requires ValidBursts(bursts)
    ensures Fits([], Stream(bursts, idle))
  {
    if bursts == [] {
      FlagsFit(idle, []);
      assert Flags(idle) + [] == Flags(idle);
    } else {
      assert bursts[0] in bursts;
      StreamFits(bursts[1..], idle);
      BurstFits(bursts[0], Stream(bursts[1..], idle));
    }
  }

  lemma {:induction false} BurstFits(burst: Burst, later: seq<Mark>)
    requires ValidPacket(burst.packet) && ControlMap(burst.accm) && Fits([], later)
    ensures Fits([], Flags(burst.flags) + Plain(Escaped(Raw(burst.packet), burst.accm))
                     + [Mark(FLAG, Some(burst.packet))] + later)
  {
    var body := Escaped(Raw(burst.packet), burst.accm);
    var close := [Mark(FLAG, Some(burst.packet))];
    EscapedUnescapes(Raw(burst.packet), burst.accm);
    assert (close + later)[1..] == later;
    ClosedBodyFits(burst.flags, body, close, later);
  }

  lemma {:induction false} ClosedBodyFits(n: nat, body: seq<Octet>, close: seq<Mark>, later: seq<Mark>)
    requires FLAG !in body && Fits(body, close + later)
    ensures Fits([], Flags(n) + Plain(body) + close + later)
  {
    assert [] + body == body;
    PlainFits([], body, close + later);
    FlagsFit(n, Plain(body) + (close + later));
    Regroup(Flags(n), Plain(body), close, later);
  }

  lemma {:induction false} Regroup<T>(a: seq<T>, b: seq<T>, c: seq<T>, d: seq<T>)
    ensures a + b + c + d == a + (b + (c + d))
  {
  }

  lemma {:induction false} EachConcat(parse: Closed -> seq<Frame>, a: seq<Closed>, b: seq<Closed>)
    ensures Each(parse, a + b) == Each(parse, a) + Each(parse, b)
  {
    if a == [] {
      assert a + b == b;
    } else {
      EachConcat(parse, a[1..], b);
      assert (a + b)[0] == a[0] && (a + b)[1..] == a[1..] + b;
      Assoc(parse(a[0]), Each(parse, a[1..]), Each(parse, b));
    }
  }

  lemma {:induction false} EachSingle(parse: Closed -> seq<Frame>, x: Closed)
    ensures Each(parse, [x]) == parse(x)
  {
    assert [x][1..] == [] && parse(x) + [] == parse(x);
  }

  lemma {:induction false} ParseAllConcat(a: seq<Closed>, b: seq<Closed>)
    ensures ParseAll(a + b) == ParseAll(a) + ParseAll(b)
  {
    EachConcat(ParseOne, a, b);
  }

  /** One octet of a fitting stream: at most its own packet is reported. */
  lemma {:induction false} OctetFits(s: State, d: Direction, m: Mark, rest: seq<Mark>)
    requires Fits(Pending(s, d), [m] + rest)
    requires m.closes.Some? ==> ValidPacket(m.closes.value)
    ensures var end := FeedOctet(s, d, m.octet);
      && Fits(Pending(end, d), rest)
      && end.now == s.now
      && (forall e: Direction :: e != d ==> Pending(end, e) == Pending(s, e))
      && ParseAll(end.frames) == ParseAll(s.frames) + ReportedMark(d, s.now, m)
  {
    assert ([m] + rest)[1..] == rest;
    if m.octet == FLAG && m.closes.Some? {
      var p := m.closes.value;
      var accm :| ControlMap(accm) && Pending(s, d) == Escaped(Raw(p), accm);
      EscapedUnescapes(Raw(p), accm);
      BodyParses(d, s.now, p, accm);
      var closed := [Closed(d, s.now, Pending(s, d))];
      ParseAllConcat(s.frames, closed);
      EachSingle(ParseOne, closed[0]);
    }
  }

  /** Feeding part of a fitting stream reports that part's packets and leaves the rest fitting. */
  lemma {:induction false} FeedFits(s: State, d: Direction, marks: seq<Mark>, rest: seq<Mark>)
    requires Fits(Pending(s, d), marks + rest) && ValidMarks(marks)
    ensures var end := FeedOctets(s, d, Octets(marks));
      && Fits(Pending(end, d), rest)
      && end.now == s.now
      && (forall e: Direction :: e != d ==> Pending(end, e) == Pending(s, e))
      && ParseAll(end.frames) == ParseAll(s.frames) + ReportedIn(d, s.now, marks)
    decreases |marks|
  {
    if marks == [] {
      assert marks + rest == rest;
    } else {
      var (m, more) := (marks[0], marks[1..]);
      assert m in marks;
      assert marks + rest == [m] + (more + rest);
      assert Octets(marks)[1..] == Octets(more);
      OctetFits(s, d, m, more + rest);
      FeedFits(FeedOctet(s, d, m.octet), d, more, rest);
      Assoc(ParseAll(s.frames), ReportedMark(d, s.now, m), ReportedIn(d, s.now, more));
    }
  }

  // ----- reading the records back -----

  lemma {:induction false} FromBigSnoc(octets: seq<Octet>, last: Octet)
    ensures FromBig(octets + [last]) == FromBig(octets) * 256 + last as nat
  {
    assert (octets + [last])[..|octets|] == octets;
  }

  lemma {:induction false} TwoOctets(a: Octet, b: Octet)
    ensures FromBig([a, b]) == a as nat * 256 + b as nat
  {
    FromBigSnoc([], a);
    FromBigSnoc([a], b);
    assert [] + [a] == [a] && [a] + [b] == [a, b];
  }

  lemma {:induction false} FourOctets(a: Octet, b: Octet, c: Octet, d: Octet)
    ensures FromBig([a, b, c, d]) == ((a as nat * 256 + b as nat) * 256 + c as nat) * 256 + d as nat
  {
    TwoOctets(a, b);
    Appended([a, b], c, [a, b, c]);
    Appended([a, b, c], d, [a, b, c, d]);
  }

  lemma {:induction false} Appended(octets: seq<Octet>, last: Octet, all: seq<Octet>)
    requires all == octets + [last]
    ensures FromBig(all) == FromBig(octets) * 256 + last as nat
  {
    FromBigSnoc(octets, last);
  }

  /** The state after one record, as a reader should see it. */
  function After(s: State, r: Record): State {
    match r
    case Data(d, _, _, marks) => FeedOctets(s, d, Octets(marks))
    case End(d, _) => Flush(s, d)
    case _ => s.(now := Clock(s.now, r))
  }

  lemma {:induction false} LengthReads(hi: Octet, lo: Octet, body: seq<Octet>, rest: seq<Octet>, d: Direction, s: State)
    requires hi as nat * 256 + lo as nat == |body|
    ensures ReadData([hi, lo] + (body + rest), d, s) == Next(3 + |body|, FeedOctets(s, d, body))
  {
    var data := [hi, lo] + (body + rest);
    assert data[0] == hi && data[1] == lo && data[2..] == body + rest;
    assert (body + rest)[..|body|] == body;
  }

  lemma {:induction false} DataKind(data: seq<Octet>, d: Direction, s: State)
    requires data != [] && data[0] == if d.Sent? then 1 else 2
    ensures ReadRecord(data, s) == ReadData(data[1..], d, s)
  {
  }

  lemma {:induction false} DataSplits(r: Record, rest: seq<Octet>)
    requires r.Data?
    ensures var data := Encode(r) + rest;
      && data[0] == (if r.direction.Sent? then 1 else 2)
      && data[1..] == [r.high, r.low] + (Octets(r.marks) + rest)
      && |Encode(r)| == 3 + |r.marks|
  {
  }

  lemma {:induction false} DataReads(r: Record, rest: seq<Octet>, s: State)
    requires r.Data? && ValidRecord(r)
    ensures ReadRecord(Encode(r) + rest, s) == Next(|Encode(r)|, After(s, r))
  {
    DataSplits(r, rest);
    DataKind(Encode(r) + rest, r.direction, s);
    LengthReads(r.high, r.low, Octets(r.marks), rest, r.direction, s);
  }

  lemma {:induction false} ClockKind(data: seq<Octet>, s: State)
    requires data != [] && (data[0] == 5 || data[0] == 7)
    ensures var n := FromBig(Take(data[1..], 4)) as real;
      ReadRecord(data, s) == Next(5, if data[0] == 5 then s.(now := s.now + n / 10.0) else s.(now := n))
  {
  }

  lemma {:induction false} ClockSplits(kind: Octet, word: seq<Octet>, rest: seq<Octet>)
    requires |word| == 4
    ensures var data := [kind] + word + rest;
      data[0] == kind && Take(data[1..], 4) == word
  {
    assert ([kind] + word + rest)[1..] == word + rest;
    assert (word + rest)[..4] == word;
  }

  lemma {:induction false} ClockReads(kind: Octet, w: Word, rest: seq<Octet>, s: State)
    requires kind == 5 || kind == 7
    ensures var n := ValueOf(w) as real;
      ReadRecord([kind, w.a, w.b, w.c, w.d] + rest, s)
        == Next(5, if kind == 5 then s.(now := s.now + n / 10.0) else s.(now := n))
  {
    var word := [w.a, w.b, w.c, w.d];
    assert [kind, w.a, w.b, w.c, w.d] == [kind] + word;
    FourOctets(w.a, w.b, w.c, w.d);
    ClockSplits(kind, word, rest);
    ClockKind([kind] + word + rest, s);
  }

  lemma {:induction false} RecordReads(r: Record, rest: seq<Octet>, s: State)
    requires ValidRecord(r)
    ensures Encode(r) != []
    ensures ReadRecord(Encode(r) + rest, s) == Next(|Encode(r)|, After(s, r))
  {
    match r {
      case Data(_, _, _, _) => DataReads(r, rest, s);
      case End(d, _) =>
        assert (Encode(r) + rest)[0] == if d.Sent? then 3 else 4;
      case Tenths8(n) =>
        assert (Encode(r) + rest)[0] == 6 && (Encode(r) + rest)[1..][0] == n;
      case Tenths32(w) => ClockReads(5, w, rest, s);
      case Absolute(w) => ClockReads(7, w, rest, s);
    }
  }

  lemma {:induction false} EncodeAllReads(rs: seq<Record>, s: State)
    requires ValidRecords(rs) && rs != []
    ensures ValidRecords(rs[1..])
    ensures Demux(EncodeAll(rs), s) == Demux(EncodeAll(rs[1..]), After(s, rs[0]))
  {
    assert rs[0] in rs;
    RecordReads(rs[0], EncodeAll(rs[1..]), s);
    assert Drop(EncodeAll(rs), |Encode(rs[0])|) == EncodeAll(rs[1..]);
  }

  /** One record: its packets are reported and what is pending still fits what is to come. */
  lemma {:induction false} AfterFits(rs: seq<Record>, s: State)
    requires rs != [] && ValidMarks(MarksOf(rs[0]))
    requires Fits(s.sent, DataOf(rs, Sent)) && Fits(s.rcvd, DataOf(rs, Rcvd))
    ensures var next := After(s, rs[0]);
      && Fits(next.sent, DataOf(rs[1..], Sent)) && Fits(next.rcvd, DataOf(rs[1..], Rcvd))
      && next.now == Clock(s.now, rs[0])
      && ParseAll(next.frames) == ParseAll(s.frames) + ReportedRecord(rs[0], s.now)
  {
    if rs[0].Data? || rs[0].End? {
      AfterData(rs, s);
    } else {
      assert DataOf(rs, Sent) == DataOf(rs[1..], Sent) && DataOf(rs, Rcvd) == DataOf(rs[1..], Rcvd);
    }
  }

  /** Data and end records are read as their octets. */
  lemma {:induction false} EndIsFlag(r: Record, s: State)
    requires r.Data? || r.End?
    ensures After(s, r) == FeedOctets(s, r.direction, Octets(MarksOf(r)))
  {
    if r.End? {
      var octets := Octets(MarksOf(r));
      assert octets == [FLAG] && octets[1..] == [];
    }
  }

  lemma {:induction false} AfterData(rs: seq<Record>, s: State)
    requires rs != [] && (rs[0].Data? || rs[0].End?) && ValidMarks(MarksOf(rs[0]))
    requires Fits(s.sent, DataOf(rs, Sent)) && Fits(s.rcvd, DataOf(rs, Rcvd))
    ensures var next := After(s, rs[0]);
      && Fits(next.sent, DataOf(rs[1..], Sent)) && Fits(next.rcvd, DataOf(rs[1..], Rcvd))
      && next.now == s.now
      && ParseAll(next.frames) == ParseAll(s.frames) + ReportedRecord(rs[0], s.now)
  {
    var (d, marks) := (rs[0].direction, MarksOf(rs[0]));
    EndIsFlag(rs[0], s);
    var other := if d.Sent? then Rcvd else Sent;
    assert DataOf(rs, other) == [] + DataOf(rs[1..], other) == DataOf(rs[1..], other);
    FeedFits(s, d, marks, DataOf(rs[1..], d));
    assert Pending(FeedOctets(s, d, Octets(marks)), other) == Pending(s, other);
  }

  /** From any state whose pending octets fit what is still to come, exactly the expected frames follow. */
  lemma {:induction false} DemuxReports(rs: seq<Record>, s: State)
    requires ValidRecords(rs) && AllValidMarks(rs)
    requires Fits(s.sent, DataOf(rs, Sent)) && Fits(s.rcvd, DataOf(rs, Rcvd))
    ensures ParseAll(Demux(EncodeAll(rs), s).frames) == ParseAll(s.frames) + Expected(rs, s.now)
    decreases |rs|
  {
    if rs != [] {
      assert rs[0] in rs;
      EncodeAllReads(rs, s);
      AfterFits(rs, s);
      DemuxReports(rs[1..], After(s, rs[0]));
      Assoc(ParseAll(s.frames), ReportedRecord(rs[0], s.now), Expected(rs[1..], Clock(s.now, rs[0])));
    }
  }

  lemma {:induction false} DataOfMembers(rs: seq<Record>, d: Direction)
    ensures forall r, m :: r in rs && IsOf(r, d) && m in MarksOf(r) ==> m in DataOf(rs, d)
  {
    if rs != [] {
      DataOfMembers(rs[1..], d);
    }
  }

  lemma {:induction false} StreamMarksValid(bursts: seq<Burst>, idle: nat)
    requires ValidBursts(bursts)
    ensures ValidMarks(Stream(bursts, idle))
  {
    if bursts != [] {
      assert bursts[0] in bursts;
      StreamMarksValid(bursts[1..], idle);
    }
  }

  lemma {:induction false} RecordedMarksValid(rs: seq<Record>, sent: seq<Burst>, rcvd: seq<Burst>,
                                              sentIdle: nat, rcvdIdle: nat)
    requires ValidBursts(sent) && ValidBursts(rcvd)
    requires DataOf(rs, Sent) == Stream(sent, sentIdle) && DataOf(rs, Rcvd) == Stream(rcvd, rcvdIdle)
    ensures AllValidMarks(rs)
  {
    StreamMarksValid(sent, sentIdle);
    StreamMarksValid(rcvd, rcvdIdle);
    DataOfMembers(rs, Sent);
    DataOfMembers(rs, Rcvd);
  }

  lemma {:induction false} FileReports(rs: seq<Record>)
    requires ValidRecords(rs) && AllValidMarks(rs)
    requires Fits([], DataOf(rs, Sent)) && Fits([], DataOf(rs, Rcvd))
    ensures Frames(EncodeAll(rs)) == Expected(rs, 0.0)
  {
    DemuxReports(rs, START);
    NothingBefore(START, Expected(rs, 0.0));
  }

  lemma {:induction false} NothingBefore(s: State, frames: seq<Frame>)
    requires s.frames == []
    ensures ParseAll(s.frames) + frames == frames
  {
  }

  /** However the two streams were cut and interleaved, the file holds exactly the packets sent and received. */
  lemma {:induction false} RecordFileReports(rs: seq<Record>, sent: seq<Burst>, rcvd: seq<Burst>,
                                             sentIdle: nat, rcvdIdle: nat)
    requires ValidRecords(rs)
    requires ValidBursts(sent) && ValidBursts(rcvd)
    requires DataOf(rs, Sent) == Stream(sent, sentIdle) && DataOf(rs, Rcvd) == Stream(rcvd, rcvdIdle)
    ensures AllValidMarks(rs)
    ensures Frames(EncodeAll(rs)) == Expected(rs, 0.0)
  {
    RecordedMarksValid(rs, sent, rcvd, sentIdle, rcvdIdle);
    StreamFits(sent, sentIdle);
    StreamFits(rcvd, rcvdIdle);
    FileReports(rs);
  }

  // ----- per direction, the packets themselves -----

  function PacketOf(f: Frame, d: Direction): seq<(nat, seq<Octet>)> {
    if f.direction == d && f.protocol.Some? then [(f.protocol.value, f.payload)] else []
  }

  function PacketsOf(frames: seq<Frame>, d: Direction): seq<(nat, seq<Octet>)> {
    if frames == [] then []
    else PacketOf(frames[0], d) + PacketsOf(frames[1..], d)
  }

  /** The packets long enough to be read, as protocol and payload. */
  function Readable(bursts: seq<Burst>): seq<(nat, seq<Octet>)>
    requires ValidBursts(bursts)
  {
    if bursts == [] then []
    else
      assert bursts[0] in bursts;
      var p := bursts[0].packet;
      ClosedMark(Mark(FLAG, Some(p))) + Readable(bursts[1..])
  }

  lemma {:induction false} PacketsConcat(a: seq<Frame>, b: seq<Frame>, d: Direction)
    ensures PacketsOf(a + b, d) == PacketsOf(a, d) + PacketsOf(b, d)
  {
    if a == [] {
      assert a + b == b;
    } else {
      PacketsConcat(a[1..], b, d);
      assert (a + b)[0] == a[0] && (a + b)[1..] == a[1..] + b;
      Assoc(PacketOf(a[0], d), PacketsOf(a[1..], d), PacketsOf(b, d));
    }
  }

  /** The packets some marks close. */
  function ClosedIn(marks: seq<Mark>): seq<(nat, seq<Octet>)>
    requires ValidMarks(marks)
  {
    if marks == [] then []
    else
      assert marks[0] in marks;
      ClosedMark(marks[0]) + ClosedIn(marks[1..])
  }

  function ClosedMark(m: Mark): seq<(nat, seq<Octet>)>
    requires m.closes.Some? ==> ValidPacket(m.closes.value)
  {
    if m.closes.Some? && |Content(m.closes.value)| >= 2 then [(Protocol(m.closes.value), m.closes.value.payload)]
    else []
  }

  lemma {:induction false} ClosedConcat(a: seq<Mark>, b: seq<Mark>)
    requires ValidMarks(a) && ValidMarks(b)
    ensures ValidMarks(a + b) && ClosedIn(a + b) == ClosedIn(a) + ClosedIn(b)
  {
    assert forall m :: m in a + b ==> m in a || m in b;
    if a == [] {
      assert a + b == b;
    } else {
      ClosedConcat(a[1..], b);
      assert (a + b)[0] == a[0] && (a + b)[1..] == a[1..] + b;
      assert a[0] in a;
      assert ClosedMark(a[0]) + (ClosedIn(a[1..]) + ClosedIn(b)) == ClosedMark(a[0]) + ClosedIn(a[1..]) + ClosedIn(b);
    }
  }

  lemma {:induction false} NothingClosed(marks: seq<Mark>)
    requires forall m :: m in marks ==> m.closes.None?
    ensures ValidMarks(marks) && ClosedIn(marks) == []
  {
    if marks != [] {
      assert marks[0] in marks;
      NothingClosed(marks[1..]);
    }
  }

  lemma {:induction false} StreamCloses(bursts: seq<Burst>, idle: nat)
    requires ValidBursts(bursts)
    ensures ValidMarks(Stream(bursts, idle))
    ensures ClosedIn(Stream(bursts, idle)) == Readable(bursts)
  {
    if bursts == [] {
      NothingClosed(Flags(idle));
    } else {
      assert bursts[0] in bursts;
      var p := bursts[0].packet;
      StreamCloses(bursts[1..], idle);
      BurstCloses(Flags(bursts[0].flags), Plain(Escaped(Raw(p), bursts[0].accm)), Mark(FLAG, Some(p)),
                  Stream(bursts[1..], idle));
    }
  }

  lemma {:induction false} BurstCloses(flags: seq<Mark>, body: seq<Mark>, close: Mark, later: seq<Mark>)
    requires forall m :: m in flags || m in body ==> m.closes.None?
    requires ValidMarks([close]) && ValidMarks(later)
    ensures close.closes.Some? ==> ValidPacket(close.closes.value)
    ensures ValidMarks(flags + body + [close] + later)
    ensures ClosedIn(flags + body + [close] + later) == ClosedMark(close) + ClosedIn(later)
  {
    OneCloses(close);
    ClosedConcat([close], later);
    QuietThen(body, [close] + later);
    QuietThen(flags, body + ([close] + later));
    Regroup(flags, body, [close], later);
  }

  lemma {:induction false} QuietThen(quiet: seq<Mark>, later: seq<Mark>)
    requires forall m :: m in quiet ==> m.closes.None?
    requires ValidMarks(later)
    ensures ValidMarks(quiet + later) && ClosedIn(quiet + later) == ClosedIn(later)
  {
    NothingClosed(quiet);
    ClosedConcat(quiet, later);
    assert [] + ClosedIn(later) == ClosedIn(later);
  }

  lemma {:induction false} OneCloses(close: Mark)
    requires ValidMarks([close])
    ensures close.closes.Some? ==> ValidPacket(close.closes.value)
    ensures ClosedIn([close]) == ClosedMark(close)
  {
    assert close in [close] && [close][1..] == [];
    assert ClosedIn([close]) == ClosedMark(close) + [];
  }

  lemma {:induction false} ReportedInPackets(d: Direction, e: Direction, now: real, marks: seq<Mark>)
    requires ValidMarks(marks)
    ensures PacketsOf(ReportedIn(d, now, marks), e) == if d == e then ClosedIn(marks) else []
  {
    if marks != [] {
      assert marks[0] in marks;
      ReportedInPackets(d, e, now, marks[1..]);
      var head := ReportedMark(d, now, marks[0]);
      PacketsConcat(head, ReportedIn(d, now, marks[1..]), e);
      if head != [] {
        assert head[1..] == [];
      }
    }
  }

  lemma {:induction false} ExpectedPackets(rs: seq<Record>, now: real, d: Direction)
    requires AllValidMarks(rs)
    ensures ValidMarks(DataOf(rs, d))
    ensures PacketsOf(Expected(rs, now), d) == ClosedIn(DataOf(rs, d))
  {
    if rs != [] {
      var (r, later) := (rs[0], rs[1..]);
      assert r in rs;
      ExpectedPackets(later, Clock(now, r), d);
      PacketsConcat(ReportedRecord(r, now), Expected(later, Clock(now, r)), d);
      RecordPackets(r, now, d);
      ClosedConcat(if IsOf(r, d) then MarksOf(r) else [], DataOf(later, d));
    }
  }

  lemma {:induction false} RecordPackets(r: Record, now: real, d: Direction)
    requires ValidMarks(MarksOf(r))
    ensures PacketsOf(ReportedRecord(r, now), d) == ClosedIn(if IsOf(r, d) then MarksOf(r) else [])
  {
    if r.Data? || r.End? {
      ReportedInPackets(r.direction, d, now, MarksOf(r));
    }
  }

  /** In each direction, the reported packets are the readable ones that were sent, in order. */
  lemma {:induction false} DirectionsPreserved(rs: seq<Record>, sent: seq<Burst>, rcvd: seq<Burst>,
                                               sentIdle: nat, rcvdIdle: nat)
    requires ValidRecords(rs)
    requires ValidBursts(sent) && ValidBursts(rcvd)
    requires DataOf(rs, Sent) == Stream(sent, sentIdle) && DataOf(rs, Rcvd) == Stream(rcvd, rcvdIdle)
    ensures PacketsOf(Frames(EncodeAll(rs)), Sent) == Readable(sent)
    ensures PacketsOf(Frames(EncodeAll(rs)), Rcvd) == Readable(rcvd)
    ensures forall f :: f in Frames(EncodeAll(rs)) ==> f.fcsOk
  {
    RecordFileReports(rs, sent, rcvd, sentIdle, rcvdIdle);
    ExpectedPackets(rs, 0.0, Sent);
    ExpectedPackets(rs, 0.0, Rcvd);
    StreamCloses(sent, sentIdle);
    StreamCloses(rcvd, rcvdIdle);
    ExpectedChecks(rs, 0.0);
  }

  lemma {:induction false} ExpectedChecks(rs: seq<Record>, now: real)
    requires AllValidMarks(rs)
    ensures forall f :: f in Expected(rs, now) ==> f.fcsOk
  {
    if rs != [] {
      assert rs[0] in rs;
      ExpectedChecks(rs[1..], Clock(now, rs[0]));
      if rs[0].Data? || rs[0].End? {
        ReportedInChecks(rs[0].direction, now, MarksOf(rs[0]));
      }
    }
  }

  lemma {:induction false} ReportedInChecks(d: Direction, now: real, marks: seq<Mark>)
    requires ValidMarks(marks)
    ensures forall f :: f in ReportedIn(d, now, marks) ==> f.fcsOk
  {
    if marks != [] {
      assert marks[0] in marks;
      ReportedInChecks(d, now, marks[1..]);
    }
  }
}
