/**
 What a PPP link writes (RFC 1662 section 4.2, RFC 1661 sections 2, 6.5 and 6.6),
 recorded in pieces, reads back as the frames that were sent.
 */
module PppWire {
  import opened Wrappers
  import opened PppRecord

  // ----- the check sequence -----

  lemma {:induction false} FcsSnoc(data: seq<Octet>, octet: Octet)
    ensures FcsOf(data + [octet]) == FcsStep(FcsOf(data), octet)
  {
    assert (data + [octet])[..|data|] == data;
  }

  lemma {:induction false} ResidueStep(fcs: bv16)
    ensures FcsStep(FcsStep(fcs, (!fcs & 0xFF) as bv8), (!fcs >> 8) as bv8) == GOOD_FCS
  {
  }

  /** The complement of the check value, low octet first. */
  function Check(content: seq<Octet>): seq<Octet> {
    var fcs := !FcsOf(content);
    [(fcs & 0xFF) as bv8, (fcs >> 8) as bv8]
  }

  /** Octets followed by their own check leave the fixed residue, whatever they are. */
  lemma {:induction false} Residue(content: seq<Octet>)
    ensures FcsOf(content + Check(content)) == GOOD_FCS
  {
    var c := Check(content);
    assert content + c == content + [c[0]] + [c[1]];
    FcsSnoc(content, c[0]);
    FcsSnoc(content + [c[0]], c[1]);
    ResidueStep(FcsOf(content));
  }

  // ----- frames on the wire -----

  /** A packet, with address-and-control or protocol-field compression or without. */
  datatype Packet = Packet(acfc: bool, pfc: bool, high: Octet, low: Octet, payload: seq<Octet>)

  /**
   The lowest bit of a protocol number's low octet is set, that of its high octet is clear; only
   those below 256 can be sent in one octet, and 0xFF is never used that way
   (RFC 1661 sections 2 and 6.5).
   */
  predicate ValidPacket(p: Packet) {
    && p.low & 1 == 1 && p.high & 1 == 0
    && (p.pfc ==> p.high == 0 && p.low != 0xFF)
  }

  function Protocol(p: Packet): nat { p.high as nat * 256 + p.low as nat }

  function ProtocolField(p: Packet): seq<Octet>
  {
    if p.pfc then [p.low] else [p.high, p.low]
  }

  function Content(p: Packet): seq<Octet>
  {
    (if p.acfc then [] else [0xFF, 0x03]) + ProtocolField(p) + p.payload
  }

  function Raw(p: Packet): seq<Octet>
  {
    Content(p) + Check(Content(p))
  }

  /** Control characters the peers agreed to escape; always a subset of the first 32. */
  predicate ControlMap(accm: set<Octet>) {
    forall c :: c in accm ==> c < 0x20
  }

  function Escaped(data: seq<Octet>, accm: set<Octet>): seq<Octet> {
    if data == [] then []
    else
      (if data[0] == FLAG || data[0] == ESCAPE || data[0] in accm then [ESCAPE, data[0] ^ 0x20] else [data[0]])
      + Escaped(data[1..], accm)
  }

  lemma {:induction false} EscapedUnescapes(data: seq<Octet>, accm: set<Octet>)
    requires ControlMap(accm)
    ensures Unescaped(Escaped(data, accm), false) == data
    ensures FLAG !in Escaped(data, accm)
    ensures data != [] ==> Escaped(data, accm) != []
  {
    if data != [] {
      EscapedUnescapes(data[1..], accm);
      var (b, rest) := (data[0], Escaped(data[1..], accm));
      if b == FLAG || b == ESCAPE || b in accm {
        var lead := [ESCAPE, b ^ 0x20];
        assert (lead + rest)[1..] == [b ^ 0x20] + rest;
        assert ([b ^ 0x20] + rest)[1..] == rest;
        EscapeBit(b);
        assert Escaped(data, accm) == lead + rest;
      } else {
        assert ([b] + rest)[1..] == rest;
      }
      assert data == [b] + data[1..];
    }
  }

  lemma {:induction false} EscapeBit(b: Octet)
    ensures (b ^ 0x20) ^ 0x20 == b
    ensures b == FLAG || b == ESCAPE || b < 0x20 ==> b ^ 0x20 != FLAG
  {
  }

  /** The frame a reader should report for a packet, or none when there is too little to read. */
  function Reported(d: Direction, now: real, p: Packet): seq<Frame>
    requires ValidPacket(p)
  {
    if |Content(p)| < 2 then [] else [Frame(d, now, Raw(p), true, Some(Protocol(p)), p.payload)]
  }

  /** A packet's body parses to exactly what was sent, with a good check. */
  lemma {:induction false} BodyParses(d: Direction, now: real, p: Packet, accm: set<Octet>)
    requires ValidPacket(p) && ControlMap(accm)
    ensures var r := ParseFrame(d, now, Escaped(Raw(p), accm));
      Reported(d, now, p) == match r case None => [] case Some(f) => [f]
  {
    EscapedUnescapes(Raw(p), accm);
    RawParses(d, now, p);
  }

  lemma {:induction false} RawParses(d: Direction, now: real, p: Packet)
    requires ValidPacket(p)
    ensures Reported(d, now, p) == match ParseRaw(d, now, Raw(p)) case None => [] case Some(f) => [f]
  {
    Residue(Content(p));
    assert Raw(p)[..|Raw(p)| - 2] == Content(p);
    ContentStrips(p);
    ContentParses(d, now, p, Raw(p));
  }

  lemma {:induction false} ContentParses(d: Direction, now: real, p: Packet, raw: seq<Octet>)
    requires ValidPacket(p)
    ensures ProtocolField(p) + p.payload != []
    ensures ParseContent(d, now, raw, true, ProtocolField(p) + p.payload)
         == Frame(d, now, raw, true, Some(Protocol(p)), p.payload)
  {
    FieldReads(p);
  }

  /** The protocol field says how long it is, and which protocol it names. */
  lemma {:induction false} FieldReads(p: Packet)
    requires ValidPacket(p)
    ensures var body := ProtocolField(p) + p.payload;
      && body != []
      && (body[0] & 1 == 1 <==> p.pfc)
      && (p.pfc ==> body[0] as nat == Protocol(p) && body[1..] == p.payload)
      && (!p.pfc ==> body[0] as nat * 256 + body[1] as nat == Protocol(p) && body[2..] == p.payload)
  {
  }

  /** Address and control are recognised and dropped; nothing else is. */
  lemma {:induction false} ContentStrips(p: Packet)
    requires ValidPacket(p)
    ensures |Content(p)| >= 2 ==>
      (if Content(p)[..2] == [0xFF, 0x03] then Content(p)[2..] else Content(p)) == ProtocolField(p) + p.payload
  {
    var body := ProtocolField(p) + p.payload;
    if p.acfc {
      assert Content(p) == body && body[0] == ProtocolField(p)[0];
      assert |body| >= 2 ==> body[..2][0] == body[0];
    } else {
      assert Content(p) == [0xFF, 0x03] + body;
      assert Content(p)[..2] == [0xFF, 0x03];
    }
  }
}
