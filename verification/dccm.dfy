/** The desktop end of one device connection: handshake, password challenge and keep-alive. */
module Dccm {
  import opened Wrappers

  const DCCM_PING := 0x12345678
  const DCCM_MAX_MISSED_PINGS := 5
  const DCCM_MAX_PACKET_SIZE := 512
  const DCCM_MIN_PACKET_SIZE := 0x24

  /** What an info packet says about the device. */
  type Info = string

  datatype Session = Session(
    info: Option<Info>,
    key: nat,
    locked: bool,
    awaitingReply: bool,
    authenticated: bool,
    missedPings: nat)

  const FRESH := Session(None, 0, false, false, false, 0)

  datatype Message = Ping | Password(key: nat)

  datatype Error = PacketTooSmall | BadInfo | PasswordNeeded | PasswordRejected

  datatype Step = Next(session: Session, sent: seq<Message>) | Ends(error: Error)

  /** Data from the device, read as a header or as a password reply, or a ping interval without any. */
  datatype Event = Ready(header: nat, info: Option<Info>, reply: nat) | Timeout

  function HandleHeader(s: Session, header: nat, info: Option<Info>, hasPassword: bool): Step {
    if header == 0 then Next(s, [])
    else if header == DCCM_PING then Next(s.(missedPings := 0), [])
    else if header < DCCM_MAX_PACKET_SIZE then
      if header < DCCM_MIN_PACKET_SIZE then Ends(PacketTooSmall)
      else if info.None? then Ends(BadInfo)
      else if s.locked then Next(s.(info := info, awaitingReply := true), [])
      else Next(s.(info := info, authenticated := true), [Ping])
    else if !hasPassword then Ends(PasswordNeeded)
    else Next(s.(key := header % 256, locked := true), [Password(header % 256)])
  }

  function HandlePasswordReply(s: Session, reply: nat): Step {
    if reply == 0 then Ends(PasswordRejected)
    else Next(s.(awaitingReply := false, authenticated := true), [Ping])
  }

  function StepOf(s: Session, e: Event, hasPassword: bool): Step {
    match e
    case Timeout => Next(s.(missedPings := s.missedPings + 1), [Ping])
    case Ready(header, info, reply) =>
      if s.awaitingReply then HandlePasswordReply(s, reply) else HandleHeader(s, header, info, hasPassword)
  }

  /** How a connection went: the last session, the announced ones, how many events it took, and what ended it. */
  datatype Outcome = Outcome(session: Session, announced: seq<Session>, used: nat, error: Option<Error>)

  function Announced(before: Session, after: Session): seq<Session> {
    if after.authenticated && !before.authenticated then [after] else []
  }

  function RunFrom(s: Session, events: seq<Event>, hasPassword: bool): (r: Outcome)
    ensures r.used <= |events|
    decreases |events|
  {
    if events == [] || s.missedPings >= DCCM_MAX_MISSED_PINGS then Outcome(s, [], 0, None)
    else
      match StepOf(s, events[0], hasPassword)
      case Ends(error) => Outcome(s, [], 1, Some(error))
      case Next(t, _) =>
        var rest := RunFrom(t, events[1..], hasPassword);
        Outcome(rest.session, Announced(s, t) + rest.announced, rest.used + 1, rest.error)
  }

  /** An outcome that began with some announcements and events already behind it. */
  function After(announced: seq<Session>, used: nat, rest: Outcome): Outcome {
    Outcome(rest.session, announced + rest.announced, used + rest.used, rest.error)
  }

  lemma {:induction false} AfterStep(announced: seq<Session>, used: nat, s: Session, events: seq<Event>,
                                     hasPassword: bool)
    requires used < |events| && s.missedPings < DCCM_MAX_MISSED_PINGS
    ensures var step := StepOf(s, events[used], hasPassword);
      After(announced, used, RunFrom(s, events[used..], hasPassword)) ==
        if step.Ends? then Outcome(s, announced, used + 1, Some(step.error))
        else After(announced + Announced(s, step.session), used + 1,
                   RunFrom(step.session, events[used + 1..], hasPassword))
  {
    assert events[used..][0] == events[used] && events[used..][1..] == events[used + 1..];
    var step := StepOf(s, events[used], hasPassword);
    if step.Next? {
      var rest := RunFrom(step.session, events[used + 1..], hasPassword).announced;
      assert announced + (Announced(s, step.session) + rest) == announced + Announced(s, step.session) + rest;
    }
  }

  method ClientLoop(events: seq<Event>, hasPassword: bool) returns (r: Outcome)
    ensures r == RunFrom(FRESH, events, hasPassword)
  {
    var session, announced, used := FRESH, [], 0;
    ghost var whole := RunFrom(FRESH, events, hasPassword);
    assert events[0..] == events && After([], 0, whole) == whole;
    while used < |events| && session.missedPings < DCCM_MAX_MISSED_PINGS
      invariant used <= |events|
      invariant whole == After(announced, used, RunFrom(session, events[used..], hasPassword))
    {
      AfterStep(announced, used, session, events, hasPassword);
      var step := StepOf(session, events[used], hasPassword);
      if step.Ends? {
        return Outcome(session, announced, used + 1, Some(step.error));
      }
      var wasAuthenticated := session.authenticated;
      session, used := step.session, used + 1;
      if session.authenticated && !wasAuthenticated {
        announced := announced + [session];
      } else {
        assert announced + [] == announced;
      }
    }
    assert announced + [] == announced;
    return Outcome(session, announced, used, None);
  }

  // ----- what every run keeps -----

  ghost predicate Consistent(s: Session) {
    && (s.awaitingReply ==> s.locked && s.info.Some?)
    && (s.authenticated ==> s.info.Some?)
    && s.missedPings <= DCCM_MAX_MISSED_PINGS
  }

  /** Steps keep the session consistent; what is known, locked or authenticated stays so. */
  lemma {:induction false} StepKeeps(s: Session, e: Event, hasPassword: bool)
    requires Consistent(s) && s.missedPings < DCCM_MAX_MISSED_PINGS && StepOf(s, e, hasPassword).Next?
    ensures var t := StepOf(s, e, hasPassword).session;
      && Consistent(t)
      && (s.info.Some? ==> t.info.Some?)
      && (s.locked ==> t.locked)
      && (s.authenticated ==> t.authenticated)
      && (t.locked && !s.locked ==> hasPassword)
  {
  }

  /**
   * Over every run: a pending reply means locked with the device known, authentication means the device is known
   * and never reverts, and the connection is announced exactly once if it comes to be authenticated, never otherwise.
   */
  lemma {:induction false} RunKeeps(s: Session, events: seq<Event>, hasPassword: bool)
    requires Consistent(s)
    ensures var r := RunFrom(s, events, hasPassword);
      && Consistent(r.session)
      && (s.authenticated ==> r.session.authenticated && r.announced == [])
      && (!s.authenticated ==> |r.announced| == if r.session.authenticated then 1 else 0)
      && forall a | a in r.announced :: a.authenticated && a.info.Some?
    decreases |events|
  {
    if events != [] && s.missedPings < DCCM_MAX_MISSED_PINGS && StepOf(s, events[0], hasPassword).Next? {
      StepKeeps(s, events[0], hasPassword);
      RunKeeps(StepOf(s, events[0], hasPassword).session, events[1..], hasPassword);
    }
  }

  /** The session when event `i` is taken. */
  function SessionAt(s: Session, events: seq<Event>, hasPassword: bool, i: nat): Session
    requires i < RunFrom(s, events, hasPassword).used
    decreases i
  {
    if i == 0 then s else SessionAt(StepOf(s, events[0], hasPassword).session, events[1..], hasPassword, i - 1)
  }

  /** Event `i` is a password reply that the device accepted. */
  ghost predicate AcceptedAt(s: Session, events: seq<Event>, hasPassword: bool, i: nat) {
    && i < RunFrom(s, events, hasPassword).used
    && events[i].Ready?
    && events[i].reply != 0
    && SessionAt(s, events, hasPassword, i).awaitingReply
  }

  /** A device that asked for the password first is not authenticated without a non-zero reply. */
  lemma {:induction false} LockedNeedsReply(s: Session, events: seq<Event>, hasPassword: bool)
    requires Consistent(s) && s.locked && !s.authenticated
    ensures RunFrom(s, events, hasPassword).session.authenticated <==>
            exists i: nat :: AcceptedAt(s, events, hasPassword, i)
    decreases |events|
  {
    var r := RunFrom(s, events, hasPassword);
    if events != [] && s.missedPings < DCCM_MAX_MISSED_PINGS && StepOf(s, events[0], hasPassword).Next? {
      var t := StepOf(s, events[0], hasPassword).session;
      StepKeeps(s, events[0], hasPassword);
      if t.authenticated {
        assert AcceptedAt(s, events, hasPassword, 0);
        RunKeeps(t, events[1..], hasPassword);
      } else {
        LockedNeedsReply(t, events[1..], hasPassword);
        if i: nat :| AcceptedAt(t, events[1..], hasPassword, i) {
          assert AcceptedAt(s, events, hasPassword, i + 1);
        }
        if i: nat :| AcceptedAt(s, events, hasPassword, i) {
          assert i > 0;
          assert AcceptedAt(t, events[1..], hasPassword, i - 1);
        }
      }
    }
  }

  // ----- keep-alive -----

  function Timeouts(events: seq<Event>): nat {
    if events == [] then 0 else (if events[0].Timeout? then 1 else 0) + Timeouts(events[1..])
  }

  /** Event `i` is taken as a header, and it is a ping answer. */
  ghost predicate AnsweredAt(s: Session, events: seq<Event>, hasPassword: bool, i: nat) {
    && i < RunFrom(s, events, hasPassword).used
    && events[i].Ready?
    && events[i].header == DCCM_PING
    && !SessionAt(s, events, hasPassword, i).awaitingReply
  }

  ghost predicate NoAnswers(s: Session, events: seq<Event>, hasPassword: bool) {
    forall i: nat :: !AnsweredAt(s, events, hasPassword, i)
  }

  lemma {:induction false} NoLaterAnswers(s: Session, events: seq<Event>, hasPassword: bool)
    requires NoAnswers(s, events, hasPassword)
    requires events != [] && s.missedPings < DCCM_MAX_MISSED_PINGS && StepOf(s, events[0], hasPassword).Next?
    ensures NoAnswers(StepOf(s, events[0], hasPassword).session, events[1..], hasPassword)
  {
    var t := StepOf(s, events[0], hasPassword).session;
    forall i: nat
      ensures !AnsweredAt(t, events[1..], hasPassword, i)
    {
      assert !AnsweredAt(s, events, hasPassword, i + 1);
    }
  }

  /** Without an answer, each timeout counts; the fifth missed ping ends the connection and nothing else does. */
  lemma {:induction false} FiveMissedPingsEnd(s: Session, events: seq<Event>, hasPassword: bool)
    requires Consistent(s) && NoAnswers(s, events, hasPassword)
    ensures var r := RunFrom(s, events, hasPassword);
      && r.session.missedPings == s.missedPings + Timeouts(events[..r.used])
      && (r.error.None? ==>
            if s.missedPings + Timeouts(events) >= DCCM_MAX_MISSED_PINGS
            then r.session.missedPings == DCCM_MAX_MISSED_PINGS
            else r.used == |events|)
    decreases |events|
  {
    var r := RunFrom(s, events, hasPassword);
    if events != [] && s.missedPings < DCCM_MAX_MISSED_PINGS {
      var step := StepOf(s, events[0], hasPassword);
      assert !AnsweredAt(s, events, hasPassword, 0);
      if step.Next? {
        StepKeeps(s, events[0], hasPassword);
        NoLaterAnswers(s, events, hasPassword);
        FiveMissedPingsEnd(step.session, events[1..], hasPassword);
        assert events[..r.used][1..] == events[1..][..r.used - 1];
      } else {
        assert events[..1][1..] == [];
      }
    }
  }
}
