/** iCalendar component trees, their stack parser and their recursive printer (RFC 5545). */
module Ical {
  import opened Wrappers
  import opened Text
  import opened TextProps
  import opened ContentLines

  const DEFAULT_PRODID := "-//jornada-link//Jornada Sync//EN"

  /** Properties kept in wire form: dates, durations, rules, addresses, numbers, lists and structured values. */
  predicate IsRawName(name: string) {
    || name == "DTSTART" || name == "DTEND" || name == "DUE" || name == "DTSTAMP" || name == "COMPLETED"
    || name == "CREATED" || name == "LAST-MODIFIED" || name == "RECURRENCE-ID" || name == "EXDATE"
    || name == "RDATE" || name == "DURATION" || name == "TRIGGER" || name == "RRULE" || name == "EXRULE"
    || name == "FREEBUSY" || name == "TZOFFSETFROM" || name == "TZOFFSETTO" || name == "TZURL" || name == "URL"
    || name == "ATTACH" || name == "ATTENDEE" || name == "ORGANIZER" || name == "GEO" || name == "PRIORITY"
    || name == "SEQUENCE" || name == "PERCENT-COMPLETE" || name == "REPEAT" || name == "ACKNOWLEDGED"
    || name == "CATEGORIES" || name == "RESOURCES" || name == "REQUEST-STATUS" || IsRawCardName(name)
  }

  predicate IsRawCardName(name: string) {
    || name == "N" || name == "ADR" || name == "ORG" || name == "NICKNAME" || name == "TEL" || name == "EMAIL"
    || name == "PHOTO" || name == "LOGO" || name == "SOUND" || name == "KEY" || name == "BDAY"
    || name == "ANNIVERSARY" || name == "REV" || name == "TZ" || name == "IMPP" || name == "RELATED"
    || name == "MEMBER" || name == "SOURCE" || name == "GENDER" || name == "CLIENTPIDMAP" || name == "LANG"
    || name == "CALADRURI" || name == "CALURI" || name == "FBURL" || name == "XML" || name == "X-ABDATE"
    || name == "X-ANNIVERSARY" || name == "X-EVOLUTION-ANNIVERSARY"
  }

  /** A single free-text value, by its declared type or else by its name. */
  predicate IsTextValue(name: string, params: seq<Param>) {
    match ParamOf(NormalizeParams(params), "VALUE")
    case Some(declared) => Upper(declared) == "TEXT"
    case None => !IsRawName(Upper(name))
  }

  function DecodeValue(name: string, params: seq<Param>, raw: string): string {
    if IsTextValue(name, params) then Unescaped(raw) else raw
  }

  function EncodeValue(name: string, params: seq<Param>, value: string): string {
    if IsTextValue(name, params) then Escape(value) else value
  }

  // ----- data model -----

  datatype Property = Property(name: string, value: string, params: seq<Param>, group: Option<string>)

  datatype Component = Component(name: string, properties: seq<Property>, children: seq<Component>)

  /** The checks and normalisation every new property goes through. */
  function MakeProperty(name: string, value: string, params: seq<Param>, group: Option<string>): Property {
    Property(Upper(Strip(name)), value, NormalizeParams(params), if group == Some("") then None else group)
  }

  function MakeComponent(name: string, properties: seq<Property>, children: seq<Component>): Component {
    Component(Upper(Strip(name)), properties, children)
  }

  // ----- printing -----

  function PropertyLine(p: Property): string {
    FormatLine(p.group, p.name, p.params, EncodeValue(p.name, p.params, p.value))
  }

  function PropertyWire(properties: seq<Property>): seq<string> {
    if properties == [] then []
    else [Folded(PropertyLine(properties[0]), FOLD_LIMIT)] + PropertyWire(properties[1..])
  }

  function WireLines(c: Component): seq<string>
    decreases c, 1
  {
    ["BEGIN:" + c.name] + PropertyWire(c.properties) + WireChildren(c.children) + ["END:" + c.name]
  }

  function WireChildren(children: seq<Component>): seq<string>
    decreases children, 0
  {
    if children == [] then [] else WireLines(children[0]) + WireChildren(children[1..])
  }

  function Serialize(c: Component): string {
    Join(WireLines(c), CRLF) + CRLF
  }

  // ----- parsing -----

  /** A component being read. */
  datatype Frame = Frame(name: string, properties: seq<Property>, children: seq<Component>)

  datatype IcalError =
    | BadLine(error: LineError)
    | EndWithoutBegin(name: string)
    | EndMismatch(name: string, open: string)
    | Unterminated(name: string)
    | NoContent

  /** The open components, innermost last, above a frame for what stands outside any. */
  datatype State = State(stack: seq<Frame>, top: Frame)

  const START := State([], Frame("VCALENDAR", [], []))

  function AddProperty(s: State, p: Property): State {
    if s.stack == [] then s.(top := s.top.(properties := s.top.properties + [p]))
    else
      var n := |s.stack| - 1;
      s.(stack := s.stack[n := s.stack[n].(properties := s.stack[n].properties + [p])])
  }

  function AddChild(s: State, c: Component): State {
    if s.stack == [] then s.(top := s.top.(children := s.top.children + [c]))
    else
      var n := |s.stack| - 1;
      s.(stack := s.stack[n := s.stack[n].(children := s.stack[n].children + [c])])
  }

  function Build(f: Frame): Component { MakeComponent(f.name, f.properties, f.children) }

  function Open(s: State, name: string): State { s.(stack := s.stack + [Frame(name, [], [])]) }

  /** Closes the innermost component, which must have this name. */
  function Close(s: State, name: string): Result<State, IcalError> {
    if s.stack == [] then Failure(EndWithoutBegin(name))
    else
      var last := s.stack[|s.stack| - 1];
      if last.name != name then Failure(EndMismatch(name, last.name))
      else Success(AddChild(s.(stack := s.stack[..|s.stack| - 1]), Build(last)))
  }

  function TakeParsed(s: State, parsed: ContentLine): Result<State, IcalError> {
    if parsed.name == "BEGIN" then Success(Open(s, Upper(Strip(parsed.value))))
    else if parsed.name == "END" then Close(s, Upper(Strip(parsed.value)))
    else
      var value := DecodeValue(parsed.name, parsed.params, parsed.value);
      Success(AddProperty(s, MakeProperty(parsed.name, value, parsed.params, parsed.group)))
  }

  function TakeLine(s: State, line: string): Result<State, IcalError> {
    match ParseLine(line)
    case Failure(e) => Failure(BadLine(e))
    case Success(parsed) => TakeParsed(s, parsed)
  }

  type Reader = (State, string) -> Result<State, IcalError>

  /** Feeds lines to a reader until one fails. */
  function Feed(read: Reader, s: State, lines: seq<string>): Result<State, IcalError>
    decreases |lines|
  {
    if lines == [] then Success(s)
    else
      match read(s, lines[0])
      case Failure(e) => Failure(e)
      case Success(next) => Feed(read, next, lines[1..])
  }

  function TakeLines(s: State, lines: seq<string>): Result<State, IcalError> {
    Feed(TakeLine, s, lines)
  }

  predicate HasProperty(properties: seq<Property>, name: string) {
    exists i :: 0 <= i < |properties| && properties[i].name == name
  }

  function TopLevel(top: Frame): Result<Component, IcalError> {
    if top.children == [] && top.properties == [] then Failure(NoContent)
    else if |top.children| == 1 && top.properties == [] then Success(top.children[0])
    else
      var version := if HasProperty(top.properties, "VERSION") then []
                     else [MakeProperty("VERSION", "2.0", [], None)];
      var prodid := if HasProperty(top.properties, "PRODID") then []
                    else [MakeProperty("PRODID", DEFAULT_PRODID, [], None)];
      Success(MakeComponent("VCALENDAR", version + prodid + top.properties, top.children))
  }

  function Finish(r: Result<State, IcalError>): Result<Component, IcalError> {
    match r
    case Failure(e) => Failure(e)
    case Success(s) =>
      if s.stack != [] then Failure(Unterminated(s.stack[|s.stack| - 1].name)) else TopLevel(s.top)
  }

  function Parsed(text: string): Result<Component, IcalError> {
    Finish(TakeLines(START, Unfolded(text)))
  }

  lemma {:induction false} TakeNext(s: State, lines: seq<string>, i: nat)
    requires i < |lines|
    ensures var step := TakeLine(s, lines[i]);
      TakeLines(s, lines[i..]) == if step.Failure? then Failure(step.error) else TakeLines(step.value, lines[i + 1..])
  {
    assert lines[i..][0] == lines[i] && lines[i..][1..] == lines[i + 1..];
  }

  /** The innermost frame is built and handed to the one around it, or to the top. */
  method PopFrame(stack: seq<Frame>, top: Frame, wanted: string) returns (r: Result<State, IcalError>)
    ensures r == Close(State(stack, top), wanted)
  {
    if stack == [] {
      return Failure(EndWithoutBegin(wanted));
    }
    var n := |stack| - 1;
    if stack[n].name != wanted {
      return Failure(EndMismatch(wanted, stack[n].name));
    }
    var finished := Build(stack[n]);
    var rest := stack[..n];
    if rest == [] {
      return Success(State(rest, top.(children := top.children + [finished])));
    }
    rest := rest[n - 1 := rest[n - 1].(children := rest[n - 1].children + [finished])];
    return Success(State(rest, top));
  }

  /** The parser's loop: frames are pushed at BEGIN and popped at END. */
  method Parse(text: string) returns (r: Result<Component, IcalError>)
    ensures r == Parsed(text)
  {
    var stack: seq<Frame>, top := [], Frame("VCALENDAR", [], []);
    var lines := Unfold(text);
    for i := 0 to |lines|
      invariant TakeLines(State(stack, top), lines[i..]) == TakeLines(START, lines)
    {
      ghost var before := State(stack, top);
      TakeNext(before, lines, i);
      var parsed := ParseLine(lines[i]);
      if parsed.Failure? {
        return Failure(BadLine(parsed.error));
      }
      var line := parsed.value;
      if line.name == "BEGIN" {
        stack := stack + [Frame(Upper(Strip(line.value)), [], [])];
      } else if line.name == "END" {
        var popped := PopFrame(stack, top, Upper(Strip(line.value)));
        if popped.Failure? {
          return Failure(popped.error);
        }
        stack, top := popped.value.stack, popped.value.top;
      } else {
        var value := DecodeValue(line.name, line.params, line.value);
        var property := MakeProperty(line.name, value, line.params, line.group);
        if stack == [] {
          top := top.(properties := top.properties + [property]);
        } else {
          var n := |stack| - 1;
          stack := stack[n := stack[n].(properties := stack[n].properties + [property])];
        }
      }
      assert TakeLine(before, lines[i]) == Success(State(stack, top));
    }
    assert lines[|lines|..] == [];
    if stack != [] {
      return Failure(Unterminated(stack[|stack| - 1].name));
    }
    return TopLevel(top);
  }
}
