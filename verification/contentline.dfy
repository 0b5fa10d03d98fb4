/** One content line: `[group.]NAME[;PARAM=value...]:value`, taken apart and put together. */
module ContentLines {
  import opened Wrappers
  import opened Text

  datatype Param = Param(name: string, value: string)

  /** `value` is still in wire form. */
  datatype ContentLine = ContentLine(group: Option<string>, name: string, params: seq<Param>, value: string)

  datatype LineError = NoColon | NoName

  const QUOTE := '"'

  // ----- scanning outside double quotes -----

  function Later(n: nat, at: Option<nat>): Option<nat> {
    if at.None? then None else Some(n + at.value)
  }

  /** Where `wanted` first stands outside quotes, `quoted` telling how the text starts. */
  function OutsideAt(text: string, wanted: char, quoted: bool): (at: Option<nat>)
    ensures at.Some? ==> at.value < |text| && text[at.value] == wanted
  {
    if text == "" then None
    else if text[0] == QUOTE then
      if wanted == QUOTE then None else Later(1, OutsideAt(text[1..], wanted, !quoted))
    else if text[0] == wanted && !quoted then Some(0)
    else Later(1, OutsideAt(text[1..], wanted, quoted))
  }

  /** Whether the text ends inside a quotation. */
  predicate EndsQuoted(text: string, quoted: bool) {
    if text == "" then quoted else EndsQuoted(text[1..], if text[0] == QUOTE then !quoted else quoted)
  }

  method FindOutsideQuotes(text: string, wanted: char) returns (at: int)
    requires wanted != QUOTE
    ensures at == match OutsideAt(text, wanted, false) case None => -1 case Some(i) => i
  {
    var quoted := false;
    for index := 0 to |text|
      invariant OutsideAt(text, wanted, false) == Later(index, OutsideAt(text[index..], wanted, quoted))
    {
      assert text[index..][0] == text[index] && text[index..][1..] == text[index + 1..];
      if text[index] == QUOTE {
        quoted := !quoted;
      } else if text[index] == wanted && !quoted {
        return index;
      }
    }
    return -1;
  }

  /** The split as it scans: the piece begun with `begun` is still open, `quoted` says whether in quotes. */
  function SplitScan(begun: string, text: string, separator: char, quoted: bool): (pieces: seq<string>)
    ensures |pieces| > 0
    decreases |text|
  {
    if text == "" then [begun]
    else if text[0] == QUOTE then SplitScan(begun + [text[0]], text[1..], separator, !quoted)
    else if text[0] == separator && !quoted then [begun] + SplitScan("", text[1..], separator, quoted)
    else SplitScan(begun + [text[0]], text[1..], separator, quoted)
  }

  /** The pieces between separators that stand outside quotes. */
  function SplitOutside(text: string, separator: char): (pieces: seq<string>)
    ensures |pieces| > 0
  {
    SplitScan("", text, separator, false)
  }

  method SplitOutsideQuotes(text: string, separator: char) returns (pieces: seq<string>)
    ensures pieces == SplitOutside(text, separator)
  {
    pieces := [];
    var start, quoted := 0, false;
    for index := 0 to |text|
      invariant 0 <= start <= index
      invariant pieces + SplitScan(text[start..index], text[index..], separator, quoted)
             == SplitOutside(text, separator)
    {
      ghost var rest := text[index..];
      assert rest[0] == text[index] && rest[1..] == text[index + 1..];
      assert text[start..index] + [text[index]] == text[start..index + 1];
      if text[index] == QUOTE {
        quoted := !quoted;
      } else if text[index] == separator && !quoted {
        pieces := pieces + [text[start..index]];
        start := index + 1;
        assert text[start..index + 1] == "";
      }
    }
    assert text[start..|text|] == text[start..];
    pieces := pieces + [text[start..]];
  }

  // ----- small string helpers -----

  function IndexOf(s: string, c: char): (at: Option<nat>)
    ensures at.Some? ==> at.value < |s| && s[at.value] == c
    ensures at.None? <==> c !in s
  {
    if s == "" then None else if s[0] == c then Some(0) else Later(1, IndexOf(s[1..], c))
  }

  function LastIndexOf(s: string, c: char): (at: Option<nat>)
    ensures at.Some? ==> at.value < |s| && s[at.value] == c && c !in s[at.value + 1..]
    ensures at.None? <==> c !in s
  {
    if s == "" then None
    else if s[|s| - 1] == c then Some(|s| - 1)
    else LastIndexOf(s[..|s| - 1], c)
  }

  // ----- taking a line apart -----

  /** Bare words of vCard 2.1 that name an encoding; all others name a type. */
  predicate IsBareEncoding(word: string) {
    word == "QUOTED-PRINTABLE" || word == "BASE64" || word == "8BIT" || word == "7BIT" || word == "B"
  }

  /** Parameters whose value is a comma list, written with its commas unquoted. */
  predicate IsMultiValued(key: string) {
    || key == "TYPE" || key == "MEMBER" || key == "DELEGATED-FROM" || key == "DELEGATED-TO"
    || key == "PID" || key == "SORT-AS"
  }

  function SplitGroup(token: string): (Option<string>, string) {
    match LastIndexOf(token, '.')
    case None => (None, token)
    case Some(i) => (if i == 0 then None else Some(token[..i]), token[i + 1..])
  }

  function StripQuotes(text: string): string {
    if |text| >= 2 && text[0] == QUOTE && text[|text| - 1] == QUOTE then text[1..|text| - 1] else text
  }

  function UnquoteSegments(segments: seq<string>): (r: seq<string>)
    ensures |r| == |segments|
    ensures forall i :: 0 <= i < |r| ==> r[i] == StripQuotes(Strip(segments[i]))
  {
    seq(|segments|, i requires 0 <= i < |segments| => StripQuotes(Strip(segments[i])))
  }

  function UnquoteValue(value: string): string {
    Join(UnquoteSegments(SplitOutside(value, ',')), ",")
  }

  function ParseParam(raw: string): seq<Param> {
    var piece := Strip(raw);
    if piece == "" then []
    else
      match IndexOf(piece, '=')
      case None => [if IsBareEncoding(Upper(piece)) then Param("ENCODING", Upper(piece)) else Param("TYPE", piece)]
      case Some(i) => [Param(Upper(Strip(piece[..i])), UnquoteValue(piece[i + 1..]))]
  }

  function ParseParams(pieces: seq<string>): seq<Param> {
    if pieces == [] then [] else ParseParam(pieces[0]) + ParseParams(pieces[1..])
  }

  function ParseLine(line: string): Result<ContentLine, LineError> {
    match OutsideAt(line, ':', false)
    case None => Failure(NoColon)
    case Some(colon) =>
      var pieces := SplitOutside(line[..colon], ';');
      var (group, name) := SplitGroup(Strip(pieces[0]));
      if name == "" then Failure(NoName)
      else Success(ContentLine(group, Upper(name), ParseParams(pieces[1..]), line[colon + 1..]))
  }

  // ----- putting a line together -----

  function NormalizeParams(params: seq<Param>): (r: seq<Param>)
    ensures |r| == |params|
    ensures forall i :: 0 <= i < |r| ==> r[i] == Param(Upper(Strip(params[i].name)), params[i].value)
  {
    if params == [] then []
    else [Param(Upper(Strip(params[0].name)), params[0].value)] + NormalizeParams(params[1..])
  }

  function ParamOf(params: seq<Param>, name: string): Option<string> {
    if params == [] then None
    else if params[0].name == Upper(name) then Some(params[0].value)
    else ParamOf(params[1..], name)
  }

  predicate NeedsQuotes(value: string) { ';' in value || ':' in value || ',' in value }

  function QuoteIfNeeded(value: string): string {
    if NeedsQuotes(value) then [QUOTE] + value + [QUOTE] else value
  }

  function QuoteParts(parts: seq<string>): (r: seq<string>)
    ensures |r| == |parts|
    ensures forall i :: 0 <= i < |r| ==> r[i] == QuoteIfNeeded(parts[i])
  {
    if parts == [] then [] else [QuoteIfNeeded(parts[0])] + QuoteParts(parts[1..])
  }

  /** Double quotes become apostrophes and line breaks spaces: neither can be written in a parameter. */
  function CleanValue(value: string): string {
    Replace(Replace(Replace(value, [QUOTE], "'"), [CR], " "), [LF], " ")
  }

  function FormatParamValue(key: string, value: string): string {
    var clean := CleanValue(value);
    if IsMultiValued(key) then Join(QuoteParts(Split(clean, ',')), ",") else QuoteIfNeeded(clean)
  }

  function FormatParam(p: Param): string { p.name + "=" + FormatParamValue(p.name, p.value) }

  function FormatParams(params: seq<Param>): string {
    if params == [] then "" else ";" + FormatParam(params[0]) + FormatParams(params[1..])
  }

  function FormatHead(group: Option<string>, name: string): string {
    if group.Some? && group.value != "" then group.value + "." + Upper(name) else Upper(name)
  }

  function FormatLine(group: Option<string>, name: string, params: seq<Param>, value: string): string {
    FormatHead(group, name) + FormatParams(NormalizeParams(params)) + ":" + value
  }
}
