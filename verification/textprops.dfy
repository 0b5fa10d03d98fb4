/**
 Content lines shared by iCalendar and vCard: folding, escaping, parameters and
 the split of one logical line into its parts (sections 3.1 and 3.2 of RFC 5545).
 */
module TextProps {
  import opened Text

  const FOLD_LIMIT := 75

  // ----- lines -----

  /** `text.replace("\r\n", "\n").replace("\r", "\n")`. */
  function OneBreak(text: string): string {
    Replace(Replace(text, CRLF, [LF]), [CR], [LF])
  }

  function DropBoms(text: string): string {
    if text != "" && text[0] as int == 0xFEFF then DropBoms(text[1..]) else text
  }

  predicate IsBlank(c: char) { c == ' ' || c == '\t' }

  /** One physical line after those already joined into `lines`. */
  function TakePhysical(lines: seq<string>, physical: string): seq<string> {
    if physical != "" && IsBlank(physical[0]) && lines != [] then
      lines[|lines| - 1 := lines[|lines| - 1] + physical[1..]]
    else if Strip(physical) != "" then lines + [physical]
    else lines
  }

  function TakeAll(lines: seq<string>, physicals: seq<string>): seq<string>
    decreases |physicals|
  {
    if physicals == [] then lines else TakeAll(TakePhysical(lines, physicals[0]), physicals[1..])
  }

  /** The logical lines of a text: breaks unified, continuations joined, blank lines skipped. */
  function Unfolded(text: string): seq<string> {
    TakeAll([], Split(OneBreak(DropBoms(text)), LF))
  }

  method Unfold(text: string) returns (lines: seq<string>)
    ensures lines == Unfolded(text)
  {
    var physicals := Split(OneBreak(DropBoms(text)), LF);
    lines := [];
    for i := 0 to |physicals|
      invariant TakeAll(lines, physicals[i..]) == Unfolded(text)
    {
      var physical := physicals[i];
      assert physicals[i..][1..] == physicals[i + 1..];
      if physical != "" && IsBlank(physical[0]) && lines != [] {
        lines := lines[|lines| - 1 := lines[|lines| - 1] + physical[1..]];
      } else if Strip(physical) != "" {
        lines := lines + [physical];
      }
    }
  }

  /** The pieces a line is folded into; `current` is being filled and has `budget` octets left. */
  function Chunks(line: string, limit: int, current: string, budget: int): (chunks: seq<string>)
    ensures |chunks| > 0
  {
    if line == "" then [current]
    else
      var size := Utf8Size(line[0]);
      if current != "" && size > budget then
        [current] + Chunks(line[1..], limit, [line[0]], limit - 1 - size)
      else Chunks(line[1..], limit, current + [line[0]], budget - size)
  }

  function Folded(line: string, limit: int): string {
    Join(Chunks(line, limit, "", limit), CRLF + " ")
  }

  method Fold(line: string, limit: int := FOLD_LIMIT) returns (text: string)
    ensures text == Folded(line, limit)
  {
    var chunks, current, budget := [], "", limit;
    for i := 0 to |line|
      invariant chunks + Chunks(line[i..], limit, current, budget) == Chunks(line, limit, "", limit)
    {
      var size := Utf8Size(line[i]);
      assert line[i..][1..] == line[i + 1..];
      if current != "" && size > budget {
        chunks := chunks + [current];
        current := "";
        budget := limit - 1;
      }
      current := current + [line[i]];
      budget := budget - size;
      assert "" + [line[i]] == [line[i]];
    }
    chunks := chunks + [current];
    text := Join(chunks, CRLF + " ");
  }

  // ----- escaping -----

  function Escape(text: string): string {
    var a := Replace(text, ['\\'], ['\\', '\\']);
    var b := Replace(a, [';'], ['\\', ';']);
    var c := Replace(b, [','], ['\\', ',']);
    var d := Replace(c, CRLF, ['\\', 'n']);
    var e := Replace(d, [LF], ['\\', 'n']);
    Replace(e, [CR], ['\\', 'n'])
  }

  /** What a backslash before this character stands for. */
  function UnescapedChar(c: char): char {
    if c == 'n' || c == 'N' then LF else c
  }

  function Unescaped(text: string): string
    decreases |text|
  {
    if text == "" then ""
    else if text[0] == '\\' && |text| > 1 then
      [UnescapedChar(text[1])] + Unescaped(text[2..])
    else [text[0]] + Unescaped(text[1..])
  }

  method Unescape(text: string) returns (r: string)
    ensures r == Unescaped(text)
  {
    if '\\' !in text {
      NothingToUnescape(text);
      return text;
    }
    r := "";
    var index := 0;
    while index < |text|
      invariant 0 <= index <= |text|
      invariant r + Unescaped(text[index..]) == Unescaped(text)
    {
      var c := text[index];
      UnescapeNext(r, text, index);
      if c == '\\' && index + 1 < |text| {
        r := r + [UnescapedChar(text[index + 1])];
        index := index + 2;
      } else {
        r := r + [c];
        index := index + 1;
      }
    }
  }

  /** One turn of the loop, whatever it has already unescaped. */
  lemma {:induction false} UnescapeNext(r: string, text: string, index: nat)
    requires index < |text|
    ensures text[index] == '\\' && index + 1 < |text| ==>
      r + Unescaped(text[index..]) == (r + [UnescapedChar(text[index + 1])]) + Unescaped(text[index + 2..])
    ensures !(text[index] == '\\' && index + 1 < |text|) ==>
      r + Unescaped(text[index..]) == (r + [text[index]]) + Unescaped(text[index + 1..])
  {
    assert text[index..][0] == text[index] && text[index..][1..] == text[index + 1..];
    if index + 1 < |text| {
      assert text[index..][1] == text[index + 1] && text[index..][2..] == text[index + 2..];
    }
  }

  lemma {:induction false} NothingToUnescape(text: string)
    requires '\\' !in text
    ensures Unescaped(text) == text
  {
    if text != "" {
      NothingToUnescape(text[1..]);
      assert text == [text[0]] + text[1..];
    }
  }

  /** Splits at separators no backslash precedes; the parts stay escaped. */
  function SplitUnescapedAt(value: string, separator: char, current: string): (parts: seq<string>)
    ensures |parts| > 0
    decreases |value|
  {
    if value == "" then [current]
    else if value[0] == '\\' && |value| > 1 then SplitUnescapedAt(value[2..], separator, current + value[..2])
    else if value[0] == separator then [current] + SplitUnescapedAt(value[1..], separator, "")
    else SplitUnescapedAt(value[1..], separator, current + [value[0]])
  }

  method SplitUnescaped(value: string, separator: char) returns (parts: seq<string>)
    ensures parts == SplitUnescapedAt(value, separator, "")
  {
    parts := [];
    var current := "";
    var index := 0;
    while index < |value|
      invariant 0 <= index <= |value|
      invariant parts + SplitUnescapedAt(value[index..], separator, current) == SplitUnescapedAt(value, separator, "")
    {
      var c := value[index];
      assert value[index..][0] == c;
      if c == '\\' && index + 1 < |value| {
        assert value[index..][..2] == value[index..index + 2] && value[index..][2..] == value[index + 2..];
        current := current + value[index..index + 2];
        index := index + 2;
        continue;
      }
      assert value[index..][1..] == value[index + 1..];
      if c == separator {
        parts := parts + [current];
        current := "";
      } else {
        current := current + [c];
      }
      index := index + 1;
    }
    parts := parts + [current];
  }
}
