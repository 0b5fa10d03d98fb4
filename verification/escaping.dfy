/** Escaped text reads back as itself with its line breaks unified; splits lose nothing. */
module Escaping {
  import opened Sequences
  import opened Text
  import opened TextProps

  /** The text with CRLF and CR both read as one line feed. */
  function Lines(text: string): string
    decreases |text|
  {
    if text == "" then ""
    else if text[0] == CR then [LF] + Lines(text[if |text| > 1 && text[1] == LF then 2 else 1..])
    else [text[0]] + Lines(text[1..])
  }

  /** How one character that is not part of a line break is escaped. */
  function EscapedChar(c: char): string {
    if c == '\\' || c == ';' || c == ',' then ['\\', c] else [c]
  }

  /** Escaping said in one pass. */
  function EscapedLines(text: string): string
    decreases |text|
  {
    if text == "" then ""
    else if text[0] == CR then
      ['\\', 'n'] + EscapedLines(text[if |text| > 1 && text[1] == LF then 2 else 1..])
    else if text[0] == LF then ['\\', 'n'] + EscapedLines(text[1..])
    else EscapedChar(text[0]) + EscapedLines(text[1..])
  }

  lemma {:induction false} LinesNoBreak(text: string)
    ensures CR !in Lines(text)
    ensures CR !in text ==> Lines(text) == text
    decreases |text|
  {
    if text != "" {
      LinesNoBreak(text[if text[0] == CR && |text| > 1 && text[1] == LF then 2 else 1..]);
      assert text == [text[0]] + text[1..];
    }
  }

  /** Reading with unified breaks changes a text exactly when it has a carriage return. */
  lemma {:induction false} LinesChanges(text: string)
    ensures Lines(text) == text <==> CR !in text
  {
    LinesNoBreak(text);
  }

  // ----- the replacement chain is one pass -----

  function Backslashes(text: string): string { Replace(text, ['\\'], ['\\', '\\']) }

  function Marks(text: string): string {
    Replace(Replace(Backslashes(text), [';'], ['\\', ';']), [','], ['\\', ','])
  }

  lemma {:induction false} MarksCons(c: char, rest: string)
    ensures Marks([c] + rest) == EscapedChar(c) + Marks(rest)
  {
    ReplaceCharCons(c, rest, '\\', ['\\', '\\']);
    var one := if c == '\\' then ['\\', '\\'] else [c];
    ReplaceCharConcat(one, Backslashes(rest), ';', ['\\', ';']);
    var two := Replace(one, [';'], ['\\', ';']);
    if c == ';' {
      ReplaceCharCons(c, "", ';', ['\\', ';']);
      assert [c] + "" == [c] && ['\\', ';'] + "" == ['\\', ';'];
    } else {
      ReplaceCharNone(one, ';', ['\\', ';']);
    }
    ReplaceCharConcat(two, Replace(Backslashes(rest), [';'], ['\\', ';']), ',', ['\\', ',']);
    if c == ',' {
      ReplaceCharCons(c, "", ',', ['\\', ',']);
      assert [c] + "" == [c] && ['\\', ','] + "" == ['\\', ','];
    } else {
      ReplaceCharNone(two, ',', ['\\', ',']);
    }
  }

  function Breaks(text: string): string {
    Replace(Replace(Replace(text, CRLF, ['\\', 'n']), [LF], ['\\', 'n']), [CR], ['\\', 'n'])
  }

  /** A break-free stretch passes through the break replacements untouched. */
  lemma {:induction false} BreaksAfter(p: string, rest: string)
    requires NoBreaks(p)
    ensures Breaks(p + rest) == p + Breaks(rest)
  {
    var n := ['\\', 'n'];
    var r := Replace(rest, CRLF, n);
    CrlfAfter(p, rest, n);
    ReplaceCharConcat(p, r, LF, n);
    ReplaceCharNone(p, LF, n);
    ReplaceCharConcat(p, Replace(r, [LF], n), CR, n);
    ReplaceCharNone(p, CR, n);
  }

  lemma {:induction false} BreaksOf(lead: string, rest: string)
    requires lead == CRLF || lead == [LF] || (lead == [CR] && !([LF] <= rest))
    ensures Breaks(lead + rest) == ['\\', 'n'] + Breaks(rest)
  {
    var n := ['\\', 'n'];
    var r := Replace(rest, CRLF, n);
    if lead == CRLF {
      CrlfHere(rest, n);
      ReplaceCharConcat(n, r, LF, n);
      ReplaceCharNone(n, LF, n);
      ReplaceCharConcat(n, Replace(r, [LF], n), CR, n);
      ReplaceCharNone(n, CR, n);
    } else {
      assert (lead + rest)[1..] == rest && (lead + rest)[0] == lead[0];
      assert !(CRLF <= lead + rest);
      assert Replace(lead + rest, CRLF, n) == lead + r;
      if lead == [LF] {
        ReplaceCharCons(LF, r, LF, n);
        ReplaceCharConcat(n, Replace(r, [LF], n), CR, n);
        ReplaceCharNone(n, CR, n);
      } else {
        ReplaceCharCons(CR, r, LF, n);
        ReplaceCharCons(CR, Replace(r, [LF], n), CR, n);
      }
    }
  }

  lemma {:induction false} MarksStartLf(text: string)
    ensures [LF] <= Marks(text) <==> [LF] <= text
  {
    if text != "" {
      MarksCons(text[0], text[1..]);
      assert text == [text[0]] + text[1..];
      assert Marks(text)[0] == EscapedChar(text[0])[0];
    }
  }

  /** The six replacements amount to one pass over the text. */
  lemma {:induction false} EscapeIsOnePass(text: string)
    ensures Escape(text) == EscapedLines(text)
    decreases |text|
  {
    if text != "" {
      var (c, rest) := (text[0], text[1..]);
      MarksCons(c, rest);
      assert text == [c] + rest;
      if c == CR && |text| > 1 && text[1] == LF {
        MarksCons(text[1], text[2..]);
        assert rest == [LF] + text[2..];
        assert [CR] + ([LF] + Marks(text[2..])) == CRLF + Marks(text[2..]);
        BreaksOf(CRLF, Marks(text[2..]));
        EscapeIsOnePass(text[2..]);
      } else {
        EscapeIsOnePass(rest);
        if c == CR || c == LF {
          MarksStartLf(rest);
          BreaksOf([c], Marks(rest));
        } else {
          BreaksAfter(EscapedChar(c), Marks(rest));
        }
      }
    }
  }

  // ----- reading back -----

  lemma {:induction false} UnescapePair(c: char, rest: string)
    ensures Unescaped(['\\', c] + rest) == [UnescapedChar(c)] + Unescaped(rest)
  {
    assert (['\\', c] + rest)[2..] == rest;
  }

  lemma {:induction false} UnescapePlain(c: char, rest: string)
    requires c != '\\'
    ensures Unescaped([c] + rest) == [c] + Unescaped(rest)
  {
    assert ([c] + rest)[1..] == rest;
  }

  /** Unescaping an escaped text gives it back with unified line breaks. */
  lemma {:induction false} UnescapeInvertsEscape(text: string)
    ensures Unescaped(Escape(text)) == Lines(text)
    decreases |text|
  {
    EscapeIsOnePass(text);
    if text != "" {
      var next := if text[0] == CR && |text| > 1 && text[1] == LF then text[2..] else text[1..];
      UnescapeInvertsEscape(next);
      EscapeIsOnePass(next);
      var c := text[0];
      if c == CR || c == LF {
        UnescapePair('n', EscapedLines(next));
      } else if c == '\\' || c == ';' || c == ',' {
        UnescapePair(c, EscapedLines(next));
      } else {
        UnescapePlain(c, EscapedLines(next));
      }
    }
  }

  /** Escaped text holds no line break, so it fits on one logical line. */
  lemma {:induction false} EscapedHasNoBreaks(text: string)
    ensures NoBreaks(Escape(text))
    decreases |text|
  {
    EscapeIsOnePass(text);
    if text != "" {
      var next := if text[0] == CR && |text| > 1 && text[1] == LF then text[2..] else text[1..];
      EscapedHasNoBreaks(next);
      EscapeIsOnePass(next);
    }
  }

  // ----- splitting -----

  /** Joining the parts of a split gives the value back, whatever it holds. */
  lemma {:induction false} SplitLosesNothing(value: string, separator: char, current: string)
    ensures Join(SplitUnescapedAt(value, separator, current), [separator]) == current + value
    decreases |value|
  {
    if value == "" {
      assert current + value == current;
    } else if value[0] == '\\' && |value| > 1 {
      SplitLosesNothing(value[2..], separator, current + value[..2]);
      assert current + value[..2] + value[2..] == current + value;
    } else if value[0] == separator {
      SplitLosesNothing(value[1..], separator, "");
      var rest := SplitUnescapedAt(value[1..], separator, "");
      assert ([current] + rest)[1..] == rest;
      assert "" + value[1..] == value[1..];
      assert current + [separator] + value[1..] == current + value;
    } else {
      SplitLosesNothing(value[1..], separator, current + [value[0]]);
      assert current + [value[0]] + value[1..] == current + value;
    }
  }

  lemma {:induction false} SplitPassesPair(c: char, rest: string, separator: char, current: string)
    ensures SplitUnescapedAt(['\\', c] + rest, separator, current)
         == SplitUnescapedAt(rest, separator, current + ['\\', c])
  {
    assert (['\\', c] + rest)[..2] == ['\\', c] && (['\\', c] + rest)[2..] == rest;
  }

  lemma {:induction false} SplitPassesPlain(c: char, rest: string, separator: char, current: string)
    requires c != '\\' && c != separator
    ensures SplitUnescapedAt([c] + rest, separator, current) == SplitUnescapedAt(rest, separator, current + [c])
  {
    assert ([c] + rest)[1..] == rest;
  }

  /** Scanning over escaped text never meets a separator. */
  lemma {:induction false} SplitPassesEscaped(text: string, rest: string, separator: char, current: string)
    requires separator == ';' || separator == ','
    ensures SplitUnescapedAt(EscapedLines(text) + rest, separator, current)
         == SplitUnescapedAt(rest, separator, current + EscapedLines(text))
    decreases |text|
  {
    if text == "" {
      assert EscapedLines(text) + rest == rest && current + EscapedLines(text) == current;
    } else {
      var next := if text[0] == CR && |text| > 1 && text[1] == LF then text[2..] else text[1..];
      var c := text[0];
      var lead := if c == CR || c == LF then ['\\', 'n'] else EscapedChar(c);
      SplitPassesEscaped(next, rest, separator, current + lead);
      assert EscapedLines(text) == lead + EscapedLines(next);
      Assoc(lead, EscapedLines(next), rest);
      Assoc(current, lead, EscapedLines(next));
      if |lead| == 2 {
        SplitPassesPair(lead[1], EscapedLines(next) + rest, separator, current);
      } else {
        SplitPassesPlain(c, EscapedLines(next) + rest, separator, current);
      }
    }
  }

  function EscapeAll(parts: seq<string>): seq<string> {
    if parts == [] then [] else [Escape(parts[0])] + EscapeAll(parts[1..])
  }

  function UnescapeAll(parts: seq<string>): seq<string> {
    if parts == [] then [] else [Unescaped(parts[0])] + UnescapeAll(parts[1..])
  }

  function LinesAll(parts: seq<string>): seq<string> {
    if parts == [] then [] else [Lines(parts[0])] + LinesAll(parts[1..])
  }

  /** Splitting joined escaped parts gives those parts. */
  lemma {:induction false} EscapeAllCons(parts: seq<string>)
    requires parts != []
    ensures EscapeAll(parts) == [EscapedLines(parts[0])] + EscapeAll(parts[1..])
  {
    EscapeIsOnePass(parts[0]);
  }

  lemma {:induction false} SplitInvertsJoin(parts: seq<string>, separator: char)
    requires parts != []
    requires separator == ';' || separator == ','
    ensures SplitUnescapedAt(Join(EscapeAll(parts), [separator]), separator, "") == EscapeAll(parts)
  {
    EscapeAllCons(parts);
    if |parts| == 1 {
      LastSplits(parts[0], separator);
      assert EscapeAll(parts[1..]) == [];
    } else {
      SplitInvertsJoin(parts[1..], separator);
      var rest := Join(EscapeAll(parts[1..]), [separator]);
      FirstSplits(parts[0], rest, separator);
      assert EscapeAll(parts)[1..] == EscapeAll(parts[1..]);
    }
  }

  lemma {:induction false} LastSplits(part: string, separator: char)
    requires separator == ';' || separator == ','
    ensures SplitUnescapedAt(EscapedLines(part), separator, "") == [EscapedLines(part)]
  {
    SplitPassesEscaped(part, "", separator, "");
    assert EscapedLines(part) + "" == EscapedLines(part) && "" + EscapedLines(part) == EscapedLines(part);
  }

  lemma {:induction false} FirstSplits(part: string, rest: string, separator: char)
    requires separator == ';' || separator == ','
    ensures SplitUnescapedAt(EscapedLines(part) + [separator] + rest, separator, "")
         == [EscapedLines(part)] + SplitUnescapedAt(rest, separator, "")
  {
    var first := EscapedLines(part);
    SplitPassesEscaped(part, [separator] + rest, separator, "");
    assert first + ([separator] + rest) == first + [separator] + rest && "" + first == first;
    SplitAtSeparator(rest, separator, first);
  }

  lemma {:induction false} SplitAtSeparator(rest: string, separator: char, current: string)
    requires separator == ';' || separator == ','
    ensures SplitUnescapedAt([separator] + rest, separator, current)
         == [current] + SplitUnescapedAt(rest, separator, "")
  {
    assert ([separator] + rest)[1..] == rest;
  }

  lemma {:induction false} UnescapeAllInverts(parts: seq<string>)
    ensures UnescapeAll(EscapeAll(parts)) == LinesAll(parts)
  {
    if parts != [] {
      UnescapeInvertsEscape(parts[0]);
      UnescapeAllInverts(parts[1..]);
      assert EscapeAll(parts)[1..] == EscapeAll(parts[1..]);
    }
  }
}
