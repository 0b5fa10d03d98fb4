/** Parsing a formatted content line gives back its parts, with parameter values in normal form. */
module LineRoundTrip {
  import opened Wrappers
  import opened Text
  import opened ContentLines

  // ----- well-formed names -----

  predicate PlainChar(c: char) { !IsSpace(c) && c != ':' && c != ';' && c != QUOTE }

  /** Property names and parameter keys: upper case, no blanks, none of the line's punctuation. */
  predicate KeyToken(s: string) {
    s != "" && forall c :: c in s ==> PlainChar(c) && c != '=' && UpperChar(c) == c
  }

  predicate NameToken(s: string) { KeyToken(s) && '.' !in s }

  predicate GroupToken(s: string) { s != "" && forall c :: c in s ==> PlainChar(c) }

  // ----- the normal form of a parameter value -----

  function NormalPart(part: string): string {
    if NeedsQuotes(part) then part else Strip(part)
  }

  function NormalParts(parts: seq<string>): (r: seq<string>)
    ensures |r| == |parts|
    ensures forall i :: 0 <= i < |r| ==> r[i] == NormalPart(parts[i])
  {
    if parts == [] then [] else [NormalPart(parts[0])] + NormalParts(parts[1..])
  }

  /** What a parameter value reads back as: no quotes or breaks, no blanks at unquoted edges. */
  function NormalValue(key: string, value: string): string {
    var clean := CleanValue(value);
    if IsMultiValued(key) then Join(NormalParts(Split(clean, ',')), ",") else NormalPart(clean)
  }

  function NormalParams(params: seq<Param>): (r: seq<Param>)
    ensures |r| == |params|
    ensures forall i :: 0 <= i < |r| ==> r[i] == Param(params[i].name, NormalValue(params[i].name, params[i].value))
  {
    if params == [] then []
    else [Param(params[0].name, NormalValue(params[0].name, params[0].value))] + NormalParams(params[1..])
  }

  // ----- text that a separator cannot be found in -----

  /** Quotes are balanced and the character never stands outside them. */
  predicate Tame(text: string, c: char) { OutsideAt(text, c, false).None? && !EndsQuoted(text, false) }

  lemma {:induction false} OutsideConcat(a: string, b: string, c: char, quoted: bool)
    requires c != QUOTE && OutsideAt(a, c, quoted).None?
    ensures OutsideAt(a + b, c, quoted) == Later(|a|, OutsideAt(b, c, EndsQuoted(a, quoted)))
    ensures EndsQuoted(a + b, quoted) == EndsQuoted(b, EndsQuoted(a, quoted))
  {
    if a == "" {
      assert a + b == b;
    } else {
      assert (a + b)[0] == a[0] && (a + b)[1..] == a[1..] + b;
      OutsideConcat(a[1..], b, c, if a[0] == QUOTE then !quoted else quoted);
    }
  }

  lemma {:induction false} TameConcat(a: string, b: string, c: char)
    requires c != QUOTE && Tame(a, c) && Tame(b, c)
    ensures Tame(a + b, c)
  {
    OutsideConcat(a, b, c, false);
  }

  lemma {:induction false} PlainTame(s: string, c: char, quoted: bool)
    requires c != QUOTE && QUOTE !in s && (quoted || c !in s)
    ensures OutsideAt(s, c, quoted).None? && EndsQuoted(s, quoted) == quoted
  {
    if s != "" {
      PlainTame(s[1..], c, quoted);
    }
  }

  lemma {:induction false} QuotedTame(part: string, c: char)
    requires QUOTE !in part && c in ":;,"
    ensures Tame(QuoteIfNeeded(part), c)
  {
    if NeedsQuotes(part) {
      var (open, close) := ([QUOTE], [QUOTE]);
      PlainTame(part, c, true);
      assert close[1..] == "";
      assert OutsideAt(close, c, true).None? && !EndsQuoted(close, true);
      OutsideConcat(part, close, c, true);
      assert ([QUOTE] + part + [QUOTE])[1..] == part + close;
      assert ([QUOTE] + part + [QUOTE])[0] == QUOTE;
    } else {
      PlainTame(part, c, false);
    }
  }

  lemma {:induction false} JoinTame(parts: seq<string>, sep: string, c: char)
    requires c != QUOTE && Tame(sep, c)
    requires forall p :: p in parts ==> Tame(p, c)
    ensures Tame(Join(parts, sep), c)
  {
    if |parts| > 1 {
      JoinTame(parts[1..], sep, c);
      TameConcat(sep, Join(parts[1..], sep), c);
      TameConcat(parts[0], sep + Join(parts[1..], sep), c);
      assert parts[0] + (sep + Join(parts[1..], sep)) == parts[0] + sep + Join(parts[1..], sep);
    }
  }

  lemma {:induction false} ScanTame(begun: string, a: string, rest: string, separator: char, quoted: bool)
    requires separator != QUOTE && OutsideAt(a, separator, quoted).None?
    ensures SplitScan(begun, a + rest, separator, quoted)
         == SplitScan(begun + a, rest, separator, EndsQuoted(a, quoted))
    decreases |a|
  {
    if a == "" {
      assert a + rest == rest && begun + a == begun;
    } else {
      assert (a + rest)[0] == a[0] && (a + rest)[1..] == a[1..] + rest;
      assert begun + [a[0]] + a[1..] == begun + a;
      ScanTame(begun + [a[0]], a[1..], rest, separator, if a[0] == QUOTE then !quoted else quoted);
    }
  }

  /** Pieces with the separator only inside quotes come apart as they were joined. */
  lemma {:induction false} SplitOutsideJoin(parts: seq<string>, separator: char)
    requires separator != QUOTE && parts != []
    requires forall p :: p in parts ==> Tame(p, separator)
    ensures SplitOutside(Join(parts, [separator]), separator) == parts
  {
    var first := parts[0];
    assert "" + first == first && Tame(first, separator);
    if |parts| == 1 {
      ScanTame("", first, "", separator, false);
      assert first + "" == first;
    } else {
      var rest := Join(parts[1..], [separator]);
      SplitOutsideJoin(parts[1..], separator);
      ScanTame("", first, [separator] + rest, separator, false);
      assert first + [separator] + rest == first + ([separator] + rest);
      assert ([separator] + rest)[1..] == rest;
    }
  }

  // ----- blanks at the edges -----

  lemma {:induction false} StripRightSnoc(s: string, c: char)
    ensures StripRight(s + [c]) == if IsSpace(c) then StripRight(s) else s + [c]
  {
    assert (s + [c])[..|s|] == s;
  }

  lemma {:induction false} StripRightAfter(a: string, b: string)
    requires a != "" && !IsSpace(a[|a| - 1])
    ensures StripRight(a + b) == a + StripRight(b)
  {
    if b == "" {
      assert a + b == a;
    } else {
      var (t, c) := (b[..|b| - 1], b[|b| - 1]);
      assert b == t + [c] && a + b == (a + t) + [c];
      StripRightSnoc(a + t, c);
      StripRightSnoc(t, c);
      StripRightAfter(a, t);
    }
  }

  lemma {:induction false} StripLeftSnoc(s: string, c: char)
    requires IsSpace(c)
    ensures StripLeft(s + [c]) == (if StripLeft(s) == "" then "" else StripLeft(s) + [c])
  {
    if s == "" {
      assert (s + [c])[1..] == "";
    } else {
      assert (s + [c])[0] == s[0] && (s + [c])[1..] == s[1..] + [c];
      if IsSpace(s[0]) {
        StripLeftSnoc(s[1..], c);
      }
    }
  }

  /** Blanks already taken off the right make no difference to a strip. */
  lemma {:induction false} StripAfterRight(s: string)
    ensures Strip(StripRight(s)) == Strip(s)
  {
    if s != "" && IsSpace(s[|s| - 1]) {
      var (t, c) := (s[..|s| - 1], s[|s| - 1]);
      assert s == t + [c];
      StripRightSnoc(t, c);
      StripAfterRight(t);
      StripLeftSnoc(t, c);
      if StripLeft(t) != "" {
        StripRightSnoc(StripLeft(t), c);
      }
    }
  }

  // ----- one parameter -----

  lemma {:induction false} CleanHasNoQuotes(value: string)
    ensures QUOTE !in CleanValue(value) && NoBreaks(CleanValue(value))
  {
    ReplaceCharMembers(value, QUOTE, "'");
    var a := Replace(value, [QUOTE], "'");
    ReplaceCharMembers(a, CR, " ");
    ReplaceCharMembers(Replace(a, [CR], " "), LF, " ");
  }

  /** One written part, its right-hand blanks possibly lost, reads back in normal form. */
  lemma {:induction false} PartReadsBack(part: string)
    requires QUOTE !in part
    ensures StripQuotes(Strip(QuoteIfNeeded(part))) == NormalPart(part)
    ensures StripQuotes(Strip(StripRight(QuoteIfNeeded(part)))) == NormalPart(part)
  {
    StripAfterRight(QuoteIfNeeded(part));
    var written := QuoteIfNeeded(part);
    if NeedsQuotes(part) {
      assert written[0] == QUOTE && written[|written| - 1] == QUOTE;
      assert !IsSpace(QUOTE);
      assert written[1..|written| - 1] == part;
    } else {
      assert QUOTE !in Strip(part);
    }
  }

  /** The written parts of a parameter value. */
  function WrittenParts(key: string, value: string): (parts: seq<string>)
    ensures |parts| > 0
  {
    if IsMultiValued(key) then Split(CleanValue(value), ',') else [CleanValue(value)]
  }

  lemma {:induction false} QuotePartsTame(parts: seq<string>, c: char)
    requires c in ":;," && forall p :: p in parts ==> QUOTE !in p
    ensures forall p :: p in QuoteParts(parts) ==> Tame(p, c)
  {
    forall p | p in QuoteParts(parts) ensures Tame(p, c) {
      var i :| 0 <= i < |parts| && QuoteParts(parts)[i] == p;
      assert parts[i] in parts;
      QuotedTame(parts[i], c);
    }
  }

  lemma {:induction false} WrittenPartsPlain(key: string, value: string)
    ensures forall p :: p in WrittenParts(key, value) ==> QUOTE !in p
    ensures FormatParamValue(key, value) == Join(QuoteParts(WrittenParts(key, value)), ",")
    ensures NormalValue(key, value) == Join(NormalParts(WrittenParts(key, value)), ",")
    ensures NoBreaks(FormatParamValue(key, value))
  {
    CleanHasNoQuotes(value);
    var parts := WrittenParts(key, value);
    forall p | p in parts ensures QUOTE !in p && NoBreaks(p) {
      assert forall c :: c in p ==> c in CleanValue(value);
    }
    JoinNoBreaks(QuoteParts(parts), ",");
  }

  lemma {:induction false} JoinNoBreaks(parts: seq<string>, sep: string)
    requires NoBreaks(sep) && forall p :: p in parts ==> NoBreaks(p)
    ensures NoBreaks(Join(parts, sep))
  {
    if parts != [] {
      assert NoBreaks(parts[0]);
      if |parts| > 1 {
        JoinNoBreaks(parts[1..], sep);
      }
    }
  }

  /** A list of parts, right-hand blanks of the last lost, keeps the other parts. */
  lemma {:induction false} StripRightJoin(parts: seq<string>)
    requires parts != []
    ensures StripRight(Join(parts, ",")) == Join(LastStripped(parts), ",")
  {
    if |parts| == 1 {
      assert parts[..0] + [StripRight(parts[0])] == [StripRight(parts[0])];
    } else {
      var (init, last) := (parts[..|parts| - 1], parts[|parts| - 1]);
      assert parts == init + [last];
      JoinConcat(init, [last], ",");
      JoinConcat(init, [StripRight(last)], ",");
      var lead := Join(init, ",") + ",";
      assert lead[|lead| - 1] == ',' && !IsSpace(',');
      StripRightAfter(lead, last);
    }
  }

  /** A parameter value reads back in normal form even when the piece lost its right-hand blanks. */
  lemma {:induction false} ValueReadsBack(key: string, value: string)
    ensures UnquoteValue(StripRight(FormatParamValue(key, value))) == NormalValue(key, value)
  {
    var parts := WrittenParts(key, value);
    WrittenPartsPlain(key, value);
    StripRightJoin(QuoteParts(parts));
    var kept := LastStripped(QuoteParts(parts));
    LastStrippedTame(parts);
    SplitOutsideJoin(kept, ',');
    PartsUnquoted(parts);
  }

  lemma {:induction false} PartsUnquoted(parts: seq<string>)
    requires parts != [] && forall p :: p in parts ==> QUOTE !in p
    ensures UnquoteSegments(LastStripped(QuoteParts(parts))) == NormalParts(parts)
  {
    var kept := LastStripped(QuoteParts(parts));
    forall i | 0 <= i < |parts|
      ensures UnquoteSegments(kept)[i] == NormalParts(parts)[i]
    {
      PartUnquoted(parts, i);
    }
  }

  lemma {:induction false} PartUnquoted(parts: seq<string>, i: nat)
    requires i < |parts| && QUOTE !in parts[i]
    ensures StripQuotes(Strip(LastStripped(QuoteParts(parts))[i])) == NormalPart(parts[i])
  {
    var kept := LastStripped(QuoteParts(parts));
    PartReadsBack(parts[i]);
    assert kept[i] == if i == |parts| - 1 then StripRight(QuoteIfNeeded(parts[i])) else QuoteIfNeeded(parts[i]);
  }

  function LastStripped(parts: seq<string>): (r: seq<string>)
    requires parts != []
    ensures |r| == |parts|
  {
    parts[..|parts| - 1] + [StripRight(parts[|parts| - 1])]
  }

  lemma {:induction false} LastStrippedTame(parts: seq<string>)
    requires parts != [] && forall p :: p in parts ==> QUOTE !in p
    ensures forall p :: p in LastStripped(QuoteParts(parts)) ==> Tame(p, ',')
  {
    var written := QuoteParts(parts);
    QuotePartsTame(parts, ',');
    assert parts[|parts| - 1] in parts;
    StrippedPartTame(parts[|parts| - 1]);
    forall p | p in LastStripped(written) ensures Tame(p, ',') {
      if p != StripRight(written[|parts| - 1]) {
        assert p in written;
      }
    }
  }

  lemma {:induction false} StrippedPartTame(part: string)
    requires QUOTE !in part
    ensures Tame(StripRight(QuoteIfNeeded(part)), ',')
  {
    if NeedsQuotes(part) {
      var written := QuoteIfNeeded(part);
      assert written[|written| - 1] == QUOTE && !IsSpace(QUOTE);
      QuotedTame(part, ',');
    } else {
      PlainTame(StripRight(part), ',', false);
    }
  }

  lemma {:induction false} IndexAfter(a: string, c: char, b: string)
    requires c !in a
    ensures IndexOf(a + [c] + b, c) == Some(|a|)
  {
    if a == "" {
      assert (a + [c] + b)[0] == c;
    } else {
      IndexAfter(a[1..], c, b);
      assert (a + [c] + b)[0] == a[0] && (a + [c] + b)[1..] == a[1..] + [c] + b;
    }
  }

  lemma {:induction false} TokenStrips(s: string)
    requires s != "" && forall c :: c in s ==> !IsSpace(c)
    ensures Strip(s) == s
  {
    assert s[0] in s && s[|s| - 1] in s;
  }

  lemma {:induction false} TokenUpper(s: string)
    requires forall c :: c in s ==> UpperChar(c) == c
    ensures Upper(s) == s
  {
    assert forall i :: 0 <= i < |s| ==> s[i] in s;
  }

  /** A written parameter parses to its key and the normal form of its value. */
  lemma {:induction false} ParamReadsBack(p: Param)
    requires KeyToken(p.name)
    ensures ParseParam(FormatParam(p)) == [Param(p.name, NormalValue(p.name, p.value))]
  {
    var value := FormatParamValue(p.name, p.value);
    var lead := p.name + "=";
    var piece := lead + StripRight(value);
    assert p.name[0] in p.name;
    assert FormatParam(p)[0] == p.name[0];
    assert lead[|lead| - 1] == '=' && !IsSpace('=');
    StripRightAfter(lead, value);
    assert Strip(FormatParam(p)) == piece;
    IndexAfter(p.name, '=', StripRight(value));
    assert piece == p.name + ['='] + StripRight(value);
    assert piece[..|p.name|] == p.name && piece[|p.name| + 1..] == StripRight(value);
    TokenStrips(p.name);
    TokenUpper(p.name);
    ValueReadsBack(p.name, p.value);
  }

  function Pieces(params: seq<Param>): (r: seq<string>)
    ensures |r| == |params|
    ensures forall i :: 0 <= i < |r| ==> r[i] == FormatParam(params[i])
  {
    if params == [] then [] else [FormatParam(params[0])] + Pieces(params[1..])
  }

  lemma {:induction false} ParamsReadBack(params: seq<Param>)
    requires forall p :: p in params ==> KeyToken(p.name)
    ensures ParseParams(Pieces(params)) == NormalParams(params)
  {
    if params != [] {
      assert params[0] in params;
      ParamReadsBack(params[0]);
      ParamsReadBack(params[1..]);
      assert Pieces(params)[1..] == Pieces(params[1..]);
    }
  }

  // ----- the whole line -----

  lemma {:induction false} JoinCons(first: string, rest: seq<string>, sep: string)
    requires rest != []
    ensures Join([first] + rest, sep) == first + sep + Join(rest, sep)
  {
    assert ([first] + rest)[1..] == rest;
  }

  /** Each piece with a semicolon before it. */
  function Prefixed(pieces: seq<string>): string {
    if pieces == [] then "" else ";" + pieces[0] + Prefixed(pieces[1..])
  }

  lemma {:induction false} PrefixedJoin(base: string, pieces: seq<string>)
    ensures base + Prefixed(pieces) == Join([base] + pieces, ";")
    decreases |pieces|
  {
    if pieces == [] {
      assert [base] + pieces == [base];
      assert base + "" == base;
    } else {
      PrefixedJoin(pieces[0], pieces[1..]);
      JoinCons(base, pieces, ";");
      assert pieces == [pieces[0]] + pieces[1..];
      assert base + (";" + pieces[0] + Prefixed(pieces[1..])) == base + ";" + (pieces[0] + Prefixed(pieces[1..]));
    }
  }

  lemma {:induction false} PiecesPrefixed(params: seq<Param>)
    ensures FormatParams(params) == Prefixed(Pieces(params))
  {
    if params != [] {
      PiecesPrefixed(params[1..]);
      assert Pieces(params)[1..] == Pieces(params[1..]);
    }
  }

  lemma {:induction false} HeadIsJoin(base: string, params: seq<Param>)
    ensures base + FormatParams(params) == Join([base] + Pieces(params), ";")
  {
    PiecesPrefixed(params);
    PrefixedJoin(base, Pieces(params));
  }

  lemma {:induction false} PieceTame(p: Param, c: char)
    requires KeyToken(p.name) && (c == ':' || c == ';')
    ensures Tame(FormatParam(p), c)
  {
    WrittenPartsPlain(p.name, p.value);
    QuotePartsTame(WrittenParts(p.name, p.value), c);
    PlainTame(",", c, false);
    JoinTame(QuoteParts(WrittenParts(p.name, p.value)), ",", c);
    var lead := p.name + "=";
    PlainTame(lead, c, false);
    TameConcat(lead, FormatParamValue(p.name, p.value), c);
  }

  predicate GroupOk(group: Option<string>) { group.Some? ==> GroupToken(group.value) }

  lemma {:induction false} HeadFacts(group: Option<string>, name: string)
    requires GroupOk(group) && NameToken(name)
    ensures var base := FormatHead(group, name);
      && base != "" && (forall c :: c in base ==> PlainChar(c))
      && Strip(base) == base
      && SplitGroup(base) == (group, name)
  {
    TokenUpper(name);
    if group.Some? {
      GroupSplits(group.value, name);
      assert FormatHead(group, name) == group.value + ['.'] + name;
      JoinedTokens(group.value, name);
    } else {
      NoDot(name);
      TokenStrips(name);
    }
  }

  lemma {:induction false} JoinedTokens(group: string, name: string)
    requires GroupToken(group) && NameToken(name)
    ensures var base := group + ['.'] + name;
      (forall c :: c in base ==> PlainChar(c)) && Strip(base) == base
  {
    var base := group + ['.'] + name;
    assert PlainChar('.');
    assert forall c :: c in base ==> c in group || c == '.' || c in name;
    TokenStrips(base);
  }

  lemma {:induction false} NoDot(name: string)
    requires '.' !in name
    ensures SplitGroup(name) == (None, name)
  {
  }

  lemma {:induction false} GroupSplits(group: string, name: string)
    requires group != "" && '.' !in name
    ensures SplitGroup(group + ['.'] + name) == (Some(group), name)
  {
    LastDot(group, name);
    var base := group + ['.'] + name;
    assert base[..|group|] == group && base[|group| + 1..] == name;
  }

  lemma {:induction false} LastDot(a: string, b: string)
    requires '.' !in b
    ensures LastIndexOf(a + ['.'] + b, '.') == Some(|a|)
  {
    var s := a + ['.'] + b;
    assert s[|a|] == '.' && s[|a| + 1..] == b;
  }

  lemma {:induction false} NormalizeKeys(params: seq<Param>)
    requires forall p :: p in params ==> KeyToken(p.name)
    ensures NormalizeParams(params) == params
  {
    forall i | 0 <= i < |params| ensures NormalizeParams(params)[i] == params[i] {
      assert params[i] in params;
      TokenStrips(params[i].name);
      TokenUpper(params[i].name);
    }
  }

  lemma {:induction false} LinePiecesTame(base: string, params: seq<Param>, c: char)
    requires forall b :: b in base ==> PlainChar(b)
    requires forall p :: p in params ==> KeyToken(p.name)
    requires c == ':' || c == ';'
    ensures forall p :: p in [base] + Pieces(params) ==> Tame(p, c)
  {
    PlainTame(base, c, false);
    forall p | p in Pieces(params) ensures Tame(p, c) {
      var i :| 0 <= i < |params| && Pieces(params)[i] == p;
      assert params[i] in params;
      PieceTame(params[i], c);
    }
  }

  /** The colon that ends the head is found, and the head splits into its pieces. */
  lemma {:induction false} HeadSplits(base: string, params: seq<Param>, value: string)
    requires forall b :: b in base ==> PlainChar(b)
    requires forall p :: p in params ==> KeyToken(p.name)
    ensures var head := base + FormatParams(params);
      && OutsideAt(head + ":" + value, ':', false) == Some(|head|)
      && SplitOutside(head, ';') == [base] + Pieces(params)
  {
    HeadIsJoin(base, params);
    LinePiecesTame(base, params, ':');
    LinePiecesTame(base, params, ';');
    JoinedSplits([base] + Pieces(params), value);
  }

  lemma {:induction false} JoinedSplits(pieces: seq<string>, value: string)
    requires pieces != []
    requires forall p :: p in pieces ==> Tame(p, ':') && Tame(p, ';')
    ensures var head := Join(pieces, ";");
      OutsideAt(head + ":" + value, ':', false) == Some(|head|) && SplitOutside(head, ';') == pieces
  {
    var head := Join(pieces, ";");
    PlainTame(";", ':', false);
    JoinTame(pieces, ";", ':');
    OutsideConcat(head, ":" + value, ':', false);
    assert head + (":" + value) == head + ":" + value;
    SplitOutsideJoin(pieces, ';');
  }

  /** `ParseLine` inverts `FormatLine`: group, name and value exactly, parameters in normal form. */
  lemma {:induction false} LineReadsBack(group: Option<string>, name: string, params: seq<Param>, value: string)
    requires GroupOk(group) && NameToken(name)
    requires forall p :: p in params ==> KeyToken(p.name)
    ensures ParseLine(FormatLine(group, name, params, value))
         == Success(ContentLine(group, name, NormalParams(params), value))
  {
    var base := FormatHead(group, name);
    NormalizeKeys(params);
    HeadFacts(group, name);
    HeadSplits(base, params, value);
    ParsedFrom(base + FormatParams(params), value, base, Pieces(params), group, name);
    ParamsReadBack(params);
  }

  lemma {:induction false} ParsedFrom(head: string, value: string, base: string, pieces: seq<string>,
                                      group: Option<string>, name: string)
    requires OutsideAt(head + ":" + value, ':', false) == Some(|head|)
    requires SplitOutside(head, ';') == [base] + pieces
    requires Strip(base) == base && SplitGroup(base) == (group, name) && NameToken(name)
    ensures ParseLine(head + ":" + value) == Success(ContentLine(group, name, ParseParams(pieces), value))
  {
    var line := head + ":" + value;
    assert line[..|head|] == head && line[|head| + 1..] == value;
    assert ([base] + pieces)[1..] == pieces;
    TokenUpper(name);
  }
}
