/** vCard structured and list values (sections 3.3 and 3.4 of RFC 6350). */
module Structured {
  import opened Text
  import opened TextProps
  import opened Escaping

  function SplitStructured(value: string): seq<string> {
    UnescapeAll(SplitUnescapedAt(value, ';', ""))
  }

  function JoinStructured(parts: seq<string>): string {
    Join(EscapeAll(parts), ";")
  }

  /** The items that are not blank, stripped. */
  function Solid(items: seq<string>): seq<string> {
    if items == [] then []
    else if Strip(items[0]) == "" then Solid(items[1..])
    else [Strip(items[0])] + Solid(items[1..])
  }

  function SplitList(value: string): seq<string> {
    Solid(UnescapeAll(SplitUnescapedAt(value, ',', "")))
  }

  function JoinList(items: seq<string>): string {
    Join(EscapeAll(Solid(items)), ",")
  }

  /** Structured parts come back as they were, but for their line breaks being unified. */
  lemma {:induction false} StructuredRoundTrip(parts: seq<string>)
    requires parts != []
    ensures SplitStructured(JoinStructured(parts)) == LinesAll(parts)
  {
    SplitInvertsJoin(parts, ';');
    UnescapeAllInverts(parts);
  }

  lemma {:induction false} LinesKeepsStart(s: string)
    requires s != "" && !IsSpace(s[0])
    ensures Lines(s) != "" && Lines(s)[0] == s[0]
  {
    assert IsSpace(CR);
  }

  lemma {:induction false} LinesKeepsEnd(s: string)
    requires s != "" && !IsSpace(s[|s| - 1])
    ensures Lines(s) != "" && Lines(s)[|Lines(s)| - 1] == s[|s| - 1]
    decreases |s|
  {
    assert IsSpace(CR) && IsSpace(LF);
    var n := if s[0] == CR && |s| > 1 && s[1] == LF then 2 else 1;
    if |s| > n {
      assert s[n..][|s[n..]| - 1] == s[|s| - 1];
      LinesKeepsEnd(s[n..]);
    } else {
      assert Lines(s[n..]) == "";
    }
  }

  lemma {:induction false} SolidLines(items: seq<string>)
    ensures Solid(LinesAll(Solid(items))) == LinesAll(Solid(items))
  {
    if items != [] {
      SolidLines(items[1..]);
      var s := Strip(items[0]);
      if s != "" {
        LinesKeepsStart(s);
        LinesKeepsEnd(s);
        assert Strip(Lines(s)) == Lines(s);
        assert Solid(items)[1..] == Solid(items[1..]);
        assert LinesAll(Solid(items))[1..] == LinesAll(Solid(items[1..]));
      }
    }
  }

  /** List items come back stripped, blank ones dropped, their line breaks unified. */
  lemma {:induction false} ListRoundTrip(items: seq<string>)
    ensures SplitList(JoinList(items)) == LinesAll(Solid(items))
  {
    var solid := Solid(items);
    if solid == [] {
      assert SplitUnescapedAt("", ',', "") == [""];
      assert Unescaped("") == "" && Strip("") == "";
      assert UnescapeAll([""]) == [""];
      assert [""][1..] == [];
      assert Solid([""]) == [];
    } else {
      SplitInvertsJoin(solid, ',');
      UnescapeAllInverts(solid);
      SolidLines(items);
    }
  }
}
