/** The notes blob: 8-bit text with CRLF line ends, padded with 0x03 to an even length. */
module NotesBlob {
  import opened Bytes
  import opened Text
  import opened Escaping

  const PAD: Byte := 3
  /** "{\pwi" */
  const INK: seq<Byte> := [0x7B, 0x5C, 0x70, 0x77, 0x69]
  const INK_TEXT := "{\\pwi"

  /** The device code page; `encode` gives '?' where it has no octet. */
  datatype Codepage = Codepage(encode: char -> Byte, decode: Byte -> char)

  /** ASCII is itself in both directions, and no other octet stands for an ASCII character. */
  ghost predicate Extends7Bit(cp: Codepage) {
    && (forall c: char :: c as int < 128 ==> cp.encode(c) as int == c as int)
    && (forall c: char :: c as int >= 128 ==> cp.encode(c) >= 128 || cp.encode(c) == 63)
    && (forall b: Byte :: b < 128 ==> cp.decode(b) as int == b as int)
    && (forall b: Byte :: b >= 128 ==> cp.decode(b) as int >= 128)
  }

  function EncodeText(cp: Codepage, s: string): (r: seq<Byte>)
    ensures |r| == |s|
  {
    if s == "" then [] else [cp.encode(s[0])] + EncodeText(cp, s[1..])
  }

  function DecodeText(cp: Codepage, octets: seq<Byte>): (r: string)
    ensures |r| == |octets|
  {
    if octets == [] then "" else [cp.decode(octets[0])] + DecodeText(cp, octets[1..])
  }

  function Newlines(text: string): string { Replace(Replace(text, CRLF, [LF]), [CR], [LF]) }

  function EncodeNotes(cp: Codepage, text: string): seq<Byte> {
    var raw := EncodeText(cp, Replace(Newlines(text), [LF], CRLF));
    if |raw| % 2 == 1 then raw + [PAD] else raw
  }

  function DropZeros(raw: seq<Byte>): seq<Byte> {
    if raw != [] && raw[|raw| - 1] == 0 then DropZeros(raw[..|raw| - 1]) else raw
  }

  function DropPad(raw: seq<Byte>): seq<Byte> {
    if raw != [] && raw[|raw| - 1] == PAD then raw[..|raw| - 1] else raw
  }

  function DecodeNotes(cp: Codepage, blob: seq<Byte>): string {
    if blob == [] || INK <= blob then ""
    else Newlines(DecodeText(cp, DropZeros(DropPad(blob))))
  }

  // ----- the same on the text itself -----

  function DropNuls(s: string): string {
    if s != "" && s[|s| - 1] == '\0' then DropNuls(s[..|s| - 1]) else s
  }

  /** Each character as the code page gives it back. */
  function Lossy(cp: Codepage, s: string): (r: string)
    ensures |r| == |s|
  {
    if s == "" then "" else [cp.decode(cp.encode(s[0]))] + Lossy(cp, s[1..])
  }

  function Breaks(s: string): nat {
    if s == "" then 0 else (if s[0] == LF then 1 else 0) + Breaks(s[1..])
  }

  /** A trailing 0x03 of a text that needs no padding reads as padding. */
  function Tail(s: string): string {
    if s != "" && s[|s| - 1] == '\U{3}' && (|s| + Breaks(s)) % 2 == 0 then s[..|s| - 1] else s
  }

  /** What the device keeps of a note. */
  function Kept(cp: Codepage, text: string): string {
    var s := Lines(text);
    if INK_TEXT <= s then "" else Lossy(cp, DropNuls(Tail(s)))
  }

  // ----- line ends -----

  lemma {:induction false} NewlinesAreLines(text: string)
    ensures Newlines(text) == Lines(text)
    decreases |text|
  {
    if text != "" {
      if CRLF <= text {
        var rest := text[2..];
        assert text[0] == CR && text[1] == LF;
        NewlinesAreLines(rest);
        ReplaceCharCons(LF, Replace(rest, CRLF, [LF]), CR, [LF]);
        assert Replace(text, CRLF, [LF]) == [LF] + Replace(rest, CRLF, [LF]);
      } else {
        var rest := text[1..];
        assert !(text[0] == CR && |text| > 1 && text[1] == LF);
        NewlinesAreLines(rest);
        ReplaceCharCons(text[0], Replace(rest, CRLF, [LF]), CR, [LF]);
        assert Replace(text, CRLF, [LF]) == [text[0]] + Replace(rest, CRLF, [LF]);
      }
    }
  }

  /** Line feeds written as CRLF. */
  function Wide(s: string): (r: string)
    ensures |r| == |s| + Breaks(s)
  {
    if s == "" then "" else (if s[0] == LF then CRLF else [s[0]]) + Wide(s[1..])
  }

  lemma {:induction false} WideIsReplace(s: string)
    ensures Replace(s, [LF], CRLF) == Wide(s)
  {
    if s != "" {
      WideIsReplace(s[1..]);
      assert s == [s[0]] + s[1..];
      ReplaceCharCons(s[0], s[1..], LF, CRLF);
    }
  }

  lemma {:induction false} LinesOfWide(s: string)
    requires CR !in s
    ensures Lines(Wide(s)) == s
  {
    if s != "" {
      LinesOfWide(s[1..]);
      if s[0] == LF {
        assert Wide(s) == CRLF + Wide(s[1..]);
        assert Wide(s)[0] == CR && Wide(s)[1] == LF && Wide(s)[2..] == Wide(s[1..]);
      } else {
        assert Wide(s) == [s[0]] + Wide(s[1..]);
        assert Wide(s)[1..] == Wide(s[1..]);
      }
    }
  }

  lemma {:induction false} WideSnoc(s: string, c: char)
    ensures Wide(s + [c]) == Wide(s) + if c == LF then CRLF else [c]
  {
    if s == "" {
      assert s + [c] == [c] && [c][1..] == "";
    } else {
      WideSnoc(s[1..], c);
      assert (s + [c])[1..] == s[1..] + [c];
    }
  }

  // ----- octets against characters -----

  lemma {:induction false} EncodeSnoc(cp: Codepage, s: string, c: char)
    ensures EncodeText(cp, s + [c]) == EncodeText(cp, s) + [cp.encode(c)]
  {
    if s == "" {
      assert s + [c] == [c] && [c][1..] == "";
    } else {
      EncodeSnoc(cp, s[1..], c);
      assert (s + [c])[1..] == s[1..] + [c];
    }
  }

  /** The octet of a 7-bit character other than '?' comes from that character only. */
  lemma {:induction false} EncodesOnly(cp: Codepage, c: char, b: Byte)
    requires Extends7Bit(cp) && b < 128 && b != 63
    ensures cp.encode(c) == b <==> c as int == b
  {
  }

  function EncodeNotesRaw(cp: Codepage, s: string): seq<Byte> {
    var raw := EncodeText(cp, Wide(s));
    if |raw| % 2 == 1 then raw + [PAD] else raw
  }

  /** The last octet comes from the last character; without it the octets are those of the text without it. */
  lemma {:induction false} LastOctet(cp: Codepage, s: string)
    requires Extends7Bit(cp) && s != ""
    ensures var raw, c := EncodeText(cp, Wide(s)), s[|s| - 1];
      && raw != []
      && raw[|raw| - 1] == cp.encode(c)
      && (c != LF ==> raw[..|raw| - 1] == EncodeText(cp, Wide(s[..|s| - 1])))
  {
    var init, c := s[..|s| - 1], s[|s| - 1];
    assert s == init + [c];
    WideSnoc(init, c);
    if c == LF {
      assert Wide(s) == Wide(init) + [CR] + [LF];
      EncodeSnoc(cp, Wide(init) + [CR], LF);
    } else {
      EncodeSnoc(cp, Wide(init), c);
    }
  }

  /** A text that needs no padding loses at most its last, pad-like character. */
  lemma {:induction false} DropPadText(cp: Codepage, s: string)
    requires Extends7Bit(cp)
    ensures DropPad(EncodeNotesRaw(cp, s)) == EncodeText(cp, Wide(Tail(s)))
  {
    var raw := EncodeText(cp, Wide(s));
    assert |raw| == |s| + Breaks(s);
    if |raw| % 2 == 1 {
      DropsPad(raw);
    } else if s != "" {
      LastOctet(cp, s);
      EncodesOnly(cp, s[|s| - 1], PAD);
      EvenTail(raw, s, EncodeText(cp, Wide(s[..|s| - 1])));
    }
  }

  lemma {:induction false} DropsPad(raw: seq<Byte>)
    ensures DropPad(raw + [PAD]) == raw
  {
  }

  lemma {:induction false} EvenTail(raw: seq<Byte>, s: string, shorter: seq<Byte>)
    requires s != "" && raw != [] && (|s| + Breaks(s)) % 2 == 0
    requires raw[|raw| - 1] == PAD <==> s[|s| - 1] as int == 3
    requires s[|s| - 1] != LF ==> raw[..|raw| - 1] == shorter
    ensures if s[|s| - 1] as int == 3 then Tail(s) == s[..|s| - 1] && DropPad(raw) == shorter
            else Tail(s) == s && DropPad(raw) == raw
  {
  }

  lemma {:induction false} DropZerosText(cp: Codepage, s: string)
    requires Extends7Bit(cp)
    ensures DropZeros(EncodeText(cp, Wide(s))) == EncodeText(cp, Wide(DropNuls(s)))
  {
    if s != "" {
      var c := s[|s| - 1];
      LastOctet(cp, s);
      EncodesOnly(cp, c, 0);
      if c == '\0' {
        DropZerosText(cp, s[..|s| - 1]);
      }
    }
  }

  lemma {:induction false} DecodeEncode(cp: Codepage, s: string)
    ensures DecodeText(cp, EncodeText(cp, s)) == Lossy(cp, s)
  {
    if s != "" {
      DecodeEncode(cp, s[1..]);
      assert EncodeText(cp, s)[1..] == EncodeText(cp, s[1..]);
    }
  }

  lemma {:induction false} LossyWide(cp: Codepage, s: string)
    requires Extends7Bit(cp) && CR !in s
    ensures Lossy(cp, Wide(s)) == Wide(Lossy(cp, s)) && CR !in Lossy(cp, s)
  {
    if s != "" {
      var c, rest := s[0], s[1..];
      LossyWide(cp, rest);
      BreaksPass(cp, c);
      var d := cp.decode(cp.encode(c));
      assert Lossy(cp, s) == [d] + Lossy(cp, rest);
      WideCons(d, Lossy(cp, rest));
      assert s == [c] + rest;
      WideCons(c, rest);
      if c == LF {
        LossyCons(cp, LF, Wide(rest));
        LossyCons(cp, CR, [LF] + Wide(rest));
      } else {
        LossyCons(cp, c, Wide(rest));
      }
    }
  }

  /** Line ends, and nothing else, come back from the code page as line ends. */
  lemma {:induction false} BreaksPass(cp: Codepage, c: char)
    requires Extends7Bit(cp)
    ensures cp.decode(cp.encode(c)) == LF <==> c == LF
    ensures cp.decode(cp.encode(c)) == CR <==> c == CR
    ensures cp.decode(cp.encode(LF)) == LF && cp.decode(cp.encode(CR)) == CR
  {
  }

  lemma {:induction false} WideCons(c: char, s: string)
    ensures Wide([c] + s) == if c == LF then [CR] + ([LF] + Wide(s)) else [c] + Wide(s)
  {
    assert ([c] + s)[1..] == s;
    assert CRLF + Wide(s) == [CR] + ([LF] + Wide(s));
  }

  lemma {:induction false} LossyCons(cp: Codepage, c: char, s: string)
    ensures Lossy(cp, [c] + s) == [cp.decode(cp.encode(c))] + Lossy(cp, s)
  {
    assert ([c] + s)[1..] == s;
  }

  // ----- ink -----

  lemma {:induction false} InkStarts(cp: Codepage, s: string, i: nat)
    requires Extends7Bit(cp) && i <= 5
    ensures INK[i..] <= EncodeText(cp, Wide(s)) <==> INK_TEXT[i..] <= s
    decreases 5 - i
  {
    var raw := EncodeText(cp, Wide(s));
    if s != "" && i < 5 {
      EncodesOnly(cp, s[0], INK[i]);
      EncodesOnly(cp, CR, INK[i]);
      assert INK[i] == INK_TEXT[i] as int;
      assert raw[0] == cp.encode(Wide(s)[0]);
      if s[0] == INK_TEXT[i] {
        assert Wide(s)[1..] == Wide(s[1..]) && raw[1..] == EncodeText(cp, Wide(s[1..]));
        InkStarts(cp, s[1..], i + 1);
        assert INK[i..] == [INK[i]] + INK[i + 1..] && INK_TEXT[i..] == [INK_TEXT[i]] + INK_TEXT[i + 1..];
        assert raw == [raw[0]] + raw[1..] && s == [s[0]] + s[1..];
        ConsPrefix(INK[i], INK[i + 1..], raw[1..]);
        ConsPrefix(INK_TEXT[i], INK_TEXT[i + 1..], s[1..]);
      }
    }
  }

  lemma {:induction false} ConsPrefix<T>(x: T, a: seq<T>, b: seq<T>)
    ensures [x] + a <= [x] + b <==> a <= b
  {
    assert ([x] + a)[1..] == a && ([x] + b)[1..] == b;
    if [x] + a <= [x] + b {
      assert ([x] + b)[..|a| + 1] == [x] + a;
      assert b[..|a|] == ([x] + b)[1..|a| + 1] == a;
    }
  }

  lemma {:induction false} PadIsNotInk(raw: seq<Byte>)
    ensures INK <= raw + [PAD] <==> INK <= raw
  {
    if INK <= raw + [PAD] {
      assert (raw + [PAD])[..5] == INK && (raw + [PAD])[4] == INK[4] == 0x69;
    }
  }

  // ----- the theorem -----

  /** A note reads back as the text the device keeps of it. */
  lemma {:induction false} NotesReadBack(cp: Codepage, text: string)
    requires Extends7Bit(cp)
    ensures DecodeNotes(cp, EncodeNotes(cp, text)) == Kept(cp, text)
  {
    var s := Lines(text);
    NewlinesAreLines(text);
    LinesNoBreak(text);
    WideIsReplace(s);
    var raw := EncodeText(cp, Wide(s));
    assert EncodeNotes(cp, text) == EncodeNotesRaw(cp, s);
    InkStarts(cp, s, 0);
    PadIsNotInk(raw);
    assert INK[0..] == INK && INK_TEXT[0..] == INK_TEXT;
    if s != "" && !(INK_TEXT <= s) {
      var u := DropNuls(Tail(s));
      DropPadText(cp, s);
      DropZerosText(cp, Tail(s));
      NoBreakTail(s);
      DecodeEncode(cp, Wide(u));
      LossyWide(cp, u);
      NewlinesAreLines(Wide(Lossy(cp, u)));
      LinesOfWide(Lossy(cp, u));
    }
  }

  lemma {:induction false} NulsMembers(s: string)
    ensures DropNuls(s) <= s
    ensures DropNuls(s) == s <==> s == "" || s[|s| - 1] != '\0'
  {
    if s != "" && s[|s| - 1] == '\0' {
      NulsMembers(s[..|s| - 1]);
    }
  }

  lemma {:induction false} NoBreakTail(s: string)
    requires CR !in s
    ensures CR !in DropNuls(Tail(s))
  {
    NulsMembers(Tail(s));
    assert Tail(s) <= s;
  }

  lemma {:induction false} LossyExact(cp: Codepage, s: string)
    ensures Lossy(cp, s) == s <==> forall c | c in s :: cp.decode(cp.encode(c)) == c
  {
    if s != "" {
      LossyExact(cp, s[1..]);
      assert s == [s[0]] + s[1..];
      assert Lossy(cp, s)[1..] == Lossy(cp, s[1..]);
    }
  }

  /** The notes a device can hold. */
  ghost predicate Keepable(cp: Codepage, text: string) {
    && CR !in text
    && !(INK_TEXT <= text)
    && (text == "" || text[|text| - 1] != '\0')
    && Tail(text) == text
    && forall c | c in text :: cp.decode(cp.encode(c)) == c
  }

  lemma {:induction false} KeptExactly(cp: Codepage, text: string)
    requires Extends7Bit(cp)
    ensures Kept(cp, text) == text <==> Keepable(cp, text)
  {
    var s := Lines(text);
    LinesChanges(text);
    LinesNoBreak(text);
    NoBreakTail(s);
    LossyWide(cp, DropNuls(Tail(s)));
    if CR !in text {
      NulsMembers(Tail(text));
      LossyExact(cp, DropNuls(Tail(text)));
      if Kept(cp, text) == text {
        assert |DropNuls(Tail(text))| == |text|;
      }
    }
  }

  /** A note whose octets are even in number and end like padding loses its last character. */
  lemma {:induction false} PadLikeNoteIsCut(cp: Codepage)
    requires Extends7Bit(cp)
    ensures DecodeNotes(cp, EncodeNotes(cp, "x\U{3}")) == "x"
  {
    var text := "x\U{3}";
    NotesReadBack(cp, text);
    LinesChanges(text);
    assert text[1..] == "\U{3}" && Breaks(text) == 0;
    assert Tail(text) == "x";
    LossyExact(cp, "x");
  }
}
