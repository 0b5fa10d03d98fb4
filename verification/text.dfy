/** Strings as the source's built-in operations see them: strip, upper, replace, split, join, UTF-8 size. */
module Text {
  import opened Sequences

  const CR := '\r'
  const LF := '\n'
  const CRLF := "\r\n"

  /** The characters `str.strip()` removes. */
  predicate IsSpace(c: char) {
    var n := c as int;
    || 9 <= n <= 13 || 28 <= n <= 32 || n == 0x85 || n == 0xA0 || n == 0x1680 || 0x2000 <= n <= 0x200A
    || n == 0x2028 || n == 0x2029 || n == 0x202F || n == 0x205F || n == 0x3000
  }

  function StripLeft(s: string): (r: string)
    ensures r == "" || !IsSpace(r[0])
    ensures s == "" || !IsSpace(s[0]) ==> r == s
    ensures forall c :: c in r ==> c in s
  {
    if s != "" && IsSpace(s[0]) then StripLeft(s[1..]) else s
  }

  function StripRight(s: string): (r: string)
    ensures r == "" || !IsSpace(r[|r| - 1])
    ensures s == "" || !IsSpace(s[|s| - 1]) ==> r == s
    ensures r <= s
    ensures forall c :: c in r ==> c in s
  {
    if s != "" && IsSpace(s[|s| - 1]) then StripRight(s[..|s| - 1]) else s
  }

  function Strip(s: string): (r: string)
    ensures r == "" || (!IsSpace(r[0]) && !IsSpace(r[|r| - 1]))
    ensures (s == "" || (!IsSpace(s[0]) && !IsSpace(s[|s| - 1]))) ==> r == s
    ensures forall c :: c in r ==> c in s
  {
    StripRight(StripLeft(s))
  }

  function UpperChar(c: char): char {
    if 'a' <= c <= 'z' then (c as int - 32) as char else c
  }

  /** Upper-casing of ASCII letters; other characters stand for themselves. */
  function Upper(s: string): (r: string)
    ensures |r| == |s|
    ensures forall i :: 0 <= i < |s| ==> r[i] == UpperChar(s[i])
  {
    if s == "" then "" else [UpperChar(s[0])] + Upper(s[1..])
  }

  /** `s.replace(old, new)`: leftmost matches first, none overlapping. */
  function Replace(s: string, what: string, with: string): string
    requires what != ""
    decreases |s|
  {
    if s == "" then ""
    else if what <= s then with + Replace(s[|what|..], what, with)
    else [s[0]] + Replace(s[1..], what, with)
  }

  function Join(parts: seq<string>, sep: string): string {
    if parts == [] then ""
    else if |parts| == 1 then parts[0]
    else parts[0] + sep + Join(parts[1..], sep)
  }

  /** `s.split(sep)` for a one-character separator: always at least one part. */
  function Split(s: string, sep: char): (parts: seq<string>)
    ensures |parts| > 0
    ensures forall p :: p in parts ==> sep !in p
    ensures forall p, c :: p in parts && c in p ==> c in s
  {
    if s == "" then [""]
    else
      var rest := Split(s[1..], sep);
      if s[0] == sep then [""] + rest else [[s[0]] + rest[0]] + rest[1..]
  }

  /** Octets of one character in UTF-8. */
  function Utf8Size(c: char): (n: nat)
    ensures 1 <= n <= 4
  {
    var code := c as int;
    if code < 0x80 then 1 else if code < 0x800 then 2 else if code < 0x10000 then 3 else 4
  }

  function Octets(s: string): nat {
    if s == "" then 0 else Octets(s[..|s| - 1]) + Utf8Size(s[|s| - 1])
  }

  predicate NoBreaks(s: string) { CR !in s && LF !in s }

  // ----- laws -----

  lemma {:induction false} JoinSplit(s: string, sep: char)
    ensures Join(Split(s, sep), [sep]) == s
  {
    if s != "" {
      JoinSplit(s[1..], sep);
      var rest := Split(s[1..], sep);
      if s[0] == sep {
        assert ([""] + rest)[1..] == rest;
        assert s == [sep] + s[1..];
      } else {
        var parts := [[s[0]] + rest[0]] + rest[1..];
        assert parts[1..] == rest[1..];
        assert s == [s[0]] + s[1..];
        if |rest| > 1 {
          assert Join(parts, [sep]) == [s[0]] + (rest[0] + [sep] + Join(rest[1..], [sep]));
        }
      }
    }
  }

  lemma {:induction false} SplitFirst(a: string, sep: char, b: string)
    requires sep !in a
    ensures Split(a + [sep] + b, sep) == [a] + Split(b, sep)
  {
    if a == "" {
      assert a + [sep] + b == [sep] + b;
      assert ([sep] + b)[1..] == b;
    } else {
      SplitFirst(a[1..], sep, b);
      assert (a + [sep] + b)[1..] == a[1..] + [sep] + b;
      assert ([a[1..]] + Split(b, sep))[1..] == Split(b, sep);
      assert a == [a[0]] + a[1..];
    }
  }

  lemma {:induction false} SplitNone(a: string, sep: char)
    requires sep !in a
    ensures Split(a, sep) == [a]
  {
    if a != "" {
      SplitNone(a[1..], sep);
      assert a == [a[0]] + a[1..];
    }
  }

  lemma {:induction false} SplitJoin(parts: seq<string>, sep: char)
    requires parts != [] && forall p :: p in parts ==> sep !in p
    ensures Split(Join(parts, [sep]), sep) == parts
  {
    assert parts[0] in parts;
    if |parts| == 1 {
      SplitNone(parts[0], sep);
    } else {
      SplitJoin(parts[1..], sep);
      SplitFirst(parts[0], sep, Join(parts[1..], [sep]));
      assert Join(parts, [sep]) == parts[0] + [sep] + Join(parts[1..], [sep]);
      assert parts == [parts[0]] + parts[1..];
    }
  }

  lemma {:induction false} OctetsConcat(a: string, b: string)
    ensures Octets(a + b) == Octets(a) + Octets(b)
  {
    if b == "" {
      assert a + b == a;
    } else {
      OctetsConcat(a, b[..|b| - 1]);
      assert (a + b)[..|a + b| - 1] == a + b[..|b| - 1];
    }
  }

  /** Replacing one character by a string works character by character. */
  lemma {:induction false} ReplaceCharCons(c: char, s: string, what: char, with: string)
    ensures Replace([c] + s, [what], with) == (if c == what then with else [c]) + Replace(s, [what], with)
  {
    assert ([c] + s)[1..] == s && ([c] + s)[|[what]|..] == s;
    assert ([c] + s)[0] == c;
    if c == what {
      assert ([c] + s)[..1] == [what];
    }
  }

  lemma {:induction false} ReplaceCharConcat(a: string, b: string, what: char, with: string)
    ensures Replace(a + b, [what], with) == Replace(a, [what], with) + Replace(b, [what], with)
  {
    if a == "" {
      assert a + b == b;
    } else {
      ReplaceCharConcat(a[1..], b, what, with);
      ReplaceCharCons(a[0], a[1..] + b, what, with);
      ReplaceCharCons(a[0], a[1..], what, with);
      assert a + b == [a[0]] + (a[1..] + b);
      assert a == [a[0]] + a[1..];
      Assoc(if a[0] == what then with else [a[0]], Replace(a[1..], [what], with), Replace(b, [what], with));
    }
  }

  lemma {:induction false} ReplaceCharNone(s: string, what: char, with: string)
    requires what !in s
    ensures Replace(s, [what], with) == s
  {
    if s != "" {
      ReplaceCharNone(s[1..], what, with);
      ReplaceCharCons(s[0], s[1..], what, with);
      assert s == [s[0]] + s[1..];
    }
  }

  /** `Replace` with a one-character needle leaves no occurrence the replacement does not bring. */
  lemma {:induction false} ReplaceCharMembers(s: string, what: char, with: string)
    requires what !in with
    ensures what !in Replace(s, [what], with)
    ensures forall c :: c in Replace(s, [what], with) ==> c in s || c in with
  {
    if s != "" {
      ReplaceCharMembers(s[1..], what, with);
      ReplaceCharCons(s[0], s[1..], what, with);
      assert s == [s[0]] + s[1..];
    }
  }

  /** Joining two non-empty lists of parts puts one separator between them. */
  lemma {:induction false} JoinConcat(a: seq<string>, b: seq<string>, sep: string)
    requires a != [] && b != []
    ensures Join(a + b, sep) == Join(a, sep) + sep + Join(b, sep)
  {
    assert (a + b)[1..] == a[1..] + b;
    if |a| > 1 {
      JoinConcat(a[1..], b, sep);
      assert a[0] + sep + (Join(a[1..], sep) + sep + Join(b, sep))
          == (a[0] + sep + Join(a[1..], sep)) + sep + Join(b, sep);
    }
  }

  lemma {:induction false} NotCrlf(s: string)
    requires s != "" && s[0] != CR
    ensures !(CRLF <= s)
  {}

  /** A stretch without CR passes through the replacement of CRLF untouched. */
  lemma {:induction false} CrlfAfter(p: string, rest: string, with: string)
    requires CR !in p
    ensures Replace(p + rest, CRLF, with) == p + Replace(rest, CRLF, with)
  {
    if p == "" {
      assert p + rest == rest;
    } else {
      assert p == [p[0]] + p[1..];
      assert CR !in p[1..];
      CrlfAfter(p[1..], rest, with);
      assert (p + rest)[1..] == p[1..] + rest;
      NotCrlf(p + rest);
    }
  }

  lemma {:induction false} CrlfHere(rest: string, with: string)
    ensures Replace(CRLF + rest, CRLF, with) == with + Replace(rest, CRLF, with)
  {
    assert (CRLF + rest)[2..] == rest;
    assert (CRLF + rest)[..2] == CRLF;
  }
}
