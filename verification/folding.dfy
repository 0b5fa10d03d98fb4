/** Folding and unfolding are inverse, octet-bounded, and never split a character. */
module Folding {
  import opened Sequences
  import opened Text
  import opened TextProps

  function Concat(parts: seq<string>): string {
    if parts == [] then "" else parts[0] + Concat(parts[1..])
  }

  // ----- what folding cuts -----

  /** The pieces are the line cut up between characters. */
  lemma {:induction false} ChunksConcat(line: string, limit: int, current: string, budget: int)
    ensures Concat(Chunks(line, limit, current, budget)) == current + line
  {
    if line == "" {
      assert Concat([current]) == current + Concat([current][1..]);
    } else {
      var size := Utf8Size(line[0]);
      assert line == [line[0]] + line[1..];
      if current != "" && size > budget {
        ChunksConcat(line[1..], limit, [line[0]], limit - 1 - size);
        var rest := Chunks(line[1..], limit, [line[0]], limit - 1 - size);
        assert ([current] + rest)[1..] == rest;
      } else {
        ChunksConcat(line[1..], limit, current + [line[0]], budget - size);
        assert (current + [line[0]]) + line[1..] == current + line;
      }
    }
  }

  /** The first piece fits the limit; every later one leaves room for the leading space. */
  lemma {:induction false} ChunksFit(line: string, limit: int, current: string, budget: int, room: int)
    requires limit >= 5 && limit - 1 <= room <= limit
    requires budget >= 0 && Octets(current) + budget == room
    ensures var chunks := Chunks(line, limit, current, budget);
      && Octets(chunks[0]) <= room
      && (forall i :: 1 <= i < |chunks| ==> Octets(chunks[i]) <= limit - 1)
  {
    if line != "" {
      var c := line[0];
      var size := Utf8Size(c);
      assert [c][..0] == "";
      assert Octets([c]) == size;
      if current != "" && size > budget {
        ChunksFit(line[1..], limit, [c], limit - 1 - size, limit - 1);
        var rest := Chunks(line[1..], limit, [c], limit - 1 - size);
        forall i | 1 <= i < |[current] + rest| ensures Octets(([current] + rest)[i]) <= limit - 1 {
          assert ([current] + rest)[i] == rest[i - 1];
        }
      } else {
        assert (current + [c])[..|current|] == current;
        ChunksFit(line[1..], limit, current + [c], budget - size, room);
      }
    }
  }

  /** Only characters of the line are in the pieces, and every piece has one. */
  lemma {:induction false} ChunksMembers(line: string, limit: int, current: string, budget: int)
    requires line != "" || current != ""
    ensures forall p :: p in Chunks(line, limit, current, budget) ==>
      p != "" && forall c :: c in p ==> c in current || c in line
  {
    if line != "" {
      var size := Utf8Size(line[0]);
      if current != "" && size > budget {
        ChunksMembers(line[1..], limit, [line[0]], limit - 1 - size);
      } else {
        ChunksMembers(line[1..], limit, current + [line[0]], budget - size);
      }
    }
  }

  lemma {:induction false} FirstChunkStarts(line: string, limit: int, current: string, budget: int)
    requires current != ""
    ensures current <= Chunks(line, limit, current, budget)[0]
  {
    if line != "" && !(Utf8Size(line[0]) > budget) {
      FirstChunkStarts(line[1..], limit, current + [line[0]], budget - Utf8Size(line[0]));
    }
  }

  // ----- physical lines -----

  function Continued(chunks: seq<string>): seq<string> {
    if chunks == [] then [] else [" " + chunks[0]] + Continued(chunks[1..])
  }

  /** The physical lines one logical line is written as. */
  function Physical(line: string, limit: int): seq<string> {
    var chunks := Chunks(line, limit, "", limit);
    [chunks[0]] + Continued(chunks[1..])
  }

  lemma {:induction false} JoinIsPhysical(chunks: seq<string>)
    requires chunks != []
    ensures Join(chunks, CRLF + " ") == Join([chunks[0]] + Continued(chunks[1..]), CRLF)
  {
    var rest := Continued(chunks[1..]);
    assert ([chunks[0]] + rest)[1..] == rest;
    if |chunks| > 1 {
      JoinIsPhysical(chunks[1..]);
      assert chunks[1..][1..] == chunks[2..];
      var later := Continued(chunks[2..]);
      assert rest == [" " + chunks[1]] + later;
      JoinLead(" ", chunks[1], later, CRLF);
      assert chunks[0] + (CRLF + " ") + Join(chunks[1..], CRLF + " ")
          == chunks[0] + CRLF + (" " + Join(chunks[1..], CRLF + " "));
    }
  }

  lemma {:induction false} JoinLead(lead: string, first: string, rest: seq<string>, sep: string)
    ensures Join([lead + first] + rest, sep) == lead + Join([first] + rest, sep)
  {
    assert ([lead + first] + rest)[1..] == rest == ([first] + rest)[1..];
    if rest != [] {
      assert (lead + first) + sep + Join(rest, sep) == lead + (first + sep + Join(rest, sep));
    }
  }

  /** No physical line `Fold` writes is longer than the limit in octets, and only the line's characters move. */
  lemma {:induction false} FoldBounds(line: string, limit: int)
    requires limit >= 5
    ensures Folded(line, limit) == Join(Physical(line, limit), CRLF)
    ensures forall p :: p in Physical(line, limit) ==> Octets(p) <= limit
    ensures Concat(Chunks(line, limit, "", limit)) == line
  {
    var chunks := Chunks(line, limit, "", limit);
    JoinIsPhysical(chunks);
    ChunksFit(line, limit, "", limit, limit);
    ChunksConcat(line, limit, "", limit);
    ContinuedFits(chunks[1..], limit);
  }

  lemma {:induction false} ContinuedFits(chunks: seq<string>, limit: int)
    requires forall i :: 0 <= i < |chunks| ==> Octets(chunks[i]) <= limit - 1
    ensures forall p :: p in Continued(chunks) ==> Octets(p) <= limit
  {
    if chunks != [] {
      ContinuedFits(chunks[1..], limit);
      OctetsConcat(" ", chunks[0]);
      assert " "[..0] == "";
      assert Octets(" ") == 1;
    }
  }

  // ----- unfolding what was folded -----

  /** A line that can stand on its own: it starts with a visible character and has no line break. */
  predicate Standing(line: string) {
    line != "" && !IsSpace(line[0]) && NoBreaks(line)
  }

  lemma {:induction false} TakeAllConcat(lines: seq<string>, a: seq<string>, b: seq<string>)
    ensures TakeAll(lines, a + b) == TakeAll(TakeAll(lines, a), b)
    decreases |a|
  {
    if a == [] {
      assert a + b == b;
    } else {
      TakeAllConcat(TakePhysical(lines, a[0]), a[1..], b);
      assert (a + b)[1..] == a[1..] + b;
    }
  }

  lemma {:induction false} TakeContinued(lines: seq<string>, current: string, chunks: seq<string>)
    ensures TakeAll(lines + [current], Continued(chunks)) == lines + [current + Concat(chunks)]
    decreases |chunks|
  {
    if chunks == [] {
      assert current + "" == current;
    } else {
      var more := TakePhysical(lines + [current], " " + chunks[0]);
      assert (" " + chunks[0])[1..] == chunks[0];
      assert more == lines + [current + chunks[0]];
      TakeContinued(lines, current + chunks[0], chunks[1..]);
      assert Continued(chunks)[1..] == Continued(chunks[1..]);
      assert (current + chunks[0]) + Concat(chunks[1..]) == current + Concat(chunks);
    }
  }

  lemma {:induction false} VisibleStart(s: string)
    requires s != "" && !IsSpace(s[0])
    ensures Strip(s) != ""
  {
    VisibleStays(s);
  }

  lemma {:induction false} VisibleStays(s: string)
    requires s != "" && !IsSpace(s[0])
    ensures StripRight(s) != ""
  {
    if IsSpace(s[|s| - 1]) {
      VisibleStays(s[..|s| - 1]);
    }
  }

  /** Reading the physical lines of one folded line adds exactly that line. */
  lemma {:induction false} TakeLine(lines: seq<string>, line: string, limit: int)
    requires Standing(line)
    ensures TakeAll(lines, Physical(line, limit)) == lines + [line]
  {
    var chunks := Chunks(line, limit, "", limit);
    ChunksConcat(line, limit, "", limit);
    assert "" + line == line;
    FirstChunkStarts(line[1..], limit, [line[0]], limit - Utf8Size(line[0]));
    assert "" + [line[0]] == [line[0]];
    assert chunks[0][0] == line[0];
    VisibleStart(chunks[0]);
    assert Physical(line, limit)[1..] == Continued(chunks[1..]);
    assert TakePhysical(lines, chunks[0]) == lines + [chunks[0]];
    TakeContinued(lines, chunks[0], chunks[1..]);
  }

  /** A logical line and the limit it is folded to. */
  datatype Laid = Laid(line: string, limit: int)

  function LinesOf(laid: seq<Laid>): seq<string> {
    if laid == [] then [] else [laid[0].line] + LinesOf(laid[1..])
  }

  ghost predicate AllStanding(laid: seq<Laid>) {
    forall l :: l in laid ==> l.limit >= 5 && Standing(l.line)
  }

  function AllPhysical(laid: seq<Laid>): seq<string> {
    if laid == [] then [] else Physical(laid[0].line, laid[0].limit) + AllPhysical(laid[1..])
  }

  lemma {:induction false} TakeLines(done: seq<string>, laid: seq<Laid>)
    requires AllStanding(laid)
    ensures TakeAll(done, AllPhysical(laid)) == done + LinesOf(laid)
    decreases |laid|
  {
    if laid != [] {
      var (line, limit) := (laid[0].line, laid[0].limit);
      assert laid[0] in laid;
      TakeAllConcat(done, Physical(line, limit), AllPhysical(laid[1..]));
      TakeLine(done, line, limit);
      TakeLines(done + [line], laid[1..]);
      Assoc(done, [line], LinesOf(laid[1..]));
    } else {
      assert done + LinesOf(laid) == done;
    }
  }

  // ----- line ends -----

  lemma {:induction false} JoinOneBreak(parts: seq<string>)
    requires parts != [] && forall p :: p in parts ==> NoBreaks(p)
    ensures Replace(Join(parts, CRLF), CRLF, [LF]) == Join(parts, [LF])
    ensures CR !in Join(parts, [LF])
  {
    assert NoBreaks(parts[0]);
    if |parts| == 1 {
      CrlfAfter(parts[0], "", [LF]);
      assert parts[0] + "" == parts[0];
    } else {
      JoinOneBreak(parts[1..]);
      var rest := Join(parts[1..], CRLF);
      CrlfAfter(parts[0], CRLF + rest, [LF]);
      CrlfHere(rest, [LF]);
      JoinFirst(parts, CRLF);
      JoinFirst(parts, [LF]);
    }
  }

  lemma {:induction false} JoinFirst(parts: seq<string>, sep: string)
    requires |parts| > 1
    ensures Join(parts, sep) == parts[0] + (sep + Join(parts[1..], sep))
  {
  }

  /** Physical lines joined with CRLF come apart again. */
  lemma {:induction false} SplitLines(parts: seq<string>)
    requires parts != [] && forall p :: p in parts ==> NoBreaks(p)
    ensures Split(OneBreak(Join(parts, CRLF)), LF) == parts
  {
    JoinOneBreak(parts);
    ReplaceCharNone(Join(parts, [LF]), CR, [LF]);
    forall p | p in parts ensures LF !in p { assert NoBreaks(p); }
    SplitJoin(parts, LF);
  }

  lemma {:induction false} ContinuedClean(chunks: seq<string>)
    requires forall p :: p in chunks ==> NoBreaks(p)
    ensures forall p :: p in Continued(chunks) ==> NoBreaks(p)
  {
    if chunks != [] {
      assert NoBreaks(chunks[0]);
      ContinuedClean(chunks[1..]);
    }
  }

  lemma {:induction false} PhysicalClean(line: string, limit: int)
    requires Standing(line)
    ensures forall p :: p in Physical(line, limit) ==> NoBreaks(p)
  {
    ChunksMembers(line, limit, "", limit);
    var chunks := Chunks(line, limit, "", limit);
    forall p | p in chunks ensures NoBreaks(p) {}
    ContinuedClean(chunks[1..]);
  }

  lemma {:induction false} AllPhysicalClean(laid: seq<Laid>)
    requires AllStanding(laid)
    ensures forall p :: p in AllPhysical(laid) ==> NoBreaks(p)
  {
    if laid != [] {
      assert laid[0] in laid;
      PhysicalClean(laid[0].line, laid[0].limit);
      AllPhysicalClean(laid[1..]);
    }
  }

  /** The first physical line, and so the text, starts as the logical line does. */
  lemma {:induction false} TextStarts(line: string, rest: seq<string>, limit: int)
    requires line != ""
    ensures Join(Physical(line, limit) + rest, CRLF) != ""
    ensures Join(Physical(line, limit) + rest, CRLF)[0] == line[0]
  {
    assert "" + [line[0]] == [line[0]];
    FirstChunkStarts(line[1..], limit, [line[0]], limit - Utf8Size(line[0]));
    var chunks := Chunks(line, limit, "", limit);
    assert [line[0]] <= chunks[0] && chunks[0][0] == [line[0]][0];
    assert (Physical(line, limit) + rest)[0] == chunks[0];
  }

  /** Text made of the physical lines of some logical lines unfolds to those lines, last line end or not. */
  lemma {:induction false} UnfoldPhysical(laid: seq<Laid>, last: seq<string>)
    requires laid != [] && AllStanding(laid)
    requires laid[0].line != "" && laid[0].line[0] as int != 0xFEFF
    requires last == [] || last == [""]
    ensures Unfolded(Join(AllPhysical(laid) + last, CRLF)) == LinesOf(laid)
  {
    var parts := AllPhysical(laid);
    var first := Physical(laid[0].line, laid[0].limit);
    assert parts + last == first + (AllPhysical(laid[1..]) + last);
    TextStarts(laid[0].line, AllPhysical(laid[1..]) + last, laid[0].limit);
    AllPhysicalClean(laid);
    SplitLines(parts + last);
    TakeLines([], laid);
    assert [] + LinesOf(laid) == LinesOf(laid);
    TakeAllConcat([], parts, last);
    assert TakeAll(LinesOf(laid), [""]) == LinesOf(laid) by {
      assert Strip("") == "" && [""][1..] == [];
      assert TakePhysical(LinesOf(laid), "") == LinesOf(laid);
    }
  }

  function FoldAll(laid: seq<Laid>): seq<string> {
    if laid == [] then [] else [Folded(laid[0].line, laid[0].limit)] + FoldAll(laid[1..])
  }

  lemma {:induction false} JoinFolded(laid: seq<Laid>)
    requires laid != [] && forall l :: l in laid ==> l.limit >= 5
    ensures Join(FoldAll(laid), CRLF) == Join(AllPhysical(laid), CRLF)
  {
    assert laid[0] in laid;
    FoldBounds(laid[0].line, laid[0].limit);
    var (first, rest) := (Folded(laid[0].line, laid[0].limit), FoldAll(laid[1..]));
    if |laid| == 1 {
      assert rest == [] && [first] + rest == [first];
      assert AllPhysical(laid) == Physical(laid[0].line, laid[0].limit);
    } else {
      JoinFolded(laid[1..]);
      assert ([first] + rest)[1..] == rest;
      JoinConcat(Physical(laid[0].line, laid[0].limit), AllPhysical(laid[1..]), CRLF);
    }
  }

  /** Many folded lines joined with CRLF unfold to exactly those lines, with or without a last line end. */
  lemma {:induction false} UnfoldInvertsFold(laid: seq<Laid>)
    requires laid != [] && AllStanding(laid)
    requires laid[0].line != "" && laid[0].line[0] as int != 0xFEFF
    ensures Unfolded(Join(FoldAll(laid), CRLF) + CRLF) == LinesOf(laid)
    ensures Unfolded(Join(FoldAll(laid), CRLF)) == LinesOf(laid)
  {
    JoinFolded(laid);
    var parts := AllPhysical(laid);
    JoinConcat(parts, [""], CRLF);
    assert Join(parts, CRLF) + CRLF + "" == Join(parts, CRLF) + CRLF;
    UnfoldPhysical(laid, [""]);
    UnfoldPhysical(laid, []);
    assert parts + [] == parts;
  }

  /** One folded line unfolds to that one line. */
  lemma {:induction false} UnfoldOne(line: string, limit: int)
    requires limit >= 5 && Standing(line) && line[0] as int != 0xFEFF
    ensures Unfolded(Folded(line, limit)) == [line]
  {
    var laid := [Laid(line, limit)];
    assert laid[1..] == [];
    UnfoldInvertsFold(laid);
    assert FoldAll(laid) == [Folded(line, limit)];
    assert LinesOf(laid) == [line];
  }

  /** A line within the limit is left alone. */
  lemma {:induction false} ShortLineUnfolded(line: string, limit: int, current: string, budget: int)
    requires Octets(line) <= budget
    ensures Chunks(line, limit, current, budget) == [current + line]
  {
    if line == "" {
      assert current + line == current;
    } else {
      OctetsConcat([line[0]], line[1..]);
      assert [line[0]][..0] == "";
      assert Octets([line[0]]) == Utf8Size(line[0]);
      assert line == [line[0]] + line[1..];
      ShortLineUnfolded(line[1..], limit, current + [line[0]], budget - Utf8Size(line[0]));
      assert current + [line[0]] + line[1..] == current + line;
    }
  }
}
