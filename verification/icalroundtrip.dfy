/** The stack parser inverts the recursive printer, through folding, escaping and parameter quoting. */
module IcalRoundTrip {
  import opened Wrappers
  import opened Sequences
  import opened Text
  import opened TextProps
  import opened Folding
  import opened Escaping
  import opened ContentLines
  import opened LineRoundTrip
  import opened Ical

  // ----- what can be printed, and what it reads back as -----

  /** Names are tokens, and a value kept in wire form stays on its line. Parameter values are free. */
  predicate PrintableProperty(p: Property) {
    && NameToken(p.name) && p.name != "BEGIN" && p.name != "END" && GroupOk(p.group)
    && (forall q :: q in p.params ==> KeyToken(q.name))
    && (!IsTextValue(p.name, p.params) ==> NoBreaks(p.value))
  }

  predicate PrintableName(name: string) { NoBreaks(name) && Strip(name) == name && Upper(name) == name }

  predicate Printable(c: Component)
    decreases c, 1
  {
    && PrintableName(c.name)
    && (forall p :: p in c.properties ==> PrintableProperty(p))
    && PrintableAll(c.children)
  }

  predicate PrintableAll(children: seq<Component>)
    decreases children, 0
  {
    children == [] || (Printable(children[0]) && PrintableAll(children[1..]))
  }

  function NormalProperty(p: Property): Property {
    var params := NormalParams(p.params);
    Property(p.name, DecodeValue(p.name, params, EncodeValue(p.name, p.params, p.value)), params, p.group)
  }

  function NormalProperties(properties: seq<Property>): (r: seq<Property>)
    ensures |r| == |properties|
    ensures forall i :: 0 <= i < |r| ==> r[i] == NormalProperty(properties[i])
  {
    seq(|properties|, i requires 0 <= i < |properties| => NormalProperty(properties[i]))
  }

  /** The tree with every parameter value and text value in the form it reads back as. */
  function Normal(c: Component): Component
    decreases c, 1
  {
    Component(c.name, NormalProperties(c.properties), NormalAll(c.children))
  }

  function NormalAll(children: seq<Component>): seq<Component>
    decreases children, 0
  {
    if children == [] then [] else [Normal(children[0])] + NormalAll(children[1..])
  }

  // ----- the logical lines of a tree -----

  function PropertyLines(properties: seq<Property>): seq<Laid> {
    if properties == [] then []
    else [Laid(PropertyLine(properties[0]), FOLD_LIMIT)] + PropertyLines(properties[1..])
  }

  /** BEGIN and END lines are never folded: their limit is as long as they are. */
  function Unfoldable(line: string): Laid { Laid(line, 5 + Octets(line)) }

  function Lay(c: Component): seq<Laid>
    decreases c, 1
  {
    [Unfoldable("BEGIN:" + c.name)] + PropertyLines(c.properties) + LayAll(c.children)
    + [Unfoldable("END:" + c.name)]
  }

  function LayAll(children: seq<Component>): seq<Laid>
    decreases children, 0
  {
    if children == [] then [] else Lay(children[0]) + LayAll(children[1..])
  }

  lemma {:induction false} FoldAllConcat(a: seq<Laid>, b: seq<Laid>)
    ensures FoldAll(a + b) == FoldAll(a) + FoldAll(b)
    ensures LinesOf(a + b) == LinesOf(a) + LinesOf(b)
  {
    if a == [] {
      assert a + b == b;
    } else {
      FoldAllConcat(a[1..], b);
      assert (a + b)[0] == a[0] && (a + b)[1..] == a[1..] + b;
      Assoc([Folded(a[0].line, a[0].limit)], FoldAll(a[1..]), FoldAll(b));
      Assoc([a[0].line], LinesOf(a[1..]), LinesOf(b));
    }
  }

  lemma {:induction false} UnfoldableStays(line: string)
    ensures FoldAll([Unfoldable(line)]) == [line]
    ensures LinesOf([Unfoldable(line)]) == [line]
  {
    ShortLineUnfolded(line, 5 + Octets(line), "", 5 + Octets(line));
    assert "" + line == line;
    assert [Unfoldable(line)][1..] == [];
  }

  lemma {:induction false} PropertyWireFolds(properties: seq<Property>)
    ensures PropertyWire(properties) == FoldAll(PropertyLines(properties))
  {
    if properties != [] {
      PropertyWireFolds(properties[1..]);
      assert PropertyLines(properties)[1..] == PropertyLines(properties[1..]);
    }
  }

  /** The printed lines are the tree's logical lines, each folded to its limit. */
  lemma {:induction false} WireFolds(c: Component)
    ensures WireLines(c) == FoldAll(Lay(c))
    decreases c, 1
  {
    var (first, last) := ([Unfoldable("BEGIN:" + c.name)], [Unfoldable("END:" + c.name)]);
    UnfoldableStays("BEGIN:" + c.name);
    UnfoldableStays("END:" + c.name);
    PropertyWireFolds(c.properties);
    WireFoldsAll(c.children);
    FoldAllConcat(first, PropertyLines(c.properties));
    FoldAllConcat(first + PropertyLines(c.properties), LayAll(c.children));
    FoldAllConcat(first + PropertyLines(c.properties) + LayAll(c.children), last);
  }

  lemma {:induction false} WireFoldsAll(children: seq<Component>)
    ensures WireChildren(children) == FoldAll(LayAll(children))
    decreases children, 0
  {
    if children != [] {
      WireFolds(children[0]);
      WireFoldsAll(children[1..]);
      FoldAllConcat(Lay(children[0]), LayAll(children[1..]));
    }
  }

  // ----- every printed line can stand on its own -----

  lemma {:induction false} FormatParamsNoBreaks(params: seq<Param>)
    requires forall q :: q in params ==> KeyToken(q.name)
    ensures NoBreaks(FormatParams(params))
  {
    if params != [] {
      var q := params[0];
      assert q in params;
      KeyNoBreaks(q.name);
      WrittenPartsPlain(q.name, q.value);
      FormatParamsNoBreaks(params[1..]);
      assert NoBreaks(FormatParam(q));
    }
  }

  lemma {:induction false} KeyNoBreaks(s: string)
    requires forall c :: c in s ==> PlainChar(c)
    ensures NoBreaks(s)
  {
    assert IsSpace(CR) && IsSpace(LF);
  }

  lemma {:induction false} LineStands(group: Option<string>, name: string, params: seq<Param>, value: string)
    requires GroupOk(group) && NameToken(name) && NoBreaks(value)
    requires forall q :: q in params ==> KeyToken(q.name)
    ensures Standing(FormatLine(group, name, params, value))
  {
    var base := FormatHead(group, name);
    NormalizeKeys(params);
    HeadFacts(group, name);
    KeyNoBreaks(base);
    FormatParamsNoBreaks(params);
    assert base[0] in base;
    StandingConcat(base, FormatParams(params), value);
  }

  lemma {:induction false} StandingConcat(base: string, params: string, value: string)
    requires base != "" && !IsSpace(base[0]) && NoBreaks(base) && NoBreaks(params) && NoBreaks(value)
    ensures Standing(base + params + ":" + value)
  {}

  lemma {:induction false} PropertyStands(p: Property)
    requires PrintableProperty(p)
    ensures Standing(PropertyLine(p))
  {
    EscapedHasNoBreaks(p.value);
    LineStands(p.group, p.name, p.params, EncodeValue(p.name, p.params, p.value));
  }

  lemma {:induction false} PropertyLinesStand(properties: seq<Property>)
    requires forall p :: p in properties ==> PrintableProperty(p)
    ensures AllStanding(PropertyLines(properties))
  {
    if properties != [] {
      assert properties[0] in properties;
      PropertyStands(properties[0]);
      PropertyLinesStand(properties[1..]);
    }
  }

  lemma {:induction false} LayStands(c: Component)
    requires Printable(c)
    ensures AllStanding(Lay(c))
    decreases c, 1
  {
    var (first, last) := ([Unfoldable("BEGIN:" + c.name)], [Unfoldable("END:" + c.name)]);
    var (props, kids) := (PropertyLines(c.properties), LayAll(c.children));
    BordersStand(c.name);
    PropertyLinesStand(c.properties);
    LayAllStands(c.children);
    StandTogether(first, props);
    StandTogether(first + props, kids);
    StandTogether(first + props + kids, last);
  }

  lemma {:induction false} StandTogether(a: seq<Laid>, b: seq<Laid>)
    requires AllStanding(a) && AllStanding(b)
    ensures AllStanding(a + b)
  {
  }

  lemma {:induction false} BordersStand(name: string)
    requires PrintableName(name)
    ensures AllStanding([Unfoldable("BEGIN:" + name)]) && AllStanding([Unfoldable("END:" + name)])
  {
  }

  lemma {:induction false} LayAllStands(children: seq<Component>)
    requires PrintableAll(children)
    ensures AllStanding(LayAll(children))
    decreases children, 0
  {
    if children != [] {
      LayStands(children[0]);
      LayAllStands(children[1..]);
      StandTogether(Lay(children[0]), LayAll(children[1..]));
    }
  }

  /** Reading the printed text's lines gives the tree's logical lines. */
  lemma {:induction false} UnfoldsToLines(c: Component)
    requires Printable(c)
    ensures Unfolded(Serialize(c)) == LinesOf(Lay(c))
  {
    WireFolds(c);
    LayStands(c);
    assert Lay(c)[0] == Unfoldable("BEGIN:" + c.name);
    UnfoldInvertsFold(Lay(c));
  }

  // ----- the parser on those lines -----

  lemma {:induction false} FeedConcat(read: Reader, s: State, a: seq<string>, b: seq<string>)
    requires Feed(read, s, a).Success?
    ensures Feed(read, s, a + b) == Feed(read, Feed(read, s, a).value, b)
    decreases |a|
  {
    if a == [] {
      assert a + b == b;
    } else {
      assert (a + b)[0] == a[0] && (a + b)[1..] == a[1..] + b;
      FeedConcat(read, read(s, a[0]).value, a[1..], b);
    }
  }

  lemma {:induction false} FeedOne(read: Reader, s: State, line: string, rest: seq<string>, next: State)
    requires read(s, line) == Success(next)
    ensures Feed(read, s, [line] + rest) == Feed(read, next, rest)
  {
    assert ([line] + rest)[1..] == rest;
  }

  /** A line with no group and no parameters. */
  lemma {:induction false} BareLine(name: string, value: string)
    requires NameToken(name)
    ensures ParseLine(name + ":" + value) == Success(ContentLine(None, name, [], value))
  {
    LineReadsBack(None, name, [], value);
    TokenUpper(name);
    assert NormalParams([]) == [];
    assert name + "" == name;
  }

  lemma {:induction false} TakesParsed(s: State, line: string, parsed: ContentLine, next: State)
    requires ParseLine(line) == Success(parsed) && Ical.TakeParsed(s, parsed) == Success(next)
    ensures Ical.TakeLine(s, line) == Success(next)
  {
  }

  lemma {:induction false} FeedSingle(read: Reader, s: State, line: string, next: State)
    requires read(s, line) == Success(next)
    ensures Feed(read, s, [line]) == Success(next)
  {
    assert [line][1..] == [];
  }

  /** A line without group or parameters, read on its own. */
  lemma {:induction false} BareReads(s: State, line: string, name: string, value: string, next: State)
    requires NameToken(name) && line == name + ":" + value
    requires Ical.TakeParsed(s, ContentLine(None, name, [], value)) == Success(next)
    ensures Ical.TakeLines(s, [line]) == Success(next)
  {
    BareLine(name, value);
    TakesParsed(s, line, ContentLine(None, name, [], value), next);
    FeedSingle(Ical.TakeLine, s, line, next);
  }

  lemma {:induction false} BeginParsed(s: State, name: string)
    requires PrintableName(name)
    ensures Ical.TakeParsed(s, ContentLine(None, "BEGIN", [], name)) == Success(Open(s, name))
    ensures NameToken("BEGIN")
  {
  }

  lemma {:induction false} BeginReads(s: State, name: string)
    requires PrintableName(name)
    ensures Ical.TakeLines(s, ["BEGIN:" + name]) == Success(Open(s, name))
  {
    BeginParsed(s, name);
    BareReads(s, "BEGIN:" + name, "BEGIN", name, Open(s, name));
  }

  lemma {:induction false} EndParsed(stack: seq<Frame>, f: Frame, top: Frame)
    requires PrintableName(f.name)
    ensures Ical.TakeParsed(State(stack + [f], top), ContentLine(None, "END", [], f.name))
         == Success(AddChild(State(stack, top), Build(f)))
    ensures NameToken("END")
  {
    assert (stack + [f])[..|stack|] == stack;
  }

  lemma {:induction false} EndReads(stack: seq<Frame>, f: Frame, top: Frame)
    requires PrintableName(f.name)
    ensures Ical.TakeLines(State(stack + [f], top), ["END:" + f.name])
         == Success(AddChild(State(stack, top), Component(f.name, f.properties, f.children)))
  {
    EndParsed(stack, f, top);
    BareReads(State(stack + [f], top), "END:" + f.name, "END", f.name, AddChild(State(stack, top), Build(f)));
  }

  lemma {:induction false} PropertyReads(s: State, p: Property)
    requires PrintableProperty(p)
    ensures Ical.TakeLine(s, PropertyLine(p)) == Success(AddProperty(s, NormalProperty(p)))
  {
    LineReadsBack(p.group, p.name, p.params, EncodeValue(p.name, p.params, p.value));
    PropertyParsed(s, p);
  }

  lemma {:induction false} PropertyParsed(s: State, p: Property)
    requires PrintableProperty(p)
    ensures var raw := EncodeValue(p.name, p.params, p.value);
      Ical.TakeParsed(s, ContentLine(p.group, p.name, NormalParams(p.params), raw))
        == Success(AddProperty(s, NormalProperty(p)))
  {
    KeysNormal(p.params);
    TokenStrips(p.name);
    TokenUpper(p.name);
  }

  lemma {:induction false} KeysNormal(params: seq<Param>)
    requires forall q :: q in params ==> KeyToken(q.name)
    ensures NormalizeParams(NormalParams(params)) == NormalParams(params)
  {
    var normal := NormalParams(params);
    forall q | q in normal ensures KeyToken(q.name) {
      var i :| 0 <= i < |normal| && normal[i] == q;
      assert params[i] in params;
    }
    NormalizeKeys(normal);
  }

  function WithProperties(f: Frame, properties: seq<Property>): Frame {
    f.(properties := f.properties + properties)
  }

  lemma {:induction false} WithMore(f: Frame, p: Property, rest: seq<Property>)
    ensures WithProperties(WithProperties(f, [p]), rest) == WithProperties(f, [p] + rest)
  {
    assert f.properties + [p] + rest == f.properties + ([p] + rest);
  }

  lemma {:induction false} PropertyLinesSplit(properties: seq<Property>)
    requires properties != []
    ensures LinesOf(PropertyLines(properties))
         == [PropertyLine(properties[0])] + LinesOf(PropertyLines(properties[1..]))
  {
    assert PropertyLines(properties)[1..] == PropertyLines(properties[1..]);
  }

  lemma {:induction false} NormalFirst(properties: seq<Property>)
    requires properties != []
    ensures NormalProperties(properties) == [NormalProperty(properties[0])] + NormalProperties(properties[1..])
  {
  }

  /** Any reader that takes each property's line adds them in order. */
  lemma {:induction false} PropertiesFeed(read: Reader, stack: seq<Frame>, f: Frame, top: Frame,
                                          properties: seq<Property>)
    requires forall p, s: State :: p in properties ==>
      read(s, PropertyLine(p)) == Success(AddProperty(s, NormalProperty(p)))
    ensures Feed(read, State(stack + [f], top), LinesOf(PropertyLines(properties)))
         == Success(State(stack + [WithProperties(f, NormalProperties(properties))], top))
    decreases |properties|
  {
    if properties == [] {
      assert f.properties + [] == f.properties;
    } else {
      var (p, rest) := (properties[0], properties[1..]);
      assert p in properties;
      var g := WithProperties(f, [NormalProperty(p)]);
      AddsToLast(stack, f, top, NormalProperty(p));
      PropertyLinesSplit(properties);
      FeedOne(read, State(stack + [f], top), PropertyLine(p), LinesOf(PropertyLines(rest)), State(stack + [g], top));
      PropertiesFeed(read, stack, g, top, rest);
      WithMore(f, NormalProperty(p), NormalProperties(rest));
      NormalFirst(properties);
    }
  }

  lemma {:induction false} PropertiesRead(stack: seq<Frame>, f: Frame, top: Frame, properties: seq<Property>)
    requires forall p :: p in properties ==> PrintableProperty(p)
    ensures Ical.TakeLines(State(stack + [f], top), LinesOf(PropertyLines(properties)))
         == Success(State(stack + [WithProperties(f, NormalProperties(properties))], top))
  {
    forall p, s: State | p in properties
      ensures Ical.TakeLine(s, PropertyLine(p)) == Success(AddProperty(s, NormalProperty(p)))
    {
      PropertyReads(s, p);
    }
    PropertiesFeed(Ical.TakeLine, stack, f, top, properties);
  }

  lemma {:induction false} AddsToLast(stack: seq<Frame>, f: Frame, top: Frame, p: Property)
    ensures AddProperty(State(stack + [f], top), p) == State(stack + [WithProperties(f, [p])], top)
  {
    assert (stack + [f])[|stack| := WithProperties(f, [p])] == stack + [WithProperties(f, [p])];
  }

  /** Reading the lines of a whole component adds exactly its normal form where the parser stands. */
  lemma {:induction false} ComponentReads(s: State, c: Component)
    requires Printable(c)
    ensures Ical.TakeLines(s, LinesOf(Lay(c))) == Success(AddChild(s, Normal(c)))
    decreases c, 1
  {
    var f0 := Frame(c.name, [], []);
    var f1 := Frame(c.name, NormalProperties(c.properties), []);
    var f2 := Frame(c.name, NormalProperties(c.properties), NormalAll(c.children));
    LinesOfComponent(c);
    BeginReads(s, c.name);
    PropertiesRead(s.stack, f0, s.top, c.properties);
    assert WithProperties(f0, NormalProperties(c.properties)) == f1;
    ChildrenRead(s.stack, f1, s.top, c.children);
    assert f1.(children := f1.children + NormalAll(c.children)) == f2;
    EndReads(s.stack, f2, s.top);
    FourRead(s, ["BEGIN:" + c.name], LinesOf(PropertyLines(c.properties)), LinesOf(LayAll(c.children)),
             ["END:" + c.name], State(s.stack + [f0], s.top), State(s.stack + [f1], s.top),
             State(s.stack + [f2], s.top), AddChild(s, Normal(c)));
  }

  lemma {:induction false} LinesOfComponent(c: Component)
    ensures LinesOf(Lay(c))
         == ["BEGIN:" + c.name] + LinesOf(PropertyLines(c.properties)) + LinesOf(LayAll(c.children))
            + ["END:" + c.name]
  {
    LinesOfFour([Unfoldable("BEGIN:" + c.name)], PropertyLines(c.properties), LayAll(c.children),
                [Unfoldable("END:" + c.name)]);
    UnfoldableStays("BEGIN:" + c.name);
    UnfoldableStays("END:" + c.name);
  }

  lemma {:induction false} LinesOfFour(a: seq<Laid>, b: seq<Laid>, c: seq<Laid>, d: seq<Laid>)
    ensures LinesOf(a + b + c + d) == LinesOf(a) + LinesOf(b) + LinesOf(c) + LinesOf(d)
  {
    FoldAllConcat(a, b);
    FoldAllConcat(a + b, c);
    FoldAllConcat(a + b + c, d);
  }

  lemma {:induction false} FourRead(s: State, a: seq<string>, b: seq<string>, c: seq<string>, d: seq<string>,
                                    s1: State, s2: State, s3: State, s4: State)
    requires Ical.TakeLines(s, a) == Success(s1) && Ical.TakeLines(s1, b) == Success(s2)
    requires Ical.TakeLines(s2, c) == Success(s3) && Ical.TakeLines(s3, d) == Success(s4)
    ensures Ical.TakeLines(s, a + b + c + d) == Success(s4)
  {
    FeedConcat(Ical.TakeLine, s, a, b);
    FeedConcat(Ical.TakeLine, s, a + b, c);
    FeedConcat(Ical.TakeLine, s, a + b + c, d);
  }

  lemma {:induction false} ChildrenRead(stack: seq<Frame>, f: Frame, top: Frame, children: seq<Component>)
    requires PrintableAll(children)
    ensures Ical.TakeLines(State(stack + [f], top), LinesOf(LayAll(children)))
         == Success(State(stack + [f.(children := f.children + NormalAll(children))], top))
    decreases children, 0
  {
    if children == [] {
      assert f.children + [] == f.children;
    } else {
      ComponentReads(State(stack + [f], top), children[0]);
      ChildrenRead(stack, f.(children := f.children + [Normal(children[0])]), top, children[1..]);
      ChildrenReadStep(stack, f, top, children);
    }
  }

  lemma {:induction false} ChildrenReadStep(stack: seq<Frame>, f: Frame, top: Frame, children: seq<Component>)
    requires children != []
    requires Ical.TakeLines(State(stack + [f], top), LinesOf(Lay(children[0])))
          == Success(AddChild(State(stack + [f], top), Normal(children[0])))
    requires var g := f.(children := f.children + [Normal(children[0])]);
      Ical.TakeLines(State(stack + [g], top), LinesOf(LayAll(children[1..])))
        == Success(State(stack + [g.(children := g.children + NormalAll(children[1..]))], top))
    ensures Ical.TakeLines(State(stack + [f], top), LinesOf(LayAll(children)))
         == Success(State(stack + [f.(children := f.children + NormalAll(children))], top))
  {
    var (c, rest) := (children[0], children[1..]);
    var g := f.(children := f.children + [Normal(c)]);
    AddsChildToLast(stack, f, top, Normal(c));
    ChildrenSplit(children);
    assert g.children + NormalAll(rest) == f.children + NormalAll(children);
    FeedTwo(Ical.TakeLine, State(stack + [f], top), LinesOf(Lay(c)), LinesOf(LayAll(rest)),
            State(stack + [g], top), State(stack + [g.(children := g.children + NormalAll(rest))], top));
  }

  lemma {:induction false} ChildrenSplit(children: seq<Component>)
    requires children != []
    ensures LinesOf(LayAll(children)) == LinesOf(Lay(children[0])) + LinesOf(LayAll(children[1..]))
    ensures NormalAll(children) == [Normal(children[0])] + NormalAll(children[1..])
  {
    FoldAllConcat(Lay(children[0]), LayAll(children[1..]));
  }

  lemma {:induction false} FeedTwo(read: Reader, s: State, a: seq<string>, b: seq<string>, s1: State, s2: State)
    requires Feed(read, s, a) == Success(s1) && Feed(read, s1, b) == Success(s2)
    ensures Feed(read, s, a + b) == Success(s2)
  {
    FeedConcat(read, s, a, b);
  }

  lemma {:induction false} AddsChildToLast(stack: seq<Frame>, f: Frame, top: Frame, c: Component)
    ensures AddChild(State(stack + [f], top), c) == State(stack + [f.(children := f.children + [c])], top)
  {
    var g := f.(children := f.children + [c]);
    assert (stack + [f])[|stack| := g] == stack + [g];
  }

  /** Printing and parsing a tree gives its normal form. */
  lemma {:induction false} ParseSerialize(c: Component)
    requires Printable(c)
    ensures Parsed(Serialize(c)) == Success(Normal(c))
  {
    UnfoldsToLines(c);
    ComponentReads(START, c);
    assert [] + [Normal(c)] == [Normal(c)];
  }
}
