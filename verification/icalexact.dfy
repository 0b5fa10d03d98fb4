/** Exactly which component trees survive printing and parsing unchanged, and how long the printed lines are. */
module IcalExact {
  import opened Wrappers
  import opened Sequences
  import opened Text
  import opened TextProps
  import opened Folding
  import opened Escaping
  import opened ContentLines
  import opened LineRoundTrip
  import opened Ical
  import opened IcalRoundTrip

  /** No quotes or line breaks, and no blanks at the edges of a part that is written without quotes. */
  ghost predicate CleanParam(p: Param) {
    && QUOTE !in p.value && NoBreaks(p.value)
    && forall part :: part in WrittenParts(p.name, p.value) ==> NeedsQuotes(part) || Strip(part) == part
  }

  ghost predicate CleanProperty(p: Property) {
    && (forall q :: q in p.params ==> CleanParam(q))
    && (IsTextValue(p.name, p.params) ==> CR !in p.value)
  }

  ghost predicate Clean(c: Component)
    decreases c, 1
  {
    (forall p :: p in c.properties ==> CleanProperty(p)) && CleanAll(c.children)
  }

  ghost predicate CleanAll(children: seq<Component>)
    decreases children, 0
  {
    children == [] || (Clean(children[0]) && CleanAll(children[1..]))
  }

  lemma {:induction false} NormalPartsSame(parts: seq<string>)
    ensures NormalParts(parts) == parts <==> forall p :: p in parts ==> NeedsQuotes(p) || Strip(p) == p
  {
    if NormalParts(parts) == parts {
      forall p | p in parts ensures NeedsQuotes(p) || Strip(p) == p {
        var i :| 0 <= i < |parts| && parts[i] == p;
        assert NormalParts(parts)[i] == NormalPart(parts[i]);
      }
    }
  }

  /** A value's parts are found again in its normal form. */
  lemma {:induction false} PartsOfNormal(key: string, value: string)
    requires CleanValue(value) == value
    ensures NormalValue(key, value) == value <==> NormalParts(WrittenParts(key, value)) == WrittenParts(key, value)
  {
    var parts := WrittenParts(key, value);
    WrittenPartsPlain(key, value);
    JoinSplit(value, ',');
    if IsMultiValued(key) {
      forall p | p in NormalParts(parts) ensures ',' !in p {
        var i :| 0 <= i < |parts| && NormalParts(parts)[i] == p;
        assert parts[i] in parts;
      }
      SplitJoin(NormalParts(parts), ',');
      SplitJoin(parts, ',');
    }
  }

  lemma {:induction false} CleanValueSame(value: string)
    requires QUOTE !in value && NoBreaks(value)
    ensures CleanValue(value) == value
  {
    ReplaceCharNone(value, QUOTE, "'");
    ReplaceCharNone(value, CR, " ");
    ReplaceCharNone(value, LF, " ");
  }

  lemma {:induction false} PartStaysPlain(part: string)
    requires QUOTE !in part && NoBreaks(part)
    ensures QUOTE !in NormalPart(part) && NoBreaks(NormalPart(part))
  {
  }

  lemma {:induction false} NormalValuePlain(key: string, value: string)
    ensures QUOTE !in NormalValue(key, value) && NoBreaks(NormalValue(key, value))
  {
    WrittenPartsPlain(key, value);
    CleanHasNoQuotes(value);
    var written := WrittenParts(key, value);
    var parts := NormalParts(written);
    assert forall p, c :: p in written && c in p ==> c in CleanValue(value);
    forall p | p in parts ensures QUOTE !in p && NoBreaks(p) {
      var i :| 0 <= i < |parts| && parts[i] == p;
      assert written[i] in written;
      PartStaysPlain(written[i]);
    }
    JoinNoBreaks(parts, ",");
    JoinNoQuotes(parts, ",");
  }

  lemma {:induction false} JoinNoQuotes(parts: seq<string>, sep: string)
    requires QUOTE !in sep && forall p :: p in parts ==> QUOTE !in p
    ensures QUOTE !in Join(parts, sep)
  {
    if parts != [] {
      assert QUOTE !in parts[0];
      if |parts| > 1 {
        JoinNoQuotes(parts[1..], sep);
      }
    }
  }

  /** A parameter value reads back as it was written exactly when it is clean. */
  lemma {:induction false} NormalValueExact(p: Param)
    ensures NormalValue(p.name, p.value) == p.value <==> CleanParam(p)
  {
    if QUOTE !in p.value && NoBreaks(p.value) {
      CleanValueSame(p.value);
      PartsOfNormal(p.name, p.value);
      NormalPartsSame(WrittenParts(p.name, p.value));
    } else {
      NormalValuePlain(p.name, p.value);
    }
  }

  lemma {:induction false} NormalParamsExact(params: seq<Param>)
    ensures NormalParams(params) == params <==> forall q :: q in params ==> CleanParam(q)
  {
    if NormalParams(params) == params {
      forall q | q in params ensures CleanParam(q) {
        var i :| 0 <= i < |params| && params[i] == q;
        assert NormalParams(params)[i] == params[i];
        NormalValueExact(q);
      }
    } else if forall q :: q in params ==> CleanParam(q) {
      forall i | 0 <= i < |params| ensures NormalParams(params)[i] == params[i] {
        assert params[i] in params;
        NormalValueExact(params[i]);
      }
    }
  }

  lemma {:induction false} NormalPropertyExact(p: Property)
    ensures NormalProperty(p) == p <==> CleanProperty(p)
  {
    NormalParamsExact(p.params);
    if IsTextValue(p.name, p.params) {
      UnescapeInvertsEscape(p.value);
      LinesChanges(p.value);
    }
  }

  lemma {:induction false} NormalPropertiesExact(properties: seq<Property>)
    ensures NormalProperties(properties) == properties <==> forall p :: p in properties ==> CleanProperty(p)
  {
    if NormalProperties(properties) == properties {
      forall p | p in properties ensures CleanProperty(p) {
        var i :| 0 <= i < |properties| && properties[i] == p;
        assert NormalProperties(properties)[i] == properties[i];
        NormalPropertyExact(p);
      }
    } else if forall p :: p in properties ==> CleanProperty(p) {
      forall i | 0 <= i < |properties| ensures NormalProperties(properties)[i] == properties[i] {
        assert properties[i] in properties;
        NormalPropertyExact(properties[i]);
      }
    }
  }

  lemma {:induction false} ConsEqual<T>(x: T, a: seq<T>, y: T, b: seq<T>)
    ensures [x] + a == [y] + b <==> x == y && a == b
  {
    if [x] + a == [y] + b {
      assert ([x] + a)[0] == x && ([y] + b)[0] == y && ([x] + a)[1..] == a && ([y] + b)[1..] == b;
    }
  }

  lemma {:induction false} NormalExact(c: Component)
    ensures Normal(c) == c <==> Clean(c)
    decreases c, 1
  {
    NormalPropertiesExact(c.properties);
    NormalAllExact(c.children);
  }

  lemma {:induction false} NormalAllExact(children: seq<Component>)
    ensures NormalAll(children) == children <==> CleanAll(children)
    decreases children, 0
  {
    if children != [] {
      NormalExact(children[0]);
      NormalAllExact(children[1..]);
      var (c, rest) := (children[0], children[1..]);
      ConsEqual(Normal(c), NormalAll(rest), c, rest);
      assert children == [c] + rest;
      assert CleanAll(children) <==> Clean(c) && CleanAll(rest);
    }
  }

  /** A printable tree parses back to itself if and only if it is clean. */
  lemma {:induction false} RoundTripsExactly(c: Component)
    requires Printable(c)
    ensures Parsed(Serialize(c)) == Success(c) <==> Clean(c)
  {
    ParseSerialize(c);
    NormalExact(c);
  }

  // ----- line lengths -----

  ghost predicate ShortNames(c: Component)
    decreases c, 1
  {
    Octets("BEGIN:" + c.name) <= FOLD_LIMIT && ShortNamesAll(c.children)
  }

  ghost predicate ShortNamesAll(children: seq<Component>)
    decreases children, 0
  {
    children == [] || (ShortNames(children[0]) && ShortNamesAll(children[1..]))
  }

  ghost predicate AllShort(laid: seq<Laid>) {
    forall p :: p in AllPhysical(laid) ==> Octets(p) <= FOLD_LIMIT
  }

  lemma {:induction false} PhysicalConcat(a: seq<Laid>, b: seq<Laid>)
    ensures AllPhysical(a + b) == AllPhysical(a) + AllPhysical(b)
  {
    if a == [] {
      assert a + b == b;
    } else {
      PhysicalConcat(a[1..], b);
      assert (a + b)[0] == a[0] && (a + b)[1..] == a[1..] + b;
      Assoc(Physical(a[0].line, a[0].limit), AllPhysical(a[1..]), AllPhysical(b));
    }
  }

  lemma {:induction false} ShortConcat(a: seq<Laid>, b: seq<Laid>)
    ensures AllShort(a + b) <==> AllShort(a) && AllShort(b)
  {
    PhysicalConcat(a, b);
    assert forall p :: p in AllPhysical(a + b) <==> p in AllPhysical(a) || p in AllPhysical(b);
  }

  lemma {:induction false} UnfoldableShort(line: string)
    ensures AllShort([Unfoldable(line)]) <==> Octets(line) <= FOLD_LIMIT
  {
    ShortLineUnfolded(line, 5 + Octets(line), "", 5 + Octets(line));
    assert "" + line == line;
    assert [Unfoldable(line)][1..] == [];
    assert AllPhysical([Unfoldable(line)]) == [line];
    assert line in [line];
  }

  lemma {:induction false} PropertyLinesShort(properties: seq<Property>)
    ensures AllShort(PropertyLines(properties))
  {
    if properties != [] {
      FoldBounds(PropertyLine(properties[0]), FOLD_LIMIT);
      PropertyLinesShort(properties[1..]);
      assert PropertyLines(properties)[1..] == PropertyLines(properties[1..]);
    }
  }

  lemma {:induction false} LayShort(c: Component)
    ensures AllShort(Lay(c)) <==> ShortNames(c)
    decreases c, 1
  {
    var (first, last) := ([Unfoldable("BEGIN:" + c.name)], [Unfoldable("END:" + c.name)]);
    var (props, kids) := (PropertyLines(c.properties), LayAll(c.children));
    BorderSizes(c.name);
    UnfoldableShort("BEGIN:" + c.name);
    UnfoldableShort("END:" + c.name);
    PropertyLinesShort(c.properties);
    LayAllShort(c.children);
    ShortConcat(first, props);
    ShortConcat(first + props, kids);
    ShortConcat(first + props + kids, last);
  }

  lemma {:induction false} BorderSizes(name: string)
    ensures Octets("BEGIN:" + name) == 6 + Octets(name) && Octets("END:" + name) == 4 + Octets(name)
  {
    OctetsConcat("BEGIN:", name);
    OctetsConcat("END:", name);
    AsciiOctets("BEGIN:");
    AsciiOctets("END:");
  }

  lemma {:induction false} AsciiOctets(s: string)
    requires forall i :: 0 <= i < |s| ==> s[i] as int < 0x80
    ensures Octets(s) == |s|
  {
    if s != "" {
      AsciiOctets(s[..|s| - 1]);
    }
  }

  lemma {:induction false} LayAllShort(children: seq<Component>)
    ensures AllShort(LayAll(children)) <==> ShortNamesAll(children)
    decreases children, 0
  {
    if children != [] {
      LayShort(children[0]);
      LayAllShort(children[1..]);
      ShortConcat(Lay(children[0]), LayAll(children[1..]));
    }
  }

  /** The physical lines of a printed tree, and what follows its last break. */
  lemma {:induction false} SerializedLines(c: Component)
    requires Printable(c)
    ensures Split(OneBreak(Serialize(c)), LF) == AllPhysical(Lay(c)) + [""]
  {
    var parts := AllPhysical(Lay(c));
    WireFolds(c);
    LayStands(c);
    JoinFolded(Lay(c));
    AllPhysicalClean(Lay(c));
    assert parts != [] by {
      assert Lay(c)[0] == Unfoldable("BEGIN:" + c.name);
    }
    JoinConcat(parts, [""], CRLF);
    assert Join(parts, CRLF) + CRLF + "" == Serialize(c);
    SplitLines(parts + [""]);
  }

  /** No printed line is longer than 75 octets exactly when every component name fits its unfolded BEGIN line. */
  lemma {:induction false} SerializeBounds(c: Component)
    requires Printable(c)
    ensures (forall p :: p in Split(OneBreak(Serialize(c)), LF) ==> Octets(p) <= FOLD_LIMIT) <==> ShortNames(c)
  {
    var parts := AllPhysical(Lay(c));
    SerializedLines(c);
    LayShort(c);
    assert forall p :: p in parts + [""] <==> p in parts || p == "";
  }

  /** A name of 70 octets, which parses back but prints a line of 76. */
  lemma {:induction false} LongNameOverflows()
    ensures var c := Component(seq(70, _ => 'X'), [], []);
      Printable(c) && exists p :: p in Split(OneBreak(Serialize(c)), LF) && Octets(p) > FOLD_LIMIT
  {
    var c := Component(seq(70, _ => 'X'), [], []);
    AsciiOctets(c.name);
    BorderSizes(c.name);
    SerializeBounds(c);
  }
}
