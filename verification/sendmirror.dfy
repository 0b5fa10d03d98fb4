/** The archive of everything sent to the device: nothing in it is ever overwritten. */
module SendMirror {
  import opened Wrappers
  import opened Bytes
  import opened Text

  /** A file's place below the mirror root. */
  type Place = p: seq<string> | p != [] witness ["_unnamed"]

  type Content = seq<Byte>

  type Files = map<Place, Content>

  const MANIFEST_NAME := "sent-manifest.jsonl"
  const MANIFEST: Place := [MANIFEST_NAME]

  /** Files and folders of these names restore leaves out, at any depth. */
  const EXCLUDED_NAMES := {MANIFEST_NAME, "backup-manifest.json", ".DS_Store"}

  // ----- where a device path is kept -----

  function LocalName(name: string): string {
    var cleaned := Strip(Replace(Replace(Replace(Replace(name, "/", "_"), "\\", "_"), ":", "_"), "\0", ""));
    if forall c | c in cleaned :: c == '.' then "_" + (if cleaned == "" then "unnamed" else cleaned) else cleaned
  }

  function LocalNames(parts: seq<string>): seq<string> {
    if parts == [] then []
    else (if parts[0] == "" then [] else [LocalName(parts[0])]) + LocalNames(parts[1..])
  }

  function TargetFor(devicePath: string): Place {
    var parts := LocalNames(Split(devicePath, '\\'));
    if parts == [] then ["_unnamed"] else parts
  }

  // ----- names -----

  /** The zeros of the other scripts' decimal digits (category Nd of Unicode 14), each followed by one to nine. */
  const OTHER_ZEROS := [
    0x0660, 0x06F0, 0x07C0, 0x0966, 0x09E6, 0x0A66, 0x0AE6, 0x0B66, 0x0BE6, 0x0C66, 0x0CE6, 0x0D66, 0x0DE6,
    0x0E50, 0x0ED0, 0x0F20, 0x1040, 0x1090, 0x17E0, 0x1810, 0x1946, 0x19D0, 0x1A80, 0x1A90, 0x1B50, 0x1BB0,
    0x1C40, 0x1C50, 0xA620, 0xA8D0, 0xA900, 0xA9D0, 0xA9F0, 0xAA50, 0xABF0, 0xFF10, 0x1_04A0, 0x1_0D30,
    0x1_1066, 0x1_10F0, 0x1_1136, 0x1_11D0, 0x1_12F0, 0x1_1450, 0x1_14D0, 0x1_1650, 0x1_16C0, 0x1_1730,
    0x1_18E0, 0x1_1950, 0x1_1C50, 0x1_1D50, 0x1_1DA0, 0x1_6A60, 0x1_6AC0, 0x1_6B50, 0x1_D7CE, 0x1_D7D8,
    0x1_D7E2, 0x1_D7EC, 0x1_D7F6, 0x1_E140, 0x1_E2F0, 0x1_E950, 0x1_FBF0
  ]

  predicate IsOtherDigit(c: char) { exists z :: z in OTHER_ZEROS && z <= c as int < z + 10 }

  /** What `\d` matches. */
  predicate IsDigit(c: char) { '0' <= c <= '9' || IsOtherDigit(c) }

  predicate AllDigits(s: string) { forall c | c in s :: IsDigit(c) }

  /** YYYYMMDD-HHMMSS */
  predicate IsStamp(s: string) { |s| == 15 && AllDigits(s[..8]) && s[8] == '-' && AllDigits(s[9..]) }

  function Digit(n: nat): char
    requires n < 10
  {
    ('0' as int + n) as char
  }

  function Decimal(n: nat): (s: string)
    ensures s != "" && AllDigits(s)
  {
    if n < 10 then [Digit(n)] else Decimal(n / 10) + [Digit(n % 10)]
  }

  /** Where the last dot of a name is, or -1. */
  function LastDot(name: string): (i: int)
    ensures -1 <= i < |name|
    ensures i >= 0 ==> name[i] == '.'
  {
    if name == "" then -1
    else if name[|name| - 1] == '.' then |name| - 1
    else LastDot(name[..|name| - 1])
  }

  lemma {:induction false} LastDotIsLast(name: string, k: int)
    requires LastDot(name) < k < |name|
    ensures name[k] != '.'
  {
    if k < |name| - 1 {
      LastDotIsLast(name[..|name| - 1], k);
    }
  }

  predicate HasSuffix(name: string) { 0 < LastDot(name) < |name| - 1 }

  function Stem(name: string): string { if HasSuffix(name) then name[..LastDot(name)] else name }

  function Suffix(name: string): string { if HasSuffix(name) then name[LastDot(name)..] else "" }

  function WithName(place: Place, name: string): Place { place[..|place| - 1] + [name] }

  function NameOf(place: Place): string { place[|place| - 1] }

  /** The sibling tried after `counter - 1` others; the first has no counter. */
  function Candidate(target: Place, stamp: string, counter: nat): Place {
    var name := NameOf(target);
    WithName(target, Stem(name) + "." + stamp + (if counter == 0 then "" else "-" + Decimal(counter)) + Suffix(name))
  }

  // ----- the restore filter -----

  /** The rest of an archived name after its counter: nothing, or one suffix. */
  predicate IsTail(rest: string) { rest == "" || rest == "\n" || (rest[0] == '.' && '.' !in rest[1..]) }

  predicate IsCounted(rest: string) {
    || IsTail(rest)
    || (rest != "" && rest[0] == '-' && exists k :: 2 <= k <= |rest| && AllDigits(rest[1..k]) && IsTail(rest[k..]))
  }

  /** `\.\d{8}-\d{6}(-\d+)?(\.[^.]*)?$` occurs in the name. */
  predicate IsArchivedVersion(name: string) {
    exists i :: 0 <= i <= |name| - 16 && name[i] == '.' && IsStamp(name[i + 1..i + 16]) && IsCounted(name[i + 16..])
  }

  // ----- the archive -----

  /** Some file is below this place. */
  predicate IsFolder(files: Files, place: Place) { exists p :: p in files && place <= p && place != p }

  predicate Exists(files: Files, place: Place) { place in files || IsFolder(files, place) }

  /** A file is in the way of one of the target's folders, or the target is itself a folder. */
  predicate Blocked(files: Files, target: Place) {
    IsFolder(files, target) || exists p :: p in files && p <= target && p != target
  }

  datatype Entry = Entry(devicePath: string, content: Content, repeated: bool)

  /** The manifest is one of the files; a line is appended to whatever is in its place. */
  function WithLine(files: Files, line: Option<Content>): Files {
    match line
    case None => files
    case Some(l) => files[MANIFEST := (if MANIFEST in files then files[MANIFEST] else []) + l]
  }

  class Mirror {
    var files: Files
    const jsonLine: Entry -> Content

    constructor (jsonLine: Entry -> Content)
      ensures files == map[] && this.jsonLine == jsonLine
    {
      files, this.jsonLine := map[], jsonLine;
    }

    /** The first of the candidate names that is not taken. */
    method ArchivedName(target: Place, stamp: string) returns (place: Place)
      requires IsStamp(stamp)
      ensures IsFirstFree(files, target, stamp, place)
    {
      var counter: nat := 0;
      place := Candidate(target, stamp, counter);
      ghost var tried: set<Place> := {};
      while Exists(files, place)
        invariant place == Candidate(target, stamp, counter)
        invariant Searching(files, target, stamp, counter, tried)
        decreases |Taken(files)| - |tried|
      {
        tried := OneMoreTried(files, target, stamp, counter, tried);
        counter := counter + 1;
        place := Candidate(target, stamp, counter);
      }
    }

    /**
     * `mirror_sent`: the place of the archived copy, or nothing when files are in its way, and nothing after
     * archiving it when there is a folder in the manifest's place.
     */
    method MirrorSent(data: Content, devicePath: string, stamp: string) returns (kept: Option<Place>)
      requires IsStamp(stamp)
      modifies this
      ensures old(Blocked(files, TargetFor(devicePath))) ==> kept.None? && files == old(files)
      ensures !old(Blocked(files, TargetFor(devicePath))) ==>
        && var target := TargetFor(devicePath);
        && var entry := Entry(devicePath, data, target in old(files) && old(files)[target] == data);
        && kept == (if IsFolder(files, MANIFEST) then None else Some(target))
        && var line := if kept.None? then None else Some(jsonLine(entry));
        && Step(old(files), files, Sending(target, stamp, data, line))
    {
      var target := TargetFor(devicePath);
      if Blocked(files, target) {
        return None;
      }
      ghost var before := files;
      var repeated := false;
      if target in files {
        if files[target] == data {
          repeated := true;
          assert files == before[target := data];
        } else {
          var aside := ArchivedName(target, stamp);
          files := (files - {target})[aside := files[target]];
          assert files[target := data] == before[aside := before[target]][target := data];
        }
      }
      if !repeated {
        files := files[target := data];
      }
      ghost var archived := files;
      assert Sent(before, archived, target, stamp, data);
      if IsFolder(files, MANIFEST) {
        assert Step(before, files, Sending(target, stamp, data, None));
        return None;
      }
      var line := Some(jsonLine(Entry(devicePath, data, repeated)));
      files := WithLine(files, line);
      FolderStays(archived, line);
      assert Step(before, files, Sending(target, stamp, data, line));
      return Some(target);
    }
  }

  lemma {:induction false} FolderStays(files: Files, line: Option<Content>)
    ensures IsFolder(WithLine(files, line), MANIFEST) <==> IsFolder(files, MANIFEST)
  {
    var after := WithLine(files, line);
    if p :| p in after && MANIFEST <= p && MANIFEST != p {
      assert p in files;
    }
    if p :| p in files && MANIFEST <= p && MANIFEST != p {
      assert p in after;
    }
  }

  // ----- sending -----

  /** What one send does to the archive: other content moves aside, then the new content takes the place. */
  ghost predicate Sent(before: Files, after: Files, target: Place, stamp: string, data: Content) {
    if target in before && before[target] != data then
      exists aside ::
        IsFirstFree(before, target, stamp, aside) && after == before[aside := before[target]][target := data]
    else after == before[target := data]
  }

  /** One send: its target, and the line logged for it, if there could be one. */
  datatype Sending = Sending(target: Place, stamp: string, data: Content, line: Option<Content>)

  ghost predicate Step(before: Files, after: Files, s: Sending) {
    exists mid :: Sent(before, mid, s.target, s.stamp, s.data) && after == WithLine(mid, s.line)
  }

  // ----- the name search ends -----

  ghost function Taken(files: Files): set<Place> {
    set p, n | p in files && 0 < n <= |p| :: p[..n]
  }

  lemma {:induction false} TakenExists(files: Files, place: Place)
    ensures Exists(files, place) ==> place in Taken(files)
  {
    if Exists(files, place) {
      var p :| p in files && place <= p;
      assert place == p[..|place|];
    }
  }

  lemma {:induction false} Smaller(a: set<Place>, b: set<Place>)
    requires a <= b
    ensures |a| <= |b|
  {
    if a != {} {
      var x :| x in a;
      Smaller(a - {x}, b - {x});
    }
  }

  lemma {:induction false} DecimalInjective(m: nat, n: nat)
    requires Decimal(m) == Decimal(n)
    ensures m == n
  {
    assert Decimal(m)[|Decimal(m)| - 1] == Digit(m % 10);
    assert Decimal(n)[|Decimal(n)| - 1] == Digit(n % 10);
    if m >= 10 && n >= 10 {
      assert Decimal(m)[..|Decimal(m)| - 1] == Decimal(m / 10);
      assert Decimal(n)[..|Decimal(n)| - 1] == Decimal(n / 10);
      DecimalInjective(m / 10, n / 10);
    }
  }

  lemma {:induction false} Cancel(a: string, x: string, y: string, b: string)
    requires a + x + b == a + y + b
    ensures x == y
  {
    assert |x| == |y|;
    assert (a + x + b)[|a|..|a| + |x|] == x && (a + y + b)[|a|..|a| + |y|] == y;
  }

  /** Different counters give different names. */
  lemma {:induction false} CandidatesDiffer(target: Place, stamp: string, j: nat, k: nat)
    requires j != k
    ensures Candidate(target, stamp, j) != Candidate(target, stamp, k)
  {
    if Candidate(target, stamp, j) == Candidate(target, stamp, k) {
      var name := NameOf(target);
      var x, y := if j == 0 then "" else "-" + Decimal(j), if k == 0 then "" else "-" + Decimal(k);
      var last := |target| - 1;
      assert Candidate(target, stamp, j)[last] == Stem(name) + "." + stamp + x + Suffix(name);
      assert Candidate(target, stamp, k)[last] == Stem(name) + "." + stamp + y + Suffix(name);
      Cancel(Stem(name) + "." + stamp, x, y, Suffix(name));
      if j != 0 && k != 0 {
        assert x[1..] == Decimal(j) && y[1..] == Decimal(k);
        DecimalInjective(j, k);
      }
    }
  }

  lemma {:induction false} NotTried(target: Place, stamp: string, counter: nat, tried: set<Place>)
    requires forall p | p in tried :: exists k: nat :: k < counter && p == Candidate(target, stamp, k)
    ensures Candidate(target, stamp, counter) !in tried
  {
    if Candidate(target, stamp, counter) in tried {
      var k: nat :| k < counter && Candidate(target, stamp, counter) == Candidate(target, stamp, k);
      CandidatesDiffer(target, stamp, counter, k);
    }
  }

  ghost predicate AllTaken(files: Files, target: Place, stamp: string, counter: nat) {
    forall k: nat | k < counter :: Exists(files, Candidate(target, stamp, k))
  }

  ghost predicate IsFirstFree(files: Files, target: Place, stamp: string, place: Place) {
    && !Exists(files, place)
    && exists counter: nat :: place == Candidate(target, stamp, counter) && AllTaken(files, target, stamp, counter)
  }

  ghost predicate Searching(files: Files, target: Place, stamp: string, counter: nat, tried: set<Place>) {
    && AllTaken(files, target, stamp, counter)
    && tried <= Taken(files)
    && |tried| <= |Taken(files)|
    && forall p | p in tried :: exists k: nat :: k < counter && p == Candidate(target, stamp, k)
  }

  lemma {:induction false} OneMoreTried(files: Files, target: Place, stamp: string, counter: nat, tried: set<Place>)
      returns (more: set<Place>)
    requires Searching(files, target, stamp, counter, tried)
    requires Exists(files, Candidate(target, stamp, counter))
    ensures Searching(files, target, stamp, counter + 1, more) && |more| == |tried| + 1
  {
    var place := Candidate(target, stamp, counter);
    more := tried + {place};
    TakenExists(files, place);
    NotTried(target, stamp, counter, tried);
    Smaller(more, Taken(files));
  }

  // ----- archived names are recognised -----

  lemma {:induction false} SuffixIsTail(name: string)
    ensures IsTail(Suffix(name))
  {
    if HasSuffix(name) {
      var suffix := Suffix(name);
      forall k | 0 <= k < |suffix[1..]|
        ensures suffix[1..][k] != '.'
      {
        LastDotIsLast(name, LastDot(name) + 1 + k);
      }
    }
  }

  lemma {:induction false} StampFound(front: string, stamp: string, rest: string)
    requires IsStamp(stamp) && IsCounted(rest)
    ensures IsArchivedVersion(front + "." + stamp + rest)
  {
    var name, i := front + "." + stamp + rest, |front|;
    assert name[i] == '.' && name[i + 1..i + 16] == stamp && name[i + 16..] == rest;
  }

  /** Restore leaves out every name the archive makes. */
  lemma {:induction false} ArchivesRecognised(target: Place, stamp: string, counter: nat)
    requires IsStamp(stamp)
    ensures IsArchivedVersion(NameOf(Candidate(target, stamp, counter)))
  {
    var name := NameOf(target);
    SuffixIsTail(name);
    var suffix := Suffix(name);
    if counter == 0 {
      StampFound(Stem(name), stamp, suffix);
      assert Stem(name) + "." + stamp + "" + suffix == Stem(name) + "." + stamp + suffix;
    } else {
      var number := "-" + Decimal(counter);
      var rest := number + suffix;
      assert rest[1..|number|] == Decimal(counter) && rest[|number|..] == suffix;
      StampFound(Stem(name), stamp, rest);
      assert Stem(name) + "." + stamp + number + suffix == Stem(name) + "." + stamp + rest;
    }
  }

  // ----- whole runs -----

  /** The archive's states over a run of sends. */
  ghost predicate Run(states: seq<Files>, sends: seq<Sending>) {
    && |states| == |sends| + 1
    && forall i | 0 <= i < |sends| :: IsStamp(sends[i].stamp) && Step(states[i], states[i + 1], sends[i])
  }

  /** Some file other than the manifest holds exactly this. */
  ghost predicate Present(files: Files, data: Content) { exists p :: p in files && p != MANIFEST && files[p] == data }

  /** The manifest's name has no room for a stamp. */
  lemma {:induction false} ManifestIsNotArchived()
    ensures !IsArchivedVersion(MANIFEST_NAME)
  {
    assert forall i | 0 <= i <= |MANIFEST_NAME| - 16 :: MANIFEST_NAME[i] != '.';
  }

  lemma {:induction false} AsideIsArchived(files: Files, target: Place, stamp: string, aside: Place)
    requires IsStamp(stamp) && IsFirstFree(files, target, stamp, aside)
    ensures IsArchivedVersion(NameOf(aside)) && aside != MANIFEST && aside !in files
  {
    var counter: nat :| aside == Candidate(target, stamp, counter);
    ArchivesRecognised(target, stamp, counter);
    ManifestIsNotArchived();
    assert NameOf(MANIFEST) == MANIFEST_NAME;
  }

  lemma {:induction false} SentKeeps(before: Files, after: Files, target: Place, stamp: string, data: Content)
    requires IsStamp(stamp) && Sent(before, after, target, stamp, data)
    ensures target in after && after[target] == data
    ensures forall p | p in before && p != target :: p in after && after[p] == before[p]
    ensures target in before && target != MANIFEST ==> Present(after, before[target])
    ensures forall p | p in after && p !in before && p != target :: IsArchivedVersion(NameOf(p))
  {
    if target in before && before[target] != data {
      var aside :| IsFirstFree(before, target, stamp, aside)
                   && after == before[aside := before[target]][target := data];
      AsideIsArchived(before, target, stamp, aside);
      assert aside in after && after[aside] == before[target];
    }
  }

  /** What one send does outside the manifest. */
  lemma {:induction false} StepKeeps(before: Files, after: Files, s: Sending)
    requires IsStamp(s.stamp) && Step(before, after, s)
    ensures s.target != MANIFEST ==> s.target in after && after[s.target] == s.data
    ensures forall p | p in before && p != s.target && p != MANIFEST :: p in after && after[p] == before[p]
    ensures s.target in before && s.target != MANIFEST ==> Present(after, before[s.target])
    ensures forall p | p in after && p !in before && p != s.target && p != MANIFEST :: IsArchivedVersion(NameOf(p))
  {
    var mid :| Sent(before, mid, s.target, s.stamp, s.data) && after == WithLine(mid, s.line);
    SentKeeps(before, mid, s.target, s.stamp, s.data);
    forall content | Present(mid, content)
      ensures Present(after, content)
    {
      var p :| p in mid && p != MANIFEST && mid[p] == content;
      assert p in after && after[p] == content;
    }
  }

  lemma {:induction false} StaysPresent(before: Files, after: Files, s: Sending, content: Content)
    requires IsStamp(s.stamp) && Step(before, after, s) && Present(before, content)
    ensures Present(after, content)
  {
    StepKeeps(before, after, s);
    var p :| p in before && p != MANIFEST && before[p] == content;
    if p != s.target {
      assert p in after && after[p] == content;
    }
  }

  lemma {:induction false} PresentFrom(states: seq<Files>, sends: seq<Sending>, i: nat, j: nat, content: Content)
    requires Run(states, sends) && i <= j < |states| && Present(states[i], content)
    ensures Present(states[j], content)
    decreases j - i
  {
    if i < j {
      StaysPresent(states[i], states[i + 1], sends[i], content);
      PresentFrom(states, sends, i + 1, j, content);
    }
  }

  /** Whatever was sent, other than to the manifest's place, and whatever was there before is still there at the end. */
  lemma {:induction false} NothingLost(states: seq<Files>, sends: seq<Sending>)
    requires Run(states, sends)
    ensures forall i | 0 <= i < |sends| && sends[i].target != MANIFEST :: Present(states[|sends|], sends[i].data)
    ensures forall p | p in states[0] && p != MANIFEST :: Present(states[|sends|], states[0][p])
  {
    forall i | 0 <= i < |sends| && sends[i].target != MANIFEST
      ensures Present(states[|sends|], sends[i].data)
    {
      StepKeeps(states[i], states[i + 1], sends[i]);
      assert Present(states[i + 1], sends[i].data);
      PresentFrom(states, sends, i + 1, |sends|, sends[i].data);
    }
    forall p | p in states[0] && p != MANIFEST
      ensures Present(states[|sends|], states[0][p])
    {
      assert Present(states[0], states[0][p]);
      PresentFrom(states, sends, 0, |sends|, states[0][p]);
    }
  }

  /** The index of the last of the first `n` sends to a place, or -1. */
  function LastSend(sends: seq<Sending>, n: nat, p: Place): (i: int)
    requires n <= |sends|
    ensures -1 <= i < n
    ensures i >= 0 ==> sends[i].target == p
  {
    if n == 0 then -1 else if sends[n - 1].target == p then n - 1 else LastSend(sends, n - 1, p)
  }

  lemma {:induction false} NoneLater(sends: seq<Sending>, n: nat, p: Place, j: nat)
    requires j < n <= |sends| && LastSend(sends, n, p) < j
    ensures sends[j].target != p
  {
    if j < n - 1 {
      NoneLater(sends, n - 1, p, j);
    }
  }

  /** Over any starting archive and any sends, a target other than the manifest holds the last payload sent to it. */
  lemma {:induction false} HoldsTheLast(states: seq<Files>, sends: seq<Sending>, n: nat, p: Place)
    requires Run(states, sends) && n <= |sends| && p != MANIFEST
    ensures LastSend(sends, n, p) >= 0 ==> p in states[n] && states[n][p] == sends[LastSend(sends, n, p)].data
    ensures LastSend(sends, n, p) < 0 && p in states[0] ==> p in states[n] && states[n][p] == states[0][p]
  {
    if n > 0 {
      HoldsTheLast(states, sends, n - 1, p);
      assert Step(states[n - 1], states[n - 1 + 1], sends[n - 1]);
      StepKeeps(states[n - 1], states[n], sends[n - 1]);
    }
  }

  /** What was sent to the manifest's place has log lines behind it ever after. */
  lemma {:induction false} ManifestGrows(states: seq<Files>, sends: seq<Sending>, n: nat)
    requires Run(states, sends) && n <= |sends| && LastSend(sends, n, MANIFEST) >= 0
    requires AllLogged(sends)
    ensures Spoiled(states[n], sends[LastSend(sends, n, MANIFEST)].data)
  {
    LoggedStep(states, sends, n - 1);
    if sends[n - 1].target == MANIFEST {
      SpoiledAtOnce(states[n - 1], states[n], sends[n - 1]);
    } else {
      ManifestGrows(states, sends, n - 1);
      SpoiledFurther(states[n - 1], states[n], sends[n - 1], sends[LastSend(sends, n - 1, MANIFEST)].data);
    }
  }

  /** The manifest's place holds this and more. */
  ghost predicate Spoiled(files: Files, data: Content) {
    MANIFEST in files && data <= files[MANIFEST] && data != files[MANIFEST]
  }

  lemma {:induction false} SpoiledAtOnce(before: Files, after: Files, s: Sending)
    requires IsStamp(s.stamp) && Step(before, after, s) && s.target == MANIFEST
    requires s.line.Some? && s.line.value != []
    ensures Spoiled(after, s.data)
  {
    ManifestStep(before, after, s);
    Longer(s.data, s.data, s.line.value);
  }

  lemma {:induction false} SpoiledFurther(before: Files, after: Files, s: Sending, data: Content)
    requires IsStamp(s.stamp) && Step(before, after, s) && s.target != MANIFEST
    requires s.line.Some? && s.line.value != [] && Spoiled(before, data)
    ensures Spoiled(after, data)
  {
    ManifestStep(before, after, s);
    Longer(data, before[MANIFEST], s.line.value);
  }

  ghost predicate AllLogged(sends: seq<Sending>) {
    forall i | 0 <= i < |sends| :: sends[i].line.Some? && sends[i].line.value != []
  }

  lemma {:induction false} LoggedStep(states: seq<Files>, sends: seq<Sending>, i: nat)
    requires Run(states, sends) && i < |sends| && AllLogged(sends)
    ensures IsStamp(sends[i].stamp) && Step(states[i], states[i + 1], sends[i])
    ensures sends[i].line.Some? && sends[i].line.value != []
  {
  }

  /** A logged send appends its line to what was sent to the manifest's place, or to what was there. */
  lemma {:induction false} ManifestStep(before: Files, after: Files, s: Sending)
    requires IsStamp(s.stamp) && Step(before, after, s) && s.line.Some?
    ensures MANIFEST in after
    ensures s.target == MANIFEST ==> after[MANIFEST] == s.data + s.line.value
    ensures s.target != MANIFEST && MANIFEST in before ==> after[MANIFEST] == before[MANIFEST] + s.line.value
  {
    var mid :| Sent(before, mid, s.target, s.stamp, s.data) && after == WithLine(mid, s.line);
    SentKeeps(before, mid, s.target, s.stamp, s.data);
  }

  lemma {:induction false} Longer(data: Content, held: Content, line: Content)
    requires data <= held && line != []
    ensures data <= held + line && data != held + line
  {
    assert |held + line| > |data|;
  }

  /** Of all the places sent to, exactly the manifest's does not hold its last payload, when every send is logged. */
  lemma {:induction false} HoldsTheLastExactly(states: seq<Files>, sends: seq<Sending>, n: nat, p: Place)
    requires Run(states, sends) && n <= |sends| && LastSend(sends, n, p) >= 0
    requires AllLogged(sends)
    ensures p in states[n]
    ensures states[n][p] == sends[LastSend(sends, n, p)].data <==> p != MANIFEST
  {
    if p == MANIFEST {
      ManifestGrows(states, sends, n);
    } else {
      HoldsTheLast(states, sends, n, p);
    }
  }

  /** A place that was neither there at first nor sent to holds the log or a copy moved aside. */
  lemma {:induction false} OthersAreArchived(states: seq<Files>, sends: seq<Sending>, n: nat, p: Place)
    requires Run(states, sends) && n <= |sends| && p in states[n] && p != MANIFEST
    ensures p in states[0] || LastSend(sends, n, p) >= 0 || IsArchivedVersion(NameOf(p))
  {
    if n > 0 {
      assert Step(states[n - 1], states[n - 1 + 1], sends[n - 1]);
      StepKeeps(states[n - 1], states[n], sends[n - 1]);
      if p in states[n - 1] {
        OthersAreArchived(states, sends, n - 1, p);
      }
    }
  }

  /** One send into an empty archive. */
  lemma {:induction false} FirstSend(s: Sending)
    requires IsStamp(s.stamp)
    ensures Run([map[], WithLine(map[s.target := s.data], s.line)], [s])
  {
    var (before: Files, after: Files) := (map[], map[s.target := s.data]);
    assert after == before[s.target := s.data];
    assert Sent(before, after, s.target, s.stamp, s.data);
    assert Step(before, WithLine(after, s.line), s);
  }

  // ----- what restore pushes back -----

  /** The walk of restore, at a folder it has entered, goes on to push the file at `p` below that folder. */
  predicate Reaches(files: Files, folder: seq<string>, p: Place)
    requires folder < p
    decreases |p| - |folder|
  {
    var (name, child) := (p[|folder|], p[..|folder| + 1]);
    name !in EXCLUDED_NAMES
    && if child == p then p in files && !IsArchivedVersion(name) else IsFolder(files, child) && Reaches(files, child, p)
  }

  /** What a place's names alone decide. */
  predicate Passes(p: Place) {
    (forall i | 0 <= i < |p| :: p[i] !in EXCLUDED_NAMES) && !IsArchivedVersion(NameOf(p))
  }

  lemma {:induction false} ReachesIfPasses(files: Files, folder: seq<string>, p: Place)
    requires folder < p
    requires forall i | 0 <= i < |folder| :: p[i] !in EXCLUDED_NAMES
    ensures Reaches(files, folder, p) <==> p in files && Passes(p)
    decreases |p| - |folder|
  {
    var child := p[..|folder| + 1];
    if p[|folder|] !in EXCLUDED_NAMES && child != p {
      ReachesIfPasses(files, child, p);
    }
  }

  /**
   * Whatever the archive held at first, restore pushes back exactly the places sent to or there before whose names
   * it does not leave out, each with the last payload sent to it.
   */
  lemma {:induction false} RestoresTheLatest(states: seq<Files>, sends: seq<Sending>, n: nat, p: Place)
    requires Run(states, sends) && n <= |sends|
    ensures Reaches(states[n], [], p) ==> p in states[n]
    ensures Reaches(states[n], [], p) <==> Passes(p) && (LastSend(sends, n, p) >= 0 || p in states[0])
    ensures Reaches(states[n], [], p) ==>
      states[n][p] == if LastSend(sends, n, p) >= 0 then sends[LastSend(sends, n, p)].data else states[0][p]
  {
    ReachesIfPasses(states[n], [], p);
    if p == MANIFEST {
      assert p[0] in EXCLUDED_NAMES;
    } else {
      HoldsTheLast(states, sends, n, p);
      if p in states[n] {
        OthersAreArchived(states, sends, n, p);
      }
    }
  }

  /** A target that looks like an archived version itself is not pushed back either. */
  lemma {:induction false} StampedTargetIsNotRestored(folder: seq<string>, front: string, stamp: string, data: Content,
                                                     line: Content)
    requires IsStamp(stamp)
    ensures var p: Place := folder + [front + "." + stamp];
      && var after := WithLine(map[p := data], Some(line));
      && Run([map[], after], [Sending(p, stamp, data, Some(line))])
      && !Reaches(after, [], p)
  {
    var p: Place := folder + [front + "." + stamp];
    StampFound(front, stamp, "");
    assert front + "." + stamp + "" == front + "." + stamp;
    FirstSend(Sending(p, stamp, data, Some(line)));
    ReachesIfPasses(WithLine(map[p := data], Some(line)), [], p);
  }

  // ----- places are shaped like device paths and stay inside the mirror -----

  /** A name the archive keeps as it is. */
  predicate IsKept(name: string) {
    && name != "" && !IsSpace(name[0]) && !IsSpace(name[|name| - 1])
    && '/' !in name && '\\' !in name && ':' !in name && '\0' !in name
    && exists c :: c in name && c != '.'
  }

  lemma {:induction false} KeptName(name: string)
    requires IsKept(name)
    ensures LocalName(name) == name
  {
    ReplaceCharNone(name, '/', "_");
    ReplaceCharNone(name, '\\', "_");
    ReplaceCharNone(name, ':', "_");
    ReplaceCharNone(name, '\0', "");
  }

  lemma {:induction false} KeptNames(parts: seq<string>)
    requires forall name | name in parts :: IsKept(name)
    ensures LocalNames(parts) == parts
  {
    if parts != [] {
      assert parts[0] in parts;
      KeptName(parts[0]);
      KeptNames(parts[1..]);
      assert parts == [parts[0]] + parts[1..];
    }
  }

  /** A device path of such names has the target of the same shape. */
  lemma {:induction false} TargetsMirrorPaths(p: Place)
    requires forall name | name in p :: IsKept(name)
    ensures TargetFor("\\" + Join(p, "\\")) == p
  {
    var path := Join(p, "\\");
    SplitJoin(p, '\\');
    assert ("\\" + path)[1..] == path;
    assert ([""] + p)[1..] == p;
    KeptNames(p);
  }

  predicate IsOrdinary(c: char) { 'a' <= c <= 'z' || 'A' <= c <= 'Z' || c == '-' || c == '_' || c == '.' }

  lemma {:induction false} OrdinaryIsKept(name: string)
    requires |name| > 1 && name[1] != '.'
    requires forall i | 0 <= i < |name| :: IsOrdinary(name[i])
    ensures IsKept(name)
  {
    assert name[1] in name;
  }

  /** Restore's own names are kept: a device path can lead to them. */
  lemma {:induction false} ExcludedNamesAreKept()
    ensures IsKept("Temp") && forall name | name in EXCLUDED_NAMES :: IsKept(name)
  {
    OrdinaryIsKept("Temp");
    OrdinaryIsKept("sent-manifest.jsonl");
    OrdinaryIsKept("backup-manifest.json");
    OrdinaryIsKept(".DS_Store");
  }

  /**
   * A file the device accepted, such as `\Temp\backup-manifest.json`: the archive keeps it under the same path,
   * but restore never pushes it back.
   */
  lemma {:induction false} ExcludedIsNotRestored(name: string, data: Content, stamp: string, line: Content)
    requires name in EXCLUDED_NAMES && IsStamp(stamp)
    ensures var p: Place := ["Temp", name];
      && TargetFor("\\" + Join(p, "\\")) == p
      && var after := WithLine(map[p := data], Some(line));
      && Run([map[], after], [Sending(p, stamp, data, Some(line))])
      && !Reaches(after, [], p)
  {
    var p: Place := ["Temp", name];
    ExcludedNamesAreKept();
    TargetsMirrorPaths(p);
    FirstSend(Sending(p, stamp, data, Some(line)));
    ReachesIfPasses(WithLine(map[p := data], Some(line)), [], p);
    assert p[1] in EXCLUDED_NAMES;
  }

  /** A component that cannot leave its folder. */
  predicate IsPlain(name: string) {
    name != "" && '/' !in name && '\\' !in name && name != "." && name != ".."
  }

  lemma {:induction false} LocalNameIsPlain(name: string)
    ensures IsPlain(LocalName(name))
  {
    var a := Replace(name, "/", "_");
    var b := Replace(a, "\\", "_");
    var c := Replace(b, ":", "_");
    var d := Replace(c, "\0", "");
    ReplaceCharMembers(name, '/', "_");
    ReplaceCharMembers(a, '\\', "_");
    ReplaceCharMembers(b, ':', "_");
    ReplaceCharMembers(c, '\0', "");
    var cleaned := Strip(d);
    assert '/' !in cleaned && '\\' !in cleaned;
  }

  /** Every component of a target is a plain name. */
  lemma {:induction false} TargetsArePlain(devicePath: string)
    ensures forall name | name in TargetFor(devicePath) :: IsPlain(name)
  {
    PartsArePlain(Split(devicePath, '\\'));
  }

  lemma {:induction false} PartsArePlain(parts: seq<string>)
    ensures forall name | name in LocalNames(parts) :: IsPlain(name)
  {
    if parts != [] {
      PartsArePlain(parts[1..]);
      LocalNameIsPlain(parts[0]);
    }
  }
}
