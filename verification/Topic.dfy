/** Topic filters: parser, printer and matcher (src/topic.rs). */
module Topic {
  import opened Wrappers

  datatype TopicError = InvalidTopic | InvalidLevel

  datatype Level =
    | Normal(text: string)
    | Metadata(text: string)
    | Blank
    | SingleWildcard
    | MultiWildcard

  type Filter = seq<Level>

  // ----- Levels

  predicate IsMetadata(s: string) {
    s != [] && s[0] == '$'
  }

  predicate HasWildcard(s: string) {
    '+' in s || '#' in s
  }

  predicate LevelValid(l: Level) {
    match l
    case Normal(s) => !IsMetadata(s) && !HasWildcard(s)
    case Metadata(s) => IsMetadata(s) && !HasWildcard(s)
    case _ => true
  }

  function ParseLevel(s: string): Result<Level, TopicError> {
    if s == "+" then Ok(SingleWildcard)
    else if s == "#" then Ok(MultiWildcard)
    else if s == "" then Ok(Blank)
    else if HasWildcard(s) then Err(InvalidLevel)
    else if IsMetadata(s) then Ok(Metadata(s))
    else Ok(Normal(s))
  }

  function LevelText(l: Level): string {
    match l
    case Normal(s) => s
    case Metadata(s) => s
    case Blank => ""
    case SingleWildcard => "+"
    case MultiWildcard => "#"
  }

  // ----- Splitting and joining at slashes

  function Split(s: string): (r: seq<string>)
    ensures |r| > 0
  {
    if s == [] then [""]
    else
      var rest := Split(s[1..]);
      if s[0] == '/' then [""] + rest else [[s[0]] + rest[0]] + rest[1..]
  }

  function Join(ls: seq<string>): string {
    if ls == [] then ""
    else if |ls| == 1 then ls[0]
    else ls[0] + "/" + Join(ls[1..])
  }

  predicate SlashFree(ls: seq<string>) {
    forall i :: 0 <= i < |ls| ==> '/' !in ls[i]
  }

  lemma {:induction false} JoinSplit(s: string)
    ensures Join(Split(s)) == s
    ensures SlashFree(Split(s))
  {
    if s != [] {
      JoinSplit(s[1..]);
      var rest := Split(s[1..]);
      assert [s[0]] + s[1..] == s;
      if s[0] == '/' {
        assert ([""] + rest)[1..] == rest;
        assert "" + "/" + s[1..] == s;
      }
    }
  }

  /** Splitting a level and what follows it. */
  lemma {:induction false} SplitLevel(l: string, rest: string)
    requires '/' !in l
    ensures Split(l) == [l]
    ensures Split(l + "/" + rest) == [l] + Split(rest)
  {
    var s := l + "/" + rest;
    if l == [] {
      assert s[1..] == rest && s[0] == '/';
    } else {
      SplitLevel(l[1..], rest);
      assert s[0] == l[0] && s[1..] == l[1..] + "/" + rest;
      assert [l[0]] + l[1..] == l;
      assert ([l[1..]] + Split(rest))[1..] == Split(rest);
    }
  }

  lemma {:induction false} SplitJoin(ls: seq<string>)
    requires ls != [] && SlashFree(ls)
    ensures Split(Join(ls)) == ls
  {
    if |ls| == 1 {
      SplitLevel(ls[0], "");
      assert ls == [ls[0]];
    } else {
      SplitJoin(ls[1..]);
      SplitLevel(ls[0], Join(ls[1..]));
      assert ls == [ls[0]] + ls[1..];
    }
  }

  // ----- Parsing and printing filters

  /** A multi-level wildcard only at the end, a '$' level only at the front. */
  predicate Valid(t: Filter) {
    && (forall i :: 0 <= i < |t| ==> LevelValid(t[i]))
    && (forall i :: 0 <= i < |t| && t[i].MultiWildcard? ==> i == |t| - 1)
    && (forall i :: 0 <= i < |t| && t[i].Metadata? ==> i == 0)
  }

  /** The levels in order, or the first error. */
  function ParseLevels(ls: seq<string>): Result<Filter, TopicError> {
    if ls == [] then Ok([])
    else
      match ParseLevel(ls[0])
      case Err(e) => Err(e)
      case Ok(l) =>
        match ParseLevels(ls[1..])
        case Err(e) => Err(e)
        case Ok(t) => Ok([l] + t)
  }

  function Parse(s: string): Result<Filter, TopicError> {
    match ParseLevels(Split(s))
    case Err(e) => Err(e)
    case Ok(t) => if Valid(t) then Ok(t) else Err(InvalidTopic)
  }

  function Texts(t: Filter): (r: seq<string>)
    ensures |r| == |t| && forall i :: 0 <= i < |t| ==> r[i] == LevelText(t[i])
  {
    seq(|t|, i requires 0 <= i < |t| => LevelText(t[i]))
  }

  function Print(t: Filter): string {
    Join(Texts(t))
  }

  /** Display: a slash before every level but the first. */
  method Display(t: Filter) returns (f: string)
    ensures f == Print(t)
  {
    f := "";
    var first := true;
    for i := 0 to |t|
      invariant first <==> i == 0
      invariant f == Join(Texts(t[..i]))
    {
      if first {
        first := false;
        assert Texts(t[..1]) == [LevelText(t[0])];
      } else {
        f := f + "/";
        JoinLast(Texts(t[..i]), LevelText(t[i]));
        assert Texts(t[..i + 1]) == Texts(t[..i]) + [LevelText(t[i])];
      }
      f := f + LevelText(t[i]);
    }
    assert t[..|t|] == t;
  }

  lemma {:induction false} JoinLast(ls: seq<string>, l: string)
    requires ls != []
    ensures Join(ls + [l]) == Join(ls) + "/" + l
  {
    if |ls| > 1 {
      JoinLast(ls[1..], l);
      assert (ls + [l])[1..] == ls[1..] + [l];
      assert ls[0] + "/" + (Join(ls[1..]) + "/" + l) == ls[0] + "/" + Join(ls[1..]) + "/" + l;
    } else {
      assert (ls + [l])[1..] == [l];
    }
  }

  lemma ParseLevelText(s: string)
    ensures ParseLevel(s).Ok? ==> LevelText(ParseLevel(s).value) == s && LevelValid(ParseLevel(s).value)
    ensures ParseLevel(s).Ok? <==> !HasWildcard(s) || s == "+" || s == "#"
  {
  }

  lemma {:induction false} ParseLevelsTexts(ls: seq<string>)
    ensures var r := ParseLevels(ls);
            && (r.Ok? <==> forall i :: 0 <= i < |ls| ==> ParseLevel(ls[i]).Ok?)
            && (r.Ok? ==> |r.value| == |ls| && forall i :: 0 <= i < |ls| ==> Ok(r.value[i]) == ParseLevel(ls[i]))
  {
    hide ParseLevel;
    if ls != [] {
      ParseLevelsTexts(ls[1..]);
      assert forall i :: 0 < i < |ls| ==> ls[i] == ls[1..][i - 1];
    }
  }

  lemma ParsedTexts(s: string)
    requires Parse(s).Ok?
    ensures Texts(Parse(s).value) == Split(s)
  {
    var ls, t := Split(s), Parse(s).value;
    ParseLevelsTexts(ls);
    forall i | 0 <= i < |ls| ensures Texts(t)[i] == ls[i] {
      ParseLevelText(ls[i]);
    }
  }

  /** Printing the parse of an accepted string gives the string back. */
  lemma PrintParse(s: string)
    requires Parse(s).Ok?
    ensures Print(Parse(s).value) == s
  {
    ParsedTexts(s);
    JoinSplit(s);
  }

  /** A level whose text is neither empty nor cut by a slash. */
  predicate Printable(l: Level) {
    l.Normal? || l.Metadata? ==> l.text != [] && '/' !in l.text
  }

  lemma LevelRoundTrip(l: Level)
    ensures ParseLevel(LevelText(l)) == Ok(l) <==> LevelValid(l) && (l.Normal? || l.Metadata? ==> l.text != [])
  {
  }

  lemma PrintableRoundTrip(t: Filter)
    requires Valid(t) && t != [] && forall i :: 0 <= i < |t| ==> Printable(t[i])
    ensures Parse(Print(t)) == Ok(t)
  {
    var ls := Texts(t);
    SplitJoin(ls);
    ParseLevelsTexts(ls);
    forall i | 0 <= i < |t| ensures ParseLevel(ls[i]) == Ok(t[i]) {
      LevelRoundTrip(t[i]);
    }
    assert ParseLevels(ls).value == t;
  }

  /** Parsing a printed filter gives it back exactly if it is valid, has a level, and each text is printable. */
  lemma ParsePrintIff(t: Filter)
    ensures Parse(Print(t)) == Ok(t) <==> Valid(t) && t != [] && forall i :: 0 <= i < |t| ==> Printable(t[i])
  {
    if Valid(t) && t != [] && forall i :: 0 <= i < |t| ==> Printable(t[i]) {
      PrintableRoundTrip(t);
    }
    if Parse(Print(t)) == Ok(t) {
      var ls := Split(Print(t));
      JoinSplit(Print(t));
      ParseLevelsTexts(ls);
      forall i | 0 <= i < |t| ensures Printable(t[i]) {
        ParseLevelText(ls[i]);
        assert LevelText(t[i]) == ls[i] && '/' !in ls[i];
      }
    }
  }

  /** The strings that are accepted, level by level. */
  predicate Acceptable(ls: seq<string>) {
    && (forall i :: 0 <= i < |ls| && HasWildcard(ls[i]) ==> ls[i] == "+" || (ls[i] == "#" && i == |ls| - 1))
    && (forall i :: 0 < i < |ls| ==> !IsMetadata(ls[i]))
  }

  lemma ParseAcceptsIff(s: string)
    ensures Parse(s).Ok? <==> Acceptable(Split(s))
  {
    var ls := Split(s);
    ParseLevelsTexts(ls);
    forall i | 0 <= i < |ls|
      ensures ParseLevel(ls[i]).Ok? <==> !HasWildcard(ls[i]) || ls[i] == "+" || ls[i] == "#"
      ensures ParseLevel(ls[i]).Ok? ==> LevelValid(ParseLevel(ls[i]).value)
      ensures ParseLevel(ls[i]) == Ok(MultiWildcard) <==> ls[i] == "#"
      ensures ParseLevel(ls[i]).Ok? && ParseLevel(ls[i]).value.Metadata? <==> IsMetadata(ls[i]) && !HasWildcard(ls[i])
    {
      ParseLevelText(ls[i]);
      assert '#' in "#" && '+' in "+";
    }
  }

  /** A wildcard beside other text. */
  predicate Mixed(l: string) {
    HasWildcard(l) && l != "+" && l != "#"
  }

  predicate SomeMixed(ls: seq<string>) {
    exists i :: 0 <= i < |ls| && Mixed(ls[i])
  }

  /** A refusal is for a level if some level mixes a wildcard with text, and otherwise for the whole. */
  lemma ParseErrors(s: string)
    ensures Parse(s) == Err(InvalidLevel) <==> SomeMixed(Split(s))
    ensures Parse(s).Err? && Parse(s) != Err(InvalidLevel) ==> Parse(s) == Err(InvalidTopic)
  {
    var ls := Split(s);
    ParseLevelsTexts(ls);
    FirstError(ls);
    forall i | 0 <= i < |ls| ensures ParseLevel(ls[i]).Ok? <==> !Mixed(ls[i]) {
      ParseLevelText(ls[i]);
    }
    if ParseLevels(ls).Err? {
      var i :| 0 <= i < |ls| && ParseLevel(ls[i]).Err?;
      assert Mixed(ls[i]);
    }
  }

  lemma {:induction false} FirstError(ls: seq<string>)
    ensures ParseLevels(ls).Err? ==> ParseLevels(ls).error == InvalidLevel
  {
    if ls != [] { FirstError(ls[1..]); }
  }

  // ----- Matching a topic name

  /** `match_level` for a level of a name. */
  predicate MatchLevel(l: Level, s: string) {
    match l
    case Normal(t) => !IsMetadata(s) && t == s
    case Metadata(t) => IsMetadata(s) && t == s
    case Blank => s == ""
    case SingleWildcard => !IsMetadata(s)
    case MultiWildcard => !IsMetadata(s)
  }

  /** What the matcher says once the name is used up, or once a '+' met a '$' level. */
  predicate Ends(f: Filter) {
    f == [] || f[0].MultiWildcard?
  }

  predicate Matches(f: Filter, n: seq<string>) {
    if n == [] then Ends(f)
    else if f == [] then false
    else if f[0].SingleWildcard? && IsMetadata(n[0]) then Ends(f[1..])
    else if f[0].MultiWildcard? then MatchLevel(f[0], n[0])
    else MatchLevel(f[0], n[0]) && Matches(f[1..], n[1..])
  }

  method MatchesStr(f: Filter, name: string) returns (b: bool)
    ensures b == Matches(f, Split(name))
  {
    var n := Split(name);
    var k := 0;       // levels of the filter taken so far
    var i := 0;
    while i < |n|
      invariant 0 <= i == k <= |f| && i <= |n|
      invariant Matches(f, n) == Matches(f[k..], n[i..])
    {
      if k == |f| {
        return false;
      }
      var l := f[k];
      assert f[k..][1..] == f[k + 1..] && n[i..][1..] == n[i + 1..];
      k := k + 1;
      if l.SingleWildcard? {
        if !MatchLevel(l, n[i]) {
          assert Matches(f, n) == Ends(f[k..]);
          break;
        }
      } else if l.MultiWildcard? {
        return MatchLevel(l, n[i]);
      } else if !MatchLevel(l, n[i]) {
        return false;
      }
      i := i + 1;
    }
    assert Matches(f, n) == Ends(f[k..]);
    return k == |f| || f[k].MultiWildcard?;
  }

  // ----- The relation of section 4.7 of MQTT 3.1.1

  predicate Wild(l: Level) {
    l.SingleWildcard? || l.MultiWildcard?
  }

  /** A filter that ends in a multi-level wildcard. */
  predicate Open(f: Filter) {
    f != [] && f[|f| - 1].MultiWildcard?
  }

  /** The levels that each stand for one level of a name. */
  function Fixed(f: Filter): nat {
    if Open(f) then |f| - 1 else |f|
  }

  predicate Says(l: Level, s: string) {
    l.SingleWildcard? || LevelText(l) == s
  }

  predicate CoversLevels(f: Filter, n: seq<string>) {
    && (if Open(f) then |n| >= Fixed(f) else |n| == Fixed(f))
    && (forall i :: 0 <= i < Fixed(f) ==> Says(f[i], n[i]))
  }

  /** Level by level, and a leading wildcard does not stand for a leading '$'. */
  predicate Covers(f: Filter, n: seq<string>) {
    CoversLevels(f, n) && !(f != [] && n != [] && Wild(f[0]) && IsMetadata(n[0]))
  }

  predicate WellPlaced(f: Filter) {
    && (forall i :: 0 <= i < |f| ==> LevelValid(f[i]))
    && (forall i :: 0 <= i < |f| && f[i].MultiWildcard? ==> i == |f| - 1)
  }

  /** The matcher reaches level p of the name, where a wildcard meets a '$'. */
  predicate ClashAt(f: Filter, n: seq<string>, p: nat) {
    && p < |f| && p < |n| && Wild(f[p]) && IsMetadata(n[p])
    && (forall i :: 0 <= i < p ==> MatchLevel(f[i], n[i]))
  }

  lemma WellPlacedTail(f: Filter)
    requires WellPlaced(f) && f != []
    ensures WellPlaced(f[1..])
  {
  }

  /** Both sides, one level at a time. */
  lemma CoversStep(f: Filter, n: seq<string>)
    requires WellPlaced(f) && f != [] && n != [] && !f[0].MultiWildcard?
    ensures CoversLevels(f, n) <==> Says(f[0], n[0]) && CoversLevels(f[1..], n[1..])
  {
  }

  lemma SaysIsMatch(l: Level, s: string)
    requires LevelValid(l) && !l.MultiWildcard? && !(l.SingleWildcard? && IsMetadata(s))
    ensures MatchLevel(l, s) <==> Says(l, s)
  {
  }

  /** Without a clash the matcher is the relation. */
  lemma {:induction false} NoClash(f: Filter, n: seq<string>)
    requires WellPlaced(f) && forall p: nat :: !ClashAt(f, n, p)
    ensures Matches(f, n) == CoversLevels(f, n)
    decreases |f|
  {
    if f != [] && n != [] {
      assert !ClashAt(f, n, 0);
      if !f[0].MultiWildcard? {
        CoversStep(f, n);
        SaysIsMatch(f[0], n[0]);
        WellPlacedTail(f);
        if MatchLevel(f[0], n[0]) {
          forall p: nat ensures !ClashAt(f[1..], n[1..], p) {
            if ClashAt(f[1..], n[1..], p) {
              ClashLater(f, n, p);
            }
          }
          NoClash(f[1..], n[1..]);
        }
      }
    }
  }

  lemma ClashLater(f: Filter, n: seq<string>, p: nat)
    requires f != [] && n != [] && MatchLevel(f[0], n[0]) && ClashAt(f[1..], n[1..], p)
    ensures ClashAt(f, n, p + 1)
  {
  }

  /** What the two sides say at a clash. */
  lemma {:induction false} AtClash(f: Filter, n: seq<string>, p: nat)
    requires WellPlaced(f) && ClashAt(f, n, p)
    ensures Matches(f, n) <==> f[p].SingleWildcard? && Ends(f[p + 1..])
    ensures CoversLevels(f, n) <==> f[p].MultiWildcard? || CoversLevels(f[p + 1..], n[p + 1..])
    decreases p
  {
    if p == 0 {
      if f[0].SingleWildcard? {
        CoversStep(f, n);
      }
    } else {
      assert MatchLevel(f[0], n[0]) && !f[0].MultiWildcard?;
      CoversStep(f, n);
      WellPlacedTail(f);
      assert !(f[0].SingleWildcard? && IsMetadata(n[0]));
      SaysIsMatch(f[0], n[0]);
      forall i | 0 <= i < p - 1 ensures MatchLevel(f[1..][i], n[1..][i]) {
        assert f[1..][i] == f[i + 1] && n[1..][i] == n[i + 1];
      }
      AtClash(f[1..], n[1..], p - 1);
      assert f[1..][p..] == f[p + 1..] && n[1..][p..] == n[p + 1..];
    }
  }

  /** At a clash the two sides differ. */
  predicate DiffersAt(f: Filter, n: seq<string>, p: nat)
    requires p < |f| && p < |n|
  {
    if f[p].MultiWildcard? then p > 0
    else Ends(f[p + 1..]) != (p > 0 && CoversLevels(f[p + 1..], n[p + 1..]))
  }

  lemma LeadingClash(f: Filter, n: seq<string>)
    requires f != [] && n != []
    ensures Covers(f, n) <==> CoversLevels(f, n) && !ClashAt(f, n, 0)
  {
  }

  lemma OneClash(f: Filter, n: seq<string>, p: nat, q: nat)
    requires ClashAt(f, n, p) && ClashAt(f, n, q)
    ensures p == q
  {
  }

  /** The matcher agrees with the relation exactly if it does not run into a clash where they differ. */
  lemma MatchesIff(f: Filter, n: seq<string>)
    requires Valid(f) && n != []
    ensures Matches(f, n) == Covers(f, n) <==> forall p: nat :: ClashAt(f, n, p) ==> !DiffersAt(f, n, p)
  {
    if p: nat :| ClashAt(f, n, p) {
      AtClash(f, n, p);
      LeadingClash(f, n);
      assert ClashAt(f, n, 0) <==> p == 0 by {
        if ClashAt(f, n, 0) { OneClash(f, n, 0, p); }
      }
      forall q: nat | ClashAt(f, n, q) ensures q == p {
        OneClash(f, n, p, q);
      }
    } else {
      NoClash(f, n);
      if f != [] { LeadingClash(f, n); }
    }
  }

  /** Names without a '$' level, and names with only a leading one under a filter that does not start with '+'. */
  lemma MatchesOrdinaryNames(f: Filter, name: string)
    requires Valid(f)
    requires forall i :: 0 < i < |Split(name)| ==> !IsMetadata(Split(name)[i])
    requires IsMetadata(Split(name)[0]) ==> f == [] || !f[0].SingleWildcard?
    ensures Matches(f, Split(name)) == Covers(f, Split(name))
  {
    MatchesIff(f, Split(name));
  }

  // ----- Which filters are matched right for every name

  /** A name that a filter without '#' covers. */
  function Sample(f: Filter): (n: seq<string>)
    ensures |n| == |f|
    ensures forall i :: 0 <= i < |f| ==> n[i] == if Wild(f[i]) then "x" else LevelText(f[i])
  {
    seq(|f|, i requires 0 <= i < |f| => if Wild(f[i]) then "x" else LevelText(f[i]))
  }

  /** A filter for which some name is matched wrongly, and such a name. */
  function Culprit(f: Filter, p: nat): seq<string>
    requires p < |f|
  {
    Sample(f)[p := "$"] + if p == |f| - 1 && f[p].SingleWildcard? then ["x"] else []
  }

  lemma CulpritClashes(f: Filter, p: nat)
    requires WellPlaced(f) && p < |f| && Wild(f[p])
    ensures ClashAt(f, Culprit(f, p), p)
  {
  }

  /** The tail of a sample is covered by the tail of its filter. */
  lemma SampleTail(f: Filter, p: nat)
    requires WellPlaced(f) && p < |f|
    ensures CoversLevels(f[p..], Sample(f)[p..])
  {
  }

  lemma CulpritDiffers(f: Filter, q: nat)
    requires Valid(f) && 0 < q < |f| && Wild(f[q]) && q < |Culprit(f, q)|
    requires q + 1 < |f| ==> !f[q + 1].MultiWildcard?
    ensures DiffersAt(f, Culprit(f, q), q)
  {
    hide CoversLevels, LevelValid;
    var n := Culprit(f, q);
    if f[q].SingleWildcard? {
      if q == |f| - 1 {
        assert f[q + 1..] == [] && |n[q + 1..]| == 1;
        NothingCoversLevel(n[q + 1..]);
      } else {
        SampleTail(f, q + 1);
        assert n[q + 1..] == Sample(f)[q + 1..];
        assert f[q + 1..][0] == f[q + 1];
      }
    }
  }

  lemma NothingCoversLevel(n: seq<string>)
    requires |n| == 1
    ensures !CoversLevels([], n)
  {
  }

  lemma InnerWildcardFails(f: Filter, p: nat)
    requires Valid(f) && 0 < p < |f| && Wild(f[p])
    ensures exists q: nat :: 0 < q < |f| && Wild(f[q]) && Matches(f, Culprit(f, q)) != Covers(f, Culprit(f, q))
  {
    hide CoversLevels, LevelValid, DiffersAt, Matches, Covers, Culprit, MatchLevel;
    var q := if p + 1 < |f| && f[p + 1].MultiWildcard? then p + 1 else p;
    CulpritClashes(f, q);
    CulpritDiffers(f, q);
    MatchesIff(f, Culprit(f, q));
  }

  /** Matched as the standard says, whatever the name. */
  ghost predicate Faithful(f: Filter) {
    forall name: string :: Matches(f, Split(name)) == Covers(f, Split(name))
  }

  /** No wildcard after the first level, and not a lone '+'. */
  predicate Harmless(f: Filter) {
    (forall p :: 0 < p < |f| ==> !Wild(f[p])) && f != [SingleWildcard]
  }

  lemma HarmlessIsFaithful(f: Filter)
    requires Valid(f) && Harmless(f)
    ensures Faithful(f)
  {
    forall name: string ensures Matches(f, Split(name)) == Covers(f, Split(name)) {
      var n := Split(name);
      forall p: nat | ClashAt(f, n, p) ensures !DiffersAt(f, n, p) {
        assert p == 0;
        if f[0].SingleWildcard? {
          assert |f| > 1 && f[1..][0] == f[1];
        }
      }
      MatchesIff(f, n);
    }
  }

  lemma CulpritIsName(f: Filter, p: nat)
    requires SlashFree(Texts(f)) && p < |f|
    ensures Split(Join(Culprit(f, p))) == Culprit(f, p)
  {
    var n := Culprit(f, p);
    forall i | 0 <= i < |n| ensures '/' !in n[i] {
      if i < |f| && i != p && !Wild(f[i]) {
        assert n[i] == Texts(f)[i];
      }
    }
    SplitJoin(n);
  }

  /** Exactly the harmless filters are matched as the standard says for every name. */
  lemma FaithfulIff(s: string)
    requires Parse(s).Ok?
    ensures Faithful(Parse(s).value) <==> Harmless(Parse(s).value)
  {
    var f := Parse(s).value;
    if Harmless(f) {
      HarmlessIsFaithful(f);
    } else if f == [SingleWildcard] {
      LonePlus();
    } else {
      var p :| 0 < p < |f| && Wild(f[p]);
      InnerWildcardFails(f, p);
      var q: nat :| 0 < q < |f| && Wild(f[q]) && Matches(f, Culprit(f, q)) != Covers(f, Culprit(f, q));
      ParsedTexts(s);
      JoinSplit(s);
      CulpritIsName(f, q);
      var name := Join(Culprit(f, q));
      assert Matches(f, Split(name)) != Covers(f, Split(name));
    }
  }

  /** The filter "+" matches "$SYS", which section 4.7.2 of MQTT 3.1.1 forbids. */
  lemma LonePlus()
    ensures Parse("+") == Ok([SingleWildcard]) && Split("$SYS") == ["$SYS"]
    ensures Matches([SingleWildcard], ["$SYS"]) && !Covers([SingleWildcard], ["$SYS"])
  {
    SplitLevel("+", "");
    SplitLevel("$SYS", "");
    ParseLevelsTexts(["+"]);
    assert ParseLevels(["+"]).value == [SingleWildcard];
  }
}
