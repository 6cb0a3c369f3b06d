/** Agent branch names (internal/branch/naming.go) and the search for earlier
    sessions among them (internal/branch/retry.go). Strings are sequences of
    Unicode characters.
 */
module Branches {
  import opened Strings
  import opened Options

  const PREFIX := "agent/"

  datatype BranchName = BranchName(feature: string, agentName: string, sessionID: string)

  predicate IsValidBranchChar(c: char) {
    !(c as int <= 0x1f || c as int == 0x7f) && c !in {' ', '~', '^', ':', '?', '*', '[', '\\', '.', '@', '/'}
  }

  // ------------------------------------------------------------ sanitizing

  function Cleaned(c: char): char {
    if IsValidBranchChar(c) then c else '-'
  }

  /** Every forbidden character becomes a hyphen. */
  function CleanChars(s: string): (r: string)
    ensures |r| == |s| && forall i :: 0 <= i < |s| ==> r[i] == Cleaned(s[i])
  {
    if s == "" then "" else CleanChars(s[..|s| - 1]) + [Cleaned(s[|s| - 1])]
  }

  ghost predicate HasDoubleHyphen(s: string) {
    exists i :: 0 <= i < |s| - 1 && s[i] == '-' && s[i + 1] == '-'
  }

  /** strings.Contains(s, "--"). */
  predicate ContainsDouble(s: string)
    ensures ContainsDouble(s) <==> HasDoubleHyphen(s)
  {
    |s| >= 2 && ((s[0] == '-' && s[1] == '-') || ContainsDouble(s[1..]))
  }

  /** strings.ReplaceAll(s, "--", "-"): left to right, without overlap. */
  function HalveHyphens(s: string): (r: string)
    ensures |r| <= |s| && (ContainsDouble(s) ==> |r| < |s|)
  {
    if |s| < 2 then s
    else if s[0] == '-' && s[1] == '-' then "-" + HalveHyphens(s[2..])
    else [s[0]] + HalveHyphens(s[1..])
  }

  /** The one-pass meaning: each run of hyphens becomes one. */
  function Collapse(s: string): string {
    if |s| < 2 then s
    else if s[0] == '-' && s[1] == '-' then Collapse(s[1..])
    else [s[0]] + Collapse(s[1..])
  }

  function TrimLeft(s: string): string {
    if s != "" && s[0] == '-' then TrimLeft(s[1..]) else s
  }

  function TrimRight(s: string): string {
    if s != "" && s[|s| - 1] == '-' then TrimRight(s[..|s| - 1]) else s
  }

  function Trim(s: string): string {
    TrimRight(TrimLeft(s))
  }

  /** What sanitizing means. */
  function Sanitized(s: string): string {
    Trim(Collapse(CleanChars(s)))
  }

  /** A string without a double hyphen is its own collapse. */
  lemma {:induction false} CollapseOfSingle(s: string)
    requires !ContainsDouble(s)
    ensures Collapse(s) == s
  {
    if |s| >= 2 {
      CollapseOfSingle(s[1..]);
      assert s == [s[0]] + s[1..];
    }
  }

  lemma {:induction false} CollapseHead(s: string)
    ensures s != "" ==> Collapse(s) != "" && Collapse(s)[0] == s[0]
  {
    if |s| >= 2 && s[0] == '-' && s[1] == '-' {
      CollapseHead(s[1..]);
    }
  }

  /** Collapsing after a head character depends only on the head of the rest. */
  lemma CollapseCons(c: char, s: string)
    ensures Collapse([c] + s) == if s != "" && c == '-' && s[0] == '-' then Collapse(s) else [c] + Collapse(s)
  {
  }

  lemma {:induction false} HalveHead(s: string)
    ensures s != "" ==> HalveHyphens(s) != "" && HalveHyphens(s)[0] == s[0]
  {
  }

  /** One replacement pass does not change what the runs collapse to. */
  lemma {:induction false} HalvingKeepsCollapse(s: string)
    ensures Collapse(HalveHyphens(s)) == Collapse(s)
  {
    if |s| < 2 {
    } else if s[0] == '-' && s[1] == '-' {
      var rest := s[2..];
      HalvingKeepsCollapse(rest);
      HalveHead(rest);
      CollapseCons('-', HalveHyphens(rest));
      CollapseCons('-', rest);
      assert s[1..] == ['-'] + rest;
    } else {
      var rest := s[1..];
      HalvingKeepsCollapse(rest);
      HalveHead(rest);
      CollapseCons(s[0], HalveHyphens(rest));
    }
  }

  /** Builds the cleaned string, then replaces "--" until none is left. */
  method Sanitize(s: string) returns (result: string)
    ensures result == Sanitized(s)
  {
    result := "";
    for i := 0 to |s|
      invariant result == CleanChars(s[..i])
    {
      assert s[..i + 1][..i] == s[..i];
      if IsValidBranchChar(s[i]) {
        result := result + [s[i]];
      } else {
        result := result + ['-'];
      }
    }
    assert s[..|s|] == s;
    while ContainsDouble(result)
      invariant Collapse(result) == Collapse(CleanChars(s))
      decreases |result|
    {
      HalvingKeepsCollapse(result);
      result := HalveHyphens(result);
    }
    CollapseOfSingle(result);
    result := Trim(result);
  }

  // ----------------------------------------------- what sanitized strings look like

  /** Control characters and those that git or the naming scheme reserve. */
  ghost predicate Forbidden(c: char) {
    c as int <= 0x1f || c as int == 0x7f || c in " ~^:?*[\\.@/"
  }

  /** Fit for a branch name component. */
  ghost predicate Clean(s: string) {
    && (forall i :: 0 <= i < |s| ==> !Forbidden(s[i]))
    && !HasDoubleHyphen(s)
    && (s != "" ==> s[0] != '-' && s[|s| - 1] != '-')
  }

  ghost predicate Valid(s: string) {
    forall i :: 0 <= i < |s| ==> IsValidBranchChar(s[i])
  }

  lemma {:induction false} CollapseIsSingle(s: string)
    requires Valid(s)
    ensures Valid(Collapse(s)) && !ContainsDouble(Collapse(s))
  {
    if |s| >= 2 {
      CollapseIsSingle(s[1..]);
      CollapseHead(s[1..]);
      var rest := Collapse(s[1..]);
      assert ([s[0]] + rest)[1..] == rest;
    }
  }

  /** Trimming takes a stretch of the string that neither starts nor ends with
      a hyphen. */
  lemma {:induction false} TrimLeftIsSuffix(s: string) returns (k: nat)
    ensures k <= |s| && TrimLeft(s) == s[k..] && (TrimLeft(s) != "" ==> TrimLeft(s)[0] != '-')
  {
    k := 0;
    if s != "" && s[0] == '-' {
      k := TrimLeftIsSuffix(s[1..]);
      k := k + 1;
    }
  }

  lemma {:induction false} TrimRightIsPrefix(s: string) returns (k: nat)
    ensures k <= |s| && TrimRight(s) == s[..k] && (TrimRight(s) != "" ==> TrimRight(s)[k - 1] != '-')
  {
    k := |s|;
    if s != "" && s[|s| - 1] == '-' {
      k := TrimRightIsPrefix(s[..|s| - 1]);
    }
  }

  lemma TrimIsSlice(s: string) returns (i: nat, j: nat)
    ensures i <= j <= |s| && Trim(s) == s[i..j]
    ensures Trim(s) != "" ==> Trim(s)[0] != '-' && Trim(s)[|Trim(s)| - 1] != '-'
  {
    i := TrimLeftIsSuffix(s);
    var k := TrimRightIsPrefix(TrimLeft(s));
    j := i + k;
  }

  /** The output has no forbidden character, no double hyphen and no hyphen at
      either end. */
  lemma SanitizedIsClean(s: string)
    ensures Clean(Sanitized(s))
  {
    var c := Collapse(CleanChars(s));
    assert IsValidBranchChar('-');
    CollapseIsSingle(CleanChars(s));
    var i, j := TrimIsSlice(c);
    SliceIsSingle(c, i, j);
  }

  lemma SliceIsSingle(s: string, i: nat, j: nat)
    requires i <= j <= |s|
    ensures Valid(s) ==> Valid(s[i..j])
    ensures HasDoubleHyphen(s[i..j]) ==> HasDoubleHyphen(s)
  {
  }

  lemma {:induction false} CleanCharsOfValid(s: string)
    requires Valid(s)
    ensures CleanChars(s) == s
  {
  }

  /** Exactly the clean strings are left alone. */
  lemma SanitizedIffClean(s: string)
    ensures Sanitized(s) == s <==> Clean(s)
  {
    if Clean(s) {
      CleanIsFixed(s);
    } else {
      SanitizedIsClean(s);
    }
  }

  lemma CleanIsFixed(s: string)
    requires Clean(s)
    ensures Sanitized(s) == s
  {
    CleanCharsOfValid(s);
    CollapseOfSingle(s);
    assert TrimLeft(s) == s && TrimRight(s) == s;
  }

  lemma SanitizeIsIdempotent(s: string)
    ensures Sanitized(Sanitized(s)) == Sanitized(s)
  {
    SanitizedIsClean(s);
    SanitizedIffClean(Sanitized(s));
  }

  /** One pass over the string: forbidden characters and hyphens separate, and
      each gap between two kept characters becomes one hyphen. */
  ghost function Slug(s: string): string {
    if s == "" then ""
    else if Forbidden(s[0]) || s[0] == '-' then Slug(s[1..])
    else if |s| > 1 && (Forbidden(s[1]) || s[1] == '-') && Slug(s[1..]) != "" then [s[0], '-'] + Slug(s[1..])
    else [s[0]] + Slug(s[1..])
  }

  lemma CleanCharsCons(c: char, s: string)
    ensures CleanChars([c] + s) == [if Forbidden(c) then '-' else c] + CleanChars(s)
  {
  }

  lemma {:induction false} TrimRightAfter(c: char, s: string)
    requires c != '-'
    ensures TrimRight([c] + s) == [c] + TrimRight(s)
  {
    if s != "" && s[|s| - 1] == '-' {
      TrimRightAfter(c, s[..|s| - 1]);
      assert ([c] + s)[..|s|] == [c] + s[..|s| - 1];
    }
  }

  lemma {:induction false} TrimRightAfterHyphen(s: string)
    ensures TrimRight("-" + s) == if TrimRight(s) == "" then "" else "-" + TrimRight(s)
  {
    if s == "" {
      assert ("-" + s)[..0] == "";
    } else if s[|s| - 1] == '-' {
      TrimRightAfterHyphen(s[..|s| - 1]);
      assert ("-" + s)[..|s|] == "-" + s[..|s| - 1];
    }
  }

  /** A collapsed string has at most one leading hyphen. */
  lemma OneLeadingHyphen(s: string)
    requires s != "" && s[0] == '-' && !ContainsDouble(s)
    ensures s == "-" + TrimLeft(s)
  {
    assert s == "-" + s[1..];
  }

  lemma CleanedIsValid(s: string)
    ensures Valid(CleanChars(s))
  {
    assert IsValidBranchChar('-');
  }

  /** What follows a kept character, once the end is trimmed. */
  lemma TrimmedRest(t: string)
    ensures TrimRight(Collapse(CleanChars(t)))
            == if t != "" && (Forbidden(t[0]) || t[0] == '-') && Sanitized(t) != "" then "-" + Sanitized(t) else Sanitized(t)
  {
    if t != "" {
      var n := Collapse(CleanChars(t));
      CollapseHead(CleanChars(t));
      if Forbidden(t[0]) || t[0] == '-' {
        CleanedIsValid(t);
        CollapseIsSingle(CleanChars(t));
        OneLeadingHyphen(n);
        TrimRightAfterHyphen(TrimLeft(n));
      }
    }
  }

  /** Cleaning, collapsing and trimming amount to that one pass. */
  lemma {:induction false} SanitizedIsSlug(s: string)
    ensures Sanitized(s) == Slug(s)
  {
    if s != "" {
      var c, t := s[0], s[1..];
      assert s == [c] + t;
      SanitizedIsSlug(t);
      CleanCharsCons(c, t);
      if Forbidden(c) || c == '-' {
        CollapseCons('-', CleanChars(t));
      } else {
        CollapseCons(c, CleanChars(t));
        TrimRightAfter(c, Collapse(CleanChars(t)));
        TrimmedRest(t);
      }
    }
  }

  // --------------------------------------------------------- printing and parsing

  method New(feature: string, agentName: string, sessionID: string) returns (r: Option<BranchName>)
    ensures r.Some? <==> Sanitized(feature) != "" && Sanitized(agentName) != "" && Sanitized(sessionID) != ""
    ensures r.Some? ==> r.value == BranchName(Sanitized(feature), Sanitized(agentName), Sanitized(sessionID))
    ensures r.Some? ==> Printable(r.value)
  {
    var f := Sanitize(feature);
    var a := Sanitize(agentName);
    var i := Sanitize(sessionID);
    if f == "" || a == "" || i == "" {
      return None;
    }
    CleanHasNoSlash(feature);
    CleanHasNoSlash(agentName);
    r := Some(BranchName(f, a, i));
  }

  lemma CleanHasNoSlash(s: string)
    ensures '/' !in Sanitized(s)
  {
    SanitizedIsClean(s);
    assert Forbidden('/');
  }

  function String(b: BranchName): string {
    PREFIX + b.feature + "/" + b.agentName + "/" + b.sessionID
  }

  function SlashIndex(s: string): (i: nat)
    ensures i <= |s| && '/' !in s[..i] && (i < |s| ==> s[i] == '/')
  {
    if s == "" || s[0] == '/' then 0 else
      assert s[..1 + SlashIndex(s[1..])] == [s[0]] + s[1..][..SlashIndex(s[1..])];
      1 + SlashIndex(s[1..])
  }

  /** strings.SplitN(s, "/", n). */
  function SplitN(s: string, n: nat): (parts: seq<string>)
    requires n >= 1
    ensures 1 <= |parts| <= n
  {
    var i := SlashIndex(s);
    if n == 1 || i == |s| then [s] else [s[..i]] + SplitN(s[i + 1..], n - 1)
  }

  datatype ParseResult =
    | Parsed(name: BranchName)
    | WrongPrefix
    | WrongSegments(count: nat)
    | EmptySegment(index: nat)

  /** The meaning of a ref: that of the name behind a leading "origin/". */
  function ParseRef(ref: string): ParseResult {
    ParsePlain(TrimPrefix(ref, "origin/"))
  }

  function ParsePlain(plain: string): ParseResult {
    if !HasPrefix(plain, PREFIX) then WrongPrefix
    else
      var parts := SplitN(TrimPrefix(plain, PREFIX), 3);
      if |parts| != 3 then WrongSegments(|parts|)
      else if parts[0] == "" then EmptySegment(0)
      else if parts[1] == "" then EmptySegment(1)
      else if parts[2] == "" then EmptySegment(2)
      else Parsed(BranchName(parts[0], parts[1], parts[2]))
  }

  function Slashes(s: string): nat {
    if s == "" then 0 else (if s[0] == '/' then 1 else 0) + Slashes(s[1..])
  }

  /** Three components, cut at the first two slashes. */
  ghost predicate CutsInto(s: string, a: string, b: string, c: string) {
    s == a + "/" + b + "/" + c && '/' !in a && '/' !in b
  }

  /** What each way to fail says about the ref. */
  ghost predicate Explains(plain: string, r: ParseResult) {
    match r
    case Parsed(name) => Printable(name) && String(name) == plain
    case WrongPrefix => !HasPrefix(plain, PREFIX)
    case WrongSegments(count) =>
      HasPrefix(plain, PREFIX) && count == Slashes(TrimPrefix(plain, PREFIX)) + 1 && count < 3
    case EmptySegment(index) =>
      HasPrefix(plain, PREFIX) && index < 3
      && exists a, b, c :: CutsInto(TrimPrefix(plain, PREFIX), a, b, c) && [a, b, c][index] == ""
                           && forall k :: 0 <= k < index ==> [a, b, c][k] != ""
  }

  /** Succeeds exactly on printed names, which it gives back; otherwise it says
      what is wrong with the ref. */
  method Parse(ref: string) returns (r: ParseResult)
    ensures r.Parsed? <==> exists b :: Printable(b) && String(b) == TrimPrefix(ref, "origin/")
    ensures Explains(TrimPrefix(ref, "origin/"), r)
    ensures r == ParseRef(ref)
  {
    ParsesIffPrinted(ref);
    ParseExplains(ref);
    var plain := TrimPrefix(ref, "origin/");
    if !HasPrefix(plain, PREFIX) {
      return WrongPrefix;
    }
    var parts := SplitN(TrimPrefix(plain, PREFIX), 3);
    if |parts| != 3 {
      return WrongSegments(|parts|);
    }
    for i := 0 to |parts|
      invariant forall k :: 0 <= k < i ==> parts[k] != ""
    {
      if parts[i] == "" {
        return EmptySegment(i);
      }
    }
    r := Parsed(BranchName(parts[0], parts[1], parts[2]));
  }

  /** Names that survive printing: the session may contain slashes, the other
      components may not, and none is empty. */
  ghost predicate Printable(b: BranchName) {
    && b.feature != "" && '/' !in b.feature
    && b.agentName != "" && '/' !in b.agentName
    && b.sessionID != ""
  }

  lemma {:induction false} FirstSlash(s: string, t: string)
    requires '/' !in s
    ensures SlashIndex(s + "/" + t) == |s|
  {
    if s != "" {
      FirstSlash(s[1..], t);
      assert (s + "/" + t)[1..] == s[1..] + "/" + t;
    }
  }

  /** Splitting three components joined by slashes gives them back. */
  lemma SplitThree(f: string, a: string, rest: string)
    requires '/' !in f && '/' !in a
    ensures SplitN(f + "/" + a + "/" + rest, 3) == [f, a, rest]
  {
    var tail := a + "/" + rest;
    JoinAssociates(f + "/", a, rest);
    SplitFirst(f, tail, 3);
    SplitFirst(a, rest, 2);
  }

  lemma SplitFirst(a: string, tail: string, n: nat)
    requires '/' !in a && n >= 2
    ensures SplitN(a + "/" + tail, n) == [a] + SplitN(tail, n - 1)
  {
    var s := a + "/" + tail;
    FirstSlash(a, tail);
    assert s[..|a|] == a && s[|a| + 1..] == tail;
  }

  lemma JoinAssociates(a: string, b: string, c: string)
    ensures a + (b + "/" + c) == a + b + "/" + c
  {
  }

  lemma NotOrigin(s: string)
    requires HasPrefix(s, PREFIX)
    ensures TrimPrefix(s, "origin/") == s
  {
    assert s[0] == PREFIX[0] == 'a' && "origin/"[0] == 'o';
  }

  /** Parsing undoes printing exactly for the printable names, hence for every
      name that New returns. */
  lemma PrintThenParse(b: BranchName)
    ensures ParseRef(String(b)) == Parsed(b) <==> Printable(b)
  {
    var s := String(b);
    var rest := b.feature + "/" + b.agentName + "/" + b.sessionID;
    StringIsJoined(b);
    NotOrigin(s);
    assert TrimPrefix(s, PREFIX) == rest;
    if Printable(b) {
      SplitThree(b.feature, b.agentName, b.sessionID);
    } else if ParseRef(s) == Parsed(b) {
      var f, a, i := SplitInThree(rest);
    }
  }

  /** A split into all the parts asked for cuts at slashes. */
  lemma SplitStep(s: string, n: nat)
    requires n >= 2 && |SplitN(s, n)| == n
    ensures var i := SlashIndex(s);
            i < |s| && s == s[..i] + "/" + s[i + 1..] && SplitN(s, n) == [s[..i]] + SplitN(s[i + 1..], n - 1)
  {
  }

  lemma SplitInTwo(s: string) returns (a: string, b: string)
    requires |SplitN(s, 2)| == 2
    ensures SplitN(s, 2) == [a, b] && '/' !in a && s == a + "/" + b
  {
    var i := SlashIndex(s);
    SplitStep(s, 2);
    a, b := s[..i], s[i + 1..];
  }

  /** The first two parts of a three-way split hold no slash. */
  lemma SplitInThree(s: string) returns (a: string, b: string, c: string)
    requires |SplitN(s, 3)| == 3
    ensures SplitN(s, 3) == [a, b, c] && '/' !in a && '/' !in b && s == a + "/" + b + "/" + c
  {
    var i := SlashIndex(s);
    SplitStep(s, 3);
    a := s[..i];
    b, c := SplitInTwo(s[i + 1..]);
    JoinAssociates(a + "/", b, c);
  }

  /** A ref that parses prints back to itself, minus one leading "origin/". */
  lemma ParseThenPrint(ref: string)
    ensures ParseRef(ref).Parsed? ==>
              String(ParseRef(ref).name) == TrimPrefix(ref, "origin/") && Printable(ParseRef(ref).name)
  {
    var plain := TrimPrefix(ref, "origin/");
    if ParseRef(ref).Parsed? {
      var rest := TrimPrefix(plain, PREFIX);
      var f, a, i := SplitInThree(rest);
      StringIsJoined(BranchName(f, a, i));
    }
  }

  lemma StringIsJoined(b: BranchName)
    ensures String(b) == PREFIX + (b.feature + "/" + b.agentName + "/" + b.sessionID)
  {
  }

  /** Exactly the printed names parse, with or without a leading "origin/". */
  lemma ParsesIffPrinted(ref: string)
    ensures ParseRef(ref).Parsed? <==> exists b :: Printable(b) && String(b) == TrimPrefix(ref, "origin/")
  {
    ParseThenPrint(ref);
    if b :| Printable(b) && String(b) == TrimPrefix(ref, "origin/") {
      PrintThenParse(b);
      assert HasPrefix(String(b), PREFIX) by { StringIsJoined(b); }
      NotOrigin(String(b));
    }
  }

  lemma {:induction false} NoSlash(s: string)
    ensures '/' !in s <==> Slashes(s) == 0
  {
    if s != "" {
      NoSlash(s[1..]);
      assert s == [s[0]] + s[1..];
    }
  }

  lemma {:induction false} SlashesAfterFirst(s: string)
    ensures SlashIndex(s) < |s| ==> Slashes(s) == 1 + Slashes(s[SlashIndex(s) + 1..])
    ensures SlashIndex(s) == |s| ==> Slashes(s) == 0
  {
    if s != "" && s[0] != '/' {
      SlashesAfterFirst(s[1..]);
      assert SlashIndex(s) < |s| ==> s[SlashIndex(s) + 1..] == s[1..][SlashIndex(s[1..]) + 1..];
    }
  }

  /** A split gives one part more than there are slashes, up to its limit. */
  lemma {:induction false} SplitCounts(s: string, n: nat)
    requires n >= 1
    ensures |SplitN(s, n)| == if Slashes(s) + 1 < n then Slashes(s) + 1 else n
    decreases n
  {
    SlashesAfterFirst(s);
    if n > 1 && SlashIndex(s) < |s| {
      SplitCounts(s[SlashIndex(s) + 1..], n - 1);
    }
  }

  lemma ParseExplains(ref: string)
    ensures Explains(TrimPrefix(ref, "origin/"), ParseRef(ref))
  {
    var plain := TrimPrefix(ref, "origin/");
    if HasPrefix(plain, PREFIX) {
      var rest := TrimPrefix(plain, PREFIX);
      SplitCounts(rest, 3);
      if |SplitN(rest, 3)| == 3 {
        var a, b, c := SplitInThree(rest);
        assert CutsInto(rest, a, b, c);
        ParseThenPrint(ref);
      }
    }
  }

  // ------------------------------------------------------------------- retries

  /** A ref belongs to a feature and agent when it parses to them. */
  predicate Belongs(ref: string, feature: string, agentName: string) {
    var r := ParseRef(ref);
    r.Parsed? && r.name.feature == feature && r.name.agentName == agentName
  }

  /** The lister has stripped "origin/"; a ref that still has it is not found. */
  predicate Found(ref: string, feature: string, agentName: string) {
    !HasPrefix(ref, "origin/") && Belongs(ref, feature, agentName)
  }

  /** The parsed names of the plain refs that belong, in order. */
  function Matches(refs: seq<string>, feature: string, agentName: string): seq<BranchName> {
    if refs == [] then [] else
      var ref := refs[|refs| - 1];
      Matches(refs[..|refs| - 1], feature, agentName)
      + if Found(ref, feature, agentName) then [ParseRef(ref).name] else []
  }

  /** The string-prefix test and the comparison of parsed fields agree. */
  lemma PrefixTestIsExact(ref: string, f: string, a: string)
    requires '/' !in f && '/' !in a
    ensures HasPrefix(ref, PREFIX + f + "/" + a + "/") && ParseRef(ref).Parsed?
            <==> Found(ref, f, a)
  {
    var prefix := PREFIX + f + "/" + a + "/";
    if HasPrefix(ref, prefix) {
      PrefixFixesFields(ref, f, a);
    }
    if Found(ref, f, a) {
      ParseThenPrint(ref);
      assert ref == prefix + ParseRef(ref).name.sessionID;
    }
  }

  lemma PrefixFixesFields(ref: string, f: string, a: string)
    requires '/' !in f && '/' !in a && HasPrefix(ref, PREFIX + f + "/" + a + "/")
    ensures !HasPrefix(ref, "origin/")
    ensures ParseRef(ref).Parsed? ==> ParseRef(ref).name.feature == f && ParseRef(ref).name.agentName == a
  {
    var prefix := PREFIX + f + "/" + a + "/";
    var rest := ref[|prefix|..];
    assert ref == prefix + rest;
    assert HasPrefix(ref, PREFIX);
    NotOrigin(ref);
    assert !HasPrefix(ref, "origin/") by { assert ref[0] == 'a' && "origin/"[0] == 'o'; }
    assert TrimPrefix(ref, PREFIX) == f + "/" + a + "/" + rest;
    SplitThree(f, a, rest);
  }

  /** The ref of a session of feature f and agent a. */
  ghost predicate IsSessionRef(ref: string, f: string, a: string) {
    f != "" && a != "" && "agent/" + f + "/" + a + "/" < ref
  }

  lemma FoundIffSessionRef(ref: string, f: string, a: string)
    requires '/' !in f && '/' !in a
    ensures Found(ref, f, a) <==> IsSessionRef(ref, f, a)
    ensures Found(ref, f, a) ==>
              var b := ParseRef(ref).name;
              b.feature == f && b.agentName == a && ref == "agent/" + f + "/" + a + "/" + b.sessionID
  {
    var prefix := PREFIX + f + "/" + a + "/";
    PrefixTestIsExact(ref, f, a);
    if IsSessionRef(ref, f, a) {
      var b := BranchName(f, a, ref[|prefix|..]);
      assert ref == prefix + b.sessionID && ref == String(b);
      PrintThenParse(b);
    }
    if Found(ref, f, a) {
      ParseThenPrint(ref);
    }
  }

  /** found are the sessions of f and a among the refs, each once and in order;
      idx says where. */
  ghost predicate Lists(refs: seq<string>, f: string, a: string, found: seq<BranchName>, idx: seq<nat>) {
    && |idx| == |found| && Ascending(idx)
    && (forall i: nat :: i in idx <==> i < |refs| && IsSessionRef(refs[i], f, a))
    && (forall n :: 0 <= n < |idx| ==>
          && idx[n] < |refs| && found[n].feature == f && found[n].agentName == a
          && refs[idx[n]] == "agent/" + f + "/" + a + "/" + found[n].sessionID)
  }

  lemma {:induction false} MatchesAreListed(refs: seq<string>, f: string, a: string) returns (idx: seq<nat>)
    requires '/' !in f && '/' !in a
    ensures Lists(refs, f, a, Matches(refs, f, a), idx)
  {
    idx := [];
    if refs != [] {
      var n := |refs| - 1;
      idx := MatchesAreListed(refs[..n], f, a);
      FoundIffSessionRef(refs[n], f, a);
      ListsGrow(refs, f, a, Matches(refs[..n], f, a), idx);
      if Found(refs[n], f, a) {
        idx := idx + [n];
      }
    }
  }

  lemma ListsGrow(refs: seq<string>, f: string, a: string, found: seq<BranchName>, idx: seq<nat>)
    requires refs != [] && Lists(refs[..|refs| - 1], f, a, found, idx)
    ensures var n := |refs| - 1;
            if IsSessionRef(refs[n], f, a) then
              forall b: BranchName :: b.feature == f && b.agentName == a
                                      && refs[n] == "agent/" + f + "/" + a + "/" + b.sessionID ==>
                                        Lists(refs, f, a, found + [b], idx + [n])
            else Lists(refs, f, a, found, idx)
  {
    var n := |refs| - 1;
    assert forall i :: 0 <= i < n ==> refs[..n][i] == refs[i];
    assert forall i :: i in idx ==> i < n;
  }

  lemma {:induction false} AscendingCount(idx: seq<nat>)
    requires Ascending(idx)
    ensures |Elems(idx)| == |idx|
  {
    if idx != [] {
      var n := |idx| - 1;
      AscendingCount(idx[..n]);
      assert idx == idx[..n] + [idx[n]];
      assert Elems(idx) == Elems(idx[..n]) + {idx[n]};
    }
  }

  ghost function SessionRefs(refs: seq<string>, f: string, a: string): set<nat> {
    set i: nat | i < |refs| && IsSessionRef(refs[i], f, a)
  }

  lemma ListsCounts(refs: seq<string>, f: string, a: string, found: seq<BranchName>, idx: seq<nat>)
    requires Lists(refs, f, a, found, idx)
    ensures |found| == |SessionRefs(refs, f, a)|
  {
    AscendingCount(idx);
    assert Elems(idx) == SessionRefs(refs, f, a);
  }

  lemma CountIsExact(refs: seq<string>, f: string, a: string, found: seq<BranchName>)
    requires exists idx :: Lists(refs, f, a, found, idx)
    ensures |found| == |SessionRefs(refs, f, a)|
  {
    var idx :| Lists(refs, f, a, found, idx);
    ListsCounts(refs, f, a, found, idx);
  }

  method FindRetries(listed: Option<seq<string>>, feature: string, agentName: string)
    returns (r: Option<seq<BranchName>>)
    ensures r.Some? <==> listed.Some?
    ensures r.Some? ==> exists idx :: Lists(listed.value, Sanitized(feature), Sanitized(agentName), r.value, idx)
    ensures r.Some? ==> r.value == Matches(listed.value, Sanitized(feature), Sanitized(agentName))
  {
    if listed.None? {
      return None;
    }
    var refs := listed.value;
    var f := Sanitize(feature);
    var a := Sanitize(agentName);
    CleanHasNoSlash(feature);
    CleanHasNoSlash(agentName);
    var prefix := PREFIX + f + "/" + a + "/";
    var matches: seq<BranchName> := [];
    for i := 0 to |refs|
      invariant matches == Matches(refs[..i], f, a)
    {
      PrefixTestIsExact(refs[i], f, a);
      assert refs[..i + 1][..i] == refs[..i];
      if HasPrefix(refs[i], prefix) {
        var b := Parse(refs[i]);
        if b.Parsed? {
          matches := matches + [b.name];
        }
      }
    }
    assert refs[..|refs|] == refs;
    ghost var idx := MatchesAreListed(refs, f, a);
    r := Some(matches);
  }

  /** Whether there were earlier sessions, and how many. */
  datatype Attempts = Attempts(isRetry: bool, count: int)

  method IsRetry(listed: Option<seq<string>>, feature: string, agentName: string) returns (r: Option<Attempts>)
    ensures r.Some? <==> listed.Some?
    ensures r.Some? ==> var sessions := SessionRefs(listed.value, Sanitized(feature), Sanitized(agentName));
                        r.value == Attempts(|sessions| > 0, |sessions|)
  {
    var matches := FindRetries(listed, feature, agentName);
    if matches.None? {
      return None;
    }
    CountIsExact(listed.value, Sanitized(feature), Sanitized(agentName), matches.value);
    var count := |matches.value|;
    r := Some(Attempts(count > 0, count));
  }

  /** The last match in the lister's order, if there is one. */
  method LatestSession(listed: Option<seq<string>>, feature: string, agentName: string)
    returns (r: Option<Option<BranchName>>)
    ensures r.Some? <==> listed.Some?
    ensures r.Some? ==> IsLatest(listed.value, Sanitized(feature), Sanitized(agentName), r.value)
  {
    var matches := FindRetries(listed, feature, agentName);
    if matches.None? {
      return None;
    }
    ghost var f, a := Sanitized(feature), Sanitized(agentName);
    ghost var idx :| Lists(listed.value, f, a, matches.value, idx);
    if |matches.value| == 0 {
      LastIsLatest(listed.value, f, a, matches.value, idx);
      return Some(None);
    }
    LastIsLatest(listed.value, f, a, matches.value, idx);
    r := Some(Some(matches.value[|matches.value| - 1]));
  }

  /** b is the session that the last matching ref prints, if any ref matches. */
  ghost predicate IsLatest(refs: seq<string>, f: string, a: string, b: Option<BranchName>) {
    match b
    case None => forall i :: 0 <= i < |refs| ==> !IsSessionRef(refs[i], f, a)
    case Some(name) =>
      name.feature == f && name.agentName == a
      && exists i :: 0 <= i < |refs| && IsSessionRef(refs[i], f, a)
                     && refs[i] == "agent/" + f + "/" + a + "/" + name.sessionID
                     && forall j :: i < j < |refs| ==> !IsSessionRef(refs[j], f, a)
  }

  lemma LastIsLatest(refs: seq<string>, f: string, a: string, found: seq<BranchName>, idx: seq<nat>)
    requires Lists(refs, f, a, found, idx)
    ensures IsLatest(refs, f, a, if found == [] then None else Some(found[|found| - 1]))
  {
    if found == [] {
      assert forall i: nat :: i !in idx;
    } else {
      var i := idx[|idx| - 1];
      assert i in idx;
      forall j | i < j < |refs|
        ensures !IsSessionRef(refs[j], f, a)
      {
        assert j !in idx;
      }
    }
  }

  /** The branch a worker creates is found again by the retry search for the
      same raw feature and agent names. */
  lemma {:induction false} CreatedIsFound(refs: seq<string>, feature: string, agentName: string, sessionID: string, i: nat)
    requires Sanitized(feature) != "" && Sanitized(agentName) != "" && Sanitized(sessionID) != ""
    requires i < |refs|
    requires refs[i] == String(BranchName(Sanitized(feature), Sanitized(agentName), Sanitized(sessionID)))
    ensures BranchName(Sanitized(feature), Sanitized(agentName), Sanitized(sessionID))
            in Matches(refs, Sanitized(feature), Sanitized(agentName))
    decreases |refs|
  {
    var b := BranchName(Sanitized(feature), Sanitized(agentName), Sanitized(sessionID));
    var n := |refs| - 1;
    if i < n {
      CreatedIsFound(refs[..n], feature, agentName, sessionID, i);
    } else {
      CleanHasNoSlash(feature);
      CleanHasNoSlash(agentName);
      PrintedIsFound(b);
    }
  }

  lemma PrintedIsFound(b: BranchName)
    requires Printable(b)
    ensures Found(String(b), b.feature, b.agentName) && ParseRef(String(b)) == Parsed(b)
  {
    PrintThenParse(b);
    StringIsJoined(b);
    NotOrigin(String(b));
    assert String(b)[0] == 'a' && "origin/"[0] == 'o';
  }
}
