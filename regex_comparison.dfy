/**
 * RegexComparison: a text filter that is either a plain comparison
 * (contains, starts with, ends with, equals) or a regular expression.
 * The plain kinds are turned into a pattern by GetFinalPattern, and
 * ExitRegexComparison turns a pattern back into a plain comparison.
 * The regex engine is a parameter; Regex.Escape is modelled on the
 * character set .NET escapes.
 */
module RegexComparisons {

  /** ComparisonType and its integer values: Contains = 0, StartsWith = 1,
      EndsWith = 2, EqualsTo = 3 (both bits), Regex = 4. */
  datatype ComparisonType = Contains | StartsWith | EndsWith | EqualsTo | Regex {
    function Value(): int {
      match this
      case Contains => 0
      case StartsWith => 1
      case EndsWith => 2
      case EqualsTo => 3
      case Regex => 4
    }

    /** ((int) kind & 1) > 0 */
    predicate AnchorsStart() { Value() % 2 == 1 }

    /** ((int) kind & 2) > 0 */
    predicate AnchorsEnd() { (Value() / 2) % 2 == 1 }
  }

  /** The characters Regex.Escape escapes: \t \n \f \r, space, # $ ( ) * + . ? [ \ ^ { | */
  predicate IsMetachar(c: char) {
    c == '\t' || c == '\n' || c == '\U{000C}' || c == '\r' || c == ' ' || c == '#' || c == '$'
    || c == '(' || c == ')' || c == '*' || c == '+' || c == '.' || c == '?' || c == '['
    || c == '\\' || c == '^' || c == '{' || c == '|'
  }

  function EscapeChar(c: char): string {
    if c == '\t' then "\\t"
    else if c == '\n' then "\\n"
    else if c == '\U{000C}' then "\\f"
    else if c == '\r' then "\\r"
    else if IsMetachar(c) then ['\\', c]
    else [c]
  }

  /** Regex.Escape */
  function Escape(s: string): string
    decreases |s|
  {
    if s == [] then [] else EscapeChar(s[0]) + Escape(s[1..])
  }

  predicate MetaFree(s: string) {
    forall i :: 0 <= i < |s| ==> !IsMetachar(s[i])
  }

  /** True when `pat` occurs in `s` (ordinal comparison). */
  predicate Occurs(s: string, pat: string)
    decreases |s|
  {
    |s| >= |pat| && (s[..|pat|] == pat || (|s| > 0 && Occurs(s[1..], pat)))
  }

  /** String.Replace(pat, ""): drop every occurrence found scanning left to right. */
  function RemoveAll(s: string, pat: string): (r: string)
    requires |pat| > 0
    ensures |r| <= |s|
    decreases |s|
  {
    if |s| < |pat| then s
    else if s[..|pat|] == pat then RemoveAll(s[|pat|..], pat)
    else [s[0]] + RemoveAll(s[1..], pat)
  }

  /** The removal only drops characters, so every character left comes from the
      input, no more often than it occurs there. */
  lemma {:induction false} RemoveAllDropsOnly(s: string, pat: string)
    requires |pat| > 0
    ensures multiset(RemoveAll(s, pat)) <= multiset(s)
    decreases |s|
  {
    if |s| >= |pat| {
      if s[..|pat|] == pat {
        RemoveAllDropsOnly(s[|pat|..], pat);
        assert s == s[..|pat|] + s[|pat|..];
      } else {
        RemoveAllDropsOnly(s[1..], pat);
        assert s == [s[0]] + s[1..];
      }
    }
  }

  const CaseFlag := "(?i)"

  /** GetFinalPattern as a function of the three fields. */
  function FinalPattern(kind: ComparisonType, caseSensitive: bool, pattern: string): (r: string)
    ensures kind == Regex ==> r == pattern
  {
    if kind == Regex then pattern
    else
      (if kind.AnchorsStart() then "^" else "")
      + (if !caseSensitive then CaseFlag else "")
      + Escape(pattern)
      + (if kind.AnchorsEnd() then "$" else "")
  }

  datatype Exit = Exit(kind: ComparisonType, pattern: string, caseSensitive: bool)

  function KindFromAnchors(starts: bool, ends: bool): (k: ComparisonType)
    ensures k != Regex && k.AnchorsStart() == starts && k.AnchorsEnd() == ends
  {
    if starts && ends then EqualsTo
    else if starts then StartsWith
    else if ends then EndsWith
    else Contains
  }

  /** Ordinal first- and last-character tests, standing for the culture-sensitive StartsWith and EndsWith. */
  predicate StartsWithChar(s: string, c: char) { |s| > 0 && s[0] == c }
  predicate EndsWithChar(s: string, c: char) { |s| > 0 && s[|s| - 1] == c }

  /** The pattern left once a leading '^' and a trailing '$' are cut off. */
  function StripAnchors(pattern: string): (r: string)
    ensures |r| <= |pattern|
  {
    var afterStart := if StartsWithChar(pattern, '^') then pattern[1..] else pattern;
    if EndsWithChar(pattern, '$') then afterStart[..|afterStart| - 1] else afterStart
  }

  /** ExitRegexComparison as a function of the pattern and the case flag:
      the kind comes from the anchors, the anchors and every "(?i)" found are
      removed, and the flag becomes true only when none was found. */
  function ExitPattern(pattern: string, caseSensitive: bool): (r: Exit)
    ensures r.kind == KindFromAnchors(StartsWithChar(pattern, '^'), EndsWithChar(pattern, '$'))
    ensures r.pattern == RemoveAll(StripAnchors(pattern), CaseFlag)
    ensures r.caseSensitive <==> caseSensitive || !Occurs(StripAnchors(pattern), CaseFlag)
  {
    var starts := StartsWithChar(pattern, '^');
    var ends := EndsWithChar(pattern, '$');
    var stripped := StripAnchors(pattern);
    var removed := RemoveAll(stripped, CaseFlag);
    RemoveAllUnchanged(stripped, CaseFlag);
    Exit(KindFromAnchors(starts, ends), removed, if removed == stripped then true else caseSensitive)
  }

  // ---------------------------------------------------------------------
  // Properties of Escape and RemoveAll

  lemma {:induction false} EscapeLength(s: string)
    ensures |Escape(s)| >= |s|
    ensures |Escape(s)| == |s| <==> MetaFree(s)
    decreases |s|
  {
    if s != [] {
      EscapeLength(s[1..]);
      assert MetaFree(s) <==> !IsMetachar(s[0]) && MetaFree(s[1..]) by {
        if !IsMetachar(s[0]) && MetaFree(s[1..]) {
          forall i | 0 <= i < |s| ensures !IsMetachar(s[i]) {
            if i > 0 { assert s[i] == s[1..][i - 1]; }
          }
        }
        if MetaFree(s) {
          forall i | 0 <= i < |s[1..]| ensures !IsMetachar(s[1..][i]) {
            assert s[1..][i] == s[i + 1];
          }
        }
      }
    }
  }

  /** Escape is the identity exactly on the strings without metacharacters. */
  lemma {:induction false} EscapeIdentityIff(s: string)
    ensures Escape(s) == s <==> MetaFree(s)
    decreases |s|
  {
    EscapeLength(s);
    if s != [] {
      EscapeIdentityIff(s[1..]);
      if MetaFree(s) {
        EscapeLength(s[1..]);
      }
    }
  }

  /** A bare metacharacter other than '\' never stands first in an escaped
      string, and is always preceded by a backslash. */
  predicate MetaPreceded(e: string) {
    forall j :: 0 <= j < |e| && IsMetachar(e[j]) && e[j] != '\\' ==> j > 0 && e[j - 1] == '\\'
  }

  lemma {:induction false} EscapedMetaPreceded(s: string)
    ensures MetaPreceded(Escape(s))
    decreases |s|
  {
    if s != [] {
      EscapedMetaPreceded(s[1..]);
      var p, e := EscapeChar(s[0]), Escape(s[1..]);
      assert Escape(s) == p + e;
      forall j | 0 <= j < |p + e| && IsMetachar((p + e)[j]) && (p + e)[j] != '\\'
        ensures j > 0 && (p + e)[j - 1] == '\\'
      {
        if j >= |p| {
          assert (p + e)[j] == e[j - |p|];
          assert (p + e)[j - 1] == e[j - |p| - 1];
        }
      }
    }
  }

  /** No '(' is directly followed by '?'. */
  predicate NoOpenQuestion(e: string) {
    forall j :: 0 <= j && j + 1 < |e| ==> !(e[j] == '(' && e[j + 1] == '?')
  }

  lemma {:induction false} NoOpenQuestionNoCaseFlag(e: string)
    requires NoOpenQuestion(e)
    ensures !Occurs(e, CaseFlag)
    decreases |e|
  {
    if |e| >= |CaseFlag| {
      assert e[0] == '(' ==> e[1] != '?';
      assert e[..4][0] == e[0] && e[..4][1] == e[1];
      assert NoOpenQuestion(e[1..]) by {
        forall j | 0 <= j && j + 1 < |e[1..]| ensures !(e[1..][j] == '(' && e[1..][j + 1] == '?') {
          assert e[1..][j] == e[j + 1] && e[1..][j + 1] == e[j + 2];
        }
      }
      NoOpenQuestionNoCaseFlag(e[1..]);
    }
  }

  /** An escaped string never contains the case-insensitivity flag "(?i)". */
  lemma EscapedHasNoCaseFlag(s: string)
    ensures !Occurs(Escape(s), CaseFlag)
  {
    EscapedNoOpenQuestion(s);
    NoOpenQuestionNoCaseFlag(Escape(s));
  }

  lemma EscapedNoOpenQuestion(s: string)
    ensures NoOpenQuestion(Escape(s))
  {
    var e := Escape(s);
    EscapedMetaPreceded(s);
    forall j | 0 <= j && j + 1 < |e| ensures !(e[j] == '(' && e[j + 1] == '?') {
      assert IsMetachar('?');
    }
  }

  /** RemoveAll leaves a string unchanged exactly when the pattern does not occur. */
  lemma {:induction false} RemoveAllUnchanged(s: string, pat: string)
    requires |pat| > 0
    ensures RemoveAll(s, pat) == s <==> !Occurs(s, pat)
    decreases |s|
  {
    if |s| < |pat| {
    } else if s[..|pat|] == pat {
      assert |RemoveAll(s[|pat|..], pat)| < |s|;
    } else {
      RemoveAllUnchanged(s[1..], pat);
      assert s == [s[0]] + s[1..];
      if RemoveAll(s, pat) == s {
        assert RemoveAll(s[1..], pat) == ([s[0]] + RemoveAll(s[1..], pat))[1..];
      }
    }
  }

  lemma RemoveAllAbsent(s: string, pat: string)
    requires |pat| > 0 && !Occurs(s, pat)
    ensures RemoveAll(s, pat) == s
  {
    RemoveAllUnchanged(s, pat);
  }

  lemma EscapeEndsWithDollar(s: string)
    ensures EndsWithChar(Escape(s), '$') <==> EndsWithChar(s, '$')
    decreases |s|
  {
    if s != [] {
      EscapeEndsWithDollar(s[1..]);
      if s[1..] == [] {
        assert Escape(s) == EscapeChar(s[0]);
      } else {
        EscapeLength(s[1..]);
        assert s[|s| - 1] == s[1..][|s[1..]| - 1];
      }
    }
  }

  // ---------------------------------------------------------------------
  // GetFinalPattern and ExitRegexComparison

  /** The middle of a final pattern, the case flag and the escaped literal,
      neither opens with '^' nor (for a literal not ending in '$') ends with '$'. */
  lemma MiddleShape(caseSensitive: bool, pattern: string)
    ensures var m := (if !caseSensitive then CaseFlag else "") + Escape(pattern);
      && (|m| > 0 ==> m[0] != '^')
      && (|m| > 0 && !EndsWithChar(pattern, '$') ==> m[|m| - 1] != '$')
  {
    var f := if !caseSensitive then CaseFlag else "";
    var e := Escape(pattern);
    var m := f + e;
    EscapedMetaPreceded(pattern);
    EscapeEndsWithDollar(pattern);
    assert IsMetachar('^');
    if |f| > 0 {
      assert m[0] == f[0];
    } else if |e| > 0 {
      assert m[0] == e[0];
    }
    if |e| > 0 {
      assert m[|m| - 1] == e[|e| - 1];
    } else if |f| > 0 {
      assert m[|m| - 1] == f[|f| - 1];
    }
  }

  lemma StripKnownAnchors(a: string, m: string, z: string)
    requires a == "" || a == "^"
    requires z == "" || z == "$"
    requires |m| > 0 ==> m[0] != '^'
    requires |m| > 0 && z == "" ==> m[|m| - 1] != '$'
    ensures StartsWithChar(a + m + z, '^') == (a == "^")
    ensures EndsWithChar(a + m + z, '$') == (z == "$")
    ensures StripAnchors(a + m + z) == m
  {
    var q := a + m + z;
    if a == "^" {
      assert q[0] == '^';
      assert q[1..] == m + z;
    } else if |m| > 0 {
      assert q[0] == m[0];
    } else {
      assert q == z;
    }
    if z == "$" {
      assert q[|q| - 1] == '$';
    } else if |m| > 0 {
      assert q[|q| - 1] == m[|m| - 1];
    } else {
      assert q == a;
    }
    var afterStart := if a == "^" then q[1..] else q;
    assert afterStart == m + z;
    if z == "$" {
      assert afterStart[..|afterStart| - 1] == m;
    }
  }

  function StartAnchor(kind: ComparisonType): string { if kind.AnchorsStart() then "^" else "" }
  function EndAnchor(kind: ComparisonType): string { if kind.AnchorsEnd() then "$" else "" }
  function FlagPart(caseSensitive: bool): string { if !caseSensitive then CaseFlag else "" }

  lemma FinalPatternParts(kind: ComparisonType, caseSensitive: bool, pattern: string)
    requires kind != Regex
    ensures FinalPattern(kind, caseSensitive, pattern)
            == StartAnchor(kind) + (FlagPart(caseSensitive) + Escape(pattern)) + EndAnchor(kind)
  {
    var a, f, e, z := StartAnchor(kind), FlagPart(caseSensitive), Escape(pattern), EndAnchor(kind);
    assert FinalPattern(kind, caseSensitive, pattern) == ((a + f) + e) + z;
    assert (a + f) + e == a + (f + e);
  }

  /** For a plain kind the pattern opens with '^' exactly when bit 0 of the
      kind is set, and ends with '$' exactly when bit 1 is set (given that the
      literal itself does not end with '$', or bit 1 is set anyway). */
  lemma FinalPatternAnchors(kind: ComparisonType, caseSensitive: bool, pattern: string)
    requires kind != Regex && (!EndsWithChar(pattern, '$') || kind.AnchorsEnd())
    ensures StartsWithChar(FinalPattern(kind, caseSensitive, pattern), '^') <==> kind.AnchorsStart()
    ensures EndsWithChar(FinalPattern(kind, caseSensitive, pattern), '$') <==> kind.AnchorsEnd()
    ensures StripAnchors(FinalPattern(kind, caseSensitive, pattern)) == FlagPart(caseSensitive) + Escape(pattern)
  {
    FinalPatternParts(kind, caseSensitive, pattern);
    MiddleShape(caseSensitive, pattern);
    StripKnownAnchors(StartAnchor(kind), FlagPart(caseSensitive) + Escape(pattern), EndAnchor(kind));
  }

  /** ExitRegexComparison undoes GetFinalPattern: for a plain kind, and a
      literal that does not end with '$' unless the kind anchors the end,
      exiting recovers the kind, the case flag and the escaped literal. */
  lemma ExitInvertsFinalPattern(kind: ComparisonType, caseSensitive: bool, pattern: string)
    requires kind != Regex && (!EndsWithChar(pattern, '$') || kind.AnchorsEnd())
    ensures ExitPattern(FinalPattern(kind, caseSensitive, pattern), caseSensitive)
            == Exit(kind, Escape(pattern), caseSensitive)
  {
    FinalPatternAnchors(kind, caseSensitive, pattern);
    FlagRemoved(caseSensitive, pattern);
    ExitOfKnownShape(FinalPattern(kind, caseSensitive, pattern), kind, caseSensitive, Escape(pattern));
  }

  /** Exiting a pattern whose anchors are those of `kind` and whose stripped
      middle is the flag part followed by a flag-free `m` gives back `kind`,
      `m` and the case flag. */
  lemma ExitOfKnownShape(q: string, kind: ComparisonType, caseSensitive: bool, m: string)
    requires kind != Regex
    requires StartsWithChar(q, '^') == kind.AnchorsStart() && EndsWithChar(q, '$') == kind.AnchorsEnd()
    requires StripAnchors(q) == FlagPart(caseSensitive) + m
    requires RemoveAll(FlagPart(caseSensitive) + m, CaseFlag) == m
    requires Occurs(FlagPart(caseSensitive) + m, CaseFlag) <==> !caseSensitive
    ensures ExitPattern(q, caseSensitive) == Exit(kind, m, caseSensitive)
  {
    var r := ExitPattern(q, caseSensitive);
    assert r.kind == kind by {
      assert r.kind == KindFromAnchors(kind.AnchorsStart(), kind.AnchorsEnd());
    }
  }

  /** Removing the flag from the flag part and the escaped literal leaves the
      escaped literal, and finds a flag exactly when one was put there. */
  lemma FlagRemoved(caseSensitive: bool, pattern: string)
    ensures RemoveAll(FlagPart(caseSensitive) + Escape(pattern), CaseFlag) == Escape(pattern)
    ensures Occurs(FlagPart(caseSensitive) + Escape(pattern), CaseFlag) <==> !caseSensitive
  {
    EscapedHasNoCaseFlag(pattern);
    FlagRemovedFrom(caseSensitive, Escape(pattern));
  }

  /** The same for any text without the flag after the flag part. */
  lemma FlagRemovedFrom(caseSensitive: bool, e: string)
    requires !Occurs(e, CaseFlag)
    ensures RemoveAll(FlagPart(caseSensitive) + e, CaseFlag) == e
    ensures Occurs(FlagPart(caseSensitive) + e, CaseFlag) <==> !caseSensitive
  {
    var f := FlagPart(caseSensitive);
    RemoveAllAbsent(e, CaseFlag);
    if !caseSensitive {
      assert (f + e)[..|CaseFlag|] == CaseFlag;
      assert (f + e)[|CaseFlag|..] == e;
      assert Occurs(f + e, CaseFlag);
    } else {
      assert f + e == e;
    }
  }

  /** The escaped form of a literal ending in '$' ends in "\$". */
  lemma EscapedDollarTail(pattern: string)
    requires EndsWithChar(pattern, '$')
    ensures var e := Escape(pattern);
      && |e| >= 2 && e[|e| - 2] == '\\' && e[|e| - 1] == '$'
  {
    EscapeEndsWithDollar(pattern);
    EscapedMetaPreceded(pattern);
    assert IsMetachar('$');
  }

  /** Cutting the last character off a text with no "(?" leaves no case flag. */
  lemma InitNoCaseFlag(e: string)
    requires |e| > 0 && NoOpenQuestion(e)
    ensures !Occurs(e[..|e| - 1], CaseFlag)
  {
    var e' := e[..|e| - 1];
    assert NoOpenQuestion(e') by {
      forall j | 0 <= j && j + 1 < |e'| ensures !(e'[j] == '(' && e'[j + 1] == '?') {
        assert e'[j] == e[j] && e'[j + 1] == e[j + 1];
      }
    }
    NoOpenQuestionNoCaseFlag(e');
  }

  /** A literal ending in '$' under Contains or StartsWith does not come back.
      Its escaped "\$" ends the final pattern, ExitRegexComparison takes that
      '$' for an end anchor, and what is left ends in the backslash: Contains
      returns as EndsWith and StartsWith as EqualsTo. */
  lemma TrailingDollarMisread(kind: ComparisonType, caseSensitive: bool, pattern: string)
    requires (kind == Contains || kind == StartsWith) && EndsWithChar(pattern, '$')
    ensures var e := Escape(pattern);
      && |e| >= 2 && e[|e| - 2] == '\\'
      && ExitPattern(FinalPattern(kind, caseSensitive, pattern), caseSensitive)
         == Exit(if kind == Contains then EndsWith else EqualsTo, e[..|e| - 1], caseSensitive)
  {
    TrailingDollarPieces(kind, caseSensitive, pattern);
    MisreadCore(FinalPattern(kind, caseSensitive, pattern), kind, caseSensitive, Escape(pattern));
  }

  /** The pieces of the final pattern of a literal ending in '$' under
      Contains or StartsWith: no end anchor, and an escaped literal that ends
      in "\$" and holds no "(?". */
  lemma TrailingDollarPieces(kind: ComparisonType, caseSensitive: bool, pattern: string)
    requires (kind == Contains || kind == StartsWith) && EndsWithChar(pattern, '$')
    ensures var e := Escape(pattern);
      && FinalPattern(kind, caseSensitive, pattern) == StartAnchor(kind) + (FlagPart(caseSensitive) + e) + ""
      && |e| >= 2 && e[|e| - 2] == '\\' && e[|e| - 1] == '$'
      && (FlagPart(caseSensitive) + e)[0] != '^' && NoOpenQuestion(e)
  {
    EscapedDollarTail(pattern);
    EscapedNoOpenQuestion(pattern);
    FinalPatternParts(kind, caseSensitive, pattern);
    MiddleShape(caseSensitive, pattern);
  }

  /** The misreading on plain strings: the final pattern of Contains or
      StartsWith around a text ending in '$' exits with that '$' cut off, as
      EndsWith or EqualsTo. */
  lemma MisreadCore(q: string, kind: ComparisonType, caseSensitive: bool, e: string)
    requires kind == Contains || kind == StartsWith
    requires q == StartAnchor(kind) + (FlagPart(caseSensitive) + e) + ""
    requires |e| > 0 && e[|e| - 1] == '$' && (FlagPart(caseSensitive) + e)[0] != '^' && NoOpenQuestion(e)
    ensures ExitPattern(q, caseSensitive)
            == Exit(if kind == Contains then EndsWith else EqualsTo, e[..|e| - 1], caseSensitive)
  {
    var m := e[..|e| - 1];
    InitNoCaseFlag(e);
    StripDollarEnd(q, StartAnchor(kind), FlagPart(caseSensitive), e);
    FlagRemovedFrom(caseSensitive, m);
    if kind == Contains {
      ExitOfKnownShape(q, EndsWith, caseSensitive, m);
    } else {
      ExitOfKnownShape(q, EqualsTo, caseSensitive, m);
    }
  }

  /** Stripping a start anchor and a middle that ends in '$' cuts that '$'. */
  lemma StripDollarEnd(q: string, a: string, f: string, e: string)
    requires a == "" || a == "^"
    requires q == a + (f + e) + "" && |e| > 0 && e[|e| - 1] == '$' && (f + e)[0] != '^'
    ensures StartsWithChar(q, '^') == (a == "^") && EndsWithChar(q, '$')
    ensures StripAnchors(q) == f + e[..|e| - 1]
  {
    var e' := e[..|e| - 1];
    assert e == e' + "$";
    assert q == a + (f + e') + "$";
    assert |f + e'| > 0 ==> (f + e')[0] == (f + e)[0];
    StripKnownAnchors(a, f + e', "$");
  }

  /** The round trip of a literal without metacharacters: entering pattern form
      and exiting again gives back the literal, the kind and the case flag. */
  lemma PatternRoundTrip(kind: ComparisonType, caseSensitive: bool, literal: string)
    requires kind != Regex && MetaFree(literal)
    ensures ExitPattern(FinalPattern(kind, caseSensitive, literal), caseSensitive)
            == Exit(kind, literal, caseSensitive)
  {
    EscapeIdentityIff(literal);
    assert !EndsWithChar(literal, '$') by {
      if |literal| > 0 {
        assert !IsMetachar(literal[|literal| - 1]);
      }
    }
    ExitInvertsFinalPattern(kind, caseSensitive, literal);
  }

  class RegexComparison {
    var comparisonType: ComparisonType
    var caseSensitive: bool
    var comparisonPattern: string

    constructor ()
      ensures comparisonType == Contains && !caseSensitive && comparisonPattern == ""
    {
      comparisonType, caseSensitive, comparisonPattern := Contains, false, "";
    }

    function GetFinalPattern(): string
      reads this
    {
      FinalPattern(comparisonType, caseSensitive, comparisonPattern)
    }

    /** The comparisonType setter: a no-op for the same kind; switching to Regex
        first replaces the pattern by the final pattern. */
    method SetComparisonType(value: ComparisonType)
      modifies this
      ensures value == old(comparisonType) ==> unchanged(this)
      ensures value != old(comparisonType) ==>
        && comparisonType == value
        && caseSensitive == old(caseSensitive)
        && comparisonPattern == (if value == Regex then old(GetFinalPattern()) else old(comparisonPattern))
    {
      if comparisonType == value {
        return;
      }
      if value == Regex {
        comparisonPattern := GetFinalPattern();
      }
      comparisonType := value;
    }

    method ExitRegexComparison()
      modifies this
      ensures Exit(comparisonType, comparisonPattern, caseSensitive)
              == ExitPattern(old(comparisonPattern), old(caseSensitive))
    {
      var starts := StartsWithChar(comparisonPattern, '^');
      var ends := EndsWithChar(comparisonPattern, '$');
      comparisonType := if starts && ends then EqualsTo
                        else if starts then StartsWith
                        else if ends then EndsWith
                        else Contains;
      if starts {
        comparisonPattern := comparisonPattern[1..];
      }
      if ends {
        comparisonPattern := comparisonPattern[..|comparisonPattern| - 1];
      }
      var temp := comparisonPattern;
      comparisonPattern := RemoveAll(comparisonPattern, CaseFlag);
      if temp == comparisonPattern {
        caseSensitive := true;
      }
    }

    /** IsMatch(string): false on an empty pattern, otherwise the engine's
        answer for the final pattern. */
    function IsMatch(input: string, regexIsMatch: (string, string) -> bool): (r: bool)
      reads this
      ensures comparisonPattern == "" ==> !r
      ensures r ==> regexIsMatch(input, GetFinalPattern())
      ensures comparisonPattern != "" && regexIsMatch(input, GetFinalPattern()) ==> r
    {
      comparisonPattern != "" && regexIsMatch(input, GetFinalPattern())
    }

    /** IsMatch(IEnumerable<string>): one answer per input, all false when the
        pattern is empty. */
    method IsMatchAll(inputs: seq<string>, regexIsMatch: (string, string) -> bool) returns (results: array<bool>)
      ensures fresh(results) && results.Length == |inputs|
      ensures forall i :: 0 <= i < |inputs| ==> results[i] == IsMatch(inputs[i], regexIsMatch)
    {
      results := new bool[|inputs|](_ => false);
      if comparisonPattern == "" {
        return;
      }
      var pattern := GetFinalPattern();
      for i := 0 to |inputs|
        invariant forall k :: 0 <= k < i ==> results[k] == regexIsMatch(inputs[k], pattern)
      {
        results[i] := regexIsMatch(inputs[i], pattern);
      }
    }
  }

  /** IsValidRegex: an empty pattern is never valid; otherwise the pattern is
      valid when the engine accepts it. */
  function IsValidRegex(pattern: string, compiles: string -> bool): (r: bool)
    ensures r ==> pattern != "" && compiles(pattern)
    ensures pattern != "" && compiles(pattern) ==> r
  {
    pattern != "" && compiles(pattern)
  }

  /** Entering regex mode and leaving it again restores a plain comparison
      whose pattern has no metacharacters. */
  method EnterAndExitRegexMode(rc: RegexComparison)
    requires rc.comparisonType != Regex && MetaFree(rc.comparisonPattern)
    modifies rc
    ensures rc.comparisonType == old(rc.comparisonType)
    ensures rc.comparisonPattern == old(rc.comparisonPattern)
    ensures rc.caseSensitive == old(rc.caseSensitive)
  {
    PatternRoundTrip(rc.comparisonType, rc.caseSensitive, rc.comparisonPattern);
    rc.SetComparisonType(Regex);
    rc.ExitRegexComparison();
  }
}
