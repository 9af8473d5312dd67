/**
 How the agent reads, records and compares telemt versions.

 The agent records the version it finds before an update with `Recorded` and checks it after a
 restart with `SameVersion`. The two read the same report differently, so a recorded version is
 not always one the node can be verified against again: `RecordedIsVerifiable` says exactly when.
 */
module Versions {
  import opened Characters

  /** The characters strings.TrimSpace removes. */
  predicate IsSpace(c: char) {
    || '\t' <= c <= '\r'
    || c == ' '
    || c as int in {0x85, 0xA0, 0x1680, 0x2028, 0x2029, 0x202F, 0x205F, 0x3000}
    || 0x2000 <= c as int <= 0x200A
  }

  function TrimLeft(s: string): string {
    if s != [] && IsSpace(s[0]) then TrimLeft(s[1..]) else s
  }

  function TrimRight(s: string): string {
    if s != [] && IsSpace(s[|s| - 1]) then TrimRight(s[..|s| - 1]) else s
  }

  function TrimSpace(s: string): string {
    TrimRight(TrimLeft(s))
  }

  function TrimPrefix(s: string, prefix: string): string {
    if prefix <= s then s[|prefix|..] else s
  }

  predicate IsSuffixChar(c: char) {
    IsDigit(c) || 'A' <= c <= 'Z' || 'a' <= c <= 'z' || c == '.' || c == '-'
  }

  /** Where the run of digits that starts at `i` ends. */
  function DigitsEnd(s: string, i: nat): (j: nat)
    requires i <= |s|
    ensures i <= j <= |s| && (j < |s| ==> !IsDigit(s[j]))
    ensures forall k :: i <= k < j ==> IsDigit(s[k])
    decreases |s| - i
  {
    if i < |s| && IsDigit(s[i]) then DigitsEnd(s, i + 1) else i
  }

  function SuffixEnd(s: string, i: nat): (j: nat)
    requires i <= |s|
    ensures i <= j <= |s| && (j < |s| ==> !IsSuffixChar(s[j]))
    ensures forall k :: i <= k < j ==> IsSuffixChar(s[k])
    decreases |s| - i
  {
    if i < |s| && IsSuffixChar(s[i]) then SuffixEnd(s, i + 1) else i
  }

  /** The end of `[0-9]+\.[0-9]+\.[0-9]+([.-][0-9A-Za-z.-]+)?` matched at `i`, or `i` without a match. */
  function VersionEnd(s: string, i: nat): (j: nat)
    requires i <= |s|
    ensures i <= j <= |s|
  {
    var a := DigitsEnd(s, i);
    if a == i || a == |s| || s[a] != '.' then i else
    var b := DigitsEnd(s, a + 1);
    if b == a + 1 || b == |s| || s[b] != '.' then i else
    var c := DigitsEnd(s, b + 1);
    if c == b + 1 then i else
    if c < |s| && (s[c] == '.' || s[c] == '-') && SuffixEnd(s, c + 1) > c + 1 then SuffixEnd(s, c + 1) else c
  }

  function FindVersion(s: string, from: nat): string
    requires from <= |s|
    decreases |s| - from
  {
    if VersionEnd(s, from) > from then s[from..VersionEnd(s, from)]
    else if from == |s| then ""
    else FindVersion(s, from + 1)
  }

  /** The leftmost version in a report, empty when there is none. */
  function ParseVersionOutput(s: string): string {
    FindVersion(s, 0)
  }

  /** What the preflight records as the installed version. */
  function Recorded(report: string): string {
    var v := ParseVersionOutput(report);
    if v == "" then TrimSpace(report) else v
  }

  function NormalizeVersion(v: string): string {
    TrimPrefix(TrimSpace(TrimPrefix(TrimSpace(v), "telemt ")), "v")
  }

  /** strings.EqualFold on ASCII. */
  predicate EqualFold(a: string, b: string) {
    |a| == |b| && forall i :: 0 <= i < |a| ==> LowerChar(a[i]) == LowerChar(b[i])
  }

  predicate SameVersion(installed: string, wanted: string) {
    var a, b := NormalizeVersion(installed), NormalizeVersion(wanted);
    a != "" && EqualFold(a, b)
  }

  /** The comparison the preflight uses to refuse an update to the version already installed. */
  predicate SameTelemtVersion(a: string, b: string) {
    var x, y := TrimPrefix(TrimSpace(a), "v"), TrimPrefix(TrimSpace(b), "v");
    x != "" && x == y
  }

  // ---- what trimming does -------------------------------------------------------------

  lemma {:induction false} TrimmedEnds(s: string)
    ensures var t := TrimRight(s);
            t <= s && (t != [] ==> !IsSpace(t[|t| - 1])) && (s != [] && !IsSpace(s[|s| - 1]) ==> t == s)
  {
    if s != [] && IsSpace(s[|s| - 1]) {
      TrimmedEnds(s[..|s| - 1]);
    }
  }

  lemma {:induction false} TrimmedStart(s: string)
    ensures var t := TrimLeft(s);
            (t != [] ==> !IsSpace(t[0])) && (s != [] && !IsSpace(s[0]) ==> t == s)
  {
    if s != [] && IsSpace(s[0]) {
      TrimmedStart(s[1..]);
    }
  }

  /** A trimmed string neither starts nor ends with white space, and a string like that is left alone. */
  lemma TrimSpaceEnds(s: string)
    ensures var t := TrimSpace(s);
            t != [] ==> !IsSpace(t[0]) && !IsSpace(t[|t| - 1])
    ensures s != [] && !IsSpace(s[0]) && !IsSpace(s[|s| - 1]) ==> TrimSpace(s) == s
    ensures TrimSpace([]) == []
  {
    TrimmedStart(s);
    TrimmedEnds(TrimLeft(s));
  }

  lemma TrimSpaceIdempotent(s: string)
    ensures TrimSpace(TrimSpace(s)) == TrimSpace(s)
  {
    TrimSpaceEnds(s);
    TrimSpaceEnds(TrimSpace(s));
  }

  /** The code points of Unicode white space. */
  ghost predicate White(c: char) {
    || 9 <= c as int <= 13 || c as int in {0x20, 0x85, 0xA0, 0x1680, 0x2028, 0x2029, 0x202F, 0x205F, 0x3000}
    || 0x2000 <= c as int <= 0x200A
  }

  ghost predicate AllSpace(s: string) {
    forall i :: 0 <= i < |s| ==> White(s[i])
  }

  ghost predicate IsTrimmed(s: string) {
    s != "" ==> !White(s[0]) && !White(s[|s| - 1])
  }

  /** The text is the other one between white space. */
  ghost predicate Trims(s: string, t: string) {
    IsTrimmed(t) && exists lead, trail :: AllSpace(lead) && AllSpace(trail) && s == lead + t + trail
  }

  /** The text is the other one behind the prefix, or does not have it. */
  ghost predicate Drops(s: string, prefix: string, t: string) {
    s == prefix + t || (s == t && !(prefix <= s))
  }

  lemma {:induction false} LeftTrimmed(s: string) returns (lead: string)
    ensures AllSpace(lead) && s == lead + TrimLeft(s)
  {
    if s != "" && IsSpace(s[0]) {
      lead := LeftTrimmed(s[1..]);
      lead := [s[0]] + lead;
      assert s == [s[0]] + s[1..];
    } else {
      lead := "";
    }
  }

  lemma {:induction false} RightTrimmed(s: string) returns (trail: string)
    ensures AllSpace(trail) && s == TrimRight(s) + trail
  {
    if s != "" && IsSpace(s[|s| - 1]) {
      trail := RightTrimmed(s[..|s| - 1]);
      trail := trail + [s[|s| - 1]];
      assert s == s[..|s| - 1] + [s[|s| - 1]];
    } else {
      trail := "";
    }
  }

  lemma {:induction false} LeftTrims(lead: string, t: string)
    requires AllSpace(lead) && (t != "" ==> !IsSpace(t[0]))
    ensures TrimLeft(lead + t) == t
  {
    if lead == "" {
      assert lead + t == t;
    } else {
      assert (lead + t)[1..] == lead[1..] + t;
      LeftTrims(lead[1..], t);
    }
  }

  lemma {:induction false} RightTrims(t: string, trail: string)
    requires AllSpace(trail) && (t != "" ==> !IsSpace(t[|t| - 1]))
    ensures TrimRight(t + trail) == t
  {
    if trail == "" {
      assert t + trail == t;
    } else {
      assert (t + trail)[..|t + trail| - 1] == t + trail[..|trail| - 1];
      RightTrims(t, trail[..|trail| - 1]);
    }
  }

  lemma TrimIff(s: string, t: string)
    ensures TrimSpace(s) == t <==> Trims(s, t)
  {
    var lead := LeftTrimmed(s);
    var trail := RightTrimmed(TrimLeft(s));
    TrimSpaceEnds(s);
    assert s == lead + TrimSpace(s) + trail;
    forall lead', trail' | AllSpace(lead') && AllSpace(trail') && s == lead' + t + trail' && IsTrimmed(t)
      ensures TrimSpace(s) == t
    {
      assert s == lead' + (t + trail');
      if t == "" {
        LeftTrims(lead' + trail', "");
        assert s == (lead' + trail') + "";
      } else {
        LeftTrims(lead', t + trail');
        RightTrims(t, trail');
      }
    }
  }

  lemma DropIff(s: string, prefix: string, t: string)
    ensures TrimPrefix(s, prefix) == t <==> Drops(s, prefix, t)
  {
    if prefix <= s {
      assert s == prefix + s[|prefix|..];
    }
  }

  /** White space, a prefix "telemt ", white space again and a v, each left out where it is there. */
  ghost predicate NormalIs(v: string, n: string) {
    exists a, b, c :: Trims(v, a) && Drops(a, "telemt ", b) && Trims(b, c) && Drops(c, "v", n)
  }

  lemma NormalizeIff(v: string, n: string)
    ensures NormalizeVersion(v) == n <==> NormalIs(v, n)
  {
    hide TrimSpace, TrimPrefix, Trims, Drops;
    var a := TrimSpace(v);
    var b := TrimPrefix(a, "telemt ");
    var c := TrimSpace(b);
    TrimIff(v, a);
    DropIff(a, "telemt ", b);
    TrimIff(b, c);
    DropIff(c, "v", TrimPrefix(c, "v"));
    assert NormalIs(v, NormalizeVersion(v));
    forall a', b', c' | Trims(v, a') && Drops(a', "telemt ", b') && Trims(b', c') && Drops(c', "v", n)
      ensures NormalizeVersion(v) == n
    {
      TrimIff(v, a');
      DropIff(a', "telemt ", b');
      TrimIff(b', c');
      DropIff(c', "v", n);
    }
  }

  /** Two versions are the same to the agent if what is left of them is, whatever the case of letters, and is something. */
  lemma SameVersionIff(installed: string, wanted: string)
    ensures SameVersion(installed, wanted) <==>
              exists m, n :: NormalIs(installed, m) && NormalIs(wanted, n) && m != "" && SameText(m, n)
  {
    hide NormalIs, NormalizeVersion;
    var m, n := NormalizeVersion(installed), NormalizeVersion(wanted);
    NormalizeIff(installed, m);
    NormalizeIff(wanted, n);
    forall m', n' | NormalIs(installed, m') && NormalIs(wanted, n')
      ensures m' == m && n' == n
    {
      NormalizeIff(installed, m');
      NormalizeIff(wanted, n');
    }
  }

  /** A version, spelled with or without white space around it and a v in front. */
  ghost predicate Spells(s: string, core: string) {
    exists a :: Trims(s, a) && Drops(a, "v", core)
  }

  lemma SpellsIff(s: string, core: string)
    ensures TrimPrefix(TrimSpace(s), "v") == core <==> Spells(s, core)
  {
    hide TrimSpace, TrimPrefix, Trims, Drops;
    TrimIff(s, TrimSpace(s));
    DropIff(TrimSpace(s), "v", TrimPrefix(TrimSpace(s), "v"));
    forall a | Trims(s, a) && Drops(a, "v", core)
      ensures TrimPrefix(TrimSpace(s), "v") == core
    {
      TrimIff(s, a);
      DropIff(a, "v", core);
    }
  }

  /** The panel and the preflight take two versions for the same if they spell the same thing, and something. */
  lemma SameTelemtVersionIff(a: string, b: string)
    ensures SameTelemtVersion(a, b) <==> exists core :: core != "" && Spells(a, core) && Spells(b, core)
  {
    hide TrimSpace, TrimPrefix, Spells;
    SpellsIff(a, TrimPrefix(TrimSpace(a), "v"));
    SpellsIff(b, TrimPrefix(TrimSpace(b), "v"));
    forall core | Spells(a, core) && Spells(b, core)
      ensures TrimPrefix(TrimSpace(a), "v") == core == TrimPrefix(TrimSpace(b), "v")
    {
      SpellsIff(a, core);
      SpellsIff(b, core);
    }
  }

  // ---- what the version pattern finds --------------------------------------------------

  ghost predicate DigitsAt(s: string, i: nat, j: nat) {
    i < j <= |s| && forall k :: i <= k < j ==> '0' <= s[k] <= '9'
  }

  /** `[0-9A-Za-z.-]` */
  ghost predicate InSuffix(c: char) {
    '0' <= c <= '9' || 'A' <= c <= 'Z' || 'a' <= c <= 'z' || c == '.' || c == '-'
  }

  /** `[0-9]+\.[0-9]+\.[0-9]+([.-][0-9A-Za-z.-]+)?` from `i` up to `j`, with dots at `a` and `b` and digits up to `c`. */
  ghost predicate VersionParts(s: string, i: nat, a: nat, b: nat, c: nat, j: nat) {
    && DigitsAt(s, i, a) && DigitsAt(s, a + 1, b) && DigitsAt(s, b + 1, c) && c <= j <= |s|
    && s[a] == '.' && s[b] == '.'
    && (j == c || (c + 1 < j && (s[c] == '.' || s[c] == '-') && forall k :: c < k < j ==> InSuffix(s[k])))
  }

  ghost predicate VersionSpan(s: string, i: nat, j: nat) {
    exists a: nat, b: nat, c: nat :: VersionParts(s, i, a, b, c, j)
  }

  /** The span found is one of a version, and the longest that starts there. */
  lemma VersionEndIs(s: string, i: nat)
    requires i <= |s|
    ensures VersionEnd(s, i) > i ==> VersionSpan(s, i, VersionEnd(s, i))
    ensures forall j: nat :: VersionSpan(s, i, j) ==> i < j <= VersionEnd(s, i)
  {
    var e := VersionEnd(s, i);
    if e > i {
      var a := DigitsEnd(s, i);
      var b := DigitsEnd(s, a + 1);
      var c := DigitsEnd(s, b + 1);
      assert VersionParts(s, i, a, b, c, e);
    }
    forall j: nat | VersionSpan(s, i, j)
      ensures i < j <= e
    {
      var a: nat, b: nat, c: nat :| VersionParts(s, i, a, b, c, j);
      SpanEnds(s, i, a, b, c, j);
    }
  }

  lemma SpanEnds(s: string, i: nat, a: nat, b: nat, c: nat, j: nat)
    requires i <= |s| && VersionParts(s, i, a, b, c, j)
    ensures i < j <= VersionEnd(s, i)
  {
    assert a == DigitsEnd(s, i);
    assert b == DigitsEnd(s, a + 1);
    assert c <= DigitsEnd(s, b + 1);
    if j > c {
      assert !IsDigit(s[c]) && c == DigitsEnd(s, b + 1);
      assert IsSuffixChar(s[c + 1]) && j <= SuffixEnd(s, c + 1);
    }
  }

  /** The leftmost version from `from` on: `v` at `i`. */
  ghost predicate LeftmostAt(s: string, from: nat, i: nat, v: string) {
    && from <= i && i + |v| <= |s| && v == s[i..i + |v|] && VersionSpan(s, i, i + |v|)
    && (forall j: nat :: VersionSpan(s, i, j) ==> j <= i + |v|)
    && (forall k: nat, j: nat :: from <= k < i ==> !VersionSpan(s, k, j))
  }

  lemma {:induction false} FindVersionIs(s: string, from: nat) returns (i: nat)
    requires from <= |s|
    ensures FindVersion(s, from) != "" ==> LeftmostAt(s, from, i, FindVersion(s, from))
    ensures FindVersion(s, from) == "" ==> forall k: nat, j: nat :: from <= k <= |s| ==> !VersionSpan(s, k, j)
    decreases |s| - from
  {
    hide VersionSpan, VersionEnd;
    i := from;
    VersionEndIs(s, from);
    if VersionEnd(s, from) == from && from < |s| {
      i := FindVersionIs(s, from + 1);
    }
  }

  /** The version of a report is the leftmost, and the longest of those; there is none if nothing in it is one. */
  lemma ParsedIs(report: string)
    ensures var v := ParseVersionOutput(report);
            if v == "" then forall i: nat, j: nat :: i <= |report| ==> !VersionSpan(report, i, j)
            else exists i: nat :: LeftmostAt(report, 0, i, v)
  {
    var i := FindVersionIs(report, 0);
  }


  lemma {:induction false} DigitsRun(s: string, i: nat)
    requires i <= |s|
    ensures DigitsEnd(s, i) > i ==> IsDigit(s[i]) && IsDigit(s[DigitsEnd(s, i) - 1])
    decreases |s| - i
  {
    if i < |s| && IsDigit(s[i]) {
      DigitsRun(s, i + 1);
    }
  }

  lemma VersionEnds(s: string, i: nat)
    requires i <= |s| && VersionEnd(s, i) > i
    ensures IsDigit(s[i]) && IsSuffixChar(s[VersionEnd(s, i) - 1])
  {
    DigitsRun(s, i);
    var a := DigitsEnd(s, i);
    var b := DigitsEnd(s, a + 1);
    DigitsRun(s, b + 1);
  }

  lemma {:induction false} FoundVersion(s: string, from: nat)
    requires from <= |s|
    ensures var v := FindVersion(s, from);
            v != "" ==> IsDigit(v[0]) && IsSuffixChar(v[|v| - 1])
    decreases |s| - from
  {
    if VersionEnd(s, from) > from {
      VersionEnds(s, from);
    } else if from < |s| {
      FoundVersion(s, from + 1);
    }
  }

  /** A version cut out of a report is its own normal form. */
  lemma ParsedIsNormal(report: string)
    requires ParseVersionOutput(report) != ""
    ensures NormalizeVersion(ParseVersionOutput(report)) == ParseVersionOutput(report)
  {
    var v := ParseVersionOutput(report);
    FoundVersion(report, 0);
    TrimSpaceEnds(v);
    assert "telemt "[0] == 't' && "v"[0] == 'v';
  }

  /**
   A node can be verified against the version recorded for it exactly when its report, stripped of
   white space and of the prefixes "telemt " and "v", is not empty and is nothing but the version
   found in it (or holds no version at all).
   */
  lemma RecordedIsVerifiable(report: string)
    ensures SameVersion(report, Recorded(report)) <==>
              && NormalizeVersion(report) != ""
              && (ParseVersionOutput(report) == "" || EqualFold(NormalizeVersion(report), ParseVersionOutput(report)))
  {
    if ParseVersionOutput(report) == "" {
      TrimSpaceIdempotent(report);
    } else {
      ParsedIsNormal(report);
    }
  }

  const BUILD := "3.5.7 (ab)"

  lemma BuildIsParsed()
    ensures ParseVersionOutput(BUILD) == "3.5.7"
  {
    assert DigitsEnd(BUILD, 0) == 1;
    assert DigitsEnd(BUILD, 2) == 3;
    assert DigitsEnd(BUILD, 4) == 5;
    assert VersionEnd(BUILD, 0) == 5;
    assert BUILD[0..5] == "3.5.7";
  }

  /** A build string after the version is enough to make the recorded version unverifiable. */
  lemma BuildStringIsNotVerifiable()
    ensures Recorded("3.5.7 (ab)") == "3.5.7"
    ensures !SameVersion("3.5.7 (ab)", "3.5.7")
  {
    BuildIsParsed();
    hide ParseVersionOutput;
    TrimSpaceEnds(BUILD);
    TrimSpaceEnds("3.5.7");
  }
}
