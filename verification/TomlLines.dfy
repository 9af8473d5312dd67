/**
 The lines of telemt.toml that the editor of server.max_connections looks at. The three regular
 expressions of the program are modelled as the scans they come down to; `HeaderIff` and `MatchIff`
 state them as concatenations. A line is what stands between line feeds.
 */
module TomlLines {
  import opened Characters
  import opened Sequences

  type Int64 = v: int | -0x8000_0000_0000_0000 <= v < 0x8000_0000_0000_0000

  datatype Result<T> = Ok(value: T) | NoServerTable | NotAnInteger

  datatype KeyMatch = NoMatch | Match(indent: string, value: string, comment: string)

  const KEY := "max_connections"
  const TABLE := "server"

  // ---- scanning a line ---------------------------------------------------------------------

  predicate IsBlank(c: char) {
    c == ' ' || c == '\t' || c == '\n' || c == '\r' || c == '\U{0C}'
  }

  predicate AllSpace(s: string) {
    forall i :: 0 <= i < |s| ==> IsBlank(s[i])
  }

  predicate NoSpaceFirst(s: string) {
    s == "" || !IsBlank(s[0])
  }

  predicate NoSpaceLast(s: string) {
    s == "" || !IsBlank(s[|s| - 1])
  }

  predicate CommentOrEnd(s: string) {
    s == "" || s[0] == '#'
  }

  function SkipBlanks(s: string): (r: string)
    ensures NoSpaceFirst(r) && |r| <= |s| && s == s[..|s| - |r|] + r && AllSpace(s[..|s| - |r|])
  {
    if s == "" || !IsBlank(s[0]) then s else SkipBlanks(s[1..])
  }

  function DropBlanks(s: string): (r: string)
    ensures NoSpaceLast(r) && |r| <= |s| && s == r + s[|r|..] && AllSpace(s[|r|..])
  {
    if s == "" || !IsBlank(s[|s| - 1]) then s else DropBlanks(s[..|s| - 1])
  }

  /** Where the comment starts, the end of the text if there is none. */
  function HashIndex(s: string): (n: nat)
    ensures n <= |s| && '#' !in s[..n] && CommentOrEnd(s[n..])
  {
    if s == "" || s[0] == '#' then 0 else 1 + HashIndex(s[1..])
  }

  predicate IsServerHeader(line: string) {
    var a := SkipBlanks(line);
    a != "" && a[0] == '[' &&
    var b := SkipBlanks(a[1..]);
    TABLE <= b &&
    var c := SkipBlanks(b[|TABLE|..]);
    c != "" && c[0] == ']' && CommentOrEnd(SkipBlanks(c[1..]))
  }

  predicate IsTableHeader(line: string) {
    var a := SkipBlanks(line);
    a != "" && a[0] == '['
  }

  function MatchKey(line: string): KeyMatch {
    var a := SkipBlanks(line);
    if !(KEY <= a) then NoMatch else MatchAssignment(line[..|line| - |a|], SkipBlanks(a[|KEY|..]))
  }

  /** The equals sign, the value and the comment behind the key. */
  function MatchAssignment(indent: string, s: string): KeyMatch {
    if s == "" || s[0] != '=' then NoMatch
    else
      var t := SkipBlanks(s[1..]);
      var h := HashIndex(t);
      Match(indent, DropBlanks(t[..h]), t[h..])
  }

  predicate IsKeyLine(line: string) {
    MatchKey(line).Match?
  }

  lemma {:induction false} TrimLeftSkips(a: string, x: string)
    requires AllSpace(a) && NoSpaceFirst(x)
    ensures SkipBlanks(a + x) == x
  {
    if a == "" {
      assert a + x == x;
    } else {
      assert (a + x)[1..] == a[1..] + x;
      TrimLeftSkips(a[1..], x);
    }
  }

  lemma {:induction false} TrimRightSkips(x: string, a: string)
    requires AllSpace(a) && NoSpaceLast(x)
    ensures DropBlanks(x + a) == x
  {
    if a == "" {
      assert x + a == x;
    } else {
      assert (x + a)[..|x + a| - 1] == x + a[..|a| - 1];
      TrimRightSkips(x, a[..|a| - 1]);
    }
  }

  lemma {:induction false} HashIndexAfter(x: string, c: string)
    requires '#' !in x && CommentOrEnd(c)
    ensures HashIndex(x + c) == |x|
  {
    if x == "" {
      assert x + c == c;
    } else {
      assert (x + c)[1..] == x[1..] + c;
      HashIndexAfter(x[1..], c);
    }
  }

  /** The spaces in front of a text. */
  function Lead(s: string): (r: string)
    ensures AllSpace(r) && s == r + SkipBlanks(s)
  {
    s[..|s| - |SkipBlanks(s)|]
  }

  lemma HeadAndTail(s: string)
    requires s != ""
    ensures s == [s[0]] + s[1..]
  {
  }

  lemma PrefixAndTail(p: string, s: string)
    requires p <= s
    ensures s == p + s[|p|..]
  {
  }

  /** `^\s*\[\s*server\s*\]\s*(#.*)?$` on a line. */
  ghost predicate HeaderShape(line: string, s: string, t: string, u: string, v: string, comment: string) {
    && AllSpace(s) && AllSpace(t) && AllSpace(u) && AllSpace(v) && CommentOrEnd(comment)
    && line == s + ("[" + (t + ("server" + (u + ("]" + (v + comment))))))
  }

  lemma HeaderHasShape(line: string)
    requires IsServerHeader(line)
    ensures exists s, t, u, v, comment :: HeaderShape(line, s, t, u, v, comment)
  {
    var a := SkipBlanks(line);
    var b := SkipBlanks(a[1..]);
    var c := SkipBlanks(b[|TABLE|..]);
    var comment := SkipBlanks(c[1..]);
    HeadAndTail(a);
    PrefixAndTail(TABLE, b);
    HeadAndTail(c);
    assert HeaderShape(line, Lead(line), Lead(a[1..]), Lead(b[|TABLE|..]), Lead(c[1..]), comment);
  }

  lemma TailOfSum(p: string, s: string)
    ensures (p + s)[|p|..] == s && p <= p + s
  {
  }

  lemma ShapeIsHeader(line: string, s: string, t: string, u: string, v: string, comment: string)
    requires HeaderShape(line, s, t, u, v, comment)
    ensures IsServerHeader(line)
  {
    TrimLeftSkips(v, comment);
    var c := "]" + (v + comment);
    TailOfSum("]", v + comment);
    TrimLeftSkips(u, c);
    var b := TABLE + (u + c);
    TailOfSum(TABLE, u + c);
    TrimLeftSkips(t, b);
    var a := "[" + (t + b);
    TailOfSum("[", t + b);
    TrimLeftSkips(s, a);
  }

  lemma HeaderIff(line: string)
    ensures IsServerHeader(line) <==> exists s, t, u, v, comment :: HeaderShape(line, s, t, u, v, comment)
  {
    if IsServerHeader(line) {
      HeaderHasShape(line);
    }
    forall s, t, u, v, comment | HeaderShape(line, s, t, u, v, comment)
      ensures IsServerHeader(line)
    {
      ShapeIsHeader(line, s, t, u, v, comment);
    }
  }

  /** `^\s*\[` on a line: the header of any table. */
  lemma TableIff(line: string)
    ensures IsTableHeader(line) <==> exists s, rest :: AllSpace(s) && line == s + ("[" + rest)
  {
    if IsTableHeader(line) {
      HeadAndTail(SkipBlanks(line));
      assert AllSpace(Lead(line)) && line == Lead(line) + ("[" + SkipBlanks(line)[1..]);
    }
    forall s, rest | AllSpace(s) && line == s + ("[" + rest)
      ensures IsTableHeader(line)
    {
      TrimLeftSkips(s, "[" + rest);
    }
  }

  /**
   `^(\s*)max_connections\s*=\s*([^#]*?)\s*(#.*)?$` on a line: the second group has no space at either
   end because the space before it is taken greedily and the group itself is lazy.
   */
  ghost predicate KeyShape(line: string, m: KeyMatch, s: string, t: string, u: string) {
    && m.Match? && AllSpace(m.indent) && AllSpace(s) && AllSpace(t) && AllSpace(u)
    && '#' !in m.value && NoSpaceFirst(m.value) && NoSpaceLast(m.value) && CommentOrEnd(m.comment)
    && line == m.indent + ("max_connections" + (s + ("=" + (t + ((m.value + u) + m.comment)))))
    && (m.value == "" ==> u == "")
  }

  /** A value is trimmed on both sides, and nothing but a value is. */
  lemma ValueAndSpace(t: string)
    requires NoSpaceFirst(t)
    ensures var u := t[..HashIndex(t)]; var value := DropBlanks(u);
            && u == value + u[|value|..] && t == u + t[HashIndex(t)..]
            && '#' !in value && NoSpaceFirst(value) && (value == "" ==> u == "")
  {
    var u := t[..HashIndex(t)];
    assert u != "" ==> u[0] == t[0] && !IsBlank(u[0]);
  }

  lemma MatchHasShape(line: string)
    requires IsKeyLine(line)
    ensures exists s, t, u :: KeyShape(line, MatchKey(line), s, t, u)
  {
    var m := MatchKey(line);
    var a := SkipBlanks(line);
    var b := SkipBlanks(a[|KEY|..]);
    var t := SkipBlanks(b[1..]);
    PrefixAndTail(KEY, a);
    HeadAndTail(b);
    ValueAndSpace(t);
    var u := t[..HashIndex(t)];
    assert m.indent == Lead(line);
    assert KeyShape(line, m, Lead(a[|KEY|..]), Lead(b[1..]), u[|m.value|..]);
  }

  lemma ValueOfShape(m: KeyMatch, u: string)
    requires m.Match? && AllSpace(u) && '#' !in m.value && NoSpaceFirst(m.value) && NoSpaceLast(m.value)
    requires CommentOrEnd(m.comment) && (m.value == "" ==> u == "")
    ensures var w := (m.value + u) + m.comment; var h := HashIndex(w);
            NoSpaceFirst(w) && DropBlanks(w[..h]) == m.value && w[h..] == m.comment
  {
    var v := m.value + u;
    HashIndexAfter(v, m.comment);
    TailOfSum(v, m.comment);
    assert (v + m.comment)[..|v|] == v;
    TrimRightSkips(m.value, u);
  }

  lemma AssignmentMatches(m: KeyMatch, t: string, u: string)
    requires m.Match? && AllSpace(t) && AllSpace(u) && '#' !in m.value && NoSpaceFirst(m.value) && NoSpaceLast(m.value)
    requires CommentOrEnd(m.comment) && (m.value == "" ==> u == "")
    ensures MatchAssignment(m.indent, "=" + (t + ((m.value + u) + m.comment))) == m
  {
    var w := (m.value + u) + m.comment;
    ValueOfShape(m, u);
    TrimLeftSkips(t, w);
    var s := "=" + (t + w);
    TailOfSum("=", t + w);
    assert SkipBlanks(s[1..]) == w;
    assert s[0] == '=';
  }

  lemma ShapeMatches(line: string, m: KeyMatch, s: string, t: string, u: string)
    requires KeyShape(line, m, s, t, u)
    ensures MatchKey(line) == m
  {
    var b := "=" + (t + ((m.value + u) + m.comment));
    AssignmentMatches(m, t, u);
    assert b[0] == '=';
    TrimLeftSkips(s, b);
    var a := KEY + (s + b);
    TailOfSum(KEY, s + b);
    assert a[0] == KEY[0];
    TrimLeftSkips(m.indent, a);
    assert line == m.indent + a;
    assert line[..|line| - |a|] == m.indent;
  }

  lemma MatchIff(line: string, m: KeyMatch)
    requires m.Match?
    ensures MatchKey(line) == m <==> exists s, t, u :: KeyShape(line, m, s, t, u)
  {
    if MatchKey(line) == m {
      MatchHasShape(line);
    }
    forall s, t, u | KeyShape(line, m, s, t, u)
      ensures MatchKey(line) == m
    {
      ShapeMatches(line, m, s, t, u);
    }
  }

  lemma KeyLineIsNoTable(line: string)
    requires IsKeyLine(line)
    ensures !IsTableHeader(line) && !IsServerHeader(line)
  {
    var a := SkipBlanks(line);
    assert a[0] == KEY[0];
  }

  // ---- numbers -----------------------------------------------------------------------------

  function Digits(n: nat): (s: string)
    ensures s != "" && forall i :: 0 <= i < |s| ==> IsDigit(s[i])
  {
    var d := [('0' as int + n % 10) as char];
    if n < 10 then d else Digits(n / 10) + d
  }

  function FormatInt(v: int): string {
    if v < 0 then "-" + Digits(-v) else Digits(v)
  }

  function DigitValue(c: char): nat
    requires IsDigit(c)
  {
    c as int - '0' as int
  }

  function ParseDigits(s: string): nat
    requires forall i :: 0 <= i < |s| ==> IsDigit(s[i])
  {
    if s == "" then 0 else ParseDigits(s[..|s| - 1]) * 10 + DigitValue(s[|s| - 1])
  }

  predicate AllDigits(s: string) {
    s != "" && forall i :: 0 <= i < |s| ==> IsDigit(s[i])
  }

  /** A decimal integer of 64 bits: an optional sign and at least one digit. */
  function ParseInt(s: string): Result<Int64> {
    var signed := s != "" && (s[0] == '+' || s[0] == '-');
    var digits := if signed then s[1..] else s;
    if !AllDigits(digits) then NotAnInteger
    else
      var n: int := ParseDigits(digits);
      var v: int := if signed && s[0] == '-' then -n else n;
      if -0x8000_0000_0000_0000 <= v < 0x8000_0000_0000_0000 then Ok(v) else NotAnInteger
  }

  function WithoutUnderscores(s: string): string {
    if s == "" then ""
    else if s[0] == '_' then WithoutUnderscores(s[1..])
    else [s[0]] + WithoutUnderscores(s[1..])
  }

  /** An underscore in a number does not count, wherever it stands. */
  lemma {:induction false} UnderscoresDoNotCount(s: string, t: string)
    ensures WithoutUnderscores(s + "_" + t) == WithoutUnderscores(s + t)
  {
    if s == "" {
      assert ("_" + t)[1..] == t && s + "_" + t == "_" + t && s + t == t;
    } else {
      assert (s + "_" + t)[1..] == s[1..] + "_" + t && (s + t)[1..] == s[1..] + t;
      UnderscoresDoNotCount(s[1..], t);
    }
  }

  function PowerOfTen(n: nat): nat {
    if n == 0 then 1 else 10 * PowerOfTen(n - 1)
  }

  /** The value of decimal digits, each times the power of ten of its place. */
  ghost function Decimal(s: string): nat
    requires forall i :: 0 <= i < |s| ==> IsDigit(s[i])
  {
    if s == "" then 0 else DigitValue(s[0]) * PowerOfTen(|s| - 1) + Decimal(s[1..])
  }

  lemma {:induction false} DecimalOfLast(s: string)
    requires AllDigits(s)
    ensures Decimal(s) == Decimal(s[..|s| - 1]) * 10 + DigitValue(s[|s| - 1])
  {
    if |s| > 1 {
      var t := s[1..];
      DecimalOfLast(t);
      assert t[..|t| - 1] == s[..|s| - 1][1..];
      assert Decimal(s) == DigitValue(s[0]) * (10 * PowerOfTen(|s| - 2)) + Decimal(t);
      TensMove(DigitValue(s[0]), PowerOfTen(|s| - 2), Decimal(t[..|t| - 1]));
    }
  }

  lemma TensMove(d: int, power: int, n: int)
    ensures d * (10 * power) + 10 * n == 10 * (d * power + n)
  {
  }

  lemma {:induction false} ParseDigitsIs(s: string)
    requires forall i :: 0 <= i < |s| ==> IsDigit(s[i])
    ensures ParseDigits(s) == Decimal(s)
  {
    if s != "" {
      ParseDigitsIs(s[..|s| - 1]);
      DecimalOfLast(s);
    }
  }

  /** A numeral of the number: the digits of its value, with a plus in front or not, or a minus for the negative of it. */
  ghost predicate IsNumeral(s: string, digits: string, v: int) {
    && AllDigits(digits)
    && var n: int := Decimal(digits);
       || (s == digits && v == n) || (s == ['+'] + digits && v == n) || (s == ['-'] + digits && v == -n)
  }

  lemma NumeralParses(s: string, digits: string, v: Int64)
    requires IsNumeral(s, digits, v)
    ensures ParseInt(s) == Ok(v)
  {
    ParseDigitsIs(digits);
    assert IsDigit(digits[0]);
    assert s != digits ==> s[1..] == digits;
  }

  lemma ParsedIsNumeral(s: string, v: Int64)
    requires ParseInt(s) == Ok(v)
    ensures exists digits :: IsNumeral(s, digits, v)
  {
    var signed := s != "" && (s[0] == '+' || s[0] == '-');
    var digits := if signed then s[1..] else s;
    ParseDigitsIs(digits);
    assert signed ==> s == [s[0]] + digits;
    assert IsNumeral(s, digits, v);
  }

  /** What reads as a number of 64 bits is exactly a numeral of it. */
  lemma ParseIff(s: string, v: Int64)
    ensures ParseInt(s) == Ok(v) <==> exists digits :: IsNumeral(s, digits, v)
  {
    if ParseInt(s) == Ok(v) {
      ParsedIsNumeral(s, v);
    }
    forall digits | IsNumeral(s, digits, v)
      ensures ParseInt(s) == Ok(v)
    {
      NumeralParses(s, digits, v);
    }
  }

  /** A number is printed without leading zeros, with a minus in front if it is below zero. */
  lemma FormatIs(v: Int64)
    ensures var n: int, digits := v, if v < 0 then FormatInt(v)[1..] else FormatInt(v);
            && AllDigits(digits) && (digits[0] == '0' ==> v == 0 && digits == "0")
            && Decimal(digits) == (if n < 0 then -n else n) && FormatInt(v) == if n < 0 then ['-'] + digits else digits
  {
    var w: int := v;
    var n: nat := if w < 0 then -w else w;
    ParseDigitsOfDigits(n);
    ParseDigitsIs(Digits(n));
    NoLeadingZero(n);
    MinusInFront(Digits(n));
  }

  lemma {:induction false} NoLeadingZero(n: nat)
    ensures Digits(n)[0] == '0' ==> n == 0 && Digits(n) == "0"
  {
    if n >= 10 {
      NoLeadingZero(n / 10);
    }
  }

  lemma {:induction false} ParseDigitsOfDigits(n: nat)
    ensures ParseDigits(Digits(n)) == n
  {
    var s := Digits(n);
    var d := [('0' as int + n % 10) as char];
    if n >= 10 {
      ParseDigitsOfDigits(n / 10);
      assert s == Digits(n / 10) + d && s[..|s| - 1] == Digits(n / 10);
    } else {
      assert s[..0] == "";
    }
  }

  lemma {:induction false} NoUnderscores(s: string)
    requires '_' !in s
    ensures WithoutUnderscores(s) == s
  {
    if s != "" {
      NoUnderscores(s[1..]);
      assert s == [s[0]] + s[1..];
    }
  }

  lemma DigitsAreOneWord(s: string)
    requires AllDigits(s)
    ensures NoSpaceFirst(s) && NoSpaceLast(s) && '#' !in s && '\n' !in s && '_' !in s
  {
  }

  lemma MinusInFront(s: string)
    requires AllDigits(s)
    ensures var t := "-" + s;
            && t[1..] == s && NoSpaceFirst(t) && NoSpaceLast(t) && '#' !in t && '\n' !in t && '_' !in t
  {
    DigitsAreOneWord(s);
    var t := "-" + s;
    assert t[|t| - 1] == s[|s| - 1];
  }

  predicate OneWord(s: string) {
    s != "" && NoSpaceFirst(s) && NoSpaceLast(s) && '#' !in s && '\n' !in s
  }

  lemma ParseOfDigits(s: string)
    requires AllDigits(s)
    ensures var n: int := ParseDigits(s);
            && (n < 0x8000_0000_0000_0000 ==> ParseInt(s) == Ok(n))
            && (n <= 0x8000_0000_0000_0000 ==> ParseInt("-" + s) == Ok(-n))
  {
    assert IsDigit(s[0]);
    MinusInFront(s);
  }

  /** A number printed reads back as itself, and is one word without a comment mark. */
  lemma ParseOfFormat(v: Int64)
    ensures OneWord(FormatInt(v)) && ParseInt(WithoutUnderscores(FormatInt(v))) == Ok(v)
  {
    var w: int := v;
    var n: nat := if w < 0 then -w else w;
    ParseDigitsOfDigits(n);
    ParseOfDigits(Digits(n));
    DigitsAreOneWord(Digits(n));
    MinusInFront(Digits(n));
    NoUnderscores(FormatInt(v));
  }

  // ---- the line written --------------------------------------------------------------------

  function KeyLine(indent: string, v: Int64, comment: string): string {
    var line := indent + KEY + " = " + FormatInt(v);
    if comment != "" then line + " " + comment else line
  }

  lemma KeyLineMatches(indent: string, v: Int64, comment: string)
    requires AllSpace(indent) && CommentOrEnd(comment)
    ensures MatchKey(KeyLine(indent, v, comment)) == Match(indent, FormatInt(v), comment)
  {
    ParseOfFormat(v);
    var digits := FormatInt(v);
    var gap := if comment == "" then "" else " ";
    KeyLineShape(indent, digits, comment, gap);
    ShapeMatches(KeyLine(indent, v, comment), Match(indent, digits, comment), " ", " ", gap);
  }

  lemma KeyLineShape(indent: string, digits: string, comment: string, gap: string)
    requires gap == if comment == "" then "" else " "
    ensures var line := indent + KEY + " = " + digits;
            (if comment != "" then line + " " + comment else line)
            == indent + (KEY + (" " + ("=" + (" " + ((digits + gap) + comment)))))
  {
    var value := (digits + gap) + comment;
    var line := indent + KEY + " = " + digits;
    calc {
      indent + (KEY + (" " + ("=" + (" " + value))));
      { assert " " + ("=" + (" " + value)) == " = " + value; }
      indent + (KEY + (" = " + value));
      { Regroup(indent, KEY, " = " + value); Regroup(indent + KEY, " = ", value); }
      indent + KEY + " = " + value;
      { Regroup(digits, gap, comment); Regroup(indent + KEY + " = ", digits, gap + comment); }
      line + (gap + comment);
      { Regroup(line, gap, comment); assert gap == "" ==> line + gap + comment == line; }
      if comment != "" then line + " " + comment else line;
    }
  }

  lemma PartsAreOneLine(s: string, t: string)
    ensures '\n' !in s + t <==> '\n' !in s && '\n' !in t
  {
  }

  lemma ShapeIsOneLine(line: string, m: KeyMatch, s: string, t: string, u: string)
    requires KeyShape(line, m, s, t, u) && '\n' !in line
    ensures '\n' !in m.indent && '\n' !in m.comment
  {
    var w := (m.value + u) + m.comment;
    PartsAreOneLine(m.indent, KEY + (s + ("=" + (t + w))));
    PartsAreOneLine(KEY, s + ("=" + (t + w)));
    PartsAreOneLine(s, "=" + (t + w));
    PartsAreOneLine("=", t + w);
    PartsAreOneLine(t, w);
    PartsAreOneLine(m.value + u, m.comment);
  }

  lemma IndentAndComment(line: string)
    requires IsKeyLine(line)
    ensures var m := MatchKey(line);
            AllSpace(m.indent) && CommentOrEnd(m.comment) && ('\n' !in line ==> '\n' !in m.indent && '\n' !in m.comment)
  {
    MatchHasShape(line);
    var s, t, u :| KeyShape(line, MatchKey(line), s, t, u);
    if '\n' !in line {
      ShapeIsOneLine(line, MatchKey(line), s, t, u);
    }
  }

  lemma KeyLineIsOneLine(indent: string, v: Int64, comment: string)
    requires '\n' !in indent && '\n' !in comment
    ensures '\n' !in KeyLine(indent, v, comment)
  {
    ParseOfFormat(v);
    PartsAreOneLine(indent, KEY);
    PartsAreOneLine(indent + KEY, " = ");
    PartsAreOneLine(indent + KEY + " = ", FormatInt(v));
    var line := indent + KEY + " = " + FormatInt(v);
    PartsAreOneLine(line, " ");
    PartsAreOneLine(line + " ", comment);
  }

  lemma RewrittenKeyLine(line: string, v: Int64)
    requires IsKeyLine(line)
    ensures var m := MatchKey(line);
            && MatchKey(KeyLine(m.indent, v, m.comment)) == Match(m.indent, FormatInt(v), m.comment)
            && ('\n' !in line ==> '\n' !in KeyLine(m.indent, v, m.comment))
  {
    var m := MatchKey(line);
    IndentAndComment(line);
    KeyLineMatches(m.indent, v, m.comment);
    if '\n' !in line {
      KeyLineIsOneLine(m.indent, v, m.comment);
    }
  }

  lemma NewKeyLine(v: Int64)
    ensures MatchKey(KeyLine("", v, "")) == Match("", FormatInt(v), "") && '\n' !in KeyLine("", v, "")
  {
    KeyLineMatches("", v, "");
    KeyLineIsOneLine("", v, "");
  }
}
