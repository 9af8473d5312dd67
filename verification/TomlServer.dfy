/**
 Reads and writes the one key max_connections of the [server] table in telemt.toml, leaving every other
 line as it was. The scan over the lines is stated for any grammar of lines, and then for the real one.
 */
module TomlServer {
  import opened TomlLines

  const DEFAULT_MAX_CONNECTIONS: Int64 := 10000

  /** What the editor asks of a line, and the lines and numbers it writes. */
  datatype Grammar = Grammar(
    isHeader: string -> bool, isTable: string -> bool, matchKey: string -> KeyMatch,
    keyLine: (string, Int64, string) -> string, format: Int64 -> string, parse: string -> Result<Int64>)
  {
    predicate IsKey(line: string) {
      matchKey(line).Match?
    }

    /** The key line with another value. */
    function Rewrite(line: string, v: Int64): string
      requires IsKey(line)
    {
      keyLine(matchKey(line).indent, v, matchKey(line).comment)
    }

    ghost predicate KeyIsNoHeader(line: string) {
      IsKey(line) ==> !isTable(line) && !isHeader(line)
    }

    ghost predicate RewriteIsKey(line: string, v: Int64) {
      IsKey(line) ==>
        && matchKey(Rewrite(line, v)) == matchKey(line).(value := format(v))
        && ('\n' !in line ==> '\n' !in Rewrite(line, v))
    }

    ghost predicate NewKey(v: Int64) {
      && matchKey(keyLine("", v, "")) == Match("", format(v), "") && '\n' !in keyLine("", v, "")
      && parse(format(v)) == Ok(v)
    }

    ghost predicate Sound() {
      && (forall line :: KeyIsNoHeader(line))
      && (forall line, v: Int64 :: RewriteIsKey(line, v))
      && (forall v: Int64 :: NewKey(v))
    }
  }

  function ParseValue(s: string): Result<Int64> {
    ParseInt(WithoutUnderscores(s))
  }

  const TELEMT := Grammar(IsServerHeader, IsTableHeader, MatchKey,
    (indent: string, v: Int64, comment: string) => KeyLine(indent, v, comment), (v: Int64) => FormatInt(v), ParseValue)

  lemma TelemtMatches(line: string)
    ensures TELEMT.matchKey(line) == MatchKey(line)
  {
  }

  lemma TelemtWrites(indent: string, v: Int64, comment: string)
    ensures TELEMT.keyLine(indent, v, comment) == KeyLine(indent, v, comment)
  {
  }

  lemma TelemtFormats(v: Int64)
    ensures TELEMT.format(v) == FormatInt(v)
  {
  }

  lemma TelemtParses(s: string)
    ensures TELEMT.parse(s) == ParseInt(WithoutUnderscores(s))
  {
  }

  lemma TelemtRewriteIsKey(line: string, v: Int64)
    ensures TELEMT.RewriteIsKey(line, v)
  {
    TelemtMatches(line);
    if IsKeyLine(line) {
      RewrittenKeyLine(line, v);
      var m := MatchKey(line);
      TelemtWrites(m.indent, v, m.comment);
      TelemtFormats(v);
      assert TELEMT.Rewrite(line, v) == KeyLine(m.indent, v, m.comment);
      TelemtMatches(KeyLine(m.indent, v, m.comment));
    }
  }

  lemma TelemtNewKey(v: Int64)
    ensures TELEMT.NewKey(v)
  {
    NewKeyLine(v);
    TelemtWrites("", v, "");
    TelemtFormats(v);
    TelemtMatches(KeyLine("", v, ""));
    ParseOfFormat(v);
    TelemtParses(FormatInt(v));
  }

  lemma TelemtIsSound()
    ensures TELEMT.Sound()
  {
    forall line
      ensures TELEMT.KeyIsNoHeader(line)
    {
      if IsKeyLine(line) {
        KeyLineIsNoTable(line);
      }
    }
    forall line, v: Int64
      ensures TELEMT.RewriteIsKey(line, v)
    {
      TelemtRewriteIsKey(line, v);
    }
    forall v: Int64
      ensures TELEMT.NewKey(v)
    {
      TelemtNewKey(v);
    }
  }

  // ---- lines -------------------------------------------------------------------------------

  function Split(s: string): (lines: seq<string>)
    ensures lines != [] && (forall i :: 0 <= i < |lines| ==> '\n' !in lines[i])
  {
    if s == "" then [""]
    else
      var rest := Split(s[1..]);
      if s[0] == '\n' then [""] + rest else [[s[0]] + rest[0]] + rest[1..]
  }

  function Join(lines: seq<string>): string {
    if lines == [] then ""
    else if |lines| == 1 then lines[0]
    else lines[0] + "\n" + Join(lines[1..])
  }

  lemma {:induction false} SplitOfLine(line: string)
    requires '\n' !in line
    ensures Split(line) == [line]
  {
    if line != "" {
      SplitOfLine(line[1..]);
      assert line == [line[0]] + line[1..];
    }
  }

  lemma {:induction false} SplitOfFirst(line: string, rest: string)
    requires '\n' !in line
    ensures Split(line + "\n" + rest) == [line] + Split(rest)
  {
    var s := line + "\n" + rest;
    if line == "" {
      assert s[1..] == rest;
    } else {
      assert s[1..] == line[1..] + "\n" + rest;
      SplitOfFirst(line[1..], rest);
      assert line == [line[0]] + line[1..];
    }
  }

  lemma {:induction false} SplitOfJoin(lines: seq<string>)
    requires lines != [] && forall i :: 0 <= i < |lines| ==> '\n' !in lines[i]
    ensures Split(Join(lines)) == lines
  {
    if |lines| == 1 {
      SplitOfLine(lines[0]);
    } else {
      SplitOfJoin(lines[1..]);
      SplitOfFirst(lines[0], Join(lines[1..]));
    }
  }

  lemma {:induction false} JoinOfSplit(s: string)
    ensures Join(Split(s)) == s
  {
    if s != "" {
      JoinOfSplit(s[1..]);
      var rest := Split(s[1..]);
      if s[0] == '\n' {
        assert ([""] + rest)[1..] == rest;
        assert s == "\n" + s[1..];
      } else {
        var lines := [[s[0]] + rest[0]] + rest[1..];
        assert lines[1..] == rest[1..];
        assert s == [s[0]] + s[1..];
      }
    }
  }

  // ---- the [server] table ------------------------------------------------------------------

  /** The first line from `from` on that satisfies `p`, the number of lines if none does. */
  function First(lines: seq<string>, p: string -> bool, from: nat): (k: nat)
    requires from <= |lines|
    ensures from <= k <= |lines| && (k < |lines| ==> p(lines[k]))
    ensures forall j :: from <= j < k ==> !p(lines[j])
    decreases |lines| - from
  {
    if from == |lines| || p(lines[from]) then from else First(lines, p, from + 1)
  }

  lemma FirstIs(lines: seq<string>, p: string -> bool, from: nat, k: nat)
    requires from <= k <= |lines| && (k < |lines| ==> p(lines[k]))
    requires forall j :: from <= j < k ==> !p(lines[j])
    ensures First(lines, p, from) == k
  {
  }

  function Header(g: Grammar, lines: seq<string>): nat {
    First(lines, g.isHeader, 0)
  }

  predicate HasServer(g: Grammar, lines: seq<string>) {
    Header(g, lines) < |lines|
  }

  function End(g: Grammar, lines: seq<string>): nat
    requires HasServer(g, lines)
  {
    First(lines, g.isTable, Header(g, lines) + 1)
  }

  /** The first key line of the table, its end if it has none. */
  function KeyAt(g: Grammar, lines: seq<string>): (k: nat)
    requires HasServer(g, lines)
    ensures Header(g, lines) < k <= End(g, lines)
  {
    var k := First(lines, g.IsKey, Header(g, lines) + 1);
    if k < End(g, lines) then k else End(g, lines)
  }

  function GetLines(g: Grammar, lines: seq<string>): Result<Int64> {
    if !HasServer(g, lines) then NoServerTable
    else if KeyAt(g, lines) == End(g, lines) then Ok(DEFAULT_MAX_CONNECTIONS)
    else g.parse(g.matchKey(lines[KeyAt(g, lines)]).value)
  }

  function SetLines(g: Grammar, lines: seq<string>, v: Int64): Result<seq<string>> {
    if !HasServer(g, lines) then NoServerTable
    else
      var h, k := Header(g, lines), KeyAt(g, lines);
      if k < End(g, lines) then Ok(lines[k := g.Rewrite(lines[k], v)])
      else Ok(lines[..h + 1] + [g.keyLine("", v, "")] + lines[h + 1..])
  }

  function Get(g: Grammar, raw: string): Result<Int64> {
    GetLines(g, Split(raw))
  }

  function Set(g: Grammar, raw: string, v: Int64): Result<string> {
    match SetLines(g, Split(raw), v)
    case Ok(lines) => Ok(Join(lines))
    case _ => NoServerTable
  }

  // ---- the laws on lines -------------------------------------------------------------------

  lemma RewriteKeeps(g: Grammar, lines: seq<string>, v: Int64)
    requires g.Sound() && HasServer(g, lines) && KeyAt(g, lines) < End(g, lines)
    ensures var m := g.matchKey(lines[KeyAt(g, lines)]);
            var after := SetLines(g, lines, v).value;
            && |after| == |lines| && HasServer(g, after)
            && Header(g, after) == Header(g, lines) && End(g, after) == End(g, lines) && KeyAt(g, after) == KeyAt(g, lines)
            && g.matchKey(after[KeyAt(g, lines)]) == Match(m.indent, g.format(v), m.comment)
  {
    var h, k, e := Header(g, lines), KeyAt(g, lines), End(g, lines);
    var after := lines[k := g.Rewrite(lines[k], v)];
    assert g.RewriteIsKey(lines[k], v) && g.KeyIsNoHeader(after[k]);
    FirstIs(after, g.isHeader, 0, h);
    FirstIs(after, g.isTable, h + 1, e);
    FirstIs(after, g.IsKey, h + 1, k);
  }

  lemma InsertKeeps(g: Grammar, lines: seq<string>, v: Int64)
    requires g.Sound() && HasServer(g, lines) && KeyAt(g, lines) == End(g, lines)
    ensures var after := SetLines(g, lines, v).value;
            && |after| == |lines| + 1 && HasServer(g, after)
            && Header(g, after) == Header(g, lines) && End(g, after) == End(g, lines) + 1 && KeyAt(g, after) == Header(g, lines) + 1
            && g.matchKey(after[Header(g, lines) + 1]) == Match("", g.format(v), "")
  {
    var h, e := Header(g, lines), End(g, lines);
    var after := lines[..h + 1] + [g.keyLine("", v, "")] + lines[h + 1..];
    assert g.NewKey(v) && g.KeyIsNoHeader(after[h + 1]);
    FirstIs(after, g.isHeader, 0, h);
    forall j | h + 1 <= j < e + 1
      ensures !g.isTable(after[j])
    {
      assert j > h + 1 ==> after[j] == lines[j - 1];
    }
    assert e < |lines| ==> after[e + 1] == lines[e];
    FirstIs(after, g.isTable, h + 1, e + 1);
    FirstIs(after, g.IsKey, h + 1, h + 1);
  }

  /** Where `line` sits in `after`, the other lines are those of `before`, in order. */
  ghost predicate OthersKept(before: seq<string>, after: seq<string>, k: nat, added: bool) {
    && k < |after| && |after| == |before| + (if added then 1 else 0)
    && after[..k] == before[..k]
    && after[k + 1..] == (if added then before[k..] else before[k + 1..])
  }

  /**
   `after` is `before` with the key set: the first key line of the table is rewritten with its indentation and
   comment, or one is added right after the header; every other line stays, in its place.
   */
  ghost predicate KeySet(g: Grammar, before: seq<string>, after: seq<string>, v: Int64) {
    && HasServer(g, before) && HasServer(g, after)
    && var added, k := KeyAt(g, before) == End(g, before), KeyAt(g, after);
       && k < End(g, after)
       && k == (if added then Header(g, before) + 1 else KeyAt(g, before))
       && OthersKept(before, after, k, added)
       && g.matchKey(after[k]).Match?
       && g.matchKey(after[k]) == if added then Match("", g.format(v), "") else g.matchKey(before[k]).(value := g.format(v))
  }

  /** What setting the key does: it fails only without a [server] table, and reading gives the value set. */
  lemma SetLinesLaw(g: Grammar, lines: seq<string>, v: Int64)
    requires g.Sound()
    ensures SetLines(g, lines, v).Ok? <==> HasServer(g, lines)
    ensures !SetLines(g, lines, v).Ok? ==> SetLines(g, lines, v).NoServerTable? && GetLines(g, lines).NoServerTable?
    ensures HasServer(g, lines) ==>
              var after := SetLines(g, lines, v).value; KeySet(g, lines, after, v) && GetLines(g, after) == Ok(v)
  {
    assert g.NewKey(v);
    if HasServer(g, lines) {
      if KeyAt(g, lines) < End(g, lines) {
        RewriteKeeps(g, lines, v);
      } else {
        InsertKeeps(g, lines, v);
      }
    }
  }

  lemma RewriteTwice(g: Grammar, lines: seq<string>, v: Int64, w: Int64)
    requires g.Sound() && HasServer(g, lines) && KeyAt(g, lines) < End(g, lines)
    ensures SetLines(g, SetLines(g, lines, v).value, w) == SetLines(g, lines, w)
  {
    RewriteKeeps(g, lines, v);
    var k := KeyAt(g, lines);
    var after := SetLines(g, lines, v).value;
    assert g.Rewrite(after[k], w) == g.Rewrite(lines[k], w);
    assert after[k := g.Rewrite(after[k], w)] == lines[k := g.Rewrite(lines[k], w)];
  }

  lemma InsertThenRewrite(g: Grammar, lines: seq<string>, v: Int64, w: Int64)
    requires g.Sound() && HasServer(g, lines) && KeyAt(g, lines) == End(g, lines)
    ensures SetLines(g, SetLines(g, lines, v).value, w) == SetLines(g, lines, w)
  {
    InsertKeeps(g, lines, v);
    var h := Header(g, lines);
    var after := SetLines(g, lines, v).value;
    assert g.Rewrite(after[h + 1], w) == g.keyLine("", w, "");
    assert after[h + 1 := g.keyLine("", w, "")] == lines[..h + 1] + [g.keyLine("", w, "")] + lines[h + 1..];
  }

  lemma SetLinesTwice(g: Grammar, lines: seq<string>, v: Int64, w: Int64)
    requires g.Sound() && HasServer(g, lines)
    ensures SetLines(g, SetLines(g, lines, v).value, w) == SetLines(g, lines, w)
  {
    if KeyAt(g, lines) < End(g, lines) {
      RewriteTwice(g, lines, v, w);
    } else {
      InsertThenRewrite(g, lines, v, w);
    }
  }

  lemma SetLinesStayLines(g: Grammar, lines: seq<string>, v: Int64)
    requires g.Sound() && lines != [] && forall i :: 0 <= i < |lines| ==> '\n' !in lines[i]
    requires HasServer(g, lines)
    ensures var after := SetLines(g, lines, v).value;
            after != [] && forall i :: 0 <= i < |after| ==> '\n' !in after[i]
  {
    var k := KeyAt(g, lines);
    assert g.NewKey(v);
    if k < End(g, lines) {
      assert '\n' !in lines[k] && g.RewriteIsKey(lines[k], v);
    }
  }

  // ---- the laws on texts -------------------------------------------------------------------

  /** The lines of the new text are the new lines. */
  lemma SetSplits(g: Grammar, raw: string, v: Int64)
    requires g.Sound() && HasServer(g, Split(raw))
    ensures Set(g, raw, v).Ok? && Split(Set(g, raw, v).value) == SetLines(g, Split(raw), v).value
  {
    SetLinesStayLines(g, Split(raw), v);
    SplitOfJoin(SetLines(g, Split(raw), v).value);
  }

  /** Reading after setting returns what was set, for every text with a [server] table and no other. */
  lemma GetAfterSet(g: Grammar, raw: string, v: Int64)
    requires g.Sound()
    ensures Set(g, raw, v).Ok? <==> HasServer(g, Split(raw))
    ensures Set(g, raw, v).Ok? ==> Get(g, Set(g, raw, v).value) == Ok(v)
    ensures !Set(g, raw, v).Ok? ==> Get(g, raw) == NoServerTable
  {
    SetLinesLaw(g, Split(raw), v);
    if HasServer(g, Split(raw)) {
      SetSplits(g, raw, v);
    }
  }

  /** The last write wins, byte for byte. */
  lemma SetTwice(g: Grammar, raw: string, v: Int64, w: Int64)
    requires g.Sound() && HasServer(g, Split(raw))
    ensures Set(g, Set(g, raw, v).value, w) == Set(g, raw, w)
  {
    SetSplits(g, raw, v);
    SetLinesTwice(g, Split(raw), v, w);
    SetLinesLaw(g, Split(raw), w);
  }

  /** Setting again what was set last changes nothing. */
  lemma SetIsIdempotent(g: Grammar, raw: string, v: Int64)
    requires g.Sound() && HasServer(g, Split(raw))
    ensures var after := Set(g, raw, v).value; Set(g, after, v) == Ok(after)
  {
    SetTwice(g, raw, v, v);
    SetSplits(g, raw, v);
  }

  // ---- the editor --------------------------------------------------------------------------

  method ServerSection(g: Grammar, lines: seq<string>) returns (found: bool, header: nat, end: nat)
    ensures found <==> HasServer(g, lines)
    ensures found ==> header == Header(g, lines) && end == End(g, lines)
  {
    found, header, end := false, 0, |lines|;
    for i := 0 to |lines|
      invariant !found ==> forall j :: 0 <= j < i ==> !g.isHeader(lines[j])
      invariant found ==> header < i && header == Header(g, lines) && HasServer(g, lines)
      invariant found ==> forall j :: header < j < i ==> !g.isTable(lines[j])
    {
      if !found {
        if g.isHeader(lines[i]) {
          found, header := true, i;
          FirstIs(lines, g.isHeader, 0, i);
        }
      } else if g.isTable(lines[i]) {
        end := i;
        FirstIs(lines, g.isTable, header + 1, i);
        return;
      }
    }
    if found {
      FirstIs(lines, g.isTable, header + 1, |lines|);
    } else {
      FirstIs(lines, g.isHeader, 0, |lines|);
    }
  }

  lemma KeyIs(g: Grammar, lines: seq<string>, k: nat)
    requires HasServer(g, lines) && Header(g, lines) < k <= End(g, lines)
    requires forall j :: Header(g, lines) < j < k ==> !g.IsKey(lines[j])
    requires k < End(g, lines) ==> g.IsKey(lines[k])
    ensures KeyAt(g, lines) == k
  {
    if k < End(g, lines) {
      FirstIs(lines, g.IsKey, Header(g, lines) + 1, k);
    } else {
      assert First(lines, g.IsKey, Header(g, lines) + 1) >= k;
    }
  }

  method MaxConnections(g: Grammar, raw: string) returns (r: Result<Int64>)
    ensures r == Get(g, raw)
  {
    var lines := Split(raw);
    var found, header, end := ServerSection(g, lines);
    if !found {
      return NoServerTable;
    }
    for i := header + 1 to end
      invariant forall j :: header < j < i ==> !g.IsKey(lines[j])
    {
      var m := g.matchKey(lines[i]);
      if m.Match? {
        KeyIs(g, lines, i);
        return g.parse(m.value);
      }
    }
    KeyIs(g, lines, end);
    return Ok(DEFAULT_MAX_CONNECTIONS);
  }

  method SetMaxConnections(g: Grammar, raw: string, v: Int64) returns (r: Result<string>)
    ensures r == Set(g, raw, v)
  {
    var lines := Split(raw);
    var found, header, end := ServerSection(g, lines);
    if !found {
      return NoServerTable;
    }
    for i := header + 1 to end
      invariant forall j :: header < j < i ==> !g.IsKey(lines[j])
    {
      var m := g.matchKey(lines[i]);
      if m.Match? {
        KeyIs(g, lines, i);
        lines := lines[i := g.keyLine(m.indent, v, m.comment)];
        return Ok(Join(lines));
      }
    }
    KeyIs(g, lines, end);
    lines := lines[..header + 1] + [g.keyLine("", v, "")] + lines[header + 1..];
    return Ok(Join(lines));
  }

  /** The table is at line `h`, the first of its headers, and goes on to the next header or the end of the text. */
  ghost predicate ServerTable(lines: seq<string>, h: nat, e: nat) {
    && h < e <= |lines| && IsServerHeader(lines[h]) && (forall j :: 0 <= j < h ==> !IsServerHeader(lines[j]))
    && (forall j :: h < j < e ==> !IsTableHeader(lines[j])) && (e < |lines| ==> IsTableHeader(lines[e]))
  }

  /** The first key line of the table. */
  ghost predicate FirstKey(lines: seq<string>, h: nat, e: nat, k: nat) {
    h < k < e <= |lines| && IsKeyLine(lines[k]) && forall j :: h < j < k ==> !IsKeyLine(lines[j])
  }

  ghost predicate NoKey(lines: seq<string>, h: nat, e: nat) {
    h < e <= |lines| && forall j :: h < j < e ==> !IsKeyLine(lines[j])
  }

  lemma TableIs(lines: seq<string>, h: nat, e: nat)
    requires ServerTable(lines, h, e)
    ensures HasServer(TELEMT, lines) && Header(TELEMT, lines) == h && End(TELEMT, lines) == e
  {
    FirstIs(lines, TELEMT.isHeader, 0, h);
    FirstIs(lines, TELEMT.isTable, h + 1, e);
  }

  lemma TableIsThere(lines: seq<string>)
    ensures HasServer(TELEMT, lines) <==> exists i :: 0 <= i < |lines| && IsServerHeader(lines[i])
    ensures HasServer(TELEMT, lines) ==> ServerTable(lines, Header(TELEMT, lines), End(TELEMT, lines))
  {
    if HasServer(TELEMT, lines) {
      assert IsServerHeader(lines[Header(TELEMT, lines)]);
    } else {
      assert forall i :: 0 <= i < |lines| ==> !TELEMT.isHeader(lines[i]);
    }
  }

  /** The reader finds the value of the first key line of the table, underscores left out. */
  lemma ReadsTheKey(raw: string, h: nat, e: nat, k: nat)
    requires ServerTable(Split(raw), h, e) && FirstKey(Split(raw), h, e, k)
    ensures Get(TELEMT, raw) == ParseInt(WithoutUnderscores(MatchKey(Split(raw)[k]).value))
  {
    var lines := Split(raw);
    TableIs(lines, h, e);
    KeyIs(TELEMT, lines, k);
    TelemtMatches(lines[k]);
    TelemtParses(MatchKey(lines[k]).value);
  }

  /** In a table without a key line the reader finds what telemt takes then. */
  lemma ReadsTheDefault(raw: string, h: nat, e: nat)
    requires ServerTable(Split(raw), h, e) && NoKey(Split(raw), h, e)
    ensures Get(TELEMT, raw) == Ok(10000)
  {
    TableIs(Split(raw), h, e);
    KeyIs(TELEMT, Split(raw), e);
  }

  /** The key with the number, between the indentation and the comment there was. */
  ghost predicate IsWritten(line: string, indent: string, v: Int64, comment: string) {
    line == (indent + "max_connections" + " = " + FormatInt(v)) + (if comment == "" then "" else " " + comment)
  }

  lemma KeyLineIs(indent: string, v: Int64, comment: string)
    ensures IsWritten(KeyLine(indent, v, comment), indent, v, comment)
  {
    var line := indent + "max_connections" + " = " + FormatInt(v);
    assert line + "" == line && line + (" " + comment) == line + " " + comment;
  }

  /** The editor puts the number into the first key line of the table; every other line stays as and where it is. */
  lemma WritesTheKey(raw: string, v: Int64, h: nat, e: nat, k: nat)
    requires ServerTable(Split(raw), h, e) && FirstKey(Split(raw), h, e, k)
    ensures var r, m := Set(TELEMT, raw, v), MatchKey(Split(raw)[k]);
            && r.Ok? && k < |Split(r.value)| && Split(r.value) == Split(raw)[k := Split(r.value)[k]]
            && IsWritten(Split(r.value)[k], m.indent, v, m.comment)
  {
    hide IsWritten;
    var lines := Split(raw);
    TelemtIsSound();
    TableIs(lines, h, e);
    SetSplits(TELEMT, raw, v);
    KeyIs(TELEMT, lines, k);
    TelemtMatches(lines[k]);
    var m := MatchKey(lines[k]);
    TelemtWrites(m.indent, v, m.comment);
    KeyLineIs(m.indent, v, m.comment);
  }

  /** In a table without a key line it writes one right after the header. */
  lemma WritesANewKey(raw: string, v: Int64, h: nat, e: nat)
    requires ServerTable(Split(raw), h, e) && NoKey(Split(raw), h, e)
    ensures var r, lines := Set(TELEMT, raw, v), Split(raw);
            && r.Ok? && h + 1 < |Split(r.value)| && Split(r.value) == lines[..h + 1] + [Split(r.value)[h + 1]] + lines[h + 1..]
            && IsWritten(Split(r.value)[h + 1], "", v, "")
  {
    hide IsWritten;
    var lines := Split(raw);
    TelemtIsSound();
    TableIs(lines, h, e);
    SetSplits(TELEMT, raw, v);
    KeyIs(TELEMT, lines, e);
    TelemtWrites("", v, "");
    KeyLineIs("", v, "");
  }

  /**
   The laws of the editor on telemt.toml: it fails, like the reader, only without a server table; read after write;
   the last write wins, and writing again changes nothing; one line changes.
   */
  lemma EditorLaws(raw: string, v: Int64, w: Int64)
    ensures Set(TELEMT, raw, v).Ok? <==> exists i :: 0 <= i < |Split(raw)| && IsServerHeader(Split(raw)[i])
    ensures !Set(TELEMT, raw, v).Ok? ==> Set(TELEMT, raw, v) == NoServerTable && Get(TELEMT, raw) == NoServerTable
    ensures Set(TELEMT, raw, v).Ok? ==>
              var after := Set(TELEMT, raw, v).value;
              && Get(TELEMT, after) == Ok(v)
              && Set(TELEMT, after, w) == Set(TELEMT, raw, w)
              && Set(TELEMT, after, v) == Ok(after)
              && KeySet(TELEMT, Split(raw), Split(after), v)
  {
    TelemtIsSound();
    GetAfterSet(TELEMT, raw, v);
    var lines := Split(raw);
    if HasServer(TELEMT, lines) {
      assert TELEMT.isHeader(lines[Header(TELEMT, lines)]);
      SetTwice(TELEMT, raw, v, w);
      SetIsIdempotent(TELEMT, raw, v);
      SetSplits(TELEMT, raw, v);
      SetLinesLaw(TELEMT, lines, v);
    } else {
      assert forall i :: 0 <= i < |lines| ==> !TELEMT.isHeader(lines[i]);
    }
  }
}
