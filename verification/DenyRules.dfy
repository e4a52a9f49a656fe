/** The deny rules the daemon writes on a client's request: the text of the file
    and what that text means when it is loaded back. */
module DenyRules {
  import opened Base
  import opened Rules
  import opened Proto
  import opened Toml

  // --- Names -----------------------------------------------------------------------

  function SanitizeChar(c: char): char {
    if 'a' <= c <= 'z' || 'A' <= c <= 'Z' || '0' <= c <= '9' || c == '-' || c == '_' then c else '_'
  }

  function Sanitize(s: string): string {
    Map(s, SanitizeChar)
  }

  function AfterLastSlash(p: string): string {
    if p == "" || p[|p| - 1] == '/' then "" else AfterLastSlash(p[..|p| - 1]) + [p[|p| - 1]]
  }

  /** The last component of a path, unless it is the root or a parent step.
      Trailing slashes and `.` components do not count. */
  function FileName(p: string): Option<string> {
    if p == "" then None
    else if p[|p| - 1] == '/' || AfterLastSlash(p) == "." then FileName(p[..|p| - 1])
    else if AfterLastSlash(p) == ".." then None
    else Some(AfterLastSlash(p))
  }

  function SanitizedOr(o: Option<string>): string {
    if o.Some? then Sanitize(o.value) else "unknown"
  }

  function NamingStem(exe: Option<string>, host: Option<string>, ip: Option<string>, kind: DenyRuleKind): string {
    var exeName := match exe case Some(p) => FileName(p) case None => None;
    match kind
    case Host => SanitizedOr(host)
    case Process => SanitizedOr(exeName)
    case Ip => SanitizedOr(ip)
    case Both => SanitizedOr(exeName) + "-" + SanitizedOr(host)
  }

  function RuleId(exe: Option<string>, host: Option<string>, ip: Option<string>, kind: DenyRuleKind, ts: nat): string {
    "auto-deny-" + NamingStem(exe, host, ip, kind) + "-" + Decimal(ts)
  }

  // --- The request --------------------------------------------------------------------

  datatype Gap = NoHost | NoExe | NoIp

  function GapText(g: Gap): string {
    match g
    case NoHost => "requested deny-by-host but no hostname on the row"
    case NoExe => "requested deny-by-process but no exe path on the row"
    case NoIp => "requested deny-by-ip but no dest_ip on the row"
  }

  /** What the requested kind of rule needs and the row does not have. */
  function Complaint(exe: Option<string>, host: Option<string>, ip: Option<string>, kind: DenyRuleKind): Option<Gap> {
    if (kind == Host || kind == Both) && host.GetOr("") == "" then Some(NoHost)
    else if (kind == Process || kind == Both) && exe.GetOr("") == "" then Some(NoExe)
    else if kind == Ip && ip.GetOr("") == "" then Some(NoIp)
    else None
  }

  function Clauses(exe: Option<string>, host: Option<string>, ip: Option<string>, kind: DenyRuleKind): (cs: seq<Match>)
    ensures forall i :: 0 <= i < |cs| ==> cs[i].value.Str?
  {
    (if kind == Process || kind == Both then [Match(ProcessPath, Exact, MatchValue.Str(exe.GetOr("")))] else [])
    + (if kind == Host || kind == Both then [Match(DestHost, Suffix, MatchValue.Str(host.GetOr("")))] else [])
    + (if kind == Ip then [Match(DestIp, Exact, MatchValue.Str(ip.GetOr("")))] else [])
  }

  /** A request is accepted exactly when every clause it leads to names something;
      put differently, when no clause would match a connection of which nothing is
      known. */
  lemma AcceptedClausesNameSomething(exe: Option<string>, host: Option<string>, ip: Option<string>,
                                     kind: DenyRuleKind, port: u16)
    ensures var cs := Clauses(exe, host, ip, kind); var unknown := Facts(None, None, None, port);
      && (Complaint(exe, host, ip, kind) == None <==> forall i :: 0 <= i < |cs| ==> cs[i].value.s != "")
      && (Complaint(exe, host, ip, kind) == None <==> forall i :: 0 <= i < |cs| ==> !MatchesOne(cs[i], unknown))
  {
    var cs := Clauses(exe, host, ip, kind);
    var unknown := Facts(None, None, None, port);
    forall i | 0 <= i < |cs| ensures MatchesOne(cs[i], unknown) <==> cs[i].value.s == "" {
    }
    assert |cs| == if kind == Both then 2 else 1;
    assert Complaint(exe, host, ip, kind) == None <==> cs[0].value.s != "" && (kind == Both ==> cs[1].value.s != "");
  }

  /** The complaint names a fact that the kind of rule needs and the row lacks, the
      host before the executable. */
  lemma ComplaintNamesTheGap(exe: Option<string>, host: Option<string>, ip: Option<string>, kind: DenyRuleKind)
    ensures var c := Complaint(exe, host, ip, kind); var cs := Clauses(exe, host, ip, kind);
      && (c == Some(NoHost) <==> Match(DestHost, Suffix, MatchValue.Str("")) in cs)
      && (c == Some(NoIp) <==> Match(DestIp, Exact, MatchValue.Str("")) in cs)
      && (c == Some(NoExe) <==>
            Match(ProcessPath, Exact, MatchValue.Str("")) in cs && Match(DestHost, Suffix, MatchValue.Str("")) !in cs)
  {
  }

  /** The rule the user asked for. */
  function IntendedRule(exe: Option<string>, host: Option<string>, ip: Option<string>, kind: DenyRuleKind,
    ts: nat): Rule {
    Rule(Some(RuleId(exe, host, ip, kind, ts)), 100, true, Action.Deny, Persistent, Clauses(exe, host, ip, kind))
  }

  // --- The file ---------------------------------------------------------------------------

  /** A line giving a key a string whose characters are already escaped. */
  function StringLine(key: string, escaped: string): string {
    key + " = \"" + escaped + "\"\n"
  }

  const CLAUSE_LINE := "[[match]]\n"

  function ClauseText(m: Match): string
    requires m.value.Str?
  {
    CLAUSE_LINE + StringLine("type", FieldName(m.field)) + StringLine("op", OpName(m.op))
      + StringLine("value", Escape(m.value.s))
  }

  function ClausesText(cs: seq<Match>): string
    requires forall i :: 0 <= i < |cs| ==> cs[i].value.Str?
  {
    if cs == [] then ""
    else if |cs| == 1 then ClauseText(cs[0])
    else ClauseText(cs[0]) + "\n" + ClausesText(cs[1..])
  }

  const COMMENT_LINE := "#" + COMMENT + "\n"
  const COMMENT := " Auto-generated by" + " dadophoros TUI" + " rule picker."
  const PRIORITY_LINE := "priority = 100\n"

  function RuleText(id: string, cs: seq<Match>): string
    requires forall i :: 0 <= i < |cs| ==> cs[i].value.Str?
  {
    COMMENT_LINE + StringLine("id", id) + PRIORITY_LINE + StringLine("action", "deny") + "\n" + ClausesText(cs)
  }

  function RuleFileName(id: string): string {
    id + ".toml"
  }

  // --- Reading the clauses back ---------------------------------------------------------------

  /** Text that escaping leaves alone. */
  predicate NoSpecials(s: string) {
    forall i :: 0 <= i < |s| ==> s[i] != '\\' && s[i] != '"'
  }

  lemma {:induction false} EscapeNothing(s: string)
    requires NoSpecials(s)
    ensures Escape(s) == s
  {
    EscapeIsOnePass(s);
    EscapeOnceNothing(s);
  }

  lemma {:induction false} EscapeOnceNothing(s: string)
    requires NoSpecials(s)
    ensures EscapeOnce(s) == s
  {
    if s != "" {
      EscapeOnceNothing(s[1..]);
      assert [s[0]] + s[1..] == s;
    }
  }

  function ClauseItems(m: Match): seq<Item>
    requires m.value.Str?
  {
    [Header("match"), Pair("type", Toml.Str(FieldName(m.field))), Pair("op", Toml.Str(OpName(m.op))),
      Pair("value", Toml.Str(m.value.s))]
  }

  function AllItems(cs: seq<Match>): seq<Item>
    requires forall i :: 0 <= i < |cs| ==> cs[i].value.Str?
  {
    if cs == [] then [] else ClauseItems(cs[0]) + AllItems(cs[1..])
  }

  function Append(front: seq<Item>, items: Option<seq<Item>>): Option<seq<Item>> {
    match items
    case None => None
    case Some(back) => Some(front + back)
  }

  lemma Regroup(a: string, b: string, c: string, d: string, e: string, rest: string)
    ensures a + b + c + d + rest == a + (b + (c + (d + rest)))
    ensures a + b + c + d + e + rest == a + (b + (c + (d + (e + rest))))
  {
  }

  lemma {:induction false} StringLineParses(key: string, s: string, rest: string)
    requires BareKey(key)
    ensures ParseItems(StringLine(key, Escape(s)) + rest) ==
            if Plain(s) then Prepend(Pair(key, Toml.Str(s)), ParseItems(rest)) else None
  {
    hide ParseItems, Escape, Plain, Prepend;
    assert StringLine(key, Escape(s)) + rest == key + " = " + Quoted(s) + "\n" + rest;
    StrLine(key, s, rest);
  }

  lemma {:induction false} LiteralLineParses(key: string, s: string, rest: string)
    requires BareKey(key) && NoSpecials(s) && Plain(s)
    ensures ParseItems(StringLine(key, s) + rest) == Prepend(Pair(key, Toml.Str(s)), ParseItems(rest))
  {
    hide ParseItems, Prepend, StringLine;
    EscapeNothing(s);
    StringLineParses(key, s, rest);
  }

  lemma FieldNameIsPlain(f: MatchField)
    ensures NoSpecials(FieldName(f)) && Plain(FieldName(f))
  {
  }

  lemma OpNameIsPlain(op: MatchOp)
    ensures NoSpecials(OpName(op)) && Plain(OpName(op))
  {
  }

  lemma {:induction false} ClauseLineParses(rest: string)
    ensures ParseItems(CLAUSE_LINE + rest) == Prepend(Header("match"), ParseItems(rest))
  {
    hide ParseItems;
    HeaderLine("match", rest);
    assert CLAUSE_LINE + rest == "[[" + "match" + "]]" + "\n" + rest;
  }

  lemma {:induction false} ClauseParses(m: Match, rest: string)
    requires m.value.Str?
    ensures ParseItems(ClauseText(m) + rest) == if Plain(m.value.s) then Append(ClauseItems(m), ParseItems(rest))
      else None
  {
    hide ParseItems;
    var value := StringLine("value", Escape(m.value.s));
    var op := StringLine("op", OpName(m.op));
    var field := StringLine("type", FieldName(m.field));
    Regroup(CLAUSE_LINE, field, op, value, "", rest);
    ClauseLineParses(field + (op + (value + rest)));
    FieldNameIsPlain(m.field);
    OpNameIsPlain(m.op);
    LiteralLineParses("type", FieldName(m.field), op + (value + rest));
    LiteralLineParses("op", OpName(m.op), value + rest);
    StringLineParses("value", m.value.s, rest);
    assert ClauseText(m) + rest == CLAUSE_LINE + (field + (op + (value + rest)));
    if Plain(m.value.s) && ParseItems(rest).Some? {
      var back := ParseItems(rest).value;
      assert ClauseItems(m) + back == [ClauseItems(m)[0]]
        + ([ClauseItems(m)[1]] + ([ClauseItems(m)[2]] + ([ClauseItems(m)[3]] + back)));
    }
  }

  predicate AllPlain(cs: seq<Match>) {
    forall i :: 0 <= i < |cs| ==> cs[i].value.Str? && Plain(cs[i].value.s)
  }

  lemma AllPlainByHead(cs: seq<Match>)
    requires cs != [] && cs[0].value.Str?
    ensures AllPlain(cs) <==> Plain(cs[0].value.s) && AllPlain(cs[1..])
  {
    hide Plain;
    assert forall i :: 0 < i < |cs| ==> cs[i] == cs[1..][i - 1];
  }

  lemma NothingParses()
    ensures ParseItems("") == Some([]) && AllPlain([])
  {
  }

  lemma {:induction false} ClausesParse(cs: seq<Match>)
    requires forall i :: 0 <= i < |cs| ==> cs[i].value.Str?
    ensures ParseItems(ClausesText(cs)) == if AllPlain(cs) then Some(AllItems(cs)) else None
  {
    hide ParseItems, ClauseText, ClauseItems, Plain, AllPlain;
    if cs == [] {
      NothingParses();
    } else if |cs| == 1 {
      assert ClauseText(cs[0]) == ClauseText(cs[0]) + "";
      ClauseParses(cs[0], "");
      NothingParses();
      AllPlainByHead(cs);
      assert cs[1..] == [];
      assert AllItems(cs) == ClauseItems(cs[0]) + [];
    } else {
      var rest := "\n" + ClausesText(cs[1..]);
      assert ClausesText(cs) == ClauseText(cs[0]) + rest;
      ClauseParses(cs[0], rest);
      BlankLine(ClausesText(cs[1..]));
      ClausesParse(cs[1..]);
      AllPlainByHead(cs);
    }
  }

  // --- Reading the whole file back -------------------------------------------------------------

  function ClauseTable(m: Match): Table
    requires m.value.Str?
  {
    map["type" := Toml.Str(FieldName(m.field)), "op" := Toml.Str(OpName(m.op)), "value" := Toml.Str(m.value.s)]
  }

  lemma {:induction false} ClauseBuilds(m: Match, rest: seq<Item>, doc: Document)
    requires m.value.Str? && "match" !in doc.top
    ensures Build(ClauseItems(m) + rest, doc)
      == Build(rest, doc.(entries := doc.entries + [Entry("match", ClauseTable(m))]))
  {
    var items := ClauseItems(m) + rest;
    var t0: Table := map[];
    var t1 := t0["type" := Toml.Str(FieldName(m.field))];
    var t2 := t1["op" := Toml.Str(OpName(m.op))];
    var d0 := doc.(entries := doc.entries + [Entry("match", t0)]);
    var d1 := doc.(entries := doc.entries + [Entry("match", t1)]);
    var d2 := doc.(entries := doc.entries + [Entry("match", t2)]);
    var d3 := doc.(entries := doc.entries + [Entry("match", ClauseTable(m))]);
    assert Build(items, doc) == Build(items[1..], d0);
    assert items[1..][0] == Pair("type", Toml.Str(FieldName(m.field))) && items[1..][1..] == items[2..];
    assert d0.entries[|doc.entries| := Entry("match", t1)] == d1.entries;
    assert Build(items[1..], d0) == Build(items[2..], d1);
    assert items[2..][0] == Pair("op", Toml.Str(OpName(m.op))) && items[2..][1..] == items[3..];
    assert d1.entries[|doc.entries| := Entry("match", t2)] == d2.entries;
    assert Build(items[2..], d1) == Build(items[3..], d2);
    assert items[3..][0] == Pair("value", Toml.Str(m.value.s)) && items[3..][1..] == rest;
    assert d2.entries[|doc.entries| := Entry("match", ClauseTable(m))] == d3.entries;
    assert Build(items[3..], d2) == Build(rest, d3);
  }

  function Entries(cs: seq<Match>): seq<Entry>
    requires forall i :: 0 <= i < |cs| ==> cs[i].value.Str?
  {
    if cs == [] then [] else [Entry("match", ClauseTable(cs[0]))] + Entries(cs[1..])
  }

  lemma {:induction false} NothingBuilds(doc: Document)
    ensures Build([], doc) == Some(doc)
  {
  }

  lemma {:induction false} ClausesBuild(cs: seq<Match>, doc: Document)
    requires forall i :: 0 <= i < |cs| ==> cs[i].value.Str?
    requires "match" !in doc.top
    ensures Build(AllItems(cs), doc) == Some(doc.(entries := doc.entries + Entries(cs)))
  {
    hide ClauseTable, ClauseItems, Build;
    if cs == [] {
      NothingBuilds(doc);
      assert doc.entries + [] == doc.entries;
    } else {
      var next := doc.(entries := doc.entries + [Entry("match", ClauseTable(cs[0]))]);
      ClauseBuilds(cs[0], AllItems(cs[1..]), doc);
      ClausesBuild(cs[1..], next);
      assert next.entries + Entries(cs[1..]) == doc.entries + Entries(cs);
    }
  }

  lemma ClauseMeans(m: Match)
    requires m.value.Str?
    ensures ToMatch(ClauseTable(m)) == Some(m)
  {
    hide FieldName, OpName, ToField, ToOp;
    var t := ClauseTable(m);
    assert ToField(FieldName(m.field)) == Some(m.field) && ToOp(OpName(m.op)) == Some(m.op);
    assert ToMatchValue(t["value"]) == Some(m.value);
  }

  lemma {:induction false} EntriesMean(cs: seq<Match>)
    requires forall i :: 0 <= i < |cs| ==> cs[i].value.Str?
    ensures ToMatches(Entries(cs)) == Some(cs)
  {
    hide ClauseTable, ToMatch;
    if cs != [] {
      EntriesMean(cs[1..]);
      assert Entries(cs)[1..] == Entries(cs[1..]);
      ClauseMeans(cs[0]);
      assert cs == [cs[0]] + cs[1..];
    }
  }

  function HeadTable(id: string): Table {
    map["id" := Toml.Str(id), "priority" := Int(100), "action" := Toml.Str("deny")]
  }

  function RuleDocument(id: string, cs: seq<Match>): Document
    requires forall i :: 0 <= i < |cs| ==> cs[i].value.Str?
  {
    Document(HeadTable(id), Entries(cs), [COMMENT])
  }

  function HeadItems(id: string): seq<Item> {
    [Comment(COMMENT), Pair("id", Toml.Str(id)), Pair("priority", Int(100)), Pair("action", Toml.Str("deny"))]
  }

  lemma CommentIsPlain()
    ensures Plain(COMMENT)
  {
    assert Plain(" Auto-generated by") && Plain(" dadophoros TUI") && Plain(" rule picker.");
  }

  lemma {:induction false} PriorityLineParses(rest: string)
    ensures ParseItems(PRIORITY_LINE + rest) == Prepend(Pair("priority", Int(100)), ParseItems(rest))
  {
    hide ParseItems;
    assert Decimal(100) == "100";
    IntLine("priority", 100, rest);
    assert PRIORITY_LINE + rest == "priority" + " = " + Decimal(100) + "\n" + rest;
  }

  lemma {:induction false} HeadParses(id: string, rest: string)
    requires NoSpecials(id) && Plain(id)
    ensures ParseItems(COMMENT_LINE + StringLine("id", id) + PRIORITY_LINE + StringLine("action", "deny") + "\n" + rest)
            == Append(HeadItems(id), ParseItems(rest))
  {
    hide ParseItems;
    var action := StringLine("action", "deny");
    var name := StringLine("id", id);
    Regroup(COMMENT_LINE, name, PRIORITY_LINE, action, "\n", rest);
    CommentIsPlain();
    CommentLine(COMMENT, name + (PRIORITY_LINE + (action + ("\n" + rest))));
    LiteralLineParses("id", id, PRIORITY_LINE + (action + ("\n" + rest)));
    PriorityLineParses(action + ("\n" + rest));
    LiteralLineParses("action", "deny", "\n" + rest);
    BlankLine(rest);
    if ParseItems(rest).Some? {
      var back := ParseItems(rest).value;
      var head := HeadItems(id);
      assert head + back == [head[0]] + ([head[1]] + ([head[2]] + ([head[3]] + back)));
    }
  }

  lemma {:induction false} HeadBuilds(id: string, rest: seq<Item>)
    ensures Build(HeadItems(id) + rest, Document(map[], [], [])) == Build(rest, Document(HeadTable(id), [], [COMMENT]))
  {
    var items := HeadItems(id) + rest;
    var t0: Table := map[];
    var t1 := t0["id" := Toml.Str(id)];
    var t2 := t1["priority" := Int(100)];
    assert [] + [COMMENT] == [COMMENT];
    assert Build(items, Document(t0, [], [])) == Build(items[1..], Document(t0, [], [COMMENT]));
    assert items[1..][0] == Pair("id", Toml.Str(id)) && items[1..][1..] == items[2..];
    assert Build(items[1..], Document(t0, [], [COMMENT])) == Build(items[2..], Document(t1, [], [COMMENT]));
    assert items[2..][0] == Pair("priority", Int(100)) && items[2..][1..] == items[3..];
    assert Build(items[2..], Document(t1, [], [COMMENT])) == Build(items[3..], Document(t2, [], [COMMENT]));
    assert items[3..][0] == Pair("action", Toml.Str("deny")) && items[3..][1..] == rest;
    assert t2["action" := Toml.Str("deny")] == HeadTable(id);
  }

  lemma FileParses(id: string, cs: seq<Match>)
    requires forall i :: 0 <= i < |cs| ==> cs[i].value.Str?
    requires NoSpecials(id) && Plain(id)
    ensures Parse(RuleText(id, cs)) == if AllPlain(cs) then Some(RuleDocument(id, cs)) else None
  {
    hide ParseItems, Build, AllPlain, HeadItems, AllItems, Entries, ClausesText;
    HeadParses(id, ClausesText(cs));
    ClausesParse(cs);
    if AllPlain(cs) {
      HeadBuilds(id, AllItems(cs));
      ClausesBuild(cs, Document(HeadTable(id), [], [COMMENT]));
      assert [] + Entries(cs) == Entries(cs);
    }
  }

  lemma DocumentMeans(id: string, cs: seq<Match>)
    requires forall i :: 0 <= i < |cs| ==> cs[i].value.Str?
    ensures ToRule(RuleDocument(id, cs)) == Some(Rule(Some(id), 100, true, Action.Deny, Persistent, cs))
  {
    EntriesMean(cs);
  }

  // --- The names are safe --------------------------------------------------------------------

  predicate SafeChars(s: string) {
    forall i :: 0 <= i < |s| ==> BareChar(s[i])
  }

  lemma SanitizedIsSafe(s: string)
    ensures SafeChars(Sanitize(s))
  {
  }

  lemma StemIsSafe(exe: Option<string>, host: Option<string>, ip: Option<string>, kind: DenyRuleKind)
    ensures SafeChars(NamingStem(exe, host, ip, kind))
  {
    var exeName := match exe case Some(p) => FileName(p) case None => None;
    SanitizedIsSafe(exeName.GetOr(""));
    SanitizedIsSafe(host.GetOr(""));
    SanitizedIsSafe(ip.GetOr(""));
  }

  /** Whatever the request contains, the id consists of letters, digits, dashes
      and underscores, so it needs no escaping and no path separator can enter
      the file name. */
  lemma RuleIdIsSafe(exe: Option<string>, host: Option<string>, ip: Option<string>, kind: DenyRuleKind, ts: nat)
    ensures SafeChars(RuleId(exe, host, ip, kind, ts))
    ensures NoSpecials(RuleId(exe, host, ip, kind, ts)) && Plain(RuleId(exe, host, ip, kind, ts))
  {
    StemIsSafe(exe, host, ip, kind);
  }

  // --- Round trip ----------------------------------------------------------------------------

  /** Loading a generated file yields exactly the rule the user asked for when
      the strings it quotes contain no control character that TOML bans from
      basic strings. Any such character makes the whole file unreadable. */
  lemma RuleFileRoundTrip(exe: Option<string>, host: Option<string>, ip: Option<string>, kind: DenyRuleKind, ts: nat)
    ensures var doc := Parse(RuleText(RuleId(exe, host, ip, kind, ts), Clauses(exe, host, ip, kind)));
      if AllPlain(Clauses(exe, host, ip, kind))
      then doc.Some? && ToRule(doc.value) == Some(IntendedRule(exe, host, ip, kind, ts))
      else doc == None
  {
    var id := RuleId(exe, host, ip, kind, ts);
    var cs := Clauses(exe, host, ip, kind);
    RuleIdIsSafe(exe, host, ip, kind, ts);
    FileParses(id, cs);
    DocumentMeans(id, cs);
  }

  // --- Names on the inputs ----------------------------------------------------------------------

  /** Sanitising keeps the length and every safe character, and puts an underscore for
      any other. */
  lemma SanitizedCharacters(s: string)
    ensures |Sanitize(s)| == |s|
    ensures forall i :: 0 <= i < |s| ==>
      Sanitize(s)[i] == if s[i] in SAFE_CHARACTERS then s[i] else '_'
  {
    forall i | 0 <= i < |s| ensures SanitizeChar(s[i]) == if s[i] in SAFE_CHARACTERS then s[i] else '_' {
      SafeCharacters(s[i]);
    }
  }

  const LOWER := "abcdefghijklmnopqrstuvwxyz"
  const UPPER := "ABCDEFGHIJKLMNOPQRSTUVWXYZ"
  const OTHERS := "0123456789-_"
  const SAFE_CHARACTERS := LOWER + UPPER + OTHERS

  lemma LowerCharacters(c: char)
    ensures c in LOWER <==> 'a' <= c <= 'z'
  {
    assert forall i :: 0 <= i < 26 ==> LOWER[i] as int == 'a' as int + i;
    if 'a' <= c <= 'z' {
      assert LOWER[c as int - 'a' as int] == c;
    }
  }

  lemma UpperCharacters(c: char)
    ensures c in UPPER <==> 'A' <= c <= 'Z'
  {
    assert forall i :: 0 <= i < 26 ==> UPPER[i] as int == 'A' as int + i;
    if 'A' <= c <= 'Z' {
      assert UPPER[c as int - 'A' as int] == c;
    }
  }

  lemma OtherCharacters(c: char)
    ensures c in OTHERS <==> '0' <= c <= '9' || c == '-' || c == '_'
  {
    assert forall i :: 0 <= i < 10 ==> OTHERS[i] as int == '0' as int + i;
    if '0' <= c <= '9' {
      assert OTHERS[c as int - '0' as int] == c;
    } else {
      assert OTHERS[10] == '-' && OTHERS[11] == '_';
    }
  }

  lemma SafeCharacters(c: char)
    ensures c in SAFE_CHARACTERS <==> 'a' <= c <= 'z' || 'A' <= c <= 'Z' || '0' <= c <= '9' || c == '-' || c == '_'
  {
    var lower, upper, others := LOWER, UPPER, OTHERS;
    LowerCharacters(c);
    UpperCharacters(c);
    OtherCharacters(c);
    assert c in lower + upper + others <==> c in lower || c in upper || c in others;
  }

  /** The file name of a path is what stands behind its last slash. */
  lemma {:induction false} FileNameOfPath(directory: string, name: string)
    requires name != "" && name != "." && name != ".." && '/' !in name
    requires directory == "" || directory[|directory| - 1] == '/'
    ensures FileName(directory + name) == Some(name)
  {
    BehindLastSlash(directory, name);
    assert (directory + name)[|directory + name| - 1] == name[|name| - 1];
  }

  lemma {:induction false} BehindLastSlash(directory: string, name: string)
    requires '/' !in name
    requires directory == "" || directory[|directory| - 1] == '/'
    ensures AfterLastSlash(directory + name) == name
  {
    var p := directory + name;
    if name == "" {
      assert p == directory;
    } else {
      assert p[..|p| - 1] == directory + name[..|name| - 1];
      BehindLastSlash(directory, name[..|name| - 1]);
    }
  }

  /** Slashes and `.` steps at the end of a path do not count; behind a `..` step, and in
      a path of nothing else, there is no file name. */
  lemma {:induction false} FileNameSkips(p: string)
    ensures FileName(p + "/") == FileName(p)
    ensures FileName(p + "/.") == FileName(p)
    ensures FileName(p + "/..") == None
    ensures FileName("") == None && FileName(".") == None && FileName("..") == None
  {
    hide AfterLastSlash;
    assert (p + "/")[..|p|] == p;
    assert (p + "/.")[..|p| + 1] == p + "/";
    assert p + "/." == p + "/" + "." && p + "/.." == p + "/" + "..";
    BehindLastSlash(p + "/", ".");
    BehindLastSlash(p + "/", "..");
    BehindLastSlash("", ".");
    BehindLastSlash("", "..");
    assert "" + "." == "." && "" + ".." == "..";
  }

  /** A path without a file name is called unknown in the id. */
  lemma {:induction false} NamelessIsUnknown(exe: string, host: Option<string>, ip: Option<string>, ts: nat)
    requires FileName(exe) == None
    ensures RuleId(Some(exe), host, ip, Process, ts) == "auto-deny-" + "unknown" + "-" + Decimal(ts)
  {
    hide FileName, Decimal;
  }

  /** The id of a generated rule: what it denies, sanitised, and the time. */
  lemma {:induction false} RuleIdTells(exe: string, directory: string, name: string, host: string, ip: string, ts: nat)
    requires exe == directory + name && name != "" && name != "." && name != ".." && '/' !in name
    requires directory == "" || directory[|directory| - 1] == '/'
    ensures RuleId(Some(exe), Some(host), Some(ip), Host, ts) == "auto-deny-" + Sanitize(host) + "-" + Decimal(ts)
    ensures RuleId(Some(exe), Some(host), Some(ip), Process, ts) == "auto-deny-" + Sanitize(name) + "-" + Decimal(ts)
    ensures RuleId(Some(exe), Some(host), Some(ip), Ip, ts) == "auto-deny-" + Sanitize(ip) + "-" + Decimal(ts)
    ensures RuleId(Some(exe), Some(host), Some(ip), Both, ts)
            == "auto-deny-" + (Sanitize(name) + "-" + Sanitize(host)) + "-" + Decimal(ts)
  {
    hide FileName, Sanitize, Decimal;
    FileNameOfPath(directory, name);
  }

  /** What is printed for a rule: a comment, id, priority and action, a blank line, and
      the clauses with blank lines between them. */
  lemma PrintedText(id: string, m: Match, n: Match)
    requires m.value.Str? && n.value.Str?
    ensures RuleText(id, [m]) == ("#" + " Auto-generated by" + " dadophoros TUI" + " rule picker." + "\n")
      + ("id = \"" + id + "\"\n") + "priority = 100\n" + ("action = \"" + "deny" + "\"\n") + "\n" + ClauseText(m)
    ensures ClausesText([m, n]) == ClauseText(m) + "\n" + ClauseText(n)
  {
    hide ClauseText;
    assert [m, n][1..] == [n];
  }

  lemma PrintedClause(m: Match)
    requires m.value.Str?
    ensures ClauseText(m) == "[[match]]\n" + ("type = \"" + FieldName(m.field) + "\"\n")
      + ("op = \"" + OpName(m.op) + "\"\n") + ("value = \"" + Escape(m.value.s) + "\"\n")
  {
    hide FieldName, OpName, Escape;
  }
}
