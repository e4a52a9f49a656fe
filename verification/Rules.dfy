/** Deny and allow rules: what a rule file means and how rules decide a
    connection. */
module Rules {
  import opened Base
  import Toml

  datatype Action = Allow | Deny
  datatype Lifetime = Once | Session | Persistent
  datatype MatchField = ProcessPath | DestHost | DestIp | DestPort
  datatype MatchOp = Exact | Prefix | Suffix | Contains | In
  datatype MatchValue = Num(n: u16) | Str(s: string) | NumList(ns: seq<u16>) | StrList(ss: seq<string>)
  datatype Match = Match(field: MatchField, op: MatchOp, value: MatchValue)

  datatype Rule = Rule(
    id: Option<string>, priority: u32, enabled: bool,
    action: Action, duration: Lifetime, matches: seq<Match>)

  datatype Verdict = Verdict(action: Action, ruleId: string)

  /** What is known about a connection when it is judged. */
  datatype Facts = Facts(exe: Option<string>, host: Option<string>, ip: Option<string>, dport: u16)

  // --- Evaluation -------------------------------------------------------------------

  predicate MatchString(op: MatchOp, value: MatchValue, s: string) {
    match (op, value)
    case (Exact, Str(v)) => s == v
    case (Prefix, Str(v)) => StartsWith(s, v)
    case (Suffix, Str(v)) => EndsWith(s, v)
    case (Contains, Str(v)) => Base.Contains(s, v)
    case (In, StrList(vs)) => s in vs
    case _ => false
  }

  predicate MatchPort(op: MatchOp, value: MatchValue, port: u16) {
    match (op, value)
    case (Exact, Num(v)) => port == v
    case (In, NumList(vs)) => port in vs
    case _ => false
  }

  /** A fact that is not known counts as the empty string. */
  predicate MatchesOne(m: Match, f: Facts) {
    match m.field
    case ProcessPath => MatchString(m.op, m.value, f.exe.GetOr(""))
    case DestHost => MatchString(m.op, m.value, f.host.GetOr(""))
    case DestIp => MatchString(m.op, m.value, f.ip.GetOr(""))
    case DestPort => MatchPort(m.op, m.value, f.dport)
  }

  predicate MatchesAll(matches: seq<Match>, f: Facts) {
    forall i :: 0 <= i < |matches| ==> MatchesOne(matches[i], f)
  }

  /** What a text clause says of a text. A value of another type never matches. */
  ghost predicate TextHolds(op: MatchOp, value: MatchValue, s: string) {
    match op
    case Exact => value.Str? && s == value.s
    case Prefix => value.Str? && exists rest :: s == value.s + rest
    case Suffix => value.Str? && exists front :: s == front + value.s
    case Contains => value.Str? && exists front, rest :: s == front + value.s + rest
    case In => value.StrList? && exists i :: 0 <= i < |value.ss| && value.ss[i] == s
  }

  /** What a port clause says of a port. */
  ghost predicate PortHolds(op: MatchOp, value: MatchValue, port: u16) {
    match op
    case Exact => value.Num? && value.n == port
    case In => value.NumList? && exists i :: 0 <= i < |value.ns| && value.ns[i] == port
    case _ => false
  }

  lemma TextClauseMeans(op: MatchOp, value: MatchValue, s: string)
    ensures MatchString(op, value, s) <==> TextHolds(op, value, s)
  {
    hide StartsWith, EndsWith, Base.Contains;
    if value.Str? {
      PrefixOfText(s, value.s);
      SuffixOfText(s, value.s);
      PartOfText(s, value.s);
    }
  }

  /** What each clause says of a connection: which fact it reads, and how it compares
      it; a text that is not known is empty. */
  ghost predicate Holds(m: Match, f: Facts) {
    match m.field
    case ProcessPath => TextHolds(m.op, m.value, if f.exe.Some? then f.exe.value else "")
    case DestHost => TextHolds(m.op, m.value, if f.host.Some? then f.host.value else "")
    case DestIp => TextHolds(m.op, m.value, if f.ip.Some? then f.ip.value else "")
    case DestPort => PortHolds(m.op, m.value, f.dport)
  }

  lemma ClausesMean(m: Match, f: Facts)
    ensures MatchesOne(m, f) <==> Holds(m, f)
  {
    hide MatchString, TextHolds;
    TextClauseMeans(m.op, m.value, f.exe.GetOr(""));
    TextClauseMeans(m.op, m.value, f.host.GetOr(""));
    TextClauseMeans(m.op, m.value, f.ip.GetOr(""));
  }

  /** All clauses of a rule hold; of a rule without clauses they always do. */
  ghost predicate AllHold(r: Rule, f: Facts) {
    forall k :: 0 <= k < |r.matches| ==> Holds(r.matches[k], f)
  }

  lemma RulesMean(r: Rule, f: Facts)
    ensures MatchesAll(r.matches, f) <==> AllHold(r, f)
  {
    hide MatchesOne, Holds;
    forall k | 0 <= k < |r.matches| ensures MatchesOne(r.matches[k], f) <==> Holds(r.matches[k], f) {
      ClausesMean(r.matches[k], f);
    }
  }

  /** For example, a deny rule for port 443 and a connection to it. */
  lemma {:induction false} PortRuleDecides(f: Facts)
    requires f.dport == 443
    ensures var rule := Rule(Some("r"), 100, true, Deny, Persistent, [Match(DestPort, Exact, Num(443))]);
      FirstMatch([rule], f) == Some(Verdict(Deny, "r"))
  {
  }

  function VerdictOf(r: Rule): Verdict {
    Verdict(r.action, r.id.GetOr("?"))
  }

  function FirstMatch(rules: seq<Rule>, f: Facts): Option<Verdict> {
    if rules == [] then None
    else if MatchesAll(rules[0].matches, f) then Some(VerdictOf(rules[0]))
    else FirstMatch(rules[1..], f)
  }

  /** The first rule all of whose clauses hold decides; no rule, no verdict. */
  method Evaluate(rules: seq<Rule>, f: Facts) returns (v: Option<Verdict>)
    ensures v == FirstMatch(rules, f)
    ensures v == None <==> forall i :: 0 <= i < |rules| ==> !AllHold(rules[i], f)
    ensures v.Some? ==> exists i ::
      && 0 <= i < |rules| && AllHold(rules[i], f) && (forall j :: 0 <= j < i ==> !AllHold(rules[j], f))
      && v.value.action == rules[i].action
      && v.value.ruleId == if rules[i].id.Some? then rules[i].id.value else "?"
  {
    hide AllHold, MatchesAll;
    for i := 0 to |rules|
      invariant forall j :: 0 <= j < i ==> !AllHold(rules[j], f)
      invariant FirstMatch(rules, f) == FirstMatch(rules[i..], f)
    {
      assert rules[i..][1..] == rules[i + 1..];
      RulesMean(rules[i], f);
      if MatchesAll(rules[i].matches, f) {
        return Some(VerdictOf(rules[i]));
      }
    }
    v := None;
  }

  // --- From documents to rules ----------------------------------------------------------

  function ToField(s: string): Option<MatchField> {
    if s == "process_path" then Some(ProcessPath)
    else if s == "dest_host" then Some(DestHost)
    else if s == "dest_ip" then Some(DestIp)
    else if s == "dest_port" then Some(DestPort)
    else None
  }

  function ToOp(s: string): Option<MatchOp> {
    if s == "exact" then Some(Exact)
    else if s == "prefix" then Some(Prefix)
    else if s == "suffix" then Some(Suffix)
    else if s == "contains" then Some(MatchOp.Contains)
    else if s == "in" then Some(In)
    else None
  }

  function ToAction(s: string): Option<Action> {
    if s == "allow" then Some(Allow) else if s == "deny" then Some(Deny) else None
  }

  function ToLifetime(s: string): Option<Lifetime> {
    if s == "once" then Some(Once)
    else if s == "session" then Some(Session)
    else if s == "persistent" then Some(Persistent)
    else None
  }

  function ToPort(v: Toml.Value): Option<u16> {
    if v.Int? && 0 <= v.n < 0x1_0000 then Some(v.n as u16) else None
  }

  function TextOf(v: Toml.Value): Option<string> {
    if v.Str? then Some(v.text) else None
  }

  /** Untagged: the first alternative that fits. */
  function ToMatchValue(v: Toml.Value): Option<MatchValue> {
    match v
    case Int(_) => var n :- ToPort(v); Some(Num(n))
    case Str(s) => Some(MatchValue.Str(s))
    case Bool(_) => None
    case Array(es) =>
      if |Collect(es, ToPort)| == |es| then Some(NumList(Collect(es, ToPort)))
      else if |Collect(es, TextOf)| == |es| then Some(StrList(Collect(es, TextOf)))
      else None
  }

  function RequiredText(t: Toml.Table, key: string): Option<string> {
    if key in t then TextOf(t[key]) else None
  }

  function ToMatch(t: Toml.Table): Option<Match> {
    var typeName :- RequiredText(t, "type");
    var field :- ToField(typeName);
    var opName :- RequiredText(t, "op");
    var op :- ToOp(opName);
    if "value" !in t then None
    else
      var value :- ToMatchValue(t["value"]);
      Some(Match(field, op, value))
  }

  function ToMatches(entries: seq<Toml.Entry>): Option<seq<Match>> {
    if entries == [] then Some([])
    else if entries[0].name != "match" then ToMatches(entries[1..])
    else
      var m :- ToMatch(entries[0].table);
      var ms :- ToMatches(entries[1..]);
      Some([m] + ms)
  }

  /** Deserialisation with the defaults of the rule schema: priority 100,
      enabled, persistent, no clauses. Only the action is required; unknown keys
      are ignored and a value of the wrong type rejects the whole file. */
  function ToRule(doc: Toml.Document): Option<Rule> {
    var t := doc.top;
    var id :- if "id" !in t then Some(None) else if t["id"].Str? then Some(Some(t["id"].text)) else None;
    var priority: u32 :-
      if "priority" !in t then Some(100)
      else if t["priority"].Int? && 0 <= t["priority"].n < 0x1_0000_0000 then Some(t["priority"].n as u32)
      else None;
    var enabled :- if "enabled" !in t then Some(true) else if t["enabled"].Bool? then Some(t["enabled"].b) else None;
    var actionName :- RequiredText(t, "action");
    var action :- ToAction(actionName);
    var duration :-
      if "duration" !in t then Some(Persistent)
      else if t["duration"].Str? then ToLifetime(t["duration"].text)
      else None;
    var matches :- if "match" in t then (if t["match"] == Toml.Array([]) then Some([]) else None)
      else ToMatches(doc.entries);
    Some(Rule(id, priority, enabled, action, duration, matches))
  }

  /** Setting the `enabled` key of a document changes that flag of the rule it
      denotes and nothing else. */
  lemma SettingEnabled(doc: Toml.Document, b: bool)
    requires ToRule(doc).Some?
    ensures ToRule(doc.(top := doc.top["enabled" := Toml.Bool(b)])) == Some(ToRule(doc).value.(enabled := b))
  {
  }

  // --- Display ----------------------------------------------------------------------------

  function LifetimeText(d: Lifetime): string {
    match d
    case Once => "once"
    case Session => "session"
    case Persistent => "persistent"
  }

  function FieldName(f: MatchField): (s: string)
    ensures ToField(s) == Some(f)
  {
    match f
    case ProcessPath => "process_path"
    case DestHost => "dest_host"
    case DestIp => "dest_ip"
    case DestPort => "dest_port"
  }

  function OpName(op: MatchOp): (s: string)
    ensures ToOp(s) == Some(op)
  {
    match op
    case Exact => "exact"
    case Prefix => "prefix"
    case Suffix => "suffix"
    case Contains => "contains"
    case In => "in"
  }

  function Summary(m: Match): string {
    var value := match m.value
      case Num(n) => Decimal(n)
      case Str(s) => s
      case NumList(ns) => Join(Map(ns, n => Decimal(n)), ",")
      case StrList(ss) => Join(ss, ",");
    FieldName(m.field) + " " + OpName(m.op) + " " + value
  }

  // --- The schema in its own words ------------------------------------------------------------

  lemma SchemaNames(s: string)
    ensures ToField(s).Some? <==> s in ["process_path", "dest_host", "dest_ip", "dest_port"]
    ensures ToField("process_path") == Some(ProcessPath) && ToField("dest_host") == Some(DestHost)
    ensures ToField("dest_ip") == Some(DestIp) && ToField("dest_port") == Some(DestPort)
    ensures ToAction(s) == (if s == "allow" then Some(Allow) else if s == "deny" then Some(Deny) else None)
    ensures ToOp(s).Some? <==> s in ["exact", "prefix", "suffix", "contains", "in"]
    ensures ToOp("exact") == Some(Exact) && ToOp("prefix") == Some(Prefix) && ToOp("suffix") == Some(Suffix)
    ensures ToOp("contains") == Some(MatchOp.Contains) && ToOp("in") == Some(In)
    ensures ToLifetime("once") == Some(Once) && ToLifetime("session") == Some(Session)
    ensures ToLifetime("persistent") == Some(Persistent)
  {
  }

  /** The value a key has, or its default. */
  function ValueOr(t: Toml.Table, key: string, default: Toml.Value): Toml.Value {
    if key in t then t[key] else default
  }

  /** A document that loads has each key with the type the schema wants or not at all,
      and the rule takes each value or its default: priority 100, enabled, persistent,
      no id. */
  lemma LoadedValues(doc: Toml.Document)
    requires ToRule(doc).Some?
    ensures var r := ToRule(doc).value; var t := doc.top;
      && ValueOr(t, "priority", Toml.Int(100)) == Toml.Int(r.priority)
      && ValueOr(t, "enabled", Toml.Bool(true)) == Toml.Bool(r.enabled)
      && ValueOr(t, "duration", Toml.Str("persistent")) == Toml.Str(LifetimeText(r.duration))
      && "action" in t && t["action"] == Toml.Str(if r.action == Allow then "allow" else "deny")
      && (if r.id == None then "id" !in t else "id" in t && t["id"] == Toml.Str(r.id.value))
  {
  }

  lemma {:induction false} CollectedAll<S, T>(s: seq<S>, f: S -> Option<T>)
    ensures |Collect(s, f)| <= |s|
    ensures |Collect(s, f)| == |s| <==> forall i :: 0 <= i < |s| ==> f(s[i]).Some?
    ensures |Collect(s, f)| == |s| ==> forall i :: 0 <= i < |s| ==> Some(Collect(s, f)[i]) == f(s[i])
  {
    if s != [] {
      CollectedAll(s[1..], f);
      assert forall i :: 0 < i < |s| ==> s[i] == s[1..][i - 1];
      assert forall i :: 0 <= i < |s[1..]| ==> s[1..][i] == s[i + 1];
    }
  }

  /** What a value stands for in a rule file. An empty list counts as one of numbers. */
  ghost predicate Written(v: Toml.Value, m: MatchValue) {
    match m
    case Num(n) => v == Toml.Int(n)
    case Str(s) => v == Toml.Str(s)
    case NumList(ns) =>
      v.Array? && |v.elements| == |ns| && forall i :: 0 <= i < |ns| ==> v.elements[i] == Toml.Int(ns[i])
    case StrList(ss) =>
      && v.Array? && |v.elements| == |ss| > 0
      && forall i :: 0 <= i < |ss| ==> v.elements[i] == Toml.Str(ss[i])
  }

  lemma ValuesLoad(v: Toml.Value, m: MatchValue)
    ensures ToMatchValue(v) == Some(m) <==> Written(v, m)
  {
    hide Collect;
    if v.Array? {
      var ports, texts := Collect(v.elements, ToPort), Collect(v.elements, TextOf);
      CollectedAll(v.elements, ToPort);
      CollectedAll(v.elements, TextOf);
      if Written(v, m) && m.NumList? {
        assert ports == m.ns;
      }
      if Written(v, m) && m.StrList? {
        assert v.elements[0] == Toml.Str(m.ss[0]);
        assert texts == m.ss;
      }
    }
  }

  /** A clause is a table with the names of a field and an operator and with a value;
      other keys do not matter. */
  lemma ClausesLoad(t: Toml.Table, m: Match)
    ensures ToMatch(t) == Some(m) <==>
      && "type" in t && t["type"] == Toml.Str(FieldName(m.field))
      && "op" in t && t["op"] == Toml.Str(OpName(m.op))
      && "value" in t && Written(t["value"], m.value)
  {
    hide ToMatchValue, Written;
    if "value" in t {
      ValuesLoad(t["value"], m.value);
      if ToMatchValue(t["value"]).Some? {
        ValuesLoad(t["value"], ToMatchValue(t["value"]).value);
      }
    }
  }

  function IsMatchEntry(e: Toml.Entry): bool {
    e.name == "match"
  }

  function ClauseOf(e: Toml.Entry): Option<Match> {
    ToMatch(e.table)
  }

  lemma {:induction false} MatchesAreCollected(entries: seq<Toml.Entry>)
    ensures var tables := Filter(entries, IsMatchEntry); var clauses := Collect(tables, ClauseOf);
      ToMatches(entries) == if |clauses| == |tables| then Some(clauses) else None
  {
    hide ToMatch;
    if entries != [] {
      MatchesAreCollected(entries[1..]);
      if IsMatchEntry(entries[0]) {
        var rest := Filter(entries[1..], IsMatchEntry);
        assert Filter(entries, IsMatchEntry)[1..] == rest;
        CollectedAll(rest, ClauseOf);
      }
    }
  }

  /** The clauses of a rule are those of the `match` tables, in order; every one of these
      must be a clause, and other tables do not matter. */
  lemma {:induction false} ClausesOfEntries(entries: seq<Toml.Entry>)
    ensures var tables := Filter(entries, IsMatchEntry);
      && (ToMatches(entries).Some? <==> forall i :: 0 <= i < |tables| ==> ToMatch(tables[i].table).Some?)
      && (ToMatches(entries).Some? ==>
            && |ToMatches(entries).value| == |tables|
            && forall i :: 0 <= i < |tables| ==> ToMatch(tables[i].table) == Some(ToMatches(entries).value[i]))
  {
    hide ToMatch, ToMatches, Collect, Filter;
    MatchesAreCollected(entries);
    CollectedAll(Filter(entries, IsMatchEntry), ClauseOf);
  }

  /** A document is a rule exactly when it has an action, every key it has is of the type
      the schema wants, and its tables are clauses; a `match` key in place of tables may
      only be an empty list, and then there are no clauses. */
  lemma DocumentLoads(doc: Toml.Document)
    ensures var t := doc.top;
      && (ToRule(doc).Some? <==>
            && ("id" in t ==> t["id"].Str?)
            && ("priority" in t ==> t["priority"].Int? && 0 <= t["priority"].n <= 4_294_967_295)
            && ("enabled" in t ==> t["enabled"].Bool?)
            && "action" in t && t["action"] in [Toml.Str("allow"), Toml.Str("deny")]
            && ("duration" in t ==> t["duration"] in [Toml.Str("once"), Toml.Str("session"), Toml.Str("persistent")])
            && (if "match" in t then t["match"] == Toml.Array([]) else ToMatches(doc.entries).Some?))
      && (ToRule(doc).Some? ==>
            ToRule(doc).value.matches == if "match" in t then [] else ToMatches(doc.entries).value)
  {
    hide ToMatches;
  }

  lemma NamesInWords(f: MatchField, op: MatchOp)
    ensures FieldName(f) ==
      match f
      case ProcessPath => "process_path"
      case DestHost => "dest_host"
      case DestIp => "dest_ip"
      case DestPort => "dest_port"
    ensures OpName(op) ==
      match op
      case Exact => "exact" case Prefix => "prefix" case Suffix => "suffix" case Contains => "contains" case In => "in"
  {
  }

  /** What the list shows of a clause: field, operator and value, lists with commas. */
  lemma SummaryMeans(m: Match)
    ensures Summary(m) == FieldName(m.field) + " " + OpName(m.op) + " " +
      (match m.value
       case Num(n) => Decimal(n) case Str(s) => s
       case NumList(ns) => Join(Map(ns, n => Decimal(n)), ",") case StrList(ss) => Join(ss, ","))
  {
    hide FieldName, OpName, Join, Decimal;
  }
}
