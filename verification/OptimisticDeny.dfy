/** The client marks rows as denied before the daemon has answered; this compares
    its guess with what the written rule will really match. */
module OptimisticDeny {
  import opened Base
  import opened Addresses
  import opened Proto
  import opened TuiApp
  import opened DenyRules
  import opened RuleStore
  import Rules
  import Loading
  import Kernel
  import DnsCache
  import Toml
  import Daemon

  /** The address under which the rule engine judges the flow of a row. */
  function EngineIp(row: EnrichedEvent): Option<string> {
    if row.family == 4 then (if row.daddrV4 == 0 then None else Some(V4Text(WordBytes(row.daddrV4))))
    else if row.family == 6 then Some(V6Text(row.daddrV6))
    else None
  }

  function RowFacts(row: EnrichedEvent): Rules.Facts {
    Rules.Facts(row.exePath, row.hostname, EngineIp(row), row.dport)
  }

  /** A row that reached the client carries exactly the facts it was judged by. */
  lemma RowsCarryTheirFacts(d: Daemon.DState, e: Kernel.ConnectEvent, env: Daemon.DrainEnv)
    ensures var j := Daemon.Judge(d, e, env); RowFacts(Daemon.Enrich(j)) == j.facts
  {
    hide Daemon.CommText, Rules.FirstMatch, DnsCache.LookupHost;
  }

  // --- Marking and matching ---------------------------------------------------------------

  /** What the client asks the daemon to write for a picked row. */
  function RequestedClauses(target: EnrichedEvent, kind: DenyRuleKind): seq<Rules.Match> {
    Clauses(target.exePath, target.hostname, Some(IpString(target)), kind)
  }

  predicate Acceptable(target: EnrichedEvent, kind: DenyRuleKind) {
    Complaint(target.exePath, target.hostname, Some(IpString(target)), kind) == None
  }

  predicate Matched(row: EnrichedEvent, target: EnrichedEvent, kind: DenyRuleKind) {
    Rules.MatchesAll(RequestedClauses(target, kind), RowFacts(row))
  }

  /** Rows of a longer host name that ends in the picked one. */
  predicate LongerHost(row: EnrichedEvent, target: EnrichedEvent) {
    && row.hostname.Some? && row.hostname != target.hostname
    && EndsWith(row.hostname.value, target.hostname.GetOr(""))
  }

  lemma MatchedMeans(row: EnrichedEvent, target: EnrichedEvent, kind: DenyRuleKind)
    requires Acceptable(target, kind)
    ensures Matched(row, target, kind) <==>
      match kind
      case Host => EndsWith(row.hostname.GetOr(""), target.hostname.value)
      case Process => row.exePath == target.exePath
      case Ip => EngineIp(row) == Some(IpString(target))
      case Both => row.exePath == target.exePath && EndsWith(row.hostname.GetOr(""), target.hostname.value)
  {
    hide IpString, EngineIp;
    var cs := RequestedClauses(target, kind);
    var f := RowFacts(row);
    match kind
    case Both =>
      assert Rules.MatchesAll(cs, f) <==> Rules.MatchesOne(cs[0], f) && Rules.MatchesOne(cs[1], f);
    case _ =>
      assert Rules.MatchesAll(cs, f) <==> Rules.MatchesOne(cs[0], f);
  }

  /** The address a row displays is the one it is judged by, except for the zero
      IPv4 address and unknown families, which the engine gives no address. */
  lemma EngineIpIsDisplayed(row: EnrichedEvent)
    ensures EngineIp(row) == if row.family == 6 || (row.family == 4 && row.daddrV4 != 0) then Some(IpString(row))
      else None
  {
  }

  /** Marking and matching agree on a row exactly when: always for a rule by
      process; unless the row has the picked address but the engine gives it
      none, for a rule by address; unless the row's host is a longer name with
      the picked suffix, for the kinds that look at the host. */
  lemma MarkingAgrees(row: EnrichedEvent, target: EnrichedEvent, kind: DenyRuleKind)
    requires Acceptable(target, kind)
    ensures (Marks(row, target, kind) <==> Matched(row, target, kind)) <==>
      match kind
      case Process => true
      case Ip => EngineIp(row).Some? || IpString(row) != IpString(target)
      case Host => !LongerHost(row, target)
      case Both => row.exePath == target.exePath ==> !LongerHost(row, target)
  {
    hide IpString, EngineIp;
    MatchedMeans(row, target, kind);
    EngineIpIsDisplayed(row);
  }

  /** Nothing is marked in vain: a marked row satisfies every clause of the written
      rule, unless it was marked by an address the engine does not see. */
  lemma MarkedIsMatched(row: EnrichedEvent, target: EnrichedEvent, kind: DenyRuleKind)
    requires Acceptable(target, kind) && Marks(row, target, kind)
    ensures Matched(row, target, kind) <==> (kind == Ip ==> EngineIp(row).Some?)
  {
    hide IpString, EngineIp;
    MatchedMeans(row, target, kind);
    EngineIpIsDisplayed(row);
  }

  /** A connection to 0.0.0.0, denied by address: the row is marked, a rule is
      written, and the rule does not match the row. */
  lemma ZeroAddressIsMarkedInVain(target: EnrichedEvent)
    requires target.family == 4 && target.daddrV4 == 0
    ensures Acceptable(target, Ip) && Marks(target, target, Ip) && !Matched(target, target, Ip)
  {
    V4TextIsAddress(WordBytes(0));
    MatchedMeans(target, target, Ip);
  }

  /** For example: denying one host also denies its subdomains, whose rows stay
      unmarked. */
  lemma SubdomainIsMatchedUnmarked(target: EnrichedEvent)
    requires target.hostname == Some("example.org")
    ensures var row := target.(hostname := Some("www.example.org"));
      Acceptable(target, Host) && Matched(row, target, Host) && !Marks(row, target, Host)
  {
    var row := target.(hostname := Some("www.example.org"));
    assert row.hostname.value == "www." + "example.org";
    MatchedMeans(row, target, Host);
  }

  // --- All the way to the verdict ------------------------------------------------------------

  /** Every row can be denied by address, and such a rule always survives the file. */
  lemma AddressRulesLoad(target: EnrichedEvent)
    ensures Acceptable(target, Ip) && AllPlain(RequestedClauses(target, Ip))
  {
    V4TextIsAddress(WordBytes(target.daddrV4));
    V6TextIsAddress(target.daddrV6);
  }

  /** Of the rules enumerated before and behind a new rule of the default priority,
      rule k allows the connection and precedes every denying one, the new one
      included. */
  ghost predicate Overrules(before: seq<Loading.Loaded>, behind: seq<Loading.Loaded>, k: nat, f: Rules.Facts) {
    var others := before + behind;
    && Loading.AllowsFirst(others, k, f)
    && (others[k].rule.priority < 100 || (others[k].rule.priority == 100 && k < |before|))
  }

  lemma OverruledInPlace(before: seq<Loading.Loaded>, new_: Loading.Loaded, behind: seq<Loading.Loaded>, f: Rules.Facts)
    requires Loading.Hitting(f)(new_) && new_.rule.action == Rules.Deny && new_.rule.priority == 100
    ensures (exists k: nat :: Loading.AllowsFirst(before + [new_] + behind, k, f))
       <==> (exists k: nat :: Overrules(before, behind, k, f))
  {
    hide Rules.MatchesAll;
    var all, others := before + [new_] + behind, before + behind;
    assert forall j :: 0 <= j < |others| ==> others[j] == all[if j < |before| then j else j + 1];
    assert all[|before|] == new_;
    if k: nat :| Loading.AllowsFirst(all, k, f) {
      assert Loading.Precedes(all, k, |before|);
      var i := if k < |before| then k else k - 1;
      forall j: nat | j < |others| && Loading.Hitting(f)(others[j]) && others[j].rule.action == Rules.Deny
        ensures Loading.Precedes(others, i, j)
      {
        assert Loading.Precedes(all, k, if j < |before| then j else j + 1);
      }
      assert Overrules(before, behind, i, f);
    }
    if k: nat :| Overrules(before, behind, k, f) {
      var i := if k < |before| then k else k + 1;
      forall j: nat | j < |all| && Loading.Hitting(f)(all[j]) && all[j].rule.action == Rules.Deny
        ensures Loading.Precedes(all, i, j)
      {
        if j != |before| {
          assert others[if j < |before| then j else j - 1] == all[j];
          assert Loading.Precedes(others, k, if j < |before| then j else j - 1);
        }
      }
      assert Loading.AllowsFirst(all, i, f);
    }
  }

  /** From the prompt to the verdict: once the daemon has accepted the request and
      reloaded, every row the client marked is denied, unless an enabled allow rule
      matches it that precedes, by priority and then by enumeration, the new rule
      and every other matching deny rule. The texts must survive the file and the
      engine must see the row's address. */
  lemma MarkedRowsAreDenied(dir: Loading.Dir, env: Env, row: EnrichedEvent, target: EnrichedEvent, kind: DenyRuleKind)
    requires dir != Loading.Unlistable && Marks(row, target, kind) && (kind == Ip ==> EngineIp(row).Some?)
    requires AllPlain(RequestedClauses(target, kind))
    ensures var (after, r) := DenyResult(dir, target.exePath, target.hostname, Some(IpString(target)), kind, env);
      var name := GeneratedFile(target.exePath, target.hostname, Some(IpString(target)), kind, env.millis).name;
      var (before, behind) := Neighbours(Loading.FilesOf(dir), name, env.slot);
      var v := Rules.FirstMatch(Loading.LoadDir(Loading.FilesOf(after)), RowFacts(row));
      r.Ok? ==>
        && v.Some?
        && (v.value.action == Rules.Deny <==>
              !exists k: nat :: Overrules(Loading.AllRules(before), Loading.AllRules(behind), k, RowFacts(row)))
  {
    hide IpString, EngineIp, Marks, LongerHost, Loading.LoadDir, Loading.AllRules, Loading.ToLoaded, Put, Neighbours,
      GeneratedFile;
    var exe, host, ip := target.exePath, target.hostname, Some(IpString(target));
    var (after, r) := DenyResult(dir, exe, host, ip, kind, env);
    if r.Ok? {
      var file := GeneratedFile(exe, host, ip, kind, env.millis);
      var files := Loading.FilesOf(dir);
      var (before, behind) := Neighbours(files, file.name, env.slot);
      assert Loading.FilesOf(after) == Put(files, file, env.slot);
      GeneratedFileLoads(exe, host, ip, kind, env.millis);
      RulesAfterPut(files, file, env.slot);
      MarkedIsMatched(row, target, kind);
      var new_ := Loading.ToLoaded(file).value;
      assert Loading.Hitting(RowFacts(row))(new_);
      OverruledInPlace(Loading.AllRules(before), new_, Loading.AllRules(behind), RowFacts(row));
      Loading.AllowedExactlyWhen(Loading.FilesOf(after), RowFacts(row));
      Loading.VerdictIsPriorityMinimum(Loading.FilesOf(after), RowFacts(row));
      assert Loading.AllRules(Loading.FilesOf(after))[|Loading.AllRules(before)|] == new_;
    }
  }

  /** For example: beside an enabled allow rule of priority 10 without clauses, the
      picked row itself is marked, the request accepted, and the row still allowed. */
  lemma AMarkedRowMayBeAllowed(target: EnrichedEvent, kind: DenyRuleKind, env: Env)
    requires Acceptable(target, kind) && AllPlain(RequestedClauses(target, kind)) && env.writeOk
    requires kind == Ip ==> EngineIp(target).Some?
    ensures var dir := Loading.Listed([PermissiveFile()]);
      var (after, r) := DenyResult(dir, target.exePath, target.hostname, Some(IpString(target)), kind, env);
      && Marks(target, target, kind) && r.Ok?
      && var v := Rules.FirstMatch(Loading.LoadDir(Loading.FilesOf(after)), RowFacts(target));
         v.Some? && v.value.action == Rules.Allow
  {
    hide IpString, EngineIp, Loading.LoadDir, Loading.ToLoaded, Loading.AllRules, Put, GeneratedFile, PermissiveFile,
      Neighbours, Overrules;
    var dir := Loading.Listed([PermissiveFile()]);
    var exe, host, ip := target.exePath, target.hostname, Some(IpString(target));
    MarkedRowsAreDenied(dir, env, target, target, kind);
    PermissiveIsApart(exe, host, ip, kind, env.millis);
    PermissiveOverrules(GeneratedFile(exe, host, ip, kind, env.millis).name, env.slot, RowFacts(target));
  }

  lemma PermissiveOverrules(name: OsString, slot: nat, f: Rules.Facts)
    requires name != PermissiveFile().name
    ensures var (before, behind) := Neighbours([PermissiveFile()], name, slot);
      Overrules(Loading.AllRules(before), Loading.AllRules(behind), 0, f)
  {
    hide PermissiveFile, Loading.ToLoaded;
    var (before, behind) := Neighbours([PermissiveFile()], name, slot);
    PermissiveLoads();
    assert before + behind == [PermissiveFile()];
    CollectAppend(before, behind, Loading.ToLoaded);
    assert Loading.AllRules(before) + Loading.AllRules(behind) == [Loading.ToLoaded(PermissiveFile()).value];
  }

  function PermissiveFile(): Loading.File {
    var top := map["priority" := Toml.Int(10), "action" := Toml.Str("allow")];
    Loading.File(FromText("all" + ".toml"), Loading.Parsed(Toml.Document(top, [], [])))
  }

  lemma PermissiveLoads()
    ensures Loading.ToLoaded(PermissiveFile()).Some?
    ensures Loading.ToLoaded(PermissiveFile()).value.rule
            == Rules.Rule(None, 10, true, Rules.Allow, Rules.Persistent, [])
  {
    hide FromText, Loading.Extension;
    Loading.TomlName("all");
    assert Rules.ToMatches(PermissiveFile().body.doc.entries) == Some([]);
  }

  lemma PermissiveIsApart(exe: Option<string>, host: Option<string>, ip: Option<string>, kind: DenyRuleKind,
    millis: nat)
    ensures PermissiveFile().name != GeneratedFile(exe, host, ip, kind, millis).name
  {
    hide BodyOf, RuleText;
    var id := RuleId(exe, host, ip, kind, millis);
    assert id[1] == 'u';
    assert FromText(RuleFileName(id))[1] == Chr('u');
  }
}
