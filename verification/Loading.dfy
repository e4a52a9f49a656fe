/** The rules directory: what the two loaders make of its files, in whatever
    order the operating system lists them, and what flipping one flag changes. */
module Loading {
  import opened Base
  import opened Sorting
  import opened Rules
  import Toml

  /** A file that cannot be read, is not TOML, or holds a document. */
  datatype Body = Unreadable | Malformed | Parsed(doc: Toml.Document)
  datatype File = File(name: OsString, body: Body)

  /** The directory in its enumeration order. */
  datatype Dir = Missing | Unlistable | Listed(files: seq<File>)

  const RULES_DIR := "/etc/dadophoros/rules.d"

  // --- File names -------------------------------------------------------------------

  /** Position of the dot that starts the extension: the last one, unless it is
      the first character of the name. */
  function ExtensionDot(name: OsString, i: nat): (r: Option<nat>)
    requires i <= |name|
    ensures r.Some? ==> 0 < r.value < i && name[r.value] == Chr('.')
    ensures r.Some? ==> forall j :: r.value < j < i ==> name[j] != Chr('.')
    ensures r == None ==> forall j :: 0 < j < i ==> name[j] != Chr('.')
  {
    if i <= 1 then None
    else if name[i - 1] == Chr('.') then Some(i - 1)
    else ExtensionDot(name, i - 1)
  }

  function Extension(name: OsString): Option<string> {
    var dot :- ExtensionDot(name, |name|);
    ToText(name[dot + 1..])
  }

  function Stem(name: OsString): Option<string> {
    match ExtensionDot(name, |name|)
    case Some(dot) => ToText(name[..dot])
    case None => ToText(name)
  }

  lemma {:induction false} LastDot(id: string, i: nat)
    requires forall k :: 0 <= k < |"toml"| ==> "toml"[k] != '.'
    requires 0 < |id| < i <= |id| + 5
    ensures ExtensionDot(FromText(id + ".toml"), i) == Some(|id|)
  {
    var name := FromText(id + ".toml");
    if i - 1 > |id| {
      assert name[i - 1] == Chr("toml"[i - 1 - |id| - 1]);
      LastDot(id, i - 1);
    } else {
      assert name[i - 1] == Chr('.');
    }
  }

  /** The name of a rule file has the wanted extension, and its stem is the id. */
  lemma TomlName(id: string)
    requires id != ""
    ensures Extension(FromText(id + ".toml")) == Some("toml") && Stem(FromText(id + ".toml")) == Some(id)
  {
    var name := FromText(id + ".toml");
    LastDot(id, |name|);
    assert name[|id| + 1..] == FromText("toml");
    assert name[..|id|] == FromText(id);
    ToTextFromText("toml");
    ToTextFromText(id);
  }

  /** The files that count are those whose name is some text, not empty, and ".toml";
      that text is the stem. */
  lemma TomlFiles(name: OsString)
    ensures Extension(name) == Some("toml") <==> exists stem :: stem != [] && name == stem + FromText(".toml")
    ensures forall stem: string :: stem != "" && name == FromText(stem) + FromText(".toml") ==> Stem(name) == Some(stem)
  {
    if Extension(name) == Some("toml") {
      var dot := ExtensionDot(name, |name|).value;
      ToTextExactly(name[dot + 1..], "toml");
      assert FromText(".toml") == [Chr('.')] + FromText("toml");
      assert name == name[..dot] + FromText(".toml");
    }
    forall stem | stem != [] && name == stem + FromText(".toml") ensures Extension(name) == Some("toml") {
      DotBeforeToml(stem);
      assert name[|stem| + 1..] == FromText("toml");
      ToTextFromText("toml");
    }
    forall stem: string | stem != "" && name == FromText(stem) + FromText(".toml") ensures Stem(name) == Some(stem) {
      DotBeforeToml(FromText(stem));
      assert name[..|stem|] == FromText(stem);
      ToTextFromText(stem);
    }
  }

  lemma DotBeforeToml(stem: OsString)
    requires stem != []
    ensures var name := stem + FromText(".toml"); ExtensionDot(name, |name|) == Some(|stem|)
  {
    var name := stem + FromText(".toml");
    assert name[|stem|] == Chr('.');
    assert forall j :: |stem| < j < |name| ==> name[j] == Chr(".toml"[j - |stem|]);
    assert forall k :: 0 < k < 5 ==> ".toml"[k] != '.';
  }

  // --- One file ------------------------------------------------------------------------

  function RuleOf(f: File): Option<Rule> {
    if Extension(f.name) == Some("toml") && f.body.Parsed? then ToRule(f.body.doc) else None
  }

  function EffectiveId(r: Rule, name: OsString): string {
    r.id.GetOr(Stem(name).GetOr("?"))
  }

  /** A rule with the file it came from and the id it is addressed by. */
  datatype Loaded = Loaded(id: string, rule: Rule, name: OsString)

  function ToLoaded(f: File): Option<Loaded> {
    var r :- RuleOf(f);
    Some(Loaded(EffectiveId(r, f.name), r, f.name))
  }

  /** What the daemon keeps of a file: enabled rules only, the file stem filled
      in for a missing id. */
  function ToActive(f: File): Option<Rule> {
    var r :- RuleOf(f);
    if !r.enabled then None
    else Some(if r.id == None then r.(id := Stem(f.name)) else r)
  }

  /** A file counts when its name ends in ".toml" behind something and its text is a rule;
      the rule is addressed by its id, or else by what stands before ".toml", and is
      active when it is enabled. */
  lemma FilesLoad(f: File)
    ensures ToLoaded(f).Some? <==>
      && (exists stem :: stem != [] && f.name == stem + FromText(".toml"))
      && f.body.Parsed? && ToRule(f.body.doc).Some?
    ensures ToLoaded(f).Some? ==>
      && ToLoaded(f).value.rule == ToRule(f.body.doc).value && ToLoaded(f).value.name == f.name
      && ToLoaded(f).value.id == if ToRule(f.body.doc).value.id.Some? then ToRule(f.body.doc).value.id.value
                                 else if Stem(f.name).Some? then Stem(f.name).value else "?"
    ensures ToActive(f).Some? <==> ToLoaded(f).Some? && ToLoaded(f).value.rule.enabled
  {
    hide ToRule, Extension, Stem;
    TomlFiles(f.name);
  }

  // --- The two loaders -----------------------------------------------------------------

  predicate PriorityLe(a: Rule, b: Rule) {
    a.priority <= b.priority
  }

  predicate DisplayLe(a: Loaded, b: Loaded) {
    a.rule.priority < b.rule.priority || (a.rule.priority == b.rule.priority && TextLe(a.id, b.id))
  }

  function FilesOf(dir: Dir): seq<File> {
    match dir
    case Listed(files) => files
    case _ => []
  }

  function AllRules(files: seq<File>): seq<Loaded> {
    Collect(files, ToLoaded)
  }

  /** The active rules in evaluation order. */
  function LoadDir(files: seq<File>): seq<Rule> {
    StableSort(Collect(files, ToActive), PriorityLe)
  }

  /** Every parsable rule in display order. */
  function ListAll(files: seq<File>): seq<Loaded> {
    StableSort(AllRules(files), DisplayLe)
  }

  function Active(l: Loaded): bool {
    l.rule.enabled
  }

  /** The rule as the daemon keeps it. */
  function Resolve(l: Loaded): Rule {
    if l.rule.id == None then l.rule.(id := Stem(l.name)) else l.rule
  }

  predicate LoadedPriorityLe(a: Loaded, b: Loaded) {
    a.rule.priority <= b.rule.priority
  }

  /** The active rules with their files, in evaluation order. */
  function LoadOrder(files: seq<File>): seq<Loaded> {
    StableSort(Filter(AllRules(files), Active), LoadedPriorityLe)
  }

  lemma DisplayOrder()
    ensures TotalPreorder(DisplayLe)
  {
    forall a, b ensures DisplayLe(a, b) || DisplayLe(b, a) {
      TextLeTotal(a.id, b.id);
    }
    forall a, b, c | DisplayLe(a, b) && DisplayLe(b, c) ensures DisplayLe(a, c) {
      if a.rule.priority == b.rule.priority == c.rule.priority {
        TextLeTransitive(a.id, b.id, c.id);
      }
    }
  }

  lemma {:induction false} DisplaySort(s: seq<Loaded>, p: Loaded -> bool)
    ensures Filter(StableSort(s, DisplayLe), p) == StableSort(Filter(s, p), DisplayLe)
    ensures Sorted(StableSort(s, DisplayLe), DisplayLe)
  {
    DisplayOrder();
    FilterSort(s, DisplayLe, p);
    SortSorted(s, DisplayLe);
  }

  lemma {:induction false} PrioritySort(s: seq<Loaded>, p: Loaded -> bool)
    ensures Filter(StableSort(s, LoadedPriorityLe), p) == StableSort(Filter(s, p), LoadedPriorityLe)
  {
    FilterSort(s, LoadedPriorityLe, p);
  }

  lemma {:induction false} ActiveRules(files: seq<File>)
    ensures Collect(files, ToActive) == Map(Filter(AllRules(files), Active), Resolve)
  {
    if files != [] {
      ActiveRules(files[1..]);
      var rest := AllRules(files[1..]);
      match ToLoaded(files[0])
      case None =>
      case Some(l) =>
        assert AllRules(files)[1..] == rest;
        if Active(l) {
          assert Filter(AllRules(files), Active) == [l] + Filter(rest, Active);
          assert Map([l] + Filter(rest, Active), Resolve) == [Resolve(l)] + Map(Filter(rest, Active), Resolve);
        }
    }
  }

  /** The daemon's rules are the listed rules that are enabled, in load order. */
  lemma LoadDirByFile(files: seq<File>)
    ensures LoadDir(files) == Map(LoadOrder(files), Resolve)
  {
    ActiveRules(files);
    MapSort(Filter(AllRules(files), Active), LoadedPriorityLe, PriorityLe, Resolve);
  }

  lemma {:induction false} RuleIdsAgree(files: seq<File>)
    ensures forall l | l in AllRules(files) :: l.id == EffectiveId(l.rule, l.name) && Resolve(l).id.GetOr("?") == l.id
  {
    forall l | l in AllRules(files) ensures l.id == EffectiveId(l.rule, l.name) {
      CollectMember(files, ToLoaded, l);
    }
  }

  // --- The loaders agree -----------------------------------------------------------------

  /** Up to order the two loaders see the same enabled rules. */
  lemma LoadersAgree(files: seq<File>)
    ensures multiset(LoadOrder(files)) == multiset(Filter(ListAll(files), Active))
  {
    SortPermutes(Filter(AllRules(files), Active), LoadedPriorityLe);
    DisplaySort(AllRules(files), Active);
    SortPermutes(Filter(AllRules(files), Active), DisplayLe);
  }

  /** Enabled rules of equal priority are enumerated in the order of their ids. */
  ghost predicate TiesInIdOrder(s: seq<Loaded>) {
    forall i, j :: 0 <= i < j < |s| && s[i].rule.priority == s[j].rule.priority ==> TextLe(s[i].id, s[j].id)
  }

  lemma {:induction false} TiedSortsAgree(s: seq<Loaded>)
    requires TiesInIdOrder(s)
    ensures StableSort(s, LoadedPriorityLe) == StableSort(s, DisplayLe)
  {
    if s != [] {
      TiedSortsAgree(s[1..]);
      var t := StableSort(s[1..], DisplayLe);
      SortMembers(s[1..], DisplayLe);
      forall y | y in t ensures LoadedPriorityLe(s[0], y) == DisplayLe(s[0], y) {
        assert y in s[1..];
      }
      InsertAgrees(s[0], t);
    }
  }

  lemma {:induction false} InsertAgrees(x: Loaded, t: seq<Loaded>)
    requires forall y | y in t :: LoadedPriorityLe(x, y) == DisplayLe(x, y)
    ensures Insert(x, t, LoadedPriorityLe) == Insert(x, t, DisplayLe)
  {
    if t != [] {
      assert t[0] in t;
      InsertAgrees(x, t[1..]);
    }
  }

  /** What is kept of a sequence from position i on starts with element i. */
  lemma KeptFrom(s: seq<Loaded>, i: nat, j: nat, p: Loaded -> bool) returns (h: nat, k: nat)
    requires i < j < |s| && p(s[i]) && p(s[j])
    ensures h < k < |Filter(s, p)| && Filter(s, p)[h] == s[i] && Filter(s, p)[k] == s[j]
  {
    assert s == s[..i] + s[i..];
    FilterAppend(s[..i], s[i..], p);
    h := |Filter(s[..i], p)|;
    assert s[i..][1..] == s[i + 1..];
    assert s[i + 1..][j - i - 1] == s[j];
    var rest := Filter(s[i + 1..], p);
    assert Filter(s[i..], p) == [s[i]] + rest;
    FilterMember(s[i + 1..], p, s[j]);
    var m :| 0 <= m < |rest| && rest[m] == s[j];
    k := h + 1 + m;
  }

  function WithPriority(n: u32): Loaded -> bool {
    (l: Loaded) => l.rule.priority == n
  }

  lemma {:induction false} TiedStay(s: seq<Loaded>, n: u32)
    ensures var t := Filter(s, WithPriority(n)); StableSort(t, LoadedPriorityLe) == t
  {
    var t := Filter(s, WithPriority(n));
    forall i | 0 <= i < |t| ensures t[i].rule.priority == n {
      FilterMember(s, WithPriority(n), t[i]);
    }
    SortOfSorted(t, LoadedPriorityLe);
  }

  lemma {:induction false} TiedClassSorted(s: seq<Loaded>, n: u32)
    requires StableSort(s, LoadedPriorityLe) == StableSort(s, DisplayLe)
    ensures Sorted(Filter(s, WithPriority(n)), DisplayLe)
  {
    var t := Filter(s, WithPriority(n));
    PrioritySort(s, WithPriority(n));
    DisplaySort(s, WithPriority(n));
    TiedStay(s, n);
    assert t == StableSort(t, DisplayLe);
    DisplaySort(t, WithPriority(n));
  }

  lemma {:induction false} AgreeingSortsAreTied(s: seq<Loaded>)
    requires StableSort(s, LoadedPriorityLe) == StableSort(s, DisplayLe)
    ensures TiesInIdOrder(s)
  {
    forall i, j | 0 <= i < j < |s| && s[i].rule.priority == s[j].rule.priority ensures TextLe(s[i].id, s[j].id) {
      var n := s[i].rule.priority;
      TiedClassSorted(s, n);
      var h, k := KeptFrom(s, i, j, WithPriority(n));
    }
  }

  /** Evaluation order and display order of the enabled rules are the same
      sequence exactly when the directory happens to list rules of equal
      priority in id order; in particular when priorities are distinct. */
  lemma LoadersAgreeInOrder(files: seq<File>)
    ensures LoadOrder(files) == Filter(ListAll(files), Active) <==> TiesInIdOrder(Filter(AllRules(files), Active))
  {
    var s := Filter(AllRules(files), Active);
    DisplaySort(AllRules(files), Active);
    if TiesInIdOrder(s) {
      TiedSortsAgree(s);
    }
    if LoadOrder(files) == Filter(ListAll(files), Active) {
      AgreeingSortsAreTied(s);
    }
  }

  /** A rule file with little in it. */
  function SampleFile(stem: string, id: string, action: string, enabled: bool): File {
    var top := map["id" := Toml.Str(id), "action" := Toml.Str(action), "enabled" := Toml.Bool(enabled)];
    File(FromText(stem + ".toml"), Parsed(Toml.Document(top, [], [])))
  }

  lemma SampleLoads(stem: string, id: string, action: string, enabled: bool)
    requires stem != "" && ToAction(action).Some?
    ensures var rule := Rule(Some(id), 100, enabled, ToAction(action).value, Persistent, []);
      && ToLoaded(SampleFile(stem, id, action, enabled)) == Some(Loaded(id, rule, FromText(stem + ".toml")))
      && ToActive(SampleFile(stem, id, action, enabled)) == if enabled then Some(rule) else None
  {
    hide FromText, ToAction, Extension;
    TomlName(stem);
    var doc := SampleFile(stem, id, action, enabled).body.doc;
    assert ToMatches(doc.entries) == Some([]);
  }

  /** For example: two enabled rules of the default priority, enumerated against the
      order of their ids, are evaluated in one order and displayed in the other. */
  lemma TiesAgainstIdOrder()
    ensures var files := [SampleFile("b", "b", "deny", true), SampleFile("a", "a", "allow", true)];
      LoadOrder(files) != Filter(ListAll(files), Active)
  {
    hide SampleFile, ToLoaded, ListAll, LoadOrder;
    var files := [SampleFile("b", "b", "deny", true), SampleFile("a", "a", "allow", true)];
    SampleLoads("b", "b", "deny", true);
    SampleLoads("a", "a", "allow", true);
    var all := AllRules(files);
    assert all == [ToLoaded(files[0]).value, ToLoaded(files[1]).value] by {
      assert files[1..] == [files[1]] && files[1..][1..] == [];
    }
    FilterEvery(all, Active);
    LoadersAgreeInOrder(files);
  }

  // --- First match is the priority minimum --------------------------------------------------

  function Matching(f: Facts): Loaded -> bool {
    (l: Loaded) => MatchesAll(l.rule.matches, f)
  }

  function Hitting(f: Facts): Loaded -> bool {
    (l: Loaded) => l.rule.enabled && MatchesAll(l.rule.matches, f)
  }

  lemma {:induction false} FirstMatchByFile(s: seq<Loaded>, f: Facts)
    requires forall l | l in s :: Resolve(l).id.GetOr("?") == l.id
    ensures var hits := Filter(s, Matching(f));
            FirstMatch(Map(s, Resolve), f) == if hits == [] then None
              else Some(Verdict(hits[0].rule.action, hits[0].id))
  {
    if s != [] {
      assert s[0] in s;
      FirstMatchByFile(s[1..], f);
      assert Map(s, Resolve)[1..] == Map(s[1..], Resolve);
    }
  }

  /** The matching active rules, in load order, are what sorting every rule by
      priority and then keeping the hits leaves. */
  lemma HitsInLoadOrder(files: seq<File>, f: Facts)
    ensures Filter(LoadOrder(files), Matching(f))
            == Filter(StableSort(AllRules(files), LoadedPriorityLe), Hitting(f))
  {
    var sorted := StableSort(AllRules(files), LoadedPriorityLe);
    PrioritySort(AllRules(files), Active);
    FilterFilter(sorted, Active, Matching(f), Hitting(f));
  }

  lemma {:induction false} VerdictByFile(files: seq<File>, f: Facts)
    ensures var hits := Filter(StableSort(AllRules(files), LoadedPriorityLe), Hitting(f));
      FirstMatch(LoadDir(files), f) == if hits == [] then None else Some(Verdict(hits[0].rule.action, hits[0].id))
  {
    LoadDirByFile(files);
    RuleIdsAgree(files);
    FilterMembers(AllRules(files), Active);
    SortMembers(Filter(AllRules(files), Active), LoadedPriorityLe);
    FirstMatchByFile(LoadOrder(files), f);
    HitsInLoadOrder(files, f);
  }

  /** Rule k is the one that decides: a hit of least priority, and of equally
      urgent hits the one enumerated first. */
  ghost predicate Decides(all: seq<Loaded>, k: nat, f: Facts) {
    && k < |all| && Hitting(f)(all[k])
    && (forall j :: 0 <= j < |all| && Hitting(f)(all[j]) ==> all[k].rule.priority <= all[j].rule.priority)
    && (forall j :: 0 <= j < k && Hitting(f)(all[j]) ==> all[k].rule.priority < all[j].rule.priority)
  }

  /** A verdict exists exactly when some enabled rule matches; it is that of the
      deciding rule, reported under the id the rule list shows for it. */
  lemma {:induction false} VerdictIsPriorityMinimum(files: seq<File>, f: Facts)
    ensures var all := AllRules(files); var v := FirstMatch(LoadDir(files), f);
      && (v == None <==> forall i :: 0 <= i < |all| ==> !Hitting(f)(all[i]))
      && (v.Some? ==> exists k: nat :: Decides(all, k, f) && v.value == Verdict(all[k].rule.action, all[k].id))
  {
    var all := AllRules(files);
    VerdictByFile(files, f);
    if exists i :: 0 <= i < |all| && Hitting(f)(all[i]) {
      var k := FirstAfterSort(all, LoadedPriorityLe, Hitting(f));
      assert Decides(all, k, f);
    } else {
      SortMembers(all, LoadedPriorityLe);
      FilterNone(StableSort(all, LoadedPriorityLe), Hitting(f));
    }
  }

  /** Of two rules, the one that is more urgent, or equally urgent and enumerated first. */
  predicate Precedes(all: seq<Loaded>, i: nat, j: nat)
    requires i < |all| && j < |all|
  {
    all[i].rule.priority < all[j].rule.priority || (all[i].rule.priority == all[j].rule.priority && i < j)
  }

  /** Rule k allows the connection and precedes every rule that would deny it. */
  ghost predicate AllowsFirst(all: seq<Loaded>, k: nat, f: Facts) {
    && k < |all| && Hitting(f)(all[k]) && all[k].rule.action == Allow
    && (forall j :: 0 <= j < |all| && Hitting(f)(all[j]) && all[j].rule.action == Deny ==> Precedes(all, k, j))
  }

  /** A connection is allowed by a rule exactly when some matching allow rule precedes
      every matching deny rule. */
  lemma {:induction false} AllowedExactlyWhen(files: seq<File>, f: Facts)
    ensures var v := FirstMatch(LoadDir(files), f);
      v.Some? && v.value.action == Allow <==> exists k: nat :: AllowsFirst(AllRules(files), k, f)
  {
    hide AllRules, LoadDir, FirstMatch, MatchesAll;
    var all := AllRules(files);
    var v := FirstMatch(LoadDir(files), f);
    VerdictIsPriorityMinimum(files, f);
    if k: nat :| AllowsFirst(all, k, f) {
      assert Hitting(f)(all[k]);
      var d: nat :| Decides(all, d, f) && v.value == Verdict(all[d].rule.action, all[d].id);
      assert all[d].rule.action == Deny ==> Precedes(all, k, d);
    }
    if v.Some? && v.value.action == Allow {
      var d: nat :| Decides(all, d, f) && v.value == Verdict(all[d].rule.action, all[d].id);
      assert AllowsFirst(all, d, f);
    }
  }

  /** With pairwise different priorities the active rules, and so every verdict,
      do not depend on the order in which the directory is listed. */
  lemma {:induction false} EnumerationOrderIrrelevant(files: seq<File>, other: seq<File>, f: Facts)
    requires multiset(files) == multiset(other)
    requires var s := Filter(AllRules(files), Active);
             forall i, j :: 0 <= i < j < |s| ==> s[i].rule.priority != s[j].rule.priority
    ensures LoadDir(files) == LoadDir(other)
    ensures FirstMatch(LoadDir(files), f) == FirstMatch(LoadDir(other), f)
  {
    CollectMultiset(files, other, ToLoaded);
    FilterMultiset(AllRules(files), AllRules(other), Active);
    var s, t := Filter(AllRules(files), Active), Filter(AllRules(other), Active);
    forall x, y | x in s && y in s && LoadedPriorityLe(x, y) && LoadedPriorityLe(y, x) ensures x == y {
      var i :| 0 <= i < |s| && s[i] == x;
      var j :| 0 <= j < |s| && s[j] == y;
      assert i == j;
    }
    SortOfPermutation(s, t, LoadedPriorityLe);
    LoadDirByFile(files);
    LoadDirByFile(other);
  }
}
