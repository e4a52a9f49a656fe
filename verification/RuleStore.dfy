/** The daemon's operations on the rules directory. */
module RuleStore {
  import opened Base
  import opened Sorting
  import opened Rules
  import opened Proto
  import opened Loading
  import opened Toggling
  import opened DenyRules
  import Toml

  /** What the operating system contributes to one request: whether creating the
      directory and writing the file succeed, the clock in milliseconds, and
      where a new file turns up in the enumeration. A failed write leaves the
      directory as it was. */
  datatype Env = Env(mkdirOk: bool, writeOk: bool, millis: nat, slot: nat)

  // --- Lists for display --------------------------------------------------------------

  function PathText(name: OsString): string {
    RULES_DIR + "/" + ToTextLossy(name)
  }

  function ToInfo(l: Loaded): RuleInfo {
    RuleInfo(
      l.id, l.rule.priority, l.rule.enabled,
      match l.rule.action case Allow => AllowRule case Deny => DenyRule,
      LifetimeText(l.rule.duration), Map(l.rule.matches, Summary), PathText(l.name))
  }

  function RuleInfos(dir: Dir): seq<RuleInfo> {
    Map(ListAll(FilesOf(dir)), ToInfo)
  }

  /** What a file adds to the displayed list. */
  function InfoOf(f: File): Option<RuleInfo> {
    match ToLoaded(f)
    case Some(l) => Some(ToInfo(l))
    case None => None
  }

  predicate InfoLe(a: RuleInfo, b: RuleInfo) {
    a.priority < b.priority || (a.priority == b.priority && TextLe(a.id, b.id))
  }

  lemma {:induction false} InfosOfFiles(files: seq<File>)
    ensures Map(AllRules(files), ToInfo) == Collect(files, InfoOf)
  {
    hide ToLoaded, ToInfo;
    if files != [] {
      InfosOfFiles(files[1..]);
      if ToLoaded(files[0]).Some? {
        assert AllRules(files)[1..] == AllRules(files[1..]);
      }
    }
  }

  lemma {:induction false} RuleInfosByFile(files: seq<File>)
    ensures RuleInfos(Listed(files)) == StableSort(Collect(files, InfoOf), InfoLe)
  {
    hide ToLoaded, TextLe;
    MapSort(AllRules(files), DisplayLe, InfoLe, ToInfo);
    InfosOfFiles(files);
  }

  /** Creating, changing or removing one file leaves the displayed list as it was
      exactly when the file displays the same before and after, or not at all. */
  lemma {:induction false} OneFileChanged(a: seq<File>, x: seq<File>, y: seq<File>, b: seq<File>)
    requires |x| <= 1 && |y| <= 1
    ensures RuleInfos(Listed(a + x + b)) == RuleInfos(Listed(a + y + b)) <==> Collect(x, InfoOf) == Collect(y, InfoOf)
  {
    hide RuleInfos, InfoOf, InfoLe, StableSort, Collect;
    var before, after := Collect(a + x + b, InfoOf), Collect(a + y + b, InfoOf);
    RuleInfosByFile(a + x + b);
    RuleInfosByFile(a + y + b);
    Around(a, x, b);
    Around(a, y, b);
    if StableSort(before, InfoLe) == StableSort(after, InfoLe) {
      SortPermutes(before, InfoLe);
      SortPermutes(after, InfoLe);
      AtMostOne(x);
      AtMostOne(y);
      SameMiddle(Collect(a, InfoOf), Collect(x, InfoOf), Collect(y, InfoOf), Collect(b, InfoOf));
    }
  }

  lemma {:induction false} Around(a: seq<File>, x: seq<File>, b: seq<File>)
    ensures Collect(a + x + b, InfoOf) == Collect(a, InfoOf) + Collect(x, InfoOf) + Collect(b, InfoOf)
  {
    CollectAppend(a + x, b, InfoOf);
    CollectAppend(a, x, InfoOf);
  }

  lemma {:induction false} AtMostOne(x: seq<File>)
    requires |x| <= 1
    ensures |Collect(x, InfoOf)| <= 1
  {
    assert |x| == 1 ==> x[1..] == [];
  }

  lemma SameMiddle(a: seq<RuleInfo>, x: seq<RuleInfo>, y: seq<RuleInfo>, b: seq<RuleInfo>)
    requires |x| <= 1 && |y| <= 1 && multiset(a + x + b) == multiset(a + y + b)
    ensures x == y
  {
    var left, right := multiset(a) + multiset(x) + multiset(b), multiset(a) + multiset(y) + multiset(b);
    assert multiset(a + x + b) == left && multiset(a + y + b) == right;
    forall e ensures multiset(x)[e] == multiset(y)[e] {
      assert left[e] == right[e];
    }
    assert multiset(x) == multiset(y);
    assert |x| == |multiset(x)| == |multiset(y)| == |y|;
    if x != [] {
      assert x[0] in multiset(y);
    }
  }

  lemma {:induction false} ListingOfOne(f: File)
    requires ToLoaded(f).Some?
    ensures RuleInfos(Listed([f])) == [ToInfo(ToLoaded(f).value)]
  {
    hide ToLoaded, ToInfo, DisplayLe;
    var l := ToLoaded(f).value;
    assert [f][1..] == [] && Collect<File, Loaded>([], ToLoaded) == [];
    assert AllRules([f]) == [l];
    assert StableSort([l], DisplayLe) == [l];
  }

  // --- Changes ---------------------------------------------------------------------------

  function ToggleResult(dir: Dir, id: string, b: bool, env: Env): (Dir, Result<OsString>) {
    if !dir.Listed? then (dir, Err("reading " + RULES_DIR))
    else match Holder(dir.files, id)
      case None => (dir, Err("no rule with id " + id))
      case Some(k) =>
        var name := dir.files[k].name;
        if env.writeOk then (Listed(dir.files[k := SetFlag(dir.files[k], b)]), Ok(name))
        else (dir, Err("writing " + PathText(name)))
  }

  function NameIndex(files: seq<File>, name: OsString): (k: Option<nat>)
    ensures k.Some? ==> k.value < |files| && files[k.value].name == name
    ensures k == None ==> forall j :: 0 <= j < |files| ==> files[j].name != name
  {
    if files == [] then None
    else if files[0].name == name then Some(0)
    else match NameIndex(files[1..], name)
      case None => None
      case Some(k) => Some(k + 1)
  }

  /** Overwrites the file of that name or adds one. */
  function Put(files: seq<File>, f: File, slot: nat): seq<File> {
    match NameIndex(files, f.name)
    case Some(k) => files[k := f]
    case None =>
      var at := if slot <= |files| then slot else |files|;
      files[..at] + [f] + files[at..]
  }

  /** The files enumerated before and behind the one that `Put` leaves under this name. */
  function Neighbours(files: seq<File>, name: OsString, slot: nat): (seq<File>, seq<File>) {
    match NameIndex(files, name)
    case Some(k) => (files[..k], files[k + 1..])
    case None =>
      var at := if slot <= |files| then slot else |files|;
      (files[..at], files[at..])
  }

  lemma PutStandsBetween(files: seq<File>, f: File, slot: nat)
    ensures var (before, behind) := Neighbours(files, f.name, slot); Put(files, f, slot) == before + [f] + behind
  {
    match NameIndex(files, f.name)
    case Some(k) => assert files[k := f] == files[..k] + [f] + files[k + 1..];
    case None =>
  }

  /** What a file with this text is to the loaders. */
  function BodyOf(text: string): Body {
    match Toml.Parse(text)
    case Some(doc) => Parsed(doc)
    case None => Malformed
  }

  function GeneratedFile(exe: Option<string>, host: Option<string>, ip: Option<string>, kind: DenyRuleKind,
    millis: nat): File {
    var id := RuleId(exe, host, ip, kind, millis);
    File(FromText(RuleFileName(id)), BodyOf(RuleText(id, Clauses(exe, host, ip, kind))))
  }

  function DenyResult(dir: Dir, exe: Option<string>, host: Option<string>, ip: Option<string>, kind: DenyRuleKind,
    env: Env): (Dir, Result<OsString>) {
    var file := GeneratedFile(exe, host, ip, kind, env.millis);
    if Complaint(exe, host, ip, kind).Some? then (dir, Err(GapText(Complaint(exe, host, ip, kind).value)))
    else if dir == Missing && !env.mkdirOk then (dir, Err("creating " + RULES_DIR))
    else
      var made := if dir == Missing then Listed([]) else dir;
      if !env.writeOk then (made, Err("writing " + PathText(file.name)))
      else if made.Listed? then (Listed(Put(made.files, file, env.slot)), Ok(file.name))
      else (made, Ok(file.name))
  }

  /** A request to switch a rule does what `Toggle` does, if the write succeeds; a
      failed write, an unknown id or a directory that cannot be listed is refused and
      changes nothing. */
  lemma RequestedToggle(dir: Dir, id: string, b: bool, env: Env)
    ensures var (after, r) := ToggleResult(dir, id, b, env);
      var toggled := if dir.Listed? then Toggle(dir.files, id, b) else None;
      if toggled.Some? && env.writeOk then r.Ok? && after == Listed(toggled.value) else r.Err? && after == dir
  {
  }

  /** What the list shows of a rule. */
  lemma InfoShowsTheRule(l: Loaded)
    ensures var i := ToInfo(l);
      && i.id == l.id && i.priority == l.rule.priority
      && (i.enabled <==> l.rule.enabled)
      && (i.action == DenyRule <==> l.rule.action == Action.Deny)
      && (i.action == AllowRule <==> l.rule.action == Action.Allow)
      && (i.duration == "once" <==> l.rule.duration == Once)
      && (i.duration == "session" <==> l.rule.duration == Session)
      && (i.duration == "persistent" <==> l.rule.duration == Persistent)
      && |i.matches| == |l.rule.matches|
      && (forall k :: 0 <= k < |i.matches| ==> i.matches[k] == Summary(l.rule.matches[k]))
      && i.path == "/etc/dadophoros/rules.d" + "/" + ToTextLossy(l.name)
      && (forall name :: l.name == FromText(name) ==> i.path == "/etc/dadophoros/rules.d" + "/" + name)
  {
    hide Summary;
    forall name | l.name == FromText(name) ensures ToTextLossy(l.name) == name {
      assert ToTextLossy(FromText(name)) == name;
    }
  }

  // --- The store -------------------------------------------------------------------------

  class Store {
    var dir: Dir

    constructor (initial: Dir)
      ensures dir == initial
    {
      dir := initial;
    }

    method LoadRules() returns (rules: seq<Rule>)
      ensures rules == LoadDir(FilesOf(dir))
    {
      hide ToRule, Extension, Stem;
      rules := [];
      if !dir.Listed? {
        return;
      }
      var files := dir.files;
      for i := 0 to |files|
        invariant rules == Collect(files[..i], ToActive)
      {
        assert files[..i + 1] == files[..i] + [files[i]];
        CollectAppend(files[..i], [files[i]], ToActive);
        if Extension(files[i].name) != Some("toml") || !files[i].body.Parsed? {
          continue;
        }
        var parsed := ToRule(files[i].body.doc);
        if parsed == None || !parsed.value.enabled {
          continue;
        }
        var r := parsed.value;
        if r.id == None {
          r := r.(id := Stem(files[i].name));
        }
        rules := rules + [r];
      }
      assert files[..|files|] == files;
      rules := StableSort(rules, PriorityLe);
    }

    method ListRules() returns (all: seq<Loaded>)
      ensures all == ListAll(FilesOf(dir))
    {
      hide ToRule, Extension, Stem;
      all := [];
      if !dir.Listed? {
        return;
      }
      var files := dir.files;
      for i := 0 to |files|
        invariant all == Collect(files[..i], ToLoaded)
      {
        assert files[..i + 1] == files[..i] + [files[i]];
        CollectAppend(files[..i], [files[i]], ToLoaded);
        if Extension(files[i].name) != Some("toml") || !files[i].body.Parsed? {
          continue;
        }
        var parsed := ToRule(files[i].body.doc);
        if parsed == None {
          continue;
        }
        all := all + [Loaded(EffectiveId(parsed.value, files[i].name), parsed.value, files[i].name)];
      }
      assert files[..|files|] == files;
      all := StableSort(all, DisplayLe);
    }

    method ListRuleInfos() returns (infos: seq<RuleInfo>)
      ensures infos == RuleInfos(dir)
    {
      var all := ListRules();
      infos := Map(all, ToInfo);
    }

    /** Rewrites the first file that answers to the id. */
    method SetEnabled(id: string, enabled: bool, env: Env) returns (r: Result<OsString>)
      modifies this
      ensures (dir, r) == ToggleResult(old(dir), id, enabled, env)
      ensures r.Ok? ==>
        && old(dir).Listed? && dir.Listed?
        && exists k: nat :: Switched(old(dir).files, dir.files, k, id, enabled)
      ensures r.Err? ==> dir == old(dir)
    {
      hide SetFlag, PathText, ToRule, Switched;
      if !dir.Listed? {
        return Err("reading " + RULES_DIR);
      }
      var files := dir.files;
      for i := 0 to |files|
        invariant dir == old(dir)
        invariant forall j :: 0 <= j < i ==> !HasId(files[j], id)
      {
        if Extension(files[i].name) != Some("toml") || !files[i].body.Parsed? {
          continue;
        }
        var parsed := ToRule(files[i].body.doc);
        if parsed == None || EffectiveId(parsed.value, files[i].name) != id {
          continue;
        }
        assert HasId(files[i], id);
        if !env.writeOk {
          return Err("writing " + PathText(files[i].name));
        }
        SwitchedAt(files, i, id, enabled);
        dir := Listed(files[i := SetFlag(files[i], enabled)]);
        return Ok(files[i].name);
      }
      r := Err("no rule with id " + id);
    }

    /** What the requested kind of rule needs and the row does not have. */
    static method Validate(exe: Option<string>, host: Option<string>, ip: Option<string>, kind: DenyRuleKind)
      returns (complaint: Option<Gap>)
      ensures complaint == Complaint(exe, host, ip, kind)
      ensures var cs := Clauses(exe, host, ip, kind);
        complaint == None <==> forall i :: 0 <= i < |cs| ==> cs[i].value.s != ""
    {
      AcceptedClausesNameSomething(exe, host, ip, kind, 0);
      var needHost := kind == Host || kind == Both;
      var needExe := kind == Process || kind == Both;
      var needIp := kind == Ip;
      if needHost && host.GetOr("") == "" {
        return Some(NoHost);
      }
      if needExe && exe.GetOr("") == "" {
        return Some(NoExe);
      }
      if needIp && ip.GetOr("") == "" {
        return Some(NoIp);
      }
      complaint := None;
    }

    static method BuildClauses(exe: Option<string>, host: Option<string>, ip: Option<string>, kind: DenyRuleKind)
      returns (clauses: seq<Match>)
      requires Complaint(exe, host, ip, kind) == None
      ensures clauses == Clauses(exe, host, ip, kind)
      ensures |clauses| == if kind == Both then 2 else 1
    {
      clauses := [];
      if kind == Process || kind == Both {
        clauses := clauses + [Match(ProcessPath, Exact, MatchValue.Str(exe.value))];
      }
      if kind == Host || kind == Both {
        clauses := clauses + [Match(DestHost, Suffix, MatchValue.Str(host.value))];
      }
      if kind == Ip {
        clauses := clauses + [Match(DestIp, Exact, MatchValue.Str(ip.value))];
      }
    }

    method WriteDenyRule(exe: Option<string>, host: Option<string>, ip: Option<string>, kind: DenyRuleKind, env: Env)
      returns (r: Result<OsString>)
      modifies this
      ensures (dir, r) == DenyResult(old(dir), exe, host, ip, kind, env)
    {
      hide BodyOf, RuleText, RuleId, RuleFileName, FromText, PathText, Put, Complaint, Clauses, GapText;
      var complaint := Validate(exe, host, ip, kind);
      if complaint.Some? {
        return Err(GapText(complaint.value));
      }
      if dir == Missing {
        if !env.mkdirOk {
          return Err("creating " + RULES_DIR);
        }
        dir := Listed([]);
      }
      var clauses := BuildClauses(exe, host, ip, kind);
      var id := RuleId(exe, host, ip, kind, env.millis);
      var file := File(FromText(RuleFileName(id)), BodyOf(RuleText(id, clauses)));
      if !env.writeOk {
        return Err("writing " + PathText(file.name));
      }
      if dir.Listed? {
        dir := Listed(Put(dir.files, file, env.slot));
      }
      r := Ok(file.name);
    }
  }

  // --- What a written rule does ------------------------------------------------------------

  /** The id written into the file is also the stem of its name. */
  lemma GeneratedName(id: string)
    requires id != ""
    ensures Extension(FromText(RuleFileName(id))) == Some("toml")
    ensures Stem(FromText(RuleFileName(id))) == Some(id)
  {
    TomlName(id);
  }

  /** A generated file is an active rule, exactly the intended one, if its quoted
      strings are plain; otherwise both loaders skip it although the write
      succeeded. */
  lemma GeneratedFileLoads(exe: Option<string>, host: Option<string>, ip: Option<string>, kind: DenyRuleKind,
    millis: nat)
    ensures var file := GeneratedFile(exe, host, ip, kind, millis);
      if AllPlain(Clauses(exe, host, ip, kind)) then
        && ToActive(file) == Some(IntendedRule(exe, host, ip, kind, millis))
        && ToLoaded(file) == Some(Loaded(RuleId(exe, host, ip, kind, millis),
          IntendedRule(exe, host, ip, kind, millis), file.name))
        && Stem(file.name) == Some(RuleId(exe, host, ip, kind, millis))
      else ToActive(file) == None && ToLoaded(file) == None
  {
    hide Toml.Parse, RuleText;
    RuleFileRoundTrip(exe, host, ip, kind, millis);
    GeneratedName(RuleId(exe, host, ip, kind, millis));
  }

  lemma {:induction false} PutHolds(files: seq<File>, f: File, slot: nat)
    ensures f in Put(files, f, slot)
    ensures forall g | g in files && g.name != f.name :: g in Put(files, f, slot)
    ensures forall g | g in Put(files, f, slot) :: g == f || g in files
  {
    match NameIndex(files, f.name)
    case Some(k) =>
      assert files[k := f][k] == f;
      forall g | g in files && g.name != f.name ensures g in files[k := f] {
        var j :| 0 <= j < |files| && files[j] == g;
        assert files[k := f][j] == g;
      }
    case None =>
      var at := if slot <= |files| then slot else |files|;
      assert files == files[..at] + files[at..];
  }

  /** Where names are unique, writing a file leaves it and the files of other names. */
  lemma {:induction false} PutReplaces(files: seq<File>, f: File, slot: nat, g: File)
    requires forall i, j :: 0 <= i < j < |files| ==> files[i].name != files[j].name
    ensures g in Put(files, f, slot) <==> g == f || (g in files && g.name != f.name)
  {
    PutHolds(files, f, slot);
    if g in Put(files, f, slot) && g != f && NameIndex(files, f.name).Some? {
      var k := NameIndex(files, f.name).value;
      var j :| 0 <= j < |files| && files[k := f][j] == g;
    }
  }

  /** After an accepted request the daemon's next load contains the intended
      rule, and every file of another name is still there. */
  lemma DenyTakesEffect(dir: Dir, exe: Option<string>, host: Option<string>, ip: Option<string>, kind: DenyRuleKind,
    env: Env)
    requires dir != Unlistable && DenyResult(dir, exe, host, ip, kind, env).1.Ok?
    requires AllPlain(Clauses(exe, host, ip, kind))
    ensures var after := DenyResult(dir, exe, host, ip, kind, env).0;
      && IntendedRule(exe, host, ip, kind, env.millis) in LoadDir(FilesOf(after))
      && (forall g | g in FilesOf(dir) && g.name != GeneratedFile(exe, host, ip, kind, env.millis).name ::
        g in FilesOf(after))
  {
    hide GeneratedFile, StableSort, IntendedRule, Put, ToActive, ToLoaded, AllPlain, Clauses, GapText, Complaint;
    var file := GeneratedFile(exe, host, ip, kind, env.millis);
    var made := if dir == Missing then [] else dir.files;
    var files := Put(made, file, env.slot);
    GeneratedFileLoads(exe, host, ip, kind, env.millis);
    PutHolds(made, file, env.slot);
    var i :| 0 <= i < |files| && files[i] == file;
    CollectMember(files, ToActive, IntendedRule(exe, host, ip, kind, env.millis));
    SortMembers(Collect(files, ToActive), PriorityLe);
  }

  /** What the loaders make of a directory to which a generated file was added. */
  lemma {:induction false} RulesAfterPut(files: seq<File>, file: File, slot: nat)
    ensures var (before, behind) := Neighbours(files, file.name, slot);
      AllRules(Put(files, file, slot)) == AllRules(before)
        + (if ToLoaded(file).Some? then [ToLoaded(file).value] else []) + AllRules(behind)
  {
    hide ToLoaded, Put;
    var (before, behind) := Neighbours(files, file.name, slot);
    PutStandsBetween(files, file, slot);
    CollectAppend(before + [file], behind, ToLoaded);
    CollectAppend(before, [file], ToLoaded);
  }

  /** An accepted request whose strings are not plain adds no rule: what is listed and
      loaded is what the other files hold. */
  lemma UnplainRuleIsIgnored(dir: Dir, exe: Option<string>, host: Option<string>, ip: Option<string>,
                             kind: DenyRuleKind, env: Env)
    requires dir != Unlistable && DenyResult(dir, exe, host, ip, kind, env).1.Ok?
    requires !AllPlain(Clauses(exe, host, ip, kind))
    ensures var name := GeneratedFile(exe, host, ip, kind, env.millis).name;
      var (before, behind) := Neighbours(FilesOf(dir), name, env.slot);
      AllRules(FilesOf(DenyResult(dir, exe, host, ip, kind, env).0)) == AllRules(before) + AllRules(behind)
  {
    hide GeneratedFile, AllRules, Put, Neighbours, ToLoaded, AllPlain, Clauses;
    var file := GeneratedFile(exe, host, ip, kind, env.millis);
    GeneratedFileLoads(exe, host, ip, kind, env.millis);
    RulesAfterPut(FilesOf(dir), file, env.slot);
  }

  /** For example: a path with a line break is accepted and acknowledged, and the
      directory then holds no rule at all. */
  lemma LineBreakIsNeverLoaded(env: Env)
    requires env.mkdirOk && env.writeOk
    ensures var (after, r) := DenyResult(Missing, Some("/tmp/a\nb"), None, None, Process, env);
      r.Ok? && LoadDir(FilesOf(after)) == [] && ListAll(FilesOf(after)) == []
  {
    hide GeneratedFile, Put, ToLoaded, Toml.Parse;
    var exe := Some("/tmp/a\nb");
    var cs := Clauses(exe, None, None, Process);
    var (after, r) := DenyResult(Missing, exe, None, None, Process, env);
    assert Toml.Control(cs[0].value.s[6]);
    assert !AllPlain(cs);
    UnplainRuleIsIgnored(Missing, exe, None, None, Process, env);
    NoNeighbours(GeneratedFile(exe, None, None, Process, env.millis).name, env.slot);
    LoadDirByFile(FilesOf(after));
  }

  lemma NoNeighbours(name: OsString, slot: nat)
    ensures Neighbours([], name, slot) == ([], [])
  {
  }
}
