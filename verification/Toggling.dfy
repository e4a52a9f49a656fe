/** Flipping the `enabled` flag of one rule file: what it changes in the rule
    list and in the verdicts, and what it leaves alone. */
module Toggling {
  import opened Base
  import opened Sorting
  import opened Rules
  import opened Loading
  import Toml

  predicate HasId(f: File, id: string) {
    ToLoaded(f).Some? && ToLoaded(f).value.id == id
  }

  /** The file that answers to an id: the first one in enumeration order. */
  function Holder(files: seq<File>, id: string): (k: Option<nat>)
    ensures k.Some? ==> k.value < |files| && HasId(files[k.value], id)
    ensures k.Some? ==> forall j :: 0 <= j < k.value ==> !HasId(files[j], id)
    ensures k == None ==> forall j :: 0 <= j < |files| ==> !HasId(files[j], id)
  {
    hide HasId;
    if files == [] then None
    else if HasId(files[0], id) then Some(0)
    else match Holder(files[1..], id)
      case None => None
      case Some(k) =>
        assert forall j :: 0 < j <= k ==> files[j] == files[1..][j - 1];
        Some(k + 1)
  }

  /** Sets one key of the document; the rest of the text stays as it is. */
  function SetFlag(f: File, b: bool): File {
    if f.body.Parsed? then
      f.(body := Parsed(f.body.doc.(top := f.body.doc.top["enabled" := Toml.Bool(b)])))
    else f
  }

  function Toggle(files: seq<File>, id: string, b: bool): Option<seq<File>> {
    var k :- Holder(files, id);
    Some(files[k := SetFlag(files[k], b)])
  }

  /** The same change seen in the rule list. */
  function Flag(id: string, b: bool): Loaded -> Loaded {
    (l: Loaded) => if l.id == id then l.(rule := l.rule.(enabled := b)) else l
  }

  ghost predicate UniqueIds(files: seq<File>) {
    forall i, j :: 0 <= i < j < |files| && ToLoaded(files[i]).Some? && ToLoaded(files[j]).Some? ==>
      ToLoaded(files[i]).value.id != ToLoaded(files[j]).value.id
  }

  lemma FlaggedFile(f: File, id: string, b: bool)
    requires HasId(f, id)
    ensures ToLoaded(SetFlag(f, b)) == Some(Flag(id, b)(ToLoaded(f).value))
    ensures SetFlag(f, b).name == f.name
    ensures SetFlag(f, b).body.doc == f.body.doc.(top := SetFlag(f, b).body.doc.top)
    ensures forall key | key in f.body.doc.top && key != "enabled" ::
              key in SetFlag(f, b).body.doc.top && SetFlag(f, b).body.doc.top[key] == f.body.doc.top[key]
  {
    SettingEnabled(f.body.doc, b);
  }

  // --- The rule list -------------------------------------------------------------------

  lemma {:induction false} FlaggedFiles(files: seq<File>, k: nat, id: string, b: bool)
    requires k < |files| && HasId(files[k], id)
    requires forall j :: 0 <= j < |files| && j != k ==> !HasId(files[j], id)
    ensures AllRules(files[k := SetFlag(files[k], b)]) == Map(AllRules(files), Flag(id, b))
  {
    var changed := files[k := SetFlag(files[k], b)];
    assert forall j :: 0 < j < |files| ==> files[j] == files[1..][j - 1];
    if k == 0 {
      FlaggedFile(files[0], id, b);
      assert changed[1..] == files[1..];
      OthersUnflagged(files[1..], id, b);
    } else {
      FlaggedFiles(files[1..], k - 1, id, b);
      assert changed[1..] == files[1..][k - 1 := SetFlag(files[k], b)];
    }
    match ToLoaded(files[0])
    case None =>
    case Some(l) =>
      assert Map(AllRules(files), Flag(id, b)) == [Flag(id, b)(l)] + Map(AllRules(files[1..]), Flag(id, b)) by {
        assert AllRules(files)[1..] == AllRules(files[1..]);
      }
  }

  lemma {:induction false} OthersUnflagged(files: seq<File>, id: string, b: bool)
    requires forall j :: 0 <= j < |files| ==> !HasId(files[j], id)
    ensures Map(AllRules(files), Flag(id, b)) == AllRules(files)
  {
    forall l | l in AllRules(files) ensures l.id != id {
      CollectMember(files, ToLoaded, l);
    }
  }

  /** With unique ids a toggle keeps the list: same files, same order, same
      content, except for the one flag. */
  lemma {:induction false} ToggleKeepsTheList(files: seq<File>, id: string, b: bool)
    requires UniqueIds(files) && Holder(files, id).Some?
    ensures AllRules(Toggle(files, id, b).value) == Map(AllRules(files), Flag(id, b))
    ensures ListAll(Toggle(files, id, b).value) == Map(ListAll(files), Flag(id, b))
  {
    var k := Holder(files, id).value;
    FlaggedFiles(files, k, id, b);
    MapSort(AllRules(files), DisplayLe, DisplayLe, Flag(id, b));
  }

  // --- The active rules --------------------------------------------------------------------

  function OtherThan(id: string): Loaded -> bool {
    (l: Loaded) => l.id != id
  }

  function OtherRule(id: string): Rule -> bool {
    (r: Rule) => r.id.GetOr("?") != id
  }

  lemma {:induction false} DisabledIsGone(s: seq<Loaded>, id: string)
    ensures Filter(Map(s, Flag(id, false)), Active) == Filter(Filter(s, Active), OtherThan(id))
  {
    if s != [] {
      DisabledIsGone(s[1..], id);
      assert Map(s, Flag(id, false))[1..] == Map(s[1..], Flag(id, false));
      if Active(s[0]) {
        assert Filter(s, Active)[1..] == Filter(s[1..], Active);
      }
    }
  }

  /** Disabling a rule with a unique id removes exactly it from the active rules,
      so the verdict becomes the first match among the others. */
  lemma {:induction false} DisableRemovesExactlyOne(files: seq<File>, id: string, f: Facts)
    requires UniqueIds(files) && Holder(files, id).Some?
    ensures var after := Toggle(files, id, false).value;
      && LoadDir(after) == Filter(LoadDir(files), OtherRule(id))
      && FirstMatch(LoadDir(after), f) == FirstMatch(Filter(LoadDir(files), OtherRule(id)), f)
  {
    var after := Toggle(files, id, false).value;
    var active := Filter(AllRules(files), Active);
    ToggleKeepsTheList(files, id, false);
    DisabledIsGone(AllRules(files), id);
    PrioritySort(active, OtherThan(id));
    assert LoadOrder(after) == Filter(LoadOrder(files), OtherThan(id));
    LoadDirByFile(files);
    LoadDirByFile(after);
    ActiveIds(files);
    FilterMap(LoadOrder(files), Resolve, OtherRule(id), OtherThan(id));
  }

  lemma ActiveIds(files: seq<File>)
    ensures forall l | l in LoadOrder(files) :: Resolve(l).id.GetOr("?") == l.id
  {
    RuleIdsAgree(files);
    SortMembers(Filter(AllRules(files), Active), LoadedPriorityLe);
    FilterMembers(AllRules(files), Active);
  }

  // --- Off and on again ------------------------------------------------------------------------

  lemma {:induction false} SameHolder(files: seq<File>, k: nat, id: string, f: File)
    requires Holder(files, id) == Some(k) && HasId(f, id)
    ensures Holder(files[k := f], id) == Some(k)
  {
    if k > 0 {
      assert files[k := f][1..] == files[1..][k - 1 := f];
      SameHolder(files[1..], k - 1, id, f);
    }
  }

  lemma {:induction false} ReplacedActive(files: seq<File>, k: nat, f: File)
    requires k < |files|
    ensures Collect(files[k := f], ToActive)
            == Collect(files[..k], ToActive) + Collect([f], ToActive) + Collect(files[k + 1..], ToActive)
  {
    assert files[k := f] == files[..k] + [f] + files[k + 1..];
    CollectAppend(files[..k] + [f], files[k + 1..], ToActive);
    CollectAppend(files[..k], [f], ToActive);
  }

  lemma {:induction false} ToggledTwice(files: seq<File>, k: nat, id: string)
    requires Holder(files, id) == Some(k)
    ensures var off := Toggle(files, id, false);
      off.Some? && Toggle(off.value, id, true) == Some(files[k := SetFlag(SetFlag(files[k], false), true)])
    ensures HasId(files[k], id) && HasId(SetFlag(files[k], false), id)
  {
    hide SetFlag;
    var off := SetFlag(files[k], false);
    FlaggedFile(files[k], id, false);
    SameHolder(files, k, id, off);
    assert files[k := off][k := SetFlag(off, true)] == files[k := SetFlag(off, true)];
  }

  /** Switching a rule off and on again brings back every active rule exactly
      when the rule was on before; otherwise it ends up with one rule more. */
  lemma {:induction false} OffAndOnAgain(files: seq<File>, id: string)
    requires Holder(files, id).Some?
    ensures var off := Toggle(files, id, false);
      && off.Some? && Toggle(off.value, id, true).Some?
      && (LoadDir(Toggle(off.value, id, true).value) == LoadDir(files)
          <==> ToLoaded(files[Holder(files, id).value]).value.rule.enabled)
  {
    hide Toggle, SetFlag, Holder;
    var k := Holder(files, id).value;
    var off := SetFlag(files[k], false);
    var on := SetFlag(off, true);
    ToggledTwice(files, k, id);
    FlaggedFile(files[k], id, false);
    FlaggedFile(off, id, true);
    ReplacedActive(files, k, on);
    ReplacedActive(files, k, files[k]);
    assert files[k := files[k]] == files;
    var before, after := Collect(files, ToActive), Collect(files[k := on], ToActive);
    SortPermutes(before, PriorityLe);
    SortPermutes(after, PriorityLe);
    if ToLoaded(files[k]).value.rule.enabled {
      assert Collect([on], ToActive) == Collect([files[k]], ToActive);
    } else {
      assert |after| == |before| + 1;
    }
  }

  /** An active rule comes from an enabled file and carries that file's id. */
  lemma ActiveFrom(files: seq<File>, r: Rule) returns (j: nat)
    requires r in LoadDir(files)
    ensures j < |files| && HasId(files[j], r.id.GetOr("?")) && ToLoaded(files[j]).value.rule.enabled
  {
    SortMembers(Collect(files, ToActive), PriorityLe);
    CollectMember(files, ToActive, r);
    j :| 0 <= j < |files| && ToActive(files[j]) == Some(r);
  }

  lemma ActiveOf(files: seq<File>, j: nat) returns (r: Rule)
    requires j < |files| && ToLoaded(files[j]).Some? && ToLoaded(files[j]).value.rule.enabled
    ensures r in LoadDir(files) && r.id.GetOr("?") == ToLoaded(files[j]).value.id
  {
    SortMembers(Collect(files, ToActive), PriorityLe);
    r := ToActive(files[j]).value;
    CollectMember(files, ToActive, r);
  }

  ghost predicate Silent(files: seq<File>, id: string) {
    forall r | r in LoadDir(files) :: r.id.GetOr("?") != id
  }

  ghost predicate LaterTwin(files: seq<File>, k: nat, j: nat, id: string) {
    k < j < |files| && HasId(files[j], id) && ToLoaded(files[j]).value.rule.enabled
  }

  /** Without unique ids the toggle reaches only the first file that answers to
      the id: the id falls silent exactly when no later file with it is enabled. */
  lemma {:induction false} DisableSilencesUnlessTwin(files: seq<File>, id: string)
    requires Holder(files, id).Some?
    ensures Silent(Toggle(files, id, false).value, id) <==>
            !exists j: nat :: LaterTwin(files, Holder(files, id).value, j, id)
  {
    var k := Holder(files, id).value;
    var after := Toggle(files, id, false).value;
    FlaggedFile(files[k], id, false);
    if r :| r in LoadDir(after) && r.id.GetOr("?") == id {
      var j := ActiveFrom(after, r);
      assert LaterTwin(files, k, j, id);
    }
    if j: nat :| LaterTwin(files, k, j, id) {
      var r := ActiveOf(after, j);
    }
  }

  // --- Two examples -------------------------------------------------------------------------------

  /** A rule that was off ends up on after switching it off and on again. */
  lemma OffRuleEndsUpOn()
    ensures var files := [SampleFile("r", "r", "deny", false)];
      && LoadDir(files) == [] && Holder(files, "r").Some? && Toggle(files, "r", false).Some?
      && Toggle(Toggle(files, "r", false).value, "r", true).Some?
      && LoadDir(Toggle(Toggle(files, "r", false).value, "r", true).value) != []
  {
    hide SampleFile, ToLoaded, ToActive, Toggle;
    var files := [SampleFile("r", "r", "deny", false)];
    SampleLoads("r", "r", "deny", false);
    OffAndOnAgain(files, "r");
    assert Collect(files, ToActive) == [];
  }

  /** Of two enabled files with one id, disabling the id leaves the second active. */
  lemma TwinStaysActive()
    ensures var files := [SampleFile("r", "r", "deny", true), SampleFile("s", "r", "allow", true)];
      Holder(files, "r").Some? && !Silent(Toggle(files, "r", false).value, "r")
  {
    hide SampleFile, ToLoaded, ToActive, Toggle, Silent;
    var files := [SampleFile("r", "r", "deny", true), SampleFile("s", "r", "allow", true)];
    SampleLoads("r", "r", "deny", true);
    SampleLoads("s", "r", "allow", true);
    assert Holder(files, "r") == Some(0);
    assert LaterTwin(files, 0, 1, "r");
    DisableSilencesUnlessTwin(files, "r");
  }

  // --- In words ------------------------------------------------------------------------------------

  /** File k is the first that answers to the id, and loads with this flag afterwards;
      apart from the flag its rule, and every other file, is as it was. */
  ghost predicate Switched(files: seq<File>, after: seq<File>, k: nat, id: string, b: bool) {
    && |after| == |files| && k < |files|
    && HasId(files[k], id) && (forall j :: 0 <= j < k ==> !HasId(files[j], id))
    && ToLoaded(after[k]) == Some(Loaded(id, ToLoaded(files[k]).value.rule.(enabled := b), files[k].name))
    && forall j :: 0 <= j < |files| && j != k ==> after[j] == files[j]
  }

  lemma SwitchedAt(files: seq<File>, k: nat, id: string, b: bool)
    requires k < |files| && HasId(files[k], id) && forall j :: 0 <= j < k ==> !HasId(files[j], id)
    ensures Switched(files, files[k := SetFlag(files[k], b)], k, id, b)
  {
    hide SetFlag, ToLoaded;
    FlaggedFile(files[k], id, b);
    LoadedName(files[k]);
  }

  lemma LoadedName(f: File)
    requires ToLoaded(f).Some?
    ensures ToLoaded(f).value.name == f.name
  {
  }

  /** A toggle gives the first file of that id the requested flag; without such a file
      there is no toggle. */
  lemma ToggleWritesTheFlag(files: seq<File>, id: string, b: bool)
    ensures match Toggle(files, id, b)
      case None => forall j :: 0 <= j < |files| ==> !HasId(files[j], id)
      case Some(after) => exists k: nat :: Switched(files, after, k, id, b)
  {
    hide SetFlag, Switched, ToLoaded;
    if Holder(files, id).Some? {
      SwitchedAt(files, Holder(files, id).value, id, b);
    }
  }
}
