/** What a client's requests do to the rules directory, from the message to the rules
    that are active afterwards. */
module Requests {
  import opened Base
  import opened Proto
  import opened Rules
  import opened Loading
  import opened Toggling
  import opened RuleStore
  import opened DenyRules
  import Server
  import Toml

  // --- Switching a rule -----------------------------------------------------------------

  /** A request to switch a rule is acknowledged exactly when some file answers to the
      id and the write succeeds, and then it has done what `Toggle` does; otherwise it
      is refused and nothing has changed. The session goes on. */
  lemma SwitchRequest(files: seq<File>, id: string, b: bool, env: Env, stats: Stats)
    ensures var r := Server.Respond(Listed(files), SetRuleEnabled(id, b), env, stats);
      && !r.ends && r.reply.Some?
      && (r.reply.value == Done <==> env.writeOk && exists k :: 0 <= k < |files| && HasId(files[k], id))
      && if r.reply.value == Done then Toggle(files, id, b).Some? && r.dir == Listed(Toggle(files, id, b).value)
         else r.reply.value.Error? && r.dir == Listed(files)
  {
    hide ToLoaded, SetFlag, PathText;
    RequestedToggle(Listed(files), id, b, env);
  }

  /** A directory that is missing or cannot be listed refuses the request. */
  lemma SwitchWithoutDirectory(dir: Dir, id: string, b: bool, env: Env, stats: Stats)
    requires !dir.Listed?
    ensures var r := Server.Respond(dir, SetRuleEnabled(id, b), env, stats);
      !r.ends && r.dir == dir && r.reply.Some? && r.reply.value.Error?
  {
  }

  /** An acknowledged request has given the first file of that id the requested flag, and
      changed nothing else. */
  lemma SwitchTakesEffect(files: seq<File>, id: string, b: bool, env: Env, stats: Stats)
    requires Server.Respond(Listed(files), SetRuleEnabled(id, b), env, stats).reply == Some(Done)
    ensures var after := Server.Respond(Listed(files), SetRuleEnabled(id, b), env, stats).dir;
      after.Listed? && exists k: nat :: Switched(files, after.files, k, id, b)
  {
    hide Server.Respond, Toggle, Switched;
    SwitchRequest(files, id, b, env, stats);
    ToggleWritesTheFlag(files, id, b);
  }

  /** With unique ids, switching a rule off by request removes exactly that rule from
      the active ones, and every verdict is the first match among the others. */
  lemma {:induction false} OffRequest(files: seq<File>, id: string, env: Env, stats: Stats, f: Facts)
    requires UniqueIds(files)
    requires Server.Respond(Listed(files), SetRuleEnabled(id, false), env, stats).reply == Some(Done)
    ensures var after := Server.Respond(Listed(files), SetRuleEnabled(id, false), env, stats).dir;
      && LoadDir(FilesOf(after)) == Filter(LoadDir(files), OtherRule(id))
      && FirstMatch(LoadDir(FilesOf(after)), f) == FirstMatch(Filter(LoadDir(files), OtherRule(id)), f)
      && forall r :: r in LoadDir(FilesOf(after)) <==> r in LoadDir(files) && r.id.GetOr("?") != id
  {
    hide LoadDir, Toggle, UniqueIds, FirstMatch;
    SwitchRequest(files, id, false, env, stats);
    assert Holder(files, id).Some? by { ToggledHasHolder(files, id, false); }
    DisableRemovesExactlyOne(files, id, f);
    FilterMembers(LoadDir(files), OtherRule(id));
  }

  lemma {:induction false} ToggledHasHolder(files: seq<File>, id: string, b: bool)
    ensures Toggle(files, id, b).Some? <==> Holder(files, id).Some?
  {
  }

  /** Switching a rule on by request makes it active, under the id it was asked for. */
  lemma {:induction false} OnRequest(files: seq<File>, id: string, env: Env, stats: Stats)
    requires Server.Respond(Listed(files), SetRuleEnabled(id, true), env, stats).reply == Some(Done)
    ensures exists r :: r in LoadDir(FilesOf(Server.Respond(Listed(files), SetRuleEnabled(id, true), env, stats).dir))
                        && r.id.GetOr("?") == id
  {
    hide LoadDir, ToLoaded;
    SwitchTakesEffect(files, id, true, env, stats);
    var after := Server.Respond(Listed(files), SetRuleEnabled(id, true), env, stats).dir.files;
    var k: nat :| Switched(files, after, k, id, true);
    var r := ActiveOf(after, k);
  }

  // --- Asking for a deny rule -----------------------------------------------------------

  /** The text is there and not empty. */
  predicate Named(text: Option<string>) {
    text.Some? && text.value != ""
  }

  /** A deny request is acknowledged exactly when it carries every text its kind needs
      and the directory can be written to; otherwise it is refused. */
  lemma DenyRequest(dir: Dir, exe: Option<string>, host: Option<string>, ip: Option<string>, port: u16,
                    kind: DenyRuleKind, env: Env, stats: Stats)
    ensures var r := Server.Respond(dir, CreateDenyRule(exe, host, ip, port, kind), env, stats);
      && !r.ends && r.reply.Some? && (r.reply.value == Done || r.reply.value.Error?)
      && (r.reply.value == Done <==>
            && (dir == Missing ==> env.mkdirOk) && env.writeOk
            && match kind
               case Host => Named(host)
               case Process => Named(exe)
               case Ip => Named(ip)
               case Both => Named(exe) && Named(host))
  {
    hide GeneratedFile, Put, PathText;
  }

  lemma ComplaintRefuses(dir: Dir, exe: Option<string>, host: Option<string>, ip: Option<string>, port: u16,
                         kind: DenyRuleKind, env: Env, stats: Stats)
    requires Complaint(exe, host, ip, kind).Some?
    ensures Server.Respond(dir, CreateDenyRule(exe, host, ip, port, kind), env, stats)
            == Server.Response(dir, Some(Error(GapText(Complaint(exe, host, ip, kind).value))), false)
  {
    hide GeneratedFile, Put, PathText, Complaint, GapText, ToggleResult, RuleInfos;
  }

  lemma GapTexts()
    ensures GapText(NoHost) == "requested deny-by-host but no hostname on the row"
    ensures GapText(NoExe) == "requested deny-by-process but no exe path on the row"
    ensures GapText(NoIp) == "requested deny-by-ip but no dest_ip on the row"
  {
  }

  /** What is missing is said in the reply, the host before the executable. */
  lemma RefusalTexts(dir: Dir, exe: Option<string>, host: Option<string>, ip: Option<string>, port: u16,
                     kind: DenyRuleKind, env: Env, stats: Stats)
    ensures var r := Server.Respond(dir, CreateDenyRule(exe, host, ip, port, kind), env, stats);
      && ((kind == Host || kind == Both) && !Named(host) ==>
            r.dir == dir && r.reply == Some(Error(GapText(NoHost))))
      && ((kind == Process || (kind == Both && Named(host))) && !Named(exe) ==>
            r.dir == dir && r.reply == Some(Error(GapText(NoExe))))
      && (kind == Ip && !Named(ip) ==>
            r.dir == dir && r.reply == Some(Error(GapText(NoIp))))
  {
    hide Server.Respond, GapText;
    if Complaint(exe, host, ip, kind).Some? {
      ComplaintRefuses(dir, exe, host, ip, port, kind, env, stats);
    }
  }

  /** An acknowledged request whose texts are plain has put an enabled, persistent deny
      rule of priority 100 among the active rules, with exactly the clauses that its
      kind stands for; every other file is still there. */
  lemma {:induction false} DenyRequestTakesEffect(dir: Dir, exe: Option<string>, host: Option<string>,
    ip: Option<string>, port: u16, kind: DenyRuleKind, env: Env, stats: Stats) returns (r: Rule)
    requires dir != Unlistable && AllPlain(Clauses(exe, host, ip, kind))
    requires Server.Respond(dir, CreateDenyRule(exe, host, ip, port, kind), env, stats).reply == Some(Done)
    ensures r in LoadDir(FilesOf(Server.Respond(dir, CreateDenyRule(exe, host, ip, port, kind), env, stats).dir))
    ensures r.id.Some? && r.priority == 100 && r.enabled && r.action == Action.Deny && r.duration == Persistent
    ensures match kind
      case Host => host.Some? && r.matches == [Match(DestHost, Suffix, MatchValue.Str(host.value))]
      case Process => exe.Some? && r.matches == [Match(ProcessPath, Exact, MatchValue.Str(exe.value))]
      case Ip => ip.Some? && r.matches == [Match(DestIp, Exact, MatchValue.Str(ip.value))]
      case Both =>
        && exe.Some? && host.Some?
        && r.matches == [Match(ProcessPath, Exact, MatchValue.Str(exe.value)),
                         Match(DestHost, Suffix, MatchValue.Str(host.value))]
  {
    hide GeneratedFile, Put, PathText, LoadDir, RuleId, AllPlain;
    DenyRequest(dir, exe, host, ip, port, kind, env, stats);
    DenyTakesEffect(dir, exe, host, ip, kind, env);
    r := IntendedRule(exe, host, ip, kind, env.millis);
  }

  // --- The other messages ---------------------------------------------------------------

  /** Listing and statistics are answered with what was asked for and change nothing;
      taking back the subscription ends the session, a second one does nothing. */
  lemma OtherRequests(dir: Dir, filter: Option<EventFilter>, env: Env, stats: Stats)
    ensures var r := Server.Respond(dir, ListRules, env, stats);
      r.dir == dir && !r.ends && r.reply == Some(Rules(RuleInfos(dir)))
    ensures var r := Server.Respond(dir, GetStats, env, stats);
      r.dir == dir && !r.ends && r.reply == Some(StatsReply(stats))
    ensures var r := Server.Respond(dir, Unsubscribe, env, stats); r.dir == dir && r.ends && r.reply == None
    ensures var r := Server.Respond(dir, Subscribe(filter), env, stats); r.dir == dir && !r.ends && r.reply == None
  {
    hide RuleInfos;
  }
}
