/** What each drained event is judged by, what the daemon broadcasts of it, and what
    that has to do with the system call behind it, over all runs. */
module Judging {
  import opened Base
  import opened Addresses
  import opened Kernel
  import opened DnsCache
  import opened Rules
  import opened Daemon
  import Codec
  import Proto
  import StatsModel
  import Loading

  // --- The executable -------------------------------------------------------------------

  /** The first answer about a process id: what was known at the start, or else what
      /proc said when an event of the process was first drained. */
  function FirstAnswer(w: World, steps: seq<Step>, pid: u32): Option<Option<OsString>> {
    if steps == [] then (if pid in w.daemon.exePaths then Some(w.daemon.exePaths[pid]) else None)
    else
      var before := steps[..|steps| - 1];
      var s := steps[|steps| - 1];
      match FirstAnswer(w, before, pid)
      case Some(answer) => Some(answer)
      case None =>
        if s.Drain? && Run(w, before).kernel.ring != [] && Run(w, before).kernel.ring[0].pid == pid
        then Some(s.env.procExe) else None
  }

  lemma PathsStep(w: World, s: Step)
    ensures Next(w, s).daemon.exePaths ==
      if s.Drain? && w.kernel.ring != [] && w.kernel.ring[0].pid !in w.daemon.exePaths
      then w.daemon.exePaths[w.kernel.ring[0].pid := s.env.procExe] else w.daemon.exePaths
  {
    hide Judge, Enrich, HookStep, Loading.LoadDir, CacheDeny, IngestOne, Evict, StatsModel.RecordSpec,
      StatsModel.TickSpec;
  }

  lemma {:induction false} PathsAreFirstAnswers(w: World, steps: seq<Step>, pid: u32)
    ensures pid in Run(w, steps).daemon.exePaths <==> FirstAnswer(w, steps, pid).Some?
    ensures pid in Run(w, steps).daemon.exePaths ==>
      FirstAnswer(w, steps, pid) == Some(Run(w, steps).daemon.exePaths[pid])
  {
    hide Next;
    if steps != [] {
      PathsAreFirstAnswers(w, steps[..|steps| - 1], pid);
      PathsStep(Run(w, steps[..|steps| - 1]), steps[|steps| - 1]);
    }
  }

  /** The executable an event is judged under is the text of the first answer about its
      process, the answer of this very step included; and none exactly when that answer
      is none or not text. */
  lemma {:induction false} JudgedByFirstAnswer(w: World, steps: seq<Step>, i: nat)
    requires i < |steps| && Drains(At(w, steps, i), steps[i])
    ensures var j := JudgedBy(At(w, steps, i), steps[i]); var answer := FirstAnswer(w, steps[..i + 1], j.event.pid);
      answer.Some? && forall s :: j.facts.exe == Some(s) <==> answer.value == Some(FromText(s))
  {
    hide FirstMatch, LookupHost, EventIpString, ExeText;
    var j := JudgedBy(At(w, steps, i), steps[i]);
    var pid := j.event.pid;
    assert steps[..i + 1][..i] == steps[..i];
    PathsAreFirstAnswers(w, steps[..i], pid);
    var answer := FirstAnswer(w, steps[..i + 1], pid);
    assert answer == Some(ExeOf(At(w, steps, i).daemon.exePaths, pid, steps[i].env.procExe));
    ExeTextTells(answer.value);
  }

  // --- All the facts and the verdict ----------------------------------------------------

  /** An event is judged under the name of the last record for its destination, the
      text of the address if it has one, and its port; by the rules of the last reload. */
  lemma {:induction false} JudgedFacts(w: World, steps: seq<Step>, i: nat)
    requires Initial(w) && Clocked(steps) && i < |steps| && Drains(At(w, steps, i), steps[i])
    ensures var j := JudgedBy(At(w, steps, i), steps[i]); var e := At(w, steps, i).kernel.ring[0];
      && j.event == e && j.facts.dport == e.dport && j.wallNs == steps[i].env.wallNs
      && j.verdict == FirstMatch(At(w, steps, i).daemon.rules, j.facts)
      && (j.facts.ip == if e.family == 4 && e.daddrV4 != 0 then Some(V4Text(WordBytes(e.daddrV4)))
                        else if e.family == 6 then Some(V6Text(e.daddrV6)) else None)
      && (j.facts.host == if e.family == 4 && e.daddrV4 != 0
                          then Scan(RunHistory(DnsOps(steps[..i])), V4(WordBytes(e.daddrV4)), steps[i].env.now)
                          else if e.family == 6
                          then Scan(RunHistory(DnsOps(steps[..i])), V6(e.daddrV6), steps[i].env.now) else None)
  {
    hide FirstMatch, V4Text, V6Text, WordBytes, Scan, RunHistory, DnsOps, LookupHost, Run;
    JudgedByDnsHistory(w, steps, i);
  }

  /** A denial takes effect in the kernel under the flow of the event, with the value 0;
      nothing else enters the cache. */
  lemma DrainCaches(w: World, env: DrainEnv)
    requires w.kernel.ring != []
    ensures var j := JudgedBy(w, Drain(env)); var e := w.kernel.ring[0]; var after := Next(w, Drain(env));
      && after.kernel.ring == w.kernel.ring[1..]
      && after.kernel.cache ==
           if j.verdict.Some? && j.verdict.value.action == Deny && env.insertOk
           then w.kernel.cache[FlowKey(e.pid, 0, e.startNs, e.daddrV4, e.daddrV6, e.dport, e.family, 0) := 0]
           else w.kernel.cache
  {
    hide FirstMatch, LookupHost, EventIpString, Enrich, StatsModel.RecordSpec;
  }

  // --- The broadcast --------------------------------------------------------------------

  /** What is broadcast of a judgement, field by field. */
  lemma EnrichedFields(j: Judgement)
    ensures var m := Enrich(j); var e := j.event;
      && m.tsUnixNs == j.wallNs && m.pid == e.pid && m.uid == e.uid && m.comm == CommText(e.comm)
      && m.exePath == j.facts.exe && m.hostname == j.facts.host
      && m.family == e.family && m.daddrV4 == e.daddrV4 && m.daddrV6 == e.daddrV6 && m.dport == e.dport
      && (m.verdict == Proto.Deny <==> j.verdict.Some? && j.verdict.value.action == Deny)
      && (j.verdict == None ==> m.matchedRule == None)
      && (j.verdict.Some? ==> m.matchedRule == Some(j.verdict.value.ruleId))
  {
    hide CommText;
  }

  /** The command name is the text before the first zero byte, or a question mark. */
  lemma {:induction false} CommIsTextBeforeZero(comm: seq<u8>, name: seq<u8>, rest: seq<u8>)
    requires comm == name + rest && 0 !in name && (rest == [] || rest[0] == 0)
    ensures CommText(comm) == if Codec.FromUtf8(name).Some? then Codec.FromUtf8(name).value else "?"
  {
    hide Codec.FromUtf8;
    UntilZeroIsName(comm, name, rest);
  }

  lemma {:induction false} UntilZeroIsName(comm: seq<u8>, name: seq<u8>, rest: seq<u8>)
    requires comm == name + rest && 0 !in name && (rest == [] || rest[0] == 0)
    ensures UntilZero(comm) == name
  {
    if name != [] {
      assert name[0] in name && comm[1..] == name[1..] + rest;
      UntilZeroIsName(comm[1..], name[1..], rest);
    } else {
      assert comm == rest;
    }
  }

  lemma SentGrowsByStep(w: World, s: Step)
    ensures Next(w, s).daemon.sent ==
      if Drains(w, s) then w.daemon.sent + [Enrich(JudgedBy(w, s))] else w.daemon.sent
  {
    hide Judge, Enrich, HookStep, Loading.LoadDir, CacheDeny, IngestOne, Evict, StatsModel.RecordSpec,
      StatsModel.TickSpec;
  }

  lemma {:induction false} SentGrows(w: World, steps: seq<Step>, i: nat)
    requires i <= |steps|
    ensures At(w, steps, i).daemon.sent <= Run(w, steps).daemon.sent
    decreases |steps|
  {
    hide Next;
    if i == |steps| {
      assert steps[..i] == steps;
    } else {
      var before := steps[..|steps| - 1];
      SentGrows(w, before, i);
      assert before[..i] == steps[..i];
      SentGrowsByStep(Run(w, before), steps[|steps| - 1]);
    }
  }

  /** The event drained at step i has its place in the broadcast for ever, and what
      stands there names the process, the user, the destination and the moment of the
      event, the first answer about its executable, and the verdict of the rules in
      force with the id of the rule. */
  lemma {:induction false} BroadcastTells(w: World, steps: seq<Step>, i: nat)
    requires i < |steps| && Drains(At(w, steps, i), steps[i])
    ensures var place := |At(w, steps, i).daemon.sent|; var sent := Run(w, steps).daemon.sent;
      && place < |sent|
      && var m := sent[place]; var e := At(w, steps, i).kernel.ring[0];
         var answer := FirstAnswer(w, steps[..i + 1], e.pid);
         var verdict := FirstMatch(At(w, steps, i).daemon.rules, JudgedBy(At(w, steps, i), steps[i]).facts);
         && m.tsUnixNs == steps[i].env.wallNs && m.pid == e.pid && m.uid == e.uid && m.comm == CommText(e.comm)
         && m.family == e.family && m.daddrV4 == e.daddrV4 && m.daddrV6 == e.daddrV6 && m.dport == e.dport
         && m.hostname == JudgedBy(At(w, steps, i), steps[i]).facts.host
         && answer.Some? && (forall s :: m.exePath == Some(s) <==> answer.value == Some(FromText(s)))
         && (m.verdict == Proto.Deny <==> verdict.Some? && verdict.value.action == Deny)
         && (m.matchedRule == if verdict.Some? then Some(verdict.value.ruleId) else None)
  {
    hide Run, CommText, FirstMatch, LookupHost, EventIpString, ExeText, FirstAnswer;
    var here := At(w, steps, i);
    SentGrows(w, steps, i + 1);
    OneMore(w, steps, i);
    SentGrowsByStep(here, steps[i]);
    JudgedByFirstAnswer(w, steps, i);
    EnrichedFields(JudgedBy(here, steps[i]));
    assert Run(w, steps).daemon.sent[|here.daemon.sent|] == Enrich(JudgedBy(here, steps[i]));
  }

  /** Behind what is broadcast stands a system call that was let through earlier, and
      the broadcast names its process, its user and its destination. */
  lemma {:induction false} BroadcastNamesTheCall(w: World, steps: seq<Step>, i: nat) returns (l: nat)
    requires Initial(w) && i < |steps| && Drains(At(w, steps, i), steps[i])
    ensures l < i && steps[l].HookCall? && ReturnValue(OutcomeAt(w, steps, l)) == 1
    ensures |At(w, steps, i).daemon.sent| < |Run(w, steps).daemon.sent|
    ensures var m := Run(w, steps).daemon.sent[|At(w, steps, i).daemon.sent|]; var c := steps[l].call;
      && HasDestination(c, m.daddrV4, m.daddrV6, m.family, m.dport)
      && m.pid * 0x1_0000_0000 <= c.task.pidTgid < (m.pid + 1) * 0x1_0000_0000
      && (exists high: nat :: c.task.uidGid == high * 0x1_0000_0000 + m.uid)
      && (c.task.comm.Some? ==> m.comm == CommText(c.task.comm.value))
  {
    hide Run, CommText, FirstMatch, FirstAnswer, Drains, HookStep, EventOf, Skipped, JudgedBy, HasDestination;
    assert At(w, steps, i).kernel.ring != [] by { DrainsSome(At(w, steps, i), steps[i]); }
    var e := At(w, steps, i).kernel.ring[0];
    l := QueuedEventHasOrigin(w, steps, i, e);
    BroadcastTells(w, steps, i);
    EventDescribesTheCall(steps[l].call);
  }

  lemma DrainsSome(w: World, s: Step)
    requires Drains(w, s)
    ensures w.kernel.ring != []
  {
  }

  // --- The loop -------------------------------------------------------------------------

  /** What wakes the loop and what it then does: a DNS message is one step per record, a
      ready ring one drain per poll, and everything else one step. */
  lemma WakeSteps(call: Call, key: FlowKey, dir: Loading.Dir, at: Instant, answers: seq<Answer>, envs: seq<DrainEnv>)
    ensures StepsOf(Called(call)) == [HookCall(call)] && StepsOf(Evicted(key)) == [LruEvict(key)]
    ensures StepsOf(RulesChanged(dir)) == [Reload(dir)] && StepsOf(SecondPassed(at)) == [Second(at)]
    ensures |StepsOf(DnsReady(answers))| == |answers|
    ensures forall i :: 0 <= i < |answers| ==> StepsOf(DnsReady(answers))[i] == Dns(answers[i].record, answers[i].at)
    ensures |StepsOf(EventsReady(envs))| == |envs|
    ensures forall i :: 0 <= i < |envs| ==> StepsOf(EventsReady(envs))[i] == Drain(envs[i])
  {
  }
}
