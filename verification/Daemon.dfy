/** The daemon's event loop together with the kernel hooks: one step relation over
    which events are drained, judged, cached and broadcast. */
module Daemon {
  import opened Base
  import opened Kernel
  import opened DnsCache
  import opened Rules
  import Codec
  import Loading
  import RuleStore
  import Proto
  import StatsModel

  const VERDICT_DENY: u8 := 0

  // --- Judging one event ------------------------------------------------------------------

  /** Executable paths by process id; a failed lookup is remembered too. */
  type ExePaths = map<u32, Option<OsString>>

  datatype DState = DState(
    rules: seq<Rule>, dns: Cache, exePaths: ExePaths,
    stats: StatsModel.Acc, published: StatsModel.Acc, sent: seq<Proto.EnrichedEvent>)

  /** What the environment supplies while one event is handled: the monotone and
      the wall clock, what /proc says about the process, and whether the kernel
      accepts a cache insert. */
  datatype DrainEnv = DrainEnv(now: Instant, wallNs: u64, procExe: Option<OsString>, insertOk: bool)

  datatype Judgement = Judgement(event: ConnectEvent, facts: Facts, verdict: Option<Rules.Verdict>, wallNs: u64)

  function ExeOf(paths: ExePaths, pid: u32, procExe: Option<OsString>): Option<OsString> {
    if pid in paths then paths[pid] else procExe
  }

  function ExeText(p: Option<OsString>): Option<string> {
    match p
    case Some(path) => ToText(path)
    case None => None
  }

  lemma ExeTextTells(p: Option<OsString>)
    ensures forall s :: ExeText(p) == Some(s) <==> p == Some(FromText(s))
  {
    hide ToText;
    if p.Some? {
      forall s ensures ToText(p.value) == Some(s) <==> p.value == FromText(s) {
        ToTextExactly(p.value, s);
      }
    }
  }

  function Judge(d: DState, e: ConnectEvent, env: DrainEnv): Judgement {
    var facts := Facts(ExeText(ExeOf(d.exePaths, e.pid, env.procExe)), LookupHost(e, d.dns, env.now), EventIpString(e),
      e.dport);
    Judgement(e, facts, FirstMatch(d.rules, facts), env.wallNs)
  }

  predicate Denied(j: Judgement) {
    j.verdict.Some? && j.verdict.value.action == Deny
  }

  /** The bytes before the first zero, if they are text. */
  function CommText(comm: seq<u8>): string {
    Codec.FromUtf8(UntilZero(comm)).GetOr("?")
  }

  function UntilZero(s: seq<u8>): seq<u8> {
    if s == [] || s[0] == 0 then [] else [s[0]] + UntilZero(s[1..])
  }

  function Enrich(j: Judgement): Proto.EnrichedEvent {
    var e := j.event;
    Proto.EnrichedEvent(
      j.wallNs, e.pid, e.uid, CommText(e.comm), j.facts.exe, e.family, e.daddrV4, e.daddrV6, e.dport, j.facts.host,
      if Denied(j) then Proto.Deny else Proto.Allow,
      match j.verdict case Some(v) => Some(v.ruleId) case None => None)
  }

  // --- Steps -------------------------------------------------------------------------------

  datatype World = World(kernel: KState, daemon: DState)

  datatype Step =
    | HookCall(call: Call)
    | Drain(env: DrainEnv)
    | Reload(dir: Loading.Dir)
    | Dns(record: Record, at: Instant)
    | Second(at: Instant)
    | LruEvict(key: FlowKey)

  predicate Drains(w: World, s: Step) {
    s.Drain? && w.kernel.ring != []
  }

  function JudgedBy(w: World, s: Step): Judgement
    requires Drains(w, s)
  {
    Judge(w.daemon, w.kernel.ring[0], s.env)
  }

  function CacheDeny(cache: map<FlowKey, u8>, j: Judgement, insertOk: bool): map<FlowKey, u8> {
    if Denied(j) && insertOk then cache[CommonFlowKey(j.event) := VERDICT_DENY] else cache
  }

  function DrainStep(w: World, env: DrainEnv): World
    requires w.kernel.ring != []
  {
    var e := w.kernel.ring[0];
    var j := Judge(w.daemon, e, env);
    World(
      w.kernel.(ring := w.kernel.ring[1..], cache := CacheDeny(w.kernel.cache, j, env.insertOk)),
      w.daemon.(exePaths := w.daemon.exePaths[e.pid := ExeOf(w.daemon.exePaths, e.pid, env.procExe)],
                stats := StatsModel.RecordSpec(w.daemon.stats, Enrich(j)),
                sent := w.daemon.sent + [Enrich(j)]))
  }

  function Next(w: World, s: Step): World {
    match s
    case HookCall(c) => w.(kernel := HookStep(w.kernel, c).0)
    case Drain(env) => if w.kernel.ring == [] then w else DrainStep(w, env)
    case Reload(dir) => w.(daemon := w.daemon.(rules := Loading.LoadDir(Loading.FilesOf(dir))))
    case Dns(r, at) => w.(daemon := w.daemon.(dns := IngestOne(w.daemon.dns, r, at)))
    case Second(at) =>
      var stats := StatsModel.TickSpec(w.daemon.stats);
      w.(daemon := w.daemon.(dns := Evict(w.daemon.dns, at), stats := stats, published := stats))
    case LruEvict(key) => w.(kernel := w.kernel.(cache := w.kernel.cache - {key}))
  }

  ghost predicate Initial(w: World) {
    && w.kernel.cache == map[] && w.kernel.ring == []
    && w.daemon.dns == map[] && w.daemon.sent == [] && w.daemon.stats == StatsModel.EMPTY == w.daemon.published
  }

  function Run(w: World, steps: seq<Step>): World {
    if steps == [] then w else Next(Run(w, steps[..|steps| - 1]), steps[|steps| - 1])
  }

  // --- What happened in a run -----------------------------------------------------------------

  /** The state in which step i is taken. */
  function At(w: World, steps: seq<Step>, i: nat): World
    requires i <= |steps|
  {
    Run(w, steps[..i])
  }

  /** How the hook call at step i ended. */
  function OutcomeAt(w: World, steps: seq<Step>, i: nat): Outcome
    requires i < |steps| && steps[i].HookCall?
  {
    HookStep(At(w, steps, i).kernel, steps[i].call).1
  }

  /** Outcomes of all hook calls, in order. */
  function Outcomes(w: World, steps: seq<Step>): seq<Outcome> {
    if steps == [] then []
    else
      var before := steps[..|steps| - 1];
      var s := steps[|steps| - 1];
      if s.HookCall? then Outcomes(w, before) + [HookStep(Run(w, before).kernel, s.call).1] else Outcomes(w, before)
  }

  function Calls(steps: seq<Step>): nat {
    if steps == [] then 0 else Calls(steps[..|steps| - 1]) + if steps[|steps| - 1].HookCall? then 1 else 0
  }

  function QueuedEvent(o: Outcome): Option<ConnectEvent> {
    if o.Queued? then Some(o.event) else None
  }

  /** Events put into the ring, in order. */
  function Emitted(w: World, steps: seq<Step>): seq<ConnectEvent> {
    Collect(Outcomes(w, steps), QueuedEvent)
  }

  /** Events taken out of the ring, in order, as they were judged. */
  function Judged(w: World, steps: seq<Step>): seq<Judgement> {
    if steps == [] then []
    else
      var before := steps[..|steps| - 1];
      var s := steps[|steps| - 1];
      if Drains(Run(w, before), s) then Judged(w, before) + [JudgedBy(Run(w, before), s)] else Judged(w, before)
  }

  function EventsOf(js: seq<Judgement>): seq<ConnectEvent> {
    Map(js, (j: Judgement) => j.event)
  }

  function StatOps(w: World, steps: seq<Step>): seq<StatsModel.Op> {
    if steps == [] then []
    else
      var before := steps[..|steps| - 1];
      var s := steps[|steps| - 1];
      if Drains(Run(w, before), s) then StatOps(w, before) + [StatsModel.Recorded(Enrich(JudgedBy(Run(w, before), s)))]
      else if s.Second? then StatOps(w, before) + [StatsModel.Ticked]
      else StatOps(w, before)
  }

  // --- Conservation and order --------------------------------------------------------------------

  lemma EventsAppend(js: seq<Judgement>, j: Judgement)
    ensures EventsOf(js + [j]) == EventsOf(js) + [j.event]
  {
    MapAppend(js, [j], (j: Judgement) => j.event);
  }

  /** What one step does to the ring. */
  lemma RingStep(w: World, s: Step)
    ensures var ring := Next(w, s).kernel.ring;
      if s.HookCall? then ring == w.kernel.ring + Collect([HookStep(w.kernel, s.call).1], QueuedEvent)
      else if Drains(w, s) then w.kernel.ring == [JudgedBy(w, s).event] + ring
      else ring == w.kernel.ring
    ensures Next(w, s).kernel.capacity == w.kernel.capacity
    ensures |w.kernel.ring| <= w.kernel.capacity ==> |Next(w, s).kernel.ring| <= w.kernel.capacity
  {
    hide Enrich, Loading.LoadDir, CacheDeny, FirstMatch, LookupHost, EventIpString;
  }

  /** Nothing is lost or reordered: what was drained followed by what still waits
      is what was queued, and the ring never exceeds its capacity. */
  lemma {:induction false} FifoConservation(w: World, steps: seq<Step>)
    requires Initial(w)
    ensures Emitted(w, steps) == EventsOf(Judged(w, steps)) + Run(w, steps).kernel.ring
    ensures |Run(w, steps).kernel.ring| <= Run(w, steps).kernel.capacity == w.kernel.capacity
  {
    hide Next, HookStep, EventsOf;
    if steps == [] {
      assert EventsOf([]) == [] by { EventsOfNothing(); }
    } else {
      var before := steps[..|steps| - 1];
      var s := steps[|steps| - 1];
      var mid := Run(w, before);
      FifoConservation(w, before);
      RingStep(mid, s);
      if s.HookCall? {
        CollectAppend(Outcomes(w, before), [HookStep(mid.kernel, s.call).1], QueuedEvent);
      } else if Drains(mid, s) {
        EventsAppend(Judged(w, before), JudgedBy(mid, s));
      }
    }
  }

  lemma EventsOfNothing()
    ensures EventsOf([]) == []
  {
  }

  function Is(o: Outcome): Outcome -> bool {
    (x: Outcome) => x == o
  }

  lemma {:induction false} OutcomesPartition(os: seq<Outcome>)
    ensures |os| == |Filter(os, Is(Ignored))| + |Filter(os, Is(Blocked))| + |Filter(os, Is(Dropped))|
      + |Collect(os, QueuedEvent)|
  {
    if os != [] {
      OutcomesPartition(os[1..]);
    }
  }

  lemma {:induction false} CallsHaveOutcomes(w: World, steps: seq<Step>)
    ensures |Outcomes(w, steps)| == Calls(steps)
  {
    if steps != [] {
      CallsHaveOutcomes(w, steps[..|steps| - 1]);
    }
  }

  /** Every hook call is accounted for: ignored, blocked, dropped on a full ring,
      still queued, or drained. */
  lemma {:induction false} CallsAreAccountedFor(w: World, steps: seq<Step>)
    requires Initial(w)
    ensures var os := Outcomes(w, steps);
      Calls(steps) == |Filter(os, Is(Ignored))| + |Filter(os, Is(Blocked))| + |Filter(os, Is(Dropped))|
                      + |Run(w, steps).kernel.ring| + |Judged(w, steps)|
  {
    CallsHaveOutcomes(w, steps);
    OutcomesPartition(Outcomes(w, steps));
    FifoConservation(w, steps);
  }

  /** The broadcast is the enriched image of the drained events, in order, and
      the statistics are those of exactly these events. */
  lemma {:induction false} BroadcastAndStats(w: World, steps: seq<Step>)
    requires Initial(w)
    ensures Run(w, steps).daemon.sent == Map(Judged(w, steps), Enrich)
    ensures Run(w, steps).daemon.stats == StatsModel.After(StatOps(w, steps))
  {
    hide Enrich, Judge, StatsModel.RecordSpec, StatsModel.TickSpec, Loading.LoadDir, HookStep, CacheDeny;
    if steps != [] {
      var before := steps[..|steps| - 1];
      var s := steps[|steps| - 1];
      BroadcastAndStats(w, before);
      if Drains(Run(w, before), s) {
        var j := JudgedBy(Run(w, before), s);
        MapAppend(Judged(w, before), [j], Enrich);
        StatsModel.AfterStep(StatOps(w, before), StatsModel.Recorded(Enrich(j)));
      } else if s.Second? {
        StatsModel.AfterStep(StatOps(w, before), StatsModel.Ticked);
      }
    }
  }

  function IsDenied(): Judgement -> bool {
    (j: Judgement) => Denied(j)
  }

  lemma {:induction false} CountOneMore(h: seq<StatsModel.Op>, op: StatsModel.Op, p: Proto.EnrichedEvent -> bool)
    ensures StatsModel.CountOps(h + [op], p) == StatsModel.CountOps(h, p) + if op.Recorded? && p(op.event) then 1 else 0
  {
    assert (h + [op])[..|h|] == h;
  }

  lemma {:induction false} CountJudged(w: World, steps: seq<Step>)
    ensures StatsModel.CountOps(StatOps(w, steps), StatsModel.Always()) == |Judged(w, steps)|
    ensures StatsModel.CountOps(StatOps(w, steps), StatsModel.WithVerdict(Proto.Deny))
      == |Filter(Judged(w, steps), IsDenied())|
  {
    hide Judge, Next, Run;
    if steps != [] {
      var before := steps[..|steps| - 1];
      var s := steps[|steps| - 1];
      CountJudged(w, before);
      if Drains(Run(w, before), s) {
        var j := JudgedBy(Run(w, before), s);
        var op := StatsModel.Recorded(Enrich(j));
        FilterAppend(Judged(w, before), [j], IsDenied());
        CountOneMore(StatOps(w, before), op, StatsModel.Always());
        CountOneMore(StatOps(w, before), op, StatsModel.WithVerdict(Proto.Deny));
      } else if s.Second? {
        CountOneMore(StatOps(w, before), StatsModel.Ticked, StatsModel.Always());
        CountOneMore(StatOps(w, before), StatsModel.Ticked, StatsModel.WithVerdict(Proto.Deny));
      }
    }
  }

  /** The totals count exactly the drained events and the deny decisions among
      them. */
  lemma {:induction false} TotalsCountDecisions(w: World, steps: seq<Step>)
    requires Initial(w)
    ensures Run(w, steps).daemon.stats.totalEvents == |Judged(w, steps)|
    ensures Run(w, steps).daemon.stats.totalDenied == |Filter(Judged(w, steps), IsDenied())|
  {
    BroadcastAndStats(w, steps);
    CountJudged(w, steps);
    StatsModel.TotalsCountEvents(StatOps(w, steps));
  }

  /** How far a run had got at its last tick of the second. */
  function LastTick(steps: seq<Step>): (t: nat)
    ensures t <= |steps|
  {
    if steps == [] then 0
    else if steps[|steps| - 1].Second? then |steps|
    else LastTick(steps[..|steps| - 1])
  }

  lemma PublishedStep(w: World, s: Step)
    ensures Next(w, s).daemon.published == if s.Second? then Next(w, s).daemon.stats else w.daemon.published
  {
    hide Judge, Enrich, HookStep, Loading.LoadDir, CacheDeny, StatsModel.RecordSpec, StatsModel.TickSpec;
  }

  /** What is published is the state of the statistics at the last tick. */
  lemma {:induction false} PublishedAtLastTick(w: World, steps: seq<Step>)
    requires Initial(w)
    ensures Run(w, steps).daemon.published == Run(w, steps[..LastTick(steps)]).daemon.stats
  {
    hide Next;
    if steps != [] {
      var before := steps[..|steps| - 1];
      PublishedAtLastTick(w, before);
      PublishedStep(Run(w, before), steps[|steps| - 1]);
      if steps[|steps| - 1].Second? {
        assert steps[..|steps|] == steps;
      } else {
        assert before[..LastTick(before)] == steps[..LastTick(steps)];
      }
    }
  }

  /** The published totals count exactly the events drained before the last tick and
      the deny decisions among them. */
  lemma {:induction false} PublishedTotals(w: World, steps: seq<Step>)
    requires Initial(w)
    ensures var judged := Judged(w, steps[..LastTick(steps)]);
      && Run(w, steps).daemon.published.totalEvents == |judged|
      && Run(w, steps).daemon.published.totalDenied == |Filter(judged, IsDenied())|
  {
    hide Run, Judged;
    PublishedAtLastTick(w, steps);
    TotalsCountDecisions(w, steps[..LastTick(steps)]);
  }

  // --- Paths --------------------------------------------------------------------------------------

  lemma PathStep(w: World, s: Step, pid: u32)
    requires pid in w.daemon.exePaths
    ensures pid in Next(w, s).daemon.exePaths && Next(w, s).daemon.exePaths[pid] == w.daemon.exePaths[pid]
  {
    hide Judge, Enrich, HookStep, Loading.LoadDir, CacheDeny, StatsModel.RecordSpec, StatsModel.TickSpec;
  }

  /** The first answer about a process id, even a failed one, is never replaced. */
  lemma {:induction false} FirstPathStays(w: World, steps: seq<Step>, i: nat, j: nat, pid: u32)
    requires i <= j <= |steps| && pid in At(w, steps, i).daemon.exePaths
    ensures pid in At(w, steps, j).daemon.exePaths
    ensures At(w, steps, j).daemon.exePaths[pid] == At(w, steps, i).daemon.exePaths[pid]
    decreases j
  {
    hide Next, Run;
    if i < j {
      FirstPathStays(w, steps, i, j - 1, pid);
      OneMore(w, steps, j - 1);
      PathStep(At(w, steps, j - 1), steps[j - 1], pid);
    }
  }

  // --- Justified blocking ---------------------------------------------------------------------------

  /** Step i judged an event of this flow under the rules, names and paths of that
      moment, the verdict was deny, and the kernel took the cache entry. */
  ghost predicate DeniesAt(w: World, steps: seq<Step>, i: nat, key: FlowKey) {
    && i < |steps| && Drains(At(w, steps, i), steps[i])
    && var j := JudgedBy(At(w, steps, i), steps[i]);
       CommonFlowKey(j.event) == key && Denied(j) && steps[i].env.insertOk
  }

  ghost predicate NotEvicted(steps: seq<Step>, from: nat, to: nat, key: FlowKey) {
    forall i :: from <= i < to && i < |steps| ==> steps[i] != LruEvict(key)
  }

  lemma OneMore(w: World, steps: seq<Step>, i: nat)
    requires i < |steps|
    ensures At(w, steps, i + 1) == Next(At(w, steps, i), steps[i])
  {
    assert steps[..i + 1][..i] == steps[..i];
  }

  lemma CacheAfter(w: World, s: Step, key: FlowKey)
    requires key in Next(w, s).kernel.cache
    ensures || (key in w.kernel.cache && s != LruEvict(key))
            || (Drains(w, s) && CommonFlowKey(JudgedBy(w, s).event) == key && Denied(JudgedBy(w, s)) && s.env.insertOk)
  {
    hide Judge, Enrich, Loading.LoadDir;
  }

  /** A cached key was put there by a deny decision and not evicted since. */
  lemma {:induction false} CachedKeyWasDenied(w: World, steps: seq<Step>, n: nat, key: FlowKey) returns (m: nat)
    requires Initial(w) && n <= |steps| && key in At(w, steps, n).kernel.cache
    ensures m < n && DeniesAt(w, steps, m, key) && NotEvicted(steps, m, n, key)
  {
    hide Next, Run;
    if n == 0 {
      assert steps[..0] == [];
      RunNothing(w);
      assert false;
    } else {
      OneMore(w, steps, n - 1);
      CacheAfter(At(w, steps, n - 1), steps[n - 1], key);
      if key in At(w, steps, n - 1).kernel.cache && steps[n - 1] != LruEvict(key) {
        m := CachedKeyWasDenied(w, steps, n - 1, key);
      } else {
        m := n - 1;
      }
    }
  }

  lemma {:induction false} RunNothing(w: World)
    ensures Run(w, []) == w
  {
  }

  lemma RingAfter(w: World, s: Step, e: ConnectEvent)
    requires e in Next(w, s).kernel.ring
    ensures e in w.kernel.ring || (s.HookCall? && HookStep(w.kernel, s.call).1 == Queued(e) && e == EventOf(s.call))
  {
    hide Judge, Enrich, Loading.LoadDir;
  }

  /** An event in the ring came from an earlier hook call, which let its system
      call through. */
  lemma {:induction false} QueuedEventHasOrigin(w: World, steps: seq<Step>, n: nat, e: ConnectEvent) returns (l: nat)
    requires Initial(w) && n <= |steps| && e in At(w, steps, n).kernel.ring
    ensures l < n && steps[l].HookCall? && OutcomeAt(w, steps, l) == Queued(e) && e == EventOf(steps[l].call)
  {
    hide Next, Run;
    if n == 0 {
      assert steps[..0] == [];
      RunNothing(w);
      assert false;
    } else {
      OneMore(w, steps, n - 1);
      RingAfter(At(w, steps, n - 1), steps[n - 1], e);
      if e in At(w, steps, n - 1).kernel.ring {
        l := QueuedEventHasOrigin(w, steps, n - 1, e);
      } else {
        l := n - 1;
      }
    }
  }

  /** Every refused system call is justified: at an earlier step m an event of the
      same flow was denied under the rules, names and paths of that moment, the
      entry was not evicted in between, and that event was emitted by a still
      earlier call of the flow, at step l, which was let through. */
  lemma JustifiedBlocking(w: World, steps: seq<Step>, n: nat) returns (l: nat, m: nat)
    requires Initial(w) && n < |steps| && steps[n].HookCall? && OutcomeAt(w, steps, n) == Blocked
    ensures var key := HookKey(steps[n].call);
      && l < m < n
      && DeniesAt(w, steps, m, key) && NotEvicted(steps, m, n, key)
      && steps[l].HookCall? && HookKey(steps[l].call) == key
      && OutcomeAt(w, steps, l) == Queued(JudgedBy(At(w, steps, m), steps[m]).event)
  {
    var key := HookKey(steps[n].call);
    m := CachedKeyWasDenied(w, steps, n, key);
    var e := At(w, steps, m).kernel.ring[0];
    l := QueuedEventHasOrigin(w, steps, m, e);
    KeysAgree(steps[l].call);
  }

  // --- A denied flow goes silent ---------------------------------------------------------------------

  lemma StaysCached(w: World, s: Step, key: FlowKey)
    requires key in w.kernel.cache && s != LruEvict(key)
    ensures key in Next(w, s).kernel.cache
  {
    hide Judge, Enrich, Loading.LoadDir;
  }

  lemma DenyEntersCache(w: World, steps: seq<Step>, m: nat, key: FlowKey)
    requires DeniesAt(w, steps, m, key)
    ensures key in At(w, steps, m + 1).kernel.cache
  {
    hide Judge, Enrich;
    OneMore(w, steps, m);
  }

  lemma {:induction false} CachedUntilEvicted(w: World, steps: seq<Step>, m: nat, n: nat, key: FlowKey)
    requires m <= n <= |steps| && key in At(w, steps, m).kernel.cache && NotEvicted(steps, m, n, key)
    ensures key in At(w, steps, n).kernel.cache
    decreases n - m
  {
    hide Next, Run;
    if m < n {
      OneMore(w, steps, m);
      StaysCached(At(w, steps, m), steps[m], key);
      CachedUntilEvicted(w, steps, m + 1, n, key);
    }
  }

  /** A call that is not skipped is refused exactly when its flow was denied at some
      earlier step and has not been evicted since; the current rules have no say. */
  lemma {:induction false} BlockedExactlyWhen(w: World, steps: seq<Step>, n: nat)
    requires Initial(w) && n < |steps| && steps[n].HookCall? && !Skipped(steps[n].call)
    ensures var key := HookKey(steps[n].call);
      OutcomeAt(w, steps, n) == Blocked <==>
        exists m: nat :: m < n && DeniesAt(w, steps, m, key) && NotEvicted(steps, m, n, key)
  {
    hide Run, DeniesAt, NotEvicted;
    var key := HookKey(steps[n].call);
    if OutcomeAt(w, steps, n) == Blocked {
      var m := CachedKeyWasDenied(w, steps, n, key);
    }
    if m: nat :| m < n && DeniesAt(w, steps, m, key) && NotEvicted(steps, m, n, key) {
      DenyEntersCache(w, steps, m, key);
      LaterNotEvicted(steps, m, n, key);
      CachedUntilEvicted(w, steps, m + 1, n, key);
    }
  }

  lemma LaterNotEvicted(steps: seq<Step>, m: nat, n: nat, key: FlowKey)
    requires NotEvicted(steps, m, n, key)
    ensures NotEvicted(steps, m + 1, n, key)
  {
  }

  /** For example: one rule denies everything, an event is drained, the directory is
      emptied and reloaded. No rule is left, and the flow is still refused. */
  lemma {:induction false} DenialOutlivesItsRule(w: World, c: Call, env: DrainEnv)
    requires Initial(w) && w.kernel.capacity > 0 && !Skipped(c) && env.insertOk
    requires w.daemon.rules == [Rule(Some("all"), 100, true, Deny, Persistent, [])]
    ensures var steps := [HookCall(c), Drain(env), Reload(Loading.Missing), HookCall(c)];
      At(w, steps, 3).daemon.rules == [] && OutcomeAt(w, steps, 3) == Blocked
  {
    hide Enrich, StatsModel.RecordSpec, LookupHost, EventIpString, ExeText, Skipped, Run;
    var steps := [HookCall(c), Drain(env), Reload(Loading.Missing), HookCall(c)];
    var key := HookKey(c);
    assert steps[..0] == [];
    RunNothing(w);
    OneMore(w, steps, 0);
    OneMore(w, steps, 1);
    OneMore(w, steps, 2);
    KeysAgree(c);
    var e := EventOf(c);
    assert At(w, steps, 1).kernel.ring == [e];
    assert Judge(w.daemon, e, env).verdict == Some(Rules.Verdict(Deny, "all"));
    assert key in At(w, steps, 2).kernel.cache;
  }

  function OfFlow(key: FlowKey): ConnectEvent -> bool {
    (e: ConnectEvent) => CommonFlowKey(e) == key
  }

  lemma EmittedOneMore(w: World, steps: seq<Step>, i: nat, key: FlowKey)
    requires i < |steps| && key in At(w, steps, i).kernel.cache
    ensures Filter(Emitted(w, steps[..i + 1]), OfFlow(key)) == Filter(Emitted(w, steps[..i]), OfFlow(key))
  {
    hide Next, Run, Judge;
    assert steps[..i + 1][..i] == steps[..i];
    if steps[i].HookCall? {
      var o := HookStep(At(w, steps, i).kernel, steps[i].call).1;
      CollectAppend(Outcomes(w, steps[..i]), [o], QueuedEvent);
      FilterAppend(Emitted(w, steps[..i]), Collect([o], QueuedEvent), OfFlow(key));
      KeysAgree(steps[i].call);
    }
  }

  lemma {:induction false} NothingEmittedWhileCached(w: World, steps: seq<Step>, m: nat, n: nat, key: FlowKey)
    requires m <= n <= |steps| && key in At(w, steps, m).kernel.cache && NotEvicted(steps, m, n, key)
    ensures Filter(Emitted(w, steps[..n]), OfFlow(key)) == Filter(Emitted(w, steps[..m]), OfFlow(key))
    decreases n
  {
    hide Next, Run, Emitted;
    if m < n {
      NothingEmittedWhileCached(w, steps, m, n - 1, key);
      CachedUntilEvicted(w, steps, m, n - 1, key);
      EmittedOneMore(w, steps, n - 1, key);
    }
  }

  /** From a deny decision until eviction, each hook call of the flow that is not
      skipped is refused, and the flow emits nothing: what is later drained for
      it, together with what still waits, is what was drained and waiting when
      the decision was made. */
  lemma {:induction false} DeniedFlowIsSilent(w: World, steps: seq<Step>, m: nat, n: nat, key: FlowKey)
    requires Initial(w) && DeniesAt(w, steps, m, key) && m < n <= |steps| && NotEvicted(steps, m, n, key)
    ensures forall i :: m < i < n && steps[i].HookCall? && HookKey(steps[i].call) == key ==>
              OutcomeAt(w, steps, i) == if Skipped(steps[i].call) then Ignored else Blocked
    ensures Filter(EventsOf(Judged(w, steps[..n])) + At(w, steps, n).kernel.ring, OfFlow(key))
            == Filter(EventsOf(Judged(w, steps[..m + 1])) + At(w, steps, m + 1).kernel.ring, OfFlow(key))
  {
    DenyEntersCache(w, steps, m, key);
    forall i | m < i < n && steps[i].HookCall? && HookKey(steps[i].call) == key
      ensures OutcomeAt(w, steps, i) == if Skipped(steps[i].call) then Ignored else Blocked
    {
      CachedUntilEvicted(w, steps, m + 1, i, key);
    }
    NothingEmittedWhileCached(w, steps, m + 1, n, key);
    FifoConservation(w, steps[..n]);
    FifoConservation(w, steps[..m + 1]);
  }

  // --- Names come from the whole DNS history ------------------------------------------------------------

  /** The monotone clock reading a step makes, if any. */
  function Clock(s: Step): Option<Instant> {
    match s
    case Drain(env) => Some(env.now)
    case Dns(_, at) => Some(at)
    case Second(at) => Some(at)
    case _ => None
  }

  ghost predicate Clocked(steps: seq<Step>) {
    forall i, j :: 0 <= i < j < |steps| && Clock(steps[i]).Some? && Clock(steps[j]).Some? ==>
      Clock(steps[i]).value <= Clock(steps[j]).value
  }

  function DnsOp(s: Step): Option<DnsCache.Op> {
    match s
    case Dns(r, at) => Some(Ingest(r, at))
    case Second(at) => Some(Tick(at))
    case _ => None
  }

  function DnsOps(steps: seq<Step>): seq<DnsCache.Op> {
    if steps == [] then []
    else match DnsOp(steps[|steps| - 1])
      case Some(op) => DnsOps(steps[..|steps| - 1]) + [op]
      case None => DnsOps(steps[..|steps| - 1])
  }

  lemma DnsStep(w: World, s: Step)
    ensures Next(w, s).daemon.dns == match DnsOp(s)
      case Some(op) => DnsCache.StepCache(w.daemon.dns, op)
      case None => w.daemon.dns
  {
    hide Judge, Enrich, HookStep, Loading.LoadDir, CacheDeny, IngestOne, Evict, StatsModel.RecordSpec,
      StatsModel.TickSpec;
  }

  lemma {:induction false} DnsOfRun(w: World, steps: seq<Step>)
    requires Initial(w)
    ensures Run(w, steps).daemon.dns == RunCache(DnsOps(steps))
  {
    hide Next, StepCache;
    if steps != [] {
      var before := steps[..|steps| - 1];
      DnsOfRun(w, before);
      DnsStep(Run(w, before), steps[|steps| - 1]);
      match DnsOp(steps[|steps| - 1])
      case Some(op) => assert (DnsOps(before) + [op])[..|DnsOps(before)|] == DnsOps(before);
      case None =>
    }
  }

  lemma {:induction false} DnsOpsClocked(steps: seq<Step>, limit: Instant)
    requires Clocked(steps)
    requires forall i :: 0 <= i < |steps| && Clock(steps[i]).Some? ==> Clock(steps[i]).value <= limit
    ensures Monotone(DnsOps(steps))
    ensures forall i :: 0 <= i < |DnsOps(steps)| ==> DnsOps(steps)[i].at <= limit
  {
    if steps != [] {
      var last := steps[|steps| - 1];
      DnsOpsClocked(steps[..|steps| - 1], if Clock(last).Some? then Clock(last).value else limit);
    }
  }

  /** The host name under which an event is judged is that of the last address
      record ever seen for its destination, if that record is still valid. */
  lemma JudgedByDnsHistory(w: World, steps: seq<Step>, i: nat)
    requires Initial(w) && Clocked(steps) && i < |steps| && Drains(At(w, steps, i), steps[i])
    ensures var j := JudgedBy(At(w, steps, i), steps[i]);
      j.facts.host == match EventIp(j.event)
        case None => None
        case Some(ip) => Scan(RunHistory(DnsOps(steps[..i])), ip, steps[i].env.now)
  {
    hide Run, RunCache, RunHistory;
    DnsOfRun(w, steps[..i]);
    DnsOpsClocked(steps[..i], steps[i].env.now);
    LookupIsScan(DnsOps(steps[..i]), At(w, steps, i).kernel.ring[0], steps[i].env.now);
  }

  // --- The event loop -------------------------------------------------------------------------------------

  lemma {:induction false} RunOn(w: World, steps: seq<Step>, more: seq<Step>)
    ensures Run(w, steps + more) == Run(Run(w, steps), more)
  {
    hide Next;
    if more == [] {
      assert steps + more == steps;
    } else {
      assert (steps + more)[..|steps + more| - 1] == steps + more[..|more| - 1];
      RunOn(w, steps, more[..|more| - 1]);
    }
  }

  function AsDns(a: Answer): Step {
    Dns(a.record, a.at)
  }

  function AsDrain(env: DrainEnv): Step {
    Drain(env)
  }

  /** Ingesting a message is ingesting its records one after the other. */
  lemma {:induction false} IngestIsRun(w: World, answers: seq<Answer>)
    ensures Run(w, Map(answers, AsDns)) == w.(daemon := w.daemon.(dns := IngestAll(w.daemon.dns, answers)))
  {
    hide IngestOne;
    if answers != [] {
      var before := answers[..|answers| - 1];
      IngestIsRun(w, before);
      assert Map(answers, AsDns)[..|before|] == Map(before, AsDns);
    }
  }

  /** Polling an empty ring changes nothing. */
  lemma {:induction false} EmptyRingStays(w: World, envs: seq<DrainEnv>, i: nat)
    requires i <= |envs| && At(w, Map(envs, AsDrain), i).kernel.ring == []
    ensures Run(w, Map(envs, AsDrain)) == At(w, Map(envs, AsDrain), i)
    decreases |envs| - i
  {
    hide Run, DrainStep;
    var steps := Map(envs, AsDrain);
    if i == |envs| {
      assert steps[..i] == steps;
    } else {
      OneMore(w, steps, i);
      EmptyRingStays(w, envs, i + 1);
    }
  }

  /** What wakes the loop, and what the kernel does on its own in between. Of the
      polls of the ring each has its own environment; the first that finds the
      ring empty is the last. */
  datatype Wake =
    | Called(call: Call)
    | Evicted(key: FlowKey)
    | DnsReady(answers: seq<Answer>)
    | EventsReady(envs: seq<DrainEnv>)
    | RulesChanged(dir: Loading.Dir)
    | SecondPassed(at: Instant)

  function StepsOf(wake: Wake): seq<Step> {
    match wake
    case Called(c) => [HookCall(c)]
    case Evicted(key) => [LruEvict(key)]
    case DnsReady(answers) => Map(answers, AsDns)
    case EventsReady(envs) => Map(envs, AsDrain)
    case RulesChanged(dir) => [Reload(dir)]
    case SecondPassed(at) => [Second(at)]
  }

  function AllSteps(wakes: seq<Wake>): seq<Step> {
    if wakes == [] then [] else AllSteps(wakes[..|wakes| - 1]) + StepsOf(wakes[|wakes| - 1])
  }

  lemma {:induction false} RunOne(w: World, s: Step)
    ensures Run(w, [s]) == Next(w, s)
  {
    hide Next;
    assert [s][..0] == [];
  }

  class EventLoop {
    const hooks: Hooks
    const stats: StatsModel.Accumulator
    var ruleSet: seq<Rule>
    var dnsCache: Cache
    var exePaths: ExePaths
    var sent: seq<Proto.EnrichedEvent>
    /** The last snapshot, and the statistics it was taken from. */
    var watch: Proto.Stats
    ghost var published: StatsModel.Acc

    ghost predicate Valid()
      reads this, stats
    {
      stats.Valid() && StatsModel.IsSnapshot(published, watch)
    }

    ghost function Sys(): World
      reads this, hooks, stats
    {
      World(hooks.State(), DState(ruleSet, dnsCache, exePaths, stats.State(), published, sent))
    }

    constructor (hooks: Hooks, stats: StatsModel.Accumulator, rules: seq<Rule>, known: ExePaths)
      requires hooks.State() == KState(map[], [], hooks.capacity) && stats.Valid() && stats.history == []
      ensures this.hooks == hooks && this.stats == stats && Valid() && Initial(Sys())
    {
      var snapshot := stats.Snapshot();
      this.hooks, this.stats := hooks, stats;
      ruleSet, dnsCache, exePaths, sent := rules, map[], known, [];
      watch, published := snapshot, StatsModel.EMPTY;
    }

    method LookupExe(pid: u32, procExe: Option<OsString>) returns (exe: Option<OsString>)
      modifies this`exePaths
      ensures exe == ExeOf(old(exePaths), pid, procExe)
      ensures exePaths == old(exePaths)[pid := exe]
    {
      if pid in exePaths {
        exe := exePaths[pid];
        assert exePaths == exePaths[pid := exe];
        return;
      }
      exe := procExe;
      exePaths := exePaths[pid := exe];
    }

    /** Takes one event out of the ring. */
    method DrainOne(env: DrainEnv)
      requires Valid() && hooks.events != []
      modifies this, hooks, stats
      ensures Valid() && Sys() == Next(old(Sys()), Drain(env))
      ensures |hooks.events| == |old(hooks.events)| - 1
      ensures |sent| == |old(sent)| + 1 && sent[..|old(sent)|] == old(sent)
      ensures var e := old(hooks.events[0]); var m := sent[|old(sent)|];
        var answer := if e.pid in old(exePaths) then old(exePaths)[e.pid] else env.procExe;
        && m.pid == e.pid && m.uid == e.uid && m.tsUnixNs == env.wallNs && m.dport == e.dport
        && m.family == e.family && m.daddrV4 == e.daddrV4 && m.daddrV6 == e.daddrV6
        && forall s :: m.exePath == Some(s) <==> answer == Some(FromText(s))
    {
      hide LookupHost, EventIpString, CommText, StatsModel.RecordSpec, FirstMatch, StatsModel.IsSnapshot;
      var e := hooks.events[0];
      hooks.events := hooks.events[1..];
      var exe := LookupExe(e.pid, env.procExe);
      ExeTextTells(exe);
      var facts := Facts(ExeText(exe), LookupHost(e, dnsCache, env.now), EventIpString(e), e.dport);
      var verdict := Evaluate(ruleSet, facts);
      if verdict.Some? && verdict.value.action == Deny {
        if env.insertOk {
          hooks.verdictCache := hooks.verdictCache[CommonFlowKey(e) := VERDICT_DENY];
        }
      }
      var enriched := Enrich(Judgement(e, facts, verdict, env.wallNs));
      stats.Record(enriched);
      sent := sent + [enriched];
    }

    /** Drains events until a poll finds none. */
    method DrainReady(envs: seq<DrainEnv>)
      requires Valid()
      modifies this, hooks, stats
      ensures Valid() && Sys() == Run(old(Sys()), Map(envs, AsDrain))
      ensures |old(hooks.events)| <= |envs| ==> hooks.events == []
    {
      hide Next, Run, StatsModel.IsSnapshot;
      ghost var steps := Map(envs, AsDrain);
      RunNothing(Sys());
      assert steps[..0] == [];
      for i := 0 to |envs|
        invariant Valid() && |hooks.events| == |old(hooks.events)| - i
        invariant Sys() == At(old(Sys()), steps, i)
      {
        if hooks.events == [] {
          EmptyRingStays(old(Sys()), envs, i);
          return;
        }
        OneMore(old(Sys()), steps, i);
        DrainOne(envs[i]);
      }
      assert steps[..|envs|] == steps;
    }

    method ReloadRules(store: RuleStore.Store)
      modifies this
      ensures Sys() == Next(old(Sys()), Reload(store.dir))
      ensures unchanged(`watch) && unchanged(`published)
    {
      ruleSet := store.LoadRules();
    }

    method IngestDns(answers: seq<Answer>)
      modifies this`dnsCache
      ensures Sys() == Run(old(Sys()), Map(answers, AsDns))
    {
      IngestIsRun(Sys(), answers);
      dnsCache := IngestAnswers(dnsCache, answers);
    }

    /** Forgets expired names, rotates the activity ring and publishes a snapshot. */
    method SecondTick(now: Instant)
      requires Valid()
      modifies this, stats
      ensures Valid() && Sys() == Next(old(Sys()), Second(now))
    {
      hide StatsModel.IsSnapshot, StatsModel.TickSpec;
      dnsCache := map ip | ip in dnsCache && dnsCache[ip].expiresAt > now :: dnsCache[ip];
      stats.Tick();
      watch := stats.Snapshot();
      published := stats.State();
    }

    /** The kernel calls a hook. */
    method HookCalled(c: Call) returns (ret: int)
      modifies hooks
      ensures Sys() == Next(old(Sys()), HookCall(c)) && ret == ReturnValue(HookStep(old(hooks.State()), c).1)
    {
      hide HookStep;
      if IsV4(c.hook) {
        ret := hooks.EmitV4(c.addr, c.hook == SendMsg4, c.task);
      } else {
        ret := hooks.EmitV6(c.addr, c.hook == SendMsg6, c.task);
      }
    }

    /** The main loop, over any schedule of what wakes it: the system takes exactly
        the steps of the wakes, so everything proved about runs holds of it. */
    method Loop(store: RuleStore.Store, wakes: seq<Wake>)
      requires Valid()
      modifies this, hooks, stats, store
      ensures Valid() && Sys() == Run(old(Sys()), AllSteps(wakes))
    {
      hide Next, Run, StatsModel.IsSnapshot, StepsOf;
      RunNothing(Sys());
      for i := 0 to |wakes|
        invariant Valid() && Sys() == Run(old(Sys()), AllSteps(wakes[..i]))
      {
        assert wakes[..i + 1][..i] == wakes[..i];
        RunOn(old(Sys()), AllSteps(wakes[..i]), StepsOf(wakes[i]));
        HandleWake(store, wakes[i]);
      }
      assert wakes[..|wakes|] == wakes;
    }

    method HandleWake(store: RuleStore.Store, wake: Wake)
      requires Valid()
      modifies this, hooks, stats, store
      ensures Valid() && Sys() == Run(old(Sys()), StepsOf(wake))
    {
      hide Next, Run, StatsModel.IsSnapshot;
      ghost var w := Sys();
      match wake {
        case Called(c) =>
          RunOne(w, HookCall(c));
          var _ := HookCalled(c);
        case Evicted(key) =>
          RunOne(w, LruEvict(key));
          LruEvicts(key);
        case DnsReady(answers) => IngestDns(answers);
        case EventsReady(envs) => DrainReady(envs);
        case RulesChanged(dir) =>
          RunOne(w, Reload(dir));
          store.dir := dir;
          ReloadRules(store);
        case SecondPassed(at) =>
          RunOne(w, Second(at));
          SecondTick(at);
      }
    }

    /** The kernel drops a key of its own accord. */
    method LruEvicts(key: FlowKey)
      modifies hooks
      ensures Sys() == Next(old(Sys()), LruEvict(key))
    {
      hooks.verdictCache := hooks.verdictCache - {key};
    }
  }
}
