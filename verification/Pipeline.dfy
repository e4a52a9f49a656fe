/** From the kernel to the screen: the daemon's judgements, the session that relays
    them, and the client that shows them, joined. */
module Pipeline {
  import opened Base
  import opened Proto
  import opened TuiApp
  import opened Protocol
  import opened RowLog
  import Codec
  import Daemon
  import DenyRules
  import DnsCache
  import Framing
  import Kernel
  import Loading
  import MessageCodec
  import OptimisticDeny
  import Rules
  import RuleStore
  import Server
  import StatsModel
  import TuiClient

  // --- Statistics ---------------------------------------------------------------------------

  /** A reply to a request for statistics carries the snapshot of the last tick, in
      64 bits: its totals are the events drained before that tick and the denials
      among them, its buckets count them by the ticks passed since, and each row its
      label's share. */
  lemma {:induction false} StatsRepliesAreOfTheLastTick(w: Daemon.World, steps: seq<Daemon.Step>, watch: Stats,
                                                        dir: Loading.Dir, env: RuleStore.Env)
    requires Daemon.Initial(w) && StatsModel.IsSnapshot(Daemon.Run(w, steps).daemon.published, watch)
    ensures var before := steps[..Daemon.LastTick(steps)];
      var judged := Daemon.Judged(w, before); var history := Daemon.StatOps(w, before);
      var r := Server.Respond(dir, GetStats, env, watch).reply;
      && r == Some(StatsReply(watch))
      && watch.totalEvents == StatsModel.Wrapped(|judged|)
      && watch.totalDenied == StatsModel.Wrapped(|Filter(judged, Daemon.IsDenied())|)
      && |watch.activity| == StatsModel.ACTIVITY_BUCKETS
      && (forall i: nat :: i < StatsModel.ACTIVITY_BUCKETS ==>
            watch.activity[StatsModel.ACTIVITY_BUCKETS - 1 - i]
            == StatsModel.Wrapped(StatsModel.RecordedTicksAgo(history, i)))
      && (forall e | e in watch.topProcesses ::
            e.count == StatsModel.Wrapped(StatsModel.CountOps(history, StatsModel.FromProcess(e.name))))
      && (forall e | e in watch.topHosts ::
            e.count == StatsModel.Wrapped(StatsModel.CountOps(history, StatsModel.ToHost(e.name))))
  {
    hide Daemon.Run, Daemon.Judged, Daemon.StatOps, StatsModel.After, StatsModel.CountOps, StatsModel.RecordedTicksAgo,
      StatsModel.IsTop;
    var before := steps[..Daemon.LastTick(steps)];
    var history := Daemon.StatOps(w, before);
    Daemon.PublishedTotals(w, steps);
    Daemon.PublishedAtLastTick(w, steps);
    Daemon.BroadcastAndStats(w, before);
    assert Daemon.Run(w, steps).daemon.published == StatsModel.After(history);
    StatsModel.SnapshotRows(history, watch);
    StatsModel.SnapshotBuckets(history, watch);
  }

  // --- Sessions as bytes ------------------------------------------------------------------------

  /** The bytes that a connection writes, greeting and session, read back as exactly
      its messages and nothing else. */
  lemma {:induction false} SessionReadsBack(version: string, o: Server.Opening, dir: Loading.Dir,
                                            log: seq<ServerMessage>, ts: seq<Server.Turn>, filter: Option<EventFilter>)
    ensures var session := Server.AfterTurns(Server.Subscribed(dir, log), ts, filter);
      var messages := Server.Greeting(version, o) + Map(session.out, Server.Content);
      && (forall m | m in messages :: |MessageCodec.EncServer(m, [])| <= Codec.MAX_FRAME)
      && Framing.ReadAll(Framing.Frames(messages, MessageCodec.EncServer), |messages|, MessageCodec.DecServer)
         == (Map(messages, Framing.AsMessage), [])
  {
    hide Server.AfterTurns, MessageCodec.EncServer, Framing.ReadAll, Framing.Frames, Server.FirstReply;
    var session := Server.AfterTurns(Server.Subscribed(dir, log), ts, filter);
    var messages := Server.Greeting(version, o) + Map(session.out, Server.Content);
    Server.OutputFits(Server.Subscribed(dir, log), ts, filter);
    forall m | m in messages ensures |MessageCodec.EncServer(m, [])| <= Codec.MAX_FRAME {
      if m !in Server.Greeting(version, o) {
        assert m in Map(session.out, Server.Content);
      }
    }
    var bytes := Framing.Frames(messages, MessageCodec.EncServer);
    assert bytes + [] == bytes;
    Framing.ServerConversation(messages, []);
  }

  // --- The client of a protocol run, as a run of the client ------------------------------------

  function WakeOf(p: System, s: Step, lower: Lower): seq<TuiClient.Wake> {
    if !Enabled(p, s) then []
    else match s
      case Deliver => [TuiClient.Received(p.server.out[p.delivered].msg, p.server.open)]
      case Press(input) =>
        if OpensEditor(p.client.app, input, lower) then []
        else [TuiClient.Pressed(input, TuiClient.Edited, p.server.open)]
      case EditorDone(outcome) => [TuiClient.Pressed(p.editing.value, outcome, p.server.open)]
      case Tick => [TuiClient.Ticked(p.server.open)]
      case LinkDown => [TuiClient.LinkLost]
      case _ => []
  }

  function WakesOf(p: System, steps: seq<Step>, lower: Lower): seq<TuiClient.Wake> {
    if steps == [] then []
    else
      var before := steps[..|steps| - 1];
      WakesOf(p, before, lower) + WakeOf(Run(p, before, lower), steps[|steps| - 1], lower)
  }

  lemma WakeIsStep(p: System, s: Step, lower: Lower)
    ensures var ws := WakeOf(p, s, lower);
      && |ws| <= 1
      && Next(p, s, lower).client == if ws == [] then p.client else TuiClient.Wakes(p.client, ws[0], lower)
  {
    hide TuiClient.Wakes, Server.Serve, Server.Relays, OpensEditor;
  }

  lemma {:induction false} ClientOfRun(p: System, steps: seq<Step>, lower: Lower)
    ensures Run(p, steps, lower).client == TuiClient.AfterWakes(p.client, WakesOf(p, steps, lower), lower)
  {
    hide Next, WakeOf, TuiClient.Wakes;
    if steps != [] {
      var before := steps[..|steps| - 1];
      var ws := WakesOf(p, before, lower);
      ClientOfRun(p, before, lower);
      WakeIsStep(Run(p, before, lower), steps[|steps| - 1], lower);
      var more := WakeOf(Run(p, before, lower), steps[|steps| - 1], lower);
      if more == [] {
        assert ws + more == ws;
      } else {
        assert (ws + more)[..|ws|] == ws && more == [more[0]];
      }
    }
  }

  // --- What the client has received -----------------------------------------------------------------

  function EventIn(o: Server.Output): Option<EnrichedEvent> {
    if o.msg.Event? then Some(o.msg.event) else None
  }

  function ReceivedEvents(p: System): seq<EnrichedEvent>
    requires p.delivered <= |p.server.out|
  {
    Collect(p.server.out[..p.delivered], EventIn)
  }

  lemma ReceivedStep(p: System, s: Step, lower: Lower)
    requires p.delivered <= |p.server.out|
    ensures Next(p, s, lower).delivered <= |Next(p, s, lower).server.out|
    ensures ReceivedEvents(Next(p, s, lower)) == ReceivedEvents(p)
            + if Enabled(p, s) && s.Deliver? && p.server.out[p.delivered].msg.Event?
              then [p.server.out[p.delivered].msg.event] else []
  {
    hide TuiClient.Wakes, Server.Respond, OpensEditor, Server.MatchesFilter, Server.Goes;
    var q := Next(p, s, lower);
    if Enabled(p, s) && s.Deliver? {
      var o := p.server.out[p.delivered];
      assert p.server.out[..p.delivered + 1] == p.server.out[..p.delivered] + [o];
      CollectAppend(p.server.out[..p.delivered], [o], EventIn);
    } else {
      assert q.server.out[..q.delivered] == p.server.out[..p.delivered];
    }
  }

  lemma {:induction false} OpsOneMore(s: TuiClient.Session, ws: seq<TuiClient.Wake>, w: TuiClient.Wake, lower: Lower)
    ensures var mid := TuiClient.AfterWakes(s, ws, lower);
      var op := if mid.open then OpOf(mid.app, w, lower) else None;
      Log(OpsOf(s, ws + [w], lower)) == Log(OpsOf(s, ws, lower))
        + if op.Some? && op.value.Push? then [op.value.event] else []
  {
    hide OpOf, TuiClient.AfterWakes;
    assert (ws + [w])[..|ws|] == ws;
    var mid := TuiClient.AfterWakes(s, ws, lower);
    var ops := OpsOf(s, ws, lower);
    match if mid.open then OpOf(mid.app, w, lower) else None
    case None => assert OpsOf(s, ws + [w], lower) == ops;
    case Some(op) =>
      assert OpsOf(s, ws + [w], lower) == ops + [op];
      assert (ops + [op])[..|ops|] == ops;
  }

  lemma StepReceives(p: System, s: Step, lower: Lower)
    requires p.delivered <= |p.server.out|
    ensures Next(p, s, lower).delivered <= |Next(p, s, lower).server.out|
    ensures var ws := WakeOf(p, s, lower); var received := ReceivedEvents(Next(p, s, lower));
      if ws == [] then received == ReceivedEvents(p)
      else
        var op := if p.client.open then OpOf(p.client.app, ws[0], lower) else None;
        received == ReceivedEvents(p) + if op.Some? && op.value.Push? then [op.value.event] else []
  {
    hide Next, ReceivedEvents, OpensEditor, HandleInput;
    ReceivedStep(p, s, lower);
  }

  /** The log behind the rows is what the client received. */
  lemma {:induction false} LogIsReceived(p: System, steps: seq<Step>, lower: Lower)
    requires p.delivered == 0
    ensures Run(p, steps, lower).delivered <= |Run(p, steps, lower).server.out|
    ensures Log(OpsOf(p.client, WakesOf(p, steps, lower), lower)) == ReceivedEvents(Run(p, steps, lower))
  {
    hide Next, OpsOf, OpOf, WakeOf, ReceivedEvents, Log, TuiClient.AfterWakes;
    if steps == [] {
      NothingReceived(p, lower);
    } else {
      var before := steps[..|steps| - 1];
      var s := steps[|steps| - 1];
      var mid := Run(p, before, lower);
      var ws := WakesOf(p, before, lower);
      LogIsReceived(p, before, lower);
      StepReceives(mid, s, lower);
      ClientOfRun(p, before, lower);
      var more := WakeOf(mid, s, lower);
      if more == [] {
        assert ws + more == ws;
      } else {
        WakeIsStep(mid, s, lower);
        assert more == [more[0]];
        OpsOneMore(p.client, ws, more[0], lower);
      }
    }
  }

  lemma NothingReceived(p: System, lower: Lower)
    requires p.delivered == 0
    ensures ReceivedEvents(p) == [] && Log(OpsOf(p.client, [], lower)) == []
  {
  }

  // --- What the session has relayed -----------------------------------------------------------------

  /** Messages overwritten in the ring before the session of a run reached them. */
  function LostIn(p: System, steps: seq<Step>, lower: Lower): set<nat> {
    if steps == [] then {}
    else
      var before := steps[..|steps| - 1];
      var mid := Run(p, before, lower);
      LostIn(p, before, lower)
      + if Enabled(mid, steps[|steps| - 1]) && steps[|steps| - 1].Forward?
        then Server.Between(mid.server.cursor, Server.Oldest(mid.server.log)) else {}
  }

  ghost predicate Relaying(start: nat, p: System, lost: set<nat>) {
    && Sound(p) && Server.Tagged(p.server.out)
    && Server.RelaysAllFrom(start, p.server, None, lost)
  }

  lemma RelayingStep(start: nat, p: System, s: Step, lost: set<nat>, lower: Lower)
    requires Relaying(start, p, lost) && Sound(Next(p, s, lower)) && Enabled(p, s)
    ensures Relaying(start, Next(p, s, lower), lost
              + if s.Forward? then Server.Between(p.server.cursor, Server.Oldest(p.server.log)) else {})
  {
    hide TuiClient.Wakes, Server.Respond, OpensEditor, Server.MatchesFilter, Server.RelaysAllFrom, Server.Between,
      Server.Oldest, Server.Goes;
    assert lost + {} == lost;
    match s
    case Serve(env, stats) =>
      var m := p.client.sent[p.taken];
      Server.ServingKeeps(start, p.server, m, env, stats, p.client.open, None, lost);
      Server.RepliesAreNotEvents(p.server.dir, m, env, stats);
    case Forward =>
      Server.RelayingKeeps(start, p.server, None, p.client.open, lost);
    case EditorWrites(dir) =>
      var t := Server.Turn([], Some(dir), Server.Quiet, true);
      Server.WaitingKeeps(start, p.server, t, None, lost);
      assert p.server.log + [] == p.server.log;
    case Publish(events) =>
      Server.WaitingKeeps(start, p.server, Server.Turn(Map(events, AsEvent), None, Server.Quiet, true), None, lost);
    case LinkDown => ClosingKeeps(start, p.server, lost);
    case _ =>
  }

  lemma ClosingKeeps(start: nat, s: Server.Session, lost: set<nat>)
    requires Server.RelaysAllFrom(start, s, None, lost)
    ensures Server.RelaysAllFrom(start, s.(open := false), None, lost)
  {
  }

  lemma {:induction false} RunRelays(p: System, steps: seq<Step>, lower: Lower)
    requires Initial(p)
    ensures Relaying(p.server.cursor, Run(p, steps, lower), LostIn(p, steps, lower))
  {
    hide Next, Enabled, Relaying, CatchingUp, EditorIsOurs;
    InitialInvariant(p, lower);
    if steps == [] {
      StartsRelaying(p);
    } else {
      var before := steps[..|steps| - 1];
      RunRelays(p, before, lower);
      RunKeeps(p, steps, lower);
      assert Sound(Run(p, steps, lower));
      var mid := Run(p, before, lower);
      if Enabled(mid, steps[|steps| - 1]) {
        RelayingStep(p.server.cursor, mid, steps[|steps| - 1], LostIn(p, before, lower), lower);
      } else {
        assert LostIn(p, steps, lower) == LostIn(p, before, lower);
        DisabledStays(mid, steps[|steps| - 1], lower);
      }
    }
  }

  lemma StartsRelaying(p: System)
    requires Initial(p)
    ensures Relaying(p.server.cursor, p, {})
  {
    Server.StartsRight(p.server, None);
  }

  lemma DisabledStays(p: System, s: Step, lower: Lower)
    requires !Enabled(p, s)
    ensures Next(p, s, lower) == p
  {
  }

  // --- Rows and judgements ----------------------------------------------------------------------------

  /** The places in the broadcast of the events the client has received. */
  function Seen(p: System): seq<nat>
    requires p.delivered <= |p.server.out|
  {
    Collect(p.server.out[..p.delivered], Server.IndexOf)
  }

  /** The events are the enriched judgements at these places. */
  ghost predicate AtPlaces(events: seq<EnrichedEvent>, places: seq<nat>, js: seq<Daemon.Judgement>) {
    && |events| == |places|
    && (forall n :: 0 <= n < |places| ==> 0 <= places[n] < |js|)
    && (forall n :: 0 <= n < |places| ==> events[n] == Daemon.Enrich(js[places[n]]))
  }

  lemma OneMoreAtPlace(events: seq<EnrichedEvent>, places: seq<nat>, js: seq<Daemon.Judgement>, e: EnrichedEvent,
    place: nat)
    requires AtPlaces(events, places, js) && place < |js| && e == Daemon.Enrich(js[place])
    ensures AtPlaces([e] + events, [place] + places, js)
  {
    hide Daemon.Enrich;
  }

  lemma {:induction false} EventsAtTheirPlaces(out: seq<Server.Output>, js: seq<Daemon.Judgement>)
    requires forall i :: 0 <= i < |out| ==> (out[i].Relay? <==> out[i].msg.Event?)
    requires forall i :: 0 <= i < |out| && out[i].Relay? ==>
      out[i].index < |js| && out[i].msg == Event(Daemon.Enrich(js[out[i].index]))
    ensures AtPlaces(Collect(out, EventIn), Collect(out, Server.IndexOf), js)
  {
    hide Daemon.Enrich, AtPlaces;
    if out == [] {
      NothingAtPlaces(js);
    } else {
      assert forall i :: 0 <= i < |out[1..]| ==> out[1..][i] == out[i + 1];
      EventsAtTheirPlaces(out[1..], js);
      if out[0].Relay? {
        OneMoreAtPlace(Collect(out[1..], EventIn), Collect(out[1..], Server.IndexOf), js, out[0].msg.event,
          out[0].index);
      }
    }
  }

  lemma NothingAtPlaces(js: seq<Daemon.Judgement>)
    ensures AtPlaces([], [], js)
  {
  }

  lemma {:induction false} SeenIsPrefix(p: System)
    requires p.delivered <= |p.server.out|
    ensures Seen(p) <= Collect(p.server.out, Server.IndexOf)
    ensures p.delivered == |p.server.out| ==> Seen(p) == Collect(p.server.out, Server.IndexOf)
  {
    var d := p.delivered;
    assert p.server.out == p.server.out[..d] + p.server.out[d..];
    CollectAppend(p.server.out[..d], p.server.out[d..], Server.IndexOf);
  }

  /** What holds of the places of a relaying session holds of those the client has seen. */
  lemma SeenPlaces(p: System, start: nat, lost: set<nat>)
    requires Relaying(start, p, lost)
    ensures Server.Ascending(Seen(p))
    ensures forall n :: 0 <= n < |Seen(p)| ==> start <= Seen(p)[n] < |p.server.log|
    ensures p.server.open && p.delivered == |p.server.out| && p.server.cursor == |p.server.log| ==>
      forall i :: i in Seen(p) <==> start <= i < |p.server.log| && i !in lost
  {
    hide Seen;
    SeenIsPrefix(p);
    var all := Collect(p.server.out, Server.IndexOf);
    forall n | 0 <= n < |Seen(p)| ensures start <= Seen(p)[n] < |p.server.log| {
      assert all[n] in all;
    }
  }

  /** End to end: the daemon drains and judges events over any run; a client
      subscribes, and over any run of client and session receives part of the
      broadcast. Then its rows summarise, as `Balanced` says, exactly the enriched
      judgements at the places it has seen: ascending, from the subscription on,
      and, once nothing is under way, all of them but those overwritten in the ring
      before the session reached them. */
  lemma {:induction false} RowsSummariseJudgements(w: Daemon.World, drained: seq<Daemon.Step>, p: System,
                                                   steps: seq<Step>, lower: Lower)
    requires Daemon.Initial(w) && Initial(p)
    requires Run(p, steps, lower).server.log == Map(Daemon.Run(w, drained).daemon.sent, AsEvent)
    ensures var q := Run(p, steps, lower); var judged := Daemon.Judged(w, drained);
      var ops := OpsOf(p.client, WakesOf(p, steps, lower), lower); var start := p.server.cursor;
      && q.delivered <= |q.server.out| && |q.server.log| == |judged|
      && q.client.app.rows == Rows(ops) && Balanced(Rows(ops), BookAfter(ops), Log(ops))
      && AtPlaces(Log(ops), Seen(q), judged)
      && Server.Ascending(Seen(q)) && (forall n :: 0 <= n < |Seen(q)| ==> start <= Seen(q)[n])
      && (q.server.open && Idle(q) && q.server.cursor == |q.server.log| ==>
            forall i :: i in Seen(q) <==> start <= i < |judged| && i !in LostIn(p, steps, lower))
  {
    hide Run, Daemon.Run, Daemon.Judged, Daemon.Enrich, OpsOf, WakesOf, Rows, BookAfter, Balanced, Log, LostIn,
      Relaying, AtPlaces;
    var q := Run(p, steps, lower);
    var judged := Daemon.Judged(w, drained);
    RunRelays(p, steps, lower);
    RelayedAreJudged(w, drained, p.server.cursor, q, LostIn(p, steps, lower));
    SeenPlaces(q, p.server.cursor, LostIn(p, steps, lower));
    LogIsReceived(p, steps, lower);
    ClientOfRun(p, steps, lower);
    ClientRowsRefineLog(p.client, WakesOf(p, steps, lower), lower);
  }

  lemma {:induction false} RelayedAreJudged(w: Daemon.World, drained: seq<Daemon.Step>, start: nat, q: System,
    lost: set<nat>)
    requires Daemon.Initial(w) && Relaying(start, q, lost)
    requires q.server.log == Map(Daemon.Run(w, drained).daemon.sent, AsEvent)
    ensures |q.server.log| == |Daemon.Judged(w, drained)|
    ensures AtPlaces(ReceivedEvents(q), Seen(q), Daemon.Judged(w, drained))
  {
    hide Daemon.Run, Daemon.Judged, Daemon.Enrich, AtPlaces, Server.Ascending, Server.MatchesFilter;
    var judged := Daemon.Judged(w, drained);
    Daemon.BroadcastAndStats(w, drained);
    var out := q.server.out[..q.delivered];
    forall i | 0 <= i < |out| && out[i].Relay?
      ensures out[i].index < |judged| && out[i].msg == Event(Daemon.Enrich(judged[out[i].index]))
    {
      assert out[i] == q.server.out[i];
    }
    EventsAtTheirPlaces(out, judged);
  }

  // --- Enforcement --------------------------------------------------------------------------------------

  lemma {:induction false} RulesOfLastReload(w: Daemon.World, steps: seq<Daemon.Step>, i: nat, m: nat, dir: Loading.Dir)
    requires i < m <= |steps| && steps[i] == Daemon.Reload(dir)
    requires forall k :: i < k < m ==> !steps[k].Reload?
    ensures Daemon.At(w, steps, m).daemon.rules == Loading.LoadDir(Loading.FilesOf(dir))
    decreases m
  {
    hide Daemon.Run, Loading.LoadDir, Daemon.DrainStep, Kernel.HookStep, DnsCache.IngestOne;
    Daemon.OneMore(w, steps, m - 1);
    if i < m - 1 {
      RulesOfLastReload(w, steps, i, m - 1, dir);
      RulesStay(Daemon.At(w, steps, m - 1), steps[m - 1]);
    }
  }

  lemma RulesStay(w: Daemon.World, s: Daemon.Step)
    requires !s.Reload?
    ensures Daemon.Next(w, s).daemon.rules == w.daemon.rules
  {
    hide Daemon.Judge, Daemon.Enrich, Kernel.HookStep, Daemon.CacheDeny, DnsCache.IngestOne, StatsModel.RecordSpec,
      StatsModel.TickSpec;
  }

  /** From the prompt to the kernel: the user denies a row, the daemon accepts the
      request and, at step i, reloads the directory; nothing overrules the new rule
      for the row. If at step m, before any other reload, an event with the facts of
      the row is drained and the kernel takes the entry, then until eviction every
      call of that flow that is not skipped is refused. */
  lemma {:induction false} DenyRequestIsEnforced(
    w: Daemon.World, steps: seq<Daemon.Step>, i: nat, m: nat, n: nat,
    dir: Loading.Dir, env: RuleStore.Env, stats: Stats, row: EnrichedEvent, target: EnrichedEvent, kind: DenyRuleKind)
    requires Daemon.Initial(w) && i < m < n <= |steps|
    requires dir != Loading.Unlistable && Marks(row, target, kind)
    requires kind == Ip ==> OptimisticDeny.EngineIp(row).Some?
    requires DenyRules.AllPlain(OptimisticDeny.RequestedClauses(target, kind))
    requires var r := Server.Respond(dir, RuleMessage(target, kind), env, stats);
             r.reply == Some(Done) && steps[i] == Daemon.Reload(r.dir)
    requires forall k :: i < k < m ==> !steps[k].Reload?
    requires var name := RuleStore.GeneratedFile(
               target.exePath, target.hostname, Some(IpString(target)), kind, env.millis).name;
             var (before, behind) := RuleStore.Neighbours(Loading.FilesOf(dir), name, env.slot);
             !exists k: nat :: OptimisticDeny.Overrules(
               Loading.AllRules(before), Loading.AllRules(behind), k, OptimisticDeny.RowFacts(row))
    requires Daemon.Drains(Daemon.At(w, steps, m), steps[m]) && steps[m].env.insertOk
    requires Daemon.JudgedBy(Daemon.At(w, steps, m), steps[m]).facts == OptimisticDeny.RowFacts(row)
    ensures var key := Kernel.CommonFlowKey(Daemon.JudgedBy(Daemon.At(w, steps, m), steps[m]).event);
      && Daemon.DeniesAt(w, steps, m, key)
      && (Daemon.NotEvicted(steps, m, n, key) ==>
            forall k :: m < k < n && steps[k].HookCall? && Kernel.HookKey(steps[k].call) == key ==>
              Daemon.OutcomeAt(w, steps, k) == if Kernel.Skipped(steps[k].call) then Kernel.Ignored else Kernel.Blocked)
  {
    hide Daemon.Run, RuleStore.DenyResult, RuleStore.GeneratedFile, RuleStore.Neighbours, OptimisticDeny.Overrules,
      Loading.LoadDir, Loading.AllRules, Marks, IpString, OptimisticDeny.EngineIp, Rules.FirstMatch, DenyRules.AllPlain,
      Daemon.NotEvicted, Kernel.HookStep, Kernel.Skipped;
    var after := RuleStore.DenyResult(dir, target.exePath, target.hostname, Some(IpString(target)), kind, env).0;
    assert after == Server.Respond(dir, RuleMessage(target, kind), env, stats).dir;
    OptimisticDeny.MarkedRowsAreDenied(dir, env, row, target, kind);
    RulesOfLastReload(w, steps, i, m, after);
    var j := Daemon.JudgedBy(Daemon.At(w, steps, m), steps[m]);
    assert j.verdict == Rules.FirstMatch(Loading.LoadDir(Loading.FilesOf(after)), OptimisticDeny.RowFacts(row));
    var key := Kernel.CommonFlowKey(j.event);
    assert Daemon.DeniesAt(w, steps, m, key);
    if Daemon.NotEvicted(steps, m, n, key) {
      Daemon.DeniedFlowIsSilent(w, steps, m, n, key);
    }
  }
}
