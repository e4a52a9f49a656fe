/** Client and server together over two first-in first-out channels: the rules view
    catches up with the directory, and the exchange comes to rest. */
module Protocol {
  import opened Base
  import opened Proto
  import opened TuiApp
  import opened RuleStore
  import Codec
  import DenyRules
  import Loading
  import Toggling
  import MessageCodec
  import Server
  import TuiClient

  /** Both machines. The client's channel holds what it has sent and the server has
      not taken; the other one what the server has written and the client has not
      received. While an editor runs the client is suspended. */
  datatype System = System(
    client: TuiClient.Session, server: Server.Session,
    taken: nat, delivered: nat, editing: Option<Input>)

  ghost predicate Sound(p: System) {
    && p.taken <= |p.client.sent| && p.delivered <= |p.server.out|
    && Server.OnlyEvents(p.server.log) && p.server.cursor <= |p.server.log|
  }

  /** Just after the handshake. */
  ghost predicate Initial(p: System) {
    && p.client == TuiClient.Session(START, 0, [], true)
    && (exists dir, log :: p.server == Server.Subscribed(dir, log) && Server.OnlyEvents(log))
    && p.taken == 0 && p.delivered == 0 && p.editing == None
  }

  function Requests(p: System): seq<ClientMessage>
    requires p.taken <= |p.client.sent|
  {
    p.client.sent[p.taken..]
  }

  function InFlight(p: System): seq<ServerMessage>
    requires p.delivered <= |p.server.out|
  {
    Map(p.server.out[p.delivered..], Server.Content)
  }

  predicate LinkUp(p: System) {
    p.client.open && p.server.open
  }

  // --- Steps --------------------------------------------------------------------------------

  datatype Step =
    | Deliver
    | Serve(env: Env, stats: Stats)
    | Forward
    | Press(input: Input)
    | EditorWrites(dir: Loading.Dir)
    | EditorDone(outcome: TuiClient.EditOutcome)
    | Tick
    | Publish(events: seq<EnrichedEvent>)
    | LinkDown

  /** A machine whose peer is gone goes on until it notices: what was written before
      can still be read, but nothing more can be written. */
  predicate Enabled(p: System, s: Step) {
    match s
    case Deliver => p.client.open && p.editing == None && p.delivered < |p.server.out|
    case Serve(_, _) => p.server.open && p.taken < |p.client.sent|
    case Forward => p.server.open && p.server.cursor < |p.server.log|
    case Press(_) => p.client.open && p.editing == None
    case Tick => p.client.open && p.editing == None
    case EditorWrites(_) => p.editing.Some?
    case EditorDone(_) => p.client.open && p.editing.Some?
    case Publish(_) => true
    case LinkDown => true
  }

  predicate OpensEditor(app: AppState, input: Input, lower: Lower) {
    HandleInput(app, input, lower).1.EditRule?
  }

  function AsEvent(e: EnrichedEvent): ServerMessage {
    Event(e)
  }

  function Next(p: System, s: Step, lower: Lower): System {
    if !Enabled(p, s) then p
    else match s
      case Deliver =>
        p.(client := TuiClient.Wakes(p.client, TuiClient.Received(p.server.out[p.delivered].msg, p.server.open), lower),
           delivered := p.delivered + 1)
      case Serve(env, stats) =>
        p.(server := Server.Serve(p.server, p.client.sent[p.taken], env, stats, p.client.open), taken := p.taken + 1)
      case Forward => p.(server := Server.Relays(p.server, None, p.client.open))
      case Press(input) =>
        if OpensEditor(p.client.app, input, lower) then p.(editing := Some(input))
        else p.(client := TuiClient.Wakes(p.client, TuiClient.Pressed(input, TuiClient.Edited, p.server.open), lower))
      case EditorWrites(dir) => p.(server := p.server.(dir := dir))
      case EditorDone(outcome) =>
        p.(client := TuiClient.Wakes(p.client, TuiClient.Pressed(p.editing.value, outcome, p.server.open), lower),
          editing := None)
      case Tick => p.(client := TuiClient.Wakes(p.client, TuiClient.Ticked(p.server.open), lower))
      case Publish(events) => p.(server := p.server.(log := p.server.log + Map(events, AsEvent)))
      case LinkDown =>
        p.(client := TuiClient.Wakes(p.client, TuiClient.LinkLost, lower), server := p.server.(open := false))
  }

  function Run(p: System, steps: seq<Step>, lower: Lower): System {
    if steps == [] then p else Next(Run(p, steps[..|steps| - 1], lower), steps[|steps| - 1], lower)
  }

  /** What the world does to the two machines: the daemon's events go behind those
      broadcast before, an editor leaves the directory as it pleases and can do so only
      while one is open, and a lost link stops both ends. */
  lemma WorldSteps(p: System, events: seq<EnrichedEvent>, dir: Loading.Dir, lower: Lower)
    ensures var log := Next(p, Publish(events), lower).server.log;
      && Next(p, Publish(events), lower) == p.(server := p.server.(log := log))
      && |log| == |p.server.log| + |events| && log[..|p.server.log|] == p.server.log
      && forall i :: 0 <= i < |events| ==> log[|p.server.log| + i] == Event(events[i])
    ensures Next(p, EditorWrites(dir), lower)
            == if p.editing.Some? then p.(server := p.server.(dir := dir)) else p
    ensures var q := Next(p, LinkDown, lower);
      && !q.server.open && !q.client.open && q.client.sent == p.client.sent
      && q.server == p.server.(open := false) && (p.client.open ==> !q.client.app.connected)
  {
  }

  // --- Freshness ---------------------------------------------------------------------------------

  /** The rules the client will show once it has received all these messages. */
  function Latest(shown: seq<RuleInfo>, ms: seq<ServerMessage>): seq<RuleInfo>
    decreases |ms|
  {
    if ms == [] then shown
    else Latest(if ms[0].Rules? then ms[0].rules else shown, ms[1..])
  }

  lemma {:induction false} LatestAppend(shown: seq<RuleInfo>, ms: seq<ServerMessage>, m: ServerMessage)
    ensures Latest(shown, ms + [m]) == if m.Rules? then m.rules else Latest(shown, ms)
    decreases |ms|
  {
    if ms == [] {
      assert ms + [m] == [m];
    } else {
      assert (ms + [m])[1..] == ms[1..] + [m];
      LatestAppend(if ms[0].Rules? then ms[0].rules else shown, ms[1..], m);
    }
  }

  /** In the rules view, with nobody editing: either a request for the rules or an
      acknowledgement that will cause one is under way, or the last list under
      way, or else the one shown, is that of the directory. */
  ghost predicate CatchingUp(p: System)
    requires Sound(p)
  {
    LinkUp(p) && p.editing == None && p.client.app.view == RulesView ==>
      || ListRules in Requests(p)
      || Done in InFlight(p)
      || Latest(p.client.app.rules, InFlight(p)) == RuleInfos(p.server.dir)
  }

  /** A refused request leaves the listed rules as they were. */
  lemma RefusedDeny(dir: Loading.Dir, exe: Option<string>, host: Option<string>, ip: Option<string>,
    kind: DenyRuleKind, env: Env)
    ensures var (d, r) := DenyResult(dir, exe, host, ip, kind, env); r.Err? ==> RuleInfos(d) == RuleInfos(dir)
  {
    hide GeneratedFile, Put, Loading.ListAll, DenyRules.Complaint;
  }

  lemma RefusedToggle(dir: Loading.Dir, id: string, b: bool, env: Env)
    ensures ToggleResult(dir, id, b, env).1.Err? ==> ToggleResult(dir, id, b, env).0 == dir
  {
    hide Toggling.SetFlag;
  }

  /** A reply that is not an acknowledgement leaves the listed rules as they were;
      a list of rules is that of the directory. */
  lemma RepliesTellTheTruth(dir: Loading.Dir, m: ClientMessage, env: Env, stats: Stats)
    ensures var r := Server.Respond(dir, m, env, stats);
      && (r.reply == Some(Done) || RuleInfos(r.dir) == RuleInfos(dir))
      && (r.reply.Some? && r.reply.value.Rules? ==> r.reply.value.rules == RuleInfos(r.dir))
      && (m == ListRules ==> r.reply == Some(Rules(RuleInfos(r.dir))))
  {
    hide DenyResult, ToggleResult, RuleInfos;
    match m
    case CreateDenyRule(exe, host, ip, _, kind) =>
      RefusedDeny(dir, exe, host, ip, kind, env);
      var result := DenyResult(dir, exe, host, ip, kind, env);
      assert result.1.Ok? || RuleInfos(result.0) == RuleInfos(dir);
    case SetRuleEnabled(id, b) =>
      RefusedToggle(dir, id, b, env);
      var result := ToggleResult(dir, id, b, env);
      assert result.1.Ok? || result.0 == dir;
    case _ =>
  }

  lemma MessagesAndRules(app: AppState, m: ServerMessage)
    ensures var (after, request) := OnMessage(app, m);
      && after.view == app.view
      && after.rules == (if m.Rules? then m.rules else app.rules)
      && request == if m == Done && app.view == RulesView then Some(ListRules) else None
  {
    hide PushRow;
  }

  // --- The channels as each step changes them --------------------------------------------------------

  lemma Wrote(p: System, q: System, o: Server.Output)
    requires Sound(p) && q.delivered == p.delivered && q.server.out == p.server.out + [o]
    ensures InFlight(q) == InFlight(p) + [o.msg]
  {
    assert q.server.out[q.delivered..] == p.server.out[p.delivered..] + [o];
    MapAppend(p.server.out[p.delivered..], [o], Server.Content);
  }

  lemma TakesHead(p: System)
    requires Sound(p) && p.delivered < |p.server.out|
    ensures InFlight(p) == [p.server.out[p.delivered].msg] + InFlight(p.(delivered := p.delivered + 1))
  {
    assert p.server.out[p.delivered..][1..] == p.server.out[p.delivered + 1..];
  }

  lemma DeliverKeeps(p: System, lower: Lower)
    requires Sound(p) && CatchingUp(p) && LinkUp(p) && Enabled(p, Deliver)
    ensures Sound(Next(p, Deliver, lower)) && CatchingUp(Next(p, Deliver, lower))
  {
    hide Server.Serve, Server.Relays, RuleInfos, OnMessage, Server.OnlyEvents, MessageCodec.ClientFits;
    var q := Next(p, Deliver, lower);
    var m := p.server.out[p.delivered].msg;
    TakesHead(p);
    MessagesAndRules(p.client.app, m);
    assert InFlight(q) == InFlight(p.(delivered := p.delivered + 1));
    assert InFlight(p)[1..] == InFlight(q);
    if m == Done && q.client.app.view == RulesView {
      MessageCodec.SmallMessages();
      assert q.client.sent[|p.client.sent|] == ListRules;
      assert Requests(q)[|Requests(p)|] == ListRules;
    } else {
      assert Requests(p) <= Requests(q);
      assert forall x :: x in Requests(p) ==> x in Requests(q);
    }
  }

  lemma ServeKeeps(p: System, env: Env, stats: Stats, lower: Lower)
    requires Sound(p) && CatchingUp(p) && LinkUp(p) && Enabled(p, Serve(env, stats))
    ensures Sound(Next(p, Serve(env, stats), lower)) && CatchingUp(Next(p, Serve(env, stats), lower))
  {
    hide TuiClient.Wakes, Server.Relays, RuleInfos, Server.Respond, Server.OnlyEvents, Server.Goes;
    var q := Next(p, Serve(env, stats), lower);
    var m := p.client.sent[p.taken];
    RepliesTellTheTruth(p.server.dir, m, env, stats);
    assert Requests(p) == [m] + Requests(q);
    var r := Server.Respond(p.server.dir, m, env, stats);
    if r.reply.Some? && q.server.open {
      Wrote(p, q, Server.Answer(r.reply.value));
      LatestAppend(p.client.app.rules, InFlight(p), r.reply.value);
    }
  }

  lemma ForwardKeeps(p: System, lower: Lower)
    requires Sound(p) && CatchingUp(p) && LinkUp(p) && Enabled(p, Forward)
    ensures Sound(Next(p, Forward, lower)) && CatchingUp(Next(p, Forward, lower))
  {
    hide TuiClient.Wakes, Server.Serve, RuleInfos, Server.Goes;
    var q := Next(p, Forward, lower);
    if q.server.out != p.server.out {
      var m := p.server.log[p.server.cursor];
      Wrote(p, q, Server.Relay(p.server.cursor, m));
      LatestAppend(p.client.app.rules, InFlight(p), m);
    }
  }

  lemma PressKeeps(p: System, input: Input, outcome: TuiClient.EditOutcome, lower: Lower)
    requires Sound(p) && CatchingUp(p) && p.editing == None && LinkUp(p) && !OpensEditor(p.client.app, input, lower)
    ensures var q := p.(client := TuiClient.Wakes(p.client, TuiClient.Pressed(input, outcome, true), lower));
      Sound(q) && CatchingUp(q)
  {
    hide RuleInfos, HandleInput, Latest, Server.OnlyEvents, TuiClient.Goes;
    var q := p.(client := TuiClient.Wakes(p.client, TuiClient.Pressed(input, outcome, true), lower));
    EnteringRulesAsks(p.client.app, input, lower);
    assert InFlight(q) == InFlight(p);
    if q.client.sent != p.client.sent {
      var m := q.client.sent[|p.client.sent|];
      assert Requests(q) == Requests(p) + [m];
    }
  }

  lemma EditorDoneKeeps(p: System, input: Input, outcome: TuiClient.EditOutcome, lower: Lower)
    requires Sound(p) && LinkUp(p) && p.editing == Some(input) && OpensEditor(p.client.app, input, lower)
    ensures Sound(Next(p, EditorDone(outcome), lower)) && CatchingUp(Next(p, EditorDone(outcome), lower))
  {
    hide Server.Serve, Server.Relays, RuleInfos, HandleInput, Latest, Server.OnlyEvents, TuiClient.Goes;
    var q := Next(p, EditorDone(outcome), lower);
    if q.client.open {
      assert Requests(q) == Requests(p) + [ListRules];
    }
  }

  /** The editor was opened from the rules view, and the client stands still meanwhile. */
  ghost predicate EditorIsOurs(p: System, lower: Lower) {
    LinkUp(p) && p.editing.Some? ==> OpensEditor(p.client.app, p.editing.value, lower)
  }

  ghost predicate Invariant(p: System, lower: Lower) {
    Sound(p) && CatchingUp(p) && EditorIsOurs(p, lower)
  }

  lemma TickKeeps(p: System, lower: Lower)
    requires Sound(p) && CatchingUp(p) && LinkUp(p) && Enabled(p, Tick)
    ensures Sound(Next(p, Tick, lower)) && CatchingUp(Next(p, Tick, lower))
  {
    hide Server.Serve, Server.Relays, RuleInfos, Latest, Server.OnlyEvents, TuiClient.Goes;
    var q := Next(p, Tick, lower);
    assert InFlight(q) == InFlight(p);
    if q.client.sent != p.client.sent {
      assert Requests(q) == Requests(p) + [GetStats];
    }
  }

  lemma PublishKeeps(p: System, events: seq<EnrichedEvent>, lower: Lower)
    requires Sound(p) && CatchingUp(p) && LinkUp(p)
    ensures Sound(Next(p, Publish(events), lower)) && CatchingUp(Next(p, Publish(events), lower))
  {
    hide TuiClient.Wakes, Server.Serve, Server.Relays, RuleInfos, Latest;
    var q := Next(p, Publish(events), lower);
    assert InFlight(q) == InFlight(p) && Requests(q) == Requests(p);
  }

  lemma EditorStepsKeep(p: System, s: Step, lower: Lower)
    requires Invariant(p, lower) && LinkUp(p) && Enabled(p, s)
    requires s.EditorWrites? || (s.Press? && OpensEditor(p.client.app, s.input, lower))
    ensures Invariant(Next(p, s, lower), lower)
  {
    hide RuleInfos, HandleInput, Latest, Server.OnlyEvents;
  }

  lemma LinkDownKeeps(p: System, lower: Lower)
    requires Invariant(p, lower) && LinkUp(p)
    ensures Invariant(Next(p, LinkDown, lower), lower)
  {
    hide RuleInfos, HandleInput, Latest, Server.OnlyEvents;
  }

  /** Once an end has closed, nothing is promised any more, and it stays closed. */
  lemma DownStaysDown(p: System, s: Step, lower: Lower)
    requires Sound(p) && !LinkUp(p)
    ensures Sound(Next(p, s, lower)) && !LinkUp(Next(p, s, lower))
  {
    hide TuiClient.Effect, TuiClient.Goes, Server.Respond, Server.Goes, Server.MatchesFilter, OpensEditor;
  }

  lemma NothingPromised(p: System, lower: Lower)
    requires Sound(p) && !LinkUp(p)
    ensures Invariant(p, lower)
  {
  }

  lemma NextKeeps(p: System, s: Step, lower: Lower)
    requires Invariant(p, lower)
    ensures Invariant(Next(p, s, lower), lower)
  {
    hide CatchingUp, OpensEditor, TuiClient.Wakes, Server.Serve, Server.Relays;
    if !LinkUp(p) {
      DownStaysDown(p, s, lower);
      NothingPromised(Next(p, s, lower), lower);
    } else if Enabled(p, s) {
      match s
      case Deliver => DeliverKeeps(p, lower);
      case Serve(env, stats) => ServeKeeps(p, env, stats, lower);
      case Forward => ForwardKeeps(p, lower);
      case Press(input) =>
        if OpensEditor(p.client.app, input, lower) {
          EditorStepsKeep(p, s, lower);
        } else {
          PressKeeps(p, input, TuiClient.Edited, lower);
        }
      case EditorWrites(_) => EditorStepsKeep(p, s, lower);
      case EditorDone(outcome) => EditorDoneKeeps(p, p.editing.value, outcome, lower);
      case Tick => TickKeeps(p, lower);
      case Publish(events) => PublishKeeps(p, events, lower);
      case LinkDown => LinkDownKeeps(p, lower);
    }
  }

  lemma {:induction false} RunKeeps(p: System, steps: seq<Step>, lower: Lower)
    requires Invariant(p, lower)
    ensures Invariant(Run(p, steps, lower), lower)
  {
    hide Next, Invariant;
    if steps != [] {
      RunKeeps(p, steps[..|steps| - 1], lower);
      NextKeeps(Run(p, steps[..|steps| - 1], lower), steps[|steps| - 1], lower);
    }
  }

  lemma InitialInvariant(p: System, lower: Lower)
    requires Initial(p)
    ensures Invariant(p, lower)
  {
    hide RuleInfos, HandleInput;
  }

  /** Nothing is under way in either direction. */
  predicate Idle(p: System) {
    p.taken == |p.client.sent| && p.delivered == |p.server.out|
  }

  /** In every reachable state in which the link is up, nobody is editing and both
      channels are empty, the rules view shows the rules of the directory. */
  lemma {:induction false} RulesViewIsFresh(p: System, steps: seq<Step>, lower: Lower)
    requires Initial(p)
    ensures var q := Run(p, steps, lower);
      LinkUp(q) && q.editing == None && q.client.app.view == RulesView && Idle(q) ==>
        q.client.app.rules == RuleInfos(q.server.dir)
  {
    hide RuleInfos, Run, Initial;
    InitialInvariant(p, lower);
    RunKeeps(p, steps, lower);
  }

  lemma {:induction false} RunThree(p: System, a: Step, b: Step, c: Step, lower: Lower)
    ensures Run(p, [a, b, c], lower) == Next(Next(Next(p, a, lower), b, lower), c, lower)
  {
    hide Next;
    assert [a, b, c][..2] == [a, b] && [a, b][..1] == [a] && [a][..0] == [];
    assert Run(p, [a], lower) == Next(p, a, lower);
    assert Run(p, [a, b], lower) == Next(Run(p, [a], lower), b, lower);
  }

  lemma PressTwo(app: AppState, control: bool, lower: Lower)
    requires app.modal == None && !app.filterMode
    ensures HandleInput(app, Key(Char('2'), control, true), lower) == (app.(view := RulesView), Send(ListRules))
  {
  }

  // --- The size of the list -------------------------------------------------------------------

  /** Whether the list of a directory fits a frame. */
  predicate Listable(dir: Loading.Dir) {
    MessageCodec.ServerFits(Rules(RuleInfos(dir)))
  }

  /** Opening the rules view from the start, one service and one delivery later the
      client shows the rules of the directory exactly when their list fits a frame.
      Otherwise the server has closed the session, and all the client can still do is
      find the link gone. */
  lemma {:induction false} OpeningTheRulesView(p: System, control: bool, env: Env, stats: Stats, lower: Lower)
    requires Initial(p)
    ensures var q := Run(p, [Press(Key(Char('2'), control, true)), Serve(env, stats), Deliver], lower);
      var dir := p.server.dir; var after := Next(q, LinkDown, lower).client;
      && (Listable(dir) <==> LinkUp(q) && Idle(q) && q.editing == None && q.client.app.view == RulesView
                             && q.client.app.rules == RuleInfos(dir))
      && (!Listable(dir) ==> !q.server.open && Idle(q) && q.client.app.rules == []
                             && !after.open && !after.app.connected && after.app.rules == [])
      && q.server.dir == dir && q.server.cursor == |q.server.log|
  {
    hide RuleInfos, HandleInput, Run, MessageCodec.ServerFits, MessageCodec.ClientFits;
    var press := Press(Key(Char('2'), control, true));
    RunThree(p, press, Serve(env, stats), Deliver, lower);
    PressTwo(p.client.app, control, lower);
    MessageCodec.SmallMessages();
    var a := Next(p, press, lower);
    assert a.client.sent == [ListRules];
    var b := Next(a, Serve(env, stats), lower);
    assert b.server.open == Listable(p.server.dir);
    assert b.server.out == if b.server.open then [Server.Answer(Rules(RuleInfos(p.server.dir)))] else [];
  }

  /** For example, one rule whose id is as long as a frame. */
  lemma OversizedDirectory(id: string)
    requires |id| >= Codec.MAX_FRAME
    ensures !Listable(Loading.Listed([Loading.SampleFile("r", id, "deny", true)]))
  {
    hide Loading.SampleFile, Loading.ToLoaded, MessageCodec.EncServer, RuleInfos;
    var files := [Loading.SampleFile("r", id, "deny", true)];
    Loading.SampleLoads("r", id, "deny", true);
    ListingOfOne(files[0]);
    MessageCodec.ListingIsLarge(RuleInfos(Loading.Listed(files)));
  }

  // --- What is shown fitted a frame ----------------------------------------------------------------

  ghost predicate Fitting(p: System) {
    Server.AllFit(p.server.out) && MessageCodec.ServerFits(Rules(p.client.app.rules))
  }

  lemma KeysKeepRules(app: AppState, input: Input, outcome: TuiClient.EditOutcome, lower: Lower)
    ensures TuiClient.OnKey(app, input, outcome, lower).0.rules == app.rules
  {
    hide HandleInput;
    EnteringRulesAsks(app, input, lower);
  }

  lemma StepKeepsFitting(p: System, s: Step, lower: Lower)
    requires Fitting(p)
    ensures Fitting(Next(p, s, lower))
  {
    hide Server.Respond, Server.MatchesFilter, TuiClient.OnKey, TuiClient.Goes, OnMessage, OpensEditor,
      MessageCodec.ServerFits;
    if Enabled(p, s) {
      match s
      case Deliver => MessagesAndRules(p.client.app, p.server.out[p.delivered].msg);
      case Press(input) => KeysKeepRules(p.client.app, input, TuiClient.Edited, lower);
      case EditorDone(outcome) => KeysKeepRules(p.client.app, p.editing.value, outcome, lower);
      case _ =>
    }
  }

  lemma {:induction false} RunKeepsFitting(p: System, steps: seq<Step>, lower: Lower)
    requires Initial(p)
    ensures Fitting(Run(p, steps, lower))
  {
    hide Next, Initial, Fitting;
    if steps == [] {
      StartsFitting(p);
    } else {
      RunKeepsFitting(p, steps[..|steps| - 1], lower);
      StepKeepsFitting(Run(p, steps[..|steps| - 1], lower), steps[|steps| - 1], lower);
    }
  }

  lemma StartsFitting(p: System)
    requires Initial(p)
    ensures Fitting(p)
  {
  }

  /** A list that does not fit is never shown: the rules view of an idle system whose
      link is up is reached only with directories whose list fits. */
  lemma {:induction false} UnlistableIsNeverShown(p: System, steps: seq<Step>, lower: Lower)
    requires Initial(p)
    ensures var q := Run(p, steps, lower);
      LinkUp(q) && q.editing == None && q.client.app.view == RulesView && Idle(q) ==> Listable(q.server.dir)
  {
    hide RuleInfos, Run, Initial, MessageCodec.ServerFits;
    RulesViewIsFresh(p, steps, lower);
    RunKeepsFitting(p, steps, lower);
  }
}
