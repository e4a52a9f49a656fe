/** The exchange between client and server comes to rest, and at rest the rules
    view is right. */
module Settling {
  import opened Base
  import opened Proto
  import opened TuiApp
  import opened RuleStore
  import opened Protocol
  import Loading
  import MessageCodec
  import TuiClient
  import Server

  /** How many messages a request can still cause, itself included. */
  function RequestWeight(m: ClientMessage): nat {
    match m
    case CreateDenyRule(_, _, _, _, _) => 4
    case SetRuleEnabled(_, _) => 4
    case ListRules => 2
    case GetStats => 2
    case _ => 1
  }

  /** An acknowledgement may cause a request for the rules, and that a reply. */
  function MessageWeight(m: ServerMessage): nat {
    if m == Done then 3 else 1
  }

  function Weight(p: System): nat
    requires Sound(p)
  {
    Sum(Map(Requests(p), RequestWeight)) + Sum(Map(InFlight(p), MessageWeight)) + 2 * (|p.server.log| - p.server.cursor)
  }

  /** What happens without the user, the clock, an editor or a new event. */
  predicate Internal(s: Step) {
    s.Deliver? || s.Serve? || s.Forward?
  }

  // --- Sums over a channel ------------------------------------------------------------------

  lemma {:induction false} SumOneMore<T>(s: seq<T>, x: T, w: T -> nat)
    ensures Sum(Map(s + [x], w)) == Sum(Map(s, w)) + w(x)
  {
    MapAppend(s, [x], w);
    assert Map([x], w) == [w(x)] && Sum([w(x)]) == w(x);
    SumAppend(Map(s, w), [w(x)]);
  }

  lemma {:induction false} SumOneLess<T>(x: T, s: seq<T>, w: T -> nat)
    ensures Sum(Map([x] + s, w)) == w(x) + Sum(Map(s, w))
  {
    assert ([x] + s)[1..] == s;
  }

  // --- Each internal step weighs less ---------------------------------------------------------

  lemma DeliverDrops(p: System, lower: Lower)
    requires Sound(p) && Enabled(p, Deliver)
    ensures Sound(Next(p, Deliver, lower)) && Weight(Next(p, Deliver, lower)) < Weight(p)
  {
    hide OnMessage, Sum, Map, Server.OnlyEvents, TuiClient.Goes;
    var q := Next(p, Deliver, lower);
    var m := p.server.out[p.delivered].msg;
    TakesHead(p);
    assert InFlight(q) == InFlight(p.(delivered := p.delivered + 1));
    SumOneLess(m, InFlight(q), MessageWeight);
    MessagesAndRules(p.client.app, m);
    if q.client.sent == p.client.sent {
      assert Requests(q) == Requests(p);
    } else {
      assert Requests(q) == Requests(p) + [ListRules];
      SumOneMore(Requests(p), ListRules, RequestWeight);
    }
  }

  lemma ReplyWeighsLess(dir: Loading.Dir, m: ClientMessage, env: Env, stats: Stats)
    ensures var r := Server.Respond(dir, m, env, stats).reply;
      r.Some? ==> MessageWeight(r.value) < RequestWeight(m)
    ensures RequestWeight(m) > 0
  {
    hide DenyResult, ToggleResult, RuleInfos;
  }

  lemma ServeDrops(p: System, env: Env, stats: Stats, lower: Lower)
    requires Sound(p) && Enabled(p, Serve(env, stats))
    ensures Sound(Next(p, Serve(env, stats), lower)) && Weight(Next(p, Serve(env, stats), lower)) < Weight(p)
  {
    hide Server.Respond, Server.Goes, Sum, Map, Server.OnlyEvents, MessageWeight, RequestWeight;
    var q := Next(p, Serve(env, stats), lower);
    var m := p.client.sent[p.taken];
    assert Requests(p) == [m] + Requests(q);
    SumOneLess(m, Requests(q), RequestWeight);
    ReplyWeighsLess(p.server.dir, m, env, stats);
    var r := Server.Respond(p.server.dir, m, env, stats);
    if r.reply.Some? && Server.Goes(r.reply.value, p.client.open) {
      Wrote(p, q, Server.Answer(r.reply.value));
      SumOneMore(InFlight(p), r.reply.value, MessageWeight);
    } else {
      assert InFlight(q) == InFlight(p);
    }
  }

  lemma ForwardDrops(p: System, lower: Lower)
    requires Sound(p) && Enabled(p, Forward)
    ensures Sound(Next(p, Forward, lower)) && Weight(Next(p, Forward, lower)) < Weight(p)
  {
    hide Sum, Map, RequestWeight, Server.Goes;
    var q := Next(p, Forward, lower);
    assert Requests(q) == Requests(p);
    if q.server.out == p.server.out {
      assert InFlight(q) == InFlight(p);
    } else {
      var m := p.server.log[p.server.cursor];
      Wrote(p, q, Server.Relay(p.server.cursor, m));
      SumOneMore(InFlight(p), m, MessageWeight);
    }
  }

  lemma InternalStepDrops(p: System, s: Step, lower: Lower)
    requires Sound(p) && Internal(s) && Enabled(p, s)
    ensures Sound(Next(p, s, lower)) && Weight(Next(p, s, lower)) < Weight(p)
  {
    hide Sound, Weight, Next;
    match s
    case Deliver => DeliverDrops(p, lower);
    case Serve(env, stats) => ServeDrops(p, env, stats, lower);
    case Forward => ForwardDrops(p, lower);
  }

  // --- Runs of internal steps ---------------------------------------------------------------------

  ghost predicate InternalRun(p: System, steps: seq<Step>, lower: Lower) {
    forall i :: 0 <= i < |steps| ==> Internal(steps[i]) && Enabled(Run(p, steps[..i], lower), steps[i])
  }

  /** Whatever the order, an exchange left to itself ends after at most as many
      steps as it weighs. */
  lemma {:induction false} ExchangeEnds(p: System, steps: seq<Step>, lower: Lower)
    requires Sound(p) && InternalRun(p, steps, lower)
    ensures Sound(Run(p, steps, lower)) && |steps| + Weight(Run(p, steps, lower)) <= Weight(p)
  {
    hide Sound, Weight, Next, Enabled;
    if steps != [] {
      var before := steps[..|steps| - 1];
      assert forall i :: 0 <= i < |before| ==> before[i] == steps[i] && before[..i] == steps[..i];
      ExchangeEnds(p, before, lower);
      InternalStepDrops(Run(p, before, lower), steps[|steps| - 1], lower);
    }
  }

  /** Nothing more happens by itself. */
  ghost predicate AtRest(p: System) {
    forall s :: Internal(s) ==> !Enabled(p, s)
  }

  lemma AtRestMeansIdle(p: System)
    requires Sound(p) && LinkUp(p) && p.editing == None
    ensures AtRest(p) <==> Idle(p) && p.server.cursor == |p.server.log|
  {
    if AtRest(p) {
      assert !Enabled(p, Deliver) && !Enabled(p, Forward);
      assert !Enabled(p, Serve(Env(true, true, 0, 0), Stats(0, 0, 0, [], [], [])));
    }
  }

  lemma {:induction false} RunInTwo(p: System, steps: seq<Step>, more: seq<Step>, lower: Lower)
    ensures Run(p, steps + more, lower) == Run(Run(p, steps, lower), more, lower)
  {
    hide Next;
    if more == [] {
      assert steps + more == steps;
    } else {
      assert (steps + more)[..|steps + more| - 1] == steps + more[..|more| - 1];
      RunInTwo(p, steps, more[..|more| - 1], lower);
    }
  }

  /** After any history, left to itself the exchange comes to rest within its
      weight; if the link is then up, nobody is editing and the rules view is
      open, it shows the rules of the directory. */
  lemma {:induction false} RestIsFresh(p: System, history: seq<Step>, steps: seq<Step>, lower: Lower)
    requires Initial(p) && InternalRun(Run(p, history, lower), steps, lower)
    ensures var q := Run(Run(p, history, lower), steps, lower);
      && Sound(Run(p, history, lower)) && |steps| <= Weight(Run(p, history, lower))
      && (AtRest(q) && LinkUp(q) && q.editing == None && q.client.app.view == RulesView ==>
            q.client.app.rules == RuleInfos(q.server.dir))
  {
    hide Run, RuleInfos, InternalRun, Initial, AtRest, Weight, CatchingUp, EditorIsOurs;
    InitialInvariant(p, lower);
    RunKeeps(p, history, lower);
    ExchangeEnds(Run(p, history, lower), steps, lower);
    RunInTwo(p, history, steps, lower);
    var q := Run(Run(p, history, lower), steps, lower);
    if LinkUp(q) && q.editing == None {
      AtRestMeansIdle(q);
    }
    RulesViewIsFresh(p, history + steps, lower);
  }

  // --- Changes by someone else ---------------------------------------------------------------------

  /** From place `mark` of the client's requests on, nobody has asked for the rules;
      so the client shows what it showed, and no list is under way. */
  ghost predicate Showing(p: System, mark: nat, shown: seq<RuleInfo>) {
    && Sound(p) && mark <= p.taken
    && p.client.app.rules == shown
    && (forall i :: p.delivered <= i < |p.server.out| ==> !p.server.out[i].msg.Rules?)
  }

  predicate Asked(sent: seq<ClientMessage>, mark: nat) {
    exists i :: mark <= i < |sent| && sent[i] == ListRules
  }

  lemma OnlyListingListsRules(dir: Loading.Dir, m: ClientMessage, env: Env, stats: Stats)
    ensures var r := Server.Respond(dir, m, env, stats).reply; r.Some? && r.value.Rules? ==> m == ListRules
  {
    hide DenyResult, ToggleResult, RuleInfos;
  }

  lemma StepKeepsShowing(p: System, s: Step, mark: nat, shown: seq<RuleInfo>, lower: Lower)
    requires Showing(p, mark, shown) && !Asked(Next(p, s, lower).client.sent, mark)
    ensures Showing(Next(p, s, lower), mark, shown) && p.client.sent <= Next(p, s, lower).client.sent
  {
    hide OnMessage, Server.Respond, TuiClient.OnKey, RuleInfos, HandleInput, Server.MatchesFilter, Asked, Server.Goes,
      TuiClient.Goes;
    var q := Next(p, s, lower);
    if Enabled(p, s) {
      match s
      case Deliver => MessagesAndRules(p.client.app, p.server.out[p.delivered].msg);
      case Serve(env, stats) =>
        var m := p.client.sent[p.taken];
        OnlyListingListsRules(p.server.dir, m, env, stats);
        assert m != ListRules by { NotAsked(q.client.sent, mark, p.taken); }
      case Press(input) => KeysKeepRules(p.client.app, input, TuiClient.Edited, lower);
      case EditorDone(outcome) => KeysKeepRules(p.client.app, p.editing.value, outcome, lower);
      case _ =>
    }
  }

  lemma NotAsked(sent: seq<ClientMessage>, mark: nat, i: nat)
    requires !Asked(sent, mark) && mark <= i < |sent|
    ensures sent[i] != ListRules
  {
  }

  lemma {:induction false} SentGrows(p: System, s: Step, mark: nat, lower: Lower)
    requires !Asked(Next(p, s, lower).client.sent, mark)
    ensures !Asked(p.client.sent, mark)
  {
    hide OnMessage, TuiClient.OnKey, TuiClient.Goes, HandleInput, Server.Serve, Server.Relays;
    var q := Next(p, s, lower);
    assert p.client.sent <= q.client.sent;
    assert forall i :: 0 <= i < |p.client.sent| ==> p.client.sent[i] == q.client.sent[i];
  }

  lemma {:induction false} RunKeepsShowing(p: System, steps: seq<Step>, mark: nat, shown: seq<RuleInfo>, lower: Lower)
    requires Showing(p, mark, shown) && !Asked(Run(p, steps, lower).client.sent, mark)
    ensures Showing(Run(p, steps, lower), mark, shown)
  {
    hide Next, Showing, Asked;
    if steps != [] {
      var before := steps[..|steps| - 1];
      SentGrows(Run(p, before, lower), steps[|steps| - 1], mark, lower);
      RunKeepsShowing(p, before, mark, shown, lower);
      StepKeepsShowing(Run(p, before, lower), steps[|steps| - 1], mark, shown, lower);
    }
  }

  /** Only requests and the client's own editor are noticed: when someone else
      creates, changes or removes one rule file of a system at rest, then until the
      client next asks for the rules, whatever else happens, the rules view shows
      the old list. As long as the directory stays as that edit left it, the view is
      right exactly if the file displays the same before and after. */
  lemma {:induction false} OutsideEditsGoUnnoticed(
    p: System, history: seq<Step>, a: seq<Loading.File>, x: seq<Loading.File>, y: seq<Loading.File>,
    b: seq<Loading.File>, more: seq<Step>, lower: Lower)
    requires Initial(p) && |x| <= 1 && |y| <= 1
    ensures var q := Run(p, history, lower);
      var edited := q.(server := q.server.(dir := Loading.Listed(a + y + b)));
      var later := Run(edited, more, lower);
      AtRest(q) && Idle(q) && LinkUp(q) && q.editing == None && q.client.app.view == RulesView
      && q.server.dir == Loading.Listed(a + x + b) && !Asked(later.client.sent, |q.client.sent|) ==>
        && AtRest(edited)
        && later.client.app.rules == RuleInfos(Loading.Listed(a + x + b))
        && (later.client.app.rules == RuleInfos(Loading.Listed(a + y + b)) <==>
              Collect(x, InfoOf) == Collect(y, InfoOf))
        && (later.server.dir == Loading.Listed(a + y + b) ==>
              (later.client.app.rules == RuleInfos(later.server.dir) <==> Collect(x, InfoOf) == Collect(y, InfoOf)))
  {
    hide Run, RuleInfos, InfoOf, Initial, Asked, CatchingUp, EditorIsOurs;
    var q := Run(p, history, lower);
    var edited := q.(server := q.server.(dir := Loading.Listed(a + y + b)));
    InitialInvariant(p, lower);
    RunKeeps(p, history, lower);
    RulesViewIsFresh(p, history, lower);
    OneFileChanged(a, x, y, b);
    forall s | Internal(s) && AtRest(q) ensures !Enabled(edited, s) {
      assert !Enabled(q, s);
    }
    if Idle(q) && !Asked(Run(edited, more, lower).client.sent, |q.client.sent|) {
      RunKeepsShowing(edited, more, |q.client.sent|, q.client.app.rules, lower);
    }
  }

  lemma EmptyListingFits()
    ensures RuleInfos(Loading.Listed([])) == [] && Listable(Loading.Listed([]))
  {
    hide Loading.ListAll;
    assert Loading.ListAll([]) == [] by { NothingListed(); }
  }

  lemma NothingListed()
    ensures Loading.ListAll([]) == []
  {
  }

  /** For example: the rules view of an empty directory is open and at rest, someone
      adds a file, and until the client asks again the view stays empty, which is
      wrong. */
  lemma {:induction false} AddedFileStaysUnseen(p: System, env: Env, stats: Stats, more: seq<Step>, lower: Lower)
    requires Initial(p) && p.server.dir == Loading.Listed([])
    ensures var q := Run(p, [Press(Key(Char('2'), false, true)), Serve(env, stats), Deliver], lower);
      var dir := Loading.Listed([Loading.SampleFile("r", "r", "deny", true)]);
      var later := Run(q.(server := q.server.(dir := dir)), more, lower);
      && AtRest(q) && q.client.app.view == RulesView
      && (!Asked(later.client.sent, |q.client.sent|) ==> later.client.app.rules == [])
      && RuleInfos(dir) != []
  {
    hide Run, RuleInfos, Initial, Asked, Loading.SampleFile, Loading.ToLoaded, MessageCodec.ServerFits;
    var open := [Press(Key(Char('2'), false, true)), Serve(env, stats), Deliver];
    var q := Run(p, open, lower);
    var file := Loading.SampleFile("r", "r", "deny", true);
    EmptyListingFits();
    OpeningTheRulesView(p, false, env, stats, lower);
    InitialInvariant(p, lower);
    RunKeeps(p, open, lower);
    AtRestMeansIdle(q);
    Loading.SampleLoads("r", "r", "deny", true);
    ListingOfOne(file);
    var none: seq<Loading.File> := [];
    assert none + none + none == none && none + [file] + none == [file];
    OutsideEditsGoUnnoticed(p, open, none, none, [file], none, more, lower);
  }
}
