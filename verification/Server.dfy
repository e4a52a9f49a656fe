/** The daemon's side of a client connection: the handshake, one reply per request,
    and the broadcast of events through a bounded ring. */
module Server {
  import opened Base
  import opened Proto
  import opened Loading
  import opened RuleStore
  import MessageCodec

  // --- Requests ---------------------------------------------------------------------------

  /** The directory after a request, the reply if there is one, and whether the
      session ends. */
  datatype Response = Response(dir: Dir, reply: Option<ServerMessage>, ends: bool)

  function Acknowledge<T>(r: Result<T>): ServerMessage {
    match r
    case Ok(_) => Done
    case Err(text) => Error(text)
  }

  function Respond(dir: Dir, m: ClientMessage, env: Env, stats: Stats): Response {
    match m
    case CreateDenyRule(exe, host, ip, _, kind) =>
      var (dir', r) := DenyResult(dir, exe, host, ip, kind, env);
      Response(dir', Some(Acknowledge(r)), false)
    case ListRules => Response(dir, Some(Rules(RuleInfos(dir))), false)
    case SetRuleEnabled(id, enabled) =>
      var (dir', r) := ToggleResult(dir, id, enabled, env);
      Response(dir', Some(Acknowledge(r)), false)
    case GetStats => Response(dir, Some(StatsReply(stats)), false)
    case Unsubscribe => Response(dir, None, true)
    case Subscribe(_) => Response(dir, None, false)
  }

  // --- Events -------------------------------------------------------------------------------

  predicate HasPart(text: Option<string>, part: Option<string>) {
    part.Some? ==> text.Some? && Contains(text.value, part.value)
  }

  /** Only events are filtered. */
  predicate MatchesFilter(m: ServerMessage, filter: Option<EventFilter>) {
    filter.Some? && m.Event? ==>
      HasPart(m.event.exePath, filter.value.processPathContains) && HasPart(m.event.hostname, filter.value.hostContains)
  }

  /** How many messages the broadcast ring holds for slow receivers. */
  const CAPACITY: nat := 1024

  /** The oldest message a receiver can still get. */
  function Oldest(log: seq<ServerMessage>): nat {
    if |log| > CAPACITY then |log| - CAPACITY else 0
  }

  // --- One round of the session loop ------------------------------------------------------------

  datatype Incoming = Quiet | Gone | Request(msg: ClientMessage, env: Env, stats: Stats)

  /** What happens before and during one round: messages are published, someone
      else may change the directory, a request may be waiting, a write may fail. */
  datatype Turn = Turn(published: seq<ServerMessage>, edited: Option<Dir>, incoming: Incoming, writeOk: bool)

  /** What was written: the answer to a request, or a message of the log. */
  datatype Output = Answer(msg: ServerMessage) | Relay(index: nat, msg: ServerMessage)

  /** The directory, everything ever published, the receiver's place in it, and
      what was written since the subscription. */
  datatype Session = Session(dir: Dir, log: seq<ServerMessage>, cursor: nat, out: seq<Output>, open: bool)

  /** The world moves on while the session waits. */
  function Meanwhile(s: Session, t: Turn): Session {
    s.(log := s.log + t.published, dir := t.edited.GetOr(s.dir))
  }

  /** Whether a message goes out: the link must take it, and it must fit a frame. */
  predicate Goes(m: ServerMessage, writeOk: bool) {
    writeOk && MessageCodec.ServerFits(m)
  }

  /** The directory keeps the change even if the reply cannot be written. */
  function Serve(s: Session, m: ClientMessage, env: Env, stats: Stats, writeOk: bool): Session {
    var r := Respond(s.dir, m, env, stats);
    match r.reply
    case None => s.(dir := r.dir, open := !r.ends)
    case Some(reply) =>
      if Goes(reply, writeOk) then s.(dir := r.dir, out := s.out + [Answer(reply)]) else s.(dir := r.dir, open := false)
  }

  /** A receiver that fell behind is moved to the oldest message still held. */
  function Relays(s: Session, filter: Option<EventFilter>, writeOk: bool): Session {
    if s.cursor < Oldest(s.log) then s.(cursor := Oldest(s.log))
    else if s.cursor >= |s.log| then s
    else
      var m := s.log[s.cursor];
      if !MatchesFilter(m, filter) then s.(cursor := s.cursor + 1)
      else if Goes(m, writeOk) then s.(cursor := s.cursor + 1, out := s.out + [Relay(s.cursor, m)])
      else s.(cursor := s.cursor + 1, open := false)
  }

  /** Requests go before events. */
  function TakeTurn(s: Session, t: Turn, filter: Option<EventFilter>): Session {
    if !s.open then s
    else match t.incoming
      case Request(m, env, stats) => Serve(Meanwhile(s, t), m, env, stats, t.writeOk)
      case Gone => Meanwhile(s, t).(open := false)
      case Quiet => Relays(Meanwhile(s, t), filter, t.writeOk)
  }

  function AfterTurns(s: Session, ts: seq<Turn>, filter: Option<EventFilter>): Session {
    if ts == [] then s else TakeTurn(AfterTurns(s, ts[..|ts| - 1], filter), ts[|ts| - 1], filter)
  }

  function Subscribed(dir: Dir, log: seq<ServerMessage>): Session {
    Session(dir, log, |log|, [], true)
  }

  // --- The requests by themselves ------------------------------------------------------------------

  /** The directory after these turns, whatever happens to the session. */
  function DirAfter(dir: Dir, ts: seq<Turn>): Dir {
    if ts == [] then dir
    else
      var t := ts[|ts| - 1];
      var d := t.edited.GetOr(DirAfter(dir, ts[..|ts| - 1]));
      if t.incoming.Request? then Respond(d, t.incoming.msg, t.incoming.env, t.incoming.stats).dir else d
  }

  /** The reply to each request, in the order of the requests. */
  function Replies(dir: Dir, ts: seq<Turn>): seq<ServerMessage> {
    if ts == [] then []
    else
      var before := ts[..|ts| - 1];
      var t := ts[|ts| - 1];
      if !t.incoming.Request? then Replies(dir, before)
      else
        var d := t.edited.GetOr(DirAfter(dir, before));
        match Respond(d, t.incoming.msg, t.incoming.env, t.incoming.stats).reply
        case Some(m) => Replies(dir, before) + [m]
        case None => Replies(dir, before)
  }

  predicate WantsReply(m: ClientMessage) {
    m.CreateDenyRule? || m.ListRules? || m.SetRuleEnabled? || m.GetStats?
  }

  function Expecting(): Turn -> bool {
    (t: Turn) => t.incoming.Request? && WantsReply(t.incoming.msg)
  }

  /** Exactly the four kinds of request are answered, each once. */
  lemma {:induction false} OneReplyEach(dir: Dir, ts: seq<Turn>)
    ensures |Replies(dir, ts)| == |Filter(ts, Expecting())|
  {
    hide RuleInfos, DenyResult, ToggleResult;
    if ts != [] {
      var before := ts[..|ts| - 1];
      OneReplyEach(dir, before);
      FilterAppend(before, [ts[|ts| - 1]], Expecting());
      assert ts == before + [ts[|ts| - 1]];
    }
  }

  // --- The trace of a session ---------------------------------------------------------------------------

  function Content(o: Output): ServerMessage {
    o.msg
  }

  function AnswerOf(o: Output): Option<ServerMessage> {
    if o.Answer? then Some(o.msg) else None
  }

  function IndexOf(o: Output): Option<nat> {
    if o.Relay? then Some(o.index) else None
  }

  function Between(low: nat, high: nat): (r: set<nat>)
    ensures forall i :: i in r <==> low <= i < high
    decreases high - low
  {
    if low >= high then {} else {low} + Between(low + 1, high)
  }

  /** Messages that are overwritten in the ring before the receiver reaches them:
      those between its place and the oldest one held when it next reads. */
  function Overwritten(s: Session, t: Turn): set<nat> {
    if s.open && t.incoming.Quiet? then Between(s.cursor, Oldest(s.log + t.published)) else {}
  }

  function Lost(s: Session, ts: seq<Turn>, filter: Option<EventFilter>): set<nat> {
    if ts == [] then {}
    else
      var before := ts[..|ts| - 1];
      Lost(s, before, filter) + Overwritten(AfterTurns(s, before, filter), ts[|ts| - 1])
  }

  ghost predicate Ascending(s: seq<nat>) {
    forall i, j :: 0 <= i < j < |s| ==> s[i] < s[j]
  }

  /** Up to where every message has been dealt with. */
  function Taken(s: Session): (n: int)
    ensures n <= s.cursor
  {
    if s.open then s.cursor else s.cursor - 1
  }

  /** What was written of the log since a place in it: each message that passes
      the filter and was not lost, once and in order, and nothing else. A session
      that has ended may have taken one more message without writing it. */
  ghost predicate RelaysAllFrom(start: nat, s: Session, filter: Option<EventFilter>, lost: set<nat>) {
    var indices := Collect(s.out, IndexOf);
    && start <= s.cursor <= |s.log|
    && Ascending(indices)
    && (forall i :: 0 <= i < |s.out| && s.out[i].Relay? ==>
          s.out[i].index < |s.log| && s.out[i].msg == s.log[s.out[i].index])
    && (forall i :: i in indices ==> start <= i < s.cursor && MatchesFilter(s.log[i], filter) && i !in lost)
    && (forall i :: start <= i < Taken(s) && MatchesFilter(s.log[i], filter) && i !in lost ==> i in indices)
    && (forall i :: i in lost ==> start <= i < s.cursor)
  }

  /** Nothing is written by the round that ends a session, so the trace of an
      ended session is that of its last open state. */
  lemma EndingWritesNothing(s: Session, t: Turn, filter: Option<EventFilter>)
    requires !TakeTurn(s, t, filter).open
    ensures TakeTurn(s, t, filter).out == s.out
  {
    hide Goes, MatchesFilter, RuleInfos, DenyResult, ToggleResult;
  }

  lemma RoundAnswers(s: Session, t: Turn, filter: Option<EventFilter>)
    requires TakeTurn(s, t, filter).open
    ensures var after := TakeTurn(s, t, filter); var d := t.edited.GetOr(s.dir);
      if t.incoming.Request? then
        var r := Respond(d, t.incoming.msg, t.incoming.env, t.incoming.stats);
        && after.dir == r.dir
        && Collect(after.out, AnswerOf) == Collect(s.out, AnswerOf) + if r.reply.Some? then [r.reply.value] else []
      else after.dir == d && Collect(after.out, AnswerOf) == Collect(s.out, AnswerOf)
  {
    hide Goes, Respond, MatchesFilter, Oldest;
    var after := TakeTurn(s, t, filter);
    if after.out != s.out {
      CollectAppend(s.out, [after.out[|s.out|]], AnswerOf);
    }
  }

  lemma {:induction false} AnswersAreReplies(s: Session, ts: seq<Turn>, filter: Option<EventFilter>)
    requires s.out == [] && AfterTurns(s, ts, filter).open
    ensures AfterTurns(s, ts, filter).dir == DirAfter(s.dir, ts)
    ensures Collect(AfterTurns(s, ts, filter).out, AnswerOf) == Replies(s.dir, ts)
  {
    hide Goes, Respond, MatchesFilter, Oldest, Relays, Serve;
    if ts != [] {
      var before := ts[..|ts| - 1];
      AnswersAreReplies(s, before, filter);
      RoundAnswers(AfterTurns(s, before, filter), ts[|ts| - 1], filter);
    }
  }

  lemma WaitingKeeps(start: nat, s: Session, t: Turn, filter: Option<EventFilter>, lost: set<nat>)
    requires RelaysAllFrom(start, s, filter, lost)
    ensures RelaysAllFrom(start, Meanwhile(s, t), filter, lost)
  {
    hide MatchesFilter, IndexOf;
  }

  lemma ServingKeeps(start: nat, s: Session, m: ClientMessage, env: Env, stats: Stats, ok: bool,
    filter: Option<EventFilter>, lost: set<nat>)
    requires s.open && RelaysAllFrom(start, s, filter, lost)
    ensures RelaysAllFrom(start, Serve(s, m, env, stats, ok), filter, lost)
  {
    hide Goes, MatchesFilter, Respond, Ascending;
    var r := Respond(s.dir, m, env, stats);
    if r.reply.Some? {
      var one := [Answer(r.reply.value)];
      assert Collect(one, IndexOf) == [];
      CollectAppend(s.out, one, IndexOf);
      assert Collect(s.out + one, IndexOf) == Collect(s.out, IndexOf);
    }
  }

  lemma OneMoreIndex(indices: seq<nat>, next: nat)
    requires Ascending(indices) && forall i :: i in indices ==> i < next
    ensures Ascending(indices + [next])
    ensures forall i :: i in indices + [next] <==> i in indices || i == next
  {
    assert forall i :: 0 <= i < |indices| ==> indices[i] in indices;
  }

  lemma {:induction false} RelayIndex(out: seq<Output>, i: nat, m: ServerMessage)
    ensures Collect(out + [Relay(i, m)], IndexOf) == Collect(out, IndexOf) + [i]
  {
    var one := [Relay(i, m)];
    CollectAppend(out, one, IndexOf);
    assert Collect(one, IndexOf) == [i];
  }

  lemma OneMoreRelayed(start: nat, s: Session, filter: Option<EventFilter>, lost: set<nat>)
    requires s.open && RelaysAllFrom(start, s, filter, lost) && s.cursor < |s.log|
    ensures var m := s.log[s.cursor]; var on := s.(cursor := s.cursor + 1);
      RelaysAllFrom(
        start, if MatchesFilter(m, filter) then on.(out := s.out + [Relay(s.cursor, m)]) else on, filter, lost)
  {
    hide MatchesFilter, Ascending, Collect, IndexOf;
    RelayIndex(s.out, s.cursor, s.log[s.cursor]);
    OneMoreIndex(Collect(s.out, IndexOf), s.cursor);
  }

  lemma RelayingKeeps(start: nat, s: Session, filter: Option<EventFilter>, ok: bool, lost: set<nat>)
    requires s.open && RelaysAllFrom(start, s, filter, lost)
    ensures RelaysAllFrom(start, Relays(s, filter, ok), filter, lost + Between(s.cursor, Oldest(s.log)))
  {
    hide MatchesFilter, Goes;
    var now := Between(s.cursor, Oldest(s.log));
    if s.cursor < Oldest(s.log) {
    } else {
      assert lost + now == lost;
      if s.cursor < |s.log| {
        OneMoreRelayed(start, s, filter, lost);
      }
    }
  }

  /** While a session is open, what it has written of the broadcast is, in order,
      exactly the messages published since the subscription that pass the filter,
      except those overwritten before its place in the ring reached them. */
  lemma {:induction false} BroadcastIsRelayed(s: Session, ts: seq<Turn>, filter: Option<EventFilter>)
    requires s.out == [] && s.cursor <= |s.log| && AfterTurns(s, ts, filter).open
    ensures RelaysAllFrom(s.cursor, AfterTurns(s, ts, filter), filter, Lost(s, ts, filter))
  {
    hide RelaysAllFrom, Relays, Serve;
    if ts == [] {
      StartsRight(s, filter);
    } else {
      var before := ts[..|ts| - 1];
      var t := ts[|ts| - 1];
      var mid := AfterTurns(s, before, filter);
      BroadcastIsRelayed(s, before, filter);
      WaitingKeeps(s.cursor, mid, t, filter, Lost(s, before, filter));
      match t.incoming
      case Request(m, env, stats) =>
        ServingKeeps(s.cursor, Meanwhile(mid, t), m, env, stats, t.writeOk, filter, Lost(s, before, filter));
        assert Lost(s, ts, filter) == Lost(s, before, filter);
      case Quiet =>
        RelayingKeeps(s.cursor, Meanwhile(mid, t), filter, t.writeOk, Lost(s, before, filter));
      case Gone =>
    }
  }

  lemma StartsRight(s: Session, filter: Option<EventFilter>)
    requires s.out == [] && s.cursor <= |s.log|
    ensures RelaysAllFrom(s.cursor, s, filter, {})
  {
  }

  /** Everything that was written fits a frame. */
  predicate AllFit(out: seq<Output>) {
    forall i :: 0 <= i < |out| ==> MessageCodec.ServerFits(out[i].msg)
  }

  lemma {:induction false} OutputFits(s: Session, ts: seq<Turn>, filter: Option<EventFilter>)
    requires AllFit(s.out)
    ensures AllFit(AfterTurns(s, ts, filter).out)
  {
    hide Respond, MatchesFilter, Oldest, MessageCodec.ServerFits;
    if ts != [] {
      OutputFits(s, ts[..|ts| - 1], filter);
    }
  }

  // --- What the client sees --------------------------------------------------------------------------------

  function IsReply(): ServerMessage -> bool {
    (m: ServerMessage) => !m.Event?
  }

  /** Answers and relayed messages can be told apart: the daemon broadcasts only
      events, and no request is answered by one. */
  predicate Tagged(out: seq<Output>) {
    forall i :: 0 <= i < |out| ==> (out[i].Relay? <==> out[i].msg.Event?)
  }

  predicate OnlyEvents(log: seq<ServerMessage>) {
    forall i :: 0 <= i < |log| ==> log[i].Event?
  }

  lemma RepliesAreNotEvents(dir: Dir, m: ClientMessage, env: Env, stats: Stats)
    ensures var r := Respond(dir, m, env, stats); r.reply.Some? ==> !r.reply.value.Event?
  {
    hide RuleInfos, DenyResult, ToggleResult;
  }

  lemma EarlierLog(s: Session, t: Turn, filter: Option<EventFilter>)
    requires OnlyEvents(TakeTurn(s, t, filter).log)
    ensures OnlyEvents(s.log)
  {
    hide Goes, Respond, MatchesFilter, Oldest;
    var after := TakeTurn(s, t, filter);
    assert s.log <= after.log;
    assert forall i :: 0 <= i < |s.log| ==> s.log[i] == after.log[i];
  }

  lemma RoundIsTagged(s: Session, t: Turn, filter: Option<EventFilter>)
    requires Tagged(s.out) && OnlyEvents(TakeTurn(s, t, filter).log)
    ensures Tagged(TakeTurn(s, t, filter).out)
  {
    hide Goes, Respond, MatchesFilter, Oldest;
    if t.incoming.Request? {
      RepliesAreNotEvents(Meanwhile(s, t).dir, t.incoming.msg, t.incoming.env, t.incoming.stats);
    }
  }

  lemma {:induction false} OutputIsTagged(s: Session, ts: seq<Turn>, filter: Option<EventFilter>)
    requires s.out == [] && OnlyEvents(AfterTurns(s, ts, filter).log)
    ensures Tagged(AfterTurns(s, ts, filter).out)
  {
    hide TakeTurn, OnlyEvents;
    if ts != [] {
      EarlierLog(AfterTurns(s, ts[..|ts| - 1], filter), ts[|ts| - 1], filter);
      OutputIsTagged(s, ts[..|ts| - 1], filter);
      RoundIsTagged(AfterTurns(s, ts[..|ts| - 1], filter), ts[|ts| - 1], filter);
    }
  }

  lemma {:induction false} WireReplies(out: seq<Output>)
    requires Tagged(out)
    ensures Filter(Map(out, Content), IsReply()) == Collect(out, AnswerOf)
  {
    if out != [] {
      WireReplies(out[1..]);
      assert Map(out, Content)[1..] == Map(out[1..], Content);
    }
  }

  lemma {:induction false} OpenSessionTrace(s: Session, ts: seq<Turn>, filter: Option<EventFilter>)
    requires s.out == [] && s.cursor <= |s.log| && AfterTurns(s, ts, filter).open
    requires OnlyEvents(AfterTurns(s, ts, filter).log)
    ensures Traces(s, ts, filter)
  {
    hide AfterTurns, Replies, RelaysAllFrom, Lost, Tagged, OnlyEvents;
    OutputIsTagged(s, ts, filter);
    WireReplies(AfterTurns(s, ts, filter).out);
    AnswersAreReplies(s, ts, filter);
    OneReplyEach(s.dir, ts);
    BroadcastIsRelayed(s, ts, filter);
  }

  /** The output after these rounds interleaves two streams: the messages that are
      not events are the replies, one for each request that wants one and in the
      order of the requests; the events are those of the broadcast. */
  ghost predicate Traces(s: Session, ts: seq<Turn>, filter: Option<EventFilter>) {
    var after := AfterTurns(s, ts, filter);
    && Tagged(after.out)
    && Filter(Map(after.out, Content), IsReply()) == Replies(s.dir, ts)
    && |Replies(s.dir, ts)| == |Filter(ts, Expecting())|
    && RelaysAllFrom(s.cursor, after, filter, Lost(s, ts, filter))
  }

  /** How many rounds pass before the one that ends the session; all, if none does. */
  function OpenRounds(s: Session, ts: seq<Turn>, filter: Option<EventFilter>): (k: nat)
    ensures k <= |ts|
    ensures s.open ==> AfterTurns(s, ts[..k], filter).open
    ensures k < |ts| ==> !AfterTurns(s, ts[..k + 1], filter).open
  {
    if AfterTurns(s, ts, filter).open then
      assert ts[..|ts|] == ts;
      |ts|
    else if ts == [] then 0
    else
      var before := ts[..|ts| - 1];
      var k := OpenRounds(s, before, filter);
      assert before[..k] == ts[..k] && (k < |before| ==> before[..k + 1] == ts[..k + 1]);
      assert k == |before| ==> ts[..k + 1] == ts;
      k
  }

  lemma {:induction false} LogOnlyGrows(s: Session, ts: seq<Turn>, k: nat, filter: Option<EventFilter>)
    requires k <= |ts| && OnlyEvents(AfterTurns(s, ts, filter).log)
    ensures OnlyEvents(AfterTurns(s, ts[..k], filter).log)
    decreases |ts|
  {
    hide OnlyEvents, TakeTurn;
    if k == |ts| {
      assert ts[..k] == ts;
    } else {
      var before := ts[..|ts| - 1];
      EarlierLog(AfterTurns(s, before, filter), ts[|ts| - 1], filter);
      LogOnlyGrows(s, before, k, filter);
      assert before[..k] == ts[..k];
    }
  }

  /** The trace of every session, ended or not: what it has written is what it had
      written when it was last open, and that interleaves the replies to all
      requests taken until then with the relayed part of the broadcast. */
  lemma {:induction false} SessionTrace(s: Session, ts: seq<Turn>, filter: Option<EventFilter>)
    requires s.open && s.out == [] && s.cursor <= |s.log|
    requires OnlyEvents(AfterTurns(s, ts, filter).log)
    ensures var open := ts[..OpenRounds(s, ts, filter)];
      && AfterTurns(s, ts, filter).out == AfterTurns(s, open, filter).out
      && Traces(s, open, filter)
  {
    hide TakeTurn, Traces, OnlyEvents;
    var k := OpenRounds(s, ts, filter);
    LogOnlyGrows(s, ts, k, filter);
    OpenSessionTrace(s, ts[..k], filter);
    if k < |ts| {
      EndedStays(s, ts, k + 1, filter);
      assert ts[..k + 1][..k] == ts[..k];
      EndingWritesNothing(AfterTurns(s, ts[..k], filter), ts[k], filter);
    } else {
      assert ts[..k] == ts;
    }
  }

  // --- The handshake and the running session ---------------------------------------------------------------

  function KindName(m: ClientMessage): string {
    match m
    case Subscribe(_) => "Subscribe"
    case Unsubscribe => "Unsubscribe"
    case CreateDenyRule(_, _, _, _, _) => "CreateDenyRule"
    case ListRules => "ListRules"
    case SetRuleEnabled(_, _) => "SetRuleEnabled"
    case GetStats => "GetStats"
  }

  /** The first message, if reading it succeeds, whether the two writes of the
      handshake do, and what is published before the receiver exists. */
  datatype Opening = Opening(helloOk: bool, first: Option<ClientMessage>, replyOk: bool, published: seq<ServerMessage>)

  function FirstReply(first: ClientMessage): ServerMessage {
    if first.Subscribe? then Done else Error("expected Subscribe, got \"" + KindName(first) + "\"")
  }

  predicate Subscribes(version: string, o: Opening) {
    Goes(Hello(version), o.helloOk) && o.first.Some? && o.first.value.Subscribe? && Goes(Done, o.replyOk)
  }

  function Greeting(version: string, o: Opening): seq<ServerMessage> {
    if !Goes(Hello(version), o.helloOk) then []
    else if o.first == None || !Goes(FirstReply(o.first.value), o.replyOk) then [Hello(version)]
    else [Hello(version), FirstReply(o.first.value)]
  }

  datatype Receipt = Got(msg: ServerMessage) | Lagged(skipped: nat) | Waiting

  /** The broadcast: everything published; only the last messages can still be had. */
  class Channel {
    var log: seq<ServerMessage>

    method Publish(ms: seq<ServerMessage>)
      modifies this
      ensures log == old(log) + ms
    {
      log := log + ms;
    }
  }

  class Receiver {
    const channel: Channel
    var next: nat

    /** Starts behind everything published so far. */
    constructor (channel: Channel)
      ensures this.channel == channel && next == |channel.log|
    {
      this.channel := channel;
      next := |channel.log|;
    }

    method Receive() returns (r: Receipt)
      modifies this
      ensures if old(next) < Oldest(channel.log) then
                r == Lagged(Oldest(channel.log) - old(next)) && next == Oldest(channel.log)
              else if old(next) < |channel.log| then r == Got(channel.log[old(next)]) && next == old(next) + 1
              else r == Waiting && next == old(next)
    {
      if |channel.log| > CAPACITY && next < |channel.log| - CAPACITY {
        r := Lagged(|channel.log| - CAPACITY - next);
        next := |channel.log| - CAPACITY;
      } else if next < |channel.log| {
        r := Got(channel.log[next]);
        next := next + 1;
      } else {
        r := Waiting;
      }
    }
  }

  /** Handles one request on the rules directory. */
  method Answering(store: Store, m: ClientMessage, env: Env, stats: Stats)
    returns (reply: Option<ServerMessage>, ends: bool)
    modifies store
    ensures Response(store.dir, reply, ends) == Respond(old(store.dir), m, env, stats)
  {
    hide DenyResult, ToggleResult, RuleInfos;
    reply, ends := None, false;
    match m {
      case CreateDenyRule(exe, host, ip, _, kind) =>
        var r := store.WriteDenyRule(exe, host, ip, kind, env);
        reply := Some(match r case Ok(_) => Done case Err(text) => Error(text));
      case ListRules =>
        var infos := store.ListRuleInfos();
        reply := Some(Rules(infos));
      case SetRuleEnabled(id, enabled) =>
        var r := store.SetEnabled(id, enabled, env);
        reply := Some(match r case Ok(_) => Done case Err(text) => Error(text));
      case GetStats => reply := Some(StatsReply(stats));
      case Unsubscribe => ends := true;
      case Subscribe(_) =>
    }
  }

  /** One round of the loop; returns what was written and whether to go on. */
  method Round(store: Store, rx: Receiver, t: Turn, filter: Option<EventFilter>, out: seq<Output>)
    returns (out': seq<Output>, open: bool)
    modifies store, rx, rx.channel
    ensures Session(store.dir, rx.channel.log, rx.next, out', open)
         == TakeTurn(Session(old(store.dir), old(rx.channel.log), old(rx.next), out, true), t, filter)
  {
    hide Goes, Respond, MatchesFilter, Oldest;
    rx.channel.Publish(t.published);
    store.dir := t.edited.GetOr(store.dir);
    out', open := out, true;
    match t.incoming {
      case Request(m, env, stats) =>
        var reply, ends := Answering(store, m, env, stats);
        if reply == None {
          open := !ends;
        } else if Goes(reply.value, t.writeOk) {
          out' := out + [Answer(reply.value)];
        } else {
          open := false;
        }
      case Gone => open := false;
      case Quiet =>
        var r := rx.Receive();
        if r.Got? && MatchesFilter(r.msg, filter) {
          if Goes(r.msg, t.writeOk) {
            out' := out + [Relay(rx.next - 1, r.msg)];
          } else {
            open := false;
          }
        }
    }
  }

  /** One client, from the greeting until the connection ends or the schedule of
      rounds is over; returns what was written. */
  method HandleClient(version: string, store: Store, channel: Channel, o: Opening, turns: seq<Turn>)
    returns (greeting: seq<ServerMessage>, out: seq<Output>)
    modifies store, channel
    ensures greeting == Greeting(version, o)
    ensures !Subscribes(version, o) ==> out == [] && store.dir == old(store.dir) && channel.log == old(channel.log)
    ensures Subscribes(version, o) ==>
      var s := AfterTurns(Subscribed(old(store.dir), old(channel.log) + o.published), turns, o.first.value.filter);
      out == s.out && store.dir == s.dir && channel.log == s.log
  {
    hide TakeTurn, KindName, Goes;
    greeting, out := [], [];
    if !Goes(Hello(version), o.helloOk) {
      return;
    }
    greeting := [Hello(version)];
    if o.first == None {
      return;
    }
    if !o.first.value.Subscribe? {
      var refusal := Error("expected Subscribe, got \"" + KindName(o.first.value) + "\"");
      if Goes(refusal, o.replyOk) {
        greeting := greeting + [refusal];
      }
      return;
    }
    var filter := o.first.value.filter;
    if !Goes(Done, o.replyOk) {
      return;
    }
    greeting := greeting + [Done];
    channel.Publish(o.published);
    var rx := new Receiver(channel);
    ghost var start := Subscribed(store.dir, channel.log);
    for i := 0 to |turns|
      invariant rx.channel == channel && fresh(rx)
      invariant Session(store.dir, channel.log, rx.next, out, true) == AfterTurns(start, turns[..i], filter)
    {
      assert turns[..i + 1][..i] == turns[..i];
      var open;
      out, open := Round(store, rx, turns[i], filter, out);
      if !open {
        EndedStays(start, turns, i + 1, filter);
        return;
      }
    }
    assert turns[..|turns|] == turns;
  }

  lemma {:induction false} EndedStays(s: Session, ts: seq<Turn>, i: nat, filter: Option<EventFilter>)
    requires i <= |ts| && !AfterTurns(s, ts[..i], filter).open
    ensures AfterTurns(s, ts, filter) == AfterTurns(s, ts[..i], filter)
    decreases |ts|
  {
    if i == |ts| {
      assert ts[..i] == ts;
    } else {
      assert ts[..|ts| - 1][..i] == ts[..i];
      EndedStays(s, ts[..|ts| - 1], i, filter);
    }
  }

  // --- In words and numbers --------------------------------------------------------------------------------

  /** A part that is asked for stands somewhere in a text that is known. */
  ghost predicate Within(text: Option<string>, part: Option<string>) {
    part.Some? ==> text.Some? && exists front, rest :: text.value == front + part.value + rest
  }

  /** A filter lets through every message that is not an event, and of the events those
      whose path and host contain what it asks for. */
  lemma FilterMeans(m: ServerMessage, filter: Option<EventFilter>)
    ensures MatchesFilter(m, filter) <==>
      || !m.Event? || filter == None
      || (Within(m.event.exePath, filter.value.processPathContains)
          && Within(m.event.hostname, filter.value.hostContains))
  {
    hide Contains;
    if m.Event? && filter.Some? {
      PartWithin(m.event.exePath, filter.value.processPathContains);
      PartWithin(m.event.hostname, filter.value.hostContains);
    }
  }

  lemma PartWithin(text: Option<string>, part: Option<string>)
    ensures HasPart(text, part) <==> Within(text, part)
  {
    hide Contains;
    if text.Some? && part.Some? {
      PartOfText(text.value, part.value);
    }
  }

  /** The ring holds 1024 messages: what is lost to a waiting session are the messages
      between its place and the last 1024 when it next reads. */
  lemma OverwrittenMeans(s: Session, t: Turn, i: nat)
    ensures i in Overwritten(s, t) <==>
      s.open && t.incoming.Quiet? && s.cursor <= i && i + 1024 < |s.log| + |t.published|
  {
  }

  /** A message goes out when the link takes it and it is no larger than a mebibyte. */
  lemma GoesMeans(m: ServerMessage, writeOk: bool)
    ensures Goes(m, writeOk) <==> writeOk && |MessageCodec.EncServer(m, [])| <= 1_048_576
  {
    hide MessageCodec.EncServer;
  }

  /** A request changes the directory whether or not its reply can be written; the reply
      is written if it goes out, and otherwise the session ends. */
  lemma RequestTurn(s: Session, t: Turn, filter: Option<EventFilter>)
    requires s.open && t.incoming.Request?
    ensures var after := TakeTurn(s, t, filter);
      var dir := if t.edited.Some? then t.edited.value else s.dir;
      var r := Respond(dir, t.incoming.msg, t.incoming.env, t.incoming.stats);
      var written := r.reply.Some? && Goes(r.reply.value, t.writeOk);
      && after.dir == r.dir && after.log == s.log + t.published && after.cursor == s.cursor
      && after.out == s.out + (if written then [Answer(r.reply.value)] else [])
      && (after.open <==> if r.reply.Some? then written else !r.ends)
  {
    hide Respond, Goes;
  }

  /** A quiet round takes the next message of the broadcast, if the ring still holds it;
      it is written if it passes the filter and goes out, passed over if it does not
      pass, and ends the session if it cannot go out. A session that fell behind is
      moved to the oldest message held. */
  lemma QuietTurn(s: Session, t: Turn, filter: Option<EventFilter>)
    requires s.open && t.incoming.Quiet?
    ensures var after := TakeTurn(s, t, filter); var log := s.log + t.published;
      && after.dir == (if t.edited.Some? then t.edited.value else s.dir) && after.log == log
      && if s.cursor + 1024 < |log| then after.cursor == |log| - 1024 && after.out == s.out && after.open
         else if s.cursor >= |log| then after.cursor == s.cursor && after.out == s.out && after.open
         else
           && after.cursor == s.cursor + 1
           && (after.open <==> (MatchesFilter(log[s.cursor], filter) ==> Goes(log[s.cursor], t.writeOk)))
           && after.out == s.out + if MatchesFilter(log[s.cursor], filter) && after.open
                                   then [Relay(s.cursor, log[s.cursor])] else []
  {
    hide MatchesFilter, Goes;
  }

  /** The greeting is the version and then the acknowledgement of a subscription or its
      refusal, which quotes the kind of message that came instead. */
  lemma GreetingMeans(version: string, o: Opening)
    requires Goes(Hello(version), o.helloOk) && o.first.Some?
    ensures var reply := FirstReply(o.first.value);
      && Greeting(version, o) == (if Goes(reply, o.replyOk) then [Hello(version), reply] else [Hello(version)])
      && (o.first.value.Subscribe? ==> reply == Done)
      && (!o.first.value.Subscribe? ==> reply == Error("expected Subscribe, got \"" + KindName(o.first.value) + "\""))
  {
    hide Goes, KindName;
  }

  lemma KindNames(m: ClientMessage)
    ensures KindName(m) ==
      if m.Subscribe? then "Subscribe" else if m.Unsubscribe? then "Unsubscribe"
      else if m.CreateDenyRule? then "CreateDenyRule" else if m.ListRules? then "ListRules"
      else if m.SetRuleEnabled? then "SetRuleEnabled" else "GetStats"
  {
  }
}
