/** The running client: the application object, updated in place by messages,
    keys and the timer. */
module TuiClient {
  import opened Base
  import opened Proto
  import opened TuiApp
  import opened TuiKeys
  import MessageCodec

  // --- One round of the event loop --------------------------------------------------------

  /** How editing a rule file ended; the texts come from the editor. */
  datatype EditOutcome = Edited | EditorFailed(text: string) | TerminalLost

  /** What wakes the loop. A write to the daemon may fail; reading may find the link gone. */
  datatype Wake =
    | Received(msg: ServerMessage, writeOk: bool)
    | LinkLost
    | Pressed(input: Input, outcome: EditOutcome, writeOk: bool)
    | Ticked(writeOk: bool)

  /** The client between two wakes; once closed it stays as it is. */
  datatype Session = Session(app: AppState, ticks: nat, sent: seq<ClientMessage>, open: bool)

  /** What a key does: the new state, a request to send, and whether to go on. */
  function OnKey(app: AppState, input: Input, outcome: EditOutcome, lower: Lower)
    : (AppState, Option<ClientMessage>, bool)
  {
    var (after, action) := HandleInput(app, input, lower);
    match action
    case Quit => (after, None, false)
    case Send(m) => (after, Some(m), true)
    case EditRule(_) =>
      (match outcome
       case Edited => (after.(lastAck := Some("edited; reloading rules"), lastAckIsError := false), Some(ListRules),
         true)
       case EditorFailed(text) => (after.(lastAck := Some(text), lastAckIsError := true), Some(ListRules), true)
       case TerminalLost => (after, None, false))
    case Nothing => (after, None, true)
  }

  function Effect(app: AppState, ticks: nat, w: Wake, lower: Lower): (AppState, Option<ClientMessage>, bool) {
    match w
    case Received(m, _) => (OnMessage(app, m).0, OnMessage(app, m).1, true)
    case LinkLost => (app.(connected := false), None, false)
    case Pressed(input, outcome, _) => OnKey(app, input, outcome, lower)
    case Ticked(_) => (app, OnTick(app, ticks), true)
  }

  /** Whether a request goes out: the link must take it, and it must fit a frame. */
  predicate Goes(m: ClientMessage, writeOk: bool) {
    writeOk && MessageCodec.ClientFits(m)
  }

  function Wakes(s: Session, w: Wake, lower: Lower): Session {
    if !s.open then s
    else
      var ticks := if w.Ticked? then s.ticks + 1 else s.ticks;
      var (app, request, go) := Effect(s.app, ticks, w, lower);
      match request
      case None => Session(app, ticks, s.sent, go)
      case Some(m) =>
        if Goes(m, w.writeOk) then Session(app, ticks, s.sent + [m], go)
        else Session(app.(connected := false), ticks, s.sent, false)
  }

  function AfterWakes(s: Session, ws: seq<Wake>, lower: Lower): Session {
    if ws == [] then s else Wakes(AfterWakes(s, ws[..|ws| - 1], lower), ws[|ws| - 1], lower)
  }

  // --- The object -----------------------------------------------------------------------------

  class App {
    var view: View
    var events: seq<Row>
    var selected: Option<nat>
    var follow: bool
    var filter: string
    var filterMode: bool
    var modal: Option<EnrichedEvent>
    var rules: seq<RuleInfo>
    var rulesSelected: Option<nat>
    var stats: Option<Stats>
    var lastAck: Option<string>
    var lastAckIsError: bool
    var connected: bool
    const lower: Lower

    ghost function State(): AppState
      reads this
    {
      AppState(view, events, selected, follow, filter, filterMode, modal, rules, rulesSelected, stats,
               lastAck, lastAckIsError, connected)
    }

    constructor (lower: Lower)
      ensures State() == START && this.lower == lower
    {
      view, events, selected, follow, filter, filterMode, modal := Live, [], None, true, "", false, None;
      rules, rulesSelected, stats, lastAck, lastAckIsError, connected := [], None, None, None, false, true;
      this.lower := lower;
    }

    // --- The live view -----------------------------------------------------------------------

    /** Counts the event on the row of its flow, or adds a row and evicts the oldest. */
    method Push(e: EnrichedEvent)
      modifies this`events
      ensures events == PushRow(old(events), e)
    {
      hide KeyOf;
      var key := KeyOf(e);
      FindRowFinds(events, key);
      for i := 0 to |events|
        invariant events == old(events)
        invariant forall j :: 0 <= j < i ==> KeyOf(events[j].event) != key
      {
        if KeyOf(events[i].event) == key {
          events := events[i := Row(e, (events[i].count + 1) % 0x1_0000_0000, e.tsUnixNs)];
          return;
        }
      }
      if |events| == MAX_EVENTS {
        events := events[1..];
      }
      events := events + [Row(e, 1, e.tsUnixNs)];
    }

    /** The positions of the rows that the filter shows. */
    method VisibleRows() returns (indices: seq<nat>)
      ensures indices == FilteredIndices(State(), lower)
    {
      hide EventMatches;
      var needle := lower(filter);
      ghost var shown := Shown(State(), lower);
      indices := [];
      for i := 0 to |events|
        invariant indices == Where(shown, i)
      {
        if filter == "" || EventMatches(events[i].event, needle, lower) {
          indices := indices + [i];
        }
      }
    }

    method Scroll(delta: int)
      modifies this
      ensures State() == TuiApp.Scroll(old(State()), delta, lower)
    {
      hide FilteredIndices;
      var indices := VisibleRows();
      if indices == [] {
        selected := None;
        return;
      }
      var current := |indices| - 1;
      if selected.Some? && Position(indices, selected.value).Some? {
        current := Position(indices, selected.value).value;
      }
      var pos := Clamp(current + delta, |indices| - 1);
      selected := Some(indices[pos]);
      follow := pos == |indices| - 1;
    }

    method JumpToEnd()
      modifies this
      ensures State() == TuiApp.JumpToEnd(old(State()), lower)
    {
      hide FilteredIndices;
      var indices := VisibleRows();
      if indices != [] {
        selected := Some(indices[|indices| - 1]);
      }
      follow := true;
    }

    method JumpToStart()
      modifies this
      ensures State() == TuiApp.JumpToStart(old(State()), lower)
    {
      hide FilteredIndices;
      var indices := VisibleRows();
      if indices != [] {
        selected := Some(indices[0]);
      }
      follow := false;
    }

    /** Marks at once every row that looks like the target. */
    method OptimisticallyDeny(target: EnrichedEvent, kind: DenyRuleKind)
      modifies this`events
      ensures events == MarkRows(old(events), target, kind)
    {
      hide IpString;
      var targetIp := IpString(target);
      MarkRowsAt(events, target, kind);
      for i := 0 to |events|
        invariant |events| == |old(events)|
        invariant forall j :: 0 <= j < i ==> events[j] == MarkRow(old(events)[j], target, kind)
        invariant forall j :: i <= j < |events| ==> events[j] == old(events)[j]
      {
        var e := events[i].event;
        var hit := match kind
          case Host => e.hostname == target.hostname
          case Process => e.exePath == target.exePath
          case Ip => IpString(e) == targetIp
          case Both => e.hostname == target.hostname && e.exePath == target.exePath;
        if hit {
          e := e.(verdict := Deny);
          if e.matchedRule == None {
            e := e.(matchedRule := Some("(pending)"));
          }
          events := events[i := events[i].(event := e)];
        }
      }
    }

    // --- The rules view ------------------------------------------------------------------------

    method SetRules(list: seq<RuleInfo>)
      modifies this
      ensures State() == TuiApp.SetRules(old(State()), list)
    {
      rules := list;
      if rules == [] {
        rulesSelected := None;
      } else {
        var sel := rulesSelected.GetOr(0);
        rulesSelected := Some(if sel <= |rules| - 1 then sel else |rules| - 1);
      }
    }

    method RulesScroll(delta: int)
      modifies this
      ensures State() == TuiApp.RulesScroll(old(State()), delta)
    {
      if rules == [] {
        rulesSelected := None;
        return;
      }
      rulesSelected := Some(Clamp(rulesSelected.GetOr(0) + delta, |rules| - 1));
    }

    method SwitchTo(v: View) returns (action: InputAction)
      modifies this
      ensures (State(), action) == TuiApp.SwitchTo(old(State()), v)
    {
      view := v;
      match v {
        case Live => action := Nothing;
        case RulesView => action := Send(ListRules);
        case StatsView => action := Send(GetStats);
      }
    }

    // --- Keys --------------------------------------------------------------------------------------

    method HandleInput(input: Input) returns (action: InputAction)
      modifies this
      ensures (State(), action) == TuiApp.HandleInput(old(State()), input, lower)
      ensures old(modal).Some? && input.Key? && input.press && !(input.code == Char('c') && input.control) ==>
        PromptAnswer(old(modal).value, input.code, action)
    {
      if modal.Some? && input.Key? && input.press && !(input.code == Char('c') && input.control) {
        PromptKeys(State(), modal.value, input.code, input.control, lower);
      }
      hide LiveInput, RulesInput, ModalInput, FilterInput, PromptAnswer, KindAsked;
      if input.NotAKey? || !input.press {
        return Nothing;
      }
      if input.code == Char('c') && input.control {
        return Quit;
      }
      if modal.Some? {
        action := HandleModalInput(input.code);
        return;
      }
      if filterMode {
        HandleFilterInput(input.code);
        return Nothing;
      }
      if input.code == Tab {
        action := SwitchTo(NextView(view));
        return;
      }
      if input.code == Char('1') {
        action := SwitchTo(Live);
        return;
      }
      if input.code == Char('2') {
        action := SwitchTo(RulesView);
        return;
      }
      if input.code == Char('3') {
        action := SwitchTo(StatsView);
        return;
      }
      if input.code == Char('q') {
        return Quit;
      }
      match view {
        case Live =>
          HandleLiveInput(input.code);
          action := Nothing;
        case RulesView =>
          action := HandleRulesInput(input.code);
        case StatsView =>
          action := if input.code == Char('r') then Send(GetStats) else Nothing;
      }
    }

    method HandleLiveInput(code: KeyCode)
      modifies this
      ensures State() == LiveInput(old(State()), code, lower)
    {
      hide TuiApp.Scroll, TuiApp.JumpToEnd, TuiApp.JumpToStart;
      match code {
        case Up => Scroll(-1);
        case Down => Scroll(1);
        case PageUp => Scroll(-20);
        case PageDown => Scroll(20);
        case Home => JumpToStart();
        case End => JumpToEnd();
        case Char(c) =>
          if c == 'G' {
            JumpToEnd();
          } else if c == '/' {
            filter, filterMode := "", true;
          } else if c == 'd' {
            if selected.Some? && selected.value < |events| {
              modal := Some(events[selected.value].event);
            }
          }
        case _ =>
      }
    }

    method HandleRulesInput(code: KeyCode) returns (action: InputAction)
      modifies this
      ensures (State(), action) == RulesInput(old(State()), code)
    {
      hide TuiApp.RulesScroll;
      action := Nothing;
      match code {
        case Up => RulesScroll(-1);
        case Down => RulesScroll(1);
        case Char(c) =>
          var rule := if rulesSelected.Some? && rulesSelected.value < |rules| then Some(rules[rulesSelected.value])
            else None;
          if c == 'r' {
            action := Send(ListRules);
          } else if (c == 't' || c == ' ') && rule.Some? {
            action := Send(SetRuleEnabled(rule.value.id, !rule.value.enabled));
          } else if c == 'e' && rule.Some? {
            action := EditRule(rule.value.path);
          }
        case _ =>
      }
    }

    /** The deny prompt; the event was picked when the prompt was opened. */
    method HandleModalInput(code: KeyCode) returns (action: InputAction)
      requires modal.Some?
      modifies this
      ensures (State(), action) == ModalInput(old(State()), old(modal.value), code)
    {
      hide MarkRows, RuleMessage;
      var target := modal.value;
      action := Nothing;
      match code {
        case Esc => modal := None;
        case Char(c) =>
          var kind := DenyKindOf(c, target);
          if kind.Some? {
            modal := None;
            OptimisticallyDeny(target, kind.value);
            action := Send(RuleMessage(target, kind.value));
          }
        case _ =>
      }
    }

    method HandleFilterInput(code: KeyCode)
      modifies this
      ensures State() == FilterInput(old(State()), code)
    {
      match code {
        case Esc => filter, filterMode := "", false;
        case Enter => filterMode := false;
        case Backspace =>
          if filter != "" {
            filter := filter[..|filter| - 1];
          }
        case Char(c) => filter := filter + [c];
        case _ =>
      }
    }

    // --- The event loop -------------------------------------------------------------------------------

    /** Takes in one message; some call for a request in return. */
    method HandleMessage(m: ServerMessage) returns (request: Option<ClientMessage>)
      modifies this
      ensures (State(), request) == OnMessage(old(State()), m)
    {
      hide PushRow, TuiApp.SetRules;
      request := None;
      match m {
        case Event(e) =>
          Push(e);
          if follow && events != [] {
            selected := Some(|events| - 1);
          }
        case Hello(_) =>
        case Rules(list) => SetRules(list);
        case StatsReply(s) => stats := Some(s);
        case Done =>
          lastAck, lastAckIsError := Some("ok"), false;
          if view == RulesView {
            request := Some(ListRules);
          }
        case Error(text) => lastAck, lastAckIsError := Some(text), true;
      }
    }

    method HandleKey(input: Input, outcome: EditOutcome) returns (request: Option<ClientMessage>, go: bool)
      modifies this
      ensures (State(), request, go) == OnKey(old(State()), input, outcome, lower)
    {
      hide TuiApp.HandleInput;
      var action := HandleInput(input);
      request, go := None, true;
      match action {
        case Quit => go := false;
        case Send(m) => request := Some(m);
        case EditRule(_) =>
          match outcome {
            case Edited =>
              lastAck, lastAckIsError := Some("edited; reloading rules"), false;
              request := Some(ListRules);
            case EditorFailed(text) =>
              lastAck, lastAckIsError := Some(text), true;
              request := Some(ListRules);
            case TerminalLost => go := false;
          }
        case Nothing =>
      }
    }

    /** Runs until the user quits or the link is lost; returns what was sent. */
    method Run(wakes: seq<Wake>) returns (sent: seq<ClientMessage>, ticks: nat, open: bool)
      modifies this
      ensures Session(State(), ticks, sent, open) == AfterWakes(Session(old(State()), 0, [], true), wakes, lower)
    {
      hide OnMessage, OnKey, Goes;
      sent, ticks, open := [], 0, true;
      ghost var start := Session(State(), 0, [], true);
      for i := 0 to |wakes|
        invariant open && Session(State(), ticks, sent, open) == AfterWakes(start, wakes[..i], lower)
      {
        assert wakes[..i + 1][..i] == wakes[..i];
        var request := None;
        match wakes[i] {
          case Received(m, _) =>
            request := HandleMessage(m);
          case LinkLost =>
            connected, open := false, false;
          case Pressed(input, outcome, _) =>
            request, open := HandleKey(input, outcome);
          case Ticked(_) =>
            ticks := ticks + 1;
            request := if view == StatsView && ticks % 10 == 0 then Some(GetStats) else None;
        }
        if request.Some? {
          if Goes(request.value, wakes[i].writeOk) {
            sent := sent + [request.value];
          } else {
            connected, open := false, false;
          }
        }
        assert Session(State(), ticks, sent, open) == AfterWakes(start, wakes[..i + 1], lower);
        if !open {
          ClosedStays(start, wakes, i + 1, lower);
          return;
        }
      }
      assert wakes[..|wakes|] == wakes;
    }
  }

  /** After it has stopped, further wakes do nothing. */
  lemma {:induction false} ClosedStays(s: Session, ws: seq<Wake>, i: nat, lower: Lower)
    requires i <= |ws| && !AfterWakes(s, ws[..i], lower).open
    ensures AfterWakes(s, ws, lower) == AfterWakes(s, ws[..i], lower)
    decreases |ws|
  {
    if i == |ws| {
      assert ws[..i] == ws;
    } else {
      assert ws[..|ws| - 1][..i] == ws[..i];
      ClosedStays(s, ws[..|ws| - 1], i, lower);
    }
  }

  // --- What every run of the client keeps ---------------------------------------------------------

  /** Selections point at something, the prompts belong to the live view and exclude
      each other, and the rows are bounded. */
  ghost predicate Consistent(app: AppState) {
    && (app.ruleSelected.Some? <==> app.rules != [])
    && (app.ruleSelected.Some? ==> app.ruleSelected.value < |app.rules|)
    && (app.selected.Some? ==> app.selected.value < |app.rows|)
    && (app.modal.Some? || app.filterMode ==> app.view == Live)
    && !(app.modal.Some? && app.filterMode)
    && |app.rows| <= MAX_EVENTS
  }

  lemma MovesConsistent(app: AppState, delta: int, lower: Lower)
    requires Consistent(app)
    ensures Consistent(TuiApp.Scroll(app, delta, lower))
    ensures Consistent(TuiApp.JumpToStart(app, lower)) && Consistent(TuiApp.JumpToEnd(app, lower))
  {
    hide Shown, Position;
    WhereHolds(Shown(app, lower), |app.rows|);
  }

  lemma LiveInputConsistent(app: AppState, code: KeyCode, lower: Lower)
    requires Consistent(app) && app.view == Live && app.modal == None && !app.filterMode
    ensures Consistent(LiveInput(app, code, lower))
  {
    hide TuiApp.Scroll, TuiApp.JumpToStart, TuiApp.JumpToEnd;
    MovesConsistent(app, -1, lower);
    MovesConsistent(app, 1, lower);
    MovesConsistent(app, -20, lower);
    MovesConsistent(app, 20, lower);
  }

  lemma RulesInputConsistent(app: AppState, code: KeyCode)
    requires Consistent(app)
    ensures Consistent(RulesInput(app, code).0)
  {
  }

  lemma ModalInputConsistent(app: AppState, target: EnrichedEvent, code: KeyCode)
    requires Consistent(app)
    ensures Consistent(ModalInput(app, target, code).0)
  {
    hide MarkRow, RuleMessage;
    forall kind {
      MarkRowsAt(app.rows, target, kind);
    }
  }

  lemma ViewInputConsistent(app: AppState, code: KeyCode, lower: Lower)
    requires Consistent(app) && app.modal == None && !app.filterMode
    ensures Consistent(ViewInput(app, code, lower).0)
  {
    hide LiveInput, RulesInput;
    match app.view
    case Live => LiveInputConsistent(app, code, lower);
    case RulesView => RulesInputConsistent(app, code);
    case StatsView =>
  }

  lemma FilterInputConsistent(app: AppState, code: KeyCode)
    requires Consistent(app) && app.filterMode
    ensures Consistent(FilterInput(app, code))
  {
  }

  lemma InputConsistent(app: AppState, input: Input, lower: Lower)
    requires Consistent(app)
    ensures Consistent(TuiApp.HandleInput(app, input, lower).0)
  {
    hide ViewInput, ModalInput, FilterInput;
    if input.Key? {
      if app.modal.Some? {
        ModalInputConsistent(app, app.modal.value, input.code);
      } else if app.filterMode {
        FilterInputConsistent(app, input.code);
      } else {
        ViewInputConsistent(app, input.code, lower);
      }
    }
  }

  lemma MessageConsistent(app: AppState, m: ServerMessage)
    requires Consistent(app)
    ensures Consistent(OnMessage(app, m).0) && OnMessage(app, m).0.connected == app.connected
  {
    hide KeyOf, FindRow;
  }

  lemma KeyConsistent(app: AppState, input: Input, outcome: EditOutcome, lower: Lower)
    requires Consistent(app)
    ensures var (after, _, _) := OnKey(app, input, outcome, lower);
      Consistent(after) && after.connected == app.connected
  {
    hide TuiApp.HandleInput;
    InputConsistent(app, input, lower);
    EnteringRulesAsks(app, input, lower);
  }

  lemma WakeConsistent(s: Session, w: Wake, lower: Lower)
    requires Consistent(s.app) && (s.open ==> s.app.connected)
    ensures var after := Wakes(s, w, lower); Consistent(after.app) && (after.open ==> after.app.connected)
  {
    hide OnKey, OnMessage, Goes;
    match w
    case Received(m, _) => MessageConsistent(s.app, m);
    case Pressed(input, outcome, _) => KeyConsistent(s.app, input, outcome, lower);
    case _ =>
  }

  /** After any messages, keys and ticks: the selected row and rule exist, a rule is
      selected whenever there is one, the deny prompt and the filter prompt are
      only open in the live view and not both, and a client that still runs shows
      itself as connected. */
  lemma {:induction false} ClientStaysConsistent(ws: seq<Wake>, lower: Lower)
    ensures var s := AfterWakes(Session(START, 0, [], true), ws, lower);
      Consistent(s.app) && (s.open ==> s.app.connected)
  {
    hide Wakes, Consistent;
    if ws == [] {
      StartConsistent();
    } else {
      ClientStaysConsistent(ws[..|ws| - 1], lower);
      WakeConsistent(AfterWakes(Session(START, 0, [], true), ws[..|ws| - 1], lower), ws[|ws| - 1], lower);
    }
  }

  lemma StartConsistent()
    ensures Consistent(START)
  {
  }

  // --- From a key to the wire -------------------------------------------------------------------

  /** Quitting ends the loop, a request goes on its way, and after the editor the list
      is asked for again, with a note of how editing went; a terminal that is lost ends
      the loop. */
  lemma KeyOutcomes(app: AppState, input: Input, outcome: EditOutcome, lower: Lower)
    ensures var (after, action) := TuiApp.HandleInput(app, input, lower);
      OnKey(app, input, outcome, lower) ==
        if action == Quit then (after, None, false)
        else if action == Nothing then (after, None, true)
        else if action.Send? then (after, Some(action.msg), true)
        else if outcome == Edited then
          (after.(lastAck := Some("edited; reloading rules"), lastAckIsError := false), Some(ListRules), true)
        else if outcome.EditorFailed? then
          (after.(lastAck := Some(outcome.text), lastAckIsError := true), Some(ListRules), true)
        else (after, None, false)
  {
    hide TuiApp.HandleInput;
  }

  /** A request is sent when the link takes it and it is no larger than a mebibyte;
      otherwise the client shows the link as gone and stops, as it does when reading
      fails. A client that has stopped does nothing more. */
  lemma WakesMean(s: Session, w: Wake, lower: Lower)
    ensures var after := Wakes(s, w, lower);
      if !s.open then after == s
      else
        var ticks := if w.Ticked? then s.ticks + 1 else s.ticks;
        var (app, request, go) :=
          match w
          case Received(m, _) => (OnMessage(s.app, m).0, OnMessage(s.app, m).1, true)
          case LinkLost => (s.app.(connected := false), None, false)
          case Pressed(input, outcome, _) => OnKey(s.app, input, outcome, lower)
          case Ticked(_) => (s.app, OnTick(s.app, ticks), true);
        after ==
          if request == None then Session(app, ticks, s.sent, go)
          else if w.writeOk && |MessageCodec.EncClient(request.value, [])| <= 1_048_576 then
            Session(app, ticks, s.sent + [request.value], go)
          else Session(app.(connected := false), ticks, s.sent, false)
  {
    hide OnMessage, OnKey, OnTick, MessageCodec.EncClient;
  }
}
