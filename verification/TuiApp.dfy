/** The terminal client's state and how input changes it. */
module TuiApp {
  import opened Base
  import opened Addresses
  import opened Proto

  const MAX_EVENTS: nat := 10_000

  datatype View = Live | RulesView | StatsView

  /** One row of the live view: the latest event of a flow and how often it came. */
  datatype Row = Row(event: EnrichedEvent, count: u32, lastTs: u64)

  datatype AggKey = AggKey(pid: u32, comm: string, exe: string, hostOrIp: string, port: u16)

  function FormatAddr(e: EnrichedEvent): string {
    if e.family == 4 then V4Text(WordBytes(e.daddrV4)) else "[" + V6Text(e.daddrV6) + "]"
  }

  function KeyOf(e: EnrichedEvent): AggKey {
    AggKey(e.pid, e.comm, e.exePath.GetOr(""), if e.hostname.Some? then e.hostname.value else FormatAddr(e), e.dport)
  }

  // --- Rows ---------------------------------------------------------------------------

  function FindRow(rows: seq<Row>, key: AggKey): (i: Option<nat>)
    ensures i.Some? ==> i.value < |rows|
  {
    if rows == [] then None
    else if KeyOf(rows[0].event) == key then Some(0)
    else match FindRow(rows[1..], key)
      case None => None
      case Some(k) => Some(k + 1)
  }

  lemma {:induction false} FindRowFinds(rows: seq<Row>, key: AggKey)
    ensures match FindRow(rows, key)
      case Some(i) => KeyOf(rows[i].event) == key && forall j :: 0 <= j < i ==> KeyOf(rows[j].event) != key
      case None => forall j :: 0 <= j < |rows| ==> KeyOf(rows[j].event) != key
  {
    hide KeyOf;
    if rows != [] {
      FindRowFinds(rows[1..], key);
      assert forall j :: 0 < j < |rows| ==> rows[j] == rows[1..][j - 1];
    }
  }

  /** Counts are 32 bits wide and wrap. */
  function PushRow(rows: seq<Row>, e: EnrichedEvent): seq<Row> {
    match FindRow(rows, KeyOf(e))
    case Some(i) => rows[i := Row(e, (rows[i].count + 1) % 0x1_0000_0000, e.tsUnixNs)]
    case None => (if |rows| == MAX_EVENTS then rows[1..] else rows) + [Row(e, 1, e.tsUnixNs)]
  }

  /** Which rows are marked as denied before the daemon has answered. */
  predicate Marks(row: EnrichedEvent, target: EnrichedEvent, kind: DenyRuleKind) {
    match kind
    case Host => row.hostname == target.hostname
    case Process => row.exePath == target.exePath
    case Ip => IpString(row) == IpString(target)
    case Both => row.hostname == target.hostname && row.exePath == target.exePath
  }

  function MarkRow(row: Row, target: EnrichedEvent, kind: DenyRuleKind): Row {
    if Marks(row.event, target, kind) then
      row.(event := row.event.(verdict := Deny,
                               matchedRule := if row.event.matchedRule == None then Some("(pending)")
                                 else row.event.matchedRule))
    else row
  }

  function MarkRows(rows: seq<Row>, target: EnrichedEvent, kind: DenyRuleKind): seq<Row> {
    if rows == [] then [] else [MarkRow(rows[0], target, kind)] + MarkRows(rows[1..], target, kind)
  }

  lemma {:induction false} MarkRowsAt(rows: seq<Row>, target: EnrichedEvent, kind: DenyRuleKind)
    ensures |MarkRows(rows, target, kind)| == |rows|
    ensures forall i :: 0 <= i < |rows| ==> MarkRows(rows, target, kind)[i] == MarkRow(rows[i], target, kind)
  {
    if rows != [] {
      MarkRowsAt(rows[1..], target, kind);
    }
  }

  // --- The whole state ------------------------------------------------------------------

  datatype AppState = AppState(
    view: View,
    rows: seq<Row>, selected: Option<nat>, follow: bool,
    filter: string, filterMode: bool, modal: Option<EnrichedEvent>,
    rules: seq<RuleInfo>, ruleSelected: Option<nat>,
    stats: Option<Stats>,
    lastAck: Option<string>, lastAckIsError: bool,
    connected: bool)

  const START := AppState(Live, [], None, true, "", false, None, [], None, None, None, false, true)

  /** Lower-casing of Unicode text is a parameter. */
  type Lower = string -> string

  function EventMatches(e: EnrichedEvent, needle: string, lower: Lower): bool {
    Contains(
      lower(e.comm) + " "
      + (if e.exePath.Some? then lower(e.exePath.value) + " " else "")
      + (if e.hostname.Some? then lower(e.hostname.value) + " " else "")
      + FormatAddr(e), needle)
  }

  /** Which rows the filter shows. */
  function Shown(app: AppState, lower: Lower): nat -> bool {
    (i: nat) => i < |app.rows| && (app.filter == "" || EventMatches(app.rows[i].event, lower(app.filter), lower))
  }

  /** The numbers below n that satisfy p, in ascending order. */
  function Where(p: nat -> bool, n: nat): seq<nat> {
    if n == 0 then []
    else if p(n - 1) then Where(p, n - 1) + [n - 1]
    else Where(p, n - 1)
  }

  function FilteredIndices(app: AppState, lower: Lower): seq<nat> {
    Where(Shown(app, lower), |app.rows|)
  }

  function Position(s: seq<nat>, x: nat): (i: Option<nat>)
    ensures i.Some? ==> i.value < |s| && s[i.value] == x
  {
    if s == [] then None
    else if s[0] == x then Some(0)
    else match Position(s[1..], x)
      case None => None
      case Some(k) => Some(k + 1)
  }

  function Clamp(x: int, high: nat): nat {
    if x < 0 then 0 else if x > high then high else x
  }

  function Scroll(app: AppState, delta: int, lower: Lower): AppState {
    var indices := FilteredIndices(app, lower);
    if indices == [] then app.(selected := None)
    else
      var found := if app.selected.Some? then Position(indices, app.selected.value) else None;
      var current := found.GetOr(|indices| - 1);
      var pos := Clamp(current + delta, |indices| - 1);
      app.(selected := Some(indices[pos]), follow := pos == |indices| - 1)
  }

  function JumpToEnd(app: AppState, lower: Lower): AppState {
    var indices := FilteredIndices(app, lower);
    app.(selected := if indices == [] then app.selected else Some(indices[|indices| - 1]), follow := true)
  }

  function JumpToStart(app: AppState, lower: Lower): AppState {
    var indices := FilteredIndices(app, lower);
    app.(selected := if indices == [] then app.selected else Some(indices[0]), follow := false)
  }

  function SetRules(app: AppState, rules: seq<RuleInfo>): AppState {
    app.(rules := rules,
         ruleSelected := if rules == [] then None else Some(Clamp(app.ruleSelected.GetOr(0), |rules| - 1)))
  }

  function RulesScroll(app: AppState, delta: int): AppState {
    app.(ruleSelected := if app.rules == [] then None
      else Some(Clamp(app.ruleSelected.GetOr(0) + delta, |app.rules| - 1)))
  }

  function SelectedEvent(app: AppState): Option<EnrichedEvent> {
    if app.selected.Some? && app.selected.value < |app.rows| then Some(app.rows[app.selected.value].event) else None
  }

  function SelectedRule(app: AppState): Option<RuleInfo> {
    if app.ruleSelected.Some? && app.ruleSelected.value < |app.rules| then Some(app.rules[app.ruleSelected.value])
      else None
  }

  // --- Input --------------------------------------------------------------------------------

  datatype KeyCode =
    | Tab | Esc | Enter | Backspace | Up | Down | PageUp | PageDown | Home | End
    | Char(c: char) | OtherKey
  datatype Input = Key(code: KeyCode, control: bool, press: bool) | NotAKey
  datatype InputAction = Nothing | Quit | Send(msg: ClientMessage) | EditRule(path: string)

  function RuleMessage(e: EnrichedEvent, kind: DenyRuleKind): ClientMessage {
    CreateDenyRule(e.exePath, e.hostname, Some(IpString(e)), e.dport, kind)
  }

  function SwitchTo(app: AppState, view: View): (AppState, InputAction) {
    (app.(view := view),
     match view case Live => Nothing case RulesView => Send(ListRules) case StatsView => Send(GetStats))
  }

  function NextView(v: View): View {
    match v
    case Live => RulesView
    case RulesView => StatsView
    case StatsView => Live
  }

  function DenyKindOf(c: char, target: EnrichedEvent): Option<DenyRuleKind> {
    if c == 'h' && target.hostname.Some? then Some(Host)
    else if c == 'p' && target.exePath.Some? then Some(Process)
    else if c == 'i' then Some(Ip)
    else if c == 'b' && target.hostname.Some? && target.exePath.Some? then Some(Both)
    else None
  }

  function ModalInput(app: AppState, target: EnrichedEvent, code: KeyCode): (AppState, InputAction) {
    match code
    case Esc => (app.(modal := None), Nothing)
    case Char(c) =>
      (match DenyKindOf(c, target)
       case Some(kind) => (app.(modal := None, rows := MarkRows(app.rows, target, kind)),
         Send(RuleMessage(target, kind)))
       case None => (app, Nothing))
    case _ => (app, Nothing)
  }

  function FilterInput(app: AppState, code: KeyCode): AppState {
    match code
    case Esc => app.(filter := "", filterMode := false)
    case Enter => app.(filterMode := false)
    case Backspace => app.(filter := if app.filter == "" then "" else app.filter[..|app.filter| - 1])
    case Char(c) => app.(filter := app.filter + [c])
    case _ => app
  }

  function LiveInput(app: AppState, code: KeyCode, lower: Lower): AppState {
    match code
    case Up => Scroll(app, -1, lower)
    case Down => Scroll(app, 1, lower)
    case PageUp => Scroll(app, -20, lower)
    case PageDown => Scroll(app, 20, lower)
    case Home => JumpToStart(app, lower)
    case End => JumpToEnd(app, lower)
    case Char(c) =>
      if c == 'G' then JumpToEnd(app, lower)
      else if c == '/' then app.(filter := "", filterMode := true)
      else if c == 'd' && SelectedEvent(app).Some? then app.(modal := SelectedEvent(app))
      else app
    case _ => app
  }

  function RulesInput(app: AppState, code: KeyCode): (AppState, InputAction) {
    match code
    case Up => (RulesScroll(app, -1), Nothing)
    case Down => (RulesScroll(app, 1), Nothing)
    case Char(c) =>
      (app,
       if c == 'r' then Send(ListRules)
       else if (c == 't' || c == ' ') && SelectedRule(app).Some? then
         Send(SetRuleEnabled(SelectedRule(app).value.id, !SelectedRule(app).value.enabled))
       else if c == 'e' && SelectedRule(app).Some? then EditRule(SelectedRule(app).value.path)
       else Nothing)
    case _ => (app, Nothing)
  }

  function ViewInput(app: AppState, code: KeyCode, lower: Lower): (AppState, InputAction) {
    match app.view
    case Live => (LiveInput(app, code, lower), Nothing)
    case RulesView => RulesInput(app, code)
    case StatsView => (app, if code == Char('r') then Send(GetStats) else Nothing)
  }

  function HandleInput(app: AppState, input: Input, lower: Lower): (AppState, InputAction) {
    if input.NotAKey? || !input.press then (app, Nothing)
    else if input.code == Char('c') && input.control then (app, Quit)
    else if app.modal.Some? then ModalInput(app, app.modal.value, input.code)
    else if app.filterMode then (FilterInput(app, input.code), Nothing)
    else match input.code
      case Tab => SwitchTo(app, NextView(app.view))
      case Char(c) =>
        if c == '1' then SwitchTo(app, Live)
        else if c == '2' then SwitchTo(app, RulesView)
        else if c == '3' then SwitchTo(app, StatsView)
        else if c == 'q' then (app, Quit)
        else ViewInput(app, input.code, lower)
      case _ => ViewInput(app, input.code, lower)
  }

  // --- Messages from the daemon ----------------------------------------------------------------

  function OnMessage(app: AppState, m: ServerMessage): (AppState, Option<ClientMessage>) {
    match m
    case Event(e) =>
      var rows := PushRow(app.rows, e);
      (app.(rows := rows, selected := if app.follow && rows != [] then Some(|rows| - 1) else app.selected), None)
    case Hello(_) => (app, None)
    case Rules(rules) => (SetRules(app, rules), None)
    case StatsReply(stats) => (app.(stats := Some(stats)), None)
    case Done => (app.(lastAck := Some("ok"), lastAckIsError := false), if app.view == RulesView then Some(ListRules)
      else None)
    case Error(text) => (app.(lastAck := Some(text), lastAckIsError := true), None)
  }

  /** About once a second the Stats view asks for fresh figures. */
  function OnTick(app: AppState, tickCount: nat): Option<ClientMessage> {
    if app.view == StatsView && tickCount % 10 == 0 then Some(GetStats) else None
  }

  // --- Facts about input -------------------------------------------------------------------------

  /** What input within a view leaves alone. */
  predicate SameView(app: AppState, after: AppState) {
    after.view == app.view && after.rules == app.rules && after.connected == app.connected
  }

  lemma MovesKeep(app: AppState, lower: Lower)
    ensures forall delta :: SameView(app, Scroll(app, delta, lower))
    ensures SameView(app, JumpToStart(app, lower)) && SameView(app, JumpToEnd(app, lower))
  {
    hide FilteredIndices, Position, Clamp;
  }

  lemma LiveInputKeeps(app: AppState, code: KeyCode, lower: Lower)
    ensures SameView(app, LiveInput(app, code, lower))
  {
    hide Scroll, JumpToStart, JumpToEnd;
    MovesKeep(app, lower);
  }

  lemma RulesInputKeeps(app: AppState, code: KeyCode)
    ensures SameView(app, RulesInput(app, code).0)
    ensures RulesInput(app, code).1 != Quit
  {
  }

  lemma PromptInputKeeps(app: AppState, target: EnrichedEvent, code: KeyCode)
    ensures SameView(app, ModalInput(app, target, code).0) && !ModalInput(app, target, code).1.EditRule?
  {
    hide MarkRows, RuleMessage;
  }

  lemma FilterInputKeeps(app: AppState, code: KeyCode)
    ensures SameView(app, FilterInput(app, code))
  {
  }

  lemma ViewInputKeeps(app: AppState, code: KeyCode, lower: Lower)
    ensures SameView(app, ViewInput(app, code, lower).0)
    ensures ViewInput(app, code, lower).1.EditRule? ==> app.view == RulesView
  {
    hide LiveInput, RulesInput;
    LiveInputKeeps(app, code, lower);
    RulesInputKeeps(app, code);
  }

  /** Whenever the rules view is entered the client asks for the rules; only there
      can a file be edited, and input never touches the list of rules. */
  lemma EnteringRulesAsks(app: AppState, input: Input, lower: Lower)
    ensures var (after, action) := HandleInput(app, input, lower);
      && after.rules == app.rules && after.connected == app.connected
      && (after.view == RulesView && app.view != RulesView ==> action == Send(ListRules))
      && (action.EditRule? ==> after.view == RulesView)
  {
    hide ModalInput, FilterInput, ViewInput;
    if input.Key? {
      if app.modal.Some? {
        PromptInputKeeps(app, app.modal.value, input.code);
      } else if app.filterMode {
        FilterInputKeeps(app, input.code);
      } else {
        ViewInputKeeps(app, input.code, lower);
      }
    }
  }

  /** A deny request always comes from an open prompt, names the event picked when
      it was opened, marks the rows and closes the prompt. */
  lemma DenyRequestsComeFromThePrompt(app: AppState, input: Input, lower: Lower)
    ensures var (after, action) := HandleInput(app, input, lower);
      action.Send? && action.msg.CreateDenyRule? ==>
        && app.modal.Some? && after.modal == None
        && action.msg == RuleMessage(app.modal.value, action.msg.kind)
        && after.rows == MarkRows(app.rows, app.modal.value, action.msg.kind)
  {
  }

  lemma {:induction false} WhereHolds(p: nat -> bool, n: nat)
    ensures forall i :: 0 <= i < |Where(p, n)| ==> Where(p, n)[i] < n && p(Where(p, n)[i])
    ensures forall i, j :: 0 <= i < j < |Where(p, n)| ==> Where(p, n)[i] < Where(p, n)[j]
    ensures forall i: nat :: i < n && p(i) ==> i in Where(p, n)
  {
    if n > 0 {
      WhereHolds(p, n - 1);
    }
  }

  /** Scrolling selects a row that the filter shows, or none if it hides all;
      following means that no later row is shown. */
  lemma ScrollSelectsShown(app: AppState, delta: int, lower: Lower)
    ensures var after := Scroll(app, delta, lower); var shown := Shown(app, lower);
      && (after.selected == None <==> forall i: nat :: i < |app.rows| ==> !shown(i))
      && (after.selected.Some? ==>
            && after.selected.value < |app.rows| && shown(after.selected.value)
            && (after.follow <==> forall i: nat :: after.selected.value < i < |app.rows| ==> !shown(i)))
  {
    hide Shown;
    var shown := Shown(app, lower);
    var indices := Where(shown, |app.rows|);
    WhereHolds(shown, |app.rows|);
    if indices != [] {
      assert shown(indices[|indices| - 1]);
    }
  }
}
