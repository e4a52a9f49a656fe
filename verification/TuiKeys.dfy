/** What every key does in the terminal client, key by key, and what the words of the
    interface mean: scrolling, filtering, marking, flows. */
module TuiKeys {
  import opened Base
  import opened Addresses
  import opened Proto
  import opened TuiApp

  // --- Keys that work everywhere --------------------------------------------------------

  /** Ctrl-C quits from anywhere; releases and other terminal events do nothing. */
  lemma KeysAnywhere(app: AppState, input: Input, lower: Lower)
    ensures input == Key(Char('c'), true, true) ==> HandleInput(app, input, lower) == (app, Quit)
    ensures input.NotAKey? || !input.press ==> HandleInput(app, input, lower) == (app, Nothing)
  {
    hide ModalInput, FilterInput, ViewInput;
  }

  /** Without a prompt, q quits, 1, 2, 3 choose a view and Tab goes round the views;
      entering the rules or the statistics asks for them. */
  lemma ViewKeys(app: AppState, control: bool, lower: Lower)
    requires app.modal == None && !app.filterMode
    ensures HandleInput(app, Key(Char('q'), control, true), lower) == (app, Quit)
    ensures HandleInput(app, Key(Char('1'), control, true), lower) == (app.(view := Live), Nothing)
    ensures HandleInput(app, Key(Char('2'), control, true), lower) == (app.(view := RulesView), Send(ListRules))
    ensures HandleInput(app, Key(Char('3'), control, true), lower) == (app.(view := StatsView), Send(GetStats))
    ensures HandleInput(app, Key(Tab, control, true), lower) ==
      match app.view
      case Live => (app.(view := RulesView), Send(ListRules))
      case RulesView => (app.(view := StatsView), Send(GetStats))
      case StatsView => (app.(view := Live), Nothing)
  {
    hide ModalInput, FilterInput, ViewInput;
  }

  // --- The deny prompt ------------------------------------------------------------------

  /** What the client sends for a row, field by field. */
  predicate AsksToDeny(m: ClientMessage, target: EnrichedEvent, kind: DenyRuleKind) {
    && m.CreateDenyRule? && m.exePath == target.exePath && m.hostname == target.hostname
    && m.destIp == Some(IpString(target)) && m.dport == target.dport && m.kind == kind
  }

  /** With the prompt open on a row, h, p, i and b deny its host, its executable, its
      address, and host and executable together, each if the row has what it needs. */
  function KindAsked(target: EnrichedEvent, code: KeyCode): Option<DenyRuleKind> {
    if code == Char('h') && target.hostname.Some? then Some(Host)
    else if code == Char('p') && target.exePath.Some? then Some(Process)
    else if code == Char('i') then Some(Ip)
    else if code == Char('b') && target.hostname.Some? && target.exePath.Some? then Some(Both)
    else None
  }

  /** These keys ask for that rule, and no other key sends anything. */
  predicate PromptAnswer(target: EnrichedEvent, code: KeyCode, action: InputAction) {
    match KindAsked(target, code)
    case Some(kind) => action.Send? && AsksToDeny(action.msg, target, kind)
    case None => action == Nothing
  }

  /** They also mark the rows and close the prompt; Esc closes it. */
  lemma {:induction false} PromptKeys(app: AppState, target: EnrichedEvent, code: KeyCode, control: bool, lower: Lower)
    requires app.modal == Some(target) && !(code == Char('c') && control)
    ensures var (after, action) := HandleInput(app, Key(code, control, true), lower);
      && PromptAnswer(target, code, action)
      && after == match KindAsked(target, code)
           case Some(kind) => app.(modal := None, rows := MarkRows(app.rows, target, kind))
           case None => if code == Esc then app.(modal := None) else app
  {
    hide MarkRows, ViewInput, FilterInput, IpString;
  }

  /** The address in a request is that of the row, IPv6 without brackets. */
  lemma IpStringOfRow(e: EnrichedEvent)
    ensures IpString(e) == if e.family == 4 then V4Text(WordBytes(e.daddrV4)) else V6Text(e.daddrV6)
    ensures FormatAddr(e) == if e.family == 4 then IpString(e) else "[" + IpString(e) + "]"
  {
    hide V4Text, V6Text, WordBytes;
  }

  // --- The filter prompt ----------------------------------------------------------------

  /** While the filter is typed, characters are appended and Backspace takes the last
      one back; Enter keeps the filter, Esc clears it, and both leave the prompt. */
  lemma FilterKeys(app: AppState, code: KeyCode, control: bool, lower: Lower)
    requires app.modal == None && app.filterMode && !(code == Char('c') && control)
    ensures var (after, action) := HandleInput(app, Key(code, control, true), lower);
      && action == Nothing
      && after == app.(filter := after.filter, filterMode := after.filterMode)
      && (after.filterMode <==> code != Esc && code != Enter)
      && after.filter == (if code == Esc then ""
                          else if code.Char? then app.filter + [code.c]
                          else if code == Backspace && app.filter != "" then app.filter[..|app.filter| - 1]
                          else app.filter)
  {
    hide ModalInput, ViewInput;
  }

  // --- The live view --------------------------------------------------------------------

  /** Whether a key is one of those that work in every view. */
  predicate Global(code: KeyCode, control: bool) {
    code == Tab || (code.Char? && (code.c in "123q" || (code.c == 'c' && control)))
  }

  /** In the live view the arrows move the selection by one row and the page keys by
      twenty, Home and End (or G) go to the ends, / starts a filter and d opens the
      prompt on the selected row; nothing is sent. */
  lemma LiveKeys(app: AppState, code: KeyCode, control: bool, lower: Lower)
    requires app.view == Live && app.modal == None && !app.filterMode && !Global(code, control)
    ensures var (after, action) := HandleInput(app, Key(code, control, true), lower);
      && action == Nothing
      && after ==
        if code == Up then Scroll(app, -1, lower)
        else if code == Down then Scroll(app, 1, lower)
        else if code == PageUp then Scroll(app, -20, lower)
        else if code == PageDown then Scroll(app, 20, lower)
        else if code == Home then JumpToStart(app, lower)
        else if code == End || code == Char('G') then JumpToEnd(app, lower)
        else if code == Char('/') then app.(filter := "", filterMode := true)
        else if code == Char('d') && app.selected.Some? && app.selected.value < |app.rows| then
          app.(modal := Some(app.rows[app.selected.value].event))
        else app
  {
    hide ModalInput, FilterInput, RulesInput, Scroll, JumpToStart, JumpToEnd;
  }

  /** How many of the shown rows stand above a row. */
  function ShownAbove(app: AppState, i: nat, lower: Lower): nat {
    |Where(Shown(app, lower), i)|
  }

  lemma {:induction false} WhereCounts(p: nat -> bool, n: nat, j: nat)
    requires j < |Where(p, n)|
    ensures Where(p, n)[j] < n && |Where(p, Where(p, n)[j])| == j
  {
    if p(n - 1) && j == |Where(p, n)| - 1 {
    } else {
      WhereCounts(p, n - 1, j);
    }
  }

  lemma {:induction false} WhereFindsPosition(p: nat -> bool, n: nat, x: nat)
    requires x < n && p(x)
    ensures |Where(p, x)| < |Where(p, n)| && Where(p, n)[|Where(p, x)|] == x
  {
    if x < n - 1 {
      WhereFindsPosition(p, n - 1, x);
    }
  }

  lemma {:induction false} PositionAt(s: seq<nat>, k: nat)
    requires k < |s| && forall i, j :: 0 <= i < j < |s| ==> s[i] < s[j]
    ensures Position(s, s[k]) == Some(k)
  {
    if k > 0 {
      assert s[1..][k - 1] == s[k];
      PositionAt(s[1..], k - 1);
    }
  }

  lemma {:induction false} PositionNone(s: seq<nat>, x: nat)
    requires x !in s
    ensures Position(s, x) == None
  {
    if s != [] {
      PositionNone(s[1..], x);
    }
  }

  /** Scrolling by delta moves the selection over that many shown rows, up to the ends;
      a selection that is missing or hidden counts as the last shown row. */
  lemma ScrollMoves(app: AppState, delta: int, lower: Lower)
    requires exists i: nat :: i < |app.rows| && Shown(app, lower)(i)
    ensures var after := Scroll(app, delta, lower); var shown := Shown(app, lower);
      var total := ShownAbove(app, |app.rows|, lower);
      var from := if app.selected.Some? && shown(app.selected.value)
                  then ShownAbove(app, app.selected.value, lower) else total - 1;
      && after == app.(selected := after.selected, follow := after.follow)
      && after.selected.Some? && shown(after.selected.value)
      && ShownAbove(app, after.selected.value, lower)
         == (if from + delta < 0 then 0 else if from + delta >= total then total - 1 else from + delta)
      && (after.follow <==> ShownAbove(app, after.selected.value, lower) == total - 1)
  {
    hide Shown, Position;
    var shown := Shown(app, lower);
    var indices := Where(shown, |app.rows|);
    WhereHolds(shown, |app.rows|);
    var after := Scroll(app, delta, lower);
    if app.selected.Some? {
      ShownIsRow(app, app.selected.value, lower);
      if shown(app.selected.value) {
        WhereFindsPosition(shown, |app.rows|, app.selected.value);
        PositionAt(indices, |Where(shown, app.selected.value)|);
      } else {
        PositionNone(indices, app.selected.value);
      }
    }
    var found := if app.selected.Some? then Position(indices, app.selected.value) else None;
    var pos := Clamp(found.GetOr(|indices| - 1) + delta, |indices| - 1);
    WhereCounts(shown, |app.rows|, pos);
  }

  lemma ShownIsRow(app: AppState, i: nat, lower: Lower)
    ensures Shown(app, lower)(i) ==> i < |app.rows|
  {
  }

  /** Home selects the first shown row and stops following, End the last and follows;
      if no row is shown the selection stays. */
  lemma JumpsGoToTheEnds(app: AppState, lower: Lower)
    ensures var start, end, shown := JumpToStart(app, lower), JumpToEnd(app, lower), Shown(app, lower);
      && start == app.(selected := start.selected, follow := false)
      && end == app.(selected := end.selected, follow := true)
      && ((forall i: nat :: i < |app.rows| ==> !shown(i)) ==>
            start.selected == app.selected && end.selected == app.selected)
      && ((exists i: nat :: i < |app.rows| && shown(i)) ==>
            && start.selected.Some? && shown(start.selected.value)
            && (forall i: nat :: i < start.selected.value ==> !shown(i))
            && end.selected.Some? && shown(end.selected.value)
            && (forall i: nat :: end.selected.value < i < |app.rows| ==> !shown(i)))
  {
    hide Shown;
    var shown := Shown(app, lower);
    WhereHolds(shown, |app.rows|);
    forall i: nat | shown(i) ensures i < |app.rows| {
      ShownIsRow(app, i, lower);
    }
  }

  // --- The rules view -------------------------------------------------------------------

  predicate RuleChosen(app: AppState) {
    app.ruleSelected.Some? && app.ruleSelected.value < |app.rules|
  }

  /** In the rules view r asks for the list again; t and space ask for the selected
      rule to be switched to the other state, e opens its file; the arrows move the
      selection by one, and no other key does anything. */
  lemma RulesKeys(app: AppState, code: KeyCode, control: bool, lower: Lower)
    requires app.view == RulesView && app.modal == None && !app.filterMode && !Global(code, control)
    ensures var (after, action) := HandleInput(app, Key(code, control, true), lower);
      && action == (
        if code == Char('r') then Send(ListRules)
        else if (code == Char('t') || code == Char(' ')) && RuleChosen(app) then
          Send(SetRuleEnabled(app.rules[app.ruleSelected.value].id, !app.rules[app.ruleSelected.value].enabled))
        else if code == Char('e') && RuleChosen(app) then EditRule(app.rules[app.ruleSelected.value].path)
        else Nothing)
      && after == if code == Up then RulesScroll(app, -1) else if code == Down then RulesScroll(app, 1) else app
  {
    hide ModalInput, FilterInput, LiveInput, RulesScroll;
  }

  /** The selection in the list moves by delta, up to its ends; a new list keeps it as
      far as the list goes. */
  lemma RulesSelection(app: AppState, delta: int, rules: seq<RuleInfo>)
    ensures var after := RulesScroll(app, delta);
      var from := if app.ruleSelected.Some? then app.ruleSelected.value else 0;
      && after == app.(ruleSelected := after.ruleSelected)
      && (after.ruleSelected == None <==> app.rules == [])
      && (app.rules != [] ==>
            after.ruleSelected.value
            == if from + delta < 0 then 0 else if from + delta >= |app.rules| then |app.rules| - 1 else from + delta)
    ensures var after := SetRules(app, rules);
      var from := if app.ruleSelected.Some? then app.ruleSelected.value else 0;
      && after == app.(rules := rules, ruleSelected := after.ruleSelected)
      && (after.ruleSelected == None <==> rules == [])
      && (rules != [] ==> after.ruleSelected.value == if from < |rules| then from else |rules| - 1)
  {
  }

  // --- The statistics view --------------------------------------------------------------

  /** In the statistics view r asks for fresh figures and no other key does anything. */
  lemma StatsKeys(app: AppState, code: KeyCode, control: bool, lower: Lower)
    requires app.view == StatsView && app.modal == None && !app.filterMode && !Global(code, control)
    ensures HandleInput(app, Key(code, control, true), lower)
            == (app, if code == Char('r') then Send(GetStats) else Nothing)
  {
    hide ModalInput, FilterInput, LiveInput, RulesInput;
  }

  // --- Messages and the clock -----------------------------------------------------------

  /** What each message changes: an event goes into the rows, and a following selection
      to the last one; lists and figures replace the ones shown; an acknowledgement or
      an error is shown, and an acknowledgement in the rules view asks for the list. */
  lemma MessagesMean(app: AppState, m: ServerMessage)
    ensures var (after, request) := OnMessage(app, m);
      && (request == if m == Done && app.view == RulesView then Some(ListRules) else None)
      && after ==
        match m
        case Event(e) =>
          app.(rows := PushRow(app.rows, e),
               selected := if app.follow then Some(|PushRow(app.rows, e)| - 1) else app.selected)
        case Hello(_) => app
        case Rules(rules) => SetRules(app, rules)
        case StatsReply(stats) => app.(stats := Some(stats))
        case Done => app.(lastAck := Some("ok"), lastAckIsError := false)
        case Error(text) => app.(lastAck := Some(text), lastAckIsError := true)
  {
    hide SetRules, KeyOf;
  }

  /** In the statistics view every tenth tick asks for fresh figures. */
  lemma TicksMean(app: AppState, tenths: nat, n: nat)
    ensures OnTick(app, 10 * tenths) == if app.view == StatsView then Some(GetStats) else None
    ensures 10 * tenths < n < 10 * tenths + 10 ==> OnTick(app, n) == None
  {
  }

  // --- Rows -----------------------------------------------------------------------------

  /** Two events share a row when process, command, executable, port and destination
      agree; the destination is the host name or, without one, the address. A missing
      path counts as an empty one. */
  lemma SameRow(a: EnrichedEvent, b: EnrichedEvent)
    ensures KeyOf(a) == KeyOf(b) <==>
      && a.pid == b.pid && a.comm == b.comm && a.dport == b.dport
      && (if a.exePath.Some? then a.exePath.value else "") == (if b.exePath.Some? then b.exePath.value else "")
      && (if a.hostname.Some? then a.hostname.value else FormatAddr(a))
         == (if b.hostname.Some? then b.hostname.value else FormatAddr(b))
  {
    hide FormatAddr;
  }

  /** An event of a known flow takes over its first row and counts one more; one of a
      new flow gets a row at the end, and the oldest row of ten thousand makes room. */
  lemma PushMeans(rows: seq<Row>, e: EnrichedEvent)
    ensures var after := PushRow(rows, e);
      && ((exists i :: 0 <= i < |rows| && KeyOf(rows[i].event) == KeyOf(e)) ==>
            exists i ::
              && 0 <= i < |rows| && KeyOf(rows[i].event) == KeyOf(e)
              && (forall j :: 0 <= j < i ==> KeyOf(rows[j].event) != KeyOf(e))
              && after == rows[i := Row(e, if rows[i].count == 0xFFFF_FFFF then 0 else rows[i].count + 1, e.tsUnixNs)])
      && ((forall i :: 0 <= i < |rows| ==> KeyOf(rows[i].event) != KeyOf(e)) ==>
            && (|rows| != 10_000 ==> after == rows + [Row(e, 1, e.tsUnixNs)])
            && (|rows| == 10_000 ==> after == rows[1..] + [Row(e, 1, e.tsUnixNs)]))
  {
    hide KeyOf;
    FindRowFinds(rows, KeyOf(e));
    if FindRow(rows, KeyOf(e)).Some? {
      var i := FindRow(rows, KeyOf(e)).value;
      assert KeyOf(rows[i].event) == KeyOf(e);
    }
  }

  /** A marked row shows a denial, with a placeholder where no rule is known; everything
      else of it, and every other row, stays. Which rows are marked depends on what the
      kind compares. */
  lemma MarkMeans(row: Row, target: EnrichedEvent, kind: DenyRuleKind)
    ensures var after := MarkRow(row, target, kind); var e := row.event;
      var hit := match kind
        case Host => e.hostname == target.hostname
        case Process => e.exePath == target.exePath
        case Ip => IpString(e) == IpString(target)
        case Both => e.hostname == target.hostname && e.exePath == target.exePath;
      && (!hit ==> after == row)
      && (hit ==>
            && after.count == row.count && after.lastTs == row.lastTs
            && after.event.verdict == Deny
            && after.event.matchedRule == Some(if e.matchedRule.Some? then e.matchedRule.value else "(pending)")
            && after.event == e.(verdict := Deny, matchedRule := after.event.matchedRule))
  {
    hide IpString;
  }

  // --- The filter -----------------------------------------------------------------------

  /** What is searched: command, path and host in lower case, as far as known, and the
      address, with spaces between them. */
  lemma Haystack(e: EnrichedEvent, needle: string, lower: Lower)
    ensures EventMatches(e, needle, lower) <==>
      match (e.exePath, e.hostname)
      case (None, None) => Contains(lower(e.comm) + " " + FormatAddr(e), needle)
      case (Some(p), None) => Contains(lower(e.comm) + " " + (lower(p) + " " + FormatAddr(e)), needle)
      case (None, Some(h)) => Contains(lower(e.comm) + " " + (lower(h) + " " + FormatAddr(e)), needle)
      case (Some(p), Some(h)) =>
        Contains(lower(e.comm) + " " + (lower(p) + " " + (lower(h) + " " + FormatAddr(e))), needle)
  {
    hide FormatAddr, Contains;
    var comm, addr := lower(e.comm), FormatAddr(e);
    match (e.exePath, e.hostname)
    case (None, None) =>
      assert comm + " " + "" + "" + addr == comm + " " + addr;
    case (Some(p), None) =>
      assert comm + " " + (lower(p) + " ") + "" + addr == comm + " " + (lower(p) + " " + addr);
    case (None, Some(h)) =>
      assert comm + " " + "" + (lower(h) + " ") + addr == comm + " " + (lower(h) + " " + addr);
    case (Some(p), Some(h)) =>
      assert comm + " " + (lower(p) + " ") + (lower(h) + " ") + addr
          == comm + " " + (lower(p) + " " + (lower(h) + " " + addr));
  }

  lemma ContainedOnOneSide(a: string, b: string, needle: string)
    requires ' ' !in needle
    ensures Contains(a + " " + b, needle) <==> Contains(a, needle) || Contains(b, needle)
  {
    var s := a + " " + b;
    PartOfText(s, needle);
    PartOfText(a, needle);
    PartOfText(b, needle);
    hide Contains;
    if Contains(s, needle) {
      var front, rest :| s == front + needle + rest;
      assert s[|a|] == ' ' && forall k :: 0 <= k < |needle| ==> s[|front| + k] == needle[k];
      if |front + needle| <= |a| {
        assert a == s[..|a|] && s[..|a|] == front + needle + rest[..|a| - |front + needle|];
      } else if |front| > |a| {
        assert b == s[|a| + 1..] && s[|a| + 1..] == front[|a| + 1..] + needle + rest;
      }
    }
    if Contains(a, needle) {
      var front, rest :| a == front + needle + rest;
      assert s == front + needle + (rest + " " + b);
    }
    if Contains(b, needle) {
      var front, rest :| b == front + needle + rest;
      assert s == (a + " " + front) + needle + rest;
    }
  }

  /** A filter without spaces shows exactly the rows whose command, path, host or address
      contains it, whatever the case. */
  lemma FilterMeans(app: AppState, i: nat, lower: Lower)
    requires i < |app.rows| && app.filter != "" && ' ' !in lower(app.filter)
    ensures var e := app.rows[i].event; var needle := lower(app.filter);
      Shown(app, lower)(i) <==>
        || Contains(lower(e.comm), needle)
        || (e.exePath.Some? && Contains(lower(e.exePath.value), needle))
        || (e.hostname.Some? && Contains(lower(e.hostname.value), needle))
        || Contains(FormatAddr(e), needle)
  {
    hide Contains, FormatAddr;
    var e := app.rows[i].event;
    var needle := lower(app.filter);
    var addr := FormatAddr(e);
    Haystack(e, needle, lower);
    var host := if e.hostname.Some? then lower(e.hostname.value) + " " + addr else addr;
    var path := if e.exePath.Some? then lower(e.exePath.value) + " " + host else host;
    ContainedOnOneSide(lower(e.comm), path, needle);
    if e.exePath.Some? {
      ContainedOnOneSide(lower(e.exePath.value), host, needle);
    }
    if e.hostname.Some? {
      ContainedOnOneSide(lower(e.hostname.value), addr, needle);
    }
  }

  /** Without a filter every row is shown; a position behind the last row never is. */
  lemma EverythingShown(app: AppState, i: nat, lower: Lower)
    ensures app.filter == "" ==> (Shown(app, lower)(i) <==> i < |app.rows|)
    ensures Shown(app, lower)(i) ==> i < |app.rows|
  {
  }

  // --- The start ------------------------------------------------------------------------

  /** The client starts in the live view, following, without filter or prompt. */
  lemma StartOfClient()
    ensures START.view == Live && START.rows == [] && START.selected == None && START.follow
    ensures START.filter == "" && !START.filterMode && START.modal == None && START.connected
    ensures START.rules == [] && START.ruleSelected == None && START.stats == None && START.lastAck == None
  {
  }
}
