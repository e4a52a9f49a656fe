/** The rows of the live view as a summary of everything that was pushed. */
module RowLog {
  import opened Base
  import opened Proto
  import opened TuiApp
  import TuiClient

  datatype Op = Push(event: EnrichedEvent) | Deny(target: EnrichedEvent, kind: DenyRuleKind)

  function Rows(ops: seq<Op>): seq<Row> {
    if ops == [] then []
    else match ops[|ops| - 1]
      case Push(e) => PushRow(Rows(ops[..|ops| - 1]), e)
      case Deny(t, k) => MarkRows(Rows(ops[..|ops| - 1]), t, k)
  }

  /** Everything pushed, oldest first. */
  function Log(ops: seq<Op>): seq<EnrichedEvent> {
    if ops == [] then []
    else match ops[|ops| - 1]
      case Push(e) => Log(ops[..|ops| - 1]) + [e]
      case Deny(_, _) => Log(ops[..|ops| - 1])
  }

  // --- The unwrapped account behind each row ------------------------------------------------

  /** Where in the log a row was inserted, where its flow was last pushed, and how
      often since insertion. */
  datatype Account = Account(birth: nat, latest: nat, tally: nat)

  datatype Book = Book(accounts: seq<Account>, evicted: nat)

  function KeepBook(book: Book, found: Option<nat>, full: bool, at: nat): Book
    requires found.Some? ==> found.value < |book.accounts|
    requires full ==> book.accounts != []
  {
    match found
    case Some(i) =>
      book.(accounts := book.accounts[i := book.accounts[i].(latest := at, tally := book.accounts[i].tally + 1)])
    case None =>
      if full then Book(book.accounts[1..] + [Account(at, at, 1)], book.evicted + book.accounts[0].tally)
      else Book(book.accounts + [Account(at, at, 1)], book.evicted)
  }

  ghost predicate Distinct(rows: seq<Row>) {
    forall i, j :: 0 <= i < j < |rows| ==> KeyOf(rows[i].event) != KeyOf(rows[j].event)
  }

  function OfKey(key: AggKey): EnrichedEvent -> bool {
    (e: EnrichedEvent) => KeyOf(e) == key
  }

  /** Equal except for what a deny request may overwrite. */
  predicate SameButVerdict(a: EnrichedEvent, b: EnrichedEvent) {
    a == b.(verdict := a.verdict, matchedRule := a.matchedRule)
  }

  /** The account of one row is right: the row shows the last push of its flow and
      counts, modulo 2^32, the pushes of that flow since the row appeared. */
  ghost predicate Accounts(row: Row, a: Account, log: seq<EnrichedEvent>) {
    && a.birth <= a.latest < |log|
    && KeyOf(log[a.birth]) == KeyOf(row.event)
    && SameButVerdict(row.event, log[a.latest]) && row.lastTs == log[a.latest].tsUnixNs
    && (forall j :: a.latest < j < |log| ==> KeyOf(log[j]) != KeyOf(row.event))
    && a.tally == |Filter(log[a.birth..], OfKey(KeyOf(row.event)))|
    && row.count == a.tally % 0x1_0000_0000
  }

  function Tallies(accounts: seq<Account>): nat {
    if accounts == [] then 0 else accounts[0].tally + Tallies(accounts[1..])
  }

  ghost predicate Balanced(rows: seq<Row>, book: Book, log: seq<EnrichedEvent>) {
    && |rows| == |book.accounts| <= MAX_EVENTS
    && Distinct(rows)
    && (forall i, j :: 0 <= i < j < |book.accounts| ==> book.accounts[i].birth < book.accounts[j].birth)
    && (forall i :: 0 <= i < |rows| ==> Accounts(rows[i], book.accounts[i], log))
    && Tallies(book.accounts) + book.evicted == |log|
  }

  // --- One push --------------------------------------------------------------------------------

  lemma {:induction false} TalliesAppend(s: seq<Account>, a: Account)
    ensures Tallies(s + [a]) == Tallies(s) + a.tally
  {
    if s == [] {
      assert s + [a] == [a];
    } else {
      assert (s + [a])[1..] == s[1..] + [a];
      TalliesAppend(s[1..], a);
    }
  }

  lemma {:induction false} TalliesUpdate(s: seq<Account>, i: nat, a: Account)
    requires i < |s|
    ensures Tallies(s[i := a]) == Tallies(s) - s[i].tally + a.tally
  {
    if i == 0 {
      assert s[0 := a][1..] == s[1..];
    } else {
      assert s[i := a][1..] == s[1..][i - 1 := a];
      TalliesUpdate(s[1..], i - 1, a);
    }
  }

  lemma AccountOther(row: Row, a: Account, log: seq<EnrichedEvent>, e: EnrichedEvent)
    requires Accounts(row, a, log) && KeyOf(e) != KeyOf(row.event)
    ensures Accounts(row, a, log + [e])
  {
    hide KeyOf;
    assert (log + [e])[a.birth..] == log[a.birth..] + [e];
    FilterAppend(log[a.birth..], [e], OfKey(KeyOf(row.event)));
  }

  lemma AccountSame(row: Row, a: Account, log: seq<EnrichedEvent>, e: EnrichedEvent)
    requires Accounts(row, a, log) && KeyOf(e) == KeyOf(row.event)
    ensures Accounts(Row(e, (row.count + 1) % 0x1_0000_0000, e.tsUnixNs), a.(latest := |log|, tally := a.tally + 1),
      log + [e])
  {
    hide KeyOf;
    assert (log + [e])[a.birth..] == log[a.birth..] + [e];
    FilterAppend(log[a.birth..], [e], OfKey(KeyOf(row.event)));
  }

  lemma AccountNew(log: seq<EnrichedEvent>, e: EnrichedEvent)
    ensures Accounts(Row(e, 1, e.tsUnixNs), Account(|log|, |log|, 1), log + [e])
  {
    assert (log + [e])[|log|..] == [e];
  }

  lemma {:induction false} PushKnown(rows: seq<Row>, book: Book, log: seq<EnrichedEvent>, e: EnrichedEvent, i: nat)
    requires Balanced(rows, book, log) && FindRow(rows, KeyOf(e)) == Some(i)
    ensures Balanced(PushRow(rows, e), KeepBook(book, Some(i), |rows| == MAX_EVENTS, |log|), log + [e])
  {
    hide KeyOf, Accounts;
    FindRowFinds(rows, KeyOf(e));
    var b := KeepBook(book, Some(i), |rows| == MAX_EVENTS, |log|);
    AccountSame(rows[i], book.accounts[i], log, e);
    forall j | 0 <= j < |rows| && j != i ensures Accounts(rows[j], book.accounts[j], log + [e]) {
      AccountOther(rows[j], book.accounts[j], log, e);
    }
    TalliesUpdate(book.accounts, i, b.accounts[i]);
  }

  lemma {:induction false} DistinctAppend(rows: seq<Row>, e: EnrichedEvent)
    requires Distinct(rows) && FindRow(rows, KeyOf(e)) == None
    ensures Distinct(rows + [Row(e, 1, e.tsUnixNs)])
  {
    hide KeyOf;
    FindRowFinds(rows, KeyOf(e));
  }

  /** The accounts of the rows there are survive the push of another flow. */
  lemma {:induction false} AccountsOther(rows: seq<Row>, book: Book, log: seq<EnrichedEvent>, e: EnrichedEvent)
    requires Balanced(rows, book, log) && FindRow(rows, KeyOf(e)) == None
    ensures forall j :: 0 <= j < |rows| ==>
      Accounts(rows[j], book.accounts[j], log + [e]) && book.accounts[j].birth < |log|
  {
    hide KeyOf;
    FindRowFinds(rows, KeyOf(e));
    forall j | 0 <= j < |rows|
      ensures Accounts(rows[j], book.accounts[j], log + [e]) && book.accounts[j].birth < |log|
    {
      AccountOther(rows[j], book.accounts[j], log, e);
    }
  }

  lemma {:induction false} PushNew(rows: seq<Row>, book: Book, log: seq<EnrichedEvent>, e: EnrichedEvent)
    requires Balanced(rows, book, log) && FindRow(rows, KeyOf(e)) == None && |rows| < MAX_EVENTS
    ensures Balanced(rows + [Row(e, 1, e.tsUnixNs)], KeepBook(book, None, false, |log|), log + [e])
  {
    hide KeyOf, Accounts, FindRow, Distinct;
    AccountsOther(rows, book, log, e);
    DistinctAppend(rows, e);
    AccountNew(log, e);
    TalliesAppend(book.accounts, Account(|log|, |log|, 1));
  }

  /** Dropping the oldest row moves its tally to the evicted total. */
  lemma DropOldest(rows: seq<Row>, book: Book, log: seq<EnrichedEvent>)
    requires Balanced(rows, book, log) && rows != []
    ensures book.accounts != [] && Balanced(rows[1..], DropAccount(book), log)
  {
    hide KeyOf, Accounts;
  }

  /** Dropping the oldest account by hand and then entering the new one. */
  function DropAccount(book: Book): Book
    requires book.accounts != []
  {
    Book(book.accounts[1..], book.evicted + book.accounts[0].tally)
  }

  lemma {:induction false} PushAfterDrop(rows: seq<Row>, book: Book, log: seq<EnrichedEvent>, e: EnrichedEvent)
    requires Balanced(rows, book, log) && FindRow(rows, KeyOf(e)) == None && rows != []
    ensures book.accounts != [] && Balanced(rows[1..], DropAccount(book), log)
    ensures FindRow(rows[1..], KeyOf(e)) == None && |rows[1..]| < MAX_EVENTS
  {
    hide KeyOf, FindRow, Accounts;
    DropOldest(rows, book, log);
    StillAbsent(rows, KeyOf(e));
  }

  lemma {:induction false} PushFull(rows: seq<Row>, book: Book, log: seq<EnrichedEvent>, e: EnrichedEvent)
    requires Balanced(rows, book, log) && FindRow(rows, KeyOf(e)) == None && |rows| == MAX_EVENTS
    ensures |book.accounts| == MAX_EVENTS
    ensures Balanced(rows[1..] + [Row(e, 1, e.tsUnixNs)], KeepBook(book, None, true, |log|), log + [e])
  {
    assert |book.accounts| == |rows|;
    hide *;
    assert rows != [];
    PushAfterDrop(rows, book, log, e);
    PushNew(rows[1..], DropAccount(book), log, e);
    FullIsDropThenNew(book, |log|);
  }

  lemma FullIsDropThenNew(book: Book, at: nat)
    requires book.accounts != []
    ensures KeepBook(DropAccount(book), None, false, at) == KeepBook(book, None, true, at)
  {
  }

  lemma {:induction false} PushBalances(rows: seq<Row>, book: Book, log: seq<EnrichedEvent>, e: EnrichedEvent)
    requires Balanced(rows, book, log)
    ensures Balanced(PushRow(rows, e), KeepBook(book, FindRow(rows, KeyOf(e)), |rows| == MAX_EVENTS, |log|), log + [e])
  {
    assert |rows| == |book.accounts| <= MAX_EVENTS;
    hide KeyOf, Balanced, FindRow, Filter, KeepBook, Accounts, Distinct, Tallies;
    match FindRow(rows, KeyOf(e))
    case Some(i) => PushKnown(rows, book, log, e, i);
    case None =>
      if |rows| == MAX_EVENTS {
        PushFull(rows, book, log, e);
      } else {
        PushNew(rows, book, log, e);
      }
  }

  lemma {:induction false} StillAbsent(rows: seq<Row>, key: AggKey)
    requires FindRow(rows, key) == None && rows != []
    ensures FindRow(rows[1..], key) == None
  {
  }

  // --- One optimistic deny ---------------------------------------------------------------------------

  lemma MarkKeepsAccount(row: Row, a: Account, log: seq<EnrichedEvent>, t: EnrichedEvent, kind: DenyRuleKind)
    requires Accounts(row, a, log)
    ensures Accounts(MarkRow(row, t, kind), a, log)
    ensures KeyOf(MarkRow(row, t, kind).event) == KeyOf(row.event)
  {
    hide Marks;
  }

  lemma {:induction false} MarkBalances(rows: seq<Row>, book: Book, log: seq<EnrichedEvent>, t: EnrichedEvent,
    kind: DenyRuleKind)
    requires Balanced(rows, book, log)
    ensures Balanced(MarkRows(rows, t, kind), book, log)
  {
    hide KeyOf, Accounts, MarkRow;
    MarkRowsAt(rows, t, kind);
    forall i | 0 <= i < |rows|
      ensures Accounts(MarkRow(rows[i], t, kind), book.accounts[i], log)
        && KeyOf(MarkRow(rows[i], t, kind).event) == KeyOf(rows[i].event)
    {
      MarkKeepsAccount(rows[i], book.accounts[i], log, t, kind);
    }
  }

  // --- Any sequence of operations ------------------------------------------------------------------------

  /** The accounts kept beside the rows: opened when a row is inserted, closed when
      it is evicted. */
  function BookAfter(ops: seq<Op>): (book: Book)
    ensures |book.accounts| == |Rows(ops)| <= MAX_EVENTS
  {
    if ops == [] then Book([], 0)
    else
      var before := ops[..|ops| - 1];
      match ops[|ops| - 1]
      case Push(e) =>
        KeepBook(BookAfter(before), FindRow(Rows(before), KeyOf(e)), |Rows(before)| == MAX_EVENTS, |Log(before)|)
      case Deny(t, k) =>
        MarkRowsAt(Rows(before), t, k);
        BookAfter(before)
  }

  /** After any pushes and deny requests the rows have pairwise different keys,
      are at most 10000, stand in the order in which they were inserted, show the
      latest event of their flow and count its pushes since insertion; together
      with the evicted rows they account for every push. */
  lemma {:induction false} RowsRefineLog(ops: seq<Op>)
    ensures Balanced(Rows(ops), BookAfter(ops), Log(ops))
  {
    hide Accounts, PushRow, MarkRows, KeyOf, KeepBook;
    if ops != [] {
      var before := ops[..|ops| - 1];
      RowsRefineLog(before);
      match ops[|ops| - 1]
      case Push(e) => PushBalances(Rows(before), BookAfter(before), Log(before), e);
      case Deny(t, k) => MarkBalances(Rows(before), BookAfter(before), Log(before), t, k);
    }
  }

  // --- The rows of a running client ------------------------------------------------------------------------

  /** What one wake does to the rows, if anything. */
  function OpOf(app: AppState, w: TuiClient.Wake, lower: Lower): Option<Op> {
    match w
    case Received(m, _) => if m.Event? then Some(Push(m.event)) else None
    case Pressed(input, _, _) =>
      var action := HandleInput(app, input, lower).1;
      if action.Send? && action.msg.CreateDenyRule? && app.modal.Some? then
        Some(Op.Deny(app.modal.value, action.msg.kind)) else None
    case _ => None
  }

  function OpsOf(s: TuiClient.Session, ws: seq<TuiClient.Wake>, lower: Lower): seq<Op> {
    if ws == [] then []
    else
      var before := ws[..|ws| - 1];
      var mid := TuiClient.AfterWakes(s, before, lower);
      var op := if mid.open then OpOf(mid.app, ws[|ws| - 1], lower) else None;
      OpsOf(s, before, lower) + if op.Some? then [op.value] else []
  }

  lemma LiveInputKeepsRows(app: AppState, code: KeyCode, lower: Lower)
    ensures LiveInput(app, code, lower).rows == app.rows
  {
    hide FilteredIndices, Position, Clamp;
  }

  lemma ViewInputKeepsRows(app: AppState, code: KeyCode, lower: Lower)
    ensures var (after, action) := ViewInput(app, code, lower);
      after.rows == app.rows && !(action.Send? && action.msg.CreateDenyRule?)
  {
    hide LiveInput;
    LiveInputKeepsRows(app, code, lower);
  }

  lemma InputRows(app: AppState, input: Input, lower: Lower)
    ensures var (after, action) := HandleInput(app, input, lower);
      if action.Send? && action.msg.CreateDenyRule? then
        app.modal.Some? && after.rows == MarkRows(app.rows, app.modal.value, action.msg.kind)
      else after.rows == app.rows
  {
    hide ViewInput, MarkRows;
    if input.Key? {
      ViewInputKeepsRows(app, input.code, lower);
    }
  }

  lemma MessageRows(app: AppState, m: ServerMessage)
    ensures OnMessage(app, m).0.rows == if m.Event? then PushRow(app.rows, m.event) else app.rows
  {
    hide PushRow;
  }

  lemma WakeRows(s: TuiClient.Session, w: TuiClient.Wake, lower: Lower)
    requires s.open
    ensures TuiClient.Wakes(s, w, lower).app.rows ==
      match OpOf(s.app, w, lower)
      case None => s.app.rows
      case Some(Push(e)) => PushRow(s.app.rows, e)
      case Some(Deny(t, kind)) => MarkRows(s.app.rows, t, kind)
  {
    hide HandleInput, PushRow, MarkRows, OnMessage, TuiClient.Goes;
    match w
    case Received(m, _) => MessageRows(s.app, m);
    case Pressed(input, _, _) => InputRows(s.app, input, lower);
    case _ =>
  }

  /** The rows of the client after any wakes are those of the events it received
      and the deny requests it sent, so they refine that log. */
  lemma {:induction false} ClientRowsRefineLog(s: TuiClient.Session, ws: seq<TuiClient.Wake>, lower: Lower)
    requires s.app == START
    ensures var ops := OpsOf(s, ws, lower); var rows := TuiClient.AfterWakes(s, ws, lower).app.rows;
      rows == Rows(ops) && Balanced(rows, BookAfter(ops), Log(ops))
  {
    hide TuiClient.Wakes, OpOf, PushRow, MarkRows, Balanced, BookAfter;
    if ws != [] {
      var before := ws[..|ws| - 1];
      var mid := TuiClient.AfterWakes(s, before, lower);
      ClientRowsRefineLog(s, before, lower);
      var ops := OpsOf(s, before, lower);
      if mid.open {
        WakeRows(mid, ws[|ws| - 1], lower);
        match OpOf(mid.app, ws[|ws| - 1], lower)
        case None => assert OpsOf(s, ws, lower) == ops;
        case Some(op) =>
          assert OpsOf(s, ws, lower) == ops + [op];
          assert (ops + [op])[..|ops|] == ops;
      } else {
        TuiClient.ClosedStays(s, ws, |before|, lower);
        assert OpsOf(s, ws, lower) == ops;
      }
    }
    RowsRefineLog(OpsOf(s, ws, lower));
  }
}
