/** The session statistics and the event history they summarise. */
module StatsModel {
  import opened Base
  import opened Proto
  import opened Sorting

  const ACTIVITY_BUCKETS: nat := 120
  const TOP_N: nat := 10

  // --- Labels --------------------------------------------------------------------------

  function ProcessLabel(e: EnrichedEvent): string {
    if e.exePath.GetOr("") != "" then e.exePath.value else e.comm
  }

  function HostOrIp(e: EnrichedEvent): string {
    if e.hostname.GetOr("") != "" then e.hostname.value else IpString(e)
  }

  // --- The accumulator as a value ---------------------------------------------------------

  datatype Acc = Acc(
    totalEvents: nat, totalAllowed: nat, totalDenied: nat,
    perProcess: map<string, nat>, perHost: map<string, nat>, activity: seq<nat>)

  function Zeros(n: nat): (s: seq<nat>)
    ensures |s| == n
    ensures forall i :: 0 <= i < n ==> s[i] == 0
  {
    seq(n, i => 0)
  }

  const EMPTY := Acc(0, 0, 0, map[], map[], Zeros(ACTIVITY_BUCKETS))

  function Bump(m: map<string, nat>, k: string): map<string, nat> {
    m[k := (if k in m then m[k] else 0) + 1]
  }

  function BumpLast(s: seq<nat>): seq<nat> {
    if s == [] then s else s[|s| - 1 := s[|s| - 1] + 1]
  }

  function RecordSpec(a: Acc, e: EnrichedEvent): Acc {
    Acc(a.totalEvents + 1,
        a.totalAllowed + (if e.verdict == Allow then 1 else 0),
        a.totalDenied + (if e.verdict == Deny then 1 else 0),
        Bump(a.perProcess, ProcessLabel(e)), Bump(a.perHost, HostOrIp(e)), BumpLast(a.activity))
  }

  function TickSpec(a: Acc): Acc {
    var s := a.activity + [0];
    a.(activity := if |s| > ACTIVITY_BUCKETS then s[|s| - ACTIVITY_BUCKETS..] else s)
  }

  // --- The history ---------------------------------------------------------------------------

  datatype Op = Recorded(event: EnrichedEvent) | Ticked

  function After(h: seq<Op>): Acc {
    if h == [] then EMPTY
    else Step(After(h[..|h| - 1]), h[|h| - 1])
  }

  function Step(a: Acc, op: Op): Acc {
    match op
    case Recorded(e) => RecordSpec(a, e)
    case Ticked => TickSpec(a)
  }

  lemma {:induction false} AfterStep(h: seq<Op>, op: Op)
    ensures After(h + [op]) == Step(After(h), op)
  {
    assert (h + [op])[..|h|] == h;
  }

  function CountOps(h: seq<Op>, p: EnrichedEvent -> bool): nat {
    if h == [] then 0
    else CountOps(h[..|h| - 1], p) + (if h[|h| - 1].Recorded? && p(h[|h| - 1].event) then 1 else 0)
  }

  function Always(): EnrichedEvent -> bool {
    (e: EnrichedEvent) => true
  }

  function WithVerdict(v: Verdict): EnrichedEvent -> bool {
    (e: EnrichedEvent) => e.verdict == v
  }

  function FromProcess(name: string): EnrichedEvent -> bool {
    (e: EnrichedEvent) => ProcessLabel(e) == name
  }

  function ToHost(name: string): EnrichedEvent -> bool {
    (e: EnrichedEvent) => HostOrIp(e) == name
  }

  /** Events recorded with exactly i ticks after them. */
  function RecordedTicksAgo(h: seq<Op>, i: nat): nat
    decreases |h|
  {
    if h == [] then 0
    else
      var before := h[..|h| - 1];
      match h[|h| - 1]
      case Recorded(_) => RecordedTicksAgo(before, i) + (if i == 0 then 1 else 0)
      case Ticked => if i == 0 then 0 else RecordedTicksAgo(before, i - 1)
  }

  ghost function SumValues(m: map<string, nat>): nat
    decreases |m|
  {
    if m == map[] then 0
    else
      var k :| k in m;
      m[k] + SumValues(m - {k})
  }

  lemma {:induction false} SumValuesRemove(m: map<string, nat>, k: string)
    requires k in m
    ensures SumValues(m) == m[k] + SumValues(m - {k})
    decreases |m|
  {
    var j :| j in m && SumValues(m) == m[j] + SumValues(m - {j});
    if j != k {
      SumValuesRemove(m - {j}, k);
      SumValuesRemove(m - {k}, j);
      assert m - {j} - {k} == m - {k} - {j};
    }
  }

  lemma {:induction false} SumValuesBump(m: map<string, nat>, k: string)
    ensures SumValues(Bump(m, k)) == SumValues(m) + 1
  {
    var b := Bump(m, k);
    SumValuesRemove(b, k);
    if k in m {
      SumValuesRemove(m, k);
      assert b - {k} == m - {k};
    } else {
      assert b - {k} == m;
    }
  }

  /** Totals count the recorded events; allowed and denied partition them. */
  lemma {:induction false} TotalsCountEvents(h: seq<Op>)
    ensures After(h).totalEvents == CountOps(h, Always()) == After(h).totalAllowed + After(h).totalDenied
    ensures After(h).totalAllowed == CountOps(h, WithVerdict(Allow))
    ensures After(h).totalDenied == CountOps(h, WithVerdict(Deny))
  {
    if h != [] {
      TotalsCountEvents(h[..|h| - 1]);
    }
  }

  /** Each table has exactly the labels that occurred, with their counts, and its
      counts add up to the total. */
  lemma {:induction false} TablesCountEvents(h: seq<Op>, name: string)
    ensures name in After(h).perProcess <==> CountOps(h, FromProcess(name)) > 0
    ensures name in After(h).perProcess ==> After(h).perProcess[name] == CountOps(h, FromProcess(name))
    ensures name in After(h).perHost <==> CountOps(h, ToHost(name)) > 0
    ensures name in After(h).perHost ==> After(h).perHost[name] == CountOps(h, ToHost(name))
  {
    if h != [] {
      TablesCountEvents(h[..|h| - 1], name);
    }
  }

  lemma {:induction false} TablesSumToTotal(h: seq<Op>)
    ensures SumValues(After(h).perProcess) == After(h).totalEvents
    ensures SumValues(After(h).perHost) == After(h).totalEvents
  {
    if h != [] {
      TablesSumToTotal(h[..|h| - 1]);
      var a := After(h[..|h| - 1]);
      if h[|h| - 1].Recorded? {
        SumValuesBump(a.perProcess, ProcessLabel(h[|h| - 1].event));
        SumValuesBump(a.perHost, HostOrIp(h[|h| - 1].event));
      }
    }
  }

  /** The ring always has its full width and its i-th bucket from the back counts
      the events recorded i ticks ago. */
  lemma {:induction false} ActivityCountsTicks(h: seq<Op>, i: nat)
    requires i < ACTIVITY_BUCKETS
    ensures |After(h).activity| == ACTIVITY_BUCKETS
    ensures After(h).activity[ACTIVITY_BUCKETS - 1 - i] == RecordedTicksAgo(h, i)
  {
    if h != [] {
      var before := h[..|h| - 1];
      ActivityCountsTicks(before, i);
      if h[|h| - 1].Ticked? && i > 0 {
        ActivityCountsTicks(before, i - 1);
      }
    }
  }

  // --- The ranking -----------------------------------------------------------------------------

  /** Higher counts first, equal counts by label. */
  predicate RankLe(a: LabeledCount, b: LabeledCount) {
    a.count > b.count || (a.count == b.count && TextLe(a.name, b.name))
  }

  lemma RankOrder()
    ensures TotalPreorder(RankLe)
  {
    forall a, b ensures RankLe(a, b) || RankLe(b, a) {
      TextLeTotal(a.name, b.name);
    }
    forall a, b, c | RankLe(a, b) && RankLe(b, c) ensures RankLe(a, c) {
      if a.count == b.count == c.count {
        TextLeTransitive(a.name, b.name, c.name);
      }
    }
  }

  type Table = m: map<string, nat> | forall k | k in m :: m[k] < 0x1_0000_0000_0000_0000 witness map[]

  function Row(m: Table, k: string): LabeledCount
    requires k in m
  {
    LabeledCount(k, m[k])
  }

  /** Every entry of the table once, in some order. */
  ghost predicate IsListing(m: Table, s: seq<LabeledCount>) {
    && (forall i :: 0 <= i < |s| ==> s[i].name in m && s[i] == Row(m, s[i].name))
    && (forall k | k in m :: Row(m, k) in s)
    && (forall i, j :: 0 <= i < j < |s| ==> s[i].name != s[j].name)
  }

  function Top(s: seq<LabeledCount>): seq<LabeledCount> {
    var sorted := StableSort(s, RankLe);
    if |sorted| > TOP_N then sorted[..TOP_N] else sorted
  }

  lemma {:induction false} DistinctOnce(s: seq<LabeledCount>, e: LabeledCount)
    requires forall i, j :: 0 <= i < j < |s| ==> s[i].name != s[j].name
    ensures multiset(s)[e] == if e in s then 1 else 0
  {
    if s != [] {
      assert s == [s[0]] + s[1..];
      DistinctOnce(s[1..], e);
      assert forall j :: 0 <= j < |s[1..]| ==> s[1..][j].name != s[0].name;
    }
  }

  /** The published rows do not depend on the order in which the hash map is
      iterated. */
  lemma TopIndependentOfIteration(m: Table, s: seq<LabeledCount>, t: seq<LabeledCount>)
    requires IsListing(m, s) && IsListing(m, t)
    ensures Top(s) == Top(t)
  {
    forall e ensures multiset(s)[e] == multiset(t)[e] {
      DistinctOnce(s, e);
      DistinctOnce(t, e);
    }
    assert multiset(s) == multiset(t);
    forall x, y | x in s && y in s && RankLe(x, y) && RankLe(y, x) ensures x == y {
      TextLeAntisymmetric(x.name, y.name);
    }
    RankOrder();
    SortOfPermutation(s, t, RankLe);
  }

  lemma ListingTail(m: Table, s: seq<LabeledCount>)
    requires IsListing(m, s) && s != []
    ensures s[0].name in m && IsListing(m - {s[0].name}, s[1..])
  {
    hide Row;
    var n: Table := m - {s[0].name};
    assert forall i :: 0 <= i < |s[1..]| ==> s[1..][i] == s[i + 1];
    forall k | k in n ensures Row(n, k) in s[1..] {
      RowOfRest(m, s[0].name, k);
      assert Row(m, k) in s;
    }
    forall i | 0 <= i < |s[1..]| ensures s[1..][i].name in n && s[1..][i] == Row(n, s[1..][i].name) {
      RowOfRest(m, s[0].name, s[i + 1].name);
    }
  }

  lemma RowOfRest(m: Table, gone: string, k: string)
    requires k in m && k != gone
    ensures Row(m - {gone}, k) == Row(m, k) && Row(m, k).name == k
  {
  }

  lemma {:induction false} ListingLength(m: Table, s: seq<LabeledCount>)
    requires IsListing(m, s)
    ensures |s| == |m|
    decreases |s|
  {
    if s == [] {
      assert m.Keys == {};
    } else {
      ListingTail(m, s);
      hide IsListing;
      var n: Table := m - {s[0].name};
      assert m.Keys == n.Keys + {s[0].name};
      ListingLength(n, s[1..]);
    }
  }

  /** min(10, entries) rows, ranked, each a table entry, none beaten by an entry
      that was left out. */
  ghost predicate IsTop(m: Table, v: seq<LabeledCount>) {
    && |v| == (if |m| < TOP_N then |m| else TOP_N)
    && Sorted(v, RankLe)
    && (forall e | e in v :: e.name in m && e == Row(m, e.name))
    && (forall k, e | k in m && e in v :: Row(m, k) !in v ==> RankLe(e, Row(m, k)))
  }

  lemma {:induction false} RankedListing(m: Table, s: seq<LabeledCount>)
    requires IsListing(m, s)
    ensures var sorted := StableSort(s, RankLe);
      && |sorted| == |m| && Sorted(sorted, RankLe)
      && (forall e | e in sorted :: e.name in m && e == Row(m, e.name))
      && (forall k | k in m :: Row(m, k) in sorted)
  {
    RankOrder();
    SortSorted(s, RankLe);
    SortPermutes(s, RankLe);
    SortMembers(s, RankLe);
    ListingLength(m, s);
  }

  lemma TopIsTop(m: Table, s: seq<LabeledCount>)
    requires IsListing(m, s)
    ensures IsTop(m, Top(s))
  {
    var sorted := StableSort(s, RankLe);
    RankedListing(m, s);
    var n := if |sorted| > TOP_N then TOP_N else |sorted|;
    var v := Top(s);
    assert v == sorted[..n];
    forall k, e | k in m && e in v && Row(m, k) !in v ensures RankLe(e, Row(m, k)) {
      KeptPrefixIsBest(sorted, n, RankLe, e, Row(m, k));
    }
  }

  // --- The snapshot ----------------------------------------------------------------------------

  /** Counters are 64 bits wide. */
  function Wrapped(n: nat): u64 {
    n % 0x1_0000_0000_0000_0000
  }

  function WrappedTable(m: map<string, nat>): Table {
    map k | k in m :: Wrapped(m[k])
  }

  ghost predicate IsSnapshot(a: Acc, s: Stats) {
    && s.totalEvents == Wrapped(a.totalEvents)
    && s.totalAllowed == Wrapped(a.totalAllowed) && s.totalDenied == Wrapped(a.totalDenied)
    && s.activity == Map(a.activity, Wrapped)
    && IsTop(WrappedTable(a.perProcess), s.topProcesses) && IsTop(WrappedTable(a.perHost), s.topHosts)
  }

  lemma {:induction false} SmallTable(m: map<string, nat>)
    requires SumValues(m) < 0x1_0000_0000_0000_0000
    ensures WrappedTable(m) == m
  {
    forall k | k in m ensures Wrapped(m[k]) == m[k] {
      SumValuesRemove(m, k);
    }
  }

  lemma {:induction false} SmallActivity(h: seq<Op>)
    requires After(h).totalEvents < 0x1_0000_0000_0000_0000
    ensures Map(After(h).activity, Wrapped) == After(h).activity
  {
    hide After;
    var activity := After(h).activity;
    ActivityCountsTicks(h, 0);
    TotalsCountEvents(h);
    forall i | 0 <= i < |activity| ensures Wrapped(activity[i]) == activity[i] {
      ActivityCountsTicks(h, ACTIVITY_BUCKETS - 1 - i);
      AgoBound(h, ACTIVITY_BUCKETS - 1 - i);
    }
  }

  /** Until 2^64 events have been recorded no counter of a snapshot has wrapped. */
  lemma {:induction false} SnapshotIsExact(h: seq<Op>, s: Stats)
    requires IsSnapshot(After(h), s) && CountOps(h, Always()) < 0x1_0000_0000_0000_0000
    ensures var a := After(h);
      && s.totalEvents == a.totalEvents && s.totalAllowed == a.totalAllowed && s.totalDenied == a.totalDenied
      && s.activity == a.activity
      && WrappedTable(a.perProcess) == a.perProcess && WrappedTable(a.perHost) == a.perHost
  {
    hide After, IsTop, WrappedTable;
    TotalsCountEvents(h);
    TablesSumToTotal(h);
    SmallTable(After(h).perProcess);
    SmallTable(After(h).perHost);
    SmallActivity(h);
  }

  /** Each row of a snapshot carries its label's count in the history, in 64 bits. */
  lemma {:induction false} SnapshotRows(h: seq<Op>, s: Stats)
    requires IsSnapshot(After(h), s)
    ensures forall e | e in s.topProcesses :: e.count == Wrapped(CountOps(h, FromProcess(e.name)))
    ensures forall e | e in s.topHosts :: e.count == Wrapped(CountOps(h, ToHost(e.name)))
  {
    hide After, CountOps, Sorted, RankLe;
    forall e | e in s.topProcesses ensures e.count == Wrapped(CountOps(h, FromProcess(e.name))) {
      TablesCountEvents(h, e.name);
    }
    forall e | e in s.topHosts ensures e.count == Wrapped(CountOps(h, ToHost(e.name))) {
      TablesCountEvents(h, e.name);
    }
  }

  /** Its i-th bucket from the back counts the events of i ticks ago, in 64 bits. */
  lemma {:induction false} SnapshotBuckets(h: seq<Op>, s: Stats)
    requires IsSnapshot(After(h), s)
    ensures |s.activity| == ACTIVITY_BUCKETS
    ensures forall i: nat :: i < ACTIVITY_BUCKETS ==>
      s.activity[ACTIVITY_BUCKETS - 1 - i] == Wrapped(RecordedTicksAgo(h, i))
  {
    hide After, RecordedTicksAgo, IsTop;
    ActivityCountsTicks(h, 0);
    forall i: nat | i < ACTIVITY_BUCKETS
      ensures s.activity[ACTIVITY_BUCKETS - 1 - i] == Wrapped(RecordedTicksAgo(h, i))
    {
      ActivityCountsTicks(h, i);
    }
  }

  // --- The accumulator as the daemon keeps it -----------------------------------------------------

  class Accumulator {
    var totalEvents: nat
    var totalAllowed: nat
    var totalDenied: nat
    var perProcess: map<string, nat>
    var perHost: map<string, nat>
    var activity: seq<nat>
    ghost var history: seq<Op>

    ghost function State(): Acc
      reads this
    {
      Acc(totalEvents, totalAllowed, totalDenied, perProcess, perHost, activity)
    }

    ghost predicate Valid()
      reads this
    {
      State() == After(history)
    }

    constructor ()
      ensures Valid() && history == []
    {
      totalEvents, totalAllowed, totalDenied := 0, 0, 0;
      perProcess, perHost := map[], map[];
      activity := Zeros(ACTIVITY_BUCKETS);
      history := [];
    }

    static method Increment(m: map<string, nat>, name: string) returns (r: map<string, nat>)
      ensures r == Bump(m, name)
    {
      r := m[name := (if name in m then m[name] else 0) + 1];
    }

    method Record(e: EnrichedEvent)
      requires Valid()
      modifies this
      ensures Valid() && history == old(history) + [Recorded(e)]
      ensures State() == RecordSpec(old(State()), e)
    {
      hide ProcessLabel, HostOrIp, After, Bump;
      totalEvents := totalEvents + 1;
      match e.verdict {
        case Allow => totalAllowed := totalAllowed + 1;
        case Deny => totalDenied := totalDenied + 1;
      }
      perProcess := Increment(perProcess, ProcessLabel(e));
      perHost := Increment(perHost, HostOrIp(e));
      if |activity| > 0 {
        activity := activity[|activity| - 1 := activity[|activity| - 1] + 1];
      }
      history := history + [Recorded(e)];
      AfterStep(old(history), Recorded(e));
    }

    method Tick()
      requires Valid()
      modifies this
      ensures Valid() && history == old(history) + [Ticked]
      ensures State() == TickSpec(old(State()))
    {
      hide After;
      ghost var pushed := activity + [0];
      activity := activity + [0];
      while |activity| > ACTIVITY_BUCKETS
        invariant |activity| <= |pushed|
        invariant activity == pushed[|pushed| - |activity|..]
        invariant |pushed| > ACTIVITY_BUCKETS ==> |activity| >= ACTIVITY_BUCKETS
        invariant |pushed| <= ACTIVITY_BUCKETS ==> activity == pushed
        invariant State() == old(State()).(activity := activity) && history == old(history)
      {
        activity := activity[1..];
      }
      history := history + [Ticked];
      AfterStep(old(history), Ticked);
    }

    /** The snapshot that is published. */
    method Snapshot() returns (s: Stats)
      ensures IsSnapshot(State(), s)
    {
      var processes := TopN(WrappedTable(perProcess));
      var hosts := TopN(WrappedTable(perHost));
      s := Stats(Wrapped(totalEvents), Wrapped(totalAllowed), Wrapped(totalDenied), processes, hosts,
        Map(activity, Wrapped));
    }
  }

  lemma {:induction false} AgoBound(h: seq<Op>, i: nat)
    ensures RecordedTicksAgo(h, i) <= CountOps(h, Always())
    decreases |h|
  {
    if h != [] {
      var before := h[..|h| - 1];
      AgoBound(before, i);
      if i > 0 {
        AgoBound(before, i - 1);
      }
    }
  }

  /** Lists the table in whatever order its iterator yields, sorts and truncates. */
  method TopN(m: Table) returns (v: seq<LabeledCount>)
    ensures IsTop(m, v)
    ensures forall s | IsListing(m, s) :: v == Top(s)
  {
    var listed: seq<LabeledCount> := [];
    var left := m.Keys;
    while left != {}
      invariant left <= m.Keys
      invariant forall i :: 0 <= i < |listed| ==>
        listed[i].name in m && listed[i].name !in left && listed[i] == Row(m, listed[i].name)
      invariant forall k | k in m && k !in left :: Row(m, k) in listed
      invariant forall i, j :: 0 <= i < j < |listed| ==> listed[i].name != listed[j].name
      decreases |left|
    {
      var k :| k in left;
      left := left - {k};
      listed := listed + [LabeledCount(k, m[k])];
    }
    TopIsTop(m, listed);
    forall s | IsListing(m, s) ensures Top(listed) == Top(s) {
      TopIndependentOfIteration(m, listed, s);
    }
    v := StableSort(listed, RankLe);
    if |v| > TOP_N {
      v := v[..TOP_N];
    }
  }

  // --- In words and numbers ----------------------------------------------------------------------

  /** A process is shown by its path and otherwise by its command, a destination by its
      name and otherwise by its address; empty texts count as missing. */
  lemma LabelsMean(e: EnrichedEvent)
    ensures ProcessLabel(e) == if e.exePath.Some? && e.exePath.value != "" then e.exePath.value else e.comm
    ensures HostOrIp(e) == if e.hostname.Some? && e.hostname.value != "" then e.hostname.value else IpString(e)
  {
    hide IpString;
  }

  /** More events come first, and of equally many the name that is first in dictionary
      order. */
  lemma RankMeans(a: LabeledCount, b: LabeledCount)
    ensures RankLe(a, b) <==>
      || a.count > b.count
      || (a.count == b.count && (a.name <= b.name || exists i :: SmallerAt(a.name, b.name, i)))
  {
    TextLeMeans(a.name, b.name);
  }

  /** Ten rows are shown at most, and two minutes of activity are kept. */
  lemma {:induction false} Widths(h: seq<Op>, m: Table, s: seq<LabeledCount>)
    requires IsListing(m, s)
    ensures |Top(s)| == if |m| < 10 then |m| else 10
    ensures |After(h).activity| == 120
  {
    hide After, Top, IsListing;
    TopIsTop(m, s);
    ActivityCountsTicks(h, 0);
  }
}
