/** The address-to-name cache fed by captured DNS answers. */
module DnsCache {
  import opened Base
  import opened Addresses
  import opened Kernel

  /** Instants are nanoseconds of a monotone clock. */
  type Instant = nat

  const SECOND: nat := 1_000_000_000

  datatype RData = A(v4: Octets4) | AAAA(v6: Octets16) | Other
  datatype Record = Record(name: string, ttl: u32, data: RData)

  datatype DnsEntry = DnsEntry(hostname: string, expiresAt: Instant)
  type Cache = map<IpAddr, DnsEntry>

  function TrimDots(s: string): string {
    if s != "" && s[|s| - 1] == '.' then TrimDots(s[..|s| - 1]) else s
  }

  /** What one answer record, read at an instant, contributes to the cache. */
  function Entry(r: Record, now: Instant): Option<(IpAddr, DnsEntry)> {
    var name := TrimDots(r.name);
    if name == "" then None
    else
      var entry := DnsEntry(name, now + (if r.ttl < 1 then 1 else r.ttl) * SECOND);
      match r.data
      case A(a) => Some((V4(a), entry))
      case AAAA(a) => Some((V6(a), entry))
      case Other => None
  }

  function IngestOne(cache: Cache, r: Record, now: Instant): Cache {
    match Entry(r, now)
    case Some((ip, entry)) => cache[ip := entry]
    case None => cache
  }

  function Evict(cache: Cache, now: Instant): Cache {
    map ip | ip in cache && cache[ip].expiresAt > now :: cache[ip]
  }

  function Lookup(cache: Cache, ip: IpAddr, now: Instant): Option<string> {
    if ip in cache && cache[ip].expiresAt > now then Some(cache[ip].hostname) else None
  }

  // --- Events ------------------------------------------------------------------------------

  /** The address an event went to, unless it is the zero IPv4 address or of an
      unknown family. */
  function EventIp(e: ConnectEvent): Option<IpAddr> {
    if e.family == 4 then (if e.daddrV4 == 0 then None else Some(V4(WordBytes(e.daddrV4))))
    else if e.family == 6 then Some(V6(e.daddrV6))
    else None
  }

  function EventIpString(e: ConnectEvent): Option<string> {
    if e.family == 4 then (if e.daddrV4 == 0 then None else Some(V4Text(WordBytes(e.daddrV4))))
    else if e.family == 6 then Some(V6Text(e.daddrV6))
    else None
  }

  function LookupHost(e: ConnectEvent, cache: Cache, now: Instant): Option<string> {
    var ip :- EventIp(e);
    Lookup(cache, ip, now)
  }

  // --- The full history ------------------------------------------------------------------------

  /** Every address record ever ingested, oldest first. */
  type History = seq<(IpAddr, DnsEntry)>

  /** The name of the last record for the address, if that record has not expired. */
  function Scan(h: History, ip: IpAddr, now: Instant): Option<string> {
    if h == [] then None
    else
      var last := h[|h| - 1];
      if last.0 == ip then (if last.1.expiresAt > now then Some(last.1.hostname) else None)
      else Scan(h[..|h| - 1], ip, now)
  }

  function Recorded(h: History, r: Record, now: Instant): History {
    match Entry(r, now)
    case Some(x) => h + [x]
    case None => h
  }

  /** From an instant on, the cache answers as a scan of the history would. */
  ghost predicate Agrees(cache: Cache, h: History, now: Instant) {
    forall ip, t: Instant :: t >= now ==> Lookup(cache, ip, t) == Scan(h, ip, t)
  }

  lemma IngestAgrees(cache: Cache, h: History, r: Record, now: Instant, later: Instant)
    requires Agrees(cache, h, now) && now <= later
    ensures Agrees(IngestOne(cache, r, later), Recorded(h, r, later), later)
  {
    match Entry(r, later)
    case None =>
    case Some((ip, entry)) =>
      var h' := h + [(ip, entry)];
      assert h'[..|h|] == h;
      forall i, t: Instant | t >= later ensures Lookup(cache[ip := entry], i, t) == Scan(h', i, t) {
        assert Lookup(cache, i, t) == Scan(h, i, t);
      }
  }

  lemma EvictAgrees(cache: Cache, h: History, now: Instant, later: Instant)
    requires Agrees(cache, h, now) && now <= later
    ensures Agrees(Evict(cache, later), h, later)
  {
    forall ip, t: Instant | t >= later ensures Lookup(Evict(cache, later), ip, t) == Scan(h, ip, t) {
      assert Lookup(cache, ip, t) == Scan(h, ip, t);
    }
  }

  // --- Runs ------------------------------------------------------------------------------------

  datatype Op = Ingest(record: Record, at: Instant) | Tick(at: Instant)

  ghost predicate Monotone(ops: seq<Op>) {
    forall i, j :: 0 <= i < j < |ops| ==> ops[i].at <= ops[j].at
  }

  function StepCache(cache: Cache, op: Op): Cache {
    match op
    case Ingest(r, at) => IngestOne(cache, r, at)
    case Tick(at) => Evict(cache, at)
  }

  function RunCache(ops: seq<Op>): Cache {
    if ops == [] then map[] else StepCache(RunCache(ops[..|ops| - 1]), ops[|ops| - 1])
  }

  function RunHistory(ops: seq<Op>): History {
    if ops == [] then []
    else match ops[|ops| - 1]
      case Ingest(r, at) => Recorded(RunHistory(ops[..|ops| - 1]), r, at)
      case Tick(_) => RunHistory(ops[..|ops| - 1])
  }

  /** Eviction is unobservable: after any interleaving of ingests and ticks under
      a monotone clock, a lookup answers from the last record ever ingested for
      the address, as if nothing had been removed. */
  lemma {:induction false} EvictionUnobservable(ops: seq<Op>, now: Instant)
    requires Monotone(ops)
    requires forall i :: 0 <= i < |ops| ==> ops[i].at <= now
    ensures Agrees(RunCache(ops), RunHistory(ops), now)
  {
    if ops != [] {
      var before := ops[..|ops| - 1];
      var op := ops[|ops| - 1];
      EvictionUnobservable(before, op.at);
      match op
      case Ingest(r, at) => IngestAgrees(RunCache(before), RunHistory(before), r, at, at);
      case Tick(at) => EvictAgrees(RunCache(before), RunHistory(before), at, at);
    }
  }

  lemma {:induction false} LookupIsScan(ops: seq<Op>, e: ConnectEvent, now: Instant)
    requires Monotone(ops)
    requires forall i :: 0 <= i < |ops| ==> ops[i].at <= now
    ensures LookupHost(e, RunCache(ops), now) ==
            match EventIp(e) case None => None case Some(ip) => Scan(RunHistory(ops), ip, now)
  {
    EvictionUnobservable(ops, now);
  }

  // --- The answer section of one message ---------------------------------------------------------

  /** A record of one message, read at its own instant. */
  datatype Answer = Answer(record: Record, at: Instant)

  function IngestAll(cache: Cache, answers: seq<Answer>): Cache {
    if answers == [] then cache
    else
      var last := answers[|answers| - 1];
      IngestOne(IngestAll(cache, answers[..|answers| - 1]), last.record, last.at)
  }

  method IngestAnswers(cache: Cache, answers: seq<Answer>) returns (r: Cache)
    ensures r == IngestAll(cache, answers)
  {
    r := cache;
    for i := 0 to |answers|
      invariant r == IngestAll(cache, answers[..i])
    {
      assert answers[..i + 1][..i] == answers[..i];
      var record := answers[i].record;
      var name := TrimDots(record.name);
      if name == "" {
        continue;
      }
      var ttl := if record.ttl < 1 then 1 else record.ttl;
      var expiresAt := answers[i].at + ttl * SECOND;
      match record.data {
        case A(a) => r := r[V4(a) := DnsEntry(name, expiresAt)];
        case AAAA(a) => r := r[V6(a) := DnsEntry(name, expiresAt)];
        case Other => continue;
      }
    }
    assert answers[..|answers|] == answers;
  }

  // --- What the cache knows ----------------------------------------------------------------------

  /** Trimming takes away the dots at the end, all of them and nothing else. */
  lemma {:induction false} TrimmedDots(s: string)
    ensures TrimDots(s) <= s
    ensures forall i :: |TrimDots(s)| <= i < |s| ==> s[i] == '.'
    ensures TrimDots(s) != "" ==> TrimDots(s)[|TrimDots(s)| - 1] != '.'
  {
    if s != "" && s[|s| - 1] == '.' {
      TrimmedDots(s[..|s| - 1]);
    }
  }

  /** The address an answer record is about. */
  function Subject(r: Record): Option<IpAddr> {
    match r.data
    case A(a) => Some(V4(a))
    case AAAA(a) => Some(V6(a))
    case Other => None
  }

  /** An address record gives its address its name, without the dots at the end, for its
      time to live but at least a second, to the nanosecond; it replaces what was known
      and touches no other address. Other records and empty names do nothing. */
  lemma NameLasts(cache: Cache, r: Record, at: Instant, ip: IpAddr, later: Instant)
    ensures var after := IngestOne(cache, r, at);
      if Subject(r) == Some(ip) && (exists i :: 0 <= i < |r.name| && r.name[i] != '.') then
        Lookup(after, ip, later) ==
          if later < at + (if r.ttl == 0 then 1 else r.ttl) * 1_000_000_000 then Some(TrimDots(r.name)) else None
      else
        Lookup(after, ip, later) == Lookup(cache, ip, later)
  {
    TrimmedDots(r.name);
  }

  /** Eviction drops exactly the entries whose time has come. */
  lemma EvictMeans(cache: Cache, now: Instant, ip: IpAddr)
    ensures ip in Evict(cache, now) <==> ip in cache && now < cache[ip].expiresAt
    ensures ip in Evict(cache, now) ==> Evict(cache, now)[ip] == cache[ip]
  {
  }

  /** The address an event is looked up by is that of its family, and its text is the
      text of that address; 0.0.0.0 and unknown families have neither. */
  lemma AddressOfEvent(e: ConnectEvent)
    ensures EventIp(e) == if e.family == 4 && e.daddrV4 != 0 then Some(V4(WordBytes(e.daddrV4)))
                          else if e.family == 6 then Some(V6(e.daddrV6)) else None
    ensures EventIpString(e) == match EventIp(e)
      case None => None
      case Some(V4(a)) => Some(V4Text(a))
      case Some(V6(a)) => Some(V6Text(a))
  {
    hide V4Text, V6Text, WordBytes;
  }
}
