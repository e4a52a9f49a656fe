/** The wire format in its plain form: every value is its own bytes, and a message is
    the concatenation of its fields. The encoders, which nest instead, produce exactly
    these bytes. */
module Wire {
  import opened Base
  import opened Proto
  import opened Codec
  import opened MessageCodec
  import Framing

  /** Seven bits a byte, the least significant first; the top bit says that more follow. */
  function Varint(n: nat): Bytes {
    if n < 128 then [n] else [128 + n % 128] + Varint(n / 128)
  }

  function Text(s: string): Bytes {
    Varint(|Utf8(s)|) + Utf8(s)
  }

  function Optional(o: Option<string>): Bytes {
    match o
    case None => [0]
    case Some(s) => [1] + Text(s)
  }

  function Flag(b: bool): Bytes {
    if b then [1] else [0]
  }

  function Items<T>(xs: seq<T>, bytes: T -> Bytes): Bytes {
    if xs == [] then [] else bytes(xs[0]) + Items(xs[1..], bytes)
  }

  function List<T>(xs: seq<T>, bytes: T -> Bytes): Bytes {
    Varint(|xs|) + Items(xs, bytes)
  }

  function FilterBytes(f: EventFilter): Bytes {
    Optional(f.processPathContains) + Optional(f.hostContains)
  }

  function CountBytes(c: LabeledCount): Bytes {
    Text(c.name) + Varint(c.count)
  }

  function RuleHead(r: RuleInfo): Bytes {
    Text(r.id) + Varint(r.priority) + Flag(r.enabled) + (if r.action == DenyRule then [1] else [0])
  }

  function RuleBytes(r: RuleInfo): Bytes {
    RuleHead(r) + (Text(r.duration) + List(r.matches, Text) + Text(r.path))
  }

  function StatsBytes(s: Stats): Bytes {
    Varint(s.totalEvents) + Varint(s.totalAllowed) + Varint(s.totalDenied)
    + List(s.topProcesses, CountBytes) + List(s.topHosts, CountBytes) + List(s.activity, Number)
  }

  function Number(n: u64): Bytes {
    Varint(n)
  }

  function EventHead(e: EnrichedEvent): Bytes {
    Varint(e.tsUnixNs) + Varint(e.pid) + Varint(e.uid) + Text(e.comm) + Optional(e.exePath)
  }

  function EventTail(e: EnrichedEvent): Bytes {
    e.daddrV6 + Varint(e.dport) + Optional(e.hostname) + (if e.verdict == Deny then [1] else [0])
    + Optional(e.matchedRule)
  }

  function EventBytes(e: EnrichedEvent): Bytes {
    EventHead(e) + ([e.family] + Varint(e.daddrV4)) + EventTail(e)
  }

  function DenyBytes(exe: Option<string>, host: Option<string>, ip: Option<string>, dport: u16,
                     kind: DenyRuleKind): Bytes
  {
    Optional(exe) + Optional(host) + Optional(ip) + Varint(dport) + KindBytes(kind)
  }

  function KindBytes(kind: DenyRuleKind): Bytes {
    match kind case Host => [0] case Process => [1] case Ip => [2] case Both => [3]
  }

  function ClientBytes(m: ClientMessage): Bytes {
    match m
    case Subscribe(None) => [0, 0]
    case Subscribe(Some(f)) => [0, 1] + FilterBytes(f)
    case Unsubscribe => [1]
    case CreateDenyRule(exe, host, ip, dport, kind) => [2] + DenyBytes(exe, host, ip, dport, kind)
    case ListRules => [3]
    case SetRuleEnabled(id, enabled) => [4] + Text(id) + Flag(enabled)
    case GetStats => [5]
  }

  function ServerBytes(m: ServerMessage): Bytes {
    match m
    case Hello(version) => [0] + Text(version)
    case Event(e) => [1] + EventBytes(e)
    case Done => [2]
    case Error(text) => [3] + Text(text)
    case Rules(rules) => [4] + List(rules, RuleBytes)
    case StatsReply(stats) => [5] + StatsBytes(stats)
  }

  // --- The encoders write these bytes ---------------------------------------------------

  lemma {:induction false} VarintBytes(n: nat, rest: Bytes)
    ensures EncVar(n, rest) == Varint(n) + rest
  {
    if n >= 128 {
      VarintBytes(n / 128, rest);
    }
  }

  lemma TextBytes(s: string, rest: Bytes)
    ensures EncStr(s, rest) == Text(s) + rest
  {
    VarintBytes(|Utf8(s)|, Utf8(s) + rest);
  }

  lemma OptionalBytes(o: Option<string>, rest: Bytes)
    ensures EncText(o, rest) == Optional(o) + rest
  {
    if o.Some? {
      TextBytes(o.value, rest);
    }
  }

  lemma {:induction false} ItemsBytes<T(!new)>(xs: seq<T>, enc: (T, Bytes) -> Bytes, bytes: T -> Bytes, rest: Bytes)
    requires forall x, more :: enc(x, more) == bytes(x) + more
    ensures EncAll(xs, enc, rest) == Items(xs, bytes) + rest
  {
    if xs != [] {
      ItemsBytes(xs[1..], enc, bytes, rest);
    }
  }

  lemma {:induction false} ListBytes<T(!new)>(xs: seq<T>, enc: (T, Bytes) -> Bytes, bytes: T -> Bytes, rest: Bytes)
    requires forall x, more :: enc(x, more) == bytes(x) + more
    ensures EncSeq(xs, enc, rest) == List(xs, bytes) + rest
  {
    ItemsBytes(xs, enc, bytes, rest);
    VarintBytes(|xs|, EncAll(xs, enc, rest));
  }

  lemma FilterIsBytes(f: EventFilter, rest: Bytes)
    ensures EncFilter(f, rest) == FilterBytes(f) + rest
  {
    hide EncText, Optional;
    OptionalBytes(f.hostContains, rest);
    OptionalBytes(f.processPathContains, EncText(f.hostContains, rest));
  }

  lemma CountIsBytes(c: LabeledCount, rest: Bytes)
    ensures EncCount(c, rest) == CountBytes(c) + rest
  {
    hide EncStr, Text;
    VarintBytes(c.count, rest);
    TextBytes(c.name, EncVar(c.count, rest));
  }

  lemma {:induction false} Small(n: nat, rest: Bytes)
    requires n < 128
    ensures EncVar(n, rest) == [n] + rest
  {
  }

  lemma {:induction false} RuleHeadIsBytes(r: RuleInfo, rest: Bytes)
    ensures EncStr(r.id, EncVar(r.priority, EncBool(r.enabled, EncAction(r.action, rest)))) == RuleHead(r) + rest
  {
    hide EncVar, EncStr, Text, Varint;
    var s3 := EncAction(r.action, rest);
    var s2 := EncBool(r.enabled, s3);
    Small(0, rest);
    Small(1, rest);
    VarintBytes(r.priority, s2);
    TextBytes(r.id, EncVar(r.priority, s2));
  }

  lemma {:induction false} RuleIsBytes(r: RuleInfo, rest: Bytes)
    ensures EncRuleInfo(r, rest) == RuleBytes(r) + rest
  {
    hide EncVar, EncStr, EncSeq, EncBool, EncAction, Text, Varint, List, RuleHead;
    var s6 := EncStr(r.path, rest);
    var s5 := EncSeq(r.matches, EncStr, s6);
    TextBytes(r.path, rest);
    forall s, more ensures EncStr(s, more) == Text(s) + more { TextBytes(s, more); }
    ListBytes(r.matches, EncStr, Text, s6);
    TextBytes(r.duration, s5);
    RuleHeadIsBytes(r, EncStr(r.duration, s5));
    assert EncStr(r.duration, s5) == Text(r.duration) + List(r.matches, Text) + Text(r.path) + rest;
  }

  lemma {:induction false} StatsIsBytes(s: Stats, rest: Bytes)
    ensures EncStats(s, rest) == StatsBytes(s) + rest
  {
    hide EncVar, EncSeq, Varint, List, EncCount, CountBytes;
    forall c, more ensures EncCount(c, more) == CountBytes(c) + more { CountIsBytes(c, more); }
    forall n: u64, more ensures EncU64(n, more) == Number(n) + more { VarintBytes(n, more); }
    var s5 := EncSeq(s.activity, EncU64, rest);
    var s4 := EncSeq(s.topHosts, EncCount, s5);
    var s3 := EncSeq(s.topProcesses, EncCount, s4);
    ListBytes(s.activity, EncU64, Number, rest);
    ListBytes(s.topHosts, EncCount, CountBytes, s5);
    ListBytes(s.topProcesses, EncCount, CountBytes, s4);
    VarintBytes(s.totalDenied, s3);
    VarintBytes(s.totalAllowed, EncVar(s.totalDenied, s3));
    VarintBytes(s.totalEvents, EncVar(s.totalAllowed, EncVar(s.totalDenied, s3)));
  }

  lemma {:induction false} EventTailIsBytes(e: EnrichedEvent, rest: Bytes)
    ensures EncEventTail(e, rest) == EventTail(e) + rest
  {
    hide EncVar, EncText, Varint, Optional;
    var s11 := EncText(e.matchedRule, rest);
    var s10 := EncVerdict(e.verdict, s11);
    var s9 := EncText(e.hostname, s10);
    OptionalBytes(e.matchedRule, rest);
    Small(0, s11);
    Small(1, s11);
    OptionalBytes(e.hostname, s10);
    VarintBytes(e.dport, s9);
  }

  lemma {:induction false} EventHeadIsBytes(e: EnrichedEvent, rest: Bytes)
    ensures EncVar(e.tsUnixNs, EncVar(e.pid, EncVar(e.uid, EncStr(e.comm, EncText(e.exePath, rest)))))
            == EventHead(e) + rest
  {
    hide EncVar, EncStr, EncText, Text, Varint, Optional;
    var s4 := EncText(e.exePath, rest);
    var s3 := EncStr(e.comm, s4);
    OptionalBytes(e.exePath, rest);
    TextBytes(e.comm, s4);
    VarintBytes(e.uid, s3);
    VarintBytes(e.pid, EncVar(e.uid, s3));
    VarintBytes(e.tsUnixNs, EncVar(e.pid, EncVar(e.uid, s3)));
  }

  lemma {:induction false} EventIsBytes(e: EnrichedEvent, rest: Bytes)
    ensures EncEvent(e, rest) == EventBytes(e) + rest
  {
    hide EncVar, EncStr, EncText, EncEventTail, Varint, EventHead, EventTail;
    var s7 := EncEventTail(e, rest);
    var s5 := [e.family] + EncVar(e.daddrV4, s7);
    EventTailIsBytes(e, rest);
    VarintBytes(e.daddrV4, s7);
    EventHeadIsBytes(e, s5);
    assert s5 == [e.family] + Varint(e.daddrV4) + (EventTail(e) + rest);
  }

  lemma {:induction false} DenyIsBytes(exe: Option<string>, host: Option<string>, ip: Option<string>, dport: u16,
                                       kind: DenyRuleKind, rest: Bytes)
    ensures EncText(exe, EncText(host, EncText(ip, EncVar(dport, EncKind(kind, rest)))))
            == DenyBytes(exe, host, ip, dport, kind) + rest
  {
    hide EncVar, EncText, EncKind, Varint, Optional;
    var s4 := KindBytes(kind) + rest;
    var s3 := Varint(dport) + s4;
    var s2 := Optional(ip) + s3;
    KindIsBytes(kind, rest);
    VarintBytes(dport, s4);
    OptionalBytes(ip, s3);
    OptionalBytes(host, s2);
    OptionalBytes(exe, Optional(host) + s2);
    Nested(Optional(exe), Optional(host), Optional(ip), Varint(dport), KindBytes(kind), rest);
  }

  lemma Nested(a: Bytes, b: Bytes, c: Bytes, d: Bytes, e: Bytes, rest: Bytes)
    ensures a + b + c + d + e + rest == a + (b + (c + (d + (e + rest))))
  {
  }

  lemma {:induction false} KindIsBytes(kind: DenyRuleKind, rest: Bytes)
    ensures EncKind(kind, rest) == KindBytes(kind) + rest
  {
    hide EncVar;
    Small(match kind case Host => 0 case Process => 1 case Ip => 2 case Both => 3, rest);
  }

  lemma {:induction false} ClientIsBytes(m: ClientMessage, rest: Bytes)
    ensures EncClient(m, rest) == ClientBytes(m) + rest
  {
    hide EncVar, EncStr, EncText, EncKind, EncFilter, Text, Varint, Optional, FilterBytes, DenyBytes;
    match m
    case Subscribe(filter) =>
      Small(0, EncOption(filter, EncFilter, rest));
      if filter.Some? {
        FilterIsBytes(filter.value, rest);
      }
    case Unsubscribe => Small(1, rest);
    case CreateDenyRule(exe, host, ip, dport, kind) =>
      DenyIsBytes(exe, host, ip, dport, kind, rest);
      Small(2, DenyBytes(exe, host, ip, dport, kind) + rest);
    case ListRules => Small(3, rest);
    case SetRuleEnabled(id, enabled) =>
      TextBytes(id, EncBool(enabled, rest));
      Small(4, EncStr(id, EncBool(enabled, rest)));
    case GetStats => Small(5, rest);
  }

  lemma {:induction false} ServerIsBytes(m: ServerMessage, rest: Bytes)
    ensures EncServer(m, rest) == ServerBytes(m) + rest
  {
    hide EncVar, EncStr, EncEvent, EncStats, EncSeq, EncRuleInfo, Text, EventBytes, StatsBytes, RuleBytes, List;
    match m
    case Hello(version) =>
      TextBytes(version, rest);
      Small(0, EncStr(version, rest));
    case Event(e) =>
      EventIsBytes(e, rest);
      Small(1, EncEvent(e, rest));
    case Done => Small(2, rest);
    case Error(text) =>
      TextBytes(text, rest);
      Small(3, EncStr(text, rest));
    case Rules(rules) =>
      forall r, more ensures EncRuleInfo(r, more) == RuleBytes(r) + more { RuleIsBytes(r, more); }
      ListBytes(rules, EncRuleInfo, RuleBytes, rest);
      Small(4, EncSeq(rules, EncRuleInfo, rest));
    case StatsReply(stats) =>
      StatsIsBytes(stats, rest);
      Small(5, EncStats(stats, rest));
  }

  // --- Frames ---------------------------------------------------------------------------

  /** A frame is the length of the message in four bytes, the most significant first,
      and the message; messages of more than a mebibyte are not written. */
  lemma FrameBytes(payload: Bytes)
    requires |payload| <= 1_048_576
    ensures Codec.MAX_FRAME == 1_048_576
    ensures var f := Framing.Frame(payload);
      && |f| == 4 + |payload| && f[4..] == payload
      && |payload| == 16_777_216 * (f[0] as int) + 65_536 * (f[1] as int) + 256 * (f[2] as int) + (f[3] as int)
  {
    hide Framing.BigEndian;
    BigEndianBytes(|payload|);
  }

  lemma BigEndianBytes(n: u32)
    ensures var b := Framing.BigEndian(n);
      n == 16_777_216 * (b[0] as int) + 65_536 * (b[1] as int) + 256 * (b[2] as int) + (b[3] as int)
  {
  }

  /** For example: switching the rule "r" off. */
  lemma FrameExample()
    ensures Framing.Frame(EncClient(SetRuleEnabled("r", false), [])) == [0, 0, 0, 4, 4, 1, 0x72, 0]
  {
    ClientIsBytes(SetRuleEnabled("r", false), []);
    assert "r"[1..] == "";
    assert Utf8("r") == [0x72] + Utf8("");
  }

  /** What one read makes of the bytes on the stream: without a whole frame the stream has
      ended; a length of more than a mebibyte is reported, with only the length consumed;
      otherwise exactly one frame is consumed, and it is the message its payload decodes
      to, if it does. */
  lemma ReadingMeans<T>(s: Bytes, dec: Bytes -> Decoded<T>, n: nat)
    requires |s| >= 4 ==>
      n == 16_777_216 * (s[0] as int) + 65_536 * (s[1] as int) + 256 * (s[2] as int) + (s[3] as int)
    ensures Framing.ReadSpec(s, dec) ==
      if |s| < 4 then (Framing.EndOfStream, [])
      else if n > 1_048_576 then (Framing.FrameTooLarge(n), s[4..])
      else if |s| < 4 + n then (Framing.EndOfStream, [])
      else (if dec(s[4..4 + n]).Some? then Framing.Message(dec(s[4..4 + n]).value.0) else Framing.Undecodable,
            s[4 + n..])
  {
    if |s| >= 4 {
      assert Framing.FromBigEndian(s[..4]) == n;
      if |s| >= 4 + n {
        assert s[4..][..n] == s[4..4 + n] && s[4..][n..] == s[4 + n..];
      }
    }
  }

  /** Bytes that no encoder writes in their place are refused: a flag or an option byte
      above one, and the number of a variant that does not exist. */
  lemma {:induction false} RefusedBytes(n: u8, tag: u32, dec: Bytes -> Decoded<string>, rest: Bytes)
    ensures n > 1 ==> DecBool([n] + rest) == None && DecOption([n] + rest, dec) == None
    ensures tag > 1 ==> DecVerdict(EncVar(tag, rest)) == None && DecAction(EncVar(tag, rest)) == None
    ensures tag > 3 ==> DecKind(EncVar(tag, rest)) == None
    ensures tag > 5 ==> DecClient(EncVar(tag, rest)) == None && DecServer(EncVar(tag, rest)) == None
    ensures DecBool([]) == None && DecOption([], dec) == None && DecKind([]) == None && DecClient([]) == None
  {
    hide EncVar;
    TagRoundTrip(tag, rest);
  }
}
