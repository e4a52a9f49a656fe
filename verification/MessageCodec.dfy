/** Encoding and decoding of the client and server messages, field by field in
    declaration order. */
module MessageCodec {
  import opened Base
  import opened Addresses
  import opened Proto
  import opened Codec

  // --- Small enumerations and booleans -------------------------------------------

  function EncBool(b: bool, rest: Bytes): Bytes {
    [if b then 1 else 0] + rest
  }

  function DecBool(s: Bytes): Decoded<bool> {
    if s == [] || s[0] > 1 then None else Some((s[0] == 1, s[1..]))
  }

  function EncKind(k: DenyRuleKind, rest: Bytes): Bytes {
    EncVar(match k case Host => 0 case Process => 1 case Ip => 2 case Both => 3, rest)
  }

  function DecKind(s: Bytes): Decoded<DenyRuleKind> {
    var (tag, t) :- DecU32(s);
    match tag
    case 0 => Some((Host, t))
    case 1 => Some((Process, t))
    case 2 => Some((Ip, t))
    case 3 => Some((Both, t))
    case _ => None
  }

  function EncVerdict(v: Verdict, rest: Bytes): Bytes {
    EncVar(match v case Allow => 0 case Deny => 1, rest)
  }

  function DecVerdict(s: Bytes): Decoded<Verdict> {
    var (tag, t) :- DecU32(s);
    match tag
    case 0 => Some((Allow, t))
    case 1 => Some((Deny, t))
    case _ => None
  }

  function EncAction(a: RuleAction, rest: Bytes): Bytes {
    EncVar(match a case AllowRule => 0 case DenyRule => 1, rest)
  }

  function DecAction(s: Bytes): Decoded<RuleAction> {
    var (tag, t) :- DecU32(s);
    match tag
    case 0 => Some((AllowRule, t))
    case 1 => Some((DenyRule, t))
    case _ => None
  }

  lemma BoolRoundTrip(b: bool, rest: Bytes)
    ensures DecBool(EncBool(b, rest)) == Some((b, rest))
  {
    assert EncBool(b, rest)[1..] == rest;
  }

  lemma KindRoundTrip(k: DenyRuleKind, rest: Bytes)
    ensures DecKind(EncKind(k, rest)) == Some((k, rest))
  {
    TagRoundTrip(match k case Host => 0 case Process => 1 case Ip => 2 case Both => 3, rest);
  }

  lemma VerdictRoundTrip(v: Verdict, rest: Bytes)
    ensures DecVerdict(EncVerdict(v, rest)) == Some((v, rest))
  {
    TagRoundTrip(match v case Allow => 0 case Deny => 1, rest);
  }

  lemma ActionRoundTrip(a: RuleAction, rest: Bytes)
    ensures DecAction(EncAction(a, rest)) == Some((a, rest))
  {
    TagRoundTrip(match a case AllowRule => 0 case DenyRule => 1, rest);
  }

  lemma {:induction false} TagRoundTrip(tag: u32, rest: Bytes)
    ensures DecU32(EncVar(tag, rest)) == Some((tag, rest))
  {
    IntegerRoundTrip(rest);
  }

  lemma U8RoundTrip(n: u8, rest: Bytes)
    ensures DecU8([n] + rest) == Some((n, rest))
  {
    IntegerRoundTrip(rest);
  }

  lemma {:induction false} U16RoundTrip(n: u16, rest: Bytes)
    ensures DecU16(EncVar(n, rest)) == Some((n, rest))
  {
    IntegerRoundTrip(rest);
  }

  lemma {:induction false} U64RoundTrip(n: u64, rest: Bytes)
    ensures DecU64(EncVar(n, rest)) == Some((n, rest))
  {
    IntegerRoundTrip(rest);
  }

  /** A fixed array of sixteen bytes has no length prefix. */
  function DecOctets(s: Bytes): Decoded<Octets16> {
    if |s| < 16 then None else Some((s[..16], s[16..]))
  }

  lemma OctetsRoundTrip(a: Octets16, rest: Bytes)
    ensures DecOctets(a + rest) == Some((a, rest))
  {
    assert (a + rest)[..16] == a && (a + rest)[16..] == rest;
  }

  function EncText(o: Option<string>, rest: Bytes): Bytes {
    EncOption(o, EncStr, rest)
  }

  function DecText(s: Bytes): Decoded<Option<string>> {
    DecOption(s, DecStr)
  }

  lemma TextRoundTrip(o: Option<string>, rest: Bytes)
    ensures |EncText(o, rest)| > |rest|
    ensures |EncText(o, rest)| <= MAX_FRAME ==> DecText(EncText(o, rest)) == Some((o, rest))
  {
    StringsInverse();
    if |EncText(o, rest)| <= MAX_FRAME {
      OptionRoundTrip(o, EncStr, DecStr, rest);
    }
  }

  // --- Records ---------------------------------------------------------------------

  function EncFilter(f: EventFilter, rest: Bytes): Bytes {
    EncText(f.processPathContains, EncText(f.hostContains, rest))
  }

  function DecFilter(s: Bytes): Decoded<EventFilter> {
    var (p, s1) :- DecText(s);
    var (h, s2) :- DecText(s1);
    Some((EventFilter(p, h), s2))
  }

  lemma FilterInverse()
    ensures Inverse(EncFilter, DecFilter)
  {
    forall f: EventFilter, rest: Bytes
      ensures |EncFilter(f, rest)| > |rest|
      ensures |EncFilter(f, rest)| <= MAX_FRAME ==> DecFilter(EncFilter(f, rest)) == Some((f, rest))
    {
      TextRoundTrip(f.hostContains, rest);
      TextRoundTrip(f.processPathContains, EncText(f.hostContains, rest));
    }
  }

  function EncCount(c: LabeledCount, rest: Bytes): Bytes {
    EncStr(c.name, EncVar(c.count, rest))
  }

  function DecCount(s: Bytes): Decoded<LabeledCount> {
    var (name, s1) :- DecStr(s);
    var (count, s2) :- DecU64(s1);
    Some((LabeledCount(name, count), s2))
  }

  lemma CountInverse()
    ensures Inverse(EncCount, DecCount)
  {
    forall c: LabeledCount, rest: Bytes | |EncCount(c, rest)| <= MAX_FRAME
      ensures DecCount(EncCount(c, rest)) == Some((c, rest))
    {
      StrRoundTrip(c.name, EncVar(c.count, rest));
      U64RoundTrip(c.count, rest);
    }
  }

  function EncRuleInfo(r: RuleInfo, rest: Bytes): Bytes {
    EncStr(r.id, EncVar(r.priority, EncBool(r.enabled, EncAction(r.action,
      EncStr(r.duration, EncSeq(r.matches, EncStr, EncStr(r.path, rest)))))))
  }

  function DecRuleInfo(s: Bytes): Decoded<RuleInfo> {
    var (id, s1) :- DecStr(s);
    var (priority, s2) :- DecU32(s1);
    var (enabled, s3) :- DecBool(s2);
    var (action, s4) :- DecAction(s3);
    var (duration, s5) :- DecStr(s4);
    var (matches, s6) :- DecSeq(s5, DecStr);
    var (path, s7) :- DecStr(s6);
    Some((RuleInfo(id, priority, enabled, action, duration, matches, path), s7))
  }

  lemma RuleInfoRoundTrip(r: RuleInfo, rest: Bytes)
    ensures |EncRuleInfo(r, rest)| > |rest|
    ensures |EncRuleInfo(r, rest)| <= MAX_FRAME ==> DecRuleInfo(EncRuleInfo(r, rest)) == Some((r, rest))
  {
    StringsInverse();
    var s6 := EncStr(r.path, rest);
    var s5 := EncSeq(r.matches, EncStr, s6);
    AllLength(r.matches, EncStr, DecStr, s6);
    var s4 := EncStr(r.duration, s5);
    var s3 := EncAction(r.action, s4);
    var s2 := EncBool(r.enabled, s3);
    var s1 := EncVar(r.priority, s2);
    assert |s1| > |s2| > |s3| > |s4| > |s5| > |s6| > |rest|;
    if |EncRuleInfo(r, rest)| <= MAX_FRAME {
      SeqRoundTrip(r.matches, EncStr, DecStr, s6);
      TagRoundTrip(r.priority, s2);
      ActionRoundTrip(r.action, s4);
      BoolRoundTrip(r.enabled, s3);
    }
  }

  lemma RuleInfoInverse()
    ensures Inverse(EncRuleInfo, DecRuleInfo)
  {
    forall r: RuleInfo, rest: Bytes
      ensures |EncRuleInfo(r, rest)| > |rest|
      ensures |EncRuleInfo(r, rest)| <= MAX_FRAME ==> DecRuleInfo(EncRuleInfo(r, rest)) == Some((r, rest))
    {
      RuleInfoRoundTrip(r, rest);
    }
  }

  function EncStats(s: Stats, rest: Bytes): Bytes {
    EncVar(s.totalEvents, EncVar(s.totalAllowed, EncVar(s.totalDenied,
      EncSeq(s.topProcesses, EncCount, EncSeq(s.topHosts, EncCount, EncSeq(s.activity, EncU64, rest))))))
  }

  function DecStats(s: Bytes): Decoded<Stats> {
    var (events, s1) :- DecU64(s);
    var (allowed, s2) :- DecU64(s1);
    var (denied, s3) :- DecU64(s2);
    var (processes, s4) :- DecSeq(s3, DecCount);
    var (hosts, s5) :- DecSeq(s4, DecCount);
    var (activity, s6) :- DecSeq(s5, DecU64);
    Some((Stats(events, allowed, denied, processes, hosts, activity), s6))
  }

  lemma StatsRoundTrip(s: Stats, rest: Bytes)
    ensures |EncStats(s, rest)| > |rest|
    ensures |EncStats(s, rest)| <= MAX_FRAME ==> DecStats(EncStats(s, rest)) == Some((s, rest))
  {
    CountInverse();
    U64sInverse();
    var s5 := EncSeq(s.activity, EncU64, rest);
    AllLength(s.activity, EncU64, DecU64, rest);
    var s4 := EncSeq(s.topHosts, EncCount, s5);
    AllLength(s.topHosts, EncCount, DecCount, s5);
    var s3 := EncSeq(s.topProcesses, EncCount, s4);
    AllLength(s.topProcesses, EncCount, DecCount, s4);
    var s2 := EncVar(s.totalDenied, s3);
    var s1 := EncVar(s.totalAllowed, s2);
    assert |s1| > |s2| > |s3| > |s4| > |s5| > |rest|;
    if |EncStats(s, rest)| <= MAX_FRAME {
      SeqRoundTrip(s.activity, EncU64, DecU64, rest);
      SeqRoundTrip(s.topHosts, EncCount, DecCount, s5);
      SeqRoundTrip(s.topProcesses, EncCount, DecCount, s4);
      U64RoundTrip(s.totalDenied, s3);
      U64RoundTrip(s.totalAllowed, s2);
      U64RoundTrip(s.totalEvents, s1);
    }
  }

  /** The second half of an event, from the address on. */
  function EncEventTail(e: EnrichedEvent, rest: Bytes): Bytes {
    e.daddrV6 + EncVar(e.dport, EncText(e.hostname, EncVerdict(e.verdict, EncText(e.matchedRule, rest))))
  }

  function EncEvent(e: EnrichedEvent, rest: Bytes): Bytes {
    EncVar(e.tsUnixNs, EncVar(e.pid, EncVar(e.uid, EncStr(e.comm, EncText(e.exePath,
      [e.family] + EncVar(e.daddrV4, EncEventTail(e, rest)))))))
  }

  function DecEvent(s: Bytes): Decoded<EnrichedEvent> {
    var (ts, s1) :- DecU64(s);
    var (pid, s2) :- DecU32(s1);
    var (uid, s3) :- DecU32(s2);
    var (comm, s4) :- DecStr(s3);
    var (exe, s5) :- DecText(s4);
    var (family, s6) :- DecU8(s5);
    var (v4, s7) :- DecU32(s6);
    var (v6, s8) :- DecOctets(s7);
    var (dport, s9) :- DecU16(s8);
    var (host, s10) :- DecText(s9);
    var (verdict, s11) :- DecVerdict(s10);
    var (rule, s12) :- DecText(s11);
    Some((EnrichedEvent(ts, pid, uid, comm, exe, family, v4, v6, dport, host, verdict, rule), s12))
  }

  lemma EventTailRoundTrip(e: EnrichedEvent, rest: Bytes)
    returns (s8: Bytes, s9: Bytes, s10: Bytes, s11: Bytes)
    ensures |EncEventTail(e, rest)| > |s8| > |s9| > |s10| > |s11| > |rest|
    ensures DecOctets(EncEventTail(e, rest)) == Some((e.daddrV6, s8))
    ensures DecU16(s8) == Some((e.dport, s9))
    ensures |s9| <= MAX_FRAME ==> DecText(s9) == Some((e.hostname, s10))
    ensures |s10| <= MAX_FRAME ==> DecVerdict(s10) == Some((e.verdict, s11))
    ensures |s11| <= MAX_FRAME ==> DecText(s11) == Some((e.matchedRule, rest))
  {
    VerdictRoundTrip(e.verdict, EncText(e.matchedRule, rest));
    s11 := EncText(e.matchedRule, rest);
    s10 := EncVerdict(e.verdict, s11);
    s9 := EncText(e.hostname, s10);
    s8 := EncVar(e.dport, s9);
    TextRoundTrip(e.matchedRule, rest);
    TextRoundTrip(e.hostname, s10);
    U16RoundTrip(e.dport, s9);
    OctetsRoundTrip(e.daddrV6, s8);
  }

  lemma EventRoundTrip(e: EnrichedEvent, rest: Bytes)
    ensures |EncEvent(e, rest)| > |rest|
    ensures |EncEvent(e, rest)| <= MAX_FRAME ==> DecEvent(EncEvent(e, rest)) == Some((e, rest))
  {
    var s8, s9, s10, s11 := EventTailRoundTrip(e, rest);
    var s7 := EncEventTail(e, rest);
    var s6 := EncVar(e.daddrV4, s7);
    var s5 := [e.family] + s6;
    var s4 := EncText(e.exePath, s5);
    var s3 := EncStr(e.comm, s4);
    var s2 := EncVar(e.uid, s3);
    var s1 := EncVar(e.pid, s2);
    TextRoundTrip(e.exePath, s5);
    assert |s1| > |s2| > |s3| > |s4| > |s5| > |s6| > |s7|;
    if |EncEvent(e, rest)| <= MAX_FRAME {
      TagRoundTrip(e.daddrV4, s7);
      U8RoundTrip(e.family, s6);
      StrRoundTrip(e.comm, s4);
      TagRoundTrip(e.uid, s3);
      TagRoundTrip(e.pid, s2);
      U64RoundTrip(e.tsUnixNs, s1);
    }
  }

  // --- Client messages -----------------------------------------------------------------

  function EncClient(m: ClientMessage, rest: Bytes): Bytes {
    match m
    case Subscribe(filter) => EncVar(0, EncOption(filter, EncFilter, rest))
    case Unsubscribe => EncVar(1, rest)
    case CreateDenyRule(exe, host, ip, dport, kind) =>
      EncVar(2, EncText(exe, EncText(host, EncText(ip, EncVar(dport, EncKind(kind, rest))))))
    case ListRules => EncVar(3, rest)
    case SetRuleEnabled(id, enabled) => EncVar(4, EncStr(id, EncBool(enabled, rest)))
    case GetStats => EncVar(5, rest)
  }

  function DecCreate(s: Bytes): Decoded<ClientMessage> {
    var (exe, s1) :- DecText(s);
    var (host, s2) :- DecText(s1);
    var (ip, s3) :- DecText(s2);
    var (dport, s4) :- DecU16(s3);
    var (kind, s5) :- DecKind(s4);
    Some((CreateDenyRule(exe, host, ip, dport, kind), s5))
  }

  function DecToggle(s: Bytes): Decoded<ClientMessage> {
    var (id, s1) :- DecStr(s);
    var (enabled, s2) :- DecBool(s1);
    Some((SetRuleEnabled(id, enabled), s2))
  }

  function DecClient(s: Bytes): Decoded<ClientMessage> {
    var (tag, t) :- DecU32(s);
    match tag
    case 0 =>
      var (filter, u) :- DecOption(t, DecFilter);
      Some((Subscribe(filter), u))
    case 1 => Some((Unsubscribe, t))
    case 2 => DecCreate(t)
    case 3 => Some((ListRules, t))
    case 4 => DecToggle(t)
    case 5 => Some((GetStats, t))
    case _ => None
  }

  lemma CreateRoundTrip(m: ClientMessage, rest: Bytes)
    requires m.CreateDenyRule?
    ensures |EncClient(m, rest)| > |rest|
    ensures |EncClient(m, rest)| <= MAX_FRAME ==> DecClient(EncClient(m, rest)) == Some((m, rest))
  {
    KindRoundTrip(m.kind, rest);
    var s4 := EncKind(m.kind, rest);
    var s3 := EncVar(m.dport, s4);
    var s2 := EncText(m.destIp, s3);
    var s1 := EncText(m.hostname, s2);
    var t := EncText(m.exePath, s1);
    U16RoundTrip(m.dport, s4);
    TextRoundTrip(m.destIp, s3);
    TextRoundTrip(m.hostname, s2);
    TextRoundTrip(m.exePath, s1);
    TagRoundTrip(2, t);
    assert |EncClient(m, rest)| > |t| > |s1| > |s2| > |s3| > |s4| > |rest|;
  }

  lemma ClientInverse()
    ensures Inverse(EncClient, DecClient)
  {
    forall m: ClientMessage, rest: Bytes
      ensures |EncClient(m, rest)| > |rest|
      ensures |EncClient(m, rest)| <= MAX_FRAME ==> DecClient(EncClient(m, rest)) == Some((m, rest))
    {
      ClientRoundTrip(m, rest);
    }
  }

  lemma SubscribeRoundTrip(filter: Option<EventFilter>, rest: Bytes)
    ensures |EncClient(Subscribe(filter), rest)| > |rest|
    ensures |EncClient(Subscribe(filter), rest)| <= MAX_FRAME ==>
              DecClient(EncClient(Subscribe(filter), rest)) == Some((Subscribe(filter), rest))
  {
    FilterInverse();
    var t := EncOption(filter, EncFilter, rest);
    TagRoundTrip(0, t);
    assert |t| > |rest| by {
      if filter.Some? {
        assert |EncFilter(filter.value, rest)| > |rest|;
      }
    }
    if |EncVar(0, t)| <= MAX_FRAME {
      OptionRoundTrip(filter, EncFilter, DecFilter, rest);
    }
  }

  lemma ToggleRoundTrip(id: string, enabled: bool, rest: Bytes)
    ensures |EncClient(SetRuleEnabled(id, enabled), rest)| > |rest|
    ensures |EncClient(SetRuleEnabled(id, enabled), rest)| <= MAX_FRAME ==>
              DecClient(EncClient(SetRuleEnabled(id, enabled), rest)) == Some((SetRuleEnabled(id, enabled), rest))
  {
    hide EncVar, DecU32, EncStr, DecStr;
    var t := EncBool(enabled, rest);
    BoolRoundTrip(enabled, rest);
    TagRoundTrip(4, EncStr(id, t));
    if |EncVar(4, EncStr(id, t))| <= MAX_FRAME {
      StrRoundTrip(id, t);
    }
  }

  lemma ClientRoundTrip(m: ClientMessage, rest: Bytes)
    ensures |EncClient(m, rest)| > |rest|
    ensures |EncClient(m, rest)| <= MAX_FRAME ==> DecClient(EncClient(m, rest)) == Some((m, rest))
  {
    match m
    case Subscribe(filter) => SubscribeRoundTrip(filter, rest);
    case CreateDenyRule(_, _, _, _, _) => CreateRoundTrip(m, rest);
    case SetRuleEnabled(id, enabled) => ToggleRoundTrip(id, enabled, rest);
    case Unsubscribe => TagRoundTrip(1, rest);
    case ListRules => TagRoundTrip(3, rest);
    case GetStats => TagRoundTrip(5, rest);
  }

  // --- Server messages -----------------------------------------------------------------

  function EncServer(m: ServerMessage, rest: Bytes): Bytes {
    match m
    case Hello(version) => EncVar(0, EncStr(version, rest))
    case Event(e) => EncVar(1, EncEvent(e, rest))
    case Done => EncVar(2, rest)
    case Error(text) => EncVar(3, EncStr(text, rest))
    case Rules(rules) => EncVar(4, EncSeq(rules, EncRuleInfo, rest))
    case StatsReply(stats) => EncVar(5, EncStats(stats, rest))
  }

  function DecServer(s: Bytes): Decoded<ServerMessage> {
    var (tag, t) :- DecU32(s);
    match tag
    case 0 =>
      var (version, u) :- DecStr(t);
      Some((Hello(version), u))
    case 1 =>
      var (e, u) :- DecEvent(t);
      Some((Event(e), u))
    case 2 => Some((Done, t))
    case 3 =>
      var (text, u) :- DecStr(t);
      Some((Error(text), u))
    case 4 =>
      var (rules, u) :- DecSeq(t, DecRuleInfo);
      Some((Rules(rules), u))
    case 5 =>
      var (stats, u) :- DecStats(t);
      Some((StatsReply(stats), u))
    case _ => None
  }

  lemma ServerInverse()
    ensures Inverse(EncServer, DecServer)
  {
    forall m: ServerMessage, rest: Bytes
      ensures |EncServer(m, rest)| > |rest|
      ensures |EncServer(m, rest)| <= MAX_FRAME ==> DecServer(EncServer(m, rest)) == Some((m, rest))
    {
      ServerRoundTrip(m, rest);
    }
  }

  lemma RulesRoundTrip(rules: seq<RuleInfo>, rest: Bytes)
    ensures |EncServer(Rules(rules), rest)| > |rest|
    ensures |EncServer(Rules(rules), rest)| <= MAX_FRAME ==>
              DecServer(EncServer(Rules(rules), rest)) == Some((Rules(rules), rest))
  {
    RuleInfoInverse();
    var t := EncSeq(rules, EncRuleInfo, rest);
    TagRoundTrip(4, t);
    AllLength(rules, EncRuleInfo, DecRuleInfo, rest);
    assert EncServer(Rules(rules), rest) == EncVar(4, t);
    if |EncVar(4, t)| <= MAX_FRAME {
      SeqRoundTrip(rules, EncRuleInfo, DecRuleInfo, rest);
    }
  }

  lemma TextMessageRoundTrip(m: ServerMessage, rest: Bytes)
    requires m.Hello? || m.Error? || m.Done?
    ensures |EncServer(m, rest)| > |rest|
    ensures |EncServer(m, rest)| <= MAX_FRAME ==> DecServer(EncServer(m, rest)) == Some((m, rest))
  {
    hide EncVar, DecU32, EncEvent, DecEvent, EncStats, DecStats, EncSeq, DecSeq, EncRuleInfo, DecRuleInfo;
    StringsInverse();
    match m
    case Hello(version) => TagRoundTrip(0, EncStr(version, rest));
    case Error(text) => TagRoundTrip(3, EncStr(text, rest));
    case Done => TagRoundTrip(2, rest);
  }

  lemma EventMessageRoundTrip(e: EnrichedEvent, rest: Bytes)
    ensures |EncServer(Event(e), rest)| > |rest|
    ensures |EncServer(Event(e), rest)| <= MAX_FRAME ==>
              DecServer(EncServer(Event(e), rest)) == Some((Event(e), rest))
  {
    hide EncVar, DecU32, EncStr, DecStr, EncEvent, DecEvent, EncStats, DecStats, EncSeq, DecSeq, EncRuleInfo,
      DecRuleInfo;
    EventRoundTrip(e, rest);
    TagRoundTrip(1, EncEvent(e, rest));
  }

  lemma StatsMessageRoundTrip(stats: Stats, rest: Bytes)
    ensures |EncServer(StatsReply(stats), rest)| > |rest|
    ensures |EncServer(StatsReply(stats), rest)| <= MAX_FRAME ==>
              DecServer(EncServer(StatsReply(stats), rest)) == Some((StatsReply(stats), rest))
  {
    hide EncVar, DecU32, EncStr, DecStr, EncEvent, DecEvent, EncStats, DecStats, EncSeq, DecSeq, EncRuleInfo,
      DecRuleInfo;
    StatsRoundTrip(stats, rest);
    TagRoundTrip(5, EncStats(stats, rest));
  }

  lemma ServerRoundTrip(m: ServerMessage, rest: Bytes)
    ensures |EncServer(m, rest)| > |rest|
    ensures |EncServer(m, rest)| <= MAX_FRAME ==> DecServer(EncServer(m, rest)) == Some((m, rest))
  {
    match m
    case Event(e) => EventMessageRoundTrip(e, rest);
    case Rules(rules) => RulesRoundTrip(rules, rest);
    case StatsReply(stats) => StatsMessageRoundTrip(stats, rest);
    case _ => TextMessageRoundTrip(m, rest);
  }

  // --- What fits into a frame -------------------------------------------------------------

  /** Larger messages are refused by the writing end. */
  predicate ClientFits(m: ClientMessage) {
    |EncClient(m, [])| <= MAX_FRAME
  }

  predicate ServerFits(m: ServerMessage) {
    |EncServer(m, [])| <= MAX_FRAME
  }

  lemma SmallMessages()
    ensures ClientFits(ListRules) && ClientFits(GetStats) && ServerFits(Done)
  {
  }

  lemma {:induction false} TextBytes(s: string)
    ensures |Utf8(s)| >= |s|
  {
    if s != "" {
      TextBytes(s[1..]);
    }
  }

  /** A list of rules is at least as large as any id in it. */
  lemma {:induction false} ListingIsLarge(rules: seq<RuleInfo>)
    requires rules != []
    ensures |EncServer(Rules(rules), [])| > |rules[0].id|
  {
    hide Utf8;
    var r := rules[0];
    TextBytes(r.id);
    var tail := EncAll(rules[1..], EncRuleInfo, []);
    assert |EncRuleInfo(r, tail)| > |r.id|;
    assert EncAll(rules, EncRuleInfo, []) == EncRuleInfo(r, tail);
    assert EncSeq(rules, EncRuleInfo, []) == EncVar(|rules|, EncAll(rules, EncRuleInfo, []));
  }
}
