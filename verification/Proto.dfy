/** The messages exchanged between daemon and terminal client. */
module Proto {
  import opened Base
  import opened Addresses

  datatype Verdict = Allow | Deny
  datatype DenyRuleKind = Host | Process | Ip | Both
  datatype RuleAction = AllowRule | DenyRule

  datatype EventFilter = EventFilter(processPathContains: Option<string>, hostContains: Option<string>)

  datatype ClientMessage =
    | Subscribe(filter: Option<EventFilter>)
    | Unsubscribe
    | CreateDenyRule(exePath: Option<string>, hostname: Option<string>, destIp: Option<string>, dport: u16,
      kind: DenyRuleKind)
    | ListRules
    | SetRuleEnabled(id: string, enabled: bool)
    | GetStats

  datatype EnrichedEvent = EnrichedEvent(
    tsUnixNs: u64, pid: u32, uid: u32, comm: string, exePath: Option<string>,
    family: u8, daddrV4: u32, daddrV6: Octets16, dport: u16,
    hostname: Option<string>, verdict: Verdict, matchedRule: Option<string>)

  datatype RuleInfo = RuleInfo(
    id: string, priority: u32, enabled: bool, action: RuleAction,
    duration: string, matches: seq<string>, path: string)

  datatype LabeledCount = LabeledCount(name: string, count: u64)

  datatype Stats = Stats(
    totalEvents: u64, totalAllowed: u64, totalDenied: u64,
    topProcesses: seq<LabeledCount>, topHosts: seq<LabeledCount>, activity: seq<u64>)

  datatype ServerMessage =
    | Hello(daemonVersion: string)
    | Event(event: EnrichedEvent)
    | Done
    | Error(text: string)
    | Rules(rules: seq<RuleInfo>)
    | StatsReply(stats: Stats)

  /** The destination address of an event as text, without IPv6 brackets. */
  function IpString(e: EnrichedEvent): string {
    if e.family == 4 then V4Text(WordBytes(e.daddrV4)) else V6Text(e.daddrV6)
  }
}
