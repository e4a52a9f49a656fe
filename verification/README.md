# Dadophoros: a verified model

Dadophoros is a per-application firewall monitor for Linux. Kernel hooks report outgoing
connections through a ring buffer and refuse flows found in a verdict cache. A daemon
drains the ring, names each destination from captured DNS answers, judges the connection
by a directory of rule files, caches denials in the kernel, and broadcasts every event.
A terminal client shows the events, the rules and some statistics, and asks the daemon to
write or toggle rules.

This project models these parts in Dafny and proves what they promise to each other.
Every part that changes state step by step is a class or a method proved against a
specification function; the properties are lemmas about these functions, mostly about all
runs.

| module | models |
|---|---|
| `Base`, `Sorting`, `Addresses` | sequences, operating-system strings, the stable sort of the standard library, addresses and their text |
| `Kernel`, `DnsCapture` | the connect/sendmsg hooks; the DNS capture on the traffic-control hooks |
| `DnsCache`, `StatsModel`, `Daemon`, `Judging` | the name cache, the statistics, the event loop; hooks and loop together as one step relation; what each event is judged by and broadcast as |
| `Toml`, `Rules`, `Loading`, `Toggling`, `DenyRules`, `RuleStore` | rule files as text and as documents, the two loaders, evaluation, the `enabled` switch, the printed deny rules, the directory |
| `Proto`, `Codec`, `MessageCodec`, `Framing`, `Wire` | the messages, their postcard encoding, length-prefixed frames, and the same bytes written down plainly |
| `Server`, `Requests` | a client session: handshake, replies, the bounded broadcast; what requests do to the rules |
| `TuiApp`, `TuiKeys`, `TuiClient`, `RowLog`, `OptimisticDeny` | the client's state and keys, what each key does, its object and event loop, its rows as a summary of a log, its guess at the daemon's verdict |
| `Protocol`, `Settling` | client and server together over two channels: freshness of the rules view, and coming to rest |
| `Pipeline` | daemon, session and client joined, from the judgements to the rows |

Results that a reader of the code might not expect:

- A deny rule whose host or path contains a control character other than tab is written
  and acknowledged, but no loader can read it back (`DenyRules.RuleFileRoundTrip` gives the
  exact condition, `RuleStore.LineBreakIsNeverLoaded` an example). Rules by address are
  never affected (`OptimisticDeny.AddressRulesLoad`).
- The comment above `optimistically_deny` (`dadophoros-tui/src/app.rs:170-173`) speaks of
  every row a rule would match. The code marks rows with an equal host, while the rule
  matches a suffix, and by address it marks 0.0.0.0, which the engine never gives an
  address. `OptimisticDeny.MarkingAgrees` says exactly when both agree; examples are
  `OptimisticDeny.SubdomainIsMatchedUnmarked` and `OptimisticDeny.ZeroAddressIsMarkedInVain`.
- A marked row may stay allowed: `OptimisticDeny.MarkedRowsAreDenied` says exactly which
  allow rules overrule the new rule, `OptimisticDeny.AMarkedRowMayBeAllowed` gives one.
- Switching a rule off and on restores the active rules exactly when it was on before
  (`Toggling.OffAndOnAgain`, example `Toggling.OffRuleEndsUpOn`), and with a duplicated id
  only the first file is reached (`Toggling.DisableSilencesUnlessTwin`, example
  `Toggling.TwinStaysActive`).
- The two loaders order rules of equal priority differently; `Loading.LoadersAgreeInOrder`
  says exactly when the orders coincide, `Loading.TiesAgainstIdOrder` gives a case.
- The rules view notices only changes made through requests or its own editor; other
  changes stay unseen until the client asks again (`Settling.OutsideEditsGoUnnoticed`,
  example `Settling.AddedFileStaysUnseen`).
- A cached denial is justified by the rules at the time of the decision, not by the
  current ones: a reload does not purge the kernel cache (`Daemon.BlockedExactlyWhen`, example
  `Daemon.DenialOutlivesItsRule`).
- A rule list too large for a frame is never shown: asking for it ends the session
  (`Protocol.OpeningTheRulesView`, example `Protocol.OversizedDirectory`).

## Model

| member | source | states |
|---|---|---|
| `Kernel.KeysAgree` | dadophoros-daemon/src/main.rs:433-449 | the flow key the daemon computes from a queued event is the key under which the hook that emitted it looks up, for both families |
| `Kernel.SkippedMeaning` | dadophoros-ebpf/src/main.rs:65-99 | the calls that are let through unseen are exactly those to port zero and datagrams to 127.0.0.0/8 or ::1 |
| `Kernel.EventDescribesTheCall` | dadophoros-ebpf/src/main.rs:65-123 | event and flow key of every call name its process, user and destination byte by byte: port `256 * b0 + b1` of the bytes in memory, pid the high half, uid the low half, address and family of the hook, and zeros in all unused fields |
| `Kernel.HookOutcome` | dadophoros-ebpf/src/main.rs:95-125 | a call is refused if and only if it is not skipped and its flow is cached; it leaves one event at the end of the ring if it is neither skipped nor refused and there is room, and nothing otherwise; the cache is never touched |
| `Kernel.Hooks.EmitV4` | dadophoros-ebpf/src/main.rs:65-125 | the IPv4 hook takes the step of the hook specification, and leaves the ring alone or adds one event that names the call: process from the high half of the thread word, user from the low half of the credentials, port from the two bytes in network order, address as given |
| `Kernel.Hooks.EmitV6` | dadophoros-ebpf/src/main.rs:127-184 | the same of the IPv6 hook, whose event carries the sixteen bytes of the address in memory order |
| `Daemon.FifoConservation` | dadophoros-daemon/src/main.rs:170-207 | in every run, drained events followed by the ring are the emitted events in order, and the ring never exceeds its capacity |
| `Daemon.CallsAreAccountedFor` | dadophoros-ebpf/src/main.rs:65-184 | in every run the hook calls are the ignored, blocked, dropped, queued and drained ones, without overlap |
| `Daemon.BroadcastAndStats` | dadophoros-daemon/src/main.rs:204-206 | the broadcast is the enriched image of the drained sequence and the statistics are those of the same sequence with its ticks |
| `Daemon.TotalsCountDecisions` | dadophoros-daemon/src/stats.rs:50-55 | the totals of the accumulator count exactly the drained events and the deny decisions |
| `Daemon.PublishedTotals` | dadophoros-daemon/src/main.rs:222-225 | the totals published to clients count exactly the events drained before the last tick of the second and the denials among them |
| `Pipeline.StatsRepliesAreOfTheLastTick` | dadophoros-daemon/src/ipc.rs:124-129 | the reply to a request for statistics is the snapshot of the last tick: in 64 bits, its totals are the events drained before that tick and the denials among them, its buckets count them by ticks passed, and every row carries the count of its label |
| `Daemon.CachedKeyWasDenied` | dadophoros-daemon/src/main.rs:190-202 | a key in the kernel cache was put there by a deny decision under the rules, names and paths of that step and not evicted since |
| `Daemon.QueuedEventHasOrigin` | dadophoros-ebpf/src/main.rs:101-123 | an event in the ring was emitted by an earlier hook call, which let its system call through |
| `Daemon.JustifiedBlocking` | dadophoros-daemon/src/main.rs:170-207 | every refused call has behind it an earlier call of the same flow that was let through and whose event was then denied, with no eviction in between |
| `Daemon.BlockedExactlyWhen` | dadophoros-ebpf/src/main.rs:95-99 | a call that is not skipped is refused if and only if its flow was denied at an earlier step and has not been evicted since |
| `Daemon.DenialOutlivesItsRule` | dadophoros-daemon/src/main.rs:210-214 | for example, after the only rule is removed and the empty directory reloaded, the flow it denied is still refused |
| `Daemon.DeniedFlowIsSilent` | dadophoros-ebpf/src/main.rs:95-122 | from a cached denial until eviction each unskipped call of the flow is refused and nothing of the flow enters the ring |
| `Daemon.JudgedByDnsHistory` | dadophoros-daemon/src/main.rs:170-187 | in every clocked run an event is judged under the name of the last address record ever captured for its destination, if unexpired |
| `Daemon.EventLoop.LookupExe` | dadophoros-daemon/src/main.rs:394-401 | a process id already looked up, even in vain, gets the same answer again; another one is looked up and remembered |
| `Daemon.FirstPathStays` | dadophoros-daemon/src/main.rs:394-401 | in every run the first answer about a process id, even a failed one, is the answer at every later step |
| `Daemon.EventLoop.DrainOne` | dadophoros-daemon/src/main.rs:175-206 | one event leaves the ring, the whole system takes the drain step of the relation, and exactly one message is broadcast: with process, user, destination and clock of the event, and with path `s` if and only if the answer about its process, the remembered one if there is one, is the text `s` |
| `Judging.JudgedByFirstAnswer` | dadophoros-daemon/src/main.rs:175-187 | in every run each drained event is judged under executable `s` if and only if the first answer about its process, at the start or when an event of it was first drained, is the text `s` |
| `Judging.JudgedFacts` | dadophoros-daemon/src/main.rs:175-187 | in every clocked run each drained event is judged by the rules in force, under the name of the last unexpired record for its destination, the text of its address unless it is 0.0.0.0 or of an unknown family, and its port |
| `Judging.DrainCaches` | dadophoros-daemon/src/main.rs:190-202 | draining takes the first event out and caches the value 0 under its flow if and only if the verdict is deny and the kernel takes the entry; nothing else enters the cache |
| `Judging.BroadcastTells` | dadophoros-daemon/src/main.rs:451-490 | in every run what is broadcast of an event drained at any step keeps its place for ever and carries process, user, command, clock, destination, the first answer about the executable, the host judged by, deny if and only if the rules in force deny, and the id of the deciding rule |
| `Judging.BroadcastNamesTheCall` | dadophoros-daemon/src/main.rs:170-207 | in every run each broadcast event names the process, user, command and destination of an earlier system call that was let through |
| `Judging.CommIsTextBeforeZero` | dadophoros-daemon/src/main.rs:428-431 | the command is the text of the bytes before the first zero, or a question mark if they are not UTF-8 |
| `Judging.WakeSteps` | dadophoros-daemon/src/main.rs:152-229 | a DNS message is one step per record, a ready ring one drain per poll, a rule change one reload, a second one tick |
| `Daemon.EventLoop.DrainReady` | dadophoros-daemon/src/main.rs:170-209 | polling until the ring is empty is that many drain steps in order; with enough polls the ring is empty afterwards |
| `Daemon.EventLoop.ReloadRules` | dadophoros-daemon/src/main.rs:210-214 | reloading replaces the rule set by what the directory holds and touches neither cache nor statistics |
| `Daemon.EventLoop.SecondTick` | dadophoros-daemon/src/main.rs:215-226 | the second's tick drops expired names, rotates the activity ring and publishes a snapshot, nothing else |
| `Daemon.EventLoop.IngestDns` | dadophoros-daemon/src/main.rs:155-169 | ingesting a message is one DNS step of the relation per answer record, in order |
| `Daemon.EventLoop.Loop` | dadophoros-daemon/src/main.rs:152-229 | the main loop, over any schedule of DNS messages, events, rule changes, ticks, hook calls and evictions, takes exactly the steps of the relation, so the results about runs hold of it |
| `DnsCache.EvictionUnobservable` | dadophoros-daemon/src/main.rs:265-314 | after any ingests and evictions under a monotone clock every later lookup answers as a scan of all records ever ingested |
| `DnsCache.LookupIsScan` | dadophoros-daemon/src/main.rs:306-343 | the host of an event is that of the last record for its address if unexpired; the zero address and unknown families have none |
| `DnsCache.NameLasts` | dadophoros-daemon/src/main.rs:282-303 | after an address record is ingested its address has its name, without the dots at the end, for its time to live but at least a second, to the nanosecond; other addresses, other record types and empty names change nothing |
| `DnsCache.TrimmedDots` | dadophoros-daemon/src/main.rs:283-287 | all dots at the end of a name are taken away and nothing else |
| `DnsCache.EvictMeans` | dadophoros-daemon/src/main.rs:215-220 | the tick drops exactly the entries whose time has come |
| `DnsCache.AddressOfEvent` | dadophoros-daemon/src/main.rs:319-343 | an event is looked up by the address of its family, its text is the text of that address, and 0.0.0.0 and unknown families have neither |
| `DnsCache.IngestAnswers` | dadophoros-daemon/src/main.rs:265-304 | the loop over the answers is the fold of ingesting one record at its own clock reading |
| `DnsCapture.DnsRing.CaptureDns` | dadophoros-ebpf/src/main.rs:274-355 | for any bytes, an entry is submitted exactly when extraction succeeds and the ring has room; its first bytes are the extracted payload |
| `DnsCapture.PayloadLength` | dadophoros-ebpf/src/main.rs:300-335 | a payload that is copied has at least 12 and at most 512 bytes |
| `DnsCapture.CapturedExactly` | dadophoros-ebpf/src/main.rs:274-355 | for any bytes, a packet is captured if and only if it is UDP over IPv4 or IPv6 from or to port 53, its UDP length leaves room for 12 bytes and the payload, cut at 512 bytes, is all there; what is captured is that payload |
| `DnsCapture.TransportIsUdp` | dadophoros-ebpf/src/main.rs:277-298 | the UDP header stands behind an IPv4 header of the length given in its first byte, at least 20, or behind 40 bytes of IPv6, when the protocol number is 17 |
| `DnsCapture.SubmittedIsAccepted` | dadophoros-daemon/src/main.rs:265-269 | the daemon never rejects a submitted entry on its length and reads back exactly the captured bytes |
| `DnsCapture.UdpIsCaptured` | dadophoros-ebpf/src/main.rs:310-352 | behind any headers a DNS datagram yields its payload, cut at 512 bytes, whatever padding follows |
| `DnsCapture.V4RoundTrip` | dadophoros-ebpf/src/main.rs:274-352 | capturing inverts building an Ethernet/IPv4/UDP frame, for every header length from 20 to 60 bytes |
| `DnsCapture.V6RoundTrip` | dadophoros-ebpf/src/main.rs:274-352 | capturing inverts building an Ethernet/IPv6/UDP frame without extension headers |
| `StatsModel.TotalsCountEvents` | dadophoros-daemon/src/stats.rs:50-55 | after any records and ticks the totals count the records, split by verdict |
| `StatsModel.TablesCountEvents` | dadophoros-daemon/src/stats.rs:56-62 | each table has exactly the labels that occurred, with the number of their occurrences |
| `StatsModel.TablesSumToTotal` | dadophoros-daemon/src/stats.rs:50-66 | the counts of each table add up to the total |
| `StatsModel.ActivityCountsTicks` | dadophoros-daemon/src/stats.rs:63-74 | there are always 120 buckets and the i-th from the back counts the records of i ticks ago |
| `StatsModel.TopIsTop` | dadophoros-daemon/src/stats.rs:89-100 | the published rows are entries of the table, at most ten, sorted, and dominate every entry left out |
| `StatsModel.TopIndependentOfIteration` | dadophoros-daemon/src/stats.rs:89-100 | the published rows do not depend on the iteration order of the hash map |
| `StatsModel.TopN` | dadophoros-daemon/src/stats.rs:89-100 | listing, sorting and truncating gives the top rows of the table for whatever order the iterator yields |
| `StatsModel.RankMeans` | dadophoros-daemon/src/stats.rs:98-98 | rows are ranked by count, descending, and equal counts in dictionary order: the first differing character decides, and a beginning comes before the whole |
| `StatsModel.LabelsMean` | dadophoros-daemon/src/stats.rs:56-62 | a process goes by its path and otherwise by its command, a destination by its name and otherwise by its address; empty texts count as missing |
| `StatsModel.Widths` | dadophoros-daemon/src/stats.rs:13-16 | tables show ten rows at most and the ring keeps 120 seconds |
| `StatsModel.Accumulator.Record` | dadophoros-daemon/src/stats.rs:50-66 | the object stays the summary of its history, now with one more event |
| `StatsModel.Accumulator.Tick` | dadophoros-daemon/src/stats.rs:69-74 | the object stays the summary of its history, now with one more tick |
| `StatsModel.Accumulator.Snapshot` | dadophoros-daemon/src/stats.rs:76-87 | the snapshot carries the totals and the ring in 64 bits and the top rows of both tables |
| `StatsModel.SnapshotIsExact` | dadophoros-daemon/src/stats.rs:76-87 | until 2^64 events have been recorded no counter of a snapshot has wrapped |
| `Sorting.FilterSort` | dadophoros-daemon/src/rules.rs:142-142 | the library's sort is stable: it commutes with keeping any subset |
| `Sorting.FirstAfterSort` | dadophoros-daemon/src/rules.rs:142-142 | among the elements of interest the sort puts first the least and, of those, the earliest |
| `Rules.Evaluate` | dadophoros-daemon/src/rules.rs:279-299 | the verdict is action and id of the first rule all of whose clauses hold, in the sense of `Rules.ClausesMean`, and there is none exactly when no rule holds |
| `Rules.ClausesMean` | dadophoros-daemon/src/rules.rs:301-336 | a clause matches if and only if it holds: each field reads its own fact, an unknown text is empty; exact means equal, prefix, suffix and contains mean that the text is the value with something behind, before or around it, in means listed; ports know exact and in; a value of another type never matches |
| `Rules.PortRuleDecides` | dadophoros-daemon/src/rules.rs:327-336 | for example, a deny rule for port 443 denies every connection to port 443 |
| `Rules.DocumentLoads` | dadophoros-daemon/src/rules.rs:8-24 | a document is a rule if and only if it has an action and every key it has is of the type and range the schema wants; the clauses are those of its match tables |
| `Rules.LoadedValues` | dadophoros-daemon/src/rules.rs:8-31 | each field of a loaded rule is the value of its key or the default: priority 100, enabled, persistent, no id |
| `Rules.ClausesLoad` | dadophoros-daemon/src/rules.rs:58-92 | a table is a clause if and only if it has the names of a field and an operator and a value |
| `Rules.ValuesLoad` | dadophoros-daemon/src/rules.rs:85-92 | a value is a port number, a text, a list of port numbers or else a list of texts, and nothing else |
| `Rules.ClausesOfEntries` | dadophoros-daemon/src/rules.rs:22-24 | the clauses are those of the match tables in order, and every match table must be one |
| `Rules.SettingEnabled` | dadophoros-daemon/src/rules.rs:227-233 | setting the key of a document changes that flag of the rule it denotes and nothing else |
| `Loading.LoadDirByFile` | dadophoros-daemon/src/rules.rs:100-144 | the daemon's rules are the enabled files' rules in load order, each under its resolved id |
| `Loading.FilesLoad` | dadophoros-daemon/src/rules.rs:114-142 | a file counts if and only if its name is something followed by ".toml" and its text is a rule; it is addressed by its id or else by its stem, and active if and only if it is enabled |
| `Loading.TomlFiles` | dadophoros-daemon/src/rules.rs:116-118 | a name has the wanted extension if and only if it is something, not empty, and ".toml"; that something is the stem |
| `Loading.RuleIdsAgree` | dadophoros-daemon/src/rules.rs:157-164 | the id in a verdict is the effective id the rule list shows, with the file stem and "?" as fallbacks |
| `Loading.LoadersAgree` | dadophoros-daemon/src/rules.rs:169-206 | up to order both loaders see the same enabled rules |
| `Loading.LoadersAgreeInOrder` | dadophoros-daemon/src/rules.rs:142-142 | both loaders give the same sequence if and only if the directory enumerates enabled rules of equal priority in id order |
| `Loading.TiesAgainstIdOrder` | dadophoros-daemon/src/rules.rs:197-204 | for example, two enabled rules of equal priority enumerated against the order of their ids are evaluated in one order and displayed in the other |
| `Loading.VerdictIsPriorityMinimum` | dadophoros-daemon/src/rules.rs:279-299 | a verdict exists if and only if an enabled rule matches; the deciding rule has least priority and, of those, comes first in the directory |
| `Loading.AllowedExactlyWhen` | dadophoros-daemon/src/rules.rs:279-299 | a connection is allowed by a rule if and only if some matching enabled allow rule precedes, by priority and then enumeration, every matching enabled deny rule |
| `Loading.EnumerationOrderIrrelevant` | dadophoros-daemon/src/rules.rs:114-143 | with distinct priorities rules and verdicts do not depend on the enumeration order |
| `Toggling.FlaggedFile` | dadophoros-daemon/src/rules.rs:227-235 | rewriting a file changes one flag of its rule; name, other keys and the rest of the document stay |
| `Toggling.ToggleWritesTheFlag` | dadophoros-daemon/src/rules.rs:211-237 | a toggle gives the first file of the id exactly the requested flag and changes nothing else; there is none if and only if no file has the id |
| `Toggling.ToggleKeepsTheList` | dadophoros-daemon/src/rules.rs:211-237 | with unique ids the list keeps order and content except for the one flag |
| `Toggling.DisableRemovesExactlyOne` | dadophoros-daemon/src/rules.rs:211-237 | with unique ids disabling loses exactly that rule and the verdict is the first match among the others |
| `Toggling.OffAndOnAgain` | dadophoros-daemon/src/rules.rs:211-237 | off and on again restores the active rules if and only if the rule was on |
| `Toggling.OffRuleEndsUpOn` | dadophoros-daemon/src/rules.rs:211-237 | for example, a rule that was off ends up on |
| `Toggling.DisableSilencesUnlessTwin` | dadophoros-daemon/src/rules.rs:215-237 | without unique ids, disabling silences the id if and only if no later file with it is enabled |
| `Toggling.TwinStaysActive` | dadophoros-daemon/src/rules.rs:215-237 | for example, of two enabled files with one id the second stays active |
| `Toml.EscapeIsOnePass` | dadophoros-daemon/src/ipc.rs:335-339 | the two replacements in sequence escape every character exactly once |
| `Toml.ScanEscaped` | dadophoros-daemon/src/ipc.rs:335-339 | scanning a basic string inverts escaping on strings without banned control characters, and fails on all others |
| `Toml.ControlCharacters` | dadophoros-daemon/src/ipc.rs:335-339 | the characters that break a printed string are U+0000 to U+0008, U+000A to U+001F and U+007F |
| `DenyRules.RuleIdIsSafe` | dadophoros-daemon/src/ipc.rs:296-333 | whatever is requested, the id consists of letters, digits, dashes and underscores, so it needs no escaping and no separator enters the file name |
| `DenyRules.FileParses` | dadophoros-daemon/src/ipc.rs:250-294 | the printed file parses to the intended document if the quoted strings are plain, and does not parse otherwise |
| `DenyRules.RuleFileRoundTrip` | dadophoros-daemon/src/ipc.rs:219-294 | a written file loads as exactly the rule asked for (priority 100, enabled, deny, persistent, the original strings) if the strings are plain, and not at all otherwise |
| `RuleStore.Store.LoadRules` | dadophoros-daemon/src/rules.rs:100-146 | the loop over the directory yields the sorted enabled rules that the engine results of `Loading` are about; an unreadable directory yields none |
| `RuleStore.Store.ListRules` | dadophoros-daemon/src/rules.rs:169-206 | the loop over the directory yields the list, sorted by priority and id, that toggling and the rules view are about |
| `RuleStore.Store.ListRuleInfos` | dadophoros-daemon/src/ipc.rs:170-186 | the displayed list of the current directory |
| `RuleStore.Store.SetEnabled` | dadophoros-daemon/src/rules.rs:211-237 | on success the first file that answers to the id loads with the requested flag, its rule otherwise unchanged, and every other file is as it was; an unknown id or a failed write is reported and changes nothing |
| `RuleStore.RequestedToggle` | dadophoros-daemon/src/rules.rs:211-237 | the result is that of the toggle if some file answers to the id and the write succeeds, and otherwise an error with the directory as it was |
| `Requests.SwitchRequest` | dadophoros-daemon/src/ipc.rs:109-123 | a request to switch a rule is acknowledged if and only if some file answers to the id and the write succeeds, and then the directory is the toggled one; otherwise it is refused and nothing changes |
| `Requests.SwitchTakesEffect` | dadophoros-daemon/src/ipc.rs:109-123 | an acknowledged request has given the first file of that id the requested flag and changed nothing else |
| `Requests.OffRequest` | dadophoros-daemon/src/ipc.rs:109-123 | with unique ids an acknowledged request to switch a rule off removes exactly that rule from the active ones, and every verdict is the first match among the others |
| `Requests.OnRequest` | dadophoros-daemon/src/ipc.rs:109-123 | after an acknowledged request to switch a rule on, a rule of that id is active |
| `RuleStore.InfoShowsTheRule` | dadophoros-daemon/src/ipc.rs:170-186 | the list shows id, priority, state, action and duration of the rule, a summary of each clause and the path of the file |
| `Rules.SummaryMeans` | dadophoros-daemon/src/rules.rs:249-276 | a clause is shown as field, operator and value, lists with commas between the items |
| `RuleStore.Store.Validate` | dadophoros-daemon/src/ipc.rs:227-246 | a request is accepted if and only if every clause it leads to has a text; the complaint is the one `DenyRules.ComplaintNamesTheGap` describes |
| `DenyRules.AcceptedClausesNameSomething` | dadophoros-daemon/src/ipc.rs:227-246 | a request is accepted if and only if no clause it leads to would match a connection of which nothing is known |
| `DenyRules.ComplaintNamesTheGap` | dadophoros-daemon/src/ipc.rs:233-246 | each complaint is made if and only if the clause it is about would be empty, the host before the executable |
| `RuleStore.Store.WriteDenyRule` | dadophoros-daemon/src/ipc.rs:219-294 | a valid request adds or overwrites exactly one file, creating the directory if needed; each failure is reported |
| `Requests.DenyRequest` | dadophoros-daemon/src/ipc.rs:227-292 | a deny request is acknowledged if and only if every text its kind needs is there and not empty, and the directory exists or can be created and the file can be written |
| `Requests.DenyRequestTakesEffect` | dadophoros-daemon/src/ipc.rs:250-294 | an acknowledged request with plain texts has put an enabled, persistent deny rule of priority 100 among the active rules, with exactly the clauses its kind stands for |
| `Requests.RefusalTexts` | dadophoros-daemon/src/ipc.rs:234-246 | a refusal says which text is missing, the host before the executable, and changes nothing |
| `Requests.OtherRequests` | dadophoros-daemon/src/ipc.rs:103-134 | listing and statistics are answered with what was asked for and change nothing; unsubscribing ends the session; subscribing again does nothing |
| `RuleStore.PutReplaces` | dadophoros-daemon/src/ipc.rs:284-292 | writing a file leaves that file and the files of other names |
| `DenyRules.PrintedText` | dadophoros-daemon/src/ipc.rs:276-290 | a generated file is a comment, the id, priority 100, action deny, a blank line and the clauses with blank lines between them, each in its own lines |
| `DenyRules.RuleIdTells` | dadophoros-daemon/src/ipc.rs:270-321 | the id of a generated rule is made of what it denies, the file name of the executable, the host or the address, sanitised, and the time |
| `DenyRules.FileNameSkips` | dadophoros-daemon/src/ipc.rs:302-306 | slashes and `.` steps at the end of a path do not count, and behind `..` there is no file name |
| `DenyRules.SanitizedCharacters` | dadophoros-daemon/src/ipc.rs:323-333 | sanitising keeps letters, digits, dashes and underscores and puts an underscore for every other character |
| `RuleStore.GeneratedName` | dadophoros-daemon/src/ipc.rs:276-294 | the generated file name has the extension the loaders want and its stem is the id in the file |
| `RuleStore.GeneratedFileLoads` | dadophoros-daemon/src/rules.rs:122-142 | both loaders take a generated file as the intended rule if its strings are plain and skip it otherwise |
| `RuleStore.UnplainRuleIsIgnored` | dadophoros-daemon/src/rules.rs:122-142 | an accepted request whose strings are not plain adds no rule: what is listed and loaded is what the other files hold |
| `RuleStore.LineBreakIsNeverLoaded` | dadophoros-daemon/src/ipc.rs:219-294 | for example, a path with a line break is accepted and acknowledged, and no rule is listed or loaded afterwards |
| `RuleStore.OneFileChanged` | dadophoros-daemon/src/ipc.rs:170-186 | creating, changing or removing one file leaves the displayed list unchanged if and only if the file displays the same before and after, or not at all |
| `RuleStore.DenyTakesEffect` | dadophoros-daemon/src/ipc.rs:219-294 | after an accepted request with plain strings the next load contains the intended rule and every other file is still there |
| `Codec.VarRoundTrip` | dadophoros-proto/src/lib.rs:190-220 | variable-length integers of any width are decoded to what was encoded, leaving the bytes behind |
| `Codec.Utf8RoundTrip` | dadophoros-proto/src/lib.rs:7-157 | every string survives its UTF-8 bytes |
| `Codec.Utf8Exactly` | dadophoros-proto/src/lib.rs:7-157 | bytes decode to a text if and only if they are its UTF-8 form: no overlong forms, surrogates or larger numbers |
| `Codec.StrRoundTrip` | dadophoros-proto/src/lib.rs:7-157 | strings are self-delimiting and decoded to what was encoded |
| `Codec.OptionRoundTrip` | dadophoros-proto/src/lib.rs:7-157 | options of any invertible encoding are invertible and self-delimiting |
| `Codec.SeqRoundTrip` | dadophoros-proto/src/lib.rs:7-157 | sequences of any invertible encoding are invertible and self-delimiting |
| `MessageCodec.ClientInverse` | dadophoros-proto/src/lib.rs:7-40 | every client message that fits a frame is decoded to itself, leaving the bytes behind |
| `MessageCodec.ServerInverse` | dadophoros-proto/src/lib.rs:54-69 | every server message that fits a frame is decoded to itself, leaving the bytes behind |
| `Wire.ClientIsBytes` | dadophoros-proto/src/lib.rs:7-52 | every client message is encoded as its tag and its fields in order, each as plain postcard bytes |
| `Wire.ServerIsBytes` | dadophoros-proto/src/lib.rs:54-157 | every server message likewise, with its records and lists |
| `Wire.FrameBytes` | dadophoros-proto/src/lib.rs:190-220 | a frame is the length in four bytes, most significant first, and the message; the limit is 1048576 bytes |
| `Wire.FrameExample` | dadophoros-proto/src/lib.rs:352-370 | for example, the eight bytes that switch rule "r" off |
| `Wire.ReadingMeans` | dadophoros-proto/src/lib.rs:190-204 | what one read makes of any bytes: the end of the stream, an oversized length, an undecodable frame or a message, and what it leaves |
| `Wire.RefusedBytes` | dadophoros-proto/src/lib.rs:190-204 | flag and option bytes above one and numbers of variants that do not exist are refused |
| `Framing.Reader.ReadExact` | dadophoros-proto/src/lib.rs:190-204 | exactly n bytes are taken from the chunks, or the stream ends |
| `Framing.Reader.ReadMessage` | dadophoros-proto/src/lib.rs:190-204 | reading one frame depends on the waiting bytes only, not on their chunking, and reports short, oversized and malformed frames |
| `Framing.Reader.ReadMessages` | dadophoros-proto/src/lib.rs:190-204 | repeated reads consume the waiting bytes frame after frame |
| `Framing.Writer.WriteMessage` | dadophoros-proto/src/lib.rs:206-220 | exactly one frame is appended; nothing if the message is too large; the beginning of the frame if the stream breaks within it |
| `Framing.OneFrame` | dadophoros-proto/src/lib.rs:190-220 | reading a written frame gives the message and leaves exactly the bytes behind it |
| `Framing.ConversationRoundTrip` | dadophoros-proto/src/lib.rs:190-220 | reading as many frames as were written gives exactly the messages and consumes exactly their bytes |
| `Framing.BrokenConversation` | dadophoros-proto/src/lib.rs:190-220 | a stream that breaks anywhere within a frame delivers every whole frame before it and then its end, nothing else |
| `Framing.Transmit` | dadophoros-proto/src/lib.rs:190-220 | messages written one after another, cut into any chunks and read, arrive exactly: every one that fits a frame, once, in order, unchanged |
| `Framing.ClientConversation` | dadophoros-proto/src/lib.rs:190-220 | any list of client messages that fit is read back by the daemon, message for message |
| `Framing.ServerConversation` | dadophoros-proto/src/lib.rs:190-220 | any list of server messages that fit is read back by the client, message for message |
| `Server.OneReplyEach` | dadophoros-daemon/src/ipc.rs:86-138 | deny requests, listings, toggles and statistics requests are answered once each, other messages not at all |
| `Server.AnswersAreReplies` | dadophoros-daemon/src/ipc.rs:82-138 | while a session is open its answers are the replies to its requests in request order, whatever is broadcast meanwhile |
| `Server.BroadcastIsRelayed` | dadophoros-daemon/src/ipc.rs:136-152 | while a session is open it has relayed, once and in order, exactly the messages since the subscription that pass the filter and were not overwritten before its place reached them |
| `Server.FilterMeans` | dadophoros-daemon/src/ipc.rs:188-217 | a filter lets through all messages that are not events, and the events whose path and host are known and contain the parts it asks for |
| `Server.OverwrittenMeans` | dadophoros-daemon/src/main.rs:140-140 | what a waiting session loses are the messages between its place and the last 1024 |
| `Server.RequestTurn` | dadophoros-daemon/src/ipc.rs:86-135 | a request changes the directory even if its reply cannot be written; the reply is written if it goes out, and otherwise the session ends |
| `Server.QuietTurn` | dadophoros-daemon/src/ipc.rs:136-152 | a waiting session writes the next message held that passes, passes over one that does not, ends if it cannot write, and skips to the oldest held if it fell behind |
| `Server.GreetingMeans` | dadophoros-daemon/src/ipc.rs:58-78 | the greeting is the version, then the acknowledgement of a subscription or its refusal quoting what came instead |
| `Server.EndingWritesNothing` | dadophoros-daemon/src/ipc.rs:82-155 | the round that ends a session writes nothing |
| `Server.SessionTrace` | dadophoros-daemon/src/ipc.rs:82-155 | for every session, ended or not, what it wrote is what it had written when last open: replies and relayed events can be told apart, the replies answer all requests taken until then, one each and in order, and the rest is the relayed part of the broadcast |
| `Server.OutputFits` | dadophoros-proto/src/lib.rs:206-214 | everything a session has written fits a frame: a message that does not ends the session |
| `Pipeline.SessionReadsBack` | dadophoros-proto/src/lib.rs:190-220 | the bytes a connection writes read back as exactly its greeting and its output, and nothing is left |
| `Server.Receiver.Receive` | dadophoros-daemon/src/ipc.rs:136-150 | a receiver that fell behind by more than the ring is told how much it missed and moved to the oldest message held |
| `Server.Answering` | dadophoros-daemon/src/ipc.rs:86-134 | the method on the shared directory refines the response function on which the session trace and freshness rest, for all six kinds of message |
| `Server.Round` | dadophoros-daemon/src/ipc.rs:82-155 | one pass of the loop, with requests served before events, is one turn of the session trace |
| `Server.HandleClient` | dadophoros-daemon/src/ipc.rs:49-156 | a connection writes the greeting; if the client does not subscribe first it is told so and nothing else happens; otherwise the session takes the given turns |
| `TuiApp.EnteringRulesAsks` | dadophoros-tui/src/app.rs:236-243 | for every input, entering the rules view asks for the rules, files are edited only from there, and no input changes the list |
| `TuiApp.DenyRequestsComeFromThePrompt` | dadophoros-tui/src/app.rs:361-392 | a deny request is sent only from an open prompt, for the event picked when it was opened, and marks the rows and closes the prompt |
| `TuiKeys.PromptKeys` | dadophoros-tui/src/app.rs:361-392 | key by key: h, p, i and b send exactly the request for the row, field by field, mark the rows and close the prompt; Esc closes it; other keys do nothing |
| `TuiKeys.RulesKeys` | dadophoros-tui/src/app.rs:331-352 | in the rules view t and space ask for the selected rule to get the other state, e opens its file, r asks for the list, the arrows move by one, other keys do nothing |
| `TuiKeys.ViewKeys` | dadophoros-tui/src/app.rs:287-299 | q quits, 1, 2 and 3 choose a view, Tab goes round; entering rules or statistics asks for them |
| `TuiKeys.KeysAnywhere` | dadophoros-tui/src/app.rs:270-279 | Ctrl-C quits from anywhere; releases and other terminal events do nothing |
| `TuiKeys.LiveKeys` | dadophoros-tui/src/app.rs:309-329 | in the live view arrows scroll by one and pages by twenty, Home, End and G go to the ends, / starts a filter, d opens the prompt on the selected row, and nothing is sent |
| `TuiKeys.FilterKeys` | dadophoros-tui/src/app.rs:394-407 | typing appends, Backspace takes the last character back, Enter keeps and Esc clears the filter |
| `TuiKeys.StatsKeys` | dadophoros-tui/src/app.rs:354-359 | in the statistics view r asks for fresh figures and no other key does anything |
| `TuiKeys.ScrollMoves` | dadophoros-tui/src/app.rs:138-152 | scrolling moves the selection over that many shown rows, up to the ends, from the last one if it was missing or hidden |
| `TuiKeys.JumpsGoToTheEnds` | dadophoros-tui/src/app.rs:154-168 | Home selects the first shown row, End the last and follows |
| `TuiKeys.RulesSelection` | dadophoros-tui/src/app.rs:196-218 | the selection in the rule list moves by delta up to the ends and survives a new list as far as that goes |
| `TuiKeys.FilterMeans` | dadophoros-tui/src/app.rs:246-260 | a filter without spaces shows exactly the rows whose command, path, host or address contains it, whatever the case |
| `TuiKeys.SameRow` | dadophoros-tui/src/app.rs:32-51 | two events share a row if and only if process, command, path, port and destination agree, the destination being the host or else the address |
| `TuiKeys.PushMeans` | dadophoros-tui/src/app.rs:100-117 | an event of a known flow takes over its first row and counts one more; another gets a row at the end, and the oldest of ten thousand makes room |
| `TuiKeys.MarkMeans` | dadophoros-tui/src/app.rs:174-192 | a marked row shows a denial, with a placeholder where no rule is known; which rows are marked is what the kind compares |
| `TuiKeys.MessagesMean` | dadophoros-tui/src/main.rs:86-115 | an event goes into the rows and a following selection to the last one, lists and figures replace those shown, acknowledgements and errors are shown, and only an acknowledgement in the rules view causes a request |
| `TuiKeys.TicksMean` | dadophoros-tui/src/main.rs:143-152 | every tenth tick in the statistics view asks for fresh figures |
| `TuiApp.ScrollSelectsShown` | dadophoros-tui/src/app.rs:138-152 | scrolling selects a row the filter shows, or none if it hides all; following means no later row is shown |
| `TuiApp.FindRowFinds` | dadophoros-tui/src/app.rs:100-107 | the row found is the first of its key, and none is found only if there is none |
| `TuiClient.App.Push` | dadophoros-tui/src/app.rs:100-117 | searching, counting and evicting in place give exactly the rows that `RowLog.RowsRefineLog` accounts for, and touch nothing else |
| `TuiClient.App.VisibleRows` | dadophoros-tui/src/app.rs:119-131 | the positions of exactly the rows the filter shows, ascending |
| `TuiClient.App.Scroll` | dadophoros-tui/src/app.rs:138-152 | the in-place scroll refines the scroll whose meaning is `TuiApp.ScrollSelectsShown`, and changes only selection and following |
| `TuiClient.App.OptimisticallyDeny` | dadophoros-tui/src/app.rs:174-192 | exactly the rows that look like the target are marked, keeping a known rule label |
| `TuiClient.App.SetRules` | dadophoros-tui/src/app.rs:196-208 | the list is replaced and the selection clamped to it |
| `TuiClient.App.HandleInput` | dadophoros-tui/src/app.rs:270-307 | every key refines the input function; with the prompt open on a row, h, p, i and b send the request to deny its host, executable, address, or host and executable, each if the row has what it needs, and no other key sends anything |
| `TuiClient.App.HandleMessage` | dadophoros-tui/src/main.rs:87-115 | every message refines the message function that the protocol results are about; only an acknowledgement in the rules view causes a request |
| `TuiClient.App.Run` | dadophoros-tui/src/main.rs:74-159 | the loop over any wakes ends in the state and with exactly the messages of the step function on which `TuiClient.ClientStaysConsistent` and the protocol rest; once the user quits or the link is lost, later wakes change nothing |
| `TuiClient.KeyOutcomes` | dadophoros-tui/src/main.rs:120-142 | quitting ends the loop, a request is passed on, and after the editor the list is asked for again with a note of how editing went |
| `TuiClient.WakesMean` | dadophoros-tui/src/main.rs:85-158 | a request is sent if and only if the link takes it and it is no larger than 1048576 bytes; otherwise the client shows the link as gone and stops |
| `TuiClient.ClientStaysConsistent` | dadophoros-tui/src/app.rs:270-307 | after any messages, keys and ticks the selected row and rule exist, a rule is selected whenever there is one, and at most one prompt is open, only in the live view |
| `RowLog.RowsRefineLog` | dadophoros-tui/src/app.rs:100-117 | after any pushes and denials the rows have distinct keys, are at most 10000, stand in insertion order, show the last event of their flow and count (modulo 2^32) its pushes since insertion; with the evicted ones they account for every push |
| `RowLog.ClientRowsRefineLog` | dadophoros-tui/src/main.rs:87-127 | the rows of the running client summarise in this way exactly the events it received and the deny requests it sent |
| `OptimisticDeny.RowsCarryTheirFacts` | dadophoros-daemon/src/main.rs:451-490 | a broadcast row carries exactly the facts its event was judged by |
| `OptimisticDeny.MarkingAgrees` | dadophoros-tui/src/app.rs:174-192 | for an acceptable request, marking a row and the written rule matching it agree always (process), unless the engine sees no address for a row showing the picked one (address), unless the row's host is a longer name ending in the picked one (host, both): if and only if |
| `OptimisticDeny.MarkedIsMatched` | dadophoros-daemon/src/rules.rs:301-325 | a marked row satisfies every clause of the written rule, except one marked by an address the engine does not see |
| `OptimisticDeny.ZeroAddressIsMarkedInVain` | dadophoros-daemon/src/main.rs:319-330 | a row to 0.0.0.0 denied by address is accepted and marked, and its rule does not match it |
| `OptimisticDeny.AddressRulesLoad` | dadophoros-tui/src/app.rs:409-426 | every row can be denied by address and such a rule always survives its file |
| `OptimisticDeny.MarkedRowsAreDenied` | dadophoros-tui/src/app.rs:170-192 | once an accepted request with plain strings is written and reloaded, a marked row whose address the engine sees is denied if and only if no matching enabled allow rule of the other files precedes, by priority and then enumeration, the new rule and every other matching deny rule |
| `OptimisticDeny.AMarkedRowMayBeAllowed` | dadophoros-tui/src/app.rs:170-192 | for example, beside an allow-all rule of priority 10 the picked row is marked, the request accepted and the row still allowed |
| `OptimisticDeny.SubdomainIsMatchedUnmarked` | dadophoros-tui/src/app.rs:174-192 | for example, denying example.org matches the rows of www.example.org and does not mark them |
| `Protocol.WorldSteps` | dadophoros-tui/src/main.rs:129-139 | the events the daemon publishes go behind those broadcast before, the editor leaves the directory as it pleases and only while one is open, and a lost link stops both ends |
| `Protocol.RepliesTellTheTruth` | dadophoros-daemon/src/ipc.rs:86-123 | a reply other than an acknowledgement leaves the listed rules unchanged, and a list sent is that of the directory |
| `Protocol.NextKeeps` | dadophoros-tui/src/main.rs:87-140 | every step of client, server, user, editor, clock and link keeps the freshness invariant |
| `Protocol.RulesViewIsFresh` | dadophoros-tui/src/main.rs:98-109 | in every reachable state with the link up, nobody editing and both channels empty, the rules view shows the rules of the directory; messages too large for a frame take the link down |
| `Protocol.OpeningTheRulesView` | dadophoros-daemon/src/ipc.rs:103-108 | opening the rules view, one service and one delivery show the rules of the directory with the link up if and only if their list fits a frame; otherwise the session has ended, nothing is shown, and the client can only find the link gone |
| `Protocol.OversizedDirectory` | dadophoros-proto/src/lib.rs:211-214 | for example, the list of a directory with one rule whose id is as long as a frame does not fit |
| `Protocol.UnlistableIsNeverShown` | dadophoros-daemon/src/ipc.rs:103-108 | in every run, an idle system with its link up and the rules view open has a directory whose list fits a frame |
| `Settling.InternalStepDrops` | dadophoros-tui/src/main.rs:98-109 | every delivery, service and relay strictly lowers a weight over both channels and the backlog, though an acknowledgement causes a new request |
| `Settling.ExchangeEnds` | dadophoros-daemon/src/ipc.rs:86-134 | in whatever order, an exchange left to itself has no more steps than it weighs |
| `Settling.RestIsFresh` | dadophoros-tui/src/main.rs:87-140 | after any history the exchange comes to rest within its weight, and at rest an open rules view is right |
| `Settling.OutsideEditsGoUnnoticed` | dadophoros-daemon/src/ipc.rs:103-108 | when someone else creates, changes or removes one rule file of a system at rest, the rules view shows the old list, whatever happens, until the client next asks; compared with the directory as that edit left it, it is right if and only if the file displays the same before and after |
| `Settling.AddedFileStaysUnseen` | dadophoros-daemon/src/ipc.rs:103-108 | for example, the open rules view of an empty directory stays empty, wrongly, after someone adds a rule file, until the client asks again |
| `Pipeline.ClientOfRun` | dadophoros-tui/src/main.rs:74-159 | the client of every protocol run is a run of the client event loop |
| `Pipeline.RunRelays` | dadophoros-daemon/src/ipc.rs:82-155 | in every protocol run the session has relayed, once and in order, all of the broadcast since the subscription but what was overwritten |
| `Pipeline.RowsSummariseJudgements` | dadophoros-tui/src/main.rs:87-95 | end to end: the rows of the client summarise exactly the enriched judgements of the daemon at the places it has seen, ascending from the subscription on and, once nothing is under way, all but those overwritten |
| `Pipeline.DenyRequestIsEnforced` | dadophoros-tui/src/app.rs:361-392 | from the prompt to the kernel: after the session has acknowledged a plain request of the prompt that nothing overrules and a reload, once an event with the facts of the marked row is drained and its cache entry taken, every unskipped call of that flow is refused until eviction |

## Left out

- Loading and attaching the kernel programs, interface listing, file watching, socket set-up, logging and signal handling: input and output only. File notification is a reload step that may happen at any time, and /proc is an argument of each drain step.
- DNS message parsing (`hickory-proto`): the model starts from name, time to live and address of each answer.
- `toml_edit`: a document is a map of top-level keys, the match entries and the comments; setting `enabled` changes that key only. The parser covers what the printer emits; `\u` escapes, literal and multi-line strings, CRLF line ends, floats, dates, inline tables and dotted keys are not part of it.
- The process table kept by the exec, fork and exit tracepoints: the daemon never reads it.
- Rendering, the views under `dadophoros-tui/src/views` (not part of this model), terminal handling and `short_path`.
- Planned features (an enforcing mode, undecided verdicts, rules for one connection or one session): the code does not have them.
- Fragmented packets and IPv6 extension headers in `DnsCapture.V4RoundTrip` and `DnsCapture.V6RoundTrip`: the extractor reads them as it reads any bytes, which `DnsCapture.DnsRing.CaptureDns` covers, but they carry no round trip.
- Reads abandoned half-way: `read_message` stands inside `select!` and can be dropped in the middle of a frame. The frame results are about reads that run to their end, and the session and the protocol take one frame as one step.
- Framing.Writer.WriteMessage: what the stream accepts before it breaks is an argument; in the session and the client a failed write is a lost link.
- StatsModel.Accumulator.Snapshot: counters wrap modulo 2^64 only when they are published, and the top rows are those of the wrapped counts; `StatsModel.SnapshotIsExact` covers all shorter histories.
- RowLog.RowsRefineLog: counts wrap modulo 2^32 as in a release build; a debug build stops instead.
- DnsCache.IngestAnswers: takes the clock reading of each record as an argument and a time to live in whole seconds; overflow of the clock is not modelled.
- RuleStore.Store.WriteDenyRule: a failed write leaves the directory as it was; a file that is partly written is not modelled. Creating the directory is one step.
- Server.HandleClient: the rounds are given as a schedule in which a waiting request is served before an event, as the loop prefers; how the runtime wakes the task is not modelled, nor is the end of the broadcast, which the session itself keeps open.
- TuiClient.App.Run: redrawing and its failure are left out; lower-casing of text is a parameter, and the daemon's version string is not kept.
- Protocol.RulesViewIsFresh: a machine whose peer has closed goes on until it writes or notices, which may happen at any step; half-closed sockets and time-outs are not modelled. There is one client; a second client is an outside editor, see `Settling.OutsideEditsGoUnnoticed`.
- Addresses are read on a little-endian machine.
