/** The socket-address hooks: per-flow deny cache and bounded event ring. */
module Kernel {
  import opened Base
  import opened Addresses

  datatype ConnectEvent = ConnectEvent(
    pid: u32, uid: u32, startNs: u64, daddrV4: u32, daddrV6: Octets16,
    dport: u16, family: u8, pad: u8, comm: Octets16)

  /** Keys are compared as bytes, padding included. */
  datatype FlowKey = FlowKey(
    pid: u32, pad0: u32, startNs: u64, daddrV4: u32, daddrV6: Octets16,
    dport: u16, family: u8, pad: u8)

  // --- What a hook is called with -----------------------------------------------------

  type Words = s: seq<u32> | |s| == 4 witness [0, 0, 0, 0]

  /** The kernel's view of the destination, fields in network byte order. */
  datatype SockAddr = SockAddr(userPort: u32, userIp4: u32, userIp6: Words)
  datatype Task = Task(pidTgid: u64, uidGid: u64, comm: Option<Octets16>)
  datatype Hook = Connect4 | Connect6 | SendMsg4 | SendMsg6
  datatype Call = Call(hook: Hook, addr: SockAddr, task: Task)

  const ZEROS16: Octets16 := [0, 0, 0, 0, 0, 0, 0, 0, 0, 0, 0, 0, 0, 0, 0, 0]

  /** The low half of the word, its two bytes swapped. */
  function HostPort(userPort: u32): u16 {
    var low := userPort % 0x1_0000;
    low % 0x100 * 0x100 + low / 0x100
  }

  function V6Bytes(w: Words): Octets16 {
    WordBytes(w[0]) + WordBytes(w[1]) + WordBytes(w[2]) + WordBytes(w[3])
  }

  predicate IsV4(h: Hook) {
    h == Connect4 || h == SendMsg4
  }

  /** Calls the hooks let through unseen: no port, or a datagram to loopback. */
  predicate Skipped(c: Call) {
    || HostPort(c.addr.userPort) == 0
    || (c.hook == SendMsg4 && c.addr.userIp4 % 0x100 == 0x7F)
    || (c.hook == SendMsg6 && c.addr.userIp6[..3] == [0, 0, 0] && c.addr.userIp6[3] == 0x0100_0000)
  }

  function PidOf(t: Task): u32 {
    t.pidTgid / 0x1_0000_0000
  }

  function HookKey(c: Call): FlowKey {
    FlowKey(
      PidOf(c.task), 0, 0,
      if IsV4(c.hook) then c.addr.userIp4 else 0,
      if IsV4(c.hook) then ZEROS16 else V6Bytes(c.addr.userIp6),
      HostPort(c.addr.userPort), if IsV4(c.hook) then 4 else 6, 0)
  }

  function EventOf(c: Call): ConnectEvent {
    ConnectEvent(
      PidOf(c.task), c.task.uidGid % 0x1_0000_0000, 0,
      if IsV4(c.hook) then c.addr.userIp4 else 0,
      if IsV4(c.hook) then ZEROS16 else V6Bytes(c.addr.userIp6),
      HostPort(c.addr.userPort), if IsV4(c.hook) then 4 else 6, 0,
      c.task.comm.GetOr(ZEROS16))
  }

  lemma V6LoopbackWords(w: Words)
    ensures V6Bytes(w) == [0, 0, 0, 0, 0, 0, 0, 0, 0, 0, 0, 0, 0, 0, 0, 1]
       <==> w[0] == 0 && w[1] == 0 && w[2] == 0 && w[3] == 0x0100_0000
  {
    hide WordBytes;
    var b := V6Bytes(w);
    assert WordBytes(0) == [0, 0, 0, 0] && WordBytes(0x0100_0000) == [0, 0, 0, 1] by { LoopbackBytes(); }
    assert b[0..4] == WordBytes(w[0]) && b[4..8] == WordBytes(w[1]);
    assert b[8..12] == WordBytes(w[2]) && b[12..16] == WordBytes(w[3]);
    assert WordOf(WordBytes(w[0])) == w[0] && WordOf(WordBytes(w[1])) == w[1];
    assert WordOf(WordBytes(w[2])) == w[2] && WordOf(WordBytes(w[3])) == w[3];
    assert WordOf([0, 0, 0, 0]) == 0 && WordOf([0, 0, 0, 1]) == 0x0100_0000;
  }

  lemma LoopbackBytes()
    ensures WordBytes(0) == [0, 0, 0, 0] && WordBytes(0x0100_0000) == [0, 0, 0, 1]
  {
  }

  /** The skipped datagrams are exactly those to port zero, to 127.0.0.0/8 or to
      the IPv6 loopback address. */
  lemma SkippedMeaning(c: Call)
    ensures Skipped(c) <==>
      || HookKey(c).dport == 0
      || (c.hook == SendMsg4 && WordBytes(c.addr.userIp4)[0] == 127)
      || (c.hook == SendMsg6 && V6Bytes(c.addr.userIp6) == [0, 0, 0, 0, 0, 0, 0, 0, 0, 0, 0, 0, 0, 0, 0, 1])
  {
    hide V6Bytes;
    var w := c.addr.userIp6;
    V6LoopbackWords(w);
    assert w[..3] == [w[0], w[1], w[2]];
    assert [w[0], w[1], w[2]] == [0, 0, 0] ==> [w[0], w[1], w[2]][0] == 0 && [w[0], w[1], w[2]][1] == 0;
  }

  /** The bytes of the socket address, in the order in which the network has them. */
  predicate HasDestination(c: Call, daddrV4: u32, daddrV6: Octets16, family: u8, port: u16) {
    && (var b := WordBytes(c.addr.userPort); port == 256 * (b[0] as int) + b[1])
    && if c.hook == Connect4 || c.hook == SendMsg4 then
         family == 4 && daddrV4 == c.addr.userIp4 && forall i :: 0 <= i < 16 ==> daddrV6[i] == 0
       else
         && family == 6 && daddrV4 == 0
         && forall i :: 0 <= i < 16 ==> daddrV6[i] == WordBytes(c.addr.userIp6[i / 4])[i % 4]
  }

  /** The event names the process and the destination of the call: the process is the
      high half of the thread word, the user the low half of the credentials, and the
      port is read in network order. */
  ghost predicate Describes(e: ConnectEvent, c: Call) {
    && HasDestination(c, e.daddrV4, e.daddrV6, e.family, e.dport)
    && e.startNs == 0 && e.pad == 0
    && e.pid * 0x1_0000_0000 <= c.task.pidTgid < (e.pid + 1) * 0x1_0000_0000
    && (exists high: nat :: c.task.uidGid == high * 0x1_0000_0000 + e.uid)
    && (if c.task.comm.Some? then e.comm == c.task.comm.value else forall i :: 0 <= i < 16 ==> e.comm[i] == 0)
  }

  /** So does the flow key. */
  ghost predicate IsFlowOf(k: FlowKey, c: Call) {
    && HasDestination(c, k.daddrV4, k.daddrV6, k.family, k.dport)
    && k.startNs == 0 && k.pad == 0 && k.pad0 == 0
    && k.pid * 0x1_0000_0000 <= c.task.pidTgid < (k.pid + 1) * 0x1_0000_0000
  }

  lemma EventDescribesTheCall(c: Call)
    ensures Describes(EventOf(c), c) && IsFlowOf(HookKey(c), c)
  {
    hide WordBytes;
    PortBytes(c.addr.userPort);
    var w := c.addr.userIp6;
    assert forall i :: 0 <= i < 16 ==> V6Bytes(w)[i] == WordBytes(w[i / 4])[i % 4] by { V6BytesAt(w); }
    assert c.task.uidGid == (c.task.uidGid / 0x1_0000_0000) * 0x1_0000_0000 + EventOf(c).uid;
  }

  lemma PortBytes(w: u32)
    ensures HostPort(w) == 256 * (WordBytes(w)[0] as int) + WordBytes(w)[1]
  {
    var low := w % 0x1_0000;
    assert low % 0x100 == w % 0x100;
    assert low / 0x100 == w / 0x100 % 0x100;
  }

  lemma V6BytesAt(w: Words)
    ensures forall i :: 0 <= i < 16 ==> V6Bytes(w)[i] == WordBytes(w[i / 4])[i % 4]
  {
    hide WordBytes;
    var b := V6Bytes(w);
    forall i | 0 <= i < 16 ensures b[i] == WordBytes(w[i / 4])[i % 4] {
      if i < 4 {
      } else if i < 8 {
      } else if i < 12 {
      } else {
      }
    }
  }

  /** For example, a connection to port 443. */
  lemma PortExample()
    ensures HostPort(0xBB01) == 443
  {
  }

  // --- One call ----------------------------------------------------------------------------

  datatype KState = KState(cache: map<FlowKey, u8>, ring: seq<ConnectEvent>, capacity: nat)
  datatype Outcome = Ignored | Blocked | Dropped | Queued(event: ConnectEvent)

  /** The verdict handed back to the system call: 0 refuses it. */
  function ReturnValue(o: Outcome): int {
    if o == Blocked then 0 else 1
  }

  function HookStep(k: KState, c: Call): (KState, Outcome) {
    if Skipped(c) then (k, Ignored)
    else if HookKey(c) in k.cache then (k, Blocked)
    else if |k.ring| >= k.capacity then (k, Dropped)
    else (k.(ring := k.ring + [EventOf(c)]), Queued(EventOf(c)))
  }

  /** A call that is not skipped is refused, with result 0, exactly when its flow is
      cached; otherwise it passes, and leaves its event at the end of the ring if
      there is room, and nothing if not. The cache is never touched. */
  lemma HookOutcome(k: KState, c: Call)
    ensures var (after, o) := HookStep(k, c);
      && (ReturnValue(o) == 0 <==> !Skipped(c) && HookKey(c) in k.cache) && ReturnValue(o) in {0, 1}
      && after.cache == k.cache && after.capacity == k.capacity
      && after.ring == if !Skipped(c) && HookKey(c) !in k.cache && |k.ring| < k.capacity
                       then k.ring + [EventOf(c)] else k.ring
  {
  }

  /** The daemon's key for an event. */
  function CommonFlowKey(e: ConnectEvent): FlowKey {
    FlowKey(e.pid, 0, e.startNs, e.daddrV4, e.daddrV6, e.dport, e.family, 0)
  }

  /** Both sides compute the same key for one flow, so what the daemon caches is
      what the hook looks up. */
  lemma KeysAgree(c: Call)
    ensures CommonFlowKey(EventOf(c)) == HookKey(c)
  {
  }

  class Hooks {
    var verdictCache: map<FlowKey, u8>
    var events: seq<ConnectEvent>
    const capacity: nat

    constructor (capacity: nat)
      ensures State() == KState(map[], [], capacity)
    {
      verdictCache, events := map[], [];
      this.capacity := capacity;
    }

    ghost function State(): KState
      reads this
    {
      KState(verdictCache, events, capacity)
    }

    method EmitV4(s: SockAddr, isSendmsg: bool, task: Task) returns (ret: int)
      modifies this
      ensures var c := Call(if isSendmsg then SendMsg4 else Connect4, s, task);
              State() == HookStep(old(State()), c).0 && ret == ReturnValue(HookStep(old(State()), c).1)
      ensures var c := Call(if isSendmsg then SendMsg4 else Connect4, s, task);
              events == old(events) || exists e :: Describes(e, c) && events == old(events) + [e]
    {
      EventDescribesTheCall(Call(if isSendmsg then SendMsg4 else Connect4, s, task));
      hide Describes, IsFlowOf;
      var dport := HostPort(s.userPort);
      if dport == 0 {
        return 1;
      }
      var daddrV4 := s.userIp4;
      if isSendmsg && daddrV4 % 0x100 == 0x7F {
        return 1;
      }
      var pid := PidOf(task);
      var key := FlowKey(pid, 0, 0, daddrV4, ZEROS16, dport, 4, 0);
      if key in verdictCache {
        return 0;
      }
      if |events| >= capacity {
        return 1;
      }
      var ev := ConnectEvent(pid, task.uidGid % 0x1_0000_0000, 0, daddrV4, ZEROS16, dport, 4, 0,
        task.comm.GetOr(ZEROS16));
      events := events + [ev];
      ret := 1;
    }

    method EmitV6(s: SockAddr, isSendmsg: bool, task: Task) returns (ret: int)
      modifies this
      ensures var c := Call(if isSendmsg then SendMsg6 else Connect6, s, task);
              State() == HookStep(old(State()), c).0 && ret == ReturnValue(HookStep(old(State()), c).1)
      ensures var c := Call(if isSendmsg then SendMsg6 else Connect6, s, task);
              events == old(events) || exists e :: Describes(e, c) && events == old(events) + [e]
    {
      EventDescribesTheCall(Call(if isSendmsg then SendMsg6 else Connect6, s, task));
      hide Describes, IsFlowOf;
      var dport := HostPort(s.userPort);
      if dport == 0 {
        return 1;
      }
      var w := s.userIp6;
      if isSendmsg && w[0] == 0 && w[1] == 0 && w[2] == 0 && w[3] == 0x0100_0000 {
        assert w[..3] == [0, 0, 0];
        return 1;
      }
      assert w[..3] == [0, 0, 0] ==> w[..3][0] == 0 && w[..3][1] == 0 && w[..3][2] == 0;
      var pid := PidOf(task);
      var daddrV6 := V6Bytes(w);
      var key := FlowKey(pid, 0, 0, 0, daddrV6, dport, 6, 0);
      if key in verdictCache {
        return 0;
      }
      if |events| >= capacity {
        return 1;
      }
      var ev := ConnectEvent(pid, task.uidGid % 0x1_0000_0000, 0, 0, daddrV6, dport, 6, 0, task.comm.GetOr(ZEROS16));
      events := events + [ev];
      ret := 1;
    }
  }
}
