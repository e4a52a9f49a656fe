/** The traffic-control program that copies DNS payloads out of packets. */
module DnsCapture {
  import opened Base

  const DNS_BUF_MAX: nat := 512
  const ETH_HDR_LEN: nat := 14
  const ETH_P_IP: nat := 0x0800
  const ETH_P_IPV6: nat := 0x86dd
  const IPPROTO_UDP: nat := 17
  const IPV6_HDR_LEN: nat := 40
  const UDP_HDR_LEN: nat := 8
  const DNS_MIN_HDR: nat := 12
  const DNS_PORT: nat := 53

  // --- Packet access ------------------------------------------------------------------

  function LoadU8(pkt: Bytes, off: nat): Option<nat> {
    if off < |pkt| then Some(pkt[off]) else None
  }

  /** Two bytes in network order. */
  function LoadU16(pkt: Bytes, off: nat): (r: Option<nat>)
    ensures r.Some? ==> r.value < 0x1_0000
  {
    if off + 2 <= |pkt| then
      var high: int := pkt[off];
      Some(high * 0x100 + pkt[off + 1])
    else None
  }

  // --- What is captured ------------------------------------------------------------------

  /** Protocol number and offset of the transport header. */
  function Transport(pkt: Bytes): Option<(nat, nat)> {
    var ethType :- LoadU16(pkt, 12);
    if ethType == ETH_P_IP then
      var vihl :- LoadU8(pkt, ETH_HDR_LEN);
      var ihl := vihl % 0x10 * 4;
      if ihl < 20 || ihl > 60 then None
      else
        var proto :- LoadU8(pkt, ETH_HDR_LEN + 9);
        Some((proto, ETH_HDR_LEN + ihl))
    else if ethType == ETH_P_IPV6 then
      var next :- LoadU8(pkt, ETH_HDR_LEN + 6);
      Some((next, ETH_HDR_LEN + IPV6_HDR_LEN))
    else None
  }

  /** Length of the payload that is copied, when the UDP header is acceptable. */
  function PayloadLength(pkt: Bytes, l4: nat): (r: Option<nat>)
    ensures r.Some? ==> DNS_MIN_HDR <= r.value <= DNS_BUF_MAX
  {
    var src :- LoadU16(pkt, l4);
    var dst :- LoadU16(pkt, l4 + 2);
    if src != DNS_PORT && dst != DNS_PORT then None
    else
      var total :- LoadU16(pkt, l4 + 4);
      if total < UDP_HDR_LEN + DNS_MIN_HDR then None
      else Some(if total > UDP_HDR_LEN + DNS_BUF_MAX then DNS_BUF_MAX else total - UDP_HDR_LEN)
  }

  ghost predicate StretchAt(pkt: Bytes, off: nat, piece: Bytes) {
    off + |piece| <= |pkt| && pkt[off..off + |piece|] == piece
  }

  /** The bytes captured from a packet: a stretch of it of DNS size. */
  function Extract(pkt: Bytes): (r: Option<Bytes>)
    ensures r.Some? ==> DNS_MIN_HDR <= |r.value| <= DNS_BUF_MAX
    ensures r.Some? ==> exists off: nat :: StretchAt(pkt, off, r.value)
  {
    var (proto, l4) :- Transport(pkt);
    if proto != IPPROTO_UDP then None
    else
      var n :- PayloadLength(pkt, l4);
      var off := l4 + UDP_HDR_LEN;
      if off + n > |pkt| then None
      else
        assert StretchAt(pkt, off, pkt[off..off + n]);
        Some(pkt[off..off + n])
  }

  // --- The program --------------------------------------------------------------------------

  datatype DnsEvent = DnsEvent(len: u16, data: Bytes)

  class DnsRing {
    var events: seq<DnsEvent>
    const capacity: nat

    constructor (capacity: nat)
      ensures events == [] && this.capacity == capacity
    {
      events := [];
      this.capacity := capacity;
    }

    /** Reserves an entry, whose memory holds whatever was there before, fills it
        and submits it; or leaves the ring as it was. */
    method CaptureDns(pkt: Bytes) returns (ok: bool)
      modifies this
      ensures ok <==> Extract(pkt).Some? && |old(events)| < capacity
      ensures !ok ==> events == old(events)
      ensures ok ==> |events| == |old(events)| + 1 && events[..|old(events)|] == old(events)
      ensures ok ==> var e := events[|old(events)|];
                     |e.data| == DNS_BUF_MAX && e.len == |Extract(pkt).value| && e.data[..e.len] == Extract(pkt).value
    {
      var ethType := LoadU16(pkt, 12);
      if ethType == None { return false; }
      var proto, l4;
      if ethType.value == ETH_P_IP {
        var vihl := LoadU8(pkt, ETH_HDR_LEN);
        if vihl == None { return false; }
        var ihl := vihl.value % 0x10 * 4;
        if ihl < 20 || ihl > 60 { return false; }
        var p := LoadU8(pkt, ETH_HDR_LEN + 9);
        if p == None { return false; }
        proto, l4 := p.value, ETH_HDR_LEN + ihl;
      } else if ethType.value == ETH_P_IPV6 {
        var p := LoadU8(pkt, ETH_HDR_LEN + 6);
        if p == None { return false; }
        proto, l4 := p.value, ETH_HDR_LEN + IPV6_HDR_LEN;
      } else {
        return false;
      }
      if proto != IPPROTO_UDP { return false; }
      var src := LoadU16(pkt, l4);
      if src == None { return false; }
      var dst := LoadU16(pkt, l4 + 2);
      if dst == None || (src.value != DNS_PORT && dst.value != DNS_PORT) { return false; }
      var total := LoadU16(pkt, l4 + 4);
      if total == None || total.value < UDP_HDR_LEN + DNS_MIN_HDR { return false; }
      var capped := if total.value > UDP_HDR_LEN + DNS_BUF_MAX then UDP_HDR_LEN + DNS_BUF_MAX else total.value;
      var copyLen := capped - UDP_HDR_LEN;
      if copyLen == 0 || copyLen > DNS_BUF_MAX { return false; }
      var off := l4 + UDP_HDR_LEN;
      if |events| >= capacity { return false; }
      var entry := new u8[DNS_BUF_MAX];
      if off + copyLen > |pkt| { return false; }
      forall i | 0 <= i < copyLen {
        entry[i] := pkt[off + i];
      }
      assert entry[..copyLen] == pkt[off..off + copyLen];
      assert entry[..][..copyLen] == entry[..copyLen];
      events := events + [DnsEvent(copyLen, entry[..])];
      ok := true;
    }
  }

  /** The daemon's length check on an event. */
  function Accepted(e: DnsEvent): Option<Bytes>
    requires |e.data| == DNS_BUF_MAX
  {
    if e.len == 0 || e.len > DNS_BUF_MAX then None else Some(e.data[..e.len])
  }

  /** The daemon never rejects a submitted event on its length and reads exactly
      the captured bytes, whatever the rest of the entry holds. */
  lemma SubmittedIsAccepted(pkt: Bytes, e: DnsEvent)
    requires Extract(pkt).Some?
    requires |e.data| == DNS_BUF_MAX && e.len == |Extract(pkt).value| && e.data[..e.len] == Extract(pkt).value
    ensures Accepted(e) == Extract(pkt)
  {
  }

  // --- Packets -------------------------------------------------------------------------------

  function NetworkOrder(n: nat): Bytes
    requires n < 0x1_0000
  {
    [n / 0x100, n % 0x100]
  }

  datatype UdpHeader = UdpHeader(src: u16, dst: u16, checksum: Bytes)

  /** RFC 768: ports, length of header and payload, checksum. */
  function Udp(h: UdpHeader, payload: Bytes): Bytes
    requires UDP_HDR_LEN + |payload| < 0x1_0000
  {
    NetworkOrder(h.src) + NetworkOrder(h.dst) + NetworkOrder(UDP_HDR_LEN + |payload|) + h.checksum + payload
  }

  /** The fields of an IPv4 header (RFC 791, section 3.1) that the program skips:
      eight bytes before the protocol number, and the rest of the header with its
      options. */
  datatype V4Header = V4Header(words: nat, before: Bytes, after: Bytes)

  ghost predicate ValidV4(h: V4Header) {
    5 <= h.words <= 15 && |h.before| == 8 && |h.after| == 4 * h.words - 10
  }

  function V4HeaderBytes(h: V4Header): Bytes
    requires 5 <= h.words <= 15
  {
    [0x40 + h.words] + h.before + [IPPROTO_UDP] + h.after
  }

  /** An IPv6 header without extensions (RFC 8200, section 3): six bytes before
      the next-header field, hop limit and addresses after it. */
  datatype V6Header = V6Header(before: Bytes, after: Bytes)

  function V6HeaderBytes(h: V6Header): Bytes {
    h.before + [IPPROTO_UDP] + h.after
  }

  function FrameV4(macs: Bytes, ip: V4Header, udp: UdpHeader, payload: Bytes, padding: Bytes): Bytes
    requires 5 <= ip.words <= 15 && UDP_HDR_LEN + |payload| < 0x1_0000
  {
    macs + NetworkOrder(ETH_P_IP) + V4HeaderBytes(ip) + Udp(udp, payload) + padding
  }

  function FrameV6(macs: Bytes, ip: V6Header, udp: UdpHeader, payload: Bytes, padding: Bytes): Bytes
    requires UDP_HDR_LEN + |payload| < 0x1_0000
  {
    macs + NetworkOrder(ETH_P_IPV6) + V6HeaderBytes(ip) + Udp(udp, payload) + padding
  }

  ghost predicate DnsTraffic(udp: UdpHeader, payload: Bytes) {
    && (udp.src == DNS_PORT || udp.dst == DNS_PORT) && |udp.checksum| == 2
    && DNS_MIN_HDR <= |payload| && UDP_HDR_LEN + |payload| < 0x1_0000
  }

  function Clamp(payload: Bytes): Bytes {
    if |payload| > DNS_BUF_MAX then payload[..DNS_BUF_MAX] else payload
  }

  lemma LoadNetworkOrder(a: Bytes, n: nat, b: Bytes)
    requires n < 0x1_0000
    ensures LoadU16(a + NetworkOrder(n) + b, |a|) == Some(n)
  {
    var pkt := a + NetworkOrder(n) + b;
    assert pkt[|a|] == n / 0x100 && pkt[|a| + 1] == n % 0x100;
  }

  /** Behind any headers, a DNS datagram yields its payload up to the buffer size. */
  lemma UdpIsCaptured(front: Bytes, udp: UdpHeader, payload: Bytes, padding: Bytes)
    requires DnsTraffic(udp, payload)
    ensures var pkt := front + Udp(udp, payload) + padding; var n := |Clamp(payload)|;
      && PayloadLength(pkt, |front|) == Some(n)
      && |front| + UDP_HDR_LEN + n <= |pkt|
      && pkt[|front| + UDP_HDR_LEN..|front| + UDP_HDR_LEN + n] == Clamp(payload)
  {
    var pkt := front + Udp(udp, payload) + padding;
    var src, dst, len := NetworkOrder(udp.src), NetworkOrder(udp.dst), NetworkOrder(UDP_HDR_LEN + |payload|);
    var rest := udp.checksum + payload + padding;
    assert pkt == front + src + (dst + len + rest);
    LoadNetworkOrder(front, udp.src, dst + len + rest);
    assert pkt == (front + src) + dst + (len + rest);
    LoadNetworkOrder(front + src, udp.dst, len + rest);
    assert pkt == (front + src + dst) + len + rest;
    LoadNetworkOrder(front + src + dst, UDP_HDR_LEN + |payload|, rest);
    assert pkt == (front + src + dst + len + udp.checksum) + payload + padding;
  }

  lemma V4Transport(macs: Bytes, ip: V4Header, rest: Bytes)
    requires |macs| == 12 && ValidV4(ip)
    ensures Transport(macs + NetworkOrder(ETH_P_IP) + V4HeaderBytes(ip) + rest)
      == Some((IPPROTO_UDP, ETH_HDR_LEN + 4 * ip.words))
  {
    var pkt := macs + NetworkOrder(ETH_P_IP) + V4HeaderBytes(ip) + rest;
    assert pkt == macs + NetworkOrder(ETH_P_IP) + (V4HeaderBytes(ip) + rest);
    LoadNetworkOrder(macs, ETH_P_IP, V4HeaderBytes(ip) + rest);
    assert pkt[ETH_HDR_LEN] == 0x40 + ip.words;
    assert pkt[ETH_HDR_LEN + 9] == IPPROTO_UDP;
    assert (0x40 + ip.words) % 0x10 == ip.words;
  }

  /** Capturing inverts packet building over IPv4 with any options. */
  lemma V4RoundTrip(macs: Bytes, ip: V4Header, udp: UdpHeader, payload: Bytes, padding: Bytes)
    requires |macs| == 12 && ValidV4(ip) && DnsTraffic(udp, payload)
    ensures Extract(FrameV4(macs, ip, udp, payload, padding)) == Some(Clamp(payload))
  {
    hide Transport, PayloadLength, Udp;
    var front := macs + NetworkOrder(ETH_P_IP) + V4HeaderBytes(ip);
    var pkt := FrameV4(macs, ip, udp, payload, padding);
    V4Transport(macs, ip, Udp(udp, payload) + padding);
    assert pkt == front + (Udp(udp, payload) + padding);
    assert |front| == ETH_HDR_LEN + 4 * ip.words;
    UdpIsCaptured(front, udp, payload, padding);
  }

  /** Capturing inverts packet building over IPv6 without extension headers. */
  lemma V6RoundTrip(macs: Bytes, ip: V6Header, udp: UdpHeader, payload: Bytes, padding: Bytes)
    requires |macs| == 12 && |ip.before| == 6 && |ip.after| == 33 && DnsTraffic(udp, payload)
    ensures Extract(FrameV6(macs, ip, udp, payload, padding)) == Some(Clamp(payload))
  {
    var pkt := FrameV6(macs, ip, udp, payload, padding);
    var front := macs + NetworkOrder(ETH_P_IPV6) + V6HeaderBytes(ip);
    assert pkt == macs + NetworkOrder(ETH_P_IPV6) + (V6HeaderBytes(ip) + Udp(udp, payload) + padding);
    LoadNetworkOrder(macs, ETH_P_IPV6, V6HeaderBytes(ip) + Udp(udp, payload) + padding);
    assert pkt[ETH_HDR_LEN + 6] == IPPROTO_UDP;
    UdpIsCaptured(front, udp, payload, padding);
  }

  // --- Exactly what is captured --------------------------------------------------------------------

  /** The number in two bytes of the packet, the first one the more significant. */
  function Word(pkt: Bytes, off: nat): nat
    requires off + 2 <= |pkt|
  {
    256 * (pkt[off] as int) + pkt[off + 1]
  }

  /** Where the UDP header of an Ethernet frame starts: behind an IPv4 header of the
      length its first byte gives, at least 20 bytes, or behind 40 bytes of IPv6. */
  function UdpStart(pkt: Bytes): Option<nat> {
    if |pkt| >= 24 && pkt[12] == 0x08 && pkt[13] == 0x00 && pkt[14] % 16 >= 5 && pkt[23] == 17 then
      Some(14 + 4 * (pkt[14] as int % 16))
    else if |pkt| >= 21 && pkt[12] == 0x86 && pkt[13] == 0xdd && pkt[20] == 17 then Some(54)
    else None
  }

  lemma TransportIsUdp(pkt: Bytes, l4: nat)
    ensures Transport(pkt) == Some((17, l4)) <==> UdpStart(pkt) == Some(l4)
  {
  }

  /** A packet is captured exactly when it is UDP from or to port 53 whose UDP length
      leaves room for a DNS header of 12 bytes and whose payload, cut at 512 bytes, is
      all there; what is captured is that payload. */
  lemma CapturedExactly(pkt: Bytes, payload: Bytes)
    ensures Extract(pkt) == Some(payload) <==>
      && UdpStart(pkt).Some?
      && var l4 := UdpStart(pkt).value;
         && l4 + 6 <= |pkt| && (Word(pkt, l4) == 53 || Word(pkt, l4 + 2) == 53)
         && var total := Word(pkt, l4 + 4);
            && total >= 20
            && var n := if total > 520 then 512 else total - 8;
               l4 + 8 + n <= |pkt| && payload == pkt[l4 + 8..l4 + 8 + n]
  {
    hide Transport, UdpStart;
    if UdpStart(pkt).Some? {
      TransportIsUdp(pkt, UdpStart(pkt).value);
    }
    if Transport(pkt).Some? && Transport(pkt).value.0 == 17 {
      TransportIsUdp(pkt, Transport(pkt).value.1);
    }
  }
}
