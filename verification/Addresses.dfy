/** IP addresses: their bytes as the kernel stores them and their text as the
    standard library displays it. */
module Addresses {
  import opened Base

  type Octets4 = s: seq<u8> | |s| == 4 witness [0, 0, 0, 0]
  type Octets16 = s: seq<u8> | |s| == 16 witness [0, 0, 0, 0, 0, 0, 0, 0, 0, 0, 0, 0, 0, 0, 0, 0]

  datatype IpAddr = V4(v4: Octets4) | V6(v6: Octets16)

  /** The bytes of a 32-bit word in memory. Both ends run on a little-endian
      machine, so the first byte is the least significant one. */
  function WordBytes(w: u32): (b: Octets4)
    ensures WordOf(b) == w
  {
    var high := w / 0x100;
    var higher := high / 0x100;
    [w % 0x100, high % 0x100, higher % 0x100, higher / 0x100]
  }

  function WordOf(b: Octets4): (w: u32) {
    var b0: int, b1: int, b2: int, b3: int := b[0], b[1], b[2], b[3];
    b0 + 0x100 * (b1 + 0x100 * (b2 + 0x100 * b3))
  }

  // --- Display ---------------------------------------------------------------

  function V4Text(a: Octets4): string {
    Decimal(a[0]) + "." + Decimal(a[1]) + "." + Decimal(a[2]) + "." + Decimal(a[3])
  }

  function Hex(n: nat): (s: string)
    ensures |s| > 0
    ensures forall i :: 0 <= i < |s| ==> s[i] in "0123456789abcdef"
  {
    var d := "0123456789abcdef"[n % 16];
    if n < 16 then [d] else Hex(n / 16) + [d]
  }

  function Segments(a: Octets16): (s: seq<u16>)
    ensures |s| == 8
  {
    seq(8, i requires 0 <= i < 8 => a[2 * i] as int * 0x100 + a[2 * i + 1])
  }

  function HexGroups(s: seq<u16>): string {
    if s == [] then ""
    else if |s| == 1 then Hex(s[0])
    else Hex(s[0]) + ":" + HexGroups(s[1..])
  }

  /** Length of the run of zero groups that starts at i. */
  function ZeroRun(s: seq<u16>, i: nat): (n: nat)
    requires i <= |s|
    ensures i + n <= |s|
    decreases |s| - i
  {
    if i < |s| && s[i] == 0 then 1 + ZeroRun(s, i + 1) else 0
  }

  /** Where the first of the longest runs of zero groups starts, looking from i on. */
  function LongestRun(s: seq<u16>, i: nat, best: nat): (b: nat)
    requires i <= |s| && best <= |s|
    ensures b <= |s|
    decreases |s| - i
  {
    if i == |s| then best
    else LongestRun(s, i + 1, if ZeroRun(s, i) > ZeroRun(s, best) then i else best)
  }

  /** IPv4-mapped addresses end in dotted decimal; otherwise the first longest
      run of two or more zero groups is written as a double colon. */
  function V6Text(a: Octets16): string {
    if a[..12] == [0, 0, 0, 0, 0, 0, 0, 0, 0, 0, 0xff, 0xff] then "::ffff:" + V4Text(a[12..])
    else
      var s := Segments(a);
      var start := LongestRun(s, 0, 0);
      var len := ZeroRun(s, start);
      if len > 1 then HexGroups(s[..start]) + "::" + HexGroups(s[start + len..])
      else HexGroups(s)
  }

  /** Only hexadecimal digits, dots and colons. */
  predicate AddressText(s: string) {
    forall i :: 0 <= i < |s| ==> '0' <= s[i] <= '9' || 'a' <= s[i] <= 'f' || s[i] == '.' || s[i] == ':'
  }

  lemma AddressTextAppend(s: string, t: string)
    requires AddressText(s) && AddressText(t)
    ensures AddressText(s + t)
  {
  }

  lemma {:induction false} HexGroupsText(s: seq<u16>)
    ensures AddressText(HexGroups(s))
  {
    if |s| > 1 {
      HexGroupsText(s[1..]);
      AddressTextAppend(Hex(s[0]) + ":", HexGroups(s[1..]));
    }
  }

  lemma V4TextIsAddress(a: Octets4)
    ensures |V4Text(a)| > 0 && AddressText(V4Text(a))
  {
    AddressTextAppend(Decimal(a[0]) + "." + Decimal(a[1]), "." + Decimal(a[2]) + "." + Decimal(a[3]));
    assert V4Text(a) == Decimal(a[0]) + "." + Decimal(a[1]) + ("." + Decimal(a[2]) + "." + Decimal(a[3]));
  }

  lemma V6TextIsAddress(a: Octets16)
    ensures |V6Text(a)| > 0 && AddressText(V6Text(a))
  {
    V4TextIsAddress(a[12..]);
    AddressTextAppend("::ffff:", V4Text(a[12..]));
    var s := Segments(a);
    var start := LongestRun(s, 0, 0);
    var len := ZeroRun(s, start);
    HexGroupsText(s);
    HexGroupsText(s[..start]);
    HexGroupsText(s[start + len..]);
    AddressTextAppend(HexGroups(s[..start]), "::");
    AddressTextAppend(HexGroups(s[..start]) + "::", HexGroups(s[start + len..]));
  }

  // --- What the texts tell ------------------------------------------------------

  lemma WordBytesValue(w: u32)
    ensures var b := WordBytes(w);
      w == (b[0] as int) + 256 * (b[1] as int) + 65_536 * (b[2] as int) + 16_777_216 * (b[3] as int)
  {
  }

  /** What stands before the first dot is determined by the whole. */
  lemma {:induction false} BeforeDot(a: string, x: string, b: string, y: string)
    requires a + "." + x == b + "." + y && '.' !in a && '.' !in b
    ensures a == b && x == y
  {
    var s, t := a + "." + x, b + "." + y;
    assert s[|a|] == '.' && t[|b|] == '.';
    assert forall i :: 0 <= i < |a| ==> s[i] == a[i];
    assert forall i :: 0 <= i < |b| ==> t[i] == b[i];
    assert |a| == |b|;
    assert a == s[..|a|] && b == t[..|b|];
    assert x == s[|a| + 1..] && y == t[|b| + 1..];
  }

  /** Different IPv4 addresses have different texts. */
  lemma V4TextDistinguishes(a: Octets4, b: Octets4)
    requires V4Text(a) == V4Text(b)
    ensures a == b
  {
    hide Decimal;
    var a1 := Decimal(a[1]) + "." + (Decimal(a[2]) + "." + Decimal(a[3]));
    var b1 := Decimal(b[1]) + "." + (Decimal(b[2]) + "." + Decimal(b[3]));
    assert V4Text(a) == Decimal(a[0]) + "." + a1 && V4Text(b) == Decimal(b[0]) + "." + b1;
    BeforeDot(Decimal(a[0]), a1, Decimal(b[0]), b1);
    BeforeDot(Decimal(a[1]), Decimal(a[2]) + "." + Decimal(a[3]), Decimal(b[1]), Decimal(b[2]) + "." + Decimal(b[3]));
    BeforeDot(Decimal(a[2]), Decimal(a[3]), Decimal(b[2]), Decimal(b[3]));
    DecimalDistinguishes(a[0], b[0]);
    DecimalDistinguishes(a[1], b[1]);
    DecimalDistinguishes(a[2], b[2]);
    DecimalDistinguishes(a[3], b[3]);
  }

  /** The first byte in memory is printed first. */
  lemma V4TextExample()
    ensures V4Text(WordBytes(0x0403_0201)) == "1.2.3.4"
  {
  }

  /** Hexadecimal digits, the most significant first. */
  lemma {:induction false} HexDigits(n: nat)
    ensures n < 16 ==> Hex(n) == ["0123456789abcdef"[n]]
    ensures n >= 16 ==> Hex(n) == Hex(n / 16) + ["0123456789abcdef"[n % 16]]
  {
  }

  /** From i on there are exactly n zero groups. */
  ghost predicate ZerosFrom(s: seq<u16>, i: nat, n: nat) {
    i + n <= |s| && (forall k :: i <= k < i + n ==> s[k] == 0) && (i + n < |s| ==> s[i + n] != 0)
  }

  lemma {:induction false} ZeroRunMeans(s: seq<u16>, i: nat)
    requires i <= |s|
    ensures ZerosFrom(s, i, ZeroRun(s, i))
    decreases |s| - i
  {
    if i < |s| && s[i] == 0 {
      ZeroRunMeans(s, i + 1);
    }
  }

  lemma {:induction false} LongestRunMeans(s: seq<u16>, i: nat, best: nat)
    requires i <= |s| && best <= |s|
    requires forall k :: 0 <= k < i ==> ZeroRun(s, k) <= ZeroRun(s, best)
    requires forall k :: 0 <= k < i && k < best ==> ZeroRun(s, k) < ZeroRun(s, best)
    requires best < i || (best == i == 0)
    ensures var b := LongestRun(s, i, best);
      && (forall k :: 0 <= k < |s| ==> ZeroRun(s, k) <= ZeroRun(s, b))
      && (forall k :: 0 <= k < b && k < |s| ==> ZeroRun(s, k) < ZeroRun(s, b))
    decreases |s| - i
  {
    hide ZeroRun;
    if i < |s| {
      LongestRunMeans(s, i + 1, if ZeroRun(s, i) > ZeroRun(s, best) then i else best);
    }
  }

  /** The text of an IPv6 address (RFC 5952, section 4.2): the first of the longest runs
      of at least two zero groups stands as a double colon, and the other groups in
      hexadecimal without leading zeros; a mapped IPv4 address ends in its own text. */
  lemma V6TextMeans(a: Octets16)
    ensures var mapped := a[..10] == [0, 0, 0, 0, 0, 0, 0, 0, 0, 0] && a[10] == a[11] == 255;
      && (mapped ==> V6Text(a) == "::ffff:" + V4Text(a[12..]))
      && (!mapped ==> exists start: nat, n: nat ::
            && start + n <= 8 && ZerosFrom(Segments(a), start, n)
            && (forall i: nat, m: nat :: i < 8 && ZerosFrom(Segments(a), i, m) ==> m < n || (m == n && start <= i))
            && V6Text(a) == if n >= 2 then HexGroups(Segments(a)[..start]) + "::" + HexGroups(Segments(a)[start + n..])
                            else HexGroups(Segments(a)))
  {
    hide HexGroups, V4Text, ZeroRun, LongestRun, Segments;
    assert a[..12] == a[..10] + [a[10], a[11]];
    var s := Segments(a);
    LongestRunMeans(s, 0, 0);
    var start := LongestRun(s, 0, 0);
    var n := ZeroRun(s, start);
    forall i | 0 <= i <= 8 ensures ZerosFrom(s, i, ZeroRun(s, i)) {
      ZeroRunMeans(s, i);
    }
    forall i: nat, m: nat | i < 8 && ZerosFrom(s, i, m) ensures m == ZeroRun(s, i) {
      assert ZerosFrom(s, i, ZeroRun(s, i));
    }
  }

  /** The groups are the pairs of bytes in network order, with colons between them. */
  lemma {:induction false} GroupsMean(a: Octets16, s: seq<u16>)
    ensures forall i :: 0 <= i < 8 ==> Segments(a)[i] == 256 * (a[2 * i] as int) + a[2 * i + 1]
    ensures HexGroups([]) == ""
    ensures |s| == 1 ==> HexGroups(s) == Hex(s[0])
    ensures |s| > 1 ==> HexGroups(s) == Hex(s[0]) + ":" + HexGroups(s[1..])
  {
    hide Hex;
  }
}
