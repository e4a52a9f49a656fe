/** The postcard wire format of the messages: little-endian base-128 integers,
    length-prefixed text and lists, one tag byte for an option, and a tag number
    for an enum variant.

    An encoder takes the bytes that are to follow its value, so that encoders
    compose by nesting; a decoder returns the value and the bytes after it. */
module Codec {
  import opened Base

  type Decoded<T> = Option<(T, Bytes)>

  // The largest frame payload, one mebibyte.
  const MAX_FRAME: nat := 0x10_0000

  // --- Integers ----------------------------------------------------------------

  function EncVar(n: nat, rest: Bytes): (r: Bytes)
    ensures |r| > |rest|
  {
    if n < 0x80 then [n] + rest else [0x80 + n % 0x80] + EncVar(n / 0x80, rest)
  }

  /** One more than the largest number that `left` bytes can carry when the last
      possible byte may not exceed maxLast. */
  function Bound(left: nat, maxLast: nat): nat {
    if left == 0 then 0 else if left == 1 then maxLast + 1 else 0x80 * Bound(left - 1, maxLast)
  }

  /** Reads at most `left` bytes; the last permitted one must not overflow the
      integer type, which maxLast expresses. */
  function DecVar(s: Bytes, left: nat, maxLast: nat): (r: Decoded<nat>)
    requires maxLast < 0x80
    ensures r.Some? ==> r.value.0 < Bound(left, maxLast)
    ensures r.Some? ==> |r.value.1| < |s|
    decreases left
  {
    if left == 0 || s == [] then None
    else if s[0] < 0x80 then
      if left == 1 && s[0] > maxLast then None else BoundPositive(left, maxLast, s[0]); Some((s[0], s[1..]))
    else
      var (n, t) :- DecVar(s[1..], left - 1, maxLast);
      Some((s[0] - 0x80 + 0x80 * n, t))
  }

  lemma {:induction false} BoundPositive(left: nat, maxLast: nat, b: u8)
    requires left > 0 && b < 0x80 && maxLast < 0x80 && (left == 1 ==> b <= maxLast)
    ensures b < Bound(left, maxLast)
  {
    if left > 1 {
      BoundPositive(left - 1, maxLast, 0);
    }
  }

  lemma {:induction false} VarRoundTrip(n: nat, rest: Bytes, left: nat, maxLast: nat)
    requires maxLast < 0x80 && n < Bound(left, maxLast)
    ensures DecVar(EncVar(n, rest), left, maxLast) == Some((n, rest))
  {
    if n < 0x80 {
      assert EncVar(n, rest)[1..] == rest;
    } else {
      VarRoundTrip(n / 0x80, rest, left - 1, maxLast);
      assert EncVar(n, rest)[1..] == EncVar(n / 0x80, rest);
    }
  }

  lemma Bounds()
    ensures Bound(3, 3) == 0x1_0000
    ensures Bound(5, 15) == 0x1_0000_0000
    ensures Bound(10, 1) == 0x1_0000_0000_0000_0000
  {
    assert Bound(1, 3) == 4 && Bound(2, 3) == 0x200;
    assert Bound(1, 15) == 0x10 && Bound(2, 15) == 0x800 && Bound(3, 15) == 0x4_0000 && Bound(4, 15) == 0x200_0000;
    assert Bound(1, 1) == 2 && Bound(2, 1) == 0x100 && Bound(3, 1) == 0x8000 && Bound(4, 1) == 0x40_0000;
    assert Bound(5, 1) == 0x2000_0000 && Bound(6, 1) == 0x10_0000_0000 && Bound(7, 1) == 0x800_0000_0000;
    assert Bound(8, 1) == 0x4_0000_0000_0000 && Bound(9, 1) == 0x200_0000_0000_0000;
  }

  function DecU16(s: Bytes): Decoded<u16> {
    var (n, t) :- DecVar(s, 3, 3);
    Bounds();
    Some((n as u16, t))
  }

  function DecU32(s: Bytes): Decoded<u32> {
    var (n, t) :- DecVar(s, 5, 15);
    Bounds();
    Some((n as u32, t))
  }

  function DecU64(s: Bytes): Decoded<u64> {
    var (n, t) :- DecVar(s, 10, 1);
    Bounds();
    Some((n as u64, t))
  }

  function DecU8(s: Bytes): Decoded<u8> {
    if s == [] then None else Some((s[0], s[1..]))
  }

  function EncU64(n: u64, rest: Bytes): (r: Bytes)
    ensures |r| > |rest|
  {
    EncVar(n, rest)
  }

  lemma IntegerRoundTrip(rest: Bytes)
    ensures forall n: u16 :: DecU16(EncVar(n, rest)) == Some((n, rest))
    ensures forall n: u32 :: DecU32(EncVar(n, rest)) == Some((n, rest))
    ensures forall n: u64 :: DecU64(EncVar(n, rest)) == Some((n, rest))
    ensures forall n: u8 :: DecU8([n] + rest) == Some((n, rest))
  {
    Bounds();
    forall n: u16 ensures DecU16(EncVar(n, rest)) == Some((n, rest)) {
      VarRoundTrip(n, rest, 3, 3);
    }
    forall n: u32 ensures DecU32(EncVar(n, rest)) == Some((n, rest)) {
      VarRoundTrip(n, rest, 5, 15);
    }
    forall n: u64 ensures DecU64(EncVar(n, rest)) == Some((n, rest)) {
      VarRoundTrip(n, rest, 10, 1);
    }
    forall n: u8 ensures DecU8([n] + rest) == Some((n, rest)) {
      assert ([n] + rest)[1..] == rest;
    }
  }

  // --- Text --------------------------------------------------------------------

  function EncChar(c: char): (r: Bytes)
    ensures 1 <= |r| <= 4
  {
    var n := c as int;
    var high := n / 0x40;
    var higher := high / 0x40;
    if n < 0x80 then [n]
    else if n < 0x800 then [0xC0 + high, 0x80 + n % 0x40]
    else if n < 0x1_0000 then [0xE0 + higher, 0x80 + high % 0x40, 0x80 + n % 0x40]
    else [0xF0 + higher / 0x40, 0x80 + higher % 0x40, 0x80 + high % 0x40, 0x80 + n % 0x40]
  }

  function Utf8(s: string): Bytes {
    if s == [] then [] else EncChar(s[0]) + Utf8(s[1..])
  }

  predicate Continuation(b: u8) { 0x80 <= b < 0xC0 }

  /** One well-formed UTF-8 sequence: no overlong forms, no surrogates, nothing
      above U+10FFFF. */
  function DecChar(s: Bytes): (r: Option<(char, Bytes)>)
    ensures r.Some? ==> |r.value.1| < |s|
  {
    if s == [] then None
    else if s[0] < 0x80 then Some((s[0] as char, s[1..]))
    else if 0xC2 <= s[0] < 0xE0 && |s| >= 2 && Continuation(s[1]) then
      Some((((s[0] - 0xC0) as int * 0x40 + (s[1] - 0x80)) as char, s[2..]))
    else if 0xE0 <= s[0] < 0xF0 && |s| >= 3 && Continuation(s[1]) && Continuation(s[2]) then
      var n := ((s[0] - 0xE0) as int * 0x40 + (s[1] - 0x80)) * 0x40 + (s[2] - 0x80);
      if n < 0x800 || 0xD800 <= n < 0xE000 then None else Some((n as char, s[3..]))
    else if 0xF0 <= s[0] < 0xF5 && |s| >= 4 && Continuation(s[1]) && Continuation(s[2]) && Continuation(s[3]) then
      var n := (((s[0] - 0xF0) as int * 0x40 + (s[1] - 0x80)) * 0x40 + (s[2] - 0x80)) * 0x40 + (s[3] - 0x80);
      if n < 0x1_0000 || n >= 0x11_0000 then None else Some((n as char, s[4..]))
    else None
  }

  function FromUtf8(s: Bytes): Option<string>
    decreases |s|
  {
    if s == [] then Some([])
    else
      var (c, t) :- DecChar(s);
      var r :- FromUtf8(t);
      Some([c] + r)
  }

  lemma CharRoundTrip(c: char, rest: Bytes)
    ensures DecChar(EncChar(c) + rest) == Some((c, rest))
  {
    var b := EncChar(c) + rest;
    assert b[|EncChar(c)|..] == rest;
  }

  lemma {:induction false} Utf8RoundTrip(s: string)
    ensures FromUtf8(Utf8(s)) == Some(s)
  {
    if s != [] {
      CharRoundTrip(s[0], Utf8(s[1..]));
      Utf8RoundTrip(s[1..]);
      assert s == [s[0]] + s[1..];
    }
  }

  function EncStr(s: string, rest: Bytes): (r: Bytes)
    ensures |r| > |rest| + |Utf8(s)|
  {
    EncVar(|Utf8(s)|, Utf8(s) + rest)
  }

  function DecStr(s: Bytes): Decoded<string> {
    var (n, t) :- DecU64(s);
    if |t| < n then None
    else
      var text :- FromUtf8(t[..n]);
      Some((text, t[n..]))
  }

  lemma StrRoundTrip(s: string, rest: Bytes)
    requires |EncStr(s, rest)| <= MAX_FRAME
    ensures DecStr(EncStr(s, rest)) == Some((s, rest))
  {
    var u := Utf8(s);
    IntegerRoundTrip(u + rest);
    var n: u64 := |u|;
    assert DecU64(EncVar(n, u + rest)) == Some((n, u + rest));
    Utf8RoundTrip(s);
    assert (u + rest)[..n] == u && (u + rest)[n..] == rest;
  }

  // --- Options and lists -----------------------------------------------------------

  function EncOption<T>(o: Option<T>, enc: (T, Bytes) -> Bytes, rest: Bytes): (r: Bytes) {
    match o
    case None => [0] + rest
    case Some(x) => [1] + enc(x, rest)
  }

  function DecOption<T>(s: Bytes, dec: Bytes -> Decoded<T>): Decoded<Option<T>> {
    if s == [] then None
    else if s[0] == 0 then Some((None, s[1..]))
    else if s[0] == 1 then
      var (x, t) :- dec(s[1..]);
      Some((Some(x), t))
    else None
  }

  /** dec undoes enc, whatever follows, as long as the bytes fit in a frame. */
  ghost predicate Inverse<T(!new)>(enc: (T, Bytes) -> Bytes, dec: Bytes -> Decoded<T>) {
    forall x: T, rest: Bytes ::
      && |enc(x, rest)| > |rest|
      && (|enc(x, rest)| <= MAX_FRAME ==> dec(enc(x, rest)) == Some((x, rest)))
  }

  lemma OptionRoundTrip<T(!new)>(o: Option<T>, enc: (T, Bytes) -> Bytes, dec: Bytes -> Decoded<T>, rest: Bytes)
    requires Inverse(enc, dec) && |EncOption(o, enc, rest)| <= MAX_FRAME
    ensures DecOption(EncOption(o, enc, rest), dec) == Some((o, rest))
    ensures |EncOption(o, enc, rest)| > |rest|
  {
    match o
    case None => assert ([0] + rest)[1..] == rest;
    case Some(x) => assert ([1] + enc(x, rest))[1..] == enc(x, rest);
  }

  function EncAll<T>(xs: seq<T>, enc: (T, Bytes) -> Bytes, rest: Bytes): Bytes {
    if xs == [] then rest else enc(xs[0], EncAll(xs[1..], enc, rest))
  }

  function DecAll<T>(s: Bytes, n: nat, dec: Bytes -> Decoded<T>): Decoded<seq<T>>
    decreases n
  {
    if n == 0 then Some(([], s))
    else
      var (x, t) :- dec(s);
      var (xs, u) :- DecAll(t, n - 1, dec);
      Some(([x] + xs, u))
  }

  function EncSeq<T>(xs: seq<T>, enc: (T, Bytes) -> Bytes, rest: Bytes): Bytes {
    EncVar(|xs|, EncAll(xs, enc, rest))
  }

  function DecSeq<T>(s: Bytes, dec: Bytes -> Decoded<T>): Decoded<seq<T>> {
    var (n, t) :- DecU64(s);
    DecAll(t, n, dec)
  }

  lemma {:induction false} AllLength<T(!new)>(xs: seq<T>, enc: (T, Bytes) -> Bytes, dec: Bytes -> Decoded<T>,
    rest: Bytes)
    requires Inverse(enc, dec)
    ensures |EncAll(xs, enc, rest)| >= |xs| + |rest|
  {
    if xs != [] {
      AllLength(xs[1..], enc, dec, rest);
      assert |enc(xs[0], EncAll(xs[1..], enc, rest))| > |EncAll(xs[1..], enc, rest)|;
    }
  }

  lemma {:induction false} AllRoundTrip<T(!new)>(xs: seq<T>, enc: (T, Bytes) -> Bytes, dec: Bytes -> Decoded<T>,
    rest: Bytes)
    requires Inverse(enc, dec) && |EncAll(xs, enc, rest)| <= MAX_FRAME
    ensures DecAll(EncAll(xs, enc, rest), |xs|, dec) == Some((xs, rest))
  {
    if xs != [] {
      var t := EncAll(xs[1..], enc, rest);
      assert |enc(xs[0], t)| > |t|;
      AllRoundTrip(xs[1..], enc, dec, rest);
      assert xs == [xs[0]] + xs[1..];
    }
  }

  lemma SeqRoundTrip<T(!new)>(xs: seq<T>, enc: (T, Bytes) -> Bytes, dec: Bytes -> Decoded<T>, rest: Bytes)
    requires Inverse(enc, dec) && |EncSeq(xs, enc, rest)| <= MAX_FRAME
    ensures DecSeq(EncSeq(xs, enc, rest), dec) == Some((xs, rest))
    ensures |EncSeq(xs, enc, rest)| > |rest|
  {
    AllLength(xs, enc, dec, rest);
    AllRoundTrip(xs, enc, dec, rest);
    IntegerRoundTrip(EncAll(xs, enc, rest));
    var n: u64 := |xs|;
    assert DecU64(EncVar(n, EncAll(xs, enc, rest))) == Some((n, EncAll(xs, enc, rest)));
  }

  lemma StringsInverse()
    ensures Inverse(EncStr, DecStr)
  {
    forall s: string, rest: Bytes | |EncStr(s, rest)| <= MAX_FRAME ensures DecStr(EncStr(s, rest)) == Some((s, rest)) {
      StrRoundTrip(s, rest);
    }
  }

  lemma U64sInverse()
    ensures Inverse(EncU64, DecU64)
  {
    forall n: u64, rest: Bytes ensures DecU64(EncU64(n, rest)) == Some((n, rest)) {
      IntegerRoundTrip(rest);
    }
  }

  // --- Exactly UTF-8 -----------------------------------------------------------------

  lemma TwoByteForm(s: Bytes)
    requires |s| >= 2 && 0xC2 <= s[0] < 0xE0 && Continuation(s[1])
    ensures EncChar(((s[0] - 0xC0) as int * 0x40 + (s[1] - 0x80)) as char) == s[..2]
  {
  }

  lemma ThreeByteForm(s: Bytes, n: int)
    requires |s| >= 3 && 0xE0 <= s[0] < 0xF0 && Continuation(s[1]) && Continuation(s[2])
    requires n == ((s[0] - 0xE0) as int * 0x40 + (s[1] - 0x80)) * 0x40 + (s[2] - 0x80)
    requires n >= 0x800 && !(0xD800 <= n < 0xE000)
    ensures EncChar(n as char) == s[..3]
  {
    assert n / 0x40 == (s[0] - 0xE0) as int * 0x40 + (s[1] - 0x80);
  }

  lemma FourByteForm(s: Bytes, n: int)
    requires |s| >= 4 && 0xF0 <= s[0] < 0xF5 && Continuation(s[1]) && Continuation(s[2]) && Continuation(s[3])
    requires n == (((s[0] - 0xF0) as int * 0x40 + (s[1] - 0x80)) * 0x40 + (s[2] - 0x80)) * 0x40 + (s[3] - 0x80)
    requires 0x1_0000 <= n < 0x11_0000
    ensures EncChar(n as char) == s[..4]
  {
    var high := ((s[0] - 0xF0) as int * 0x40 + (s[1] - 0x80)) * 0x40 + (s[2] - 0x80);
    assert n / 0x40 == high;
    assert high / 0x40 == (s[0] - 0xF0) as int * 0x40 + (s[1] - 0x80);
  }

  /** Only what encoding a character produces is decoded. */
  lemma CharExactly(s: Bytes)
    requires DecChar(s).Some?
    ensures s == EncChar(DecChar(s).value.0) + DecChar(s).value.1
  {
    hide EncChar;
    if s[0] < 0x80 {
      OneByteForm(s[0]);
    } else if s[0] < 0xE0 {
      TwoByteForm(s);
    } else if s[0] < 0xF0 {
      ThreeByteForm(s, ((s[0] - 0xE0) as int * 0x40 + (s[1] - 0x80)) * 0x40 + (s[2] - 0x80));
    } else {
      FourByteForm(s,
        (((s[0] - 0xF0) as int * 0x40 + (s[1] - 0x80)) * 0x40 + (s[2] - 0x80)) * 0x40 + (s[3] - 0x80));
    }
  }

  lemma OneByteForm(b: u8)
    requires b < 0x80
    ensures EncChar(b as char) == [b]
  {
  }

  /** Bytes are some text exactly when they are its UTF-8 form. */
  lemma {:induction false} Utf8Exactly(b: Bytes, s: string)
    ensures FromUtf8(b) == Some(s) <==> b == Utf8(s)
    decreases |b|
  {
    hide EncChar, DecChar;
    Utf8RoundTrip(s);
    if b != [] && DecChar(b).Some? {
      var (c, rest) := DecChar(b).value;
      CharExactly(b);
      if FromUtf8(b) == Some(s) {
        Utf8Exactly(rest, s[1..]);
      }
    }
  }

  /** One character of each length. */
  lemma CharExamples()
    ensures EncChar('A') == [0x41] && EncChar('\U{E9}') == [0xC3, 0xA9]
    ensures EncChar('\U{20AC}') == [0xE2, 0x82, 0xAC] && EncChar('\U{1F600}') == [0xF0, 0x9F, 0x98, 0x80]
  {
  }
}
