/** Small vocabulary shared by every module: optional values, the integer widths
    the program uses, and a few functions on sequences. */
module Base {

  datatype Option<+T> = None | Some(value: T)
  {
    function GetOr(default: T): T {
      if Some? then value else default
    }

    predicate IsFailure() { None? }

    function PropagateFailure<U>(): Option<U>
      requires None?
    {
      None
    }

    function Extract(): T
      requires Some?
    {
      value
    }
  }

  datatype Result<+T> = Ok(value: T) | Err(error: string)

  type u8 = x: int | 0 <= x < 0x100
  type u16 = x: int | 0 <= x < 0x1_0000
  type u32 = x: int | 0 <= x < 0x1_0000_0000
  type u64 = x: int | 0 <= x < 0x1_0000_0000_0000_0000

  type Bytes = seq<u8>

  // --- Sequences -----------------------------------------------------------

  function Filter<T>(s: seq<T>, p: T -> bool): seq<T> {
    if s == [] then []
    else if p(s[0]) then [s[0]] + Filter(s[1..], p)
    else Filter(s[1..], p)
  }

  function Map<S, T>(s: seq<S>, f: S -> T): (r: seq<T>)
    ensures |r| == |s|
    ensures forall i :: 0 <= i < |s| ==> r[i] == f(s[i])
  {
    if s == [] then [] else [f(s[0])] + Map(s[1..], f)
  }

  function Sum(s: seq<nat>): nat {
    if s == [] then 0 else s[0] + Sum(s[1..])
  }

  lemma {:induction false} FilterMember<T>(s: seq<T>, p: T -> bool, x: T)
    ensures x in Filter(s, p) <==> x in s && p(x)
  {
    if s != [] {
      FilterMember(s[1..], p, x);
      assert s == [s[0]] + s[1..];
    }
  }

  lemma {:induction false} FilterMembers<T(!new)>(s: seq<T>, p: T -> bool)
    ensures forall x :: x in Filter(s, p) <==> x in s && p(x)
  {
    forall x ensures x in Filter(s, p) <==> x in s && p(x) {
      FilterMember(s, p, x);
    }
  }

  lemma {:induction false} FilterAppend<T>(s: seq<T>, t: seq<T>, p: T -> bool)
    ensures Filter(s + t, p) == Filter(s, p) + Filter(t, p)
  {
    if s == [] {
      assert s + t == t;
    } else {
      assert (s + t)[0] == s[0] && (s + t)[1..] == s[1..] + t;
      FilterAppend(s[1..], t, p);
    }
  }

  lemma {:induction false} MapAppend<S, T>(s: seq<S>, t: seq<S>, f: S -> T)
    ensures Map(s + t, f) == Map(s, f) + Map(t, f)
  {
    if s == [] {
      assert s + t == t;
    } else {
      assert (s + t)[0] == s[0] && (s + t)[1..] == s[1..] + t;
      MapAppend(s[1..], t, f);
    }
  }

  lemma {:induction false} FilterMap<S, T>(s: seq<S>, f: S -> T, p: T -> bool, q: S -> bool)
    requires forall x | x in s :: p(f(x)) == q(x)
    ensures Filter(Map(s, f), p) == Map(Filter(s, q), f)
  {
    if s != [] {
      assert s[0] in s;
      FilterMap(s[1..], f, p, q);
      assert Map(s, f)[1..] == Map(s[1..], f);
      if q(s[0]) {
        assert Filter(s, q)[1..] == Filter(s[1..], q);
      }
    }
  }

  lemma {:induction false} SumAppend(s: seq<nat>, t: seq<nat>)
    ensures Sum(s + t) == Sum(s) + Sum(t)
  {
    if s == [] {
      assert s + t == t;
    } else {
      assert (s + t)[0] == s[0] && (s + t)[1..] == s[1..] + t;
      SumAppend(s[1..], t);
    }
  }

  /** Filtering twice is filtering by the conjunction. */
  lemma {:induction false} FilterFilter<T>(s: seq<T>, p: T -> bool, q: T -> bool, both: T -> bool)
    requires forall x | x in s :: both(x) == (p(x) && q(x))
    ensures Filter(Filter(s, p), q) == Filter(s, both)
  {
    if s != [] {
      assert s[0] in s;
      FilterFilter(s[1..], p, q, both);
      if p(s[0]) {
        assert Filter(s, p)[1..] == Filter(s[1..], p);
      }
    }
  }

  lemma {:induction false} FilterEvery<T>(s: seq<T>, p: T -> bool)
    requires forall x :: x in s ==> p(x)
    ensures Filter(s, p) == s
  {
    if s != [] {
      assert s[0] in s;
      FilterEvery(s[1..], p);
    }
  }

  lemma {:induction false} FilterNone<T>(s: seq<T>, p: T -> bool)
    requires forall x :: x in s ==> !p(x)
    ensures Filter(s, p) == []
  {
    if s != [] {
      assert s[0] in s;
      FilterNone(s[1..], p);
    }
  }

  lemma {:induction false} FilterMultiset<T(!new)>(s: seq<T>, t: seq<T>, p: T -> bool)
    requires multiset(s) == multiset(t)
    ensures multiset(Filter(s, p)) == multiset(Filter(t, p))
  {
    forall x ensures multiset(Filter(s, p))[x] == multiset(Filter(t, p))[x] {
      FilterCount(s, p, x);
      FilterCount(t, p, x);
    }
    assert multiset(Filter(s, p)) == multiset(Filter(t, p));
  }

  lemma {:induction false} FilterCount<T>(s: seq<T>, p: T -> bool, x: T)
    ensures multiset(Filter(s, p))[x] == if p(x) then multiset(s)[x] else 0
  {
    if s != [] {
      assert s == [s[0]] + s[1..];
      FilterCount(s[1..], p, x);
    }
  }

  /** Keeps the values that f yields, in order. */
  function Collect<S, T>(s: seq<S>, f: S -> Option<T>): seq<T> {
    if s == [] then []
    else match f(s[0])
      case Some(y) => [y] + Collect(s[1..], f)
      case None => Collect(s[1..], f)
  }

  lemma {:induction false} CollectAppend<S, T>(s: seq<S>, t: seq<S>, f: S -> Option<T>)
    ensures Collect(s + t, f) == Collect(s, f) + Collect(t, f)
  {
    if s == [] {
      assert s + t == t;
    } else {
      assert (s + t)[0] == s[0] && (s + t)[1..] == s[1..] + t;
      CollectAppend(s[1..], t, f);
    }
  }

  lemma {:induction false} CollectMember<S, T>(s: seq<S>, f: S -> Option<T>, y: T)
    ensures y in Collect(s, f) <==> exists i :: 0 <= i < |s| && f(s[i]) == Some(y)
  {
    if s != [] {
      CollectMember(s[1..], f, y);
      assert forall i :: 0 < i < |s| ==> s[i] == s[1..][i - 1];
      if y in Collect(s[1..], f) {
        var i :| 0 <= i < |s[1..]| && f(s[1..][i]) == Some(y);
        assert f(s[i + 1]) == Some(y);
      }
    }
  }

  ghost function Yields<S, T>(f: S -> Option<T>, y: T): S -> bool {
    x => f(x) == Some(y)
  }

  lemma {:induction false} CollectCount<S, T>(s: seq<S>, f: S -> Option<T>, y: T)
    ensures multiset(Collect(s, f))[y] == |Filter(s, Yields(f, y))|
  {
    if s != [] {
      CollectCount(s[1..], f, y);
    }
  }

  /** Reordering the input only reorders what is collected. */
  lemma {:induction false} CollectMultiset<S(!new), T(!new)>(s: seq<S>, t: seq<S>, f: S -> Option<T>)
    requires multiset(s) == multiset(t)
    ensures multiset(Collect(s, f)) == multiset(Collect(t, f))
  {
    forall y ensures multiset(Collect(s, f))[y] == multiset(Collect(t, f))[y] {
      CollectCount(s, f, y);
      CollectCount(t, f, y);
      FilterMultiset(s, t, Yields(f, y));
      assert |multiset(Filter(s, Yields(f, y)))| == |multiset(Filter(t, Yields(f, y)))|;
    }
    assert multiset(Collect(s, f)) == multiset(Collect(t, f));
  }

  // --- Text ----------------------------------------------------------------

  function Digit(n: nat): char
    requires n < 10
  {
    "0123456789"[n]
  }

  /** Decimal text without leading zeros, as Rust's integer Display prints it. */
  function Decimal(n: nat): (s: string)
    ensures |s| > 0
    ensures forall i :: 0 <= i < |s| ==> '0' <= s[i] <= '9'
  {
    if n < 10 then [Digit(n)] else Decimal(n / 10) + [Digit(n % 10)]
  }

  function Join(parts: seq<string>, sep: string): string {
    if parts == [] then ""
    else if |parts| == 1 then parts[0]
    else parts[0] + sep + Join(parts[1..], sep)
  }

  predicate StartsWith(s: string, p: string) {
    |p| <= |s| && s[..|p|] == p
  }

  predicate EndsWith(s: string, p: string) {
    |p| <= |s| && s[|s| - |p|..] == p
  }

  predicate Contains(s: string, p: string) {
    exists i :: 0 <= i <= |s| && StartsWith(s[i..], p)
  }

  // --- Operating-system strings ---------------------------------------------

  /** A file name or path as the kernel hands it out: text, except that some
      bytes need not be part of any valid UTF-8 sequence. */
  datatype OsUnit = Chr(c: char) | RawByte(b: u8)
  type OsString = seq<OsUnit>

  function FromText(s: string): OsString {
    seq(|s|, i requires 0 <= i < |s| => Chr(s[i]))
  }

  /** The text of an OS string, if all of it is text. */
  function ToText(s: OsString): Option<string> {
    if forall i :: 0 <= i < |s| ==> s[i].Chr?
    then Some(seq(|s|, i requires 0 <= i < |s| && s[i].Chr? => s[i].c))
    else None
  }

  /** Undecodable bytes are shown as the replacement character. */
  function ToTextLossy(s: OsString): string {
    seq(|s|, i requires 0 <= i < |s| => if s[i].Chr? then s[i].c else '\U{FFFD}')
  }

  lemma ToTextFromText(s: string)
    ensures ToText(FromText(s)) == Some(s)
  {
    assert ToText(FromText(s)).value == s;
  }

  /** An OS string is this text exactly when it is made of these characters. */
  lemma ToTextExactly(os: OsString, s: string)
    ensures ToText(os) == Some(s) <==> os == FromText(s)
  {
    if os == FromText(s) {
      ToTextFromText(s);
    }
  }

  /** A prefix, a suffix and a part in terms of concatenation. */
  lemma PrefixOfText(s: string, p: string)
    ensures StartsWith(s, p) <==> exists rest :: s == p + rest
  {
    if StartsWith(s, p) {
      assert s == p + s[|p|..];
    }
  }

  lemma SuffixOfText(s: string, p: string)
    ensures EndsWith(s, p) <==> exists front :: s == front + p
  {
    if EndsWith(s, p) {
      assert s == s[..|s| - |p|] + p;
    }
  }

  lemma PartOfText(s: string, p: string)
    ensures Contains(s, p) <==> exists front, rest :: s == front + p + rest
  {
    if Contains(s, p) {
      var i :| 0 <= i <= |s| && StartsWith(s[i..], p);
      assert s == s[..i] + p + s[i + |p|..];
    }
    if exists front, rest :: s == front + p + rest {
      var front, rest :| s == front + p + rest;
      assert s[|front|..] == p + rest;
      assert StartsWith(s[|front|..], p);
    }
  }

  lemma {:induction false} DecimalEnds(n: nat)
    ensures Decimal(n)[|Decimal(n)| - 1] == Digit(n % 10)
    ensures Decimal(n)[..|Decimal(n)| - 1] == if n < 10 then "" else Decimal(n / 10)
  {
    hide Digit;
  }

  lemma DigitDistinguishes(m: nat, n: nat)
    requires m < 10 && n < 10 && Digit(m) == Digit(n)
    ensures m == n
  {
  }

  /** Different numbers have different texts. */
  lemma {:induction false} DecimalDistinguishes(m: nat, n: nat)
    requires Decimal(m) == Decimal(n)
    ensures m == n
  {
    hide Decimal, Digit;
    DecimalEnds(m);
    DecimalEnds(n);
    DigitDistinguishes(m % 10, n % 10);
    if m >= 10 && n >= 10 {
      DecimalDistinguishes(m / 10, n / 10);
    }
  }

  /** Joining puts the separator between neighbours and nowhere else. */
  lemma {:induction false} JoinMeans(head: string, tail: seq<string>, sep: string)
    ensures Join([], sep) == "" && Join([head], sep) == head
    ensures tail != [] ==> Join([head] + tail, sep) == head + sep + Join(tail, sep)
  {
    assert ([head] + tail)[1..] == tail;
  }

  /** Text is kept, and each undecodable byte becomes U+FFFD. */
  lemma LossyText(os: OsString)
    ensures |ToTextLossy(os)| == |os|
    ensures forall i :: 0 <= i < |os| ==>
      if os[i].Chr? then ToTextLossy(os)[i] == os[i].c else ToTextLossy(os)[i] as int == 0xFFFD
  {
  }
}
