/** The part of TOML v1.0.0 that generated rule files use: comments, bare keys
    with basic strings, unsigned decimal integers and booleans, and arrays of
    tables. Documents are key tables plus what an edit must leave alone. */
module Toml {
  import opened Base

  datatype Value = Str(text: string) | Int(n: int) | Bool(b: bool) | Array(elements: seq<Value>)

  datatype Item = Comment(text: string) | Header(name: string) | Pair(key: string, value: Value)

  type Table = map<string, Value>

  /** One table of an array of tables. */
  datatype Entry = Entry(name: string, table: Table)

  /** A parsed document. `remainder` stands for comments, key order and layout. */
  datatype Document = Document(top: Table, entries: seq<Entry>, remainder: seq<string>)

  // --- Characters --------------------------------------------------------------------

  /** Characters that may not appear raw in a comment or a basic string. */
  predicate Control(c: char) {
    (c < ' ' && c != '\t') || c == '\U{7F}'
  }

  predicate Plain(s: string) {
    forall i :: 0 <= i < |s| ==> !Control(s[i])
  }

  predicate BareChar(c: char) {
    'a' <= c <= 'z' || 'A' <= c <= 'Z' || '0' <= c <= '9' || c == '_' || c == '-'
  }

  predicate BareKey(k: string) {
    k != "" && forall i :: 0 <= i < |k| ==> BareChar(k[i])
  }

  predicate DigitChar(c: char) {
    '0' <= c <= '9'
  }

  // --- Scanning ------------------------------------------------------------------------

  function SkipBlank(s: string): (r: string)
    ensures |r| <= |s|
    ensures r != "" ==> r[0] !in " \t\n"
  {
    if s != "" && s[0] in " \t\n" then SkipBlank(s[1..]) else s
  }

  function SkipSpace(s: string): (r: string)
    ensures |r| <= |s|
  {
    if s != "" && s[0] in " \t" then SkipSpace(s[1..]) else s
  }

  /** The longest prefix of characters satisfying p, and what follows it. */
  function Span(s: string, p: char -> bool): (r: (string, string))
    ensures r.0 + r.1 == s
  {
    if s == "" || !p(s[0]) then ("", s)
    else
      var (a, b) := Span(s[1..], p);
      ([s[0]] + a, b)
  }

  /** The body of a basic string, after its opening quote: the text it denotes
      and what follows its closing quote. */
  function ScanBasic(s: string): (r: Option<(string, string)>)
    ensures r.Some? ==> |r.value.1| < |s|
  {
    if s == "" || Control(s[0]) then None
    else if s[0] == '"' then Some(("", s[1..]))
    else if s[0] == '\\' then
      if |s| < 2 then None
      else
        var c :- Unescape(s[1]);
        var (text, rest) :- ScanBasic(s[2..]);
        Some(([c] + text, rest))
    else
      var (text, rest) :- ScanBasic(s[1..]);
      Some(([s[0]] + text, rest))
  }

  function Unescape(c: char): Option<char> {
    match c
    case 'b' => Some('\U{8}')
    case 't' => Some('\t')
    case 'n' => Some('\n')
    case 'f' => Some('\U{C}')
    case 'r' => Some('\r')
    case '"' => Some('"')
    case '\\' => Some('\\')
    case _ => None
  }

  function DigitsValue(s: string): nat
    requires forall i :: 0 <= i < |s| ==> DigitChar(s[i])
  {
    if s == "" then 0
    else
      assert DigitChar(s[|s| - 1]);
      DigitsValue(s[..|s| - 1]) * 10 + (s[|s| - 1] as int - '0' as int)
  }

  function ParseInt(s: string): (r: Option<(Value, string)>)
    ensures r.Some? ==> |r.value.1| < |s|
  {
    var (digits, rest) := Span(s, DigitChar);
    SpanHolds(s, DigitChar);
    if digits == "" || (digits[0] == '0' && |digits| > 1) then None
    else Some((Int(DigitsValue(digits)), rest))
  }

  lemma {:induction false} SpanHolds(s: string, p: char -> bool)
    ensures forall i :: 0 <= i < |Span(s, p).0| ==> p(Span(s, p).0[i])
  {
    if s != "" && p(s[0]) {
      SpanHolds(s[1..], p);
    }
  }

  function ParseValue(s: string): (r: Option<(Value, string)>)
    ensures r.Some? ==> |r.value.1| < |s|
  {
    if StartsWith(s, "\"\"\"") then None
    else if StartsWith(s, "\"") then
      var (text, rest) :- ScanBasic(s[1..]);
      Some((Str(text), rest))
    else if StartsWith(s, "true") then Some((Bool(true), s[4..]))
    else if StartsWith(s, "false") then Some((Bool(false), s[5..]))
    else ParseInt(s)
  }

  function ParsePair(s: string): (r: Option<(Item, string)>)
    ensures r.Some? ==> |r.value.1| < |s|
  {
    var (key, s1) := Span(s, BareChar);
    var s2 := SkipSpace(s1);
    if key == "" || s2 == "" || s2[0] != '=' then None
    else
      var (value, s3) :- ParseValue(SkipSpace(s2[1..]));
      Some((Pair(key, value), s3))
  }

  function ParseHeader(s: string): (r: Option<(Item, string)>)
    ensures r.Some? ==> |r.value.1| < |s|
  {
    if !StartsWith(s, "[[") then None
    else
      var (name, s1) := Span(SkipSpace(s[2..]), BareChar);
      var s2 := SkipSpace(s1);
      if name == "" || !StartsWith(s2, "]]") then None
      else
        assert |s1| <= |SkipSpace(s[2..])|;
        Some((Header(name), s2[2..]))
  }

  /** One item, which starts at the first character of s. */
  function ParseItem(s: string): (r: Option<(Item, string)>)
    requires s != ""
    ensures r.Some? ==> |r.value.1| < |s|
  {
    if s[0] == '#' then
      var (text, rest) := Span(s[1..], c => c != '\n');
      if Plain(text) then Some((Comment(text), rest)) else None
    else if s[0] == '[' then ParseHeader(s)
    else ParsePair(s)
  }

  /** Nothing but space may follow an item on its line. (Trailing comments are
      not part of the subset.) */
  function EndOfLine(s: string): (r: Option<string>)
    ensures r.Some? ==> |r.value| <= |s|
  {
    var t := SkipSpace(s);
    if t == "" then Some("") else if t[0] == '\n' then Some(t[1..]) else None
  }

  function ParseItems(s: string): Option<seq<Item>>
    decreases |s|
  {
    var t := SkipBlank(s);
    if t == "" then Some([])
    else
      var (item, u) :- ParseItem(t);
      var v :- EndOfLine(u);
      var items :- ParseItems(v);
      Some([item] + items)
  }

  // --- Documents -------------------------------------------------------------------------

  /** Adds the items in order. A pair belongs to the table opened last; defining
      a key twice is an error. */
  function Build(items: seq<Item>, doc: Document): Option<Document> {
    if items == [] then Some(doc)
    else
      match items[0]
      case Comment(text) => Build(items[1..], doc.(remainder := doc.remainder + [text]))
      case Header(name) =>
        if name in doc.top then None
        else Build(items[1..], doc.(entries := doc.entries + [Entry(name, map[])]))
      case Pair(key, value) =>
        if doc.entries == [] then
          if key in doc.top then None
          else Build(items[1..], doc.(top := doc.top[key := value]))
        else
          var last := doc.entries[|doc.entries| - 1];
          if key in last.table then None
          else
            var entry := last.(table := last.table[key := value]);
            Build(items[1..], doc.(entries := doc.entries[|doc.entries| - 1 := entry]))
  }

  function Parse(s: string): Option<Document> {
    var items :- ParseItems(s);
    Build(items, Document(map[], [], []))
  }

  // --- Escaping ----------------------------------------------------------------------------

  /** `str::replace` with a one-character pattern. */
  function ReplaceChar(s: string, c: char, replacement: string): string {
    if s == "" then ""
    else (if s[0] == c then replacement else [s[0]]) + ReplaceChar(s[1..], c, replacement)
  }

  /** Backslashes first, then double quotes. */
  function Escape(s: string): string {
    ReplaceChar(ReplaceChar(s, '\\', "\\\\"), '"', "\\\"")
  }

  function EscapeChar(c: char): string {
    if c == '\\' then "\\\\" else if c == '"' then "\\\"" else [c]
  }

  function EscapeOnce(s: string): string {
    if s == "" then "" else EscapeChar(s[0]) + EscapeOnce(s[1..])
  }

  lemma {:induction false} ReplaceAppend(s: string, t: string, c: char, replacement: string)
    ensures ReplaceChar(s + t, c, replacement) == ReplaceChar(s, c, replacement) + ReplaceChar(t, c, replacement)
  {
    if s == "" {
      assert s + t == t;
    } else {
      assert (s + t)[1..] == s[1..] + t;
      ReplaceAppend(s[1..], t, c, replacement);
    }
  }

  /** The two replacements in sequence escape each character exactly once: the
      second never touches what the first one wrote. */
  lemma {:induction false} EscapeIsOnePass(s: string)
    ensures Escape(s) == EscapeOnce(s)
  {
    if s != "" {
      EscapeIsOnePass(s[1..]);
      var head := if s[0] == '\\' then "\\\\" else [s[0]];
      ReplaceAppend(head, ReplaceChar(s[1..], '\\', "\\\\"), '"', "\\\"");
      EscapeHead(s[0]);
    }
  }

  lemma EscapeHead(c: char)
    ensures ReplaceChar(if c == '\\' then "\\\\" else [c], '"', "\\\"") == EscapeChar(c)
  {
    if c == '\\' {
      assert "\\\\"[1..] == "\\";
    }
  }

  /** Scanning inverts escaping on plain text, and fails on any other. */
  lemma {:induction false} ScanEscaped(s: string, rest: string)
    ensures ScanBasic(EscapeOnce(s) + "\"" + rest) == if Plain(s) then Some((s, rest)) else None
  {
    var t := EscapeOnce(s) + "\"" + rest;
    if s == "" {
      assert t[0] == '"' && t[1..] == rest;
    } else {
      var tail := EscapeOnce(s[1..]) + "\"" + rest;
      ScanEscaped(s[1..], rest);
      assert t == EscapeChar(s[0]) + tail;
      assert Plain(s) <==> !Control(s[0]) && Plain(s[1..]) by {
        assert forall i :: 0 < i < |s| ==> s[i] == s[1..][i - 1];
      }
      if s[0] == '\\' || s[0] == '"' {
        assert t[2..] == tail;
        assert [s[0]] + s[1..] == s;
      } else {
        assert t[1..] == tail;
        assert [s[0]] + s[1..] == s;
      }
    }
  }

  // --- Parsing printed lines ---------------------------------------------------------------

  function Prepend(item: Item, items: Option<seq<Item>>): Option<seq<Item>> {
    match items
    case None => None
    case Some(others) => Some([item] + others)
  }

  lemma {:induction false} SpanAppend(a: string, b: string, p: char -> bool)
    requires forall i :: 0 <= i < |a| ==> p(a[i])
    requires b == "" || !p(b[0])
    ensures Span(a + b, p) == (a, b)
  {
    if a == "" {
      assert a + b == b;
    } else {
      assert (a + b)[0] == a[0] && p(a[0]);
      assert (a + b)[1..] == a[1..] + b;
      SpanAppend(a[1..], b, p);
      assert [a[0]] + a[1..] == a;
    }
  }

  /** A line `item` followed by a newline contributes exactly that item. */
  lemma {:induction false} ItemLine(line: string, item: Item, rest: string)
    requires line != "" && line[0] !in " \t\n"
    requires ParseItem(line + "\n" + rest) == Some((item, "\n" + rest))
    ensures ParseItems(line + "\n" + rest) == Prepend(item, ParseItems(rest))
  {
    assert ("\n" + rest)[1..] == rest;
  }

  lemma {:induction false} BlankLine(rest: string)
    ensures ParseItems("\n" + rest) == ParseItems(rest)
  {
    var s := "\n" + rest;
    assert s[1..] == rest;
    assert SkipBlank(s) == SkipBlank(rest);
  }

  lemma {:induction false} CommentLine(text: string, rest: string)
    requires Plain(text)
    ensures ParseItems("#" + text + "\n" + rest) == Prepend(Comment(text), ParseItems(rest))
  {
    var s := "#" + text + "\n" + rest;
    assert s[1..] == text + ("\n" + rest);
    var p := (c: char) => c != '\n';
    SpanAppend(text, "\n" + rest, p);
    ItemLine("#" + text, Comment(text), rest);
  }

  lemma {:induction false} HeaderLine(name: string, rest: string)
    requires BareKey(name)
    ensures ParseItems("[[" + name + "]]" + "\n" + rest) == Prepend(Header(name), ParseItems(rest))
  {
    var s := "[[" + name + "]]" + "\n" + rest;
    var t := name + ("]]" + "\n" + rest);
    assert s[2..] == t;
    assert BareChar(t[0]);
    SpanAppend(name, "]]" + "\n" + rest, BareChar);
    assert ("]]" + "\n" + rest)[2..] == "\n" + rest;
    ItemLine("[[" + name + "]]", Header(name), rest);
  }

  /** The shape every printed pair has, whatever its value. */
  lemma PairLine(key: string, printed: string, rest: string)
    requires BareKey(key) && printed != "" && printed[0] !in " \t"
    ensures ParseItem(key + " = " + printed + rest) ==
      match ParseValue(printed + rest)
      case None => None
      case Some((v, u)) => Some((Pair(key, v), u))
  {
    var s := key + " = " + printed + rest;
    var t := " = " + (printed + rest);
    assert s == key + t;
    assert BareChar(s[0]);
    SpanAppend(key, t, BareChar);
    var value := printed + rest;
    assert t[1..] == "= " + value;
    assert SkipSpace(t) == t[1..];
    assert t[1..][1..] == " " + value;
    assert (" " + value)[1..] == value;
    assert SkipSpace(" " + value) == value;
  }

  lemma {:induction false} DecimalValue(n: nat)
    ensures DigitsValue(Decimal(n)) == n
    ensures |Decimal(n)| > 1 ==> Decimal(n)[0] != '0'
  {
    if n >= 10 {
      DecimalValue(n / 10);
      if n / 10 < 10 {
        assert Decimal(n / 10) == [Digit(n / 10)];
      }
    }
  }

  lemma {:induction false} ParseDecimal(n: nat, rest: string)
    ensures ParseValue(Decimal(n) + ("\n" + rest)) == Some((Int(n), "\n" + rest))
  {
    var d := Decimal(n);
    DecimalValue(n);
    assert DigitChar(d[0]);
    SpanAppend(d, "\n" + rest, DigitChar);
    var t := d + ("\n" + rest);
    assert t[0] == d[0];
    assert !StartsWith(t, "\"") && !StartsWith(t, "\"\"\"") && !StartsWith(t, "true") && !StartsWith(t, "false") by {
      assert "\""[0] == "\"\"\""[0] == '"' && "true"[0] == 't' && "false"[0] == 'f';
    }
  }

  lemma {:induction false} IntLine(key: string, n: nat, rest: string)
    requires BareKey(key)
    ensures ParseItems(key + " = " + Decimal(n) + "\n" + rest) == Prepend(Pair(key, Int(n)), ParseItems(rest))
  {
    var d := Decimal(n);
    ParseDecimal(n, rest);
    assert DigitChar(d[0]);
    PairLine(key, d, "\n" + rest);
    var line := key + " = " + d;
    assert line + "\n" + rest == key + " = " + d + ("\n" + rest);
    assert BareChar(line[0]);
    ItemLine(line, Pair(key, Int(n)), rest);
  }

  function Quoted(s: string): string {
    "\"" + Escape(s) + "\""
  }

  lemma ScanQuoted(s: string, rest: string)
    ensures ParseValue(Quoted(s) + "\n" + rest) == if Plain(s) then Some((Str(s), "\n" + rest)) else None
  {
    EscapeIsOnePass(s);
    ScanEscaped(s, "\n" + rest);
    var t := Quoted(s) + "\n" + rest;
    assert t[1..] == EscapeOnce(s) + "\"" + ("\n" + rest);
    if s == "" {
      assert t[2] == '\n';
    } else {
      assert t[1] == EscapeChar(s[0])[0];
    }
  }

  lemma {:induction false} StrLine(key: string, s: string, rest: string)
    requires BareKey(key)
    ensures ParseItems(key + " = " + Quoted(s) + "\n" + rest) ==
            if Plain(s) then Prepend(Pair(key, Str(s)), ParseItems(rest)) else None
  {
    ScanQuoted(s, rest);
    var line := key + " = " + Quoted(s);
    assert Quoted(s) + "\n" + rest == Quoted(s) + ("\n" + rest);
    PairLine(key, Quoted(s), "\n" + rest);
    assert line + "\n" + rest == key + " = " + Quoted(s) + ("\n" + rest);
    assert BareChar(line[0]);
    if Plain(s) {
      ItemLine(line, Pair(key, Str(s)), rest);
    } else {
      assert SkipBlank(line + "\n" + rest) == line + "\n" + rest;
    }
  }

  // --- The rest of the subset -----------------------------------------------------------------

  /** What stands for a character behind a backslash (TOML v1.0.0, section "String"). */
  lemma EscapesMean(c: char)
    ensures Unescape(c) ==
      if c == '"' then Some('"') else if c == '\\' then Some('\\') else if c == 'b' then Some(8 as char)
      else if c == 't' then Some(9 as char) else if c == 'n' then Some(10 as char)
      else if c == 'f' then Some(12 as char) else if c == 'r' then Some(13 as char) else None
  {
  }

  /** Boolean values are read as they are written. */
  lemma {:induction false} BoolLine(key: string, b: bool, rest: string)
    requires BareKey(key)
    ensures ParseItems(key + " = " + (if b then "true" else "false") + "\n" + rest)
            == Prepend(Pair(key, Bool(b)), ParseItems(rest))
  {
    var printed := if b then "true" else "false";
    var s := printed + "\n" + rest;
    assert s[..|printed|] == printed && s[|printed|..] == "\n" + rest;
    assert s[0] == printed[0];
    assert ParseValue(s) == Some((Bool(b), "\n" + rest));
    PairLine(key, printed, "\n" + rest);
    var line := key + " = " + printed;
    assert line + "\n" + rest == key + " = " + printed + ("\n" + rest);
    assert BareChar(line[0]);
    ItemLine(line, Pair(key, Bool(b)), rest);
  }

  /** The characters that may not stand raw in a comment or a basic string: U+0000 to
      U+0008, U+000A to U+001F and U+007F (TOML v1.0.0, sections "Comment" and
      "String"). */
  lemma ControlCharacters(c: char)
    ensures Control(c) <==> c as int < 9 || 9 < c as int < 32 || c as int == 127
  {
  }

  lemma BareCharacters(c: char)
    ensures BareChar(c) <==>
      || 97 <= c as int <= 122 || 65 <= c as int <= 90 || 48 <= c as int <= 57 || c == '-' || c == '_'
  {
  }

  /** A key or table given twice is refused (TOML v1.0.0, section "Keys"). */
  lemma {:induction false} RepeatedKeys(key: string, v: Value, rest: seq<Item>, doc: Document)
    ensures doc.entries == [] && key in doc.top ==> Build([Pair(key, v)] + rest, doc) == None
    ensures doc.entries != [] && key in doc.entries[|doc.entries| - 1].table ==>
      Build([Pair(key, v)] + rest, doc) == None
    ensures key in doc.top ==> Build([Header(key)] + rest, doc) == None
  {
  }

  /** Numbers have no leading zeros, nothing follows a value on its line, and strings of
      several lines are not read. */
  lemma {:induction false} RefusedValues(s: string)
    ensures |s| > 1 && s[0] == '0' && DigitChar(s[1]) ==> ParseInt(s) == None
    ensures s != "" && s[0] !in " \t\n" ==> EndOfLine(s) == None
    ensures ParseValue("\"\"\"" + s) == None
  {
    if |s| > 1 && s[0] == '0' && DigitChar(s[1]) {
      assert Span(s, DigitChar).0 == [s[0]] + Span(s[1..], DigitChar).0;
      assert Span(s[1..], DigitChar).0 == [s[1]] + Span(s[2..], DigitChar).0 by { assert s[1..][1..] == s[2..]; }
    }
    assert ("\"\"\"" + s)[..3] == "\"\"\"";
  }

  /** Skipping takes away the spaces and tabs in front, or line ends as well, and stops at
      the first other character. */
  lemma {:induction false} SkippedInFront(s: string)
    ensures var k := |s| - |SkipSpace(s)|;
      && 0 <= k && SkipSpace(s) == s[k..] && (forall i :: 0 <= i < k ==> s[i] == ' ' || s[i] == '\t')
      && (k < |s| ==> s[k] != ' ' && s[k] != '\t')
    ensures var k := |s| - |SkipBlank(s)|;
      && 0 <= k && SkipBlank(s) == s[k..] && (forall i :: 0 <= i < k ==> s[i] == ' ' || s[i] == '\t' || s[i] == '\n')
      && (k < |s| ==> s[k] != ' ' && s[k] != '\t' && s[k] != '\n')
  {
    if s != "" && s[0] in " \t\n" {
      SkippedInFront(s[1..]);
    }
  }
}
