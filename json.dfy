/** JSON values, their text as Python's `json.dumps` writes it with default
    arguments (`ensure_ascii`, separators ", " and ": ", keys in insertion
    order), and a reference decoder that reads that text back. */
module Json {
  import opened Wrappers
  import opened Decimal

  datatype Json =
    | JNull
    | JBool(b: bool)
    | JInt(i: int)
    | JStr(s: string)
    | JArr(items: seq<Json>)
    | JObj(members: seq<Member>)

  /** One key/value pair of an object; objects keep their insertion order. */
  datatype Member = Member(key: string, value: Json)

  /** The value stored under `key` in an object (the last one, as Python's
      decoder keeps when a key repeats). */
  function Lookup(ms: seq<Member>, key: string): (r: Option<Json>)
    ensures r.Some? <==> exists i :: 0 <= i < |ms| && ms[i].key == key
  {
    if |ms| == 0 then None
    else if ms[|ms| - 1].key == key then Some(ms[|ms| - 1].value)
    else Lookup(ms[..|ms| - 1], key)
  }

  // ---------------------------------------------------------------- encoding

  function HexChar(d: nat): (c: char)
    requires d < 16
  {
    if d < 10 then DigitChar(d) else ((d - 10 + 'a' as int) as char)
  }

  /** Four lower-case hexadecimal digits, as `'{0:04x}'.format(n)`. */
  function Hex4(n: nat): (s: string)
    requires n < 0x10000
    ensures |s| == 4
  {
    [HexChar(n / 4096), HexChar(n / 256 % 16), HexChar(n / 16 % 16), HexChar(n % 16)]
  }

  /** Printable ASCII other than the quote and the backslash is written as is. */
  predicate Plain(c: char) { ' ' <= c <= '~' && c != '"' && c != '\\' }

  /** The escape of one character in ensure_ascii mode: the short escapes for
      quote, backslash, backspace, form feed, newline, carriage return and tab;
      `\uXXXX` for every other character outside ' '..'~'; a surrogate pair
      for characters above U+FFFF. */
  function EscapeChar(c: char): (s: string)
    ensures |s| >= 1 && forall i :: 0 <= i < |s| ==> s[i] != '"' || (i > 0 && s[i - 1] == '\\')
  {
    if Plain(c) then [c]
    else if c == '"' then "\\\""
    else if c == '\\' then "\\\\"
    else if c as int == 8 then "\\b"
    else if c as int == 12 then "\\f"
    else if c == '\n' then "\\n"
    else if c == '\r' then "\\r"
    else if c == '\t' then "\\t"
    else if (c as int) < 0x10000 then "\\u" + Hex4(c as int)
    else
      var v := c as int - 0x10000;
      "\\u" + Hex4(0xD800 + v / 1024) + "\\u" + Hex4(0xDC00 + v % 1024)
  }

  function Escape(s: string): string
  {
    if |s| == 0 then [] else EscapeChar(s[0]) + Escape(s[1..])
  }

  function Quote(s: string): string { "\"" + Escape(s) + "\"" }

  /** `json.dumps(v)` with default arguments. */
  function Dumps(v: Json): string
    decreases v, 1
  {
    match v
    case JNull => "null"
    case JBool(b) => if b then "true" else "false"
    case JInt(i) => IntToString(i)
    case JStr(s) => Quote(s)
    case JArr(items) => "[" + DumpsItems(items) + "]"
    case JObj(ms) => "{" + DumpsMembers(ms) + "}"
  }

  /** The elements of an array, separated by ", ". */
  function DumpsItems(items: seq<Json>): string
    decreases items, 0
  {
    if |items| == 0 then ""
    else if |items| == 1 then Dumps(items[0])
    else Dumps(items[0]) + ", " + DumpsItems(items[1..])
  }

  /** The members of an object, each `"key": value`, separated by ", ". */
  function DumpsMembers(ms: seq<Member>): string
    decreases ms, 0
  {
    if |ms| == 0 then ""
    else if |ms| == 1 then MemberText(ms[0])
    else MemberText(ms[0]) + ", " + DumpsMembers(ms[1..])
  }

  /** One member as `"key": value`. */
  function MemberText(m: Member): (r: string)
    ensures |r| > 0 && r[0] == '"'
    decreases m, 0
  {
    Quote(m.key) + ": " + Dumps(m.value)
  }

  // ---------------------------------------------------------------- decoding

  predicate IsWs(c: char) { c == ' ' || c == '\t' || c == '\n' || c == '\r' }

  function SkipWs(s: string): (r: string)
    ensures |r| <= |s|
    ensures |r| > 0 ==> !IsWs(r[0])
  {
    if |s| > 0 && IsWs(s[0]) then SkipWs(s[1..]) else s
  }

  function HexValue(c: char): Option<nat>
  {
    if '0' <= c <= '9' then Some(c as int - '0' as int)
    else if 'a' <= c <= 'f' then Some(c as int - 'a' as int + 10)
    else if 'A' <= c <= 'F' then Some(c as int - 'A' as int + 10)
    else None
  }

  /** The number written by the first four characters of `s` in hexadecimal. */
  function ParseHex4(s: string): (r: Option<nat>)
    requires |s| >= 4
    ensures r.Some? ==> r.value < 0x10000
  {
    match (HexValue(s[0]), HexValue(s[1]), HexValue(s[2]), HexValue(s[3]))
    case (Some(a), Some(b), Some(c), Some(d)) =>
      if a < 16 && b < 16 && c < 16 && d < 16 then Some(4096 * a + 256 * b + 16 * c + d) else None
    case _ => None
  }

  /** The character a one-letter escape stands for. */
  function ShortEscape(e: char): Option<char>
  {
    if e == '"' then Some('"')
    else if e == '\\' then Some('\\')
    else if e == '/' then Some('/')
    else if e == 'b' then Some(8 as char)
    else if e == 'f' then Some(12 as char)
    else if e == 'n' then Some('\n')
    else if e == 'r' then Some('\r')
    else if e == 't' then Some('\t')
    else None
  }

  /** The character a `\uXXXX` escape stands for, read after the `u`; a high
      surrogate must be followed by a `\uXXXX` low surrogate. */
  function UnescapeHex(s: string): (r: Option<(char, string)>)
    ensures r.Some? ==> |r.value.1| < |s|
  {
    if |s| < 4 then None
    else
      match ParseHex4(s)
      case None => None
      case Some(n) =>
        if n < 0xD800 || 0xE000 <= n then Some((n as char, s[4..]))
        else if n < 0xDC00 && |s| >= 10 && s[4] == '\\' && s[5] == 'u' then
          match ParseHex4(s[6..])
          case Some(m) =>
            if 0xDC00 <= m < 0xE000
            then Some(((0x10000 + (n - 0xD800) * 1024 + (m - 0xDC00)) as char, s[10..]))
            else None
          case None => None
        else None
  }

  /** The character an escape stands for, read after its backslash. */
  function Unescape(s: string): (r: Option<(char, string)>)
    ensures r.Some? ==> |r.value.1| < |s|
  {
    if |s| == 0 then None
    else if s[0] == 'u' then UnescapeHex(s[1..])
    else
      match ShortEscape(s[0])
      case None => None
      case Some(c) => Some((c, s[1..]))
  }

  /** A string body, read after its opening quote up to the closing quote. */
  function ParseStr(s: string): (r: Option<(string, string)>)
    ensures r.Some? ==> |r.value.1| < |s|
    decreases |s|
  {
    if |s| == 0 then None
    else if s[0] == '"' then Some(([], s[1..]))
    else if s[0] == '\\' then
      match Unescape(s[1..])
      case None => None
      case Some((c, rest)) => Prepend(c, ParseStr(rest))
    else if s[0] < ' ' then None
    else Prepend(s[0], ParseStr(s[1..]))
  }

  function Prepend(c: char, r: Option<(string, string)>): Option<(string, string)>
  {
    match r
    case None => None
    case Some((t, rest)) => Some(([c] + t, rest))
  }

  /** The length of the run of digits at the start of `s`. */
  function DigitRun(s: string): (n: nat)
    ensures n <= |s| && AllDigits(s[..n])
  {
    if |s| > 0 && IsDigit(s[0]) then
      var k := DigitRun(s[1..]);
      assert s[..k + 1] == [s[0]] + s[1..][..k];
      k + 1
    else 0
  }

  /** An integer: an optional minus sign, then digits without a leading zero. */
  function ParseInt(s: string): (r: Option<(Json, string)>)
    ensures r.Some? ==> |r.value.1| < |s|
  {
    var neg := |s| > 0 && s[0] == '-';
    var body := if neg then s[1..] else s;
    var n := DigitRun(body);
    if n == 0 || (n > 1 && body[0] == '0') then None
    else
      var m: int := ParseDigits(body[..n]);
      Some((JInt(if neg then -m else m), body[n..]))
  }

  /** A fixed word (`null`, `true`, `false`) standing for `v`. */
  function ParseWord(t: string, word: string, v: Json): (r: Option<(Json, string)>)
    requires |word| > 0
    ensures r.Some? ==> |r.value.1| < |t|
  {
    if |t| >= |word| && t[..|word|] == word then Some((v, t[|word|..])) else None
  }

  /** One value, after any leading white space. */
  function ParseValue(s: string): (r: Option<(Json, string)>)
    ensures r.Some? ==> |r.value.1| < |s|
    decreases |s|, 3
  {
    var t := SkipWs(s);
    if |t| == 0 then None else ParseToken(t)
  }

  /** One value, starting at its first character. */
  function ParseToken(t: string): (r: Option<(Json, string)>)
    requires |t| > 0
    ensures r.Some? ==> |r.value.1| < |t|
    decreases |t|, 2
  {
    if t[0] == 'n' then ParseWord(t, "null", JNull)
    else if t[0] == 't' then ParseWord(t, "true", JBool(true))
    else if t[0] == 'f' then ParseWord(t, "false", JBool(false))
    else if t[0] == '"' then
      match ParseStr(t[1..])
      case None => None
      case Some((str, rest)) => Some((JStr(str), rest))
    else if t[0] == '[' then ParseArray(t[1..])
    else if t[0] == '{' then ParseObject(t[1..])
    else ParseInt(t)
  }

  /** An array, read after its opening bracket. */
  function ParseArray(s: string): (r: Option<(Json, string)>)
    ensures r.Some? ==> |r.value.1| < |s|
    decreases |s|, 5
  {
    var u := SkipWs(s);
    if |u| > 0 && u[0] == ']' then Some((JArr([]), u[1..]))
    else
      match ParseItems(s)
      case None => None
      case Some((items, rest)) => Some((JArr(items), rest))
  }

  /** An object, read after its opening brace. */
  function ParseObject(s: string): (r: Option<(Json, string)>)
    ensures r.Some? ==> |r.value.1| < |s|
    decreases |s|, 5
  {
    var u := SkipWs(s);
    if |u| > 0 && u[0] == '}' then Some((JObj([]), u[1..]))
    else
      match ParseMembers(s)
      case None => None
      case Some((ms, rest)) => Some((JObj(ms), rest))
  }

  /** One or more array elements and the closing bracket. */
  function ParseItems(s: string): (r: Option<(seq<Json>, string)>)
    ensures r.Some? ==> |r.value.1| < |s|
    decreases |s|, 4
  {
    match ParseValue(s)
    case None => None
    case Some((v, rest)) =>
      var u := SkipWs(rest);
      if |u| == 0 then None
      else if u[0] == ']' then Some(([v], u[1..]))
      else if u[0] == ',' then
        match ParseItems(u[1..])
        case None => None
        case Some((vs, rest2)) => Some(([v] + vs, rest2))
      else None
  }

  /** One or more object members and the closing brace. */
  function ParseMembers(s: string): (r: Option<(seq<Member>, string)>)
    ensures r.Some? ==> |r.value.1| < |s|
    decreases |s|, 4
  {
    var t := SkipWs(s);
    if |t| == 0 || t[0] != '"' then None
    else
      match ParseStr(t[1..])
      case None => None
      case Some((key, afterKey)) =>
        var c := SkipWs(afterKey);
        if |c| == 0 || c[0] != ':' then None
        else
          match ParseValue(c[1..])
          case None => None
          case Some((v, rest)) =>
            var u := SkipWs(rest);
            if |u| == 0 then None
            else if u[0] == '}' then Some(([Member(key, v)], u[1..]))
            else if u[0] == ',' then
              match ParseMembers(u[1..])
              case None => None
              case Some((ms, rest2)) => Some(([Member(key, v)] + ms, rest2))
            else None
  }

  /** A whole JSON text: one value with nothing but white space after it. */
  function Parse(s: string): Option<Json>
  {
    match ParseValue(s)
    case None => None
    case Some((v, rest)) => if |SkipWs(rest)| == 0 then Some(v) else None
  }

  // ---------------------------------------------------------------- round trip

  lemma HexCharValue(d: nat)
    requires d < 16
    ensures HexValue(HexChar(d)) == Some(d)
  {
  }

  /** The four digits of `Hex4` put back together give the number. */
  lemma Hex4Digits(n: nat)
    requires n < 0x10000
    ensures n / 4096 < 16
    ensures 4096 * (n / 4096) + 256 * (n / 256 % 16) + 16 * (n / 16 % 16) + n % 16 == n
  {
    var c := n / 16 % 16;
    assert n / 16 == 16 * (n / 256) + c;
    assert n / 256 == 16 * (n / 4096) + n / 256 % 16;
  }

  lemma Hex4RoundTrip(n: nat, tail: string)
    requires n < 0x10000
    ensures ParseHex4(Hex4(n) + tail) == Some(n)
  {
    var s := Hex4(n) + tail;
    Hex4Digits(n);
    HexCharValue(n / 4096);
    HexCharValue(n / 256 % 16);
    HexCharValue(n / 16 % 16);
    HexCharValue(n % 16);
    assert s[..4] == Hex4(n);
  }

  lemma PlainRoundTrip(c: char, tail: string)
    requires Plain(c)
    ensures ParseStr([c] + tail) == Prepend(c, ParseStr(tail))
  {
    assert ([c] + tail)[1..] == tail;
  }

  lemma ShortRoundTrip(e: char, c: char, tail: string)
    requires ShortEscape(e) == Some(c) && e != 'u'
    ensures ParseStr(['\\', e] + tail) == Prepend(c, ParseStr(tail))
  {
    var s := ['\\', e] + tail;
    assert s[1..] == [e] + tail;
    assert s[1..][1..] == tail;
  }

  lemma HexRoundTrip(c: char, tail: string)
    requires (c as int) < 0x10000
    ensures ParseStr("\\u" + Hex4(c as int) + tail) == Prepend(c, ParseStr(tail))
  {
    var h := Hex4(c as int);
    var s := "\\u" + h + tail;
    assert s[1..] == "u" + h + tail;
    assert s[1..][1..] == h + tail;
    Hex4RoundTrip(c as int, tail);
    assert (h + tail)[4..] == tail;
  }

  /** The two halves of a surrogate pair and how they recombine. */
  lemma SurrogateHalves(x: int)
    requires 0x10000 <= x < 0x110000
    ensures var v := x - 0x10000;
            var hi, lo := 0xD800 + v / 1024, 0xDC00 + v % 1024;
            0xD800 <= hi < 0xDC00 && 0xDC00 <= lo < 0xE000
            && 0x10000 + (hi - 0xD800) * 1024 + (lo - 0xDC00) == x
  {
  }

  lemma UnescapePair(hi: nat, lo: nat, tail: string)
    requires 0xD800 <= hi < 0xDC00 && 0xDC00 <= lo < 0xE000
    requires 0x10000 + (hi - 0xD800) * 1024 + (lo - 0xDC00) < 0x110000
    ensures UnescapeHex(Hex4(hi) + "\\u" + Hex4(lo) + tail)
              == Some(((0x10000 + (hi - 0xD800) * 1024 + (lo - 0xDC00)) as char, tail))
  {
    var h2 := Hex4(lo);
    var w := Hex4(hi) + ("\\u" + h2 + tail);
    assert Hex4(hi) + "\\u" + h2 + tail == w;
    Hex4RoundTrip(hi, "\\u" + h2 + tail);
    assert w[6..] == h2 + tail;
    Hex4RoundTrip(lo, tail);
    assert w[4] == '\\' && w[5] == 'u';
    assert w[10..] == tail;
  }

  lemma PairRoundTrip(c: char, tail: string)
    requires (c as int) >= 0x10000
    ensures var v := c as int - 0x10000;
            ParseStr("\\u" + Hex4(0xD800 + v / 1024) + "\\u" + Hex4(0xDC00 + v % 1024) + tail)
              == Prepend(c, ParseStr(tail))
  {
    var v := c as int - 0x10000;
    var hi, lo := 0xD800 + v / 1024, 0xDC00 + v % 1024;
    SurrogateHalves(c as int);
    var w := Hex4(hi) + "\\u" + Hex4(lo) + tail;
    var s := "\\u" + Hex4(hi) + "\\u" + Hex4(lo) + tail;
    assert s == "\\u" + w;
    assert s[1..] == "u" + w;
    assert s[1..][1..] == w;
    UnescapePair(hi, lo, tail);
  }

  /** Decoding an escaped character gives the character back, wherever it stands. */
  lemma EscapeCharRoundTrip(c: char, tail: string)
    ensures ParseStr(EscapeChar(c) + tail) == Prepend(c, ParseStr(tail))
  {
    if Plain(c) {
      PlainRoundTrip(c, tail);
    } else if c == '"' {
      ShortRoundTrip('"', c, tail);
    } else if c == '\\' {
      ShortRoundTrip('\\', c, tail);
    } else if c as int == 8 {
      ShortRoundTrip('b', c, tail);
    } else if c as int == 12 {
      ShortRoundTrip('f', c, tail);
    } else if c == '\n' {
      ShortRoundTrip('n', c, tail);
    } else if c == '\r' {
      ShortRoundTrip('r', c, tail);
    } else if c == '\t' {
      ShortRoundTrip('t', c, tail);
    } else if (c as int) < 0x10000 {
      HexRoundTrip(c, tail);
    } else {
      PairRoundTrip(c, tail);
    }
  }

  lemma {:induction false} EscapeRoundTrip(x: string, rest: string)
    ensures ParseStr(Escape(x) + "\"" + rest) == Some((x, rest))
    decreases |x|
  {
    if |x| == 0 {
      assert Escape(x) + "\"" + rest == "\"" + rest;
    } else {
      var tail := Escape(x[1..]) + "\"" + rest;
      assert Escape(x) + "\"" + rest == EscapeChar(x[0]) + tail;
      EscapeCharRoundTrip(x[0], tail);
      EscapeRoundTrip(x[1..], rest);
      assert [x[0]] + x[1..] == x;
    }
  }

  /** What may follow a value in the output of Dumps: nothing, a comma, or a
      closing bracket or brace. */
  predicate Delimited(rest: string)
  {
    |rest| == 0 || rest[0] == ',' || rest[0] == ']' || rest[0] == '}'
  }

  lemma {:induction false} DigitRunOf(d: string, rest: string)
    requires AllDigits(d) && Delimited(rest)
    ensures DigitRun(d + rest) == |d|
    decreases |d|
  {
    if |d| > 0 {
      assert (d + rest)[1..] == d[1..] + rest;
      DigitRunOf(d[1..], rest);
    }
  }

  lemma NatRoundTrip(m: nat, rest: string)
    requires Delimited(rest)
    ensures var body := NatToString(m) + rest;
            var n := DigitRun(body);
            n == |NatToString(m)| && body[..n] == NatToString(m) && body[n..] == rest
            && ParseDigits(body[..n]) == m && (n > 1 ==> body[0] != '0')
  {
    var d := NatToString(m);
    DigitRunOf(d, rest);
    assert (d + rest)[..|d|] == d && (d + rest)[|d|..] == rest;
    ParseNatToString(m);
  }

  lemma IntRoundTrip(i: int, rest: string)
    requires Delimited(rest)
    ensures ParseInt(IntToString(i) + rest) == Some((JInt(i), rest))
  {
    if i < 0 {
      NegRoundTrip(-i, rest);
    } else {
      NatParsesAsInt(i, rest);
    }
  }

  lemma NatParsesAsInt(m: nat, rest: string)
    requires Delimited(rest)
    ensures ParseInt(NatToString(m) + rest) == Some((JInt(m), rest))
  {
    var body := NatToString(m) + rest;
    NatRoundTrip(m, rest);
    assert body[0] != '-';
  }

  lemma NegRoundTrip(m: nat, rest: string)
    requires Delimited(rest) && m > 0
    ensures ParseInt("-" + NatToString(m) + rest) == Some((JInt(-(m as int)), rest))
  {
    var body := NatToString(m) + rest;
    var s := "-" + NatToString(m) + rest;
    assert s == ['-'] + body;
    assert s[0] == '-' && s[1..] == body;
    NatRoundTrip(m, rest);
    var n := DigitRun(body);
    assert n > 0 && !(n > 1 && body[0] == '0');
  }

  lemma AppendAssoc(a: string, b: string, c: string)
    ensures a + b + c == a + (b + c)
  {
  }

  lemma SkipWsNone(s: string)
    requires |s| == 0 || !IsWs(s[0])
    ensures SkipWs(s) == s
  {
  }

  lemma SkipWsSpace(s: string)
    ensures SkipWs(" " + s) == SkipWs(s)
  {
    assert (" " + s)[1..] == s;
  }

  /** The first character of every value's text. */
  lemma DumpsStart(v: Json)
    ensures |Dumps(v)| > 0
    ensures var c := Dumps(v)[0];
            !IsWs(c) && c != ']' && c != '}' && c != ','
  {
    match v
    case JInt(i) =>
      assert Dumps(v)[0] == '-' || IsDigit(Dumps(v)[0]);
    case _ =>
  }

  lemma ParseValueToken(s: string)
    requires |s| > 0 && !IsWs(s[0])
    ensures ParseValue(s) == ParseToken(s)
  {
    SkipWsNone(s);
  }

  lemma ParseValueSpace(s: string)
    ensures ParseValue(" " + s) == ParseValue(s)
  {
    SkipWsSpace(s);
  }

  lemma ParseItemsSpace(s: string)
    ensures ParseItems(" " + s) == ParseItems(s)
  {
    ParseValueSpace(s);
  }

  lemma ParseMembersSpace(s: string)
    ensures ParseMembers(" " + s) == ParseMembers(s)
  {
    SkipWsSpace(s);
  }

  lemma WordRoundTrip(word: string, v: Json, rest: string)
    requires |word| > 0
    ensures ParseWord(word + rest, word, v) == Some((v, rest))
  {
    assert (word + rest)[..|word|] == word;
    assert (word + rest)[|word|..] == rest;
  }

  lemma StrRoundTrip(x: string, rest: string)
    ensures ParseToken(Quote(x) + rest) == Some((JStr(x), rest))
  {
    var s := Quote(x) + rest;
    assert s[0] == '"';
    assert s[1..] == Escape(x) + "\"" + rest;
    EscapeRoundTrip(x, rest);
  }

  /** Every value is read back from its text, and the reading stops exactly
      where the text ends. */
  lemma {:induction false} ValueRoundTrip(v: Json, rest: string)
    requires Delimited(rest)
    ensures ParseValue(Dumps(v) + rest) == Some((v, rest))
    decreases v, 3
  {
    DumpsStart(v);
    ParseValueToken(Dumps(v) + rest);
    match v
    case JNull => WordRoundTrip("null", JNull, rest);
    case JBool(b) =>
      if b { WordRoundTrip("true", v, rest); } else { WordRoundTrip("false", v, rest); }
    case JInt(i) => IntValueRoundTrip(i, rest);
    case JStr(x) => StrRoundTrip(x, rest);
    case JArr(items) => ArrValueRoundTrip(items, rest);
    case JObj(ms) => ObjValueRoundTrip(ms, rest);
  }

  lemma IntValueRoundTrip(i: int, rest: string)
    requires Delimited(rest)
    ensures ParseToken(IntToString(i) + rest) == Some((JInt(i), rest))
  {
    var s := IntToString(i) + rest;
    IntRoundTrip(i, rest);
    assert s[0] == '-' || IsDigit(s[0]);
  }

  lemma {:induction false} ArrValueRoundTrip(items: seq<Json>, rest: string)
    requires Delimited(rest)
    ensures ParseToken(Dumps(JArr(items)) + rest) == Some((JArr(items), rest))
    decreases items, 3
  {
    var s := Dumps(JArr(items)) + rest;
    assert s == "[" + (DumpsItems(items) + "]" + rest);
    assert s[1..] == DumpsItems(items) + "]" + rest;
    ArrRoundTrip(items, rest);
  }

  lemma {:induction false} ObjValueRoundTrip(ms: seq<Member>, rest: string)
    requires Delimited(rest)
    ensures ParseToken(Dumps(JObj(ms)) + rest) == Some((JObj(ms), rest))
    decreases ms, 3
  {
    var s := Dumps(JObj(ms)) + rest;
    assert s == "{" + (DumpsMembers(ms) + "}" + rest);
    assert s[1..] == DumpsMembers(ms) + "}" + rest;
    ObjRoundTrip(ms, rest);
  }

  lemma {:induction false} ArrRoundTrip(items: seq<Json>, rest: string)
    requires Delimited(rest)
    ensures ParseArray(DumpsItems(items) + "]" + rest) == Some((JArr(items), rest))
    decreases items, 2
  {
    var u := DumpsItems(items) + "]" + rest;
    if |items| == 0 {
      assert u == "]" + rest;
      assert u[1..] == rest;
    } else {
      ItemsRoundTrip(items, rest);
      DumpsStart(items[0]);
      ItemsStart(items, "]" + rest);
      SkipWsNone(u);
    }
  }

  lemma {:induction false} ObjRoundTrip(ms: seq<Member>, rest: string)
    requires Delimited(rest)
    ensures ParseObject(DumpsMembers(ms) + "}" + rest) == Some((JObj(ms), rest))
    decreases ms, 2
  {
    var u := DumpsMembers(ms) + "}" + rest;
    if |ms| == 0 {
      assert u == "}" + rest;
      assert u[1..] == rest;
    } else {
      MembersRoundTrip(ms, rest);
      MembersStart(ms, "}" + rest);
      SkipWsNone(u);
    }
  }

  lemma ItemsStart(items: seq<Json>, tail: string)
    requires |items| > 0
    ensures (DumpsItems(items) + tail)[0] == Dumps(items[0])[0]
  {
    DumpsStart(items[0]);
    var d := Dumps(items[0]);
    var x := if |items| > 1 then ", " + DumpsItems(items[1..]) else "";
    assert DumpsItems(items) == d + x;
    assert (d + x + tail)[0] == d[0];
  }

  lemma MembersStart(ms: seq<Member>, tail: string)
    requires |ms| > 0
    ensures (DumpsMembers(ms) + tail)[0] == '"'
  {
    var t := MemberText(ms[0]);
    if |ms| > 1 {
      DumpsMembersCons(ms, tail);
    } else {
      assert DumpsMembers(ms) == t;
    }
  }

  /** How ParseItems continues once an element has been read. */
  lemma ParseItemsAfter(s: string, v: Json, after: string)
    requires ParseValue(s) == Some((v, after)) && |after| > 0 && (after[0] == ']' || after[0] == ',')
    ensures after[0] == ']' ==> ParseItems(s) == Some(([v], after[1..]))
    ensures after[0] == ',' ==> ParseItems(s) == match ParseItems(after[1..])
                                                 case None => None
                                                 case Some((vs, r)) => Some(([v] + vs, r))
  {
    SkipWsNone(after);
  }

  /** How ParseMembers continues once a key and its value have been read. */
  lemma ParseMembersAfter(s: string, key: string, v: Json, afterKey: string, after: string)
    requires |s| > 0 && s[0] == '"' && ParseStr(s[1..]) == Some((key, afterKey))
    requires |afterKey| > 0 && afterKey[0] == ':' && ParseValue(afterKey[1..]) == Some((v, after))
    requires |after| > 0 && (after[0] == '}' || after[0] == ',')
    ensures after[0] == '}' ==> ParseMembers(s) == Some(([Member(key, v)], after[1..]))
    ensures after[0] == ',' ==> ParseMembers(s) == match ParseMembers(after[1..])
                                                   case None => None
                                                   case Some((ms, r)) => Some(([Member(key, v)] + ms, r))
  {
    SkipWsNone(s);
    SkipWsNone(afterKey);
    SkipWsNone(after);
    if after[0] == '}' {
      assert ParseMembers(s) == Some(([Member(key, v)], after[1..]));
    }
  }

  lemma {:induction false} ItemsRoundTrip(items: seq<Json>, rest: string)
    requires |items| > 0 && Delimited(rest)
    ensures ParseItems(DumpsItems(items) + "]" + rest) == Some((items, rest))
    decreases items, 1
  {
    if |items| == 1 {
      LastItemRoundTrip(items[0], rest);
      assert items == [items[0]];
      assert DumpsItems(items) + "]" + rest == Dumps(items[0]) + ("]" + rest);
    } else {
      ItemsRoundTrip(items[1..], rest);
      ItemsCons(items, rest);
    }
  }

  lemma {:induction false} ItemsCons(items: seq<Json>, rest: string)
    requires |items| > 1
    requires ParseItems(DumpsItems(items[1..]) + "]" + rest) == Some((items[1..], rest))
    ensures ParseItems(DumpsItems(items) + "]" + rest) == Some((items, rest))
    decreases items, 0
  {
    var more := DumpsItems(items[1..]) + "]" + rest;
    DumpsItemsCons(items, "]" + rest);
    AppendAssoc(DumpsItems(items), "]", rest);
    AppendAssoc(DumpsItems(items[1..]), "]", rest);
    NextItemRoundTrip(items[0], more);
    assert [items[0]] + items[1..] == items;
  }

  lemma DumpsItemsCons(items: seq<Json>, tail: string)
    requires |items| > 1
    ensures DumpsItems(items) + tail == Dumps(items[0]) + (", " + (DumpsItems(items[1..]) + tail))
  {
  }

  lemma {:induction false} LastItemRoundTrip(v: Json, rest: string)
    requires Delimited(rest)
    ensures ParseItems(Dumps(v) + ("]" + rest)) == Some(([v], rest))
    decreases v, 4
  {
    ValueRoundTrip(v, "]" + rest);
    ParseItemsAfter(Dumps(v) + ("]" + rest), v, "]" + rest);
    assert ("]" + rest)[1..] == rest;
  }

  lemma {:induction false} NextItemRoundTrip(v: Json, more: string)
    ensures ParseItems(Dumps(v) + (", " + more)) == match ParseItems(more)
                                                    case None => None
                                                    case Some((vs, r)) => Some(([v] + vs, r))
    decreases v, 4
  {
    ValueRoundTrip(v, ", " + more);
    ParseItemsAfter(Dumps(v) + (", " + more), v, ", " + more);
    assert (", " + more)[1..] == " " + more;
    ParseItemsSpace(more);
  }

  /** Reading one member of an object's text. */
  lemma {:induction false} MemberStep(m: Member, after: string)
    requires |after| > 0 && (after[0] == '}' || after[0] == ',')
    ensures ParseStr(MemberText(m)[1..] + after) == Some((m.key, ": " + (Dumps(m.value) + after)))
    ensures ParseValue(" " + (Dumps(m.value) + after)) == Some((m.value, after))
    decreases m, 1
  {
    var d := Dumps(m.value);
    var afterKey := ": " + (d + after);
    assert MemberText(m)[1..] + after == Escape(m.key) + "\"" + afterKey;
    EscapeRoundTrip(m.key, afterKey);
    ParseValueSpace(d + after);
    ValueRoundTrip(m.value, after);
  }

  /** Reading a member's text followed by what comes after the member. */
  lemma {:induction false} MemberParse(m: Member, after: string)
    requires |after| > 0 && (after[0] == '}' || after[0] == ',')
    ensures after[0] == '}' ==> ParseMembers(MemberText(m) + after) == Some(([m], after[1..]))
    ensures after[0] == ',' ==> ParseMembers(MemberText(m) + after) == match ParseMembers(after[1..])
                                                                     case None => None
                                                                     case Some((ms, r)) => Some(([m] + ms, r))
    decreases m, 2
  {
    var s := MemberText(m) + after;
    var x := Dumps(m.value) + after;
    MemberStep(m, after);
    SliceCons(MemberText(m), after);
    SliceCons(": ", x);
    ParseMembersAfter(s, m.key, m.value, ": " + x, after);
  }

  lemma SliceCons(a: string, b: string)
    requires |a| > 0
    ensures (a + b)[0] == a[0] && (a + b)[1..] == a[1..] + b
  {
  }

  lemma {:induction false} LastMemberRoundTrip(m: Member, rest: string)
    requires Delimited(rest)
    ensures ParseMembers(MemberText(m) + ("}" + rest)) == Some(([m], rest))
    decreases m, 3
  {
    MemberParse(m, "}" + rest);
    SliceCons("}", rest);
  }

  lemma {:induction false} NextMemberRoundTrip(m: Member, more: string)
    ensures ParseMembers(MemberText(m) + (", " + more)) == match ParseMembers(more)
                                                          case None => None
                                                          case Some((ms, r)) => Some(([m] + ms, r))
    decreases m, 3
  {
    MemberParse(m, ", " + more);
    SliceCons(", ", more);
    ParseMembersSpace(more);
  }

  lemma {:induction false} MembersRoundTrip(ms: seq<Member>, rest: string)
    requires |ms| > 0 && Delimited(rest)
    ensures ParseMembers(DumpsMembers(ms) + "}" + rest) == Some((ms, rest))
    decreases ms, 1
  {
    if |ms| == 1 {
      LastMemberRoundTrip(ms[0], rest);
      assert ms == [ms[0]];
      assert DumpsMembers(ms) + "}" + rest == MemberText(ms[0]) + ("}" + rest);
    } else {
      MembersRoundTrip(ms[1..], rest);
      MembersCons(ms, rest);
    }
  }

  lemma {:induction false} MembersCons(ms: seq<Member>, rest: string)
    requires |ms| > 1
    requires ParseMembers(DumpsMembers(ms[1..]) + "}" + rest) == Some((ms[1..], rest))
    ensures ParseMembers(DumpsMembers(ms) + "}" + rest) == Some((ms, rest))
    decreases ms, 0
  {
    var more := DumpsMembers(ms[1..]) + "}" + rest;
    DumpsMembersCons(ms, "}" + rest);
    AppendAssoc(DumpsMembers(ms), "}", rest);
    AppendAssoc(DumpsMembers(ms[1..]), "}", rest);
    NextMemberRoundTrip(ms[0], more);
    assert [ms[0]] + ms[1..] == ms;
  }

  lemma DumpsMembersCons(ms: seq<Member>, tail: string)
    requires |ms| > 1
    ensures DumpsMembers(ms) + tail == MemberText(ms[0]) + (", " + (DumpsMembers(ms[1..]) + tail))
  {
  }

  /** `json.loads(json.dumps(v)) == v` for the reference decoder. */
  lemma ParseDumps(v: Json)
    ensures Parse(Dumps(v)) == Some(v)
  {
    ValueRoundTrip(v, []);
    assert Dumps(v) + [] == Dumps(v);
  }

  /** Two values with the same text are the same value. */
  lemma DumpsInjective(v: Json, w: Json)
    requires Dumps(v) == Dumps(w)
    ensures v == w
  {
    ParseDumps(v);
    ParseDumps(w);
  }
}
