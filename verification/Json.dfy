/** The JSON tree, its printer and its parser. The parser reads a suffix of the text: what is left from `offset` on. */
module Json {
  import opened Common
  const BACKSPACE := '\U{0008}'
  const FORM_FEED := '\U{000C}'
  const VERTICAL_TAB := '\U{000B}'

  /** An object is a map from strings, kept as its members in increasing order of keys. */
  datatype Json =
    | Null
    | Object(members: seq<Member>)
    | Array(items: seq<Json>)
    | String(text: string)
    | Integral(value: int)
    | Boolean(flag: bool)

  datatype Member = Member(key: string, value: Json)

  // ---------- strings ----------

  /** The letter after the backslash for a character that is escaped, else the space. */
  function EscapeLetter(c: char): char {
    if c == '\"' then '\"'
    else if c == '\\' then '\\'
    else if c == BACKSPACE then 'b'
    else if c == FORM_FEED then 'f'
    else if c == '\n' then 'n'
    else if c == '\r' then 'r'
    else if c == '\t' then 't'
    else ' '
  }

  /** What a backslash and this letter stand for; an unknown letter gives the backslash itself. */
  function Unescape(letter: char): char {
    if letter == '\"' then '\"'
    else if letter == '\\' then '\\'
    else if letter == '/' then '/'
    else if letter == 'b' then BACKSPACE
    else if letter == 'f' then FORM_FEED
    else if letter == 'n' then '\n'
    else if letter == 'r' then '\r'
    else if letter == 't' then '\t'
    else '\\'
  }

  function Escape(s: string): string {
    if s == "" then ""
    else (if EscapeLetter(s[0]) == ' ' then [s[0]] else ['\\', EscapeLetter(s[0])]) + Escape(s[1..])
  }

  /** Special characters occur only in the escapes the printer writes. */
  predicate IsEscaped(k: string) {
    if k == "" then true
    else if k[0] == '\\' then |k| >= 2 && EscapeLetter(Unescape(k[1])) == k[1] && IsEscaped(k[2..])
    else EscapeLetter(k[0]) == ' ' && IsEscaped(k[1..])
  }

  function Unescaped(k: string): string
    requires IsEscaped(k)
  {
    if k == "" then ""
    else if k[0] == '\\' then [Unescape(k[1])] + Unescaped(k[2..])
    else [k[0]] + Unescaped(k[1..])
  }

  lemma {:induction false} EscapeIsEscaped(s: string)
    ensures IsEscaped(Escape(s)) && Unescaped(Escape(s)) == s
  {
    if s != "" {
      EscapeIsEscaped(s[1..]);
      var letter := EscapeLetter(s[0]);
      if letter == ' ' {
        assert Escape(s)[1..] == Escape(s[1..]);
      } else {
        assert Escape(s)[2..] == Escape(s[1..]);
        assert Unescape(letter) == s[0];
      }
    }
  }

  lemma {:induction false} EscapeUnescaped(k: string)
    requires IsEscaped(k)
    ensures Escape(Unescaped(k)) == k
  {
    if k != "" {
      if k[0] == '\\' {
        EscapeUnescaped(k[2..]);
        assert Unescaped(k)[1..] == Unescaped(k[2..]);
        assert k == [k[0], k[1]] + k[2..];
      } else {
        EscapeUnescaped(k[1..]);
        assert Unescaped(k)[1..] == Unescaped(k[1..]);
        assert k == [k[0]] + k[1..];
      }
    }
  }

  // ---------- order of keys ----------

  predicate Less(a: string, b: string) {
    if b == "" then false
    else if a == "" then true
    else a[0] < b[0] || (a[0] == b[0] && Less(a[1..], b[1..]))
  }

  lemma {:induction false} LessAsymmetric(a: string, b: string)
    requires Less(a, b)
    ensures a != b && !Less(b, a)
  {
    if a != "" && a[0] == b[0] {
      LessAsymmetric(a[1..], b[1..]);
    }
  }

  lemma {:induction false} LessTotal(a: string, b: string)
    ensures Less(a, b) || Less(b, a) || a == b
  {
    if a != "" && b != "" {
      LessTotal(a[1..], b[1..]);
      assert a == [a[0]] + a[1..] && b == [b[0]] + b[1..];
    }
  }

  lemma {:induction false} LessTransitive(a: string, b: string, c: string)
    requires Less(a, b) && Less(b, c)
    ensures Less(a, c)
  {
    if a != "" && a[0] == b[0] == c[0] {
      LessTransitive(a[1..], b[1..], c[1..]);
    }
  }

  predicate AllAbove(ms: seq<Member>, k: string) {
    forall i :: 0 <= i < |ms| ==> Less(k, ms[i].key)
  }

  predicate Sorted(ms: seq<Member>) {
    forall i, j :: 0 <= i < j < |ms| ==> Less(ms[i].key, ms[j].key)
  }

  /** map[k] = v */
  function Put(ms: seq<Member>, k: string, v: Json): seq<Member> {
    if ms == [] then [Member(k, v)]
    else if k == ms[0].key then [Member(k, v)] + ms[1..]
    else if Less(k, ms[0].key) then [Member(k, v)] + ms
    else [ms[0]] + Put(ms[1..], k, v)
  }

  lemma {:induction false} PutLast(ms: seq<Member>, k: string, v: Json)
    requires forall i :: 0 <= i < |ms| ==> Less(ms[i].key, k)
    ensures Put(ms, k, v) == ms + [Member(k, v)]
  {
    if ms != [] {
      LessAsymmetric(ms[0].key, k);
      PutLast(ms[1..], k, v);
    }
  }

  lemma {:induction false} PutAbove(ms: seq<Member>, low: string, k: string, v: Json)
    requires AllAbove(ms, low) && Less(low, k)
    ensures AllAbove(Put(ms, k, v), low)
  {
    if ms != [] && k != ms[0].key && !Less(k, ms[0].key) {
      PutAbove(ms[1..], low, k, v);
    }
  }

  lemma {:induction false} PutSorted(ms: seq<Member>, k: string, v: Json)
    requires Sorted(ms)
    ensures Sorted(Put(ms, k, v))
  {
    if ms != [] {
      var rest := ms[1..];
      assert AllAbove(rest, ms[0].key);
      if Less(k, ms[0].key) {
        forall i | 0 <= i < |ms|
          ensures Less(k, ms[i].key)
        {
          if i > 0 {
            LessTransitive(k, ms[0].key, ms[i].key);
          }
        }
      } else if k != ms[0].key {
        LessTotal(k, ms[0].key);
        PutSorted(rest, k, v);
        PutAbove(rest, ms[0].key, k, v);
      }
    }
  }

  /** Setting a key gives it the value, keeps every other member, and adds nothing else. */
  lemma {:induction false} PutMembers(ms: seq<Member>, k: string, v: Json, m: Member)
    requires Sorted(ms)
    ensures m in Put(ms, k, v) <==> m == Member(k, v) || (m in ms && m.key != k)
  {
    if ms != [] {
      var rest := ms[1..];
      assert m in ms <==> m == ms[0] || m in rest;
      if k == ms[0].key {
        assert forall i :: 0 <= i < |rest| ==> Less(k, ms[i + 1].key) && rest[i] == ms[i + 1];
        KeyBelow(rest, k);
      } else if Less(k, ms[0].key) {
        LowestBelow(ms, k);
        KeyBelow(ms, k);
      } else {
        PutMembers(rest, k, v, m);
      }
    }
  }

  lemma LowestBelow(ms: seq<Member>, k: string)
    requires Sorted(ms) && ms != [] && Less(k, ms[0].key)
    ensures AllAbove(ms, k)
  {
    forall i | 0 <= i < |ms|
      ensures Less(k, ms[i].key)
    {
      if i > 0 {
        LessTransitive(k, ms[0].key, ms[i].key);
      }
    }
  }

  lemma KeyBelow(ms: seq<Member>, k: string)
    requires AllAbove(ms, k)
    ensures forall m :: m in ms ==> m.key != k
  {
    forall m | m in ms
      ensures m.key != k
    {
      LessAsymmetric(k, m.key);
    }
  }

  // ---------- integers ----------

  function Digit(d: nat): char
    requires d < 10
  {
    '0' + d as char
  }

  predicate IsDigit(c: char) {
    '0' <= c <= '9'
  }

  function Digits(n: nat): string {
    if n < 10 then [Digit(n)] else Digits(n / 10) + [Digit(n % 10)]
  }

  /** std::to_string */
  function ToDecimal(n: int): string {
    if n < 0 then "-" + Digits(-n) else Digits(n)
  }

  function ReadDigits(s: string, acc: nat): nat {
    if s == "" || !IsDigit(s[0]) then acc else ReadDigits(s[1..], 10 * acc + (s[0] as int - '0' as int))
  }

  predicate IsLong(n: int) {
    -0x8000_0000_0000_0000 <= n < 0x8000_0000_0000_0000
  }

  /** std::stol on text of digits and minus signs; None where it throws. */
  function Stol(s: string): Option<int> {
    var digits := if s != "" && s[0] == '-' then s[1..] else s;
    if digits == "" || !IsDigit(digits[0]) then None
    else
      var n := if s[0] == '-' then 0 - (ReadDigits(digits, 0) as int) else ReadDigits(digits, 0) as int;
      if IsLong(n) then Some(n) else None
  }

  predicate AllDigits(s: string) {
    forall i :: 0 <= i < |s| ==> IsDigit(s[i])
  }

  lemma {:induction false} ReadDigitsSnoc(s: string, d: nat, acc: nat)
    requires AllDigits(s) && d < 10
    ensures ReadDigits(s + [Digit(d)], acc) == 10 * ReadDigits(s, acc) + d
  {
    if s == "" {
      assert s + [Digit(d)] == [Digit(d)];
      assert ReadDigits([Digit(d)][1..], 10 * acc + d) == 10 * acc + d;
    } else {
      assert (s + [Digit(d)])[1..] == s[1..] + [Digit(d)];
      ReadDigitsSnoc(s[1..], d, 10 * acc + (s[0] as int - '0' as int));
    }
  }

  lemma {:induction false} DigitsReadBack(n: nat)
    ensures Digits(n) != "" && AllDigits(Digits(n)) && ReadDigits(Digits(n), 0) == n
  {
    if n < 10 {
      ReadDigitsSnoc("", n, 0);
      assert "" + [Digit(n)] == Digits(n);
    } else {
      DigitsReadBack(n / 10);
      ReadDigitsSnoc(Digits(n / 10), n % 10, 0);
    }
  }

  predicate IsNumberChar(c: char) {
    c == '-' || IsDigit(c)
  }

  lemma DecimalReadsBack(n: int)
    requires IsLong(n)
    ensures Stol(ToDecimal(n)) == Some(n)
    ensures ToDecimal(n) != "" && forall i :: 0 <= i < |ToDecimal(n)| ==> IsNumberChar(ToDecimal(n)[i])
  {
    DigitsReadBack(if n < 0 then -n else n);
    if n < 0 {
      assert ToDecimal(n)[1..] == Digits(-n);
    }
  }

  // ---------- the printer ----------

  function Pad(depth: int, tab: string): string
    decreases depth
  {
    if depth <= 0 then "" else Pad(depth - 1, tab) + tab
  }

  /** pad.erase(0, 2) */
  function Erase2(s: string): string {
    if |s| < 2 then "" else s[2..]
  }

  function Dump(t: Json, depth: int, tab: string): string
    decreases t
  {
    match t
    case Null => "null"
    case Object(ms) =>
      "{\n" + DumpMembers(ms, depth, tab) + ("\n" + Erase2(Pad(depth, tab)) + "}")
    case Array(items) => "[" + DumpItems(items, depth, tab) + "]"
    case String(text) => "\"" + Escape(text) + "\""
    case Integral(n) => ToDecimal(n)
    case Boolean(b) => if b then "true" else "false"
  }

  function DumpMember(m: Member, depth: int, tab: string): string
    decreases m
  {
    Pad(depth, tab) + ("\"" + (m.key + ("\" : " + Dump(m.value, depth + 1, tab))))
  }

  function DumpMembers(ms: seq<Member>, depth: int, tab: string): string
    decreases ms
  {
    if ms == [] then ""
    else DumpMember(ms[0], depth, tab) + (if |ms| == 1 then "" else ",\n" + DumpMembers(ms[1..], depth, tab))
  }

  function DumpItems(items: seq<Json>, depth: int, tab: string): string
    decreases items
  {
    if items == [] then ""
    else Dump(items[0], depth + 1, tab) + (if |items| == 1 then "" else ", " + DumpItems(items[1..], depth, tab))
  }

  // ---------- the parser ----------

  /** Fault: reads past the end, throws, or meets a floating number. Past: stops one character past the end. */
  datatype Parsed<+T> =
    | Fault
    | Past(value: T)
    | Ok(value: T, rest: string)

  predicate IsSpace(c: char) {
    c == ' ' || c == '\t' || c == '\n' || c == VERTICAL_TAB || c == FORM_FEED || c == '\r'
  }

  function SkipSpace(s: string): (r: string)
    ensures |r| <= |s|
  {
    if s != "" && IsSpace(s[0]) then SkipSpace(s[1..]) else s
  }

  /** The character at the offset; the terminator at the end. */
  function At(s: string): char {
    if s == "" then '\0' else s[0]
  }

  predicate IsHex(c: char) {
    ('0' <= c <= '9') || ('a' <= c <= 'f') || ('A' <= c <= 'F')
  }

  predicate FourHex(s: string) {
    |s| >= 4 && IsHex(s[0]) && IsHex(s[1]) && IsHex(s[2]) && IsHex(s[3])
  }

  /** The string after its opening quote. */
  function ReadString(s: string, val: string): (r: Parsed<string>)
    ensures r.Ok? ==> |r.rest| < |s|
    ensures !r.Past?
  {
    if s == "" then Fault
    else if s[0] == '\"' then Ok(val, s[1..])
    else if s[0] != '\\' then ReadString(s[1..], val + [s[0]])
    else if |s| == 1 then Fault
    else if s[1] != 'u' then ReadString(s[2..], val + [Unescape(s[1])])
    else if FourHex(s[2..]) then ReadString(s[6..], val + "\\u" + s[2..6])
    else Ok("", s[1..])
  }

  function ReadNumber(s: string, val: string): (r: Parsed<Json>)
    ensures r.Ok? ==> |r.rest| <= |s|
    decreases |s|
  {
    if s == "" then Past(Null)
    else if IsNumberChar(s[0]) then ReadNumber(s[1..], val + [s[0]])
    else if s[0] == '.' || s[0] == 'e' || s[0] == 'E' then Fault
    else if IsSpace(s[0]) || s[0] == ',' || s[0] == ']' || s[0] == '}' then
      match Stol(val)
      case None => Fault
      case Some(n) => Ok(Integral(n), s)
    else Ok(Null, s[1..])
  }

  function ParseBool(s: string): (r: Parsed<Json>)
    ensures r.Ok? && |r.rest| <= |s|
  {
    if "true" <= s then Ok(Boolean(true), s[4..])
    else if "false" <= s then Ok(Boolean(false), s[5..])
    else Ok(Null, s)
  }

  function ParseNull(s: string): (r: Parsed<Json>)
    ensures r.Ok? && |r.rest| <= |s|
  {
    if "null" <= s then Ok(Null, s[4..]) else Ok(Null, s)
  }

  function ParseNext(text: string): (r: Parsed<Json>)
    ensures r.Ok? ==> |r.rest| <= |text|
    decreases |text|, 0
  {
    var s := SkipSpace(text);
    var c := At(s);
    if c == '[' then
      var inner := SkipSpace(s[1..]);
      if At(inner) == ']' then Ok(Array([]), inner[1..]) else ParseItems(inner, [])
    else if c == '{' then
      var inner := SkipSpace(s[1..]);
      if At(inner) == '}' then Ok(Object([]), inner[1..]) else ParseMembers(inner, [])
    else if c == '\"' then
      match ReadString(s[1..], "")
      case Ok(val, rest) => Ok(String(val), rest)
      case _ => Fault
    else if c == 't' || c == 'f' then ParseBool(s)
    else if c == 'n' then ParseNull(s)
    else if IsNumberChar(c) then ReadNumber(s, "")
    else Ok(Null, s)
  }

  function ParseItems(s: string, done: seq<Json>): (r: Parsed<Json>)
    ensures r.Ok? ==> |r.rest| <= |s|
    decreases |s|, 1
  {
    match ParseNext(s)
    case Ok(v, rest) =>
      var after := SkipSpace(rest);
      if At(after) == ',' then ParseItems(after[1..], done + [v])
      else if At(after) == ']' then Ok(Array(done + [v]), after[1..])
      else Ok(Array([]), after)
    case _ => Fault
  }

  /** JSON::ToString of a parsed key. */
  function KeyText(key: Json): string {
    if key.String? then Escape(key.text) else ""
  }

  function ParseMembers(s: string, done: seq<Member>): (r: Parsed<Json>)
    ensures r.Ok? ==> |r.rest| <= |s|
    decreases |s|, 1
  {
    match ParseNext(s)
    case Ok(key, rest) =>
      var colon := SkipSpace(rest);
      if At(colon) != ':' then Ok(Object(done), colon) else ParseValue(KeyText(key), SkipSpace(colon[1..]), done)
    case _ => Fault
  }

  /** The part of the loop body after the colon, and the following turns. */
  function ParseValue(key: string, s: string, done: seq<Member>): (r: Parsed<Json>)
    ensures r.Ok? ==> |r.rest| <= |s|
    decreases |s|, 1
  {
    match ParseNext(s)
    case Ok(v, rest) =>
      var after := SkipSpace(rest);
      var next := Put(done, key, v);
      if At(after) == ',' then ParseMembers(after[1..], next)
      else if At(after) == '}' then Ok(Object(next), after[1..])
      else Ok(Object(next), after)
    case _ => Fault
  }

  function Load(text: string): Option<Json> {
    match ParseNext(text)
    case Fault => None
    case Past(v) => Some(v)
    case Ok(v, _) => Some(v)
  }
}
