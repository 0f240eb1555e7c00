/** JSON texts as section 2 to 7 of RFC 8259 let them be written: any blanks, any escapes, keys in any order and any
    number of times; and what the parser makes of them. Left out are numbers with a fraction or an exponent. */
module JsonText {
  import opened Common
  import opened Json
  import opened JsonRoundTrip

  // ---------- the grammar ----------

  /** A piece of a string: a character as it is, an escape of one letter, or an escape of four hexadecimal digits. */
  datatype Piece = Plain(c: char) | Letter(letter: char) | Unicode(hex: string)

  datatype Doc =
    | DNull
    | DBool(flag: bool)
    | DInt(negative: bool, digits: string)
    | DString(pieces: seq<Piece>)
    | DArray(inner: string, items: seq<Item>)
    | DObject(inner: string, entries: seq<Entry>)

  /** A value between blanks. */
  datatype Item = Item(before: string, doc: Doc, after: string)

  /** A key, a colon and a value, with blanks around each. */
  datatype Entry = Entry(before: string, key: seq<Piece>, mid: string, pre: string, doc: Doc, after: string)

  const ESCAPES: map<char, char> :=
    map['\"' := '\"', '\\' := '\\', '/' := '/', 'b' := BACKSPACE, 'f' := FORM_FEED, 'n' := '\n', 'r' := '\r',
        't' := '\t']

  predicate PieceOk(p: Piece) {
    match p
    case Plain(c) => c != '\"' && c != '\\'
    case Letter(letter) => letter in ESCAPES
    case Unicode(hex) => |hex| == 4 && FourHex(hex)
  }

  predicate PiecesOk(ps: seq<Piece>) {
    forall i :: 0 <= i < |ps| ==> PieceOk(ps[i])
  }

  predicate DocOk(d: Doc)
    decreases d
  {
    match d
    case DInt(negative, digits) => digits != "" && AllDigits(digits) && IsLong(IntValue(negative, digits))
    case DString(pieces) => PiecesOk(pieces)
    case DArray(inner, items) => Blank(inner) && ItemsOk(items)
    case DObject(inner, entries) => Blank(inner) && EntriesOk(entries)
    case _ => true
  }

  predicate ItemsOk(items: seq<Item>)
    decreases items
  {
    items != [] ==> Blank(items[0].before) && DocOk(items[0].doc) && Blank(items[0].after) && ItemsOk(items[1..])
  }

  predicate EntriesOk(es: seq<Entry>)
    decreases es
  {
    es != [] ==>
      var e := es[0];
      && Blank(e.before) && PiecesOk(e.key) && Blank(e.mid) && Blank(e.pre) && DocOk(e.doc) && Blank(e.after)
      && EntriesOk(es[1..])
  }

  // ---------- what it means ----------

  function NatValue(digits: string): nat
    requires AllDigits(digits)
  {
    if digits == "" then 0
    else 10 * NatValue(digits[..|digits| - 1]) + (digits[|digits| - 1] as int - '0' as int)
  }

  function IntValue(negative: bool, digits: string): int
    requires AllDigits(digits)
  {
    if negative then 0 - (NatValue(digits) as int) else NatValue(digits)
  }

  /** The text of a string; four hexadecimal digits are kept as they are written. */
  function PieceMeaning(p: Piece): string
    requires PieceOk(p)
  {
    match p
    case Plain(c) => [c]
    case Letter(letter) => [ESCAPES[letter]]
    case Unicode(hex) => "\\u" + hex
  }

  function StringMeaning(ps: seq<Piece>): string
    requires PiecesOk(ps)
  {
    if ps == [] then "" else PieceMeaning(ps[0]) + StringMeaning(ps[1..])
  }

  /** Keys are kept in escaped form. */
  function KeyMeaning(ps: seq<Piece>): string
    requires PiecesOk(ps)
  {
    Escape(StringMeaning(ps))
  }

  function Meaning(d: Doc): Json
    requires DocOk(d)
    decreases d
  {
    match d
    case DNull => Null
    case DBool(flag) => Boolean(flag)
    case DInt(negative, digits) => Integral(IntValue(negative, digits))
    case DString(pieces) => String(StringMeaning(pieces))
    case DArray(_, items) => Array(ItemMeanings(items))
    case DObject(_, entries) => Object(Collect([], entries))
  }

  function ItemMeanings(items: seq<Item>): seq<Json>
    requires ItemsOk(items)
    decreases items
  {
    if items == [] then [] else [Meaning(items[0].doc)] + ItemMeanings(items[1..])
  }

  /** The entries set one after the other. LastWins says what this gives. */
  function Collect(done: seq<Member>, es: seq<Entry>): seq<Member>
    requires EntriesOk(es)
    decreases es
  {
    if es == [] then done else Collect(Put(done, KeyMeaning(es[0].key), Meaning(es[0].doc)), es[1..])
  }

  // ---------- how it is written, in front of `rest` ----------

  function PieceText(p: Piece): string {
    match p
    case Plain(c) => [c]
    case Letter(letter) => ['\\', letter]
    case Unicode(hex) => "\\u" + hex
  }

  function PiecesThen(ps: seq<Piece>, rest: string): string {
    if ps == [] then rest else PieceText(ps[0]) + PiecesThen(ps[1..], rest)
  }

  function Written(d: Doc, rest: string): string
    decreases d
  {
    match d
    case DNull => "null" + rest
    case DBool(flag) => (if flag then "true" else "false") + rest
    case DInt(negative, digits) => ((if negative then "-" else "") + digits) + rest
    case DString(pieces) => "\"" + PiecesThen(pieces, "\"" + rest)
    case DArray(inner, items) => "[" + (if items == [] then inner + ("]" + rest) else ItemsThen(items, rest))
    case DObject(inner, entries) => "{" + (if entries == [] then inner + ("}" + rest) else EntriesThen(entries, rest))
  }

  function ItemsThen(items: seq<Item>, rest: string): string
    requires items != []
    decreases items
  {
    var more := if |items| == 1 then "]" + rest else "," + ItemsThen(items[1..], rest);
    items[0].before + Written(items[0].doc, items[0].after + more)
  }

  function EntriesThen(es: seq<Entry>, rest: string): string
    requires es != []
    decreases es
  {
    var more := if |es| == 1 then "}" + rest else "," + EntriesThen(es[1..], rest);
    EntryThen(es[0], more)
  }

  function EntryThen(e: Entry, more: string): string
    decreases e
  {
    e.before + ("\"" + PiecesThen(e.key, "\"" + (e.mid + (":" + (e.pre + Written(e.doc, e.after + more))))))
  }

  // ---------- reading it ----------

  lemma {:induction false} PiecesScan(ps: seq<Piece>, rest: string, val: string)
    requires PiecesOk(ps)
    ensures ReadString(PiecesThen(ps, "\"" + rest), val) == Ok(val + StringMeaning(ps), rest)
  {
    if ps == [] {
      assert val + "" == val;
      assert ("\"" + rest)[1..] == rest;
    } else {
      var more := PiecesThen(ps[1..], "\"" + rest);
      PieceScans(ps[0], more, val);
      PiecesScan(ps[1..], rest, val + PieceMeaning(ps[0]));
      Assoc(val, PieceMeaning(ps[0]), StringMeaning(ps[1..]));
    }
  }

  lemma PieceScans(p: Piece, more: string, val: string)
    requires PieceOk(p)
    ensures ReadString(PieceText(p) + more, val) == ReadString(more, val + PieceMeaning(p))
  {
    var s := PieceText(p) + more;
    match p
    case Plain(c) =>
      assert s[1..] == more;
    case Letter(letter) =>
      assert s[2..] == more;
    case Unicode(hex) =>
      assert s[6..] == more && s[2..6] == hex && s[0] == '\\' && s[1] == 'u';
      assert s[2..][0] == hex[0] && s[2..][1] == hex[1] && s[2..][2] == hex[2] && s[2..][3] == hex[3];
      Assoc(val, "\\u", hex);
  }

  lemma StringLoads(ps: seq<Piece>, rest: string)
    requires PiecesOk(ps)
    ensures ParseNext("\"" + PiecesThen(ps, "\"" + rest)) == Ok(String(StringMeaning(ps)), rest)
  {
    var s := "\"" + PiecesThen(ps, "\"" + rest);
    assert s[1..] == PiecesThen(ps, "\"" + rest);
    PiecesScan(ps, rest, "");
    assert "" + StringMeaning(ps) == StringMeaning(ps);
  }

  lemma {:induction false} DigitsRead(digits: string)
    requires AllDigits(digits)
    ensures ReadDigits(digits, 0) == NatValue(digits)
    decreases |digits|
  {
    if digits != "" {
      var front, d := digits[..|digits| - 1], digits[|digits| - 1] as int - '0' as int;
      DigitsRead(front);
      ReadDigitsSnoc(front, d, 0);
      assert Digit(d) == digits[|digits| - 1];
      assert front + [Digit(d)] == digits;
    }
  }

  lemma IntegerLoads(negative: bool, digits: string, rest: string)
    requires digits != "" && AllDigits(digits) && IsLong(IntValue(negative, digits)) && Terminated(rest)
    ensures ParseNext(((if negative then "-" else "") + digits) + rest) ==
      Ok(Integral(IntValue(negative, digits)), rest)
  {
    var s := (if negative then "-" else "") + digits;
    DigitsRead(digits);
    assert Stol(s) == Some(IntValue(negative, digits)) by {
      assert negative ==> s[1..] == digits;
      assert !negative ==> s == digits;
      assert IsDigit(digits[0]);
    }
    assert "" + s == s;
    NumberScans(s, rest, "", IntValue(negative, digits));
    assert (s + rest)[0] == s[0];
  }

  lemma WordLoads(flag: bool, rest: string)
    ensures ParseNext((if flag then "true" else "false") + rest) == Ok(Boolean(flag), rest)
  {
    WordsParse(rest);
  }

  /** What is written starts with no blank and no closing bracket. */
  lemma WrittenStarts(d: Doc, rest: string)
    requires DocOk(d)
    ensures var s := Written(d, rest); s != "" && !IsSpace(s[0]) && s[0] != ']' && s[0] != '}'
  {
    if d.DInt? {
      assert IsDigit(d.digits[0]);
    }
  }

  lemma StartStays(s: string)
    requires s != "" && !IsSpace(s[0])
    ensures SkipSpace(s) == s
  {
  }

  lemma EndsValue(after: string, more: string)
    requires Blank(after) && more != "" && (more[0] == ',' || more[0] == ']' || more[0] == '}')
    ensures Terminated(after + more) && SkipSpace(after + more) == more
  {
    SkipBlank(after, more);
    if after == "" {
      assert after + more == more;
    } else {
      assert (after + more)[0] == after[0];
    }
  }

  /** Every text of a value, in front of anything, is read as what it means, and the parser stops just behind it. */
  lemma {:induction false} DocLoads(d: Doc, rest: string)
    requires DocOk(d) && (d.DInt? ==> Terminated(rest))
    ensures ParseNext(Written(d, rest)) == Ok(Meaning(d), rest)
    decreases d
  {
    match d
    case DNull => WordsParse(rest);
    case DBool(flag) => WordLoads(flag, rest);
    case DInt(negative, digits) => IntegerLoads(negative, digits, rest);
    case DString(pieces) => StringLoads(pieces, rest);
    case DArray(inner, items) =>
      if items == [] {
        EmptyArrayLoads(inner, rest);
      } else {
        ItemsLoad(items, [], rest);
        ArrayOpens(items, rest);
        assert [] + ItemMeanings(items) == ItemMeanings(items);
      }
    case DObject(inner, entries) =>
      if entries == [] {
        EmptyObjectLoads(inner, rest);
      } else {
        EntriesLoad(entries, [], rest);
        ObjectOpens(entries, rest);
      }
  }

  lemma EmptyArrayLoads(inner: string, rest: string)
    requires Blank(inner)
    ensures ParseNext("[" + (inner + ("]" + rest))) == Ok(Array([]), rest)
  {
    assert ("[" + (inner + ("]" + rest)))[1..] == inner + ("]" + rest);
    SkipBlank(inner, "]" + rest);
    assert ("]" + rest)[1..] == rest;
  }

  lemma EmptyObjectLoads(inner: string, rest: string)
    requires Blank(inner)
    ensures ParseNext("{" + (inner + ("}" + rest))) == Ok(Object([]), rest)
  {
    assert ("{" + (inner + ("}" + rest)))[1..] == inner + ("}" + rest);
    SkipBlank(inner, "}" + rest);
    assert ("}" + rest)[1..] == rest;
  }

  lemma ArrayOpens(items: seq<Item>, rest: string)
    requires items != [] && ItemsOk(items)
    ensures ParseNext("[" + ItemsThen(items, rest)) == ParseItems(ItemsThen(items, rest), [])
  {
    var more := if |items| == 1 then "]" + rest else "," + ItemsThen(items[1..], rest);
    var value := Written(items[0].doc, items[0].after + more);
    assert ("[" + ItemsThen(items, rest))[1..] == ItemsThen(items, rest);
    SkipBlank(items[0].before, value);
    WrittenStarts(items[0].doc, items[0].after + more);
    StartStays(value);
    SpaceSkipped(ItemsThen(items, rest));
  }

  lemma ObjectOpens(es: seq<Entry>, rest: string)
    requires es != [] && EntriesOk(es)
    ensures ParseNext("{" + EntriesThen(es, rest)) == ParseMembers(EntriesThen(es, rest), [])
  {
    var more := if |es| == 1 then "}" + rest else "," + EntriesThen(es[1..], rest);
    var e := es[0];
    var tail := PiecesThen(e.key, "\"" + (e.mid + (":" + (e.pre + Written(e.doc, e.after + more)))));
    assert ("{" + EntriesThen(es, rest))[1..] == EntriesThen(es, rest);
    SkipBlank(e.before, "\"" + tail);
    StartStays("\"" + tail);
    MembersSkipped(EntriesThen(es, rest), []);
  }

  lemma {:induction false} ItemsLoad(items: seq<Item>, done: seq<Json>, rest: string)
    requires items != [] && ItemsOk(items)
    ensures ParseItems(ItemsThen(items, rest), done) == Ok(Array(done + ItemMeanings(items)), rest)
    decreases items
  {
    var more := if |items| == 1 then "]" + rest else "," + ItemsThen(items[1..], rest);
    var it := items[0];
    EndsValue(it.after, more);
    DocLoads(it.doc, it.after + more);
    SpaceBefore(it.before, Written(it.doc, it.after + more));
    assert more[1..] == if |items| == 1 then rest else ItemsThen(items[1..], rest);
    if |items| == 1 {
      assert ItemMeanings(items[1..]) == [];
      assert ItemMeanings(items) == [Meaning(it.doc)];
    } else {
      ItemsLoad(items[1..], done + [Meaning(it.doc)], rest);
      Assoc(done, [Meaning(it.doc)], ItemMeanings(items[1..]));
    }
  }

  lemma {:induction false} EntriesLoad(es: seq<Entry>, done: seq<Member>, rest: string)
    requires es != [] && EntriesOk(es)
    ensures ParseMembers(EntriesThen(es, rest), done) == Ok(Object(Collect(done, es)), rest)
    decreases es
  {
    var more := if |es| == 1 then "}" + rest else "," + EntriesThen(es[1..], rest);
    var e := es[0];
    var value := Written(e.doc, e.after + more);
    KeyLoads(e.before, e.key, e.mid, e.pre + value, done);
    EndsValue(e.after, more);
    DocLoads(e.doc, e.after + more);
    SpaceBefore(e.pre, value);
    SpaceSkipped(e.pre + value);
    assert more[1..] == if |es| == 1 then rest else EntriesThen(es[1..], rest);
    if |es| == 1 {
      assert Collect(Put(done, KeyMeaning(e.key), Meaning(e.doc)), es[1..]) ==
          Put(done, KeyMeaning(e.key), Meaning(e.doc));
    } else {
      EntriesLoad(es[1..], Put(done, KeyMeaning(e.key), Meaning(e.doc)), rest);
    }
  }

  lemma KeyLoads(before: string, key: seq<Piece>, mid: string, value: string, done: seq<Member>)
    requires Blank(before) && PiecesOk(key) && Blank(mid)
    ensures ParseMembers(before + ("\"" + PiecesThen(key, "\"" + (mid + (":" + value)))), done)
      == ParseValue(KeyMeaning(key), SkipSpace(value), done)
  {
    StringLoads(key, mid + (":" + value));
    SpaceBefore(before, "\"" + PiecesThen(key, "\"" + (mid + (":" + value))));
    SkipBlank(mid, ":" + value);
    assert (":" + value)[1..] == value;
  }

  // ---------- the last entry of a key wins ----------

  /** The value of the last entry with this key. */
  function LastOf(es: seq<Entry>, k: string): Option<Json>
    requires EntriesOk(es)
  {
    if es == [] then None
    else if LastOf(es[1..], k).Some? then LastOf(es[1..], k)
    else if KeyMeaning(es[0].key) == k then Some(Meaning(es[0].doc))
    else None
  }

  lemma {:induction false} LastWins(done: seq<Member>, es: seq<Entry>, m: Member)
    requires Sorted(done) && EntriesOk(es)
    ensures Sorted(Collect(done, es))
    ensures m in Collect(done, es) <==> LastOf(es, m.key) == Some(m.value) || (LastOf(es, m.key).None? && m in done)
    decreases |es|
  {
    if es != [] {
      var k, v := KeyMeaning(es[0].key), Meaning(es[0].doc);
      PutSorted(done, k, v);
      PutMembers(done, k, v, m);
      LastWins(Put(done, k, v), es[1..], m);
    }
  }

  /** A text in any formatting, with anything behind it, loads as what it means. */
  lemma TextLoads(d: Doc, lead: string, rest: string)
    requires DocOk(d) && Blank(lead) && (d.DInt? ==> Terminated(rest))
    ensures Load(lead + Written(d, rest)) == Some(Meaning(d))
  {
    SpaceBefore(lead, Written(d, rest));
    DocLoads(d, rest);
  }

  /** In an object loaded from text each key has the value of its last occurrence, in whatever order the keys are
      written and however often, and there are no other keys. */
  lemma ObjectLoads(inner: string, es: seq<Entry>, lead: string, rest: string) returns (ms: seq<Member>)
    requires Blank(inner) && EntriesOk(es) && Blank(lead)
    ensures Load(lead + Written(DObject(inner, es), rest)) == Some(Object(ms)) && Sorted(ms)
    ensures forall m :: m in ms <==> LastOf(es, m.key) == Some(m.value)
  {
    TextLoads(DObject(inner, es), lead, rest);
    ms := Collect([], es);
    LastWins([], es, Member("", Null));
    forall m
      ensures m in ms <==> LastOf(es, m.key) == Some(m.value)
    {
      LastWins([], es, m);
    }
  }
}
