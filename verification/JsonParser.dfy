/** The parser as the source runs it: one offset moved along the text by loops. Each method does what the
    suffix parser does on the rest of the text. */
module JsonParser {
  import opened Common
  import opened Json

  /** The outcome of a method at an offset, against the outcome on the suffix. */
  predicate Same<T(==)>(str: string, r: Parsed<T>, ok: bool, value: T, offset: nat) {
    match r
    case Fault => !ok
    case Past(v) => ok && value == v && offset == |str| + 1
    case Ok(v, rest) => ok && value == v && offset <= |str| && str[offset..] == rest
  }

  /** str[offset], with the terminator at the end. */
  function Peek(str: string, offset: nat): (c: char)
    requires offset <= |str|
    ensures c == At(str[offset..])
  {
    if offset < |str| then str[offset] else '\0'
  }

  lemma Step(str: string, offset: nat, k: nat)
    requires offset + k <= |str|
    ensures str[offset..][k..] == str[offset + k..]
  {
  }

  method JsonEscape(str: string) returns (output: string)
    ensures output == Escape(str)
  {
    output := "";
    for i := 0 to |str|
      invariant output + Escape(str[i..]) == Escape(str)
    {
      var c := str[i];
      var letter := EscapeLetter(c);
      assert str[i..][1..] == str[i + 1..];
      var piece := if letter == ' ' then [c] else ['\\', letter];
      Assoc(output, piece, Escape(str[i + 1..]));
      output := output + piece;
    }
    assert output + Escape(str[|str|..]) == output;
  }

  method ConsumeWs(str: string, start: nat) returns (offset: nat)
    requires start <= |str|
    ensures start <= offset <= |str| && str[offset..] == SkipSpace(str[start..])
  {
    offset := start;
    while offset < |str| && IsSpace(str[offset])
      invariant start <= offset <= |str| && SkipSpace(str[offset..]) == SkipSpace(str[start..])
    {
      Step(str, offset, 1);
      offset := offset + 1;
    }
  }

  /** From a backslash on: one escape, or the end of the parse. */
  method ParseEscape(str: string, start: nat, before: string) returns (ok: bool, stop: bool, val: string, offset: nat)
    requires start < |str| && str[start] == '\\'
    ensures start < offset <= |str|
    ensures stop ==> Same(str, ReadString(str[start..], before), ok, val, offset)
    ensures !stop ==> ReadString(str[offset..], val) == ReadString(str[start..], before)
  {
    val, offset := before, start + 1;
    if offset == |str| {
      return false, true, val, offset;
    }
    Step(str, start, 1);
    Step(str, start, 2);
    assert str[start..][1] == str[offset];
    ok, stop := true, false;
    if str[offset] != 'u' {
      val, offset := val + [Unescape(str[offset])], offset + 1;
    } else if !FourHex(str[offset + 1..]) {
      stop, val := true, "";
    } else {
      Step(str, start, 6);
      assert str[start..][2..6] == str[offset + 1..offset + 5];
      val, offset := val + "\\u" + str[offset + 1..offset + 5], offset + 5;
    }
  }

  /** From the opening quote on. */
  method ParseString(str: string, start: nat) returns (ok: bool, val: string, offset: nat)
    requires start < |str|
    ensures Same(str, ReadString(str[start + 1..], ""), ok, val, offset)
    ensures ok ==> start < offset
  {
    val, offset := "", start + 1;
    while offset < |str| && str[offset] != '\"'
      invariant start < offset <= |str|
      invariant ReadString(str[offset..], val) == ReadString(str[start + 1..], "")
      decreases |str| - offset
    {
      if str[offset] == '\\' {
        var stop;
        ok, stop, val, offset := ParseEscape(str, offset, val);
        if stop {
          return;
        }
      } else {
        PlainChar(str, offset, val);
        val := val + [str[offset]];
        offset := offset + 1;
      }
    }
    StringEnds(str, offset, val);
    ok := offset < |str|;
    if ok {
      offset := offset + 1;
    }
  }

  lemma PlainChar(str: string, offset: nat, val: string)
    requires offset < |str| && str[offset] != '\"' && str[offset] != '\\'
    ensures ReadString(str[offset..], val) == ReadString(str[offset + 1..], val + [str[offset]])
  {
    Step(str, offset, 1);
  }

  lemma StringEnds(str: string, offset: nat, val: string)
    requires offset <= |str| && (offset < |str| ==> str[offset] == '\"')
    ensures ReadString(str[offset..], val) == if offset < |str| then Ok(val, str[offset + 1..]) else Fault
  {
    if offset < |str| {
      Step(str, offset, 1);
    }
  }

  method ParseNumber(str: string, start: nat) returns (ok: bool, number: Json, offset: nat)
    requires start <= |str|
    ensures Same(str, ReadNumber(str[start..], ""), ok, number, offset)
    ensures ok ==> start <= offset
  {
    var val := "";
    number, offset := Null, start;
    while offset < |str| && IsNumberChar(str[offset])
      invariant start <= offset <= |str| && ReadNumber(str[offset..], val) == ReadNumber(str[start..], "")
    {
      Step(str, offset, 1);
      val, offset := val + [str[offset]], offset + 1;
    }
    var c := Peek(str, offset);
    offset := offset + 1;
    if c == '.' || c == 'E' || c == 'e' {
      ok := false;
    } else if !IsSpace(c) && c != ',' && c != ']' && c != '}' {
      ok := true;
      if offset <= |str| {
        Step(str, offset - 1, 1);
      }
    } else {
      offset := offset - 1;
      var n := Stol(val);
      ok := n.Some?;
      if ok {
        number := Integral(n.value);
      }
    }
  }

  method ParseNextAt(str: string, start: nat) returns (ok: bool, value: Json, offset: nat)
    requires start <= |str|
    ensures Same(str, ParseNext(str[start..]), ok, value, offset)
    ensures ok ==> start <= offset
    decreases |str| - start, 2
  {
    offset := ConsumeWs(str, start);
    var c := Peek(str, offset);
    if c == '[' && offset < |str| {
      ok, value, offset := ParseArray(str, offset);
    } else if c == '{' && offset < |str| {
      ok, value, offset := ParseObject(str, offset);
    } else if c == '\"' && offset < |str| {
      var text;
      Step(str, offset, 1);
      ok, text, offset := ParseString(str, offset);
      value := String(text);
    } else if c == 't' || c == 'f' {
      ok, value, offset := ParseBoolAt(str, offset);
    } else if c == 'n' {
      ok, value, offset := ParseNullAt(str, offset);
    } else if IsNumberChar(c) {
      ok, value, offset := ParseNumber(str, offset);
    } else {
      ok, value := true, Null;
    }
  }

  method ParseBoolAt(str: string, start: nat) returns (ok: bool, value: Json, offset: nat)
    requires start <= |str|
    ensures Same(str, ParseBool(str[start..]), ok, value, offset)
    ensures ok ==> start <= offset
  {
    ok, value, offset := true, Null, start;
    if "true" <= str[start..] {
      Step(str, start, 4);
      value, offset := Boolean(true), start + 4;
    } else if "false" <= str[start..] {
      Step(str, start, 5);
      value, offset := Boolean(false), start + 5;
    }
  }

  method ParseNullAt(str: string, start: nat) returns (ok: bool, value: Json, offset: nat)
    requires start <= |str|
    ensures Same(str, ParseNull(str[start..]), ok, value, offset)
    ensures ok ==> start <= offset
  {
    ok, value, offset := true, Null, start;
    if "null" <= str[start..] {
      Step(str, start, 4);
      offset := start + 4;
    }
  }

  /** What the source's parse_array does on text that starts with a bracket. */
  ghost function ArrayOf(s: string): Parsed<Json>
    requires s != ""
  {
    var inner := SkipSpace(s[1..]);
    if At(inner) == ']' then Ok(Array([]), inner[1..]) else ParseItems(inner, [])
  }

  ghost function ObjectOf(s: string): Parsed<Json>
    requires s != ""
  {
    var inner := SkipSpace(s[1..]);
    if At(inner) == '}' then Ok(Object([]), inner[1..]) else ParseMembers(inner, [])
  }

  /** A value inside a container, and the space behind it. */
  method ParseElement(str: string, start: nat) returns (ok: bool, value: Json, offset: nat)
    requires start <= |str|
    ensures var r := ParseNext(str[start..]);
      && ok == r.Ok?
      && (ok ==> value == r.value && start <= offset <= |str| && str[offset..] == SkipSpace(r.rest))
    decreases |str| - start, 3
  {
    ok, value, offset := ParseNextAt(str, start);
    ok := ok && offset <= |str|;
    if ok {
      offset := ConsumeWs(str, offset);
    }
  }

  method ParseArray(str: string, start: nat) returns (ok: bool, value: Json, offset: nat)
    requires start < |str|
    ensures Same(str, ArrayOf(str[start..]), ok, value, offset)
    ensures ok ==> start < offset
    decreases |str| - start, 1
  {
    Step(str, start, 1);
    offset := ConsumeWs(str, start + 1);
    if Peek(str, offset) == ']' && offset < |str| {
      Step(str, offset, 1);
      return true, Array([]), offset + 1;
    }
    ghost var goal := ArrayOf(str[start..]);
    var items, turn := [], Again;
    while turn.Again?
      invariant start < offset <= |str|
      invariant turn.Again? ==> ParseItems(str[offset..], items) == goal
      invariant turn.Stop? ==> goal == Ok(Array(items), str[offset..])
      invariant turn.Broken? ==> goal == Fault
      decreases turn.Again?, |str| - offset
    {
      turn, items, offset := ItemTurn(str, offset, items);
    }
    ok, value := turn.Stop?, Array(items);
  }

  /** How one turn of a container loop ends. */
  datatype Turn = Again | Stop | Broken

  method ItemTurn(str: string, start: nat, done: seq<Json>) returns (turn: Turn, items: seq<Json>, offset: nat)
    requires start <= |str|
    ensures start <= offset <= |str|
    ensures turn.Again? ==> start < offset && ParseItems(str[start..], done) == ParseItems(str[offset..], items)
    ensures turn.Stop? ==> ParseItems(str[start..], done) == Ok(Array(items), str[offset..])
    ensures turn.Broken? ==> ParseItems(str[start..], done) == Fault
    decreases |str| - start, 4
  {
    var ok, item;
    ok, item, offset := ParseElement(str, start);
    if !ok {
      return Broken, done, start;
    }
    var c := Peek(str, offset);
    if offset < |str| {
      Step(str, offset, 1);
    }
    items := done + [item];
    if c == ',' {
      turn, offset := Again, offset + 1;
    } else if c == ']' {
      turn, offset := Stop, offset + 1;
    } else {
      turn, items := Stop, [];
    }
  }

  method ParseObject(str: string, start: nat) returns (ok: bool, value: Json, offset: nat)
    requires start < |str|
    ensures Same(str, ObjectOf(str[start..]), ok, value, offset)
    ensures ok ==> start < offset
    decreases |str| - start, 1
  {
    Step(str, start, 1);
    offset := ConsumeWs(str, start + 1);
    if Peek(str, offset) == '}' && offset < |str| {
      Step(str, offset, 1);
      return true, Object([]), offset + 1;
    }
    ghost var goal := ObjectOf(str[start..]);
    var members, turn := [], Again;
    while turn.Again?
      invariant start < offset <= |str|
      invariant turn.Again? ==> ParseMembers(str[offset..], members) == goal
      invariant turn.Stop? ==> goal == Ok(Object(members), str[offset..])
      invariant turn.Broken? ==> goal == Fault
      decreases turn.Again?, |str| - offset
    {
      turn, members, offset := MemberTurn(str, offset, members);
    }
    ok, value := turn.Stop?, Object(members);
  }

  method MemberTurn(str: string, start: nat, done: seq<Member>) returns (turn: Turn, members: seq<Member>, offset: nat)
    requires start <= |str|
    ensures start <= offset <= |str|
    ensures turn.Again? ==> start < offset && ParseMembers(str[start..], done) == ParseMembers(str[offset..], members)
    ensures turn.Stop? ==> ParseMembers(str[start..], done) == Ok(Object(members), str[offset..])
    ensures turn.Broken? ==> ParseMembers(str[start..], done) == Fault
    decreases |str| - start, 5
  {
    var key;
    turn, key, offset := KeyTurn(str, start, done);
    members := done;
    if turn.Again? {
      turn, members, offset := ValueTurn(str, offset, key, done);
    }
  }

  /** The key and the colon: Again when a value must follow. */
  method KeyTurn(str: string, start: nat, ghost done: seq<Member>) returns (turn: Turn, key: string, offset: nat)
    requires start <= |str|
    ensures start <= offset <= |str|
    ensures turn.Again? ==> start < offset && ParseMembers(str[start..], done) == ParseValue(key, str[offset..], done)
    ensures turn.Stop? ==> ParseMembers(str[start..], done) == Ok(Object(done), str[offset..])
    ensures turn.Broken? ==> ParseMembers(str[start..], done) == Fault
    decreases |str| - start, 4
  {
    var ok, parsed;
    ok, parsed, offset := ParseElement(str, start);
    if !ok {
      return Broken, "", start;
    }
    MembersUnfold(str[start..], done, parsed, str[offset..]);
    key := KeyText(parsed);
    if Peek(str, offset) != ':' {
      return Stop, key, offset;
    }
    Step(str, offset, 1);
    offset := ConsumeWs(str, offset + 1);
    turn := Again;
  }

  lemma MembersUnfold(s: string, done: seq<Member>, key: Json, colon: string)
    requires ParseNext(s).Ok? && ParseNext(s).value == key && SkipSpace(ParseNext(s).rest) == colon
    ensures ParseMembers(s, done) ==
      if At(colon) != ':' then Ok(Object(done), colon) else ParseValue(KeyText(key), SkipSpace(colon[1..]), done)
  {
  }

  method ValueTurn(str: string, start: nat, key: string, done: seq<Member>)
    returns (turn: Turn, members: seq<Member>, offset: nat)
    requires start <= |str|
    ensures start <= offset <= |str|
    ensures turn.Again? ==>
      start < offset && ParseValue(key, str[start..], done) == ParseMembers(str[offset..], members)
    ensures turn.Stop? ==> ParseValue(key, str[start..], done) == Ok(Object(members), str[offset..])
    ensures turn.Broken? ==> ParseValue(key, str[start..], done) == Fault
    decreases |str| - start, 4
  {
    var ok, value;
    ok, value, offset := ParseElement(str, start);
    if !ok {
      return Broken, done, start;
    }
    members := Put(done, key, value);
    ValueUnfolds(key, str[start..], done, value, str[offset..]);
    var c := Peek(str, offset);
    if offset < |str| {
      Step(str, offset, 1);
    }
    if c == ',' {
      turn, offset := Again, offset + 1;
    } else if c == '}' {
      turn, offset := Stop, offset + 1;
    } else {
      turn := Stop;
    }
  }

  lemma ValueUnfolds(key: string, s: string, done: seq<Member>, value: Json, after: string)
    requires ParseNext(s).Ok? && ParseNext(s).value == value && SkipSpace(ParseNext(s).rest) == after
    ensures ParseValue(key, s, done) ==
      var next := Put(done, key, value);
      if At(after) == ',' then ParseMembers(after[1..], next)
      else if At(after) == '}' then Ok(Object(next), after[1..])
      else Ok(Object(next), after)
  {
  }

  /** JSON::Load */
  method LoadText(str: string) returns (r: Option<Json>)
    ensures r == Load(str)
  {
    assert str[0..] == str;
    var ok, value, _ := ParseNextAt(str, 0);
    r := if ok then Some(value) else None;
  }
}
