/** Loading what was dumped gives the same tree, exactly when its keys are in escaped form and it is not a bare
    integer. */
module JsonRoundTrip {
  import opened Common
  import opened Json

  // ---------- the trees in question ----------

  /** Integers fit a long, and the members of an object are those of a map in key order. */
  predicate Wf(t: Json)
    decreases t
  {
    match t
    case Object(ms) => Sorted(ms) && WfMembers(ms)
    case Array(items) => WfItems(items)
    case Integral(n) => IsLong(n)
    case _ => true
  }

  predicate WfMembers(ms: seq<Member>)
    decreases ms
  {
    ms != [] ==> Wf(ms[0].value) && WfMembers(ms[1..])
  }

  predicate WfItems(items: seq<Json>)
    decreases items
  {
    items != [] ==> Wf(items[0]) && WfItems(items[1..])
  }

  /** All keys, at any depth, are as escaping writes them. */
  predicate KeysEscaped(t: Json)
    decreases t
  {
    match t
    case Object(ms) => MemberKeysEscaped(ms)
    case Array(items) => ItemKeysEscaped(items)
    case _ => true
  }

  predicate MemberKeysEscaped(ms: seq<Member>)
    decreases ms
  {
    ms != [] ==> IsEscaped(ms[0].key) && KeysEscaped(ms[0].value) && MemberKeysEscaped(ms[1..])
  }

  predicate ItemKeysEscaped(items: seq<Json>)
    decreases items
  {
    items != [] ==> KeysEscaped(items[0]) && ItemKeysEscaped(items[1..])
  }

  predicate Blank(s: string) {
    forall i :: 0 <= i < |s| ==> IsSpace(s[i])
  }

  // ---------- scanning ----------

  lemma {:induction false} SkipBlank(ws: string, s: string)
    requires Blank(ws)
    ensures SkipSpace(ws + s) == SkipSpace(s)
  {
    if ws == "" {
      assert ws + s == s;
    } else {
      assert (ws + s)[1..] == ws[1..] + s;
      SkipBlank(ws[1..], s);
    }
  }

  lemma {:induction false} SkipTwice(s: string)
    ensures SkipSpace(SkipSpace(s)) == SkipSpace(s)
  {
    if s != "" && IsSpace(s[0]) {
      SkipTwice(s[1..]);
    }
  }

  lemma {:induction false} PadBlank(depth: int, tab: string)
    requires Blank(tab)
    ensures Blank(Pad(depth, tab)) && Blank(Erase2(Pad(depth, tab)))
    decreases depth
  {
    if depth > 0 {
      PadBlank(depth - 1, tab);
    }
  }

  lemma {:induction false} StringScans(k: string, rest: string, val: string)
    requires IsEscaped(k)
    ensures ReadString(k + ("\"" + rest), val) == Ok(val + Unescaped(k), rest)
  {
    var s := k + ("\"" + rest);
    if k == "" {
      assert s == "\"" + rest;
      assert val + "" == val;
    } else if k[0] == '\\' {
      assert s[2..] == k[2..] + ("\"" + rest);
      StringScans(k[2..], rest, val + [Unescape(k[1])]);
      Assoc(val, [Unescape(k[1])], Unescaped(k[2..]));
    } else {
      assert s[1..] == k[1..] + ("\"" + rest);
      StringScans(k[1..], rest, val + [k[0]]);
      Assoc(val, [k[0]], Unescaped(k[1..]));
    }
  }

  /** The printer follows every integer inside a container with one of these. */
  predicate Terminated(rest: string) {
    rest != "" && (IsSpace(rest[0]) || rest[0] == ',' || rest[0] == ']' || rest[0] == '}')
  }

  lemma {:induction false} NumberScans(s: string, rest: string, val: string, n: int)
    requires (forall i :: 0 <= i < |s| ==> IsNumberChar(s[i])) && Terminated(rest) && Stol(val + s) == Some(n)
    ensures ReadNumber(s + rest, val) == Ok(Integral(n), rest)
  {
    if s == "" {
      assert s + rest == rest && val + s == val;
    } else {
      assert (s + rest)[1..] == s[1..] + rest;
      assert (val + [s[0]]) + s[1..] == val + s;
      NumberScans(s[1..], rest, val + [s[0]], n);
    }
  }

  // ---------- printing, then parsing ----------

  /** A printed value starts with no space and no closing bracket. */
  lemma DumpStarts(t: Json, depth: int, tab: string)
    requires Wf(t)
    ensures var s := Dump(t, depth, tab); s != "" && !IsSpace(s[0]) && s[0] != ']' && s[0] != '}'
  {
    if t.Integral? {
      DecimalReadsBack(t.value);
    }
  }

  lemma StringParses(k: string, rest: string)
    requires IsEscaped(k)
    ensures ParseNext("\"" + (k + ("\"" + rest))) == Ok(String(Unescaped(k)), rest)
  {
    var s := "\"" + (k + ("\"" + rest));
    assert s[1..] == k + ("\"" + rest);
    StringScans(k, rest, "");
    assert "" + Unescaped(k) == Unescaped(k);
  }

  lemma SpaceBefore(ws: string, s: string)
    requires Blank(ws)
    ensures ParseNext(ws + s) == ParseNext(s)
  {
    SkipBlank(ws, s);
  }

  lemma SpaceSkipped(s: string)
    ensures ParseNext(SkipSpace(s)) == ParseNext(s)
  {
    SkipTwice(s);
  }

  /** A printed value followed by anything parses back, and the parser stops just behind it. */
  lemma {:induction false} ValueParses(t: Json, depth: int, tab: string, rest: string)
    requires Wf(t) && KeysEscaped(t) && Blank(tab) && (t.Integral? ==> Terminated(rest))
    ensures ParseNext(Dump(t, depth, tab) + rest) == Ok(t, rest)
    decreases t
  {
    match t
    case Null =>
      WordsParse(rest);
    case Boolean(b) =>
      WordsParse(rest);
    case Integral(n) =>
      IntegerParses(n, rest);
    case String(text) =>
      EscapeIsEscaped(text);
      StringParses(Escape(text), rest);
      Regroup("\"", Escape(text), "\"", rest);
    case Array(items) =>
      ArrayParses(items, depth, tab, rest);
      Regroup("[", DumpItems(items, depth, tab), "]", rest);
    case Object(ms) =>
      var close := "\n" + Erase2(Pad(depth, tab)) + "}";
      ObjectParses(ms, depth, tab, close, rest);
      Regroup("{\n", DumpMembers(ms, depth, tab), close, rest);
  }

  lemma Regroup(a: string, b: string, c: string, d: string)
    ensures ((a + b) + c) + d == a + (b + (c + d))
  {
  }

  lemma WordsParse(rest: string)
    ensures ParseNext("null" + rest) == Ok(Null, rest)
    ensures ParseNext("true" + rest) == Ok(Boolean(true), rest)
    ensures ParseNext("false" + rest) == Ok(Boolean(false), rest)
  {
    assert ("null" + rest)[4..] == rest && ("true" + rest)[4..] == rest && ("false" + rest)[5..] == rest;
    assert ("false" + rest)[0] == 'f';
  }

  lemma IntegerParses(n: int, rest: string)
    requires IsLong(n) && Terminated(rest)
    ensures ParseNext(ToDecimal(n) + rest) == Ok(Integral(n), rest)
  {
    DecimalReadsBack(n);
    assert "" + ToDecimal(n) == ToDecimal(n);
    NumberScans(ToDecimal(n), rest, "", n);
  }

  lemma {:induction false} ArrayParses(items: seq<Json>, depth: int, tab: string, rest: string)
    requires WfItems(items) && ItemKeysEscaped(items) && Blank(tab)
    ensures ParseNext("[" + (DumpItems(items, depth, tab) + ("]" + rest))) == Ok(Array(items), rest)
    decreases items, 1
  {
    var inner := DumpItems(items, depth, tab) + ("]" + rest);
    assert ("[" + inner)[1..] == inner;
    if items == [] {
      assert inner == "]" + rest;
    } else {
      DumpStarts(items[0], depth + 1, tab);
      assert inner[0] == Dump(items[0], depth + 1, tab)[0];
      ItemsParse(items, depth, tab, [], rest);
      assert [] + items == items;
    }
  }

  lemma {:induction false} ItemsParse(items: seq<Json>, depth: int, tab: string, done: seq<Json>, rest: string)
    requires items != [] && WfItems(items) && ItemKeysEscaped(items) && Blank(tab)
    ensures ParseItems(DumpItems(items, depth, tab) + ("]" + rest), done) == Ok(Array(done + items), rest)
    decreases items, 0
  {
    var v, text := items[0], DumpItems(items, depth, tab) + ("]" + rest);
    if |items| == 1 {
      assert text == Dump(v, depth + 1, tab) + ("]" + rest) by { ItemsShape(items, depth, tab, "]" + rest); }
      ValueParses(v, depth + 1, tab, "]" + rest);
      LastItem(text, v, rest, done);
      OnlyOne(items);
    } else {
      var others := DumpItems(items[1..], depth, tab) + ("]" + rest);
      assert text == Dump(v, depth + 1, tab) + (", " + others) by { ItemsShape(items, depth, tab, "]" + rest); }
      ValueParses(v, depth + 1, tab, ", " + others);
      NextItem(text, v, others, done);
      ItemsParse(items[1..], depth, tab, done + [v], rest);
      Regrouped(done, items);
    }
  }

  lemma OnlyOne<A>(s: seq<A>)
    requires |s| == 1
    ensures s == [s[0]]
  {
  }

  lemma LastItem(s: string, v: Json, rest: string, done: seq<Json>)
    requires ParseNext(s) == Ok(v, "]" + rest)
    ensures ParseItems(s, done) == Ok(Array(done + [v]), rest)
  {
    assert ("]" + rest)[1..] == rest;
  }

  lemma ItemsShape(items: seq<Json>, depth: int, tab: string, rest: string)
    requires items != []
    ensures DumpItems(items, depth, tab) + rest == Dump(items[0], depth + 1, tab)
      + (if |items| == 1 then rest else ", " + (DumpItems(items[1..], depth, tab) + rest))
  {
    var first := Dump(items[0], depth + 1, tab);
    if |items| == 1 {
      assert first + "" == first;
    } else {
      Assoc(first, ", " + DumpItems(items[1..], depth, tab), rest);
      Assoc(", ", DumpItems(items[1..], depth, tab), rest);
    }
  }

  lemma NextItem(s: string, v: Json, others: string, done: seq<Json>)
    requires ParseNext(s) == Ok(v, ", " + others)
    ensures ParseItems(s, done) == ParseItems(others, done + [v])
  {
    assert (", " + others)[1..] == " " + others;
    SpaceBefore(" ", others);
  }

  lemma {:induction false} ObjectParses(ms: seq<Member>, depth: int, tab: string, close: string, rest: string)
    requires Sorted(ms) && WfMembers(ms) && MemberKeysEscaped(ms) && Blank(tab)
    requires close == "\n" + Erase2(Pad(depth, tab)) + "}"
    ensures ParseNext("{\n" + (DumpMembers(ms, depth, tab) + (close + rest))) == Ok(Object(ms), rest)
    decreases ms, 1
  {
    var inner := DumpMembers(ms, depth, tab) + (close + rest);
    if ms == [] {
      assert inner == close + rest;
      Closing(depth, tab, close, rest);
      EmptyObject(inner, rest);
    } else {
      MembersParse(ms, depth, tab, close, [], rest);
      MembersStart(ms, depth, tab, close + rest);
      FullObject(inner);
      assert [] + ms == ms;
    }
  }

  lemma EmptyObject(inner: string, rest: string)
    requires SkipSpace(inner) == "}" + rest
    ensures ParseNext("{\n" + inner) == Ok(Object([]), rest)
  {
    assert ("{\n" + inner)[1..] == "\n" + inner;
    SkipBlank("\n", inner);
    assert ("}" + rest)[1..] == rest;
  }

  lemma FullObject(inner: string)
    requires At(SkipSpace(inner)) == '\"'
    ensures ParseNext("{\n" + inner) == ParseMembers(inner, [])
  {
    assert ("{\n" + inner)[1..] == "\n" + inner;
    SkipBlank("\n", inner);
    MembersSkipped(inner, []);
  }

  lemma Closing(depth: int, tab: string, close: string, rest: string)
    requires Blank(tab) && close == "\n" + Erase2(Pad(depth, tab)) + "}"
    ensures SkipSpace(close + rest) == "}" + rest && Terminated(close + rest)
  {
    PadBlank(depth, tab);
    var ws := "\n" + Erase2(Pad(depth, tab));
    SkipBlank(ws, "}" + rest);
    Assoc(ws, "}", rest);
  }

  lemma MembersStart(ms: seq<Member>, depth: int, tab: string, rest: string)
    requires ms != [] && Blank(tab)
    ensures At(SkipSpace(DumpMembers(ms, depth, tab) + rest)) == '\"'
  {
    PadBlank(depth, tab);
    var pad, m := Pad(depth, tab), ms[0];
    var body := "\"" + (m.key + ("\" : " + Dump(m.value, depth + 1, tab)));
    var more := if |ms| == 1 then "" else ",\n" + DumpMembers(ms[1..], depth, tab);
    assert DumpMembers(ms, depth, tab) == DumpMember(m, depth, tab) + more;
    Regroup(pad, body, more, rest);
    SkipBlank(pad, body + (more + rest));
  }

  lemma MembersSkipped(s: string, done: seq<Member>)
    ensures ParseMembers(SkipSpace(s), done) == ParseMembers(s, done)
  {
    SpaceSkipped(s);
  }

  /** The rest of the loop body once key and colon are read. */
  lemma KeyParses(m: Member, depth: int, tab: string, after: string, done: seq<Member>)
    requires IsEscaped(m.key) && Blank(tab)
    ensures ParseMembers(DumpMember(m, depth, tab) + after, done)
      == ParseValue(m.key, SkipSpace(Dump(m.value, depth + 1, tab) + after), done)
  {
    PadBlank(depth, tab);
    var v := Dump(m.value, depth + 1, tab) + after;
    var quoted := "\"" + (m.key + ("\"" + (" : " + v)));
    MemberShape(m, depth, tab, after);
    SpaceBefore(Pad(depth, tab), quoted);
    StringParses(m.key, " : " + v);
    EscapeUnescaped(m.key);
    ColonSkips(v);
  }

  lemma MemberShape(m: Member, depth: int, tab: string, after: string)
    ensures DumpMember(m, depth, tab) + after
      == Pad(depth, tab) + ("\"" + (m.key + ("\"" + (" : " + (Dump(m.value, depth + 1, tab) + after)))))
  {
    var d := Dump(m.value, depth + 1, tab);
    assert ("\" : " + d) + after == "\"" + (" : " + (d + after));
    Assoc(m.key, "\" : " + d, after);
    Assoc("\"", m.key + ("\" : " + d), after);
    Assoc(Pad(depth, tab), "\"" + (m.key + ("\" : " + d)), after);
  }

  lemma ColonSkips(v: string)
    ensures SkipSpace(" : " + v) == ": " + v && SkipSpace((": " + v)[1..]) == SkipSpace(v)
  {
    assert " : " + v == " " + (": " + v);
    SkipBlank(" ", ": " + v);
    assert (": " + v)[1..] == " " + v;
    SkipBlank(" ", v);
  }

  lemma {:induction false} MembersParse(ms: seq<Member>, depth: int, tab: string, close: string, done: seq<Member>,
      rest: string)
    requires ms != [] && Sorted(done + ms) && WfMembers(ms) && MemberKeysEscaped(ms) && Blank(tab)
    requires close == "\n" + Erase2(Pad(depth, tab)) + "}"
    ensures ParseMembers(DumpMembers(ms, depth, tab) + (close + rest), done) == Ok(Object(done + ms), rest)
    decreases ms, 0
  {
    var m := ms[0];
    var more := DumpMembers(ms[1..], depth, tab) + (close + rest);
    var after := if |ms| == 1 then close + rest else "," + ("\n" + more);
    MembersShape(ms, depth, tab, close + rest);
    Closing(depth, tab, close, rest);
    ValueParses(m.value, depth + 1, tab, after);
    PutNext(done, ms);
    if |ms| == 1 {
      assert ms == [m];
      OneMember(m, depth, tab, after, done);
      LastMember(m.key, Dump(m.value, depth + 1, tab) + after, m.value, after, done, rest);
    } else {
      OneMember(m, depth, tab, after, done);
      NextMember(m.key, Dump(m.value, depth + 1, tab) + after, m.value, more, done);
      Regrouped(done, ms);
      MembersParse(ms[1..], depth, tab, close, done + [m], rest);
    }
  }

  lemma Regrouped<A>(done: seq<A>, ms: seq<A>)
    requires ms != []
    ensures (done + [ms[0]]) + ms[1..] == done + ms
  {
  }

  lemma OneMember(m: Member, depth: int, tab: string, after: string, done: seq<Member>)
    requires IsEscaped(m.key) && Blank(tab)
    ensures ParseMembers(DumpMember(m, depth, tab) + after, done)
      == ParseValue(m.key, Dump(m.value, depth + 1, tab) + after, done)
  {
    KeyParses(m, depth, tab, after, done);
    SpaceSkipped(Dump(m.value, depth + 1, tab) + after);
  }

  lemma MembersShape(ms: seq<Member>, depth: int, tab: string, rest: string)
    requires ms != []
    ensures DumpMembers(ms, depth, tab) + rest == DumpMember(ms[0], depth, tab)
      + (if |ms| == 1 then rest else "," + ("\n" + (DumpMembers(ms[1..], depth, tab) + rest)))
  {
    var m := DumpMember(ms[0], depth, tab);
    if |ms| == 1 {
      assert m + "" == m;
    } else {
      var more := DumpMembers(ms[1..], depth, tab);
      Assoc(m, ",\n" + more, rest);
      assert (",\n" + more) + rest == "," + ("\n" + (more + rest));
    }
  }

  lemma PutNext(done: seq<Member>, ms: seq<Member>)
    requires ms != [] && Sorted(done + ms)
    ensures Put(done, ms[0].key, ms[0].value) == done + [ms[0]]
  {
    forall i | 0 <= i < |done|
      ensures Less(done[i].key, ms[0].key)
    {
      assert (done + ms)[i] == done[i] && (done + ms)[|done|] == ms[0];
    }
    PutLast(done, ms[0].key, ms[0].value);
  }

  lemma LastMember(key: string, s: string, v: Json, after: string, done: seq<Member>, rest: string)
    requires ParseNext(s) == Ok(v, after) && SkipSpace(after) == "}" + rest
    ensures ParseValue(key, s, done) == Ok(Object(Put(done, key, v)), rest)
  {
    assert ("}" + rest)[1..] == rest;
  }

  lemma NextMember(key: string, s: string, v: Json, more: string, done: seq<Member>)
    requires ParseNext(s) == Ok(v, "," + ("\n" + more))
    ensures ParseValue(key, s, done) == ParseMembers(more, Put(done, key, v))
  {
    assert ("," + ("\n" + more))[1..] == "\n" + more;
    SpaceBefore("\n", more);
  }

  // ---------- what parsing can give ----------

  lemma {:induction false} PutEscaped(ms: seq<Member>, k: string, v: Json)
    requires MemberKeysEscaped(ms) && IsEscaped(k) && KeysEscaped(v)
    ensures MemberKeysEscaped(Put(ms, k, v))
    decreases |ms|
  {
    var r := Put(ms, k, v);
    if ms == [] {
      assert r[1..] == [];
    } else if k == ms[0].key {
      assert r[1..] == ms[1..];
    } else if Less(k, ms[0].key) {
      assert r[1..] == ms;
    } else {
      PutEscaped(ms[1..], k, v);
      assert r[1..] == Put(ms[1..], k, v);
    }
  }

  lemma {:induction false} ItemsEscapedSnoc(items: seq<Json>, v: Json)
    requires ItemKeysEscaped(items) && KeysEscaped(v)
    ensures ItemKeysEscaped(items + [v])
    decreases |items|
  {
    if items == [] {
      assert (items + [v])[1..] == [];
    } else {
      ItemsEscapedSnoc(items[1..], v);
      assert (items + [v])[1..] == items[1..] + [v];
    }
  }

  ghost predicate EscapedResult(r: Parsed<Json>) {
    !r.Fault? ==> KeysEscaped(r.value)
  }

  lemma {:induction false} NumbersHaveNoKeys(s: string, val: string)
    ensures EscapedResult(ReadNumber(s, val))
    decreases |s|
  {
    if s != "" && IsNumberChar(s[0]) {
      NumbersHaveNoKeys(s[1..], val + [s[0]]);
    }
  }

  lemma KeyTextEscaped(key: Json)
    ensures IsEscaped(KeyText(key))
  {
    if key.String? {
      EscapeIsEscaped(key.text);
    }
  }

  /** Whatever the text, every key of the tree the parser builds is in escaped form. */
  lemma {:induction false} ParsedKeysAreEscaped(text: string)
    ensures EscapedResult(ParseNext(text))
    decreases |text|, 0
  {
    var s := SkipSpace(text);
    if At(s) == '[' {
      ParsedItemsEscaped(SkipSpace(s[1..]), []);
    } else if At(s) == '{' {
      ParsedMembersEscaped(SkipSpace(s[1..]), []);
    } else if IsNumberChar(At(s)) {
      NumbersHaveNoKeys(s, "");
    }
  }

  lemma {:induction false} ParsedItemsEscaped(s: string, done: seq<Json>)
    requires ItemKeysEscaped(done)
    ensures EscapedResult(ParseItems(s, done))
    decreases |s|, 1
  {
    ParsedKeysAreEscaped(s);
    var r := ParseNext(s);
    if r.Ok? {
      ItemsEscapedSnoc(done, r.value);
      var after := SkipSpace(r.rest);
      if At(after) == ',' {
        ParsedItemsEscaped(after[1..], done + [r.value]);
      }
    }
  }

  lemma {:induction false} ParsedMembersEscaped(s: string, done: seq<Member>)
    requires MemberKeysEscaped(done)
    ensures EscapedResult(ParseMembers(s, done))
    decreases |s|, 1
  {
    var r := ParseNext(s);
    if r.Ok? {
      var colon := SkipSpace(r.rest);
      if At(colon) == ':' {
        KeyTextEscaped(r.value);
        ParsedValueEscaped(KeyText(r.value), SkipSpace(colon[1..]), done);
      }
    }
  }

  lemma {:induction false} ParsedValueEscaped(key: string, s: string, done: seq<Member>)
    requires MemberKeysEscaped(done) && IsEscaped(key)
    ensures EscapedResult(ParseValue(key, s, done))
    decreases |s|, 1
  {
    ParsedKeysAreEscaped(s);
    var r := ParseNext(s);
    if r.Ok? {
      PutEscaped(done, key, r.value);
      var after := SkipSpace(r.rest);
      if At(after) == ',' {
        ParsedMembersEscaped(after[1..], Put(done, key, r.value));
      }
    }
  }

  lemma {:induction false} NumberRunsOut(s: string, val: string)
    requires forall i :: 0 <= i < |s| ==> IsNumberChar(s[i])
    ensures ReadNumber(s, val) == Past(Null)
  {
    if s != "" {
      NumberRunsOut(s[1..], val + [s[0]]);
    }
  }

  /** A bare integer loads as null: the parser wants a separator behind a number. */
  lemma BareIntegerIsLost(n: int, depth: int, tab: string)
    requires IsLong(n)
    ensures Load(Dump(Integral(n), depth, tab)) == Some(Null)
  {
    DecimalReadsBack(n);
    NumberRunsOut(ToDecimal(n), "");
  }

  /** Dump and load give back the tree exactly when all keys are in escaped form and the tree is not a bare integer. */
  lemma LoadOfDump(t: Json, depth: int, tab: string)
    requires Wf(t) && Blank(tab)
    ensures Load(Dump(t, depth, tab)) == Some(t) <==> KeysEscaped(t) && !t.Integral?
  {
    var s := Dump(t, depth, tab);
    if t.Integral? {
      BareIntegerIsLost(t.value, depth, tab);
    } else if KeysEscaped(t) {
      ValueParses(t, depth, tab, "");
      assert s + "" == s;
    } else {
      ParsedKeysAreEscaped(s);
    }
  }
}
