/** The resumable HTTP response parser: a state machine over characters, fed by any number of parse calls. */
module Http {
  import opened Common

  datatype State =
    | StatusStart | VersionHt | VersionHtt | VersionHttp | VersionSlash
    | MajorStart | Major | MinorStart | Minor
    | StatusCodeStart | StatusCode | StatusTextStart | StatusText | StatusNewLine
    | HeaderLineStart | HeaderLws | HeaderName | SpaceBeforeHeaderValue | HeaderValue
    | ExpectingNewline2 | ExpectingNewline3 | Post
    | ChunkSize | ChunkExtensionName | ChunkExtensionValue | ChunkSizeNewLine
    | ChunkSizeNewLine2 | ChunkSizeNewLine3 | ChunkTrailerName | ChunkTrailerValue
    | ChunkDataNewLine1 | ChunkDataNewLine2 | ChunkData

  datatype Header = Header(name: string, value: string)

  /** The parser's fields and those of the response it fills. */
  datatype Machine = Machine(
    state: State, versionMajor: nat, versionMinor: nat, statusCode: nat, status: string, headers: seq<Header>,
    content: string, contentSize: nat, chunkSizeStr: string, chunkSize: nat, chunked: bool)

  /** Fault: an int overflows or a vector is asked to reserve more than it can; the source defines no result. */
  datatype Result = Completed | Incompleted | Error | Fault

  function Init(): Machine {
    Machine(StatusStart, 0, 0, 0, "", [], "", 0, "", 0, false)
  }

  // ---------- characters and numbers ----------

  predicate IsDigit(c: char) { '0' <= c <= '9' }
  predicate IsAlpha(c: char) { ('a' <= c <= 'z') || ('A' <= c <= 'Z') }
  predicate IsAlnum(c: char) { IsDigit(c) || IsAlpha(c) }
  predicate IsHex(c: char) { IsDigit(c) || ('a' <= c <= 'f') || ('A' <= c <= 'F') }

  /** Chars are signed bytes in the source: those from 128 on are negative. */
  predicate IsChar(c: char) { c as int < 128 }
  predicate IsControl(c: char) { c as int < 32 || c as int == 127 }

  predicate IsSpecial(c: char) {
    c in "()<>@,;:\\\"/[]?={} \t"
  }

  function DigitOf(c: char): nat
    requires IsDigit(c)
  {
    c as int - '0' as int
  }

  function HexOf(c: char): nat
    requires IsHex(c)
  {
    if IsDigit(c) then c as int - '0' as int
    else if 'a' <= c then c as int - 'a' as int + 10
    else c as int - 'A' as int + 10
  }

  function Lower(c: char): char {
    if 'A' <= c <= 'Z' then (c as int + 32) as char else c
  }

  /** strcasecmp(a, b) == 0 */
  predicate SameText(a: string, b: string) {
    |a| == |b| && forall i :: 0 <= i < |a| ==> Lower(a[i]) == Lower(b[i])
  }

  const WORD64: int := 0x1_0000_0000_0000_0000
  const LONG_MAX: int := 0x7FFF_FFFF_FFFF_FFFF
  const INT_MAX: int := 0x7FFF_FFFF

  function ReadDec(s: string, acc: nat): nat {
    if s == "" || !IsDigit(s[0]) then acc else ReadDec(s[1..], 10 * acc + DigitOf(s[0]))
  }

  /** The number that atoi looks for: blanks, a sign, digits. */
  function Atoi(s: string): int {
    if s != "" && (s[0] == ' ' || s[0] == '\t') then Atoi(s[1..])
    else if s != "" && s[0] == '-' then 0 - (ReadDec(s[1..], 0) as int)
    else if s != "" && s[0] == '+' then ReadDec(s[1..], 0)
    else ReadDec(s, 0)
  }

  function ReadHex(s: string, acc: nat): nat {
    if s == "" || !IsHex(s[0]) then acc else ReadHex(s[1..], 16 * acc + HexOf(s[0]))
  }

  /** strtol in base 16, on text of letters and digits: an optional 0x, then digits, cut off at LONG_MAX. */
  function Strtol16(s: string): nat {
    var prefixed := |s| >= 3 && s[0] == '0' && (s[1] == 'x' || s[1] == 'X') && IsHex(s[2]);
    var n := ReadHex(if prefixed then s[2..] else s, 0);
    if n > LONG_MAX then LONG_MAX else n
  }

  // ---------- one character ----------

  datatype Outcome = Outcome(result: Result, machine: Machine)

  function More(m: Machine): Outcome { Outcome(Incompleted, m) }
  function Fail(m: Machine): Outcome { Outcome(Error, m) }

  function Expect(m: Machine, ok: bool, next: State): Outcome {
    if ok then More(m.(state := next)) else Fail(m)
  }

  function PushName(hs: seq<Header>, c: char): seq<Header> {
    if hs == [] then hs else hs[|hs| - 1 := hs[|hs| - 1].(name := hs[|hs| - 1].name + [c])]
  }

  function PushValue(hs: seq<Header>, c: char): seq<Header> {
    if hs == [] then hs else hs[|hs| - 1 := hs[|hs| - 1].(value := hs[|hs| - 1].value + [c])]
  }

  /** A content length fits an int, and is not negative: else it would ask for nearly 2^64 bytes. */
  predicate LengthFits(h: Header) {
    SameText(h.name, "Content-Length") ==> 0 <= Atoi(h.value) <= INT_MAX
  }

  /** A finished header line: the length and the encoding are noted. */
  function Noted(m: Machine, h: Header): Machine
    requires LengthFits(h)
  {
    if SameText(h.name, "Content-Length") then m.(contentSize := Atoi(h.value))
    else if SameText(h.name, "Transfer-Encoding") && SameText(h.value, "chunked") then m.(chunked := true)
    else m
  }

  /** The next value of a version number: `v * 10 + c - '0'` on ints, from left to right. */
  function NextVersion(v: nat, c: char): (r: Option<nat>)
    requires IsDigit(c)
  {
    if 10 * v + c as int > INT_MAX then None else Some(10 * v + DigitOf(c))
  }

  function StepStatus(m: Machine, c: char): Outcome {
    match m.state
    case StatusStart => Expect(m, c == 'H', VersionHt)
    case VersionHt => Expect(m, c == 'T', VersionHtt)
    case VersionHtt => Expect(m, c == 'T', VersionHttp)
    case VersionHttp => Expect(m, c == 'P', VersionSlash)
    case VersionSlash =>
      if c == '/' then More(m.(versionMajor := 0, versionMinor := 0, state := MajorStart)) else Fail(m)
    case MajorStart =>
      if IsDigit(c) then More(m.(versionMajor := DigitOf(c), state := Major)) else Fail(m)
    case Major =>
      if c == '.' then More(m.(state := MinorStart))
      else if IsDigit(c) then
        match NextVersion(m.versionMajor, c)
        case None => Outcome(Fault, m)
        case Some(v) => More(m.(versionMajor := v))
      else Fail(m)
    case MinorStart =>
      if IsDigit(c) then More(m.(versionMinor := DigitOf(c), state := Minor)) else Fail(m)
    case Minor =>
      if c == ' ' then More(m.(state := StatusCodeStart, statusCode := 0))
      else if IsDigit(c) then
        match NextVersion(m.versionMinor, c)
        case None => Outcome(Fault, m)
        case Some(v) => More(m.(versionMinor := v))
      else Fail(m)
    case StatusCodeStart =>
      if IsDigit(c) then More(m.(statusCode := DigitOf(c), state := StatusCode)) else Fail(m)
    case StatusCode =>
      if IsDigit(c) then More(m.(statusCode := (10 * m.statusCode + DigitOf(c)) % 0x1_0000_0000))
      else if m.statusCode < 100 || m.statusCode > 999 then Fail(m)
      else Expect(m, c == ' ', StatusTextStart)
    case StatusTextStart =>
      if IsChar(c) then More(m.(status := m.status + [c], state := StatusText)) else Fail(m)
    case StatusText =>
      if c == '\r' then More(m.(state := StatusNewLine))
      else if IsChar(c) then More(m.(status := m.status + [c]))
      else Fail(m)
    case _ => Expect(m, c == '\n', HeaderLineStart)
  }

  predicate NameChar(c: char) {
    IsChar(c) && !IsControl(c) && !IsSpecial(c)
  }

  function StepHeader(m: Machine, c: char): Outcome {
    match m.state
    case HeaderLineStart =>
      if c == '\r' then More(m.(state := ExpectingNewline3))
      else if m.headers != [] && (c == ' ' || c == '\t') then More(m.(state := HeaderLws))
      else if !NameChar(c) then Fail(m)
      else More(m.(headers := m.headers + [Header([c], "")], state := HeaderName))
    case HeaderLws =>
      if c == '\r' then More(m.(state := ExpectingNewline2))
      else if c == ' ' || c == '\t' then More(m)
      else if IsControl(c) then Fail(m)
      else More(m.(headers := PushValue(m.headers, c), state := HeaderValue))
    case HeaderName =>
      if c == ':' then More(m.(state := SpaceBeforeHeaderValue))
      else if !NameChar(c) then Fail(m)
      else More(m.(headers := PushName(m.headers, c)))
    case SpaceBeforeHeaderValue => Expect(m, c == ' ', HeaderValue)
    case HeaderValue =>
      if c == '\r' then
        if m.headers == [] then More(m.(state := ExpectingNewline2))
        else
          var h := m.headers[|m.headers| - 1];
          if LengthFits(h) then More(Noted(m, h).(state := ExpectingNewline2)) else Outcome(Fault, m)
      else if IsControl(c) then Fail(m)
      else More(m.(headers := PushValue(m.headers, c)))
    case ExpectingNewline2 => Expect(m, c == '\n', HeaderLineStart)
    case _ =>
      if m.chunked then More(m.(state := ChunkSize))
      else if m.contentSize == 0 then Outcome(if c == '\n' then Completed else Error, m)
      else More(m.(state := Post))
  }

  function StepBody(m: Machine, c: char): Outcome {
    match m.state
    case Post =>
      var left := if m.contentSize == 0 then WORD64 - 1 else m.contentSize - 1;
      Outcome(if left == 0 then Completed else Incompleted, m.(contentSize := left, content := m.content + [c]))
    case ChunkSize =>
      if IsAlnum(c) then More(m.(chunkSizeStr := m.chunkSizeStr + [c]))
      else if c == ';' then More(m.(state := ChunkExtensionName))
      else Expect(m, c == '\r', ChunkSizeNewLine)
    case ChunkExtensionName =>
      if IsAlnum(c) || c == ' ' then More(m)
      else if c == '=' then More(m.(state := ChunkExtensionValue))
      else Expect(m, c == '\r', ChunkSizeNewLine)
    case ChunkExtensionValue =>
      if IsAlnum(c) || c == ' ' then More(m) else Expect(m, c == '\r', ChunkSizeNewLine)
    case ChunkSizeNewLine =>
      if c == '\n' then
        var size := Strtol16(m.chunkSizeStr);
        if |m.content| + size > LONG_MAX then Outcome(Fault, m)
        else More(m.(chunkSize := size, chunkSizeStr := "", state := if size == 0 then ChunkSizeNewLine2
            else ChunkData))
      else Fail(m)
    case ChunkSizeNewLine2 =>
      if c == '\r' then More(m.(state := ChunkSizeNewLine3)) else Expect(m, IsAlpha(c), ChunkTrailerName)
    case ChunkSizeNewLine3 => Outcome(if c == '\n' then Completed else Error, m)
    case ChunkTrailerName =>
      if IsAlnum(c) then More(m) else Expect(m, c == ':', ChunkTrailerValue)
    case ChunkTrailerValue =>
      if IsAlnum(c) || c == ' ' then More(m) else Expect(m, c == '\r', ChunkSizeNewLine)
    case ChunkData =>
      var left := if m.chunkSize == 0 then WORD64 - 1 else m.chunkSize - 1;
      More(m.(chunkSize := left, content := m.content + [c],
              state := if left == 0 then ChunkDataNewLine1 else ChunkData))
    case ChunkDataNewLine1 => Expect(m, c == '\r', ChunkDataNewLine2)
    case _ => Expect(m, c == '\n', ChunkSize)
  }

  predicate InStatus(s: State) {
    match s
    case StatusStart | VersionHt | VersionHtt | VersionHttp | VersionSlash | MajorStart | Major | MinorStart | Minor
       | StatusCodeStart | StatusCode | StatusTextStart | StatusText | StatusNewLine => true
    case _ => false
  }

  predicate InHeader(s: State) {
    match s
    case HeaderLineStart | HeaderLws | HeaderName | SpaceBeforeHeaderValue | HeaderValue | ExpectingNewline2
       | ExpectingNewline3 => true
    case _ => false
  }

  function Step(m: Machine, c: char): Outcome {
    if InStatus(m.state) then StepStatus(m, c)
    else if InHeader(m.state) then StepHeader(m, c)
    else StepBody(m, c)
  }

  // ---------- many characters ----------

  function Consume(m: Machine, s: string): Outcome
    decreases |s|
  {
    if s == "" then More(m)
    else
      var o := Step(m, s[0]);
      if o.result == Incompleted then Consume(o.machine, s[1..]) else o
  }

  /** Call parse on one piece after the other until it no longer says that it needs more. */
  function Drive(m: Machine, pieces: seq<string>): Outcome
    decreases |pieces|
  {
    if pieces == [] then More(m)
    else
      var o := Consume(m, pieces[0]);
      if o.result == Incompleted then Drive(o.machine, pieces[1..]) else o
  }

  function Concat(pieces: seq<string>): string {
    if pieces == [] then "" else pieces[0] + Concat(pieces[1..])
  }

  lemma {:induction false} ConsumeAppend(m: Machine, a: string, b: string)
    ensures Consume(m, a + b) ==
      var o := Consume(m, a); if o.result == Incompleted then Consume(o.machine, b) else o
    decreases |a|
  {
    if a == "" {
      assert a + b == b;
    } else {
      assert (a + b)[0] == a[0] && (a + b)[1..] == a[1..] + b;
      var o := Step(m, a[0]);
      if o.result == Incompleted {
        ConsumeAppend(o.machine, a[1..], b);
      }
    }
  }

  /** How the bytes are split across parse calls makes no difference. */
  lemma {:induction false} SplitIndependent(m: Machine, pieces: seq<string>)
    ensures Drive(m, pieces) == Consume(m, Concat(pieces))
    decreases |pieces|
  {
    if pieces != [] {
      ConsumeAppend(m, pieces[0], Concat(pieces[1..]));
      var o := Consume(m, pieces[0]);
      if o.result == Incompleted {
        SplitIndependent(o.machine, pieces[1..]);
      }
    }
  }

  class HttpResponseParser {
    /** The parser's fields, with the response it fills. */
    var machine: Machine

    constructor ()
      ensures machine == Init()
    {
      machine := Init();
    }

    method Parse(input: string) returns (result: Result)
      modifies this
      ensures Outcome(result, machine) == Consume(old(machine), input)
    {
      var i := 0;
      while i < |input|
        invariant i <= |input|
        invariant Consume(machine, input[i..]) == Consume(old(machine), input)
      {
        var o := Step(machine, input[i]);
        assert input[i..][0] == input[i] && input[i..][1..] == input[i + 1..];
        machine := o.machine;
        i := i + 1;
        if o.result != Incompleted {
          return o.result;
        }
      }
      result := Incompleted;
    }
  }

  /** The caller's loop over the pieces of a response as they arrive. */
  method ParsePieces(pieces: seq<string>) returns (result: Result, final: Machine)
    ensures Outcome(result, final) == Consume(Init(), Concat(pieces))
  {
    var parser := new HttpResponseParser();
    SplitIndependent(Init(), pieces);
    for i := 0 to |pieces|
      invariant Drive(parser.machine, pieces[i..]) == Drive(Init(), pieces)
    {
      assert pieces[i..][1..] == pieces[i + 1..];
      result := parser.Parse(pieces[i]);
      if result != Incompleted {
        return result, parser.machine;
      }
    }
    return Incompleted, parser.machine;
  }
}
