/** Responses as they are written on the wire, after sections 3 and 4.1 of RFC 7230, and what the parser makes of them.
    Not covered: folded header lines, a chunked encoding announced in a list of encodings, chunks above LONG_MAX, and
    responses that announce a length and carry no body (to HEAD, or with code 304). */
module HttpMessages {
  import opened Common
  import opened Http

  // ---------- the grammar ----------

  datatype StatusLine = StatusLine(major: string, minor: string, code: string, reason: string)

  /** A header field: its value between optional blanks and tabs. */
  datatype Field = Field(name: string, lead: string, value: string, trail: string)

  /** A chunk: its size as written, its extensions with their semicolons, its data. */
  datatype Chunk = Chunk(size: string, ext: string, data: string)

  /** A trailer field: `text` is what stands between colon and line end. */
  datatype Trailer = Trailer(name: string, text: string)

  /** The message body, as section 3.3.3 tells its length. */
  datatype Body =
    | NoBody
    | Sized(data: string)
    | Chunked(chunks: seq<Chunk>, zeros: string, ext: string, trailers: seq<Trailer>)
    | UntilClose(data: string)

  datatype Response = Response(line: StatusLine, fields: seq<Field>, body: Body)

  predicate All(s: string, p: char -> bool) {
    forall i :: 0 <= i < |s| ==> p(s[i])
  }

  /** The number a hexadecimal numeral stands for. */
  function HexValue(s: string): nat
    requires All(s, IsHex)
  {
    if s == "" then 0 else 16 * HexValue(s[..|s| - 1]) + HexOf(s[|s| - 1])
  }

  predicate SkipChar(c: char) { IsAlnum(c) || c == ' ' }
  predicate NotCr(c: char) { c != '\r' }
  predicate TextChar(c: char) { IsChar(c) && c != '\r' }
  predicate Ows(c: char) { c == ' ' || c == '\t' }
  predicate ValueChar(c: char) { !IsControl(c) }
  predicate FieldChar(c: char) { !IsControl(c) || c == '\t' }

  predicate LineOk(l: StatusLine) {
    && l.major != "" && All(l.major, IsDigit) && l.minor != "" && All(l.minor, IsDigit)
    && |l.code| == 3 && All(l.code, IsDigit) && All(l.reason, NotCr)
  }

  predicate FieldOk(f: Field) {
    && f.name != "" && All(f.name, NameChar) && All(f.value, FieldChar) && All(f.lead, Ows) && All(f.trail, Ows)
    && (if f.value == "" then f.trail == "" else !Ows(f.value[0]) && !Ows(f.value[|f.value| - 1]))
  }

  predicate ExtOk(e: string) {
    e == "" || (e[0] == ';' && All(e, NotCr))
  }

  predicate ChunkOk(c: Chunk) {
    && All(c.size, IsHex) && ExtOk(c.ext)
    && 0 < |c.data| == HexValue(c.size) <= LONG_MAX
  }

  predicate TrailerOk(t: Trailer) {
    t.name != "" && All(t.name, NameChar) && All(t.text, FieldChar)
  }

  predicate IsZero(c: char) { c == '0' }

  function Meaning(f: Field): Header {
    Header(f.name, f.value)
  }

  function Meanings(fs: seq<Field>): (hs: seq<Header>)
    ensures |hs| == |fs| && forall i :: 0 <= i < |fs| ==> hs[i] == Meaning(fs[i])
  {
    seq(|fs|, i requires 0 <= i < |fs| => Meaning(fs[i]))
  }

  /** What the headers say about the body: the last content length, and whether the encoding is chunked. */
  function Framing(fs: seq<Field>): (nat, bool) {
    if fs == [] then (0, false)
    else
      var before := Framing(fs[..|fs| - 1]);
      var f := fs[|fs| - 1];
      if SameText(f.name, "Content-Length") then (if Atoi(f.value) < 0 then 0 else Atoi(f.value), before.1)
      else if SameText(f.name, "Transfer-Encoding") && SameText(f.value, "chunked") then (before.0, true)
      else before
  }

  predicate BodyOk(framing: (nat, bool), b: Body) {
    match b
    case NoBody => !framing.1 && framing.0 == 0
    case UntilClose(_) => !framing.1 && framing.0 == 0
    case Sized(data) => !framing.1 && framing.0 == |data| > 0
    case Chunked(chunks, zeros, ext, trailers) =>
      && framing.1 && zeros != "" && All(zeros, IsZero) && ExtOk(ext)
      && (forall i :: 0 <= i < |chunks| ==> ChunkOk(chunks[i]))
      && (forall i :: 0 <= i < |trailers| ==> TrailerOk(trailers[i]))
  }

  predicate Good(r: Response) {
    && LineOk(r.line) && (forall i :: 0 <= i < |r.fields| ==> FieldOk(r.fields[i]))
    && BodyOk(Framing(r.fields), r.body)
    && (r.body.UntilClose? ==> forall i :: 0 <= i < |r.fields| ==> !SameText(r.fields[i].name, "Content-Length"))
  }

  // ---------- what of it the parser reads right ----------

  /** Version numbers that fit the parser's sum of ints, a code from 100 on, and a reason phrase of ASCII, not empty. */
  predicate LineReadable(l: StatusLine)
    requires LineOk(l)
  {
    && VersionFits(l.major) && VersionFits(l.minor)
    && l.code[0] != '0' && l.reason != "" && All(l.reason, IsChar)
  }

  predicate VersionFits(s: string)
    requires All(s, IsDigit)
  {
    Dec(s, 0) + '0' as int <= INT_MAX
  }

  /** Exactly one blank before the value, nothing behind it, no tab in it, and a content length that fits an int. */
  predicate FieldReadable(f: Field) {
    f.lead == " " && f.trail == "" && All(f.value, ValueChar) && LengthFits(Meaning(f))
  }

  /** At most one extension, of letters, digits and blanks. */
  predicate ExtReadable(e: string) {
    e == "" || (e[0] == ';' && NameReadable(e[1..]))
  }

  predicate NameReadable(s: string) {
    if s == "" then true
    else if s[0] == '=' then All(s[1..], SkipChar)
    else SkipChar(s[0]) && NameReadable(s[1..])
  }

  predicate TrailerReadable(t: Trailer)
    requires TrailerOk(t)
  {
    IsAlpha(t.name[0]) && All(t.name, IsAlnum) && All(t.text, SkipChar)
  }

  predicate ChunkedReadable(b: Body)
    requires b.Chunked? && BodyOk((0, true), b)
  {
    && (forall i :: 0 <= i < |b.chunks| ==> ExtReadable(b.chunks[i].ext)) && ExtReadable(b.ext)
    && |DataOf(b.chunks)| <= LONG_MAX
    && forall i :: 0 <= i < |b.trailers| ==> TrailerReadable(b.trailers[i])
  }

  /** A body that ends with the connection is not read at all. */
  predicate BodyReadable(b: Body)
    requires b.Chunked? ==> BodyOk((0, true), b)
  {
    match b
    case UntilClose(data) => data == ""
    case Chunked(_, _, _, _) => ChunkedReadable(b)
    case _ => true
  }

  predicate Readable(r: Response)
    requires Good(r)
  {
    && LineReadable(r.line) && (forall i :: 0 <= i < |r.fields| ==> FieldReadable(r.fields[i]))
    && BodyReadable(r.body)
  }

  // ---------- how it is written ----------

  function LineText(l: StatusLine): string {
    "HTTP/" + (l.major + ("." + (l.minor + (" " + (l.code + (" " + (l.reason + "\r\n")))))))
  }

  function FieldText(f: Field): string {
    (f.name + ":") + (f.lead + (f.value + (f.trail + "\r\n")))
  }

  function FieldsText(fs: seq<Field>): string {
    if fs == [] then "" else FieldsText(fs[..|fs| - 1]) + FieldText(fs[|fs| - 1])
  }

  function ChunkText(c: Chunk): string {
    c.size + (c.ext + ("\r\n" + (c.data + "\r\n")))
  }

  function ChunksText(cs: seq<Chunk>): string {
    if cs == [] then "" else ChunksText(cs[..|cs| - 1]) + ChunkText(cs[|cs| - 1])
  }

  function TrailerText(t: Trailer): string {
    t.name + (":" + (t.text + "\r\n"))
  }

  function TrailersText(ts: seq<Trailer>): string {
    if ts == [] then "" else TrailersText(ts[..|ts| - 1]) + TrailerText(ts[|ts| - 1])
  }

  function BodyText(b: Body): string {
    match b
    case NoBody => ""
    case Sized(data) => data
    case UntilClose(data) => data
    case Chunked(chunks, zeros, ext, trailers) =>
      ChunksText(chunks) + (zeros + (ext + ("\r\n" + (TrailersText(trailers) + "\r\n"))))
  }

  function Text(r: Response): string {
    LineText(r.line) + (FieldsText(r.fields) + ("\r\n" + BodyText(r.body)))
  }

  /** The data of a response: the chunks' data in order, or the body. */
  function DataOf(cs: seq<Chunk>): string {
    if cs == [] then "" else DataOf(cs[..|cs| - 1]) + cs[|cs| - 1].data
  }

  function Content(b: Body): string {
    match b
    case NoBody => ""
    case Sized(data) => data
    case UntilClose(data) => data
    case Chunked(chunks, _, _, _) => DataOf(chunks)
  }

  // ---------- reading pieces in sequence ----------

  ghost predicate Reads(m: Machine, s: string, next: Machine) {
    Consume(m, s) == More(next)
  }

  /** The parser gives up somewhere in s. */
  ghost predicate Fails(m: Machine, s: string) {
    Consume(m, s).result == Error || Consume(m, s).result == Fault
  }

  lemma FailsOn(m: Machine, a: string, b: string)
    requires Fails(m, a)
    ensures Fails(m, a + b)
  {
    ConsumeAppend(m, a, b);
  }

  lemma FailsLater(m: Machine, a: string, m1: Machine, b: string)
    requires Reads(m, a, m1) && Fails(m1, b)
    ensures Fails(m, a + b)
  {
    ConsumeAppend(m, a, b);
  }

  lemma Then(m: Machine, a: string, m1: Machine, b: string, m2: Machine)
    requires Reads(m, a, m1) && Reads(m1, b, m2)
    ensures Reads(m, a + b, m2)
  {
    ConsumeAppend(m, a, b);
  }

  lemma Chain(m: Machine, a: string, m1: Machine, b: string, m2: Machine, c: string, m3: Machine, d: string,
      m4: Machine)
    requires Reads(m, a, m1) && Reads(m1, b, m2) && Reads(m2, c, m3) && Reads(m3, d, m4)
    ensures Reads(m, a + (b + (c + d)), m4)
  {
    Then(m2, c, m3, d, m4);
    Then(m1, b, m2, c + d, m4);
    Then(m, a, m1, b + (c + d), m4);
  }

  lemma OneChar(m: Machine, c: char)
    ensures Consume(m, [c]) == Step(m, c)
  {
    var o := Step(m, c);
    assert [c][1..] == "";
    assert Consume(o.machine, "") == More(o.machine);
    assert o.result == Incompleted ==> o == More(o.machine);
  }

  /** The first character, then the rest. */
  lemma First(m: Machine, c: char, s: string)
    requires Step(m, c).result == Incompleted
    ensures Consume(m, [c] + s) == Consume(Step(m, c).machine, s)
  {
    OneChar(m, c);
    ConsumeAppend(m, [c], s);
  }

  lemma TwoChars(m: Machine, c: char, m1: Machine, d: char, m2: Machine)
    requires Step(m, c) == More(m1) && Step(m1, d) == More(m2)
    ensures Reads(m, [c, d], m2)
  {
    First(m, c, [d]);
    OneChar(m1, d);
    assert [c] + [d] == [c, d];
  }

  // ---------- the status line ----------

  function Dec(s: string, acc: nat): nat
    requires All(s, IsDigit)
  {
    if s == "" then acc else Dec(s[1..], 10 * acc + DigitOf(s[0]))
  }

  lemma {:induction false} DecGrows(s: string, acc: nat)
    requires All(s, IsDigit)
    ensures acc <= Dec(s, acc)
    decreases |s|
  {
    if s != "" {
      DecGrows(s[1..], 10 * acc + DigitOf(s[0]));
    }
  }

  lemma {:induction false} MajorDigits(m: Machine, s: string)
    requires m.state == Major && All(s, IsDigit) && Dec(s, m.versionMajor) + '0' as int <= INT_MAX
    ensures Reads(m, s, m.(versionMajor := Dec(s, m.versionMajor)))
    decreases |s|
  {
    if s != "" {
      DecGrows(s[1..], 10 * m.versionMajor + DigitOf(s[0]));
      MajorDigits(m.(versionMajor := 10 * m.versionMajor + DigitOf(s[0])), s[1..]);
    }
  }

  lemma {:induction false} MinorDigits(m: Machine, s: string)
    requires m.state == Minor && All(s, IsDigit) && Dec(s, m.versionMinor) + '0' as int <= INT_MAX
    ensures Reads(m, s, m.(versionMinor := Dec(s, m.versionMinor)))
    decreases |s|
  {
    if s != "" {
      DecGrows(s[1..], 10 * m.versionMinor + DigitOf(s[0]));
      MinorDigits(m.(versionMinor := 10 * m.versionMinor + DigitOf(s[0])), s[1..]);
    }
  }

  lemma Version(m: Machine, l: StatusLine)
    requires LineOk(l) && LineReadable(l) && m.state == MajorStart
    ensures Reads(m, l.major + ("." + (l.minor + " ")),
                  m.(state := StatusCodeStart, versionMajor := Dec(l.major, 0), versionMinor := Dec(l.minor, 0),
                      statusCode := 0))
  {
    var m1 := m.(state := Major, versionMajor := Dec(l.major, 0));
    var m2 := m1.(state := MinorStart);
    var m3 := m2.(state := Minor, versionMinor := Dec(l.minor, 0));
    MajorReads(m, l.major);
    DotReads(m1);
    MinorReads(m2, l.minor);
    BlankReads(m3);
    Chain(m, l.major, m1, ".", m2, l.minor, m3, " ", m3.(state := StatusCodeStart, statusCode := 0));
  }

  lemma MajorReads(m: Machine, s: string)
    requires m.state == MajorStart && s != "" && All(s, IsDigit) && VersionFits(s)
    ensures Reads(m, s, m.(state := Major, versionMajor := Dec(s, 0)))
  {
    MajorDigits(m.(state := Major, versionMajor := DigitOf(s[0])), s[1..]);
  }

  lemma MinorReads(m: Machine, s: string)
    requires m.state == MinorStart && s != "" && All(s, IsDigit) && VersionFits(s)
    ensures Reads(m, s, m.(state := Minor, versionMinor := Dec(s, 0)))
  {
    MinorDigits(m.(state := Minor, versionMinor := DigitOf(s[0])), s[1..]);
  }

  lemma DotReads(m: Machine)
    requires m.state == Major
    ensures Reads(m, ".", m.(state := MinorStart))
  {
    OneChar(m, '.');
  }

  lemma BlankReads(m: Machine)
    requires m.state == Minor
    ensures Reads(m, " ", m.(state := StatusCodeStart, statusCode := 0))
  {
    OneChar(m, ' ');
  }

  lemma Protocol(m: Machine)
    requires m.state == StatusStart && m.versionMajor == 0 && m.versionMinor == 0
    ensures Reads(m, "HTTP/", m.(state := MajorStart))
  {
    var m1, m2 := m.(state := VersionHt), m.(state := VersionHtt);
    var m3, m4 := m.(state := VersionHttp), m.(state := VersionSlash);
    TwoChars(m, 'H', m1, 'T', m2);
    TwoChars(m2, 'T', m3, 'P', m4);
    OneChar(m4, '/');
    Then(m, "HT", m2, "TP", m4);
    Then(m, "HT" + "TP", m4, "/", m.(state := MajorStart));
    assert ("HT" + "TP") + "/" == "HTTP/";
  }

  lemma ThreeDigits(code: string)
    requires |code| == 3 && All(code, IsDigit)
    ensures Dec(code, 0) == 100 * DigitOf(code[0]) + 10 * DigitOf(code[1]) + DigitOf(code[2])
  {
    var a, b, c := DigitOf(code[0]), DigitOf(code[1]), DigitOf(code[2]);
    assert Dec(code[1..][1..], 10 * a + b) == Dec(code[1..][1..][1..], 100 * a + 10 * b + c);
  }

  lemma Code(m: Machine, code: string)
    requires m.state == StatusCodeStart && |code| == 3 && All(code, IsDigit) && code[0] != '0'
    ensures Reads(m, code + " ", m.(state := StatusTextStart, statusCode := Dec(code, 0)))
  {
    var a, b, c := DigitOf(code[0]), DigitOf(code[1]), DigitOf(code[2]);
    ThreeDigits(code);
    var m1 := m.(state := StatusCode, statusCode := a);
    var m2 := m1.(statusCode := 10 * a + b);
    var m3 := m1.(statusCode := 100 * a + 10 * b + c);
    TwoChars(m, code[0], m1, code[1], m2);
    TwoChars(m2, code[2], m3, ' ', m3.(state := StatusTextStart));
    Then(m, [code[0], code[1]], m2, [code[2], ' '], m3.(state := StatusTextStart));
    assert [code[0], code[1]] + [code[2], ' '] == code + " ";
  }

  lemma {:induction false} ReasonChars(m: Machine, s: string)
    requires m.state == StatusText && All(s, TextChar)
    ensures Reads(m, s, m.(status := m.status + s))
    decreases |s|
  {
    if s == "" {
      assert m.status + s == m.status;
    } else {
      ReasonChars(m.(status := m.status + [s[0]]), s[1..]);
      assert (m.status + [s[0]]) + s[1..] == m.status + s;
    }
  }

  lemma Reason(m: Machine, s: string)
    requires m.state == StatusTextStart && s != "" && All(s, TextChar)
    ensures Reads(m, s + "\r\n", m.(state := HeaderLineStart, status := m.status + s))
  {
    var m1 := m.(state := StatusText, status := m.status + [s[0]]);
    var m2 := m1.(status := m1.status + s[1..]);
    ReasonChars(m1, s[1..]);
    assert m2.status == m.status + s;
    assert Reads(m, s, m2);
    var m3, m4 := m2.(state := StatusNewLine), m2.(state := HeaderLineStart);
    TwoChars(m2, '\r', m3, '\n', m4);
    Then(m, s, m2, "\r\n", m4);
  }

  function AfterLine(l: StatusLine): Machine
    requires LineOk(l) && LineReadable(l)
  {
    Init().(state := HeaderLineStart, versionMajor := Dec(l.major, 0), versionMinor := Dec(l.minor, 0),
            statusCode := Dec(l.code, 0), status := l.reason)
  }

  lemma LineParts(l: StatusLine, m0: Machine, m1: Machine, m2: Machine)
    requires LineOk(l) && LineReadable(l) && m0 == Init().(state := MajorStart)
    requires m1 == m0.(state := StatusCodeStart, versionMajor := Dec(l.major, 0), versionMinor := Dec(l.minor, 0),
      statusCode := 0)
    requires m2 == m1.(state := StatusTextStart, statusCode := Dec(l.code, 0))
    ensures Reads(Init(), "HTTP/", m0) && Reads(m0, l.major + ("." + (l.minor + " ")), m1)
    ensures Reads(m1, l.code + " ", m2)
  {
    Protocol(Init());
    Version(m0, l);
    Code(m1, l.code);
  }

  lemma LineEnd(l: StatusLine, m: Machine)
    requires LineOk(l) && LineReadable(l) && m == AfterLine(l).(state := StatusTextStart, status := "")
    ensures Reads(m, l.reason + "\r\n", AfterLine(l))
  {
    Reason(m, l.reason);
    assert m.status + l.reason == l.reason;
  }

  lemma LineReads(l: StatusLine)
    requires LineOk(l) && LineReadable(l)
    ensures Reads(Init(), LineText(l), AfterLine(l))
  {
    var m0 := Init().(state := MajorStart);
    var m1 := m0.(state := StatusCodeStart, versionMajor := Dec(l.major, 0), versionMinor := Dec(l.minor, 0),
        statusCode := 0);
    var m2 := m1.(state := StatusTextStart, statusCode := Dec(l.code, 0));
    LineParts(l, m0, m1, m2);
    LineEnd(l, m2);
    LineShape(l);
    Chain(Init(), "HTTP/", m0, l.major + ("." + (l.minor + " ")), m1, l.code + " ", m2, l.reason + "\r\n",
        AfterLine(l));
  }

  lemma LineShape(l: StatusLine)
    ensures LineText(l) == "HTTP/" + ((l.major + ("." + (l.minor + " "))) + ((l.code + " ") + (l.reason + "\r\n")))
  {
    var rest := l.code + (" " + (l.reason + "\r\n"));
    Assoc(l.code, " ", l.reason + "\r\n");
    Assoc(l.minor, " ", rest);
    Assoc(".", l.minor + " ", rest);
    Assoc(l.major, "." + (l.minor + " "), rest);
  }

  // ---------- headers ----------

  function Snoc(hs: seq<Header>, h: Header): seq<Header> {
    hs + [h]
  }

  lemma PushedName(hs: seq<Header>, name: string, value: string, c: char)
    ensures PushName(Snoc(hs, Header(name, value)), c) == Snoc(hs, Header(name + [c], value))
    ensures PushValue(Snoc(hs, Header(name, value)), c) == Snoc(hs, Header(name, value + [c]))
  {
  }

  lemma {:induction false} NameChars(m: Machine, hs: seq<Header>, name: string, s: string)
    requires m.state == HeaderName && m.headers == Snoc(hs, Header(name, "")) && All(s, NameChar)
    ensures Reads(m, s, m.(headers := Snoc(hs, Header(name + s, ""))))
    decreases |s|
  {
    if s == "" {
      assert name + s == name;
    } else {
      PushedName(hs, name, "", s[0]);
      NameChars(m.(headers := Snoc(hs, Header(name + [s[0]], ""))), hs, name + [s[0]], s[1..]);
      assert (name + [s[0]]) + s[1..] == name + s;
    }
  }

  lemma {:induction false} ValueChars(m: Machine, hs: seq<Header>, name: string, value: string, s: string)
    requires m.state == HeaderValue && m.headers == Snoc(hs, Header(name, value)) && All(s, ValueChar)
    ensures Reads(m, s, m.(headers := Snoc(hs, Header(name, value + s))))
    decreases |s|
  {
    if s == "" {
      assert value + s == value;
    } else {
      PushedName(hs, name, value, s[0]);
      ValueChars(m.(headers := Snoc(hs, Header(name, value + [s[0]]))), hs, name, value + [s[0]], s[1..]);
      assert (value + [s[0]]) + s[1..] == value + s;
    }
  }

  lemma NameReads(m: Machine, name: string)
    requires m.state == HeaderLineStart && name != "" && All(name, NameChar)
    ensures Reads(m, name + ":", m.(state := SpaceBeforeHeaderValue, headers := Snoc(m.headers, Header(name, ""))))
  {
    var c := name[0];
    assert NameChar(c);
    var m1 := m.(state := HeaderName, headers := Snoc(m.headers, Header([c], "")));
    assert Step(m, c) == More(m1);
    NameChars(m1, m.headers, [c], name[1..]);
    assert [c] + name[1..] == name;
    var m2 := m1.(headers := Snoc(m.headers, Header(name, "")));
    assert Reads(m, name, m2);
    NameEnds(m2);
    Then(m, name, m2, ":", m2.(state := SpaceBeforeHeaderValue));
  }

  lemma NameEnds(m: Machine)
    requires m.state == HeaderName
    ensures Reads(m, ":", m.(state := SpaceBeforeHeaderValue))
  {
    OneChar(m, ':');
  }

  lemma BlankBefore(m: Machine)
    requires m.state == SpaceBeforeHeaderValue
    ensures Reads(m, " ", m.(state := HeaderValue))
  {
    OneChar(m, ' ');
  }

  lemma ValueEnds(m: Machine, h: Header)
    requires m.state == HeaderValue && m.headers != [] && m.headers[|m.headers| - 1] == h && LengthFits(h)
    ensures Reads(m, "\r\n", Noted(m, h).(state := HeaderLineStart))
  {
    TwoChars(m, '\r', Noted(m, h).(state := ExpectingNewline2), '\n', Noted(m, h).(state := HeaderLineStart));
  }

  lemma LengthFaults(m: Machine, h: Header, rest: string)
    requires m.state == HeaderValue && m.headers != [] && m.headers[|m.headers| - 1] == h && !LengthFits(h)
    ensures Fails(m, "\r" + rest)
  {
    assert ("\r" + rest)[0] == '\r';
  }

  lemma ValueReads(m: Machine, hs: seq<Header>, h: Header)
    requires m.state == HeaderValue && m.headers == Snoc(hs, Header(h.name, "")) && All(h.value, ValueChar)
      && LengthFits(h)
    ensures Reads(m, h.value + "\r\n", Noted(m.(headers := Snoc(hs, h)), h).(state := HeaderLineStart))
  {
    ValueChars(m, hs, h.name, "", h.value);
    assert "" + h.value == h.value && Header(h.name, h.value) == h;
    var m1 := m.(headers := Snoc(hs, h));
    ValueEnds(m1, h);
    Then(m, h.value, m1, "\r\n", Noted(m1, h).(state := HeaderLineStart));
  }

  lemma FieldReads(m: Machine, f: Field)
    requires m.state == HeaderLineStart && FieldOk(f) && FieldReadable(f)
    ensures Reads(m, FieldText(f), Noted(m.(headers := m.headers + [Meaning(f)]), Meaning(f)))
  {
    var h := Meaning(f);
    var m0 := m.(state := SpaceBeforeHeaderValue, headers := Snoc(m.headers, Header(f.name, "")));
    var m2 := Noted(m.(headers := Snoc(m.headers, h)), h);
    NameReads(m, f.name);
    ValueBehindBlank(m0, m.headers, h);
    Then(m, f.name + ":", m0, " " + (f.value + "\r\n"), m2);
    assert f.trail + "\r\n" == "\r\n";
  }

  lemma ValueBehindBlank(m: Machine, hs: seq<Header>, h: Header)
    requires m.state == SpaceBeforeHeaderValue && m.headers == Snoc(hs, Header(h.name, ""))
    requires All(h.value, ValueChar) && LengthFits(h)
    ensures Reads(m, " " + (h.value + "\r\n"), Noted(m.(headers := Snoc(hs, h)), h).(state := HeaderLineStart))
  {
    var m1 := m.(state := HeaderValue);
    BlankBefore(m);
    ValueReads(m1, hs, h);
    Then(m, " ", m1, h.value + "\r\n", Noted(m1.(headers := Snoc(hs, h)), h).(state := HeaderLineStart));
  }

  function AfterFields(m: Machine, fs: seq<Field>): Machine {
    m.(headers := Meanings(fs), contentSize := Framing(fs).0, chunked := Framing(fs).1)
  }

  lemma NextField(m: Machine, fs: seq<Field>)
    requires fs != [] && LengthFits(Meaning(fs[|fs| - 1]))
    ensures var h := Meaning(fs[|fs| - 1]);
      var m1 := AfterFields(m, fs[..|fs| - 1]);
      AfterFields(m, fs) == Noted(m1.(headers := m1.headers + [h]), h)
  {
    assert Meanings(fs[..|fs| - 1]) + [Meaning(fs[|fs| - 1])] == Meanings(fs);
  }

  lemma {:induction false} FieldsRead(m: Machine, fs: seq<Field>)
    requires m.state == HeaderLineStart && m.headers == [] && m.contentSize == 0 && !m.chunked
    requires forall i :: 0 <= i < |fs| ==> FieldOk(fs[i]) && FieldReadable(fs[i])
    ensures Reads(m, FieldsText(fs), AfterFields(m, fs))
    decreases |fs|
  {
    if fs != [] {
      var front, f := fs[..|fs| - 1], fs[|fs| - 1];
      FieldsRead(m, front);
      NextField(m, fs);
      FieldReads(AfterFields(m, front), f);
      Then(m, FieldsText(front), AfterFields(m, front), FieldText(f), AfterFields(m, fs));
    }
  }

  // ---------- header fields that are not read right ----------

  /** Header j has a value of more than n characters. */
  predicate TooLong(m: Machine, j: nat, n: nat) {
    |m.headers| > j && |m.headers[j].value| > n
  }

  /** The parser gives up in s, or comes out of it with a value that is too long. */
  ghost predicate Spoils(m: Machine, s: string, j: nat, n: nat) {
    Fails(m, s) || TooLong(Consume(m, s).machine, j, n)
  }

  lemma StepKeepsTooLong(m: Machine, c: char, j: nat, n: nat)
    requires TooLong(m, j, n)
    ensures TooLong(Step(m, c).machine, j, n)
  {
    if InHeader(m.state) {
      HeaderKeepsTooLong(m, c, j, n);
    } else {
      HeadersStay(m, c);
    }
  }

  lemma HeadersStay(m: Machine, c: char)
    requires !InHeader(m.state)
    ensures Step(m, c).machine.headers == m.headers
  {
  }

  lemma HeaderKeepsTooLong(m: Machine, c: char, j: nat, n: nat)
    requires TooLong(m, j, n) && InHeader(m.state)
    ensures TooLong(StepHeader(m, c).machine, j, n)
  {
  }

  lemma {:induction false} TooLongStays(m: Machine, s: string, j: nat, n: nat)
    requires TooLong(m, j, n)
    ensures TooLong(Consume(m, s).machine, j, n)
    decreases |s|
  {
    if s != "" {
      StepKeepsTooLong(m, s[0], j, n);
      if Step(m, s[0]).result == Incompleted {
        TooLongStays(Step(m, s[0]).machine, s[1..], j, n);
      }
    }
  }

  lemma SpoilsOn(m: Machine, a: string, b: string, j: nat, n: nat)
    requires Spoils(m, a, j, n)
    ensures Spoils(m, a + b, j, n)
  {
    ConsumeAppend(m, a, b);
    if Consume(m, a).result == Incompleted {
      TooLongStays(Consume(m, a).machine, b, j, n);
    }
  }

  lemma SpoilsLater(m: Machine, a: string, m1: Machine, b: string, j: nat, n: nat)
    requires Reads(m, a, m1) && Spoils(m1, b, j, n)
    ensures Spoils(m, a + b, j, n)
  {
    ConsumeAppend(m, a, b);
  }

  lemma {:induction false} TabFails(m: Machine, s: string)
    requires m.state == HeaderValue && All(s, FieldChar) && !All(s, ValueChar)
    ensures Fails(m, s)
    decreases |s|
  {
    if ValueChar(s[0]) {
      assert !All(s[1..], ValueChar) by {
        var i :| 0 <= i < |s| && !ValueChar(s[i]);
        assert s[1..][i - 1] == s[i];
      }
      TabFails(m.(headers := PushValue(m.headers, s[0])), s[1..]);
    }
  }

  /** Behind the colon: a missing blank or a tab fails, further blanks lengthen the value. */
  lemma FieldSpoils(m: Machine, f: Field)
    requires m.state == HeaderLineStart && FieldOk(f) && !FieldReadable(f)
    ensures Spoils(m, FieldText(f), |m.headers|, |f.value|)
  {
    var m0 := m.(state := SpaceBeforeHeaderValue, headers := Snoc(m.headers, Header(f.name, "")));
    var text := f.lead + (f.value + (f.trail + "\r\n"));
    NameReads(m, f.name);
    if f.lead == "" || f.lead[0] == '\t' {
      assert text[0] != ' ';
      assert Fails(m0, text);
    } else {
      LongerValue(m0, m.headers, f);
    }
    SpoilsLater(m, f.name + ":", m0, text, |m.headers|, |f.value|);
  }

  lemma LongerValue(m: Machine, hs: seq<Header>, f: Field)
    requires m.state == SpaceBeforeHeaderValue && m.headers == Snoc(hs, Header(f.name, ""))
    requires FieldOk(f) && !FieldReadable(f) && f.lead != "" && f.lead[0] == ' '
    ensures Spoils(m, f.lead + (f.value + (f.trail + "\r\n")), |hs|, |f.value|)
  {
    var raw, m1 := f.lead[1..] + f.value + f.trail, m.(state := HeaderValue);
    BlankBefore(m);
    assert Spoils(m1, raw + "\r\n", |hs|, |f.value|) by {
      if All(raw, ValueChar) {
        if |raw| == |f.value| {
          OnlyValue(f, raw);
        }
        RawSpoils(m1, hs, Header(f.name, raw), |f.value|);
      } else {
        FieldCharsOf(f, raw);
        TabFails(m1, raw);
        FailsOn(m1, raw, "\r\n");
      }
    }
    SpoilsLater(m, " ", m1, raw + "\r\n", |hs|, |f.value|);
    RawShape(f, raw);
  }

  /** A value that is too long, or a length that does not fit. */
  lemma RawSpoils(m: Machine, hs: seq<Header>, h: Header, n: nat)
    requires m.state == HeaderValue && m.headers == Snoc(hs, Header(h.name, "")) && All(h.value, ValueChar)
    requires |h.value| > n || !LengthFits(h)
    ensures Spoils(m, h.value + "\r\n", |hs|, n)
  {
    var m1 := m.(headers := Snoc(hs, h));
    assert Reads(m, h.value, m1) by {
      ValueChars(m, hs, h.name, "", h.value);
      assert "" + h.value == h.value && Header(h.name, h.value) == h;
    }
    assert Spoils(m1, "\r\n", |hs|, n) by {
      EndSpoils(m1, hs, h, n);
    }
    SpoilsLater(m, h.value, m1, "\r\n", |hs|, n);
  }

  lemma EndSpoils(m: Machine, hs: seq<Header>, h: Header, n: nat)
    requires m.state == HeaderValue && m.headers == Snoc(hs, h) && (|h.value| > n || !LengthFits(h))
    ensures Spoils(m, "\r\n", |hs|, n)
  {
    if |h.value| > n {
      TooLongStays(m, "\r\n", |hs|, n);
    } else {
      LengthFaults(m, h, "\n");
      assert "\r" + "\n" == "\r\n";
    }
  }

  lemma FieldCharsOf(f: Field, raw: string)
    requires FieldOk(f) && f.lead != "" && raw == f.lead[1..] + f.value + f.trail
    ensures All(raw, FieldChar)
  {
  }

  lemma OnlyValue(f: Field, raw: string)
    requires f.lead != "" && f.lead[0] == ' ' && raw == f.lead[1..] + f.value + f.trail && |raw| == |f.value|
    ensures raw == f.value && f.lead == " " && f.trail == ""
  {
  }

  lemma RawShape(f: Field, raw: string)
    requires f.lead != "" && f.lead[0] == ' ' && raw == f.lead[1..] + f.value + f.trail
    ensures f.lead + (f.value + (f.trail + "\r\n")) == " " + (raw + "\r\n")
  {
    assert f.lead == " " + f.lead[1..];
  }

  /** A field that is not readable spoils the response: index j of the first one, with its value. */
  lemma {:induction false} FieldsSpoil(m: Machine, fs: seq<Field>) returns (j: nat)
    requires m.state == HeaderLineStart && m.headers == [] && m.contentSize == 0 && !m.chunked
    requires forall i :: 0 <= i < |fs| ==> FieldOk(fs[i])
    requires exists i :: 0 <= i < |fs| && !FieldReadable(fs[i])
    ensures j < |fs| && Spoils(m, FieldsText(fs), j, |fs[j].value|)
    decreases |fs|
  {
    var front, f := fs[..|fs| - 1], fs[|fs| - 1];
    if exists i :: 0 <= i < |front| && !FieldReadable(front[i]) {
      j := FieldsSpoil(m, front);
      SpoilsOn(m, FieldsText(front), FieldText(f), j, |fs[j].value|);
    } else {
      j := |front|;
      LastSpoils(m, front, f);
    }
  }

  lemma LastSpoils(m: Machine, front: seq<Field>, f: Field)
    requires m.state == HeaderLineStart && m.headers == [] && m.contentSize == 0 && !m.chunked
    requires FieldOk(f) && !FieldReadable(f) && forall i :: 0 <= i < |front| ==>
      FieldOk(front[i]) && FieldReadable(front[i])
    ensures Spoils(m, FieldsText(front) + FieldText(f), |front|, |f.value|)
  {
    FieldsRead(m, front);
    var m1 := AfterFields(m, front);
    FieldSpoils(m1, f);
    SpoilsLater(m, FieldsText(front), m1, FieldText(f), |front|, |f.value|);
  }

  // ---------- the chunked body ----------

  lemma {:induction false} HexSnoc(s: string, c: char, acc: nat)
    requires All(s, IsHex) && IsHex(c)
    ensures ReadHex(s + [c], acc) == 16 * ReadHex(s, acc) + HexOf(c)
    decreases |s|
  {
    if s == "" {
      assert s + [c] == [c];
      assert ReadHex([c][1..], 16 * acc + HexOf(c)) == 16 * acc + HexOf(c);
    } else {
      assert (s + [c])[1..] == s[1..] + [c];
      HexSnoc(s[1..], c, 16 * acc + HexOf(s[0]));
    }
  }

  lemma {:induction false} HexReads(s: string)
    requires All(s, IsHex)
    ensures ReadHex(s, 0) == HexValue(s)
    decreases |s|
  {
    if s != "" {
      var front, c := s[..|s| - 1], s[|s| - 1];
      HexReads(front);
      HexSnoc(front, c, 0);
      assert front + [c] == s;
    }
  }

  lemma SizeReads(s: string)
    requires All(s, IsHex) && HexValue(s) <= LONG_MAX
    ensures Strtol16(s) == HexValue(s)
  {
    HexReads(s);
    assert |s| >= 2 ==> IsHex(s[1]);
  }

  lemma {:induction false} ZerosAreZero(s: string)
    requires All(s, IsZero)
    ensures All(s, IsHex) && HexValue(s) == 0
    decreases |s|
  {
    if s != "" {
      ZerosAreZero(s[..|s| - 1]);
    }
  }

  lemma {:induction false} SizeChars(m: Machine, s: string)
    requires m.state == ChunkSize && All(s, IsHex)
    ensures Reads(m, s, m.(chunkSizeStr := m.chunkSizeStr + s))
    decreases |s|
  {
    if s == "" {
      assert m.chunkSizeStr + s == m.chunkSizeStr;
    } else {
      assert IsHex(s[0]);
      SizeChars(m.(chunkSizeStr := m.chunkSizeStr + [s[0]]), s[1..]);
      assert (m.chunkSizeStr + [s[0]]) + s[1..] == m.chunkSizeStr + s;
    }
  }

  /** States that skip letters, digits and spaces. */
  lemma {:induction false} SkipChars(m: Machine, s: string)
    requires m.state == ChunkExtensionName || m.state == ChunkExtensionValue || m.state == ChunkTrailerValue
    requires All(s, SkipChar)
    ensures Reads(m, s, m)
    decreases |s|
  {
    if s != "" {
      SkipChars(m, s[1..]);
    }
  }

  lemma {:induction false} SkipFails(m: Machine, s: string)
    requires m.state == ChunkExtensionValue || m.state == ChunkTrailerValue
    requires All(s, NotCr) && !All(s, SkipChar)
    ensures Fails(m, s)
    decreases |s|
  {
    if SkipChar(s[0]) {
      assert !All(s[1..], SkipChar) by {
        var i :| 0 <= i < |s| && !SkipChar(s[i]);
        assert s[1..][i - 1] == s[i];
      }
      SkipFails(m, s[1..]);
    }
  }

  lemma ExtensionSteps(m: Machine)
    requires m.state == ChunkSize
    ensures var m1, m2, end := m.(state := ChunkExtensionName), m.(state := ChunkExtensionValue),
      m.(state := ChunkSizeNewLine);
      && Reads(m, ";", m1) && Reads(m1, "=", m2)
      && Reads(m, "\r", end) && Reads(m1, "\r", end) && Reads(m2, "\r", end)
  {
    var m1, m2 := m.(state := ChunkExtensionName), m.(state := ChunkExtensionValue);
    OneChar(m, ';');
    OneChar(m1, '=');
    OneChar(m, '\r');
    OneChar(m1, '\r');
    OneChar(m2, '\r');
  }

  /** Behind the semicolon. */
  lemma {:induction false} ExtensionName(m: Machine, s: string)
    requires m.state == ChunkSize && All(s, NotCr)
    ensures NameReadable(s) ==> Reads(m.(state := ChunkExtensionName), s + "\r", m.(state := ChunkSizeNewLine))
    ensures !NameReadable(s) ==> Fails(m.(state := ChunkExtensionName), s)
    decreases |s|
  {
    var m1, m2 := m.(state := ChunkExtensionName), m.(state := ChunkExtensionValue);
    ExtensionSteps(m);
    if s == "" {
      assert "" + "\r" == "\r";
    } else if s[0] == '=' {
      var value := s[1..];
      assert s == "=" + value && s + "\r" == "=" + (value + "\r");
      if All(value, SkipChar) {
        SkipChars(m2, value);
        Then(m2, value, m2, "\r", m.(state := ChunkSizeNewLine));
        Then(m1, "=", m2, value + "\r", m.(state := ChunkSizeNewLine));
      } else {
        SkipFails(m2, value);
        FailsLater(m1, "=", m2, value);
      }
    } else if SkipChar(s[0]) {
      ExtensionName(m, s[1..]);
      assert (s + "\r")[1..] == s[1..] + "\r";
    }
  }

  lemma ExtensionReads(m: Machine, e: string)
    requires m.state == ChunkSize && ExtOk(e)
    ensures ExtReadable(e) ==> Reads(m, e + "\r", m.(state := ChunkSizeNewLine))
    ensures !ExtReadable(e) ==> Fails(m, e)
  {
    var m1 := m.(state := ChunkExtensionName);
    ExtensionSteps(m);
    if e == "" {
      assert "" + "\r" == "\r";
    } else {
      var s := e[1..];
      assert e == ";" + s && e + "\r" == ";" + (s + "\r");
      ExtensionName(m, s);
      if NameReadable(s) {
        Then(m, ";", m1, s + "\r", m.(state := ChunkSizeNewLine));
      } else {
        FailsLater(m, ";", m1, s);
      }
    }
  }

  /** Between two chunks or trailers. */
  predicate Clean(m: Machine) {
    m.chunkSizeStr == "" && m.chunkSize == 0 && |m.content| <= LONG_MAX
  }

  lemma CrLf(s: string)
    ensures (s + "\r") + "\n" == s + "\r\n"
  {
  }

  lemma SizeEnds(m: Machine)
    requires m.state == ChunkSizeNewLine && |m.content| + Strtol16(m.chunkSizeStr) <= LONG_MAX
    ensures var n := Strtol16(m.chunkSizeStr);
      Reads(m, "\n", m.(chunkSize := n, chunkSizeStr := "", state := if n == 0 then ChunkSizeNewLine2 else ChunkData))
  {
    OneChar(m, '\n');
  }

  /** Up to the line feed behind a chunk's size. */
  lemma SizeLineStarts(m: Machine, size: string, e: string)
    requires m.state == ChunkSize && m.chunkSizeStr == "" && All(size, IsHex) && ExtOk(e) && ExtReadable(e)
    ensures Reads(m, size + (e + "\r"), m.(chunkSizeStr := size, state := ChunkSizeNewLine))
  {
    SizeChars(m, size);
    assert "" + size == size;
    var m1 := m.(chunkSizeStr := size);
    ExtensionReads(m1, e);
    Then(m, size, m1, e + "\r", m1.(state := ChunkSizeNewLine));
  }

  lemma SizeLineShape(size: string, e: string)
    ensures size + (e + "\r\n") == (size + (e + "\r")) + "\n"
  {
    CrLf(e);
    Assoc(size, e + "\r", "\n");
  }

  lemma SizeLineReads(m: Machine, size: string, e: string)
    requires m.state == ChunkSize && m.chunkSizeStr == "" && All(size, IsHex) && ExtOk(e) && ExtReadable(e)
    requires |m.content| + HexValue(size) <= LONG_MAX
    ensures Reads(m, size + (e + "\r\n"),
                  m.(chunkSize := HexValue(size),
                     state := if HexValue(size) == 0 then ChunkSizeNewLine2 else ChunkData))
  {
    var m1 := m.(chunkSizeStr := size, state := ChunkSizeNewLine);
    var m2 := m.(chunkSize := HexValue(size), state := if HexValue(size) == 0 then ChunkSizeNewLine2 else ChunkData);
    SizeLineStarts(m, size, e);
    SizeReads(size);
    SizeEnds(m1);
    Then(m, size + (e + "\r"), m1, "\n", m2);
    SizeLineShape(size, e);
  }

  /** A size that the content has no room for. */
  lemma SizeLineFaults(m: Machine, size: string, e: string)
    requires m.state == ChunkSize && m.chunkSizeStr == "" && All(size, IsHex) && ExtOk(e) && ExtReadable(e)
    requires HexValue(size) <= LONG_MAX < |m.content| + HexValue(size)
    ensures Fails(m, size + (e + "\r\n"))
  {
    var m1 := m.(chunkSizeStr := size, state := ChunkSizeNewLine);
    SizeLineStarts(m, size, e);
    SizeReads(size);
    OneChar(m1, '\n');
    FailsLater(m, size + (e + "\r"), m1, "\n");
    SizeLineShape(size, e);
  }

  lemma {:induction false} DataReads(m: Machine, data: string)
    requires m.state == ChunkData && m.chunkSize == |data| > 0
    ensures Reads(m, data, m.(state := ChunkDataNewLine1, chunkSize := 0, content := m.content + data))
    decreases |data|
  {
    if |data| == 1 {
      assert data == [data[0]];
      OneChar(m, data[0]);
    } else {
      DataReads(m.(chunkSize := m.chunkSize - 1, content := m.content + [data[0]]), data[1..]);
      assert (m.content + [data[0]]) + data[1..] == m.content + data;
    }
  }

  lemma DataEnds(m: Machine)
    requires m.state == ChunkDataNewLine1
    ensures Reads(m, "\r\n", m.(state := ChunkSize))
  {
    TwoChars(m, '\r', m.(state := ChunkDataNewLine2), '\n', m.(state := ChunkSize));
  }

  lemma ChunkReads(m: Machine, c: Chunk)
    requires m.state == ChunkSize && Clean(m) && ChunkOk(c) && ExtReadable(c.ext) && |m.content| + |c.data| <= LONG_MAX
    ensures Reads(m, ChunkText(c), m.(content := m.content + c.data))
  {
    var m1 := m.(chunkSize := |c.data|, state := ChunkData);
    SizeLineReads(m, c.size, c.ext);
    DataReads(m1, c.data);
    var m2 := m1.(state := ChunkDataNewLine1, chunkSize := 0, content := m.content + c.data);
    var m3 := m.(content := m.content + c.data);
    DataEnds(m2);
    Then(m1, c.data, m2, "\r\n", m3);
    var head := c.size + (c.ext + "\r\n");
    Then(m, head, m1, c.data + "\r\n", m3);
    Assoc(c.size, c.ext + "\r\n", c.data + "\r\n");
    Assoc(c.ext, "\r\n", c.data + "\r\n");
  }

  lemma {:induction false} ChunksRead(m: Machine, cs: seq<Chunk>)
    requires m.state == ChunkSize && Clean(m)
    requires forall i :: 0 <= i < |cs| ==> ChunkOk(cs[i]) && ExtReadable(cs[i].ext)
    requires |m.content| + |DataOf(cs)| <= LONG_MAX
    ensures Reads(m, ChunksText(cs), m.(content := m.content + DataOf(cs)))
    decreases |cs|
  {
    if cs == [] {
      assert m.content + "" == m.content;
    } else {
      var front, c := cs[..|cs| - 1], cs[|cs| - 1];
      ChunksRead(m, front);
      var m1 := m.(content := m.content + DataOf(front));
      ChunkReads(m1, c);
      Assoc(m.content, DataOf(front), c.data);
      Then(m, ChunksText(front), m1, ChunkText(c), m.(content := m.content + DataOf(cs)));
    }
  }

  lemma {:induction false} TrailerNameChars(m: Machine, s: string)
    requires m.state == ChunkTrailerName && All(s, IsAlnum)
    ensures Reads(m, s, m)
    decreases |s|
  {
    if s != "" {
      TrailerNameChars(m, s[1..]);
    }
  }

  lemma TrailerEnds(m: Machine, next: Machine)
    requires m.state == ChunkTrailerValue && Clean(m)
    requires next == m.(state := ChunkSizeNewLine2)
    ensures Reads(m, "\r\n", next)
  {
    assert Strtol16("") == 0;
    TwoChars(m, '\r', m.(state := ChunkSizeNewLine), '\n', next);
  }

  lemma TrailerReads(m: Machine, t: Trailer)
    requires m.state == ChunkSizeNewLine2 && Clean(m) && TrailerOk(t)
      && TrailerReadable(t)
    ensures Reads(m, TrailerText(t), m)
  {
    var m1, m2 := m.(state := ChunkTrailerName), m.(state := ChunkTrailerValue);
    TrailerName(m, t.name);
    ColonReads(m1);
    SkipChars(m2, t.text);
    TrailerEnds(m2, m);
    Chain(m, t.name, m1, ":", m2, t.text, m2, "\r\n", m);
  }

  lemma TrailerName(m: Machine, s: string)
    requires m.state == ChunkSizeNewLine2 && s != "" && IsAlpha(s[0]) && All(s, IsAlnum)
    ensures Reads(m, s, m.(state := ChunkTrailerName))
  {
    TrailerNameChars(m.(state := ChunkTrailerName), s[1..]);
  }

  lemma ColonReads(m: Machine)
    requires m.state == ChunkTrailerName
    ensures Reads(m, ":", m.(state := ChunkTrailerValue))
  {
    OneChar(m, ':');
  }

  lemma {:induction false} TrailersRead(m: Machine, ts: seq<Trailer>)
    requires m.state == ChunkSizeNewLine2 && Clean(m)
    requires forall i :: 0 <= i < |ts| ==> TrailerOk(ts[i]) && TrailerReadable(ts[i])
    ensures Reads(m, TrailersText(ts), m)
    decreases |ts|
  {
    if ts != [] {
      TrailersRead(m, ts[..|ts| - 1]);
      TrailerReads(m, ts[|ts| - 1]);
      Then(m, TrailersText(ts[..|ts| - 1]), m, TrailerText(ts[|ts| - 1]), m);
    }
  }

  lemma Finish(m: Machine, rest: string)
    requires m.state == ChunkSizeNewLine2
    ensures Consume(m, "\r\n" + rest) == Outcome(Completed, m.(state := ChunkSizeNewLine3))
  {
    First(m, '\r', "\n" + rest);
    assert ['\r'] + ("\n" + rest) == "\r\n" + rest;
  }

  lemma ChunkedCompletes(m: Machine, b: Body, rest: string)
    requires m.state == ChunkSize && Clean(m) && m.content == ""
    requires b.Chunked? && BodyOk((0, true), b) && ChunkedReadable(b)
    ensures Consume(m, BodyText(b) + rest) == Outcome(Completed, m.(state := ChunkSizeNewLine3, content := Content(b)))
  {
    ChunksRead(m, b.chunks);
    assert "" + DataOf(b.chunks) == DataOf(b.chunks);
    var m1 := m.(content := DataOf(b.chunks));
    ZerosAreZero(b.zeros);
    SizeLineReads(m1, b.zeros, b.ext);
    var m2 := m1.(state := ChunkSizeNewLine2);
    TrailersRead(m2, b.trailers);
    Finish(m2, rest);
    var last := b.zeros + (b.ext + "\r\n");
    var trailers := TrailersText(b.trailers);
    ConsumeAppend(m2, trailers, "\r\n" + rest);
    ConsumeAppend(m1, last, trailers + ("\r\n" + rest));
    ConsumeAppend(m, ChunksText(b.chunks), last + (trailers + ("\r\n" + rest)));
    BodyShape(b, rest);
  }

  lemma BodyShape(b: Body, rest: string)
    requires b.Chunked?
    ensures BodyText(b) + rest == ChunksText(b.chunks)
      + ((b.zeros + (b.ext + "\r\n")) + (TrailersText(b.trailers) + ("\r\n" + rest)))
  {
    var cs, ext, ts := ChunksText(b.chunks), b.ext, TrailersText(b.trailers);
    Assoc(ts, "\r\n", rest);
    Assoc("\r\n", ts + "\r\n", rest);
    Assoc(ext, "\r\n" + (ts + "\r\n"), rest);
    Assoc(ext, "\r\n", (ts + "\r\n") + rest);
    Assoc(b.zeros, ext + ("\r\n" + (ts + "\r\n")), rest);
    Assoc(b.zeros, ext + "\r\n", (ts + "\r\n") + rest);
    Assoc(cs, b.zeros + (ext + ("\r\n" + (ts + "\r\n"))), rest);
  }

  // ---------- chunked bodies that are not read ----------

  lemma ChunkFails(m: Machine, c: Chunk)
    requires m.state == ChunkSize && Clean(m) && ChunkOk(c)
    requires !ExtReadable(c.ext) || |m.content| + |c.data| > LONG_MAX
    ensures Fails(m, ChunkText(c))
  {
    if !ExtReadable(c.ext) {
      SizeFails(m, c.size, c.ext, "\r\n" + (c.data + "\r\n"));
    } else {
      SizeLineFaults(m, c.size, c.ext);
      FailsOn(m, c.size + (c.ext + "\r\n"), c.data + "\r\n");
      Assoc(c.size, c.ext + "\r\n", c.data + "\r\n");
      Assoc(c.ext, "\r\n", c.data + "\r\n");
    }
  }

  lemma SizeFails(m: Machine, size: string, e: string, rest: string)
    requires m.state == ChunkSize && All(size, IsHex) && ExtOk(e) && !ExtReadable(e)
    ensures Fails(m, size + (e + rest))
  {
    var m1 := m.(chunkSizeStr := m.chunkSizeStr + size);
    SizeChars(m, size);
    ExtensionReads(m1, e);
    FailsOn(m1, e, rest);
    FailsLater(m, size, m1, e + rest);
  }

  /** An extension that is not accepted, or more data than the content has room for. */
  predicate ChunksBad(room: int, cs: seq<Chunk>) {
    (exists i :: 0 <= i < |cs| && !ExtReadable(cs[i].ext)) || |DataOf(cs)| > room
  }

  lemma {:induction false} ChunksFail(m: Machine, cs: seq<Chunk>)
    requires m.state == ChunkSize && Clean(m) && ChunksBad(LONG_MAX - |m.content|, cs)
    requires forall i :: 0 <= i < |cs| ==> ChunkOk(cs[i])
    ensures Fails(m, ChunksText(cs))
    decreases |cs|
  {
    var front, c := cs[..|cs| - 1], cs[|cs| - 1];
    if ChunksBad(LONG_MAX - |m.content|, front) {
      ChunksFail(m, front);
      FailsOn(m, ChunksText(front), ChunkText(c));
    } else {
      LastChunkFails(m, front, c);
    }
  }

  lemma LastChunkFails(m: Machine, front: seq<Chunk>, c: Chunk)
    requires m.state == ChunkSize && Clean(m) && |m.content| + |DataOf(front)| <= LONG_MAX && ChunkOk(c)
    requires forall i :: 0 <= i < |front| ==> ChunkOk(front[i]) && ExtReadable(front[i].ext)
    requires !ExtReadable(c.ext) || |m.content| + |DataOf(front)| + |c.data| > LONG_MAX
    ensures Fails(m, ChunksText(front) + ChunkText(c))
  {
    var m1 := m.(content := m.content + DataOf(front));
    ChunksRead(m, front);
    ChunkFails(m1, c);
    FailsLater(m, ChunksText(front), m1, ChunkText(c));
  }

  lemma {:induction false} TrailerNameFails(m: Machine, s: string)
    requires m.state == ChunkTrailerName && All(s, NameChar) && !All(s, IsAlnum)
    ensures Fails(m, s)
    decreases |s|
  {
    if IsAlnum(s[0]) {
      assert !All(s[1..], IsAlnum) by {
        var i :| 0 <= i < |s| && !IsAlnum(s[i]);
        assert s[1..][i - 1] == s[i];
      }
      TrailerNameFails(m, s[1..]);
    } else {
      assert NameChar(s[0]);
    }
  }

  lemma TrailerNameStops(m: Machine, s: string)
    requires m.state == ChunkSizeNewLine2 && s != "" && All(s, NameChar) && !(IsAlpha(s[0]) && All(s, IsAlnum))
    ensures Fails(m, s)
  {
    assert NameChar(s[0]);
    if IsAlpha(s[0]) {
      assert !All(s[1..], IsAlnum) by {
        var i :| 0 <= i < |s| && !IsAlnum(s[i]);
        assert s[1..][i - 1] == s[i];
      }
      TrailerNameFails(m.(state := ChunkTrailerName), s[1..]);
    }
  }

  lemma TrailerTextStops(m: Machine, text: string)
    requires m.state == ChunkTrailerName && All(text, FieldChar) && !All(text, SkipChar)
    ensures Fails(m, ":" + (text + "\r\n"))
  {
    var m1 := m.(state := ChunkTrailerValue);
    ColonReads(m);
    SkipFails(m1, text);
    FailsOn(m1, text, "\r\n");
    FailsLater(m, ":", m1, text + "\r\n");
  }

  lemma TrailerFails(m: Machine, t: Trailer)
    requires m.state == ChunkSizeNewLine2 && TrailerOk(t) && !TrailerReadable(t)
    ensures Fails(m, TrailerText(t))
  {
    var rest := ":" + (t.text + "\r\n");
    if IsAlpha(t.name[0]) && All(t.name, IsAlnum) {
      TrailerName(m, t.name);
      TrailerTextStops(m.(state := ChunkTrailerName), t.text);
      FailsLater(m, t.name, m.(state := ChunkTrailerName), rest);
    } else {
      TrailerNameStops(m, t.name);
      FailsOn(m, t.name, rest);
    }
  }

  lemma {:induction false} TrailersFail(m: Machine, ts: seq<Trailer>)
    requires m.state == ChunkSizeNewLine2 && Clean(m)
    requires forall i :: 0 <= i < |ts| ==> TrailerOk(ts[i])
    requires exists i :: 0 <= i < |ts| && !TrailerReadable(ts[i])
    ensures Fails(m, TrailersText(ts))
    decreases |ts|
  {
    var front, t := ts[..|ts| - 1], ts[|ts| - 1];
    if exists i :: 0 <= i < |front| && !TrailerReadable(front[i]) {
      TrailersFail(m, front);
      FailsOn(m, TrailersText(front), TrailerText(t));
    } else {
      TrailersRead(m, front);
      TrailerFails(m, t);
      FailsLater(m, TrailersText(front), m, TrailerText(t));
    }
  }

  lemma ChunkedFails(m: Machine, b: Body, rest: string)
    requires m.state == ChunkSize && Clean(m)
    requires b.Chunked? && BodyOk((0, true), b) && !ChunkedReadable(b)
    ensures Fails(m, BodyText(b) + rest)
  {
    var last := b.zeros + (b.ext + "\r\n");
    var tail := TrailersText(b.trailers) + ("\r\n" + rest);
    BodyShape(b, rest);
    if ChunksBad(LONG_MAX - |m.content|, b.chunks) {
      ChunksFail(m, b.chunks);
      FailsOn(m, ChunksText(b.chunks), last + tail);
    } else {
      ChunksRead(m, b.chunks);
      var m1 := m.(content := m.content + DataOf(b.chunks));
      LastFails(m1, b, last, tail, rest);
      FailsLater(m, ChunksText(b.chunks), m1, last + tail);
    }
  }

  lemma LastFails(m: Machine, b: Body, last: string, tail: string, rest: string)
    requires m.state == ChunkSize && Clean(m) && b.Chunked? && BodyOk((0, true), b)
    requires !ExtReadable(b.ext) || exists i :: 0 <= i < |b.trailers| && !TrailerReadable(b.trailers[i])
    requires last == b.zeros + (b.ext + "\r\n") && tail == TrailersText(b.trailers) + ("\r\n" + rest)
    ensures Fails(m, last + tail)
  {
    ZerosAreZero(b.zeros);
    if !ExtReadable(b.ext) {
      SizeFails(m, b.zeros, b.ext, "\r\n");
      FailsOn(m, last, tail);
    } else {
      SizeLineReads(m, b.zeros, b.ext);
      var m2 := m.(state := ChunkSizeNewLine2);
      TrailersFail(m2, b.trailers);
      FailsOn(m2, TrailersText(b.trailers), "\r\n" + rest);
      FailsLater(m, last, m2, tail);
    }
  }

  // ---------- the sized body ----------

  lemma {:induction false} SizedCompletes(m: Machine, data: string, rest: string)
    requires m.state == Post && m.contentSize == |data| > 0
    ensures Consume(m, data + rest) == Outcome(Completed, m.(contentSize := 0, content := m.content + data))
    decreases |data|
  {
    assert (data + rest)[1..] == data[1..] + rest;
    if |data| == 1 {
      assert data == [data[0]];
    } else {
      SizedCompletes(m.(contentSize := m.contentSize - 1, content := m.content + [data[0]]), data[1..], rest);
      assert (m.content + [data[0]]) + data[1..] == m.content + data;
    }
  }

  // ---------- the whole response ----------

  lemma BodyCompletes(m: Machine, b: Body, rest: string)
    requires m.state == HeaderLineStart && Clean(m) && m.content == ""
    requires BodyOk((m.contentSize, m.chunked), b) && BodyReadable(b)
    ensures var o := Consume(m, "\r\n" + (BodyText(b) + rest));
      && o.result == Completed
      && o.machine == m.(state := o.machine.state, contentSize := o.machine.contentSize, content := Content(b))
  {
    BlankLine(m, BodyText(b) + rest);
    match b
    case Sized(data) =>
      SizedCompletes(m.(state := Post), data, rest);
      assert "" + data == data;
    case Chunked(_, _, _, _) =>
      ChunkedCompletes(m.(state := ChunkSize), b, rest);
    case _ =>
  }

  lemma BodyNotRead(m: Machine, b: Body, rest: string)
    requires m.state == HeaderLineStart && Clean(m) && m.content == ""
    requires BodyOk((m.contentSize, m.chunked), b) && !BodyReadable(b)
    ensures var o := Consume(m, "\r\n" + (BodyText(b) + rest));
      o.result != Completed || o.machine.content != Content(b)
  {
    BlankLine(m, BodyText(b) + rest);
    if b.Chunked? {
      ChunkedFails(m.(state := ChunkSize), b, rest);
    }
  }

  /** The empty line behind the headers decides how the body is read. */
  lemma BlankLine(m: Machine, tail: string)
    requires m.state == HeaderLineStart
    ensures Consume(m, "\r\n" + tail) ==
      if m.chunked then Consume(m.(state := ChunkSize), tail)
      else if m.contentSize == 0 then Outcome(Completed, m.(state := ExpectingNewline3))
      else Consume(m.(state := Post), tail)
  {
    First(m, '\r', "\n" + tail);
    assert ['\r'] + ("\n" + tail) == "\r\n" + tail;
    var m1 := m.(state := ExpectingNewline3);
    if m.chunked || m.contentSize != 0 {
      First(m1, '\n', tail);
    }
  }

  /** The parser completed and filled the response with what was sent. */
  predicate ReadAs(o: Outcome, r: Response)
    requires Good(r)
  {
    && o.result == Completed && o.machine.content == Content(r.body) && o.machine.headers == Meanings(r.fields)
    && o.machine.statusCode == Dec(r.line.code, 0) && o.machine.status == r.line.reason
    && o.machine.versionMajor == Dec(r.line.major, 0) && o.machine.versionMinor == Dec(r.line.minor, 0)
  }

  /** Every readable response, split in any way across parse calls and followed by anything, completes with exactly
      its data as content, its headers, and its status. */
  lemma ResponseCompletes(r: Response, rest: string, pieces: seq<string>)
    requires Good(r) && Readable(r) && Concat(pieces) == Text(r) + rest
    ensures ReadAs(Drive(Init(), pieces), r)
  {
    SplitIndependent(Init(), pieces);
    var m1 := AfterLine(r.line);
    LineReads(r.line);
    FieldsRead(m1, r.fields);
    var m2 := AfterFields(m1, r.fields);
    BodyCompletes(m2, r.body, rest);
    var body := "\r\n" + (BodyText(r.body) + rest);
    ConsumeAppend(m1, FieldsText(r.fields), body);
    ConsumeAppend(Init(), LineText(r.line), FieldsText(r.fields) + body);
    TextShape(r, rest);
  }

  lemma TextShape(r: Response, rest: string)
    ensures Text(r) + rest == LineText(r.line) + (FieldsText(r.fields) + ("\r\n" + (BodyText(r.body) + rest)))
  {
    var l, h, b := LineText(r.line), FieldsText(r.fields), BodyText(r.body);
    assert ("\r\n" + b) + rest == "\r\n" + (b + rest);
    assert (h + ("\r\n" + b)) + rest == h + (("\r\n" + b) + rest);
    assert (l + (h + ("\r\n" + b))) + rest == l + ((h + ("\r\n" + b)) + rest);
  }

  // ---------- status lines that are not read right ----------

  predicate BeforeText(s: State) {
    BeforeBlank(s) || s == StatusTextStart
  }

  predicate BeforeBlank(s: State) {
    match s
    case StatusStart | VersionHt | VersionHtt | VersionHttp | VersionSlash | MajorStart | Major | MinorStart | Minor
       | StatusCodeStart | StatusCode => true
    case _ => false
  }

  /** What the parser has of the status line: ASCII only, a code from 100 on once it is past it, some text once it is
      past that, and version numbers that its sums reach without overflow. */
  predicate LineSound(m: Machine) {
    && All(m.status, IsChar) && (BeforeBlank(m.state) || m.statusCode >= 100) && (BeforeText(m.state) || m.status != "")
    && m.versionMajor + '0' as int <= INT_MAX && m.versionMinor + '0' as int <= INT_MAX
  }

  lemma StepKeepsLine(m: Machine, c: char)
    requires LineSound(m)
    ensures LineSound(Step(m, c).machine) && (Step(m, c).result == Completed ==> !BeforeText(m.state))
  {
    if InStatus(m.state) {
      StatusKeepsLine(m, c);
    } else {
      LaterKeepsLine(m, c);
    }
  }

  lemma StatusKeepsLine(m: Machine, c: char)
    requires LineSound(m) && InStatus(m.state)
    ensures LineSound(StepStatus(m, c).machine) && StepStatus(m, c).result != Completed
  {
  }

  predicate InBody(s: State) {
    match s
    case ChunkSize | ChunkExtensionName | ChunkExtensionValue | ChunkSizeNewLine | ChunkSizeNewLine3
       | ChunkTrailerName | ChunkTrailerValue | ChunkDataNewLine1 | ChunkDataNewLine2 | ChunkData => true
    case _ => false
  }

  /** What the status line left is not touched afterwards. */
  predicate KeepsLine(m: Machine, m': Machine) {
    && m'.status == m.status && m'.statusCode == m.statusCode && !BeforeText(m'.state)
    && m'.versionMajor == m.versionMajor && m'.versionMinor == m.versionMinor
  }

  lemma HeaderKeepsLine(m: Machine, c: char)
    requires InHeader(m.state)
    ensures KeepsLine(m, StepHeader(m, c).machine)
  {
  }

  lemma BodyStaysBody(m: Machine, c: char)
    requires !InStatus(m.state) && !InHeader(m.state)
    ensures !InStatus(StepBody(m, c).machine.state)
  {
    var next := StepBody(m, c).machine.state;
    if m.state != ChunkSizeNewLine {
      assert next == m.state || InBody(next);
    }
  }

  lemma BodyKeepsLine(m: Machine, c: char)
    requires !InStatus(m.state) && !InHeader(m.state)
    ensures KeepsLine(m, StepBody(m, c).machine)
  {
    BodyStaysBody(m, c);
    var m' := StepBody(m, c).machine;
    assert m' == m.(state := m'.state, contentSize := m'.contentSize, content := m'.content,
                    chunkSizeStr := m'.chunkSizeStr, chunkSize := m'.chunkSize);
  }

  lemma LaterKeepsLine(m: Machine, c: char)
    requires !InStatus(m.state)
    ensures KeepsLine(m, Step(m, c).machine)
  {
    if InHeader(m.state) {
      HeaderKeepsLine(m, c);
    } else {
      BodyKeepsLine(m, c);
    }
  }

  lemma {:induction false} CompletesSound(m: Machine, s: string)
    requires LineSound(m)
    ensures Consume(m, s).result == Completed ==>
      LineSound(Consume(m, s).machine) && !BeforeText(Consume(m, s).machine.state)
    decreases |s|
  {
    if s != "" {
      StepKeepsLine(m, s[0]);
      if Step(m, s[0]).result == Incompleted {
        CompletesSound(Step(m, s[0]).machine, s[1..]);
      } else if !InStatus(m.state) {
        LaterKeepsLine(m, s[0]);
      }
    }
  }

  lemma LineNotRead(r: Response, s: string)
    requires Good(r) && !LineReadable(r.line)
    ensures !ReadAs(Consume(Init(), s), r)
  {
    CompletesSound(Init(), s);
    ThreeDigits(r.line.code);
  }

  // ---------- exactly when ----------

  lemma FieldsNotRead(m: Machine, r: Response, body: string)
    requires Good(r) && m.state == HeaderLineStart && m.headers == [] && m.contentSize == 0 && !m.chunked
    requires exists i :: 0 <= i < |r.fields| && !FieldReadable(r.fields[i])
    ensures !ReadAs(Consume(m, FieldsText(r.fields) + body), r)
  {
    var j := FieldsSpoil(m, r.fields);
    SpoilsOn(m, FieldsText(r.fields), body, j, |r.fields[j].value|);
    assert Meanings(r.fields)[j].value == r.fields[j].value;
  }

  lemma RestNotRead(r: Response, rest: string)
    requires Good(r) && !Readable(r) && LineReadable(r.line)
    ensures !ReadAs(Consume(Init(), Text(r) + rest), r)
  {
    var m1 := AfterLine(r.line);
    var body := "\r\n" + (BodyText(r.body) + rest);
    assert !ReadAs(Consume(m1, FieldsText(r.fields) + body), r) by {
      if forall i :: 0 <= i < |r.fields| ==> FieldReadable(r.fields[i]) {
        FieldsRead(m1, r.fields);
        var m2 := AfterFields(m1, r.fields);
        ConsumeAppend(m1, FieldsText(r.fields), body);
        BodyNotRead(m2, r.body, rest);
      } else {
        FieldsNotRead(m1, r, body);
      }
    }
    LineReads(r.line);
    TextShape(r, rest);
    ConsumeAppend(Init(), LineText(r.line), FieldsText(r.fields) + body);
  }

  /** A well-formed response is read as it was sent, whatever the split, if and only if it is readable: a reason phrase
      of ASCII that is not empty, a code from 100 on, version numbers and content lengths that fit an int, exactly one
      blank before each header value, none behind it and no tab in it, chunk extensions and trailers in letters, digits
      and blanks with at most one extension, no more chunk data than a vector holds, and no body that ends with the
      connection. */
  lemma ReadRightIff(r: Response, rest: string, pieces: seq<string>)
    requires Good(r) && Concat(pieces) == Text(r) + rest
    ensures ReadAs(Drive(Init(), pieces), r) <==> Readable(r)
  {
    if Readable(r) {
      ResponseCompletes(r, rest, pieces);
    } else {
      SplitIndependent(Init(), pieces);
      if !LineReadable(r.line) {
        LineNotRead(r, Concat(pieces));
      } else {
        RestNotRead(r, rest);
      }
    }
  }

  function Ok200(fields: seq<Field>): Response {
    Response(StatusLine("1", "1", "200", "OK"), fields, NoBody)
  }

  lemma OneFieldIsGood(f: Field)
    requires FieldOk(f) && f.name == "Age"
    ensures Good(Ok200([f]))
  {
    assert [f][..0] == [] && Framing([]) == (0, false);
  }

  /** A well-formed response with no blank behind the colon of an Age header, or with several, is not read. */
  lemma BlanksMatter(f: Field)
    requires FieldOk(f) && f.name == "Age" && |f.lead| != 1
    ensures Good(Ok200([f])) && !ReadAs(Consume(Init(), Text(Ok200([f]))), Ok200([f]))
  {
    OneFieldIsGood(f);
    assert !FieldReadable(Ok200([f]).fields[0]);
    NotRead(Ok200([f]));
  }

  /** A well-formed response with an empty reason phrase is not read. */
  lemma EmptyReasonMatters()
    ensures var r := Ok200([]).(line := StatusLine("1", "1", "200", ""));
      Good(r) && !ReadAs(Consume(Init(), Text(r)), r)
  {
    NotRead(Ok200([]).(line := StatusLine("1", "1", "200", "")));
  }

  lemma NotRead(r: Response)
    requires Good(r) && !Readable(r)
    ensures !ReadAs(Consume(Init(), Text(r)), r)
  {
    var pieces := [Text(r)];
    assert pieces[1..] == [];
    assert Concat(pieces) == Text(r) + "";
    ReadRightIff(r, "", pieces);
    SplitIndependent(Init(), pieces);
  }
}
