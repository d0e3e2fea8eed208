/** Encoding messages as an event stream and parsing them back (sdk/frontend/src/http/sse/parser.ts). */
module SseRoundTrip {
  import opened Optional
  import opened SseParser

  // ----- what the parser can emit -----

  predicate NoCR(s: string) { forall i :: 0 <= i < |s| ==> s[i] != '\r' }

  predicate Sendable(m: Message) {
    && NoCR(m.data)
    && m.event != "" && NoLineEnd(m.event)
    && NoLineEnd(m.id) && '\0' !in m.id
    && (m.retry.Some? ==> m.retry.value <= MAX_SAFE_INTEGER)
  }

  /** Sendable messages in which a reconnection time, once given, is never absent again. */
  predicate Encodable(earlier: Option<nat>, messages: seq<Message>)
    decreases |messages|
  {
    messages == [] ||
    (Sendable(messages[0]) && (earlier.Some? ==> messages[0].retry.Some?) && Encodable(messages[0].retry, messages[1..]))
  }

  // ----- the encoder -----

  function Digit(d: int): char
    requires 0 <= d < 10
  {
    (d + '0' as int) as char
  }

  function Decimal(n: nat): string {
    if n < 10 then [Digit(n)] else Decimal(n / 10) + [Digit(n % 10)]
  }

  function SplitAt(s: string): (n: nat)
    ensures n <= |s| && (forall i :: 0 <= i < n ==> s[i] != '\n') && (n < |s| ==> s[n] == '\n')
  {
    if s == [] || s[0] == '\n' then 0 else 1 + SplitAt(s[1..])
  }

  function SplitLF(s: string): (parts: seq<string>)
    ensures parts != []
    decreases |s|
  {
    var n := SplitAt(s);
    if n == |s| then [s] else [s[..n]] + SplitLF(s[n + 1..])
  }

  /** A tight encoder leaves out what need not be written: here the space, where the content has none of its own
      in front, and the colon of an empty content. */
  function FieldLine(field: string, content: string, tight: bool): string {
    if tight && content == "" then field
    else if tight && content[0] != ' ' then field + ":" + content
    else field + ": " + content
  }

  function DataLines(parts: seq<string>, tight: bool): seq<string> {
    if parts == [] then [] else [FieldLine("data", parts[0], tight)] + DataLines(parts[1..], tight)
  }

  function Optionally(present: bool, line: string): seq<string> { if present then [line] else [] }

  /** What the tight encoder leaves out: an identifier or reconnection time that stays, the default event name. */
  function HeaderLines(m: Message, id: string, retry: Option<nat>, tight: bool): seq<string> {
    Optionally(m.retry.Some? && !(tight && m.retry == retry), FieldLine("retry", Decimal(m.retry.GetOr(0)), tight))
    + (Optionally(!tight || m.id != id, FieldLine("id", m.id, tight))
       + Optionally(!tight || m.event != "message", FieldLine("event", m.event, tight)))
  }

  /** Field lines for one message, closed by a blank line. */
  function MessageLines(m: Message, id: string, retry: Option<nat>, tight: bool): seq<string> {
    HeaderLines(m, id, retry, tight) + DataLines(SplitLF(m.data), tight) + [""]
  }

  /** `id` and `retry` are those of the message before. */
  function StreamLines(messages: seq<Message>, id: string, retry: Option<nat>, tight: bool): seq<string>
    decreases |messages|
  {
    if messages == [] then []
    else
      var m := messages[0];
      MessageLines(m, id, retry, tight) + StreamLines(messages[1..], m.id, m.retry, tight)
  }

  datatype EndOfLine = LF | CR | CRLF

  function EndText(e: EndOfLine): string {
    match e
    case LF => "\n"
    case CR => "\r"
    case CRLF => "\r\n"
  }

  /** Each line with an end of its own. */
  function Terminate(lines: seq<string>, ends: seq<EndOfLine>): string
    requires |ends| == |lines|
  {
    if lines == [] then "" else lines[0] + EndText(ends[0]) + Terminate(lines[1..], ends[1..])
  }

  /** No CR in front of a blank line that ends in LF: those two would be one end. */
  predicate Separate(lines: seq<string>, ends: seq<EndOfLine>)
    requires |ends| == |lines|
  {
    forall i :: 0 < i < |lines| && ends[i - 1] == CR && lines[i] == "" ==> ends[i] != LF
  }

  function Encode(messages: seq<Message>, ends: seq<EndOfLine>, tight: bool): string
    requires |ends| == |StreamLines(messages, "", None, tight)|
  {
    Terminate(StreamLines(messages, "", None, tight), ends)
  }

  // ----- line ends -----

  predicate AllLines(lines: seq<string>) { forall i :: 0 <= i < |lines| ==> NoLineEnd(lines[i]) }

  lemma TerminateStart(lines: seq<string>, ends: seq<EndOfLine>)
    requires |ends| == |lines| && AllLines(lines) && lines != [] && (lines[0] == "" ==> ends[0] != LF)
    ensures Terminate(lines, ends) != "" && Terminate(lines, ends)[0] != '\n'
  {
    var text := Terminate(lines, ends);
    if lines[0] != "" {
      assert text[0] == lines[0][0];
    } else {
      assert text[0] == EndText(ends[0])[0];
    }
  }

  lemma LinesConsEnd(line: string, rest: string, e: EndOfLine)
    requires NoLineEnd(line) && (e != CR || rest == "" || rest[0] != '\n')
    ensures Lines(line + EndText(e) + rest) == [line] + Lines(rest)
  {
    hide Lines;
    var text := EndText(e) + rest;
    assert line + EndText(e) + rest == line + text;
    LinesCons(line, text);
    match e {
      case LF => assert text[1..] == rest;
      case CR => assert text[1..] == rest;
      case CRLF => assert text[1..] == "\n" + rest && text[1..][1..] == rest;
    }
  }

  /** Ending every line in any way, as long as the ends stay apart, and splitting again gives the lines back. */
  lemma {:induction false} LinesOfTerminate(lines: seq<string>, ends: seq<EndOfLine>)
    requires |ends| == |lines| && AllLines(lines) && Separate(lines, ends)
    ensures Lines(Terminate(lines, ends)) == lines
  {
    hide Lines;
    if lines == [] {
      NoLines("");
    } else {
      var rest := Terminate(lines[1..], ends[1..]);
      LinesOfTerminate(lines[1..], ends[1..]);
      if ends[0] == CR && |lines| > 1 { TerminateStart(lines[1..], ends[1..]); }
      LinesConsEnd(lines[0], rest, ends[0]);
    }
  }

  lemma {:induction false} LinesHaveNoEnds(text: string)
    ensures AllLines(Lines(text))
    decreases |text|
  {
    if FirstEnd(text) < |text| { LinesHaveNoEnds(AfterEnd(text)); }
  }

  /** Rewriting the line ends of any text changes no message. */
  lemma LineEndsDoNotMatter(text: string, ends: seq<EndOfLine>)
    requires |ends| == |Lines(text)| && Separate(Lines(text), ends)
    ensures Standard(Terminate(Lines(text), ends)) == Standard(text)
  {
    LinesHaveNoEnds(text);
    LinesOfTerminate(Lines(text), ends);
  }

  // ----- decimal numerals -----

  lemma {:induction false} DecimalDigits(n: nat)
    ensures AllDigits(Decimal(n)) && DecimalValue(Decimal(n)) == n
  {
    if n < 10 {
      var s := Decimal(n);
      assert s[..0] == "" && DecimalValue(s[..0]) == 0;
    } else {
      DecimalDigits(n / 10);
      var s := Decimal(n);
      assert s[..|s| - 1] == Decimal(n / 10);
    }
  }

  // ----- one field line -----

  predicate ColonFree(field: string) { forall i :: 0 <= i < |field| ==> field[i] != ':' }

  lemma {:induction false} ColonAfter(field: string, rest: string)
    requires ColonFree(field)
    ensures ColonAt(field + ":" + rest) == |field|
  {
    var line := field + ":" + rest;
    if field != [] {
      assert line[1..] == field[1..] + ":" + rest;
      ColonAfter(field[1..], rest);
    }
  }

  lemma {:induction false} NoColon(field: string)
    requires ColonFree(field)
    ensures ColonAt(field) == |field|
  {
    if field != [] { NoColon(field[1..]); }
  }

  lemma AfterColon(field: string, rest: string)
    requires ColonFree(field)
    ensures var line := field + ":" + rest;
            ColonAt(line) == |field| && line[..|field|] == field && line[|field| + 1..] == rest
  {
    ColonAfter(field, rest);
  }

  /** A value written after a colon and a space is taken exactly as it is. */
  lemma FieldIsTaken(f: Fields, field: string, value: string)
    requires ColonFree(field)
    ensures Consume(f, field + ": " + value) == (Assign(f, field, value), [])
    ensures Assign(f, field, value)
         == if field == "data" then f.(data := f.data + [value])
            else if field == "event" then f.(event := value)
            else if field == "id" && '\0' !in value then f.(id := value)
            else if field == "retry" && AllDigits(value) && DecimalValue(value) <= 9007199254740991
                 then f.(retry := Some(DecimalValue(value)))
            else f
  {
    AfterColon(field, " " + value);
    assert field + ": " + value == field + ":" + (" " + value);
    assert DropSpace(" " + value) == value;
  }

  /** The one space may be left out, in front of a value that does not begin with another; and a field alone on
      its line is a field without a value. */
  lemma SpaceIsOptional(f: Fields, field: string, value: string)
    requires ColonFree(field)
    ensures !(" " <= value) ==> Consume(f, field + ":" + value) == Consume(f, field + ": " + value)
    ensures field != "" ==> Consume(f, field) == Consume(f, field + ": ")
  {
    FieldIsTaken(f, field, value);
    FieldIsTaken(f, field, "");
    assert field + ": " + "" == field + ": ";
    AfterColon(field, value);
    NoColon(field);
    assert field[..|field|] == field;
    hide Assign;
  }

  /** The standard reads the three forms the same way. */
  lemma StandardSpaceIsOptional(b: Buffers, field: string, value: string)
    requires ColonFree(field)
    ensures ProcessLine(b, field + ": " + value) == (ProcessField(b, field, value), [])
    ensures !(" " <= value) ==> ProcessLine(b, field + ":" + value) == (ProcessField(b, field, value), [])
    ensures field != "" ==> ProcessLine(b, field) == (ProcessField(b, field, ""), [])
  {
    AfterColon(field, " " + value);
    assert field + ": " + value == field + ":" + (" " + value);
    assert " " <= " " + value && (" " + value)[1..] == value;
    AfterColon(field, value);
    NoColon(field);
  }

  lemma ConsumeField(f: Fields, field: string, content: string, tight: bool)
    requires field != "" && ColonFree(field)
    ensures Consume(f, FieldLine(field, content, tight)) == (Assign(f, field, content), [])
  {
    hide Consume, Assign;
    FieldIsTaken(f, field, content);
    SpaceIsOptional(f, field, content);
    if content == "" { assert field + ": " + "" == field + ": "; }
  }

  lemma {:induction false} ZerosAreZero(zeros: nat)
    ensures DecimalValue(seq(zeros, _ => '0')) == 0
  {
    if zeros > 0 {
      assert seq(zeros, _ => '0')[..zeros - 1] == seq(zeros - 1, _ => '0');
      ZerosAreZero(zeros - 1);
    }
  }

  lemma {:induction false} LeadingZeros(zeros: nat, s: string)
    requires AllDigits(s)
    ensures var t := seq(zeros, _ => '0') + s; AllDigits(t) && DecimalValue(t) == DecimalValue(s)
    decreases |s|
  {
    var t := seq(zeros, _ => '0') + s;
    if |s| == 1 {
      assert t[..|t| - 1] == seq(zeros, _ => '0');
      ZerosAreZero(zeros);
      assert s[..0] == "" && DecimalValue(s[..0]) == 0;
    } else {
      LeadingZeros(zeros, s[..|s| - 1]);
      assert t[..|t| - 1] == seq(zeros, _ => '0') + s[..|s| - 1];
    }
  }

  /** Reconnection times: any numeral of digits, leading zeros included, up to 2^53 - 1, and nothing else. */
  lemma RetryIsNumeral(f: Fields, zeros: nat, n: nat)
    ensures Assign(f, "retry", seq(zeros, _ => '0') + Decimal(n)).retry == if n < 0x20_0000_0000_0000 then Some(n) else f.retry
  {
    DecimalDigits(n);
    LeadingZeros(zeros, Decimal(n));
  }

  lemma NoNumeralNoRetry(f: Fields, value: string)
    requires value == "" || exists c :: c in value && c !in "0123456789"
    ensures Assign(f, "retry", value) == f
  {
  }

  // ----- splitting and joining data -----

  lemma JoinCons(part: string, rest: seq<string>)
    requires rest != []
    ensures Join([part] + rest) == part + "\n" + Join(rest)
  {
    assert ([part] + rest)[1..] == rest;
  }

  lemma {:induction false} JoinSplit(s: string)
    ensures Join(SplitLF(s)) == s
    decreases |s|
  {
    var n := SplitAt(s);
    if n < |s| {
      JoinSplit(s[n + 1..]);
      JoinCons(s[..n], SplitLF(s[n + 1..]));
      hide Join;
      assert s == s[..n] + "\n" + s[n + 1..];
    }
  }

  lemma {:induction false} SplitParts(s: string)
    requires NoCR(s)
    ensures AllLines(SplitLF(s))
    decreases |s|
  {
    var n := SplitAt(s);
    if n < |s| { SplitParts(s[n + 1..]); }
  }

  // ----- runs of lines -----

  function AfterLines(f: Fields, lines: seq<string>): Fields
    decreases |lines|
  {
    if lines == [] then f else AfterLines(Consume(f, lines[0]).0, lines[1..])
  }

  lemma {:induction false} ConsumeConcat(f: Fields, a: seq<string>, b: seq<string>)
    ensures ConsumeLines(f, a + b) == ConsumeLines(f, a) + ConsumeLines(AfterLines(f, a), b)
    ensures AfterLines(f, a + b) == AfterLines(AfterLines(f, a), b)
    decreases |a|
  {
    hide Consume;
    if a == [] {
      assert a + b == b && [] + ConsumeLines(f, b) == ConsumeLines(f, b);
    } else {
      assert (a + b)[1..] == a[1..] + b;
      ConsumeConcat(Consume(f, a[0]).0, a[1..], b);
    }
  }

  lemma ConsumeOne(f: Fields, line: string)
    ensures ConsumeLines(f, [line]) == Consume(f, line).1 && AfterLines(f, [line]) == Consume(f, line).0
  {
    hide Consume;
    assert [line][1..] == [];
    assert Consume(f, line).1 + [] == Consume(f, line).1;
  }

  lemma ConsumeDataLine(f: Fields, part: string, tight: bool)
    ensures Consume(f, FieldLine("data", part, tight)) == (f.(data := f.data + [part]), [])
  {
    ConsumeField(f, "data", part, tight);
  }

  lemma ConsumeNone(f: Fields)
    ensures ConsumeLines(f, []) == [] && AfterLines(f, []) == f
  {
  }

  lemma ConsumeSilent(f: Fields, f1: Fields, line: string, rest: seq<string>)
    requires Consume(f, line) == (f1, [])
    ensures ConsumeLines(f, [line] + rest) == ConsumeLines(f1, rest)
    ensures AfterLines(f, [line] + rest) == AfterLines(f1, rest)
  {
    hide Consume;
    assert ([line] + rest)[1..] == rest;
    assert [] + ConsumeLines(f1, rest) == ConsumeLines(f1, rest);
  }

  lemma {:induction false} ConsumeData(f: Fields, parts: seq<string>, tight: bool)
    ensures ConsumeLines(f, DataLines(parts, tight)) == []
    ensures AfterLines(f, DataLines(parts, tight)) == f.(data := f.data + parts)
    decreases |parts|
  {
    hide Consume, FieldLine, ConsumeLines, AfterLines;
    if parts == [] {
      ConsumeNone(f);
      assert f.data + [] == f.data;
    } else {
      var f1 := f.(data := f.data + [parts[0]]);
      ConsumeDataLine(f, parts[0], tight);
      ConsumeData(f1, parts[1..], tight);
      ConsumeSilent(f, f1, FieldLine("data", parts[0], tight), DataLines(parts[1..], tight));
      assert f1.data + parts[1..] == f.data + parts;
    }
  }

  lemma ConsumeOptional(f: Fields, f1: Fields, present: bool, line: string, rest: seq<string>)
    requires if present then Consume(f, line) == (f1, []) else f1 == f
    ensures ConsumeLines(f, Optionally(present, line) + rest) == ConsumeLines(f1, rest)
    ensures AfterLines(f, Optionally(present, line) + rest) == AfterLines(f1, rest)
  {
    if present { ConsumeSilent(f, f1, line, rest); } else { assert [] + rest == rest; }
  }

  /** The fields after the header, which a tight encoder leaves without the default event name. */
  function Headed(f: Fields, m: Message, tight: bool): Fields {
    f.(id := m.id, event := if tight && m.event == "message" then "" else m.event,
       retry := if m.retry.Some? then m.retry else f.retry)
  }

  lemma ConsumeHeader(f: Fields, m: Message, tight: bool)
    requires Sendable(m) && f.event == ""
    ensures var lines := HeaderLines(m, f.id, f.retry, tight);
            ConsumeLines(f, lines) == [] && AfterLines(f, lines) == Headed(f, m, tight)
  {
    hide Consume, Decimal, FieldLine, ConsumeLines, AfterLines, Optionally;
    var numeral := Decimal(m.retry.GetOr(0));
    var f1 := f.(retry := if m.retry.Some? then m.retry else f.retry);
    var f2, f3 := f1.(id := m.id), Headed(f, m, tight);
    DecimalDigits(m.retry.GetOr(0));
    ConsumeField(f, "retry", numeral, tight);
    ConsumeField(f1, "id", m.id, tight);
    ConsumeField(f2, "event", m.event, tight);
    var withRetry, withId, withEvent := m.retry.Some? && !(tight && m.retry == f.retry), !tight || m.id != f.id,
                                        !tight || m.event != "message";
    var retry, id, event := FieldLine("retry", numeral, tight), FieldLine("id", m.id, tight), FieldLine("event", m.event, tight);
    ConsumeOptional(f, f1, withRetry, retry, Optionally(withId, id) + Optionally(withEvent, event));
    ConsumeOptional(f1, f2, withId, id, Optionally(withEvent, event));
    ConsumeOptional(f2, f3, withEvent, event, []);
    assert Optionally(withEvent, event) + [] == Optionally(withEvent, event);
    ConsumeNone(f3);
  }

  /** The lines of one message yield that message and leave its id and retry behind. */
  lemma ConsumeMessage(f: Fields, m: Message, tight: bool)
    requires Sendable(m) && f.data == [] && f.event == "" && (f.retry.Some? ==> m.retry.Some?)
    ensures ConsumeLines(f, MessageLines(m, f.id, f.retry, tight)) == [m]
    ensures AfterLines(f, MessageLines(m, f.id, f.retry, tight)) == Fields([], "", m.id, m.retry)
  {
    hide SplitLF, Decimal, HeaderLines;
    var parts, header := SplitLF(m.data), HeaderLines(m, f.id, f.retry, tight);
    var f1 := Headed(f, m, tight);
    var f2 := f1.(data := [] + parts);
    ConsumeHeader(f, m, tight);
    ConsumeData(f1, parts, tight);
    JoinSplit(m.data);
    assert [] + parts == parts;
    ConsumeOne(f2, "");
    ConsumeConcat(f, header, DataLines(parts, tight));
    ConsumeConcat(f, header + DataLines(parts, tight), [""]);
    assert Consume(f2, "").1 == [m];
  }

  lemma {:induction false} ConsumeStream(f: Fields, messages: seq<Message>, tight: bool)
    requires f.data == [] && f.event == "" && Encodable(f.retry, messages)
    ensures ConsumeLines(f, StreamLines(messages, f.id, f.retry, tight)) == messages
    decreases |messages|
  {
    hide MessageLines;
    if messages != [] {
      var m := messages[0];
      ConsumeMessage(f, m, tight);
      ConsumeConcat(f, MessageLines(m, f.id, f.retry, tight), StreamLines(messages[1..], m.id, m.retry, tight));
      ConsumeStream(Fields([], "", m.id, m.retry), messages[1..], tight);
    }
  }

  lemma NoEndConcat(a: string, b: string)
    requires NoLineEnd(a) && NoLineEnd(b)
    ensures NoLineEnd(a + b)
  {
  }

  lemma FieldLineClean(field: string, content: string, tight: bool)
    requires NoLineEnd(field) && NoLineEnd(content)
    ensures NoLineEnd(FieldLine(field, content, tight))
  {
    NoEndConcat(field, ": ");
    NoEndConcat(field, ":");
    NoEndConcat(field + ":", content);
    NoEndConcat(field + ": ", content);
  }

  lemma DataIsClean(part: string, tight: bool)
    requires NoLineEnd(part)
    ensures NoLineEnd(FieldLine("data", part, tight))
  {
    FieldLineClean("data", part, tight);
  }

  lemma {:induction false} DataLinesClean(parts: seq<string>, tight: bool)
    requires AllLines(parts)
    ensures AllLines(DataLines(parts, tight))
  {
    hide NoLineEnd, FieldLine;
    if parts != [] {
      DataIsClean(parts[0], tight);
      DataLinesClean(parts[1..], tight);
    }
  }

  lemma HeaderLinesClean(m: Message, id: string, retry: Option<nat>, tight: bool)
    requires Sendable(m)
    ensures AllLines(HeaderLines(m, id, retry, tight))
  {
    var numeral := Decimal(m.retry.GetOr(0));
    DecimalDigits(m.retry.GetOr(0));
    assert NoLineEnd(numeral);
    FieldLineClean("retry", numeral, tight);
    FieldLineClean("id", m.id, tight);
    FieldLineClean("event", m.event, tight);
    hide FieldLine, NoLineEnd, Decimal;
  }

  lemma {:induction false} StreamLinesClean(id: string, retry: Option<nat>, messages: seq<Message>, tight: bool)
    requires Encodable(retry, messages)
    ensures AllLines(StreamLines(messages, id, retry, tight))
    decreases |messages|
  {
    if messages != [] {
      var m := messages[0];
      SplitParts(m.data);
      DataLinesClean(SplitLF(m.data), tight);
      HeaderLinesClean(m, id, retry, tight);
      hide HeaderLines, DataLines, SplitLF, Sendable;
      StreamLinesClean(m.id, m.retry, messages[1..], tight);
    }
  }

  /** Round trip: any encodable list, encoded generously or tightly, with line ends of any kind and cut into any
      chunks, parses back to itself. */
  lemma RoundTrip(messages: seq<Message>, ends: seq<EndOfLine>, tight: bool, chunks: seq<string>)
    requires Encodable(None, messages)
    requires var lines := StreamLines(messages, "", None, tight); |ends| == |lines| && Separate(lines, ends)
    requires Flatten(chunks) == Encode(messages, ends, tight)
    ensures FeedChunks(FRESH, chunks) == messages
  {
    var lines := StreamLines(messages, "", None, tight);
    StreamLinesClean("", None, messages, tight);
    LinesOfTerminate(lines, ends);
    ParserIsStandard(chunks);
    ConsumeLinesIsStandard(FRESH.fields, START, lines);
    ConsumeStream(FRESH.fields, messages, tight);
  }

  // ----- lines that say nothing -----

  /** Comments, fields of other names, identifiers with NUL and reconnection times that are no numeral. */
  predicate Idle(line: string) {
    && line != ""
    && var n := ColonAt(line);
       var field := line[..n];
       || field !in ["data", "event", "id", "retry"]
       || (field == "id" && '\0' in line)
       || (field == "retry" && forall c :: c in line[n..] ==> c !in "0123456789")
  }

  lemma NulStays(content: string)
    requires '\0' in content
    ensures '\0' in DropSpace(content)
  {
    if " " <= content {
      assert content == [' '] + content[1..];
    }
  }

  lemma IdleId(f: Fields, line: string)
    requires Idle(line) && line[..ColonAt(line)] == "id"
    ensures Consume(f, line) == (f, [])
  {
    var n := ColonAt(line);
    var i :| 0 <= i < |line| && line[i] == '\0';
    assert line[0] == "id"[0] && line[1] == "id"[1];
    assert line[n + 1..][i - n - 1] == '\0';
    NulStays(line[n + 1..]);
    hide DropSpace;
  }

  lemma IdleRetry(f: Fields, line: string)
    requires Idle(line) && line[..ColonAt(line)] == "retry"
    ensures Consume(f, line) == (f, [])
  {
    var n := ColonAt(line);
    var value := DropSpace(if n == |line| then "" else line[n + 1..]);
    if value != "" { assert value[0] in line[n..]; }
    NoNumeralNoRetry(f, value);
    hide DropSpace, AllDigits, DecimalValue;
  }

  lemma IdleChangesNothing(f: Fields, line: string)
    requires Idle(line)
    ensures Consume(f, line) == (f, [])
  {
    if line[..ColonAt(line)] == "id" {
      IdleId(f, line);
    } else if line[..ColonAt(line)] == "retry" {
      IdleRetry(f, line);
    } else {
      hide DropSpace, AllDigits, DecimalValue;
    }
  }

  /** Wherever they stand, such lines may be left out. */
  lemma IdleLinesDoNotMatter(f: Fields, before: seq<string>, line: string, after: seq<string>)
    requires Idle(line)
    ensures ConsumeLines(f, before + [line] + after) == ConsumeLines(f, before + after)
  {
    hide Consume, Idle;
    var f1 := AfterLines(f, before);
    IdleChangesNothing(f1, line);
    assert before + [line] + after == before + ([line] + after);
    ConsumeConcat(f, before, [line] + after);
    ConsumeConcat(f, before, after);
    ConsumeSilent(f1, f1, line, after);
  }

  lemma BlankWithoutData(f: Fields)
    requires f.data == []
    ensures Consume(f, "") == (f.(event := ""), [])
  {
  }

  lemma EventIsTaken(f: Fields, event: string)
    ensures Consume(f, "event: " + event) == (f.(event := event), [])
  {
    hide Consume;
    FieldIsTaken(f, "event", event);
    assert "event" + ": " + event == "event: " + event;
  }

  /** A blank line ends the event whether or not there was data: an event name without data is forgotten, while
      identifier and reconnection time stay. */
  lemma BlankEndsEvent(f: Fields, event: string, after: seq<string>)
    requires f.data == []
    ensures ConsumeLines(f, [""] + after) == ConsumeLines(f.(event := ""), after)
    ensures ConsumeLines(f, ["event: " + event] + ([""] + after)) == ConsumeLines(f.(event := ""), after)
  {
    EventIsTaken(f, event);
    hide Consume, ConsumeLines, AfterLines;
    var f1, f2 := f.(event := event), f.(event := "");
    BlankWithoutData(f);
    BlankWithoutData(f1);
    ConsumeSilent(f, f2, "", after);
    ConsumeSilent(f1, f2, "", after);
    ConsumeSilent(f, f1, "event: " + event, [""] + after);
  }

  // ----- nothing else is ever emitted -----

  predicate CleanFields(f: Fields) {
    && AllLines(f.data) && NoLineEnd(f.event) && NoLineEnd(f.id) && '\0' !in f.id
    && (f.retry.Some? ==> f.retry.value <= MAX_SAFE_INTEGER)
  }

  lemma {:induction false} JoinNoCR(parts: seq<string>)
    requires AllLines(parts)
    ensures NoCR(Join(parts))
  {
    if |parts| > 1 {
      JoinNoCR(parts[1..]);
      assert NoCR(parts[0] + "\n");
    }
  }

  lemma AssignClean(f: Fields, field: string, content: string)
    requires CleanFields(f) && NoLineEnd(content)
    ensures CleanFields(Assign(f, field, content))
    ensures f.retry.Some? ==> Assign(f, field, content).retry.Some?
  {
    hide NoLineEnd, AllDigits, DecimalValue;
  }

  lemma ContentClean(line: string, n: nat)
    requires NoLineEnd(line) && n <= |line|
    ensures NoLineEnd(DropSpace(line[n..]))
  {
  }

  lemma ConsumeClean(f: Fields, line: string)
    requires CleanFields(f) && NoLineEnd(line)
    ensures CleanFields(Consume(f, line).0)
    ensures f.retry.Some? ==> Consume(f, line).0.retry.Some?
    ensures forall m :: m in Consume(f, line).1 ==> Sendable(m) && m.retry == f.retry && Consume(f, line).1 == [m]
  {
    hide Assign, Join, DropSpace, NoCR;
    if line == [] {
      JoinNoCR(f.data);
    } else {
      var n := ColonAt(line);
      ContentClean(line, if n == |line| then n else n + 1);
      assert line[|line|..] == "";
      AssignClean(f, line[..n], DropSpace(if n == |line| then "" else line[n + 1..]));
    }
  }

  lemma {:induction false} OutputEncodable(f: Fields, earlier: Option<nat>, lines: seq<string>)
    requires CleanFields(f) && AllLines(lines) && (earlier.Some? ==> f.retry.Some?)
    ensures Encodable(earlier, ConsumeLines(f, lines))
    decreases |lines|
  {
    hide Consume, CleanFields, Sendable;
    if lines != [] {
      ConsumeClean(f, lines[0]);
      var (f1, out) := Consume(f, lines[0]);
      if out == [] {
        OutputEncodable(f1, earlier, lines[1..]);
        assert [] + ConsumeLines(f1, lines[1..]) == ConsumeLines(f1, lines[1..]);
      } else {
        assert out[0] in out;
        OutputEncodable(f1, f.retry, lines[1..]);
        assert ConsumeLines(f, lines)[1..] == ConsumeLines(f1, lines[1..]);
      }
    }
  }

  /** The encodable lists are exactly the ones the parser can emit. */
  lemma EncodableExactly(messages: seq<Message>)
    ensures Encodable(None, messages) <==> exists text :: Standard(text) == messages
  {
    if Encodable(None, messages) {
      var ends := seq(|StreamLines(messages, "", None, false)|, _ => LF);
      var text := Encode(messages, ends, false);
      assert Flatten([text]) == text by { assert [text][1..] == [] && text + "" == text; }
      RoundTrip(messages, ends, false, [text]);
      ParserIsStandard([text]);
      assert Standard(text) == messages;
    }
    if exists text :: Standard(text) == messages {
      var text :| Standard(text) == messages;
      LinesHaveNoEnds(text);
      ConsumeLinesIsStandard(FRESH.fields, START, Lines(text));
      OutputEncodable(FRESH.fields, None, Lines(text));
    }
  }
}
