/** The incremental server-sent-events parser (sdk/frontend/src/http/sse/parser.ts) against the line-based
    reading of sections 9.2.5 and 9.2.6 of the WHATWG HTML Standard, and against an encoder. */
module SseParser {
  import opened Optional

  datatype Message = Message(data: string, event: string, id: string, retry: Option<nat>)

  const MAX_SAFE_INTEGER := 9007199254740991

  predicate LineEnd(c: char) { c == '\r' || c == '\n' }

  predicate NoLineEnd(s: string) { forall i :: 0 <= i < |s| ==> !LineEnd(s[i]) }

  // ----- the standard: whole text to lines, lines to messages -----

  /** The position of the first line end, or the length of the text. */
  function FirstEnd(text: string): (n: nat)
    ensures n <= |text| && NoLineEnd(text[..n])
    ensures n < |text| ==> LineEnd(text[n])
  {
    if text == [] || LineEnd(text[0]) then 0 else 1 + FirstEnd(text[1..])
  }

  /** The text after its first line end, where CR LF is one line end. */
  function AfterEnd(text: string): string
    requires FirstEnd(text) < |text|
  {
    var n := FirstEnd(text);
    if text[n] == '\r' && n + 1 < |text| && text[n + 1] == '\n' then text[n + 2..] else text[n + 1..]
  }

  /** The terminated lines of a text; an unterminated tail is dropped. */
  function Lines(text: string): seq<string>
    decreases |text|
  {
    if FirstEnd(text) == |text| then [] else [text[..FirstEnd(text)]] + Lines(AfterEnd(text))
  }

  /** The standard's buffers; the reconnection time is kept between events. */
  datatype Buffers = Buffers(data: string, eventType: string, lastEventId: string, retry: Option<nat>)

  predicate AllDigits(s: string) { s != [] && forall i :: 0 <= i < |s| ==> '0' <= s[i] <= '9' }

  function DecimalValue(s: string): nat
    requires forall i :: 0 <= i < |s| ==> '0' <= s[i] <= '9'
  {
    if s == [] then 0 else DecimalValue(s[..|s| - 1]) * 10 + (s[|s| - 1] as int - '0' as int)
  }

  function ProcessField(b: Buffers, field: string, value: string): Buffers {
    if field == "event" then b.(eventType := value)
    else if field == "data" then b.(data := b.data + value + "\n")
    else if field == "id" then (if '\0' in value then b else b.(lastEventId := value))
    else if field == "retry" then
      (if AllDigits(value) && DecimalValue(value) <= MAX_SAFE_INTEGER then b.(retry := Some(DecimalValue(value))) else b)
    else b
  }

  /** The index of the first colon, or the length of the line. */
  function ColonAt(line: string): (n: nat)
    ensures n <= |line|
    ensures forall i :: 0 <= i < n ==> line[i] != ':'
    ensures n < |line| ==> line[n] == ':'
  {
    if line == [] || line[0] == ':' then 0 else 1 + ColonAt(line[1..])
  }

  /** One line: blank dispatches, a leading colon is a comment, otherwise a field. */
  function ProcessLine(b: Buffers, line: string): (Buffers, seq<Message>) {
    if line == [] then
      if b.data == [] then (b.(eventType := ""), [])
      else
        var data := if b.data[|b.data| - 1] == '\n' then b.data[..|b.data| - 1] else b.data;
        (b.(data := "", eventType := ""),
         [Message(data, if b.eventType == [] then "message" else b.eventType, b.lastEventId, b.retry)])
    else if line[0] == ':' then (b, [])
    else
      var n := ColonAt(line);
      if n == |line| then (ProcessField(b, line, ""), [])
      else
        var after := line[n + 1..];
        (ProcessField(b, line[..n], if " " <= after then after[1..] else after), [])
  }

  function ProcessLines(b: Buffers, lines: seq<string>): seq<Message>
    decreases |lines|
  {
    if lines == [] then []
    else ProcessLine(b, lines[0]).1 + ProcessLines(ProcessLine(b, lines[0]).0, lines[1..])
  }

  const START := Buffers("", "", "", None)

  /** The standard's reading of a whole text. */
  function Standard(text: string): seq<Message> {
    ProcessLines(START, Lines(text))
  }

  // ----- the parser as a function of its state -----

  datatype Fields = Fields(data: seq<string>, event: string, id: string, retry: Option<nat>)

  function Join(parts: seq<string>): string {
    if parts == [] then ""
    else if |parts| == 1 then parts[0]
    else parts[0] + "\n" + Join(parts[1..])
  }

  function Assign(f: Fields, field: string, content: string): Fields {
    match field
    case "data" => f.(data := f.data + [content])
    case "event" => f.(event := content)
    case "id" => if '\0' in content then f else f.(id := content)
    case "retry" =>
      if AllDigits(content) && DecimalValue(content) <= MAX_SAFE_INTEGER then f.(retry := Some(DecimalValue(content))) else f
    case _ => f
  }

  function DropSpace(value: string): string {
    if value != [] && value[0] == ' ' then value[1..] else value
  }

  /** consumeLine. */
  function Consume(f: Fields, line: string): (Fields, seq<Message>) {
    if line == [] then
      (f.(data := [], event := ""),
       if |f.data| > 0 then [Message(Join(f.data), if f.event == [] then "message" else f.event, f.id, f.retry)] else [])
    else
      var colon := ColonAt(line);
      var field := line[..colon];
      var content := if colon == |line| then "" else line[colon + 1..];
      (Assign(f, field, DropSpace(content)), [])
  }

  datatype State = State(line: string, skipLF: bool, fields: Fields)

  const FRESH := State("", false, Fields([], "", "", None))

  function FeedChar(s: State, c: char): (State, seq<Message>) {
    if s.skipLF && c == '\n' then (s.(skipLF := false), [])
    else if LineEnd(c) then
      var (fields, out) := Consume(s.fields, s.line);
      (State("", c == '\r', fields), out)
    else (State(s.line + [c], false, s.fields), [])
  }

  function Feed(s: State, text: string): (State, seq<Message>)
    decreases |text|
  {
    if text == [] then (s, [])
    else
      var (s1, out1) := FeedChar(s, text[0]);
      var (s2, out2) := Feed(s1, text[1..]);
      (s2, out1 + out2)
  }

  /** createSseParser: the closure's variables and its two functions. */
  class Parser {
    var line: string
    var skipLF: bool
    var data: seq<string>
    var event: string
    var id: string
    var retry: Option<nat>

    ghost function Current(): State
      reads this
    {
      State(line, skipLF, Fields(data, event, id, retry))
    }

    constructor ()
      ensures Current() == FRESH
    {
      line, skipLF, data, event, id, retry := "", false, [], "", "", None;
    }

    method ConsumeLine() returns (out: seq<Message>)
      modifies this
      ensures Current() == State("", old(skipLF), Consume(old(Current()).fields, old(line)).0)
      ensures out == Consume(old(Current()).fields, old(line)).1
    {
      var value := line;
      line := "";
      if value == "" {
        out := if |data| > 0 then [Message(Join(data), if event == "" then "message" else event, id, retry)] else [];
        data, event := [], "";
        return;
      }
      var colon := ColonAt(value);
      var field := value[..colon];
      var content := if colon == |value| then "" else value[colon + 1..];
      if content != "" && content[0] == ' ' {
        content := content[1..];
      }
      match field {
        case "data" => data := data + [content];
        case "event" => event := content;
        case "id" => if '\0' !in content { id := content; }
        case "retry" =>
          if AllDigits(content) && DecimalValue(content) <= MAX_SAFE_INTEGER { retry := Some(DecimalValue(content)); }
        case _ =>
      }
      out := [];
    }

    /** The body of the loop over the chunk. */
    method Accept(character: char) returns (out: seq<Message>)
      modifies this
      ensures (Current(), out) == FeedChar(old(Current()), character)
    {
      hide Consume;
      out := [];
      if skipLF {
        skipLF := false;
        if character == '\n' { return; }
      }
      if LineEnd(character) {
        skipLF := character == '\r';
        out := ConsumeLine();
      } else {
        line := line + [character];
      }
    }

    method Parse(chunk: string) returns (messages: seq<Message>)
      modifies this
      ensures (Current(), messages) == Feed(old(Current()), chunk)
    {
      hide FeedChar;
      messages := [];
      var i := 0;
      assert chunk[0..] == chunk && [] + Feed(Current(), chunk).1 == Feed(Current(), chunk).1;
      while i < |chunk|
        invariant 0 <= i <= |chunk|
        invariant Feed(old(Current()), chunk) == (Feed(Current(), chunk[i..]).0, messages + Feed(Current(), chunk[i..]).1)
      {
        ghost var before, sent := Current(), messages;
        var out := Accept(chunk[i]);
        messages := messages + out;
        assert chunk[i..][1..] == chunk[i + 1..];
        assert sent + (out + Feed(Current(), chunk[i + 1..]).1) == messages + Feed(Current(), chunk[i + 1..]).1;
        i := i + 1;
      }
      assert chunk[i..] == [] && messages + [] == messages;
    }
  }

  // ----- chunks do not matter -----

  lemma {:induction false} FeedConcat(s: State, a: string, b: string)
    ensures Feed(s, a + b) == (Feed(Feed(s, a).0, b).0, Feed(s, a).1 + Feed(Feed(s, a).0, b).1)
    decreases |a|
  {
    if a == [] {
      assert a + b == b && [] + Feed(s, b).1 == Feed(s, b).1;
    } else {
      var (s1, out1) := FeedChar(s, a[0]);
      assert (a + b)[1..] == a[1..] + b;
      FeedConcat(s1, a[1..], b);
      var (s2, out2) := Feed(s1, a[1..]);
      assert out1 + (out2 + Feed(s2, b).1) == (out1 + out2) + Feed(s2, b).1;
    }
  }

  function Flatten(chunks: seq<string>): string {
    if chunks == [] then "" else chunks[0] + Flatten(chunks[1..])
  }

  /** The messages of successive calls on the chunks of a text. */
  function FeedChunks(s: State, chunks: seq<string>): seq<Message>
    decreases |chunks|
  {
    if chunks == [] then [] else Feed(s, chunks[0]).1 + FeedChunks(Feed(s, chunks[0]).0, chunks[1..])
  }

  lemma {:induction false} ChunksDoNotMatter(s: State, chunks: seq<string>)
    ensures FeedChunks(s, chunks) == Feed(s, Flatten(chunks)).1
    decreases |chunks|
  {
    if chunks != [] {
      FeedConcat(s, chunks[0], Flatten(chunks[1..]));
      ChunksDoNotMatter(Feed(s, chunks[0]).0, chunks[1..]);
    }
  }

  // ----- the machine reads lines -----

  function ConsumeLines(f: Fields, lines: seq<string>): seq<Message>
    decreases |lines|
  {
    if lines == [] then [] else Consume(f, lines[0]).1 + ConsumeLines(Consume(f, lines[0]).0, lines[1..])
  }

  lemma {:induction false} FirstEndAt(line: string, rest: string)
    requires NoLineEnd(line) && (rest == [] || LineEnd(rest[0]))
    ensures FirstEnd(line + rest) == |line|
  {
    if line != [] {
      assert (line + rest)[1..] == line[1..] + rest;
      FirstEndAt(line[1..], rest);
    } else {
      assert line + rest == rest;
    }
  }

  /** What remains to be read after a CR, whose LF, if one follows, belongs to the same line end. */
  function Unskipped(text: string): string {
    if text != [] && text[0] == '\n' then text[1..] else text
  }

  lemma LinesCons(line: string, text: string)
    requires NoLineEnd(line) && text != [] && LineEnd(text[0])
    ensures Lines(line + text) == [line] + Lines(if text[0] == '\r' then Unskipped(text[1..]) else text[1..])
  {
    FirstEndAt(line, text);
    var whole := line + text;
    assert whole[..|line|] == line;
    assert whole[|line|] == text[0];
    assert whole[|line| + 1..] == text[1..];
    if text[0] == '\r' && |text| > 1 && text[1] == '\n' {
      assert whole[|line| + 1] == text[1];
      assert whole[|line| + 2..] == text[2..] == text[1..][1..];
    }
  }

  lemma NoLines(line: string)
    requires NoLineEnd(line)
    ensures Lines(line) == []
  {
    FirstEndAt(line, "");
    assert line + "" == line;
  }

  /** What the state has still to read. */
  function Pending(s: State, text: string): string {
    s.line + (if s.skipLF then Unskipped(text) else text)
  }

  /** One character: either it ends a line, or it is part of the pending text. */
  lemma FeedCharReads(s: State, text: string)
    requires NoLineEnd(s.line) && text != []
    requires s.skipLF ==> s.line == ""
    ensures var (s1, out) := FeedChar(s, text[0]);
            && NoLineEnd(s1.line) && (s1.skipLF ==> s1.line == "")
            && if LineEnd(text[0]) && !(s.skipLF && text[0] == '\n')
               then Lines(Pending(s, text)) == [s.line] + Lines(Pending(s1, text[1..]))
                    && (s1.fields, out) == Consume(s.fields, s.line)
               else Pending(s1, text[1..]) == Pending(s, text) && s1.fields == s.fields && out == []
  {
    hide Consume, Lines;
    var c, rest := text[0], text[1..];
    if LineEnd(c) && !(s.skipLF && c == '\n') {
      LinesCons(s.line, text);
      var tail := if c == '\r' then Unskipped(rest) else rest;
      assert "" + tail == tail;
    } else if !LineEnd(c) {
      assert s.line + [c] + rest == s.line + text;
    }
  }

  /** Character by character, the machine consumes exactly the terminated lines. */
  lemma {:induction false} FeedReadsLines(s: State, text: string)
    requires NoLineEnd(s.line)
    requires s.skipLF ==> s.line == ""
    ensures Feed(s, text).1 == ConsumeLines(s.fields, Lines(Pending(s, text)))
    decreases |text|
  {
    hide Consume, Lines, FeedChar;
    if text == [] {
      NoLines(s.line);
      assert s.line + "" == s.line;
    } else {
      FeedCharReads(s, text);
      var s1 := FeedChar(s, text[0]).0;
      FeedReadsLines(s1, text[1..]);
      var tail := Lines(Pending(s1, text[1..]));
      assert ([s.line] + tail)[1..] == tail;
      assert [] + ConsumeLines(s1.fields, tail) == ConsumeLines(s1.fields, tail);
    }
  }

  // ----- consumeLine is the standard's line processing -----

  /** The standard's data buffer holds each part followed by LF. */
  function Terminated(parts: seq<string>): string {
    if parts == [] then "" else parts[0] + "\n" + Terminated(parts[1..])
  }

  lemma {:induction false} TerminatedAppend(parts: seq<string>, part: string)
    ensures Terminated(parts + [part]) == Terminated(parts) + part + "\n"
  {
    if parts == [] {
      assert parts + [part] == [part] && Terminated([part][1..]) == "";
    } else {
      TerminatedAppend(parts[1..], part);
      assert (parts + [part])[1..] == parts[1..] + [part];
    }
  }

  lemma {:induction false} TerminatedJoin(parts: seq<string>)
    requires parts != []
    ensures Terminated(parts) == Join(parts) + "\n"
  {
    if |parts| > 1 {
      TerminatedJoin(parts[1..]);
    } else {
      assert Terminated(parts[1..]) == "";
      assert parts[0] + "\n" + "" == parts[0] + "\n";
    }
  }

  predicate Matches(f: Fields, b: Buffers) {
    b == Buffers(Terminated(f.data), f.event, f.id, f.retry)
  }

  lemma ConsumeIsStandard(f: Fields, b: Buffers, line: string)
    requires Matches(f, b)
    ensures Matches(Consume(f, line).0, ProcessLine(b, line).0)
    ensures Consume(f, line).1 == ProcessLine(b, line).1
  {
    if line == [] {
      if f.data != [] { TerminatedJoin(f.data); }
    } else {
      var n := ColonAt(line);
      if line[0] == ':' {
        assert n == 0 && line[..0] == "";
      } else if n < |line| {
        TerminatedAppend(f.data, DropSpace(line[n + 1..]));
      } else {
        assert line[..n] == line;
        TerminatedAppend(f.data, "");
      }
    }
  }

  lemma {:induction false} ConsumeLinesIsStandard(f: Fields, b: Buffers, lines: seq<string>)
    requires Matches(f, b)
    ensures ConsumeLines(f, lines) == ProcessLines(b, lines)
    decreases |lines|
  {
    if lines != [] {
      ConsumeIsStandard(f, b, lines[0]);
      ConsumeLinesIsStandard(Consume(f, lines[0]).0, ProcessLine(b, lines[0]).0, lines[1..]);
    }
  }

  /** Refinement: however the text is cut into chunks, the parser emits the standard's messages. */
  lemma ParserIsStandard(chunks: seq<string>)
    ensures FeedChunks(FRESH, chunks) == Standard(Flatten(chunks))
  {
    ChunksDoNotMatter(FRESH, chunks);
    var text := Flatten(chunks);
    FeedReadsLines(FRESH, text);
    assert "" + text == text;
    ConsumeLinesIsStandard(FRESH.fields, START, Lines(text));
  }
}
