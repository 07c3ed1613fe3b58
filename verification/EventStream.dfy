/**
 * The event-stream writer of the gateway (packages/mcp-server/src/http.ts) and
 * the incremental reader of its client (packages/mcp-client/src/sse.ts).
 */
module EventStream {
  import opened Wrappers
  import opened Text

  datatype SseEvent = SseEvent(event: string, data: string, id: Option<string>)

  // ----- the writer ------------------------------------------------------------------

  datatype Frame =
    | Message(id: Option<nat>, payload: string)
    | Comment(text: string)

  function Render(frame: Frame): string {
    match frame
    case Message(id, payload) =>
      (if id.Some? then "id: " + Decimal(id.value) + "\n" else "") + "event: message\ndata: " + payload + "\n\n"
    case Comment(text) => ": " + text + "\n\n"
  }

  function RenderAll(frames: seq<Frame>): string {
    if frames == [] then "" else RenderAll(frames[..|frames| - 1]) + Render(frames[|frames| - 1])
  }

  /** A writer over one response; `frames` are the calls to `res.write`, in order. */
  class EventStreamWriter {
    var closed: bool
    var frames: seq<Frame>

    /** The response body so far. */
    ghost function Output(): string
      reads this
    {
      RenderAll(frames)
    }

    constructor ()
      ensures !closed && frames == [Comment("open")] && Output() == ": open\n\n"
    {
      closed, frames := false, [Comment("open")];
    }

    method Write(payload: string, id: Option<nat>)
      modifies this`frames
      ensures frames == if closed then old(frames) else old(frames) + [Message(id, payload)]
      ensures Output() == old(Output()) + if closed then "" else
        (if id.Some? then "id: " + Decimal(id.value) + "\n" else "") + "event: message\ndata: " + payload + "\n\n"
    {
      if closed {
        return;
      }
      frames := frames + [Message(id, payload)];
    }

    method WriteComment(text: string)
      modifies this`frames
      ensures frames == if closed then old(frames) else old(frames) + [Comment(text)]
      ensures Output() == old(Output()) + if closed then "" else ": " + text + "\n\n"
    {
      if closed {
        return;
      }
      frames := frames + [Comment(text)];
    }

    /** The response is finished, or the client has gone. */
    method End()
      modifies this`closed
      ensures closed
    {
      closed := true;
    }
  }

  // ----- what a character stream means -----------------------------------------------

  /** The fields collected since the last blank line. */
  datatype Pending = Pending(event: string, data: seq<string>, id: Option<string>)

  const NOTHING := Pending("message", [], None)

  function Join(parts: seq<string>): string {
    if parts == [] then "" else if |parts| == 1 then parts[0] else parts[0] + "\n" + Join(parts[1..])
  }

  predicate Empty(p: Pending) {
    p.data == [] && p.event == "message"
  }

  function Flushed(p: Pending): SseEvent {
    SseEvent(p.event, Join(p.data), p.id)
  }

  /** The field and value of a line that is neither blank nor a comment. */
  function FieldOf(line: string): string {
    line[..IndexOf(line, ':')]
  }

  function ValueOf(line: string): string {
    var colon := IndexOf(line, ':');
    var value := if colon == |line| then "" else line[colon + 1..];
    if StartsWith(value, " ") then value[1..] else value
  }

  function WithoutReturn(line: string): string {
    if line != [] && line[|line| - 1] == '\r' then line[..|line| - 1] else line
  }

  function AddLine(p: Pending, line: string): Pending {
    if StartsWith(line, ":") then p
    else match FieldOf(line)
      case "event" => p.(event := ValueOf(line))
      case "data" => p.(data := p.data + [ValueOf(line)])
      case "id" => p.(id := Some(ValueOf(line)))
      case _ => p
  }

  /** What some lines of the stream leave behind. */
  datatype Reading = Reading(pending: Pending, events: seq<SseEvent>)

  function TakeLine(p: Pending, raw: string): Reading {
    var line := WithoutReturn(raw);
    if line != "" then Reading(AddLine(p, line), [])
    else if Empty(p) then Reading(p, [])
    else Reading(NOTHING, [Flushed(p)])
  }

  /** The complete lines of a text; the unfinished last line is left over. */
  function Lines(text: string): (lines: seq<string>)
    decreases |text|
  {
    var newline := IndexOf(text, '\n');
    if newline == |text| then [] else [text[..newline]] + Lines(text[newline + 1..])
  }

  function Rest(text: string): (rest: string)
    decreases |text|
  {
    var newline := IndexOf(text, '\n');
    if newline == |text| then text else Rest(text[newline + 1..])
  }

  function TakeLines(p: Pending, lines: seq<string>): (r: Reading) {
    if lines == [] then Reading(p, [])
    else
      var earlier := TakeLines(p, lines[..|lines| - 1]);
      var last := TakeLine(earlier.pending, lines[|lines| - 1]);
      Reading(last.pending, earlier.events + last.events)
  }

  /** The events whose closing blank line is there. */
  function Dispatched(text: string): seq<SseEvent> {
    TakeLines(NOTHING, Lines(text)).events
  }

  /** One-shot meaning of a whole stream: an unfinished last line is dropped, pending fields are flushed. */
  function Events(text: string): seq<SseEvent> {
    var r := TakeLines(NOTHING, Lines(text));
    r.events + if Empty(r.pending) then [] else [Flushed(r.pending)]
  }

  /** Joining puts one line feed between two parts, in order. */
  lemma {:induction false} JoinAppends(parts: seq<string>, last: string)
    ensures Join([last]) == last
    ensures parts != [] ==> Join(parts + [last]) == Join(parts) + "\n" + last
  {
    if parts != [] {
      var rest := parts[1..];
      JoinAppends(rest, last);
      assert (parts + [last])[1..] == rest + [last];
      if rest != [] { assert parts[0] + "\n" + (Join(rest) + "\n" + last) == (parts[0] + "\n" + Join(rest)) + "\n" + last; }
    }
  }

  /** What a line that is neither blank nor a comment says: the field before its first colon, and the value behind it. */
  lemma FieldLine(p: Pending, name: string, value: string)
    requires name != "" && forall i :: 0 <= i < |name| ==> name[i] != ':'
    ensures AddLine(p, name) ==
      if name == "event" then p.(event := "") else if name == "data" then p.(data := p.data + [""])
      else if name == "id" then p.(id := Some("")) else p
    ensures var v := if value != "" && value[0] == ' ' then value[1..] else value;
      AddLine(p, name + (":" + value)) ==
        if name == "event" then p.(event := v) else if name == "data" then p.(data := p.data + [v])
        else if name == "id" then p.(id := Some(v)) else p
    ensures AddLine(p, ":" + value) == p
  {
    var line := name + (":" + value);
    assert line[|name|] == ':' && forall i :: 0 <= i < |name| ==> line[i] == name[i];
    assert IndexOf(line, ':') == |name| && line[..|name|] == name && line[|name| + 1..] == value;
    assert IndexOf(name, ':') == |name| && name[..|name|] == name;
  }

  /** One carriage return at the end of a line is not part of it. */
  lemma ReturnIsDropped(p: Pending, line: string)
    requires line == "" || line[|line| - 1] != '\r'
    ensures TakeLine(p, line + "\r") == TakeLine(p, line)
    ensures line != "" ==> TakeLine(p, line) == Reading(AddLine(p, line), [])
  {
    assert (line + "\r")[..|line|] == line;
  }

  /** A blank line dispatches what has been collected, and collecting starts anew. */
  lemma BlankLineDispatches(p: Pending)
    ensures TakeLine(p, "") ==
      if p.data == [] && p.event == "message" then Reading(p, [])
      else Reading(Pending("message", [], None), [SseEvent(p.event, Join(p.data), p.id)])
  {
  }

  function Unlines(lines: seq<string>): string {
    if lines == [] then "" else lines[0] + "\n" + Unlines(lines[1..])
  }

  // ----- the incremental reader ------------------------------------------------------

  class SseReader {
    var buffer: string
    var event: string
    var data: seq<string>
    var id: Option<string>

    ghost function State(): Pending
      reads this
    {
      Pending(event, data, id)
    }

    constructor ()
      ensures State() == NOTHING && buffer == ""
    {
      buffer, event, data, id := "", "message", [], None;
    }

    method Flush() returns (ready: Option<SseEvent>)
      modifies this`event, this`data, this`id
      ensures Empty(old(State())) ==> ready == None && State() == old(State())
      ensures !Empty(old(State())) ==> ready == Some(Flushed(old(State()))) && State() == NOTHING
    {
      if |data| == 0 && event == "message" {
        return None;
      }
      ready := Some(SseEvent(event, Join(data), id));
      event, data, id := "message", [], None;
    }

    method Line(rawLine: string)
      requires rawLine != ""
      modifies this`event, this`data, this`id
      ensures State() == AddLine(old(State()), rawLine)
    {
      if StartsWith(rawLine, ":") {
        return;
      }
      var colon := IndexOf(rawLine, ':');
      var field := rawLine[..colon];
      var value := if colon == |rawLine| then "" else rawLine[colon + 1..];
      if StartsWith(value, " ") {
        value := value[1..];
      }
      if field == "event" {
        event := value;
      } else if field == "data" {
        data := data + [value];
      } else if field == "id" {
        id := Some(value);
      }
    }

    /** Takes one raw line; a blank one dispatches the collected fields. */
    method Take(raw: string) returns (ready: Option<SseEvent>)
      modifies this`event, this`data, this`id
      ensures Reading(State(), if ready.Some? then [ready.value] else []) == TakeLine(old(State()), raw)
    {
      var rawLine := WithoutReturn(raw);
      if rawLine == "" {
        ready := Flush();
      } else {
        Line(rawLine);
        ready := None;
      }
    }

    /** One chunk: every event it completes, or None when the buffer outgrows the limit. */
    method Feed(chunk: string, maxEventBytes: nat) returns (events: Option<seq<SseEvent>>)
      modifies this
      ensures events.None? <==> |old(buffer) + chunk| > maxEventBytes
      ensures events.Some? ==>
        && Reading(State(), events.value) == TakeLines(old(State()), Lines(old(buffer) + chunk))
        && buffer == Rest(old(buffer) + chunk)
    {
      hide TakeLine, TakeLines, Lines, Rest;
      buffer := buffer + chunk;
      if |buffer| > maxEventBytes {
        return None;
      }
      ghost var start, text := old(State()), buffer;
      var yielded: seq<SseEvent> := [];
      ghost var taken: seq<string> := [];
      TakeNothing(start);
      assert [] + Lines(text) == Lines(text);
      var newlineIndex := IndexOf(buffer, '\n');
      while newlineIndex != |buffer|
        invariant newlineIndex == IndexOf(buffer, '\n')
        invariant Lines(text) == taken + Lines(buffer) && Rest(text) == Rest(buffer)
        invariant Reading(State(), yielded) == TakeLines(start, taken)
        decreases |buffer|
      {
        var raw := buffer[..newlineIndex];
        FirstLineOf(buffer, newlineIndex);
        TakeOneMore(start, taken, Reading(State(), yielded), raw);
        Regrouped(taken, raw, Lines(buffer[newlineIndex + 1..]));
        taken := taken + [raw];
        buffer := buffer[newlineIndex + 1..];
        newlineIndex := IndexOf(buffer, '\n');
        var ready := Take(raw);
        if ready.Some? {
          yielded := yielded + [ready.value];
        }
      }
      NoNewline(buffer);
      assert taken + [] == taken;
      events := Some(yielded);
    }
  }

  function Concat(chunks: seq<string>): string {
    if chunks == [] then "" else Concat(chunks[..|chunks| - 1]) + chunks[|chunks| - 1]
  }

  lemma Regrouped(taken: seq<string>, raw: string, rest: seq<string>)
    ensures taken + ([raw] + rest) == (taken + [raw]) + rest
  {
  }

  lemma FirstLineOf(text: string, k: nat)
    requires k < |text| && text[k] == '\n' && forall j :: 0 <= j < k ==> text[j] != '\n'
    ensures Lines(text) == [text[..k]] + Lines(text[k + 1..]) && Rest(text) == Rest(text[k + 1..])
  {
    assert IndexOf(text, '\n') == k;
  }

  lemma NoNewline(text: string)
    requires IndexOf(text, '\n') == |text|
    ensures Lines(text) == [] && Rest(text) == text
  {
  }

  lemma UnlinesFirst(first: string, rest: seq<string>, tail: string)
    ensures Unlines([first] + rest) + tail == first + ("\n" + (Unlines(rest) + tail))
  {
    assert ([first] + rest)[1..] == rest;
  }

  /** The lines and the rest make up the text; none of them holds a line feed. */
  lemma {:induction false} LinesMakeUpText(text: string)
    ensures Unlines(Lines(text)) + Rest(text) == text && '\n' !in Rest(text)
    ensures forall n :: 0 <= n < |Lines(text)| ==> '\n' !in Lines(text)[n]
    decreases |text|
  {
    hide Lines, Rest;
    var newline := IndexOf(text, '\n');
    if newline == |text| {
      NoNewline(text);
      assert Unlines([]) + text == text;
    } else {
      var first, tail := text[..newline], text[newline + 1..];
      FirstLineOf(text, newline);
      LinesMakeUpText(tail);
      UnlinesFirst(first, Lines(tail), Rest(tail));
      assert text == first + ("\n" + tail);
      hide Unlines, IndexOf;
    }
  }

  /** Cutting a text anywhere does not change its lines. */
  lemma {:induction false} LinesInParts(a: string, b: string)
    ensures Lines(a + b) == Lines(a) + Lines(Rest(a) + b)
    ensures Rest(a + b) == Rest(Rest(a) + b)
    decreases |a|
  {
    hide Lines, Rest;
    var k := IndexOf(a, '\n');
    if k == |a| {
      NoNewline(a);
    } else {
      var tail := a[k + 1..];
      assert (a + b)[..k] == a[..k] && (a + b)[k + 1..] == tail + b;
      FirstLineOf(a, k);
      FirstLineOf(a + b, k);
      LinesInParts(tail, b);
    }
  }

  lemma {:induction false} TakeInParts(p: Pending, a: seq<string>, b: seq<string>)
    ensures var first := TakeLines(p, a);
            var second := TakeLines(first.pending, b);
            TakeLines(p, a + b) == Reading(second.pending, first.events + second.events)
    decreases |b|
  {
    if b == [] {
      assert a + b == a;
      assert TakeLines(p, a).events + [] == TakeLines(p, a).events;
    } else {
      var earlier, last := b[..|b| - 1], b[|b| - 1];
      TakeInParts(p, a, earlier);
      assert (a + b)[..|a + b| - 1] == a + earlier && (a + b)[|a + b| - 1] == last;
      var first := TakeLines(p, a);
      var second := TakeLines(first.pending, earlier);
      var third := TakeLine(second.pending, last);
      assert (first.events + second.events) + third.events == first.events + (second.events + third.events);
    }
  }

  lemma ReadOn(before: string, chunk: string)
    ensures var first := TakeLines(NOTHING, Lines(before));
            var second := TakeLines(first.pending, Lines(Rest(before) + chunk));
            TakeLines(NOTHING, Lines(before + chunk)) == Reading(second.pending, first.events + second.events)
    ensures Rest(before + chunk) == Rest(Rest(before) + chunk)
  {
    LinesInParts(before, chunk);
    TakeInParts(NOTHING, Lines(before), Lines(Rest(before) + chunk));
  }

  /** Chunk `n` does not make the buffered text exceed the limit. */
  ghost predicate ChunkFits(chunks: seq<string>, n: nat, maxEventBytes: nat)
    requires n < |chunks|
  {
    |Rest(Concat(chunks[..n])) + chunks[n]| <= maxEventBytes
  }

  ghost predicate Fits(chunks: seq<string>, maxEventBytes: nat) {
    forall n: nat :: n < |chunks| ==> ChunkFits(chunks, n, maxEventBytes)
  }

  /** What a reader has made of a text: its events so far and what it still holds. */
  ghost predicate HasRead(pending: Pending, buffer: string, events: seq<SseEvent>, text: string) {
    Reading(pending, events) == TakeLines(NOTHING, Lines(text)) && buffer == Rest(text)
  }

  lemma HasReadMore(p: Pending, buffer: string, events: seq<SseEvent>, text: string, chunk: string,
                    p': Pending, buffer': string, more: seq<SseEvent>)
    requires HasRead(p, buffer, events, text)
    requires Reading(p', more) == TakeLines(p, Lines(buffer + chunk)) && buffer' == Rest(buffer + chunk)
    ensures HasRead(p', buffer', events + more, text + chunk)
  {
    ReadOn(text, chunk);
  }

  /** The first chunk that does not fit ends the stream with an error. */
  ghost predicate FirstMisfit(chunks: seq<string>, n: nat, maxEventBytes: nat) {
    n < |chunks| && !ChunkFits(chunks, n, maxEventBytes) && forall m: nat :: m < n ==> ChunkFits(chunks, m, maxEventBytes)
  }

  /**
   * The whole generator. It fails exactly when some chunk does not fit, and has by
   * then yielded the events of the chunks before; otherwise it yields the one-shot
   * meaning of the concatenated stream, however the stream was cut.
   */
  method ReadAll(chunks: seq<string>, maxEventBytes: nat) returns (events: seq<SseEvent>, failed: bool)
    ensures failed <==> !Fits(chunks, maxEventBytes)
    ensures !failed ==> events == Events(Concat(chunks))
    ensures forall n: nat :: FirstMisfit(chunks, n, maxEventBytes) ==> events == Dispatched(Concat(chunks[..n]))
  {
    hide TakeLine, Lines, Rest, ChunkFits;
    NoNewline("");
    var reader := new SseReader();
    events := [];
    ghost var text := "";
    for n := 0 to |chunks|
      invariant text == Concat(chunks[..n]) && HasRead(reader.State(), reader.buffer, events, text)
      invariant forall m: nat :: m < n ==> ChunkFits(chunks, m, maxEventBytes)
    {
      ghost var p, buffer := reader.State(), reader.buffer;
      var more := reader.Feed(chunks[n], maxEventBytes);
      FitsBuffer(chunks, n, maxEventBytes, buffer, text);
      if more.None? {
        return events, true;
      }
      HasReadMore(p, buffer, events, text, chunks[n], reader.State(), reader.buffer, more.value);
      events := events + more.value;
      assert chunks[..n + 1][..n] == chunks[..n];
      text := text + chunks[n];
    }
    assert chunks[..|chunks|] == chunks;
    var trailing := reader.Flush();
    if trailing.Some? {
      events := events + [trailing.value];
    }
    return events, false;
  }

  lemma FitsBuffer(chunks: seq<string>, n: nat, maxEventBytes: nat, buffer: string, text: string)
    requires n < |chunks| && text == Concat(chunks[..n]) && buffer == Rest(text)
    ensures ChunkFits(chunks, n, maxEventBytes) <==> |buffer + chunks[n]| <= maxEventBytes
  {
  }

  // ----- the end of the stream -------------------------------------------------------

  predicate Blank(raw: string) {
    WithoutReturn(raw) == ""
  }

  predicate HasField(raw: string, field: string) {
    var line := WithoutReturn(raw);
    line != "" && !StartsWith(line, ":") && FieldOf(line) == field
  }

  /** A data line that no blank line follows. */
  ghost predicate OpenData(lines: seq<string>) {
    exists k :: 0 <= k < |lines| && HasField(lines[k], "data") && forall j :: k < j < |lines| ==> !Blank(lines[j])
  }

  /** An event line that no blank line and no other event line follows, naming something else than `message`. */
  ghost predicate OpenEvent(lines: seq<string>) {
    exists k :: 0 <= k < |lines| && HasField(lines[k], "event") && ValueOf(WithoutReturn(lines[k])) != "message"
                && forall j :: k < j < |lines| ==> !Blank(lines[j]) && !HasField(lines[j], "event")
  }

  lemma {:induction false} PendingIsOpen(lines: seq<string>)
    ensures var p := TakeLines(NOTHING, lines).pending;
      (p.data != [] <==> OpenData(lines)) && (p.event != "message" <==> OpenEvent(lines))
    decreases |lines|
  {
    if lines != [] {
      var earlier, last := lines[..|lines| - 1], lines[|lines| - 1];
      PendingIsOpen(earlier);
      OpenDataNext(earlier, last);
      OpenEventNext(earlier, last);
      assert earlier + [last] == lines;
      PendingNext(TakeLines(NOTHING, earlier).pending, last);
      hide OpenData, OpenEvent, TakeLine, HasField, Blank, ValueOf, WithoutReturn;
    }
  }

  lemma PendingNext(p: Pending, last: string)
    ensures var q := TakeLine(p, last).pending;
      && (q.data != [] <==> HasField(last, "data") || (p.data != [] && !Blank(last)))
      && (q.event != "message" <==>
            if HasField(last, "event") then ValueOf(WithoutReturn(last)) != "message" else p.event != "message" && !Blank(last))
  {
    hide ValueOf, FieldOf, WithoutReturn;
  }

  lemma OpenDataNext(lines: seq<string>, last: string)
    ensures OpenData(lines + [last]) <==> HasField(last, "data") || (OpenData(lines) && !Blank(last))
  {
    hide HasField, Blank;
    var all := lines + [last];
    if HasField(last, "data") { assert all[|lines|] == last; }
    if OpenData(lines) && !Blank(last) {
      var k :| 0 <= k < |lines| && HasField(lines[k], "data") && forall j :: k < j < |lines| ==> !Blank(lines[j]);
      assert all[k] == lines[k] && forall j :: k < j < |all| ==> all[j] == if j < |lines| then lines[j] else last;
    }
    if OpenData(all) {
      var k :| 0 <= k < |all| && HasField(all[k], "data") && forall j :: k < j < |all| ==> !Blank(all[j]);
      assert k < |lines| ==> lines[k] == all[k] && all[|lines|] == last && forall j :: k < j < |lines| ==> lines[j] == all[j];
    }
  }

  lemma OpenEventNext(lines: seq<string>, last: string)
    ensures OpenEvent(lines + [last]) <==>
      if HasField(last, "event") then ValueOf(WithoutReturn(last)) != "message" else OpenEvent(lines) && !Blank(last)
  {
    hide HasField, Blank, ValueOf, WithoutReturn;
    var all := lines + [last];
    assert all[|lines|] == last;
    if OpenEvent(lines) && !Blank(last) && !HasField(last, "event") {
      var k :| 0 <= k < |lines| && HasField(lines[k], "event") && ValueOf(WithoutReturn(lines[k])) != "message"
               && forall j :: k < j < |lines| ==> !Blank(lines[j]) && !HasField(lines[j], "event");
      assert all[k] == lines[k] && forall j :: k < j < |all| ==> all[j] == if j < |lines| then lines[j] else last;
    }
    if OpenEvent(all) {
      var k :| 0 <= k < |all| && HasField(all[k], "event") && ValueOf(WithoutReturn(all[k])) != "message"
               && forall j :: k < j < |all| ==> !Blank(all[j]) && !HasField(all[j], "event");
      assert k < |lines| ==> lines[k] == all[k] && forall j :: k < j < |lines| ==> lines[j] == all[j];
    }
  }

  /**
   * A stream may end without the blank line that closes its last event. Section 9.2.6
   * of the HTML standard discards such an event; the reader dispatches it. The two
   * agree on a text exactly when no data line and no event line naming something else
   * than `message` is still open at its end.
   */
  lemma TrailingFieldsAreDispatched(text: string)
    ensures Events(text) == Dispatched(text) <==> !OpenData(Lines(text)) && !OpenEvent(Lines(text))
  {
    PendingIsOpen(Lines(text));
    hide OpenData, OpenEvent, TakeLines, Lines;
  }

  lemma UnfinishedEventIsDispatched()
    ensures Dispatched("data: x\n") == [] && Events("data: x\n") == [SseEvent("message", "x", None)]
  {
    assert OneLine("data: x");
    hide TakeLine, TakeLines, Lines, Rest, IndexOf;
    OneLineAtATime("data: x", "");
    assert "data: x" + "\n" + "" == "data: x\n" && "data: " + "x" == "data: x";
    NoNewline("");
    TakeDataLine(NOTHING, "x");
    TakeOneMore(NOTHING, [], Reading(NOTHING, []), "data: x");
    assert [] + ["data: x"] == ["data: x"] == ["data: x"] + [];
  }

  // ----- reading back what was written -----------------------------------------------

  predicate OneLine(s: string) {
    forall i :: 0 <= i < |s| ==> s[i] != '\n' && s[i] != '\r'
  }

  predicate Printable(frames: seq<Frame>) {
    forall n :: 0 <= n < |frames| ==> OneLine(if frames[n].Message? then frames[n].payload else frames[n].text)
  }

  function EventOf(frame: Frame): SseEvent
    requires frame.Message?
  {
    SseEvent("message", frame.payload, if frame.id.Some? then Some(Decimal(frame.id.value)) else None)
  }

  /** The events a client should see: the messages in order, comments left out. */
  function Expected(frames: seq<Frame>): seq<SseEvent> {
    if frames == [] then []
    else
      var last := frames[|frames| - 1];
      Expected(frames[..|frames| - 1]) + if last.Comment? then [] else [EventOf(last)]
  }

  function LinesOf(frame: Frame): seq<string> {
    match frame
    case Message(id, payload) =>
      (if id.Some? then ["id: " + Decimal(id.value)] else []) + ["event: message", "data: " + payload, ""]
    case Comment(text) => [": " + text, ""]
  }

  lemma {:induction false} OneLineAtATime(line: string, rest: string)
    requires OneLine(line)
    ensures Lines(line + "\n" + rest) == [line] + Lines(rest) && Rest(line + "\n" + rest) == Rest(rest)
  {
    FirstNewline(line, rest);
    assert (line + "\n" + rest)[..|line|] == line && (line + "\n" + rest)[|line| + 1..] == rest;
  }

  lemma {:induction false} FirstNewline(line: string, rest: string)
    requires OneLine(line)
    ensures IndexOf(line + "\n" + rest, '\n') == |line|
  {
    if line != [] {
      assert (line + "\n" + rest)[1..] == line[1..] + "\n" + rest;
      FirstNewline(line[1..], rest);
    }
  }

  lemma RenderedComment(text: string)
    requires OneLine(text)
    ensures Lines(Render(Comment(text))) == LinesOf(Comment(text)) && Rest(Render(Comment(text))) == ""
  {
    hide Lines, Rest;
    assert Render(Comment(text)) == (": " + text) + "\n" + "\n";
    OneLineAtATime(": " + text, "\n");
    BlankLine();
  }

  lemma BlankLine()
    ensures Lines("\n") == [""] && Rest("\n") == ""
  {
    OneLineAtATime("", "");
    assert "" + "\n" + "" == "\n";
  }

  lemma TwoLines(a: string, b: string)
    requires OneLine(a) && OneLine(b)
    ensures Lines(a + "\n" + (b + "\n" + "\n")) == [a, b, ""] && Rest(a + "\n" + (b + "\n" + "\n")) == ""
  {
    BlankLine();
    OneLineAtATime(b, "\n");
    OneLineAtATime(a, b + "\n" + "\n");
  }

  lemma ThreeLines(a: string, b: string, c: string)
    requires OneLine(a) && OneLine(b) && OneLine(c)
    ensures var text := a + "\n" + (b + "\n" + (c + "\n" + "\n"));
            Lines(text) == [a, b, c, ""] && Rest(text) == ""
  {
    TwoLines(b, c);
    OneLineAtATime(a, b + "\n" + (c + "\n" + "\n"));
  }

  lemma Regroup(head: string, event: string, newline: string, name: string, payload: string)
    ensures head + (event + newline + name) + payload + (newline + newline)
         == head + (event + newline + ((name + payload) + newline + newline))
  {
  }

  lemma RenderedText(id: Option<nat>, payload: string)
    ensures var head := if id.Some? then "id: " + Decimal(id.value) + "\n" else "";
            Render(Message(id, payload)) == head + ("event: message" + "\n" + (("data: " + payload) + "\n" + "\n"))
  {
    var head := if id.Some? then "id: " + Decimal(id.value) + "\n" else "";
    assert "event: message\ndata: " == "event: message" + "\n" + "data: ";
    assert "\n\n" == "\n" + "\n";
    Regroup(head, "event: message", "\n", "data: ", payload);
  }

  lemma HeaderLines(id: nat)
    ensures OneLine("event: message") && OneLine("id: " + Decimal(id))
  {
  }

  lemma LabelledLines(id: nat, payload: string, text: string)
    requires OneLine(payload)
    requires text == "id: " + Decimal(id) + "\n" + ("event: message" + "\n" + (("data: " + payload) + "\n" + "\n"))
    ensures Lines(text) == ["id: " + Decimal(id), "event: message", "data: " + payload, ""] && Rest(text) == ""
  {
    HeaderLines(id);
    ThreeLines("id: " + Decimal(id), "event: message", "data: " + payload);
  }

  lemma PlainLines(payload: string, text: string)
    requires OneLine(payload)
    requires text == "event: message" + "\n" + (("data: " + payload) + "\n" + "\n")
    ensures Lines(text) == ["event: message", "data: " + payload, ""] && Rest(text) == ""
  {
    HeaderLines(0);
    TwoLines("event: message", "data: " + payload);
  }

  lemma RenderedMessage(id: Option<nat>, payload: string)
    requires OneLine(payload)
    ensures Lines(Render(Message(id, payload))) == LinesOf(Message(id, payload)) && Rest(Render(Message(id, payload))) == ""
  {
    var text := Render(Message(id, payload));
    RenderedText(id, payload);
    if id.Some? {
      LabelledLines(id.value, payload, text);
    } else {
      PlainLines(payload, text);
    }
  }

  lemma TakeOneMore(p: Pending, lines: seq<string>, r: Reading, last: string)
    requires TakeLines(p, lines) == r
    ensures TakeLines(p, lines + [last])
         == Reading(TakeLine(r.pending, last).pending, r.events + TakeLine(r.pending, last).events)
  {
    assert (lines + [last])[..|lines|] == lines;
  }

  lemma TakeEventLine(p: Pending)
    ensures TakeLine(p, "event: message") == Reading(p.(event := "message"), [])
  {
    var line := "event: message";
    assert line[5] == ':' && IndexOf(line, ':') == 5;
    assert line[..5] == "event" && line[6..] == " message" && line[6..][1..] == "message";
  }

  lemma TakeDataLine(p: Pending, payload: string)
    requires OneLine(payload)
    ensures TakeLine(p, "data: " + payload) == Reading(p.(data := p.data + [payload]), [])
  {
    var line := "data: " + payload;
    assert line[4] == ':' && IndexOf(line, ':') == 4;
    assert line[..4] == "data" && line[5..] == " " + payload && line[5..][1..] == payload;
  }

  lemma TakeIdLine(p: Pending, id: string)
    requires OneLine(id)
    ensures TakeLine(p, "id: " + id) == Reading(p.(id := Some(id)), [])
  {
    var line := "id: " + id;
    assert line[2] == ':' && IndexOf(line, ':') == 2;
    assert line[..2] == "id" && line[3..] == " " + id && line[3..][1..] == id;
  }

  lemma TakeComment(p: Pending, text: string)
    requires OneLine(text)
    ensures TakeLine(p, ": " + text) == Reading(p, [])
  {
  }

  /** One frame, read from a clean state, leaves a clean state and at most its own event. */
  lemma TakeFrame(frame: Frame)
    requires OneLine(if frame.Message? then frame.payload else frame.text)
    ensures TakeLines(NOTHING, LinesOf(frame)) == Reading(NOTHING, if frame.Comment? then [] else [EventOf(frame)])
  {
    match frame
    case Comment(text) =>
      TakeComment(NOTHING, text);
      TakeOneMore(NOTHING, [], Reading(NOTHING, []), ": " + text);
      TakeOneMore(NOTHING, [] + [": " + text], Reading(NOTHING, []), "");
      assert [] + [": " + text] + [""] == LinesOf(frame);
    case Message(id, payload) =>
      TakeBody(if id.Some? then NOTHING.(id := Some(Decimal(id.value))) else NOTHING, payload);
      var body := ["event: message", "data: " + payload, ""];
      if id.Some? {
        var first := "id: " + Decimal(id.value);
        TakeIdLine(NOTHING, Decimal(id.value));
        TakeOneMore(NOTHING, [], Reading(NOTHING, []), first);
        assert [] + [first] == [first];
        TakeInParts(NOTHING, [first], body);
      } else {
        assert LinesOf(frame) == body;
      }
  }

  lemma TakeNothing(p: Pending)
    ensures TakeLines(p, []) == Reading(p, [])
  {
  }

  lemma TakeBlank(p: Pending, payload: string)
    requires p.event == "message" && p.data == []
    ensures TakeLine(p.(data := [payload]), "") == Reading(NOTHING, [SseEvent("message", payload, p.id)])
  {
  }

  lemma TakeBody(p: Pending, payload: string)
    requires p.event == "message" && p.data == [] && OneLine(payload)
    ensures TakeLines(p, ["event: message", "data: " + payload, ""])
         == Reading(NOTHING, [SseEvent("message", payload, p.id)])
  {
    hide TakeLine, TakeLines, Join;
    var first, second := "event: message", "data: " + payload;
    TakeNothing(p);
    TakeBlank(p, payload);
    TakeEventLine(p);
    TakeDataLine(p, payload);
    TakeOneMore(p, [], Reading(p, []), first);
    TakeOneMore(p, [] + [first], Reading(p, []), second);
    TakeOneMore(p, [] + [first] + [second], Reading(p.(data := [payload]), []), "");
    assert [] + [first] + [second] + [""] == [first, second, ""];
  }

  lemma {:induction false} FramesReadBack(frames: seq<Frame>)
    requires Printable(frames)
    ensures TakeLines(NOTHING, Lines(RenderAll(frames))) == Reading(NOTHING, Expected(frames))
    ensures Rest(RenderAll(frames)) == ""
    decreases |frames|
  {
    if frames == [] {
      NoNewline("");
    } else {
      var earlier, last := frames[..|frames| - 1], frames[|frames| - 1];
      FramesReadBack(earlier);
      if last.Comment? { RenderedComment(last.text); } else { RenderedMessage(last.id, last.payload); }
      TakeFrame(last);
      ReadOn(RenderAll(earlier), Render(last));
      assert "" + Render(last) == Render(last);
    }
  }

  /** Two data lines ending in CRLF are one event of two lines. */
  lemma DataLinesJoin(a: string, b: string)
    requires OneLine(a) && OneLine(b)
    ensures TakeLines(NOTHING, ["data: " + a + "\r", "data: " + b + "\r", "\r"])
         == Reading(NOTHING, [SseEvent("message", a + "\n" + b, None)])
  {
    var first, second := "data: " + a, "data: " + b;
    var p := NOTHING.(data := [a]);
    TakeDataLine(NOTHING, a);
    TakeDataLine(p, b);
    JoinAppends([a], b);
    assert [a] + [b] == [a, b] && NOTHING.data + [a] == [a];
    hide *;
    DataLineEnds(a);
    DataLineEnds(b);
    BlankLineDispatches(NOTHING.(data := [a, b]));
    ReturnedLines(NOTHING, first, p, second, NOTHING.(data := [a, b]));
  }

  lemma ReturnedLines(p: Pending, first: string, q: Pending, second: string, r: Pending)
    requires TakeLine(p, first) == Reading(q, []) && TakeLine(q, second) == Reading(r, [])
    requires (first == "" || first[|first| - 1] != '\r') && (second == "" || second[|second| - 1] != '\r')
    ensures TakeLines(p, [first + "\r", second + "\r", "\r"]) == TakeLine(r, "")
  {
    hide TakeLine, TakeLines;
    var a, b := first + "\r", second + "\r";
    ReturnIsDropped(p, first);
    ReturnIsDropped(q, second);
    ReturnIsDropped(r, "");
    assert "" + "\r" == "\r";
    TakeNothing(p);
    TakeOneMore(p, [], Reading(p, []), a);
    TakeOneMore(p, [] + [a], Reading(q, []), b);
    TakeOneMore(p, [] + [a] + [b], Reading(r, []), "\r");
    assert [] + [a] + [b] + ["\r"] == [a, b, "\r"];
    assert TakeLine(r, "").events == [] + TakeLine(r, "").events;
  }

  lemma DataLineEnds(a: string)
    requires OneLine(a)
    ensures var line := "data: " + a; line[|line| - 1] != '\r'
  {
    if a != "" { assert ("data: " + a)[|"data: " + a| - 1] == a[|a| - 1]; }
  }

  /**
   * The reader undoes the writer: whatever a writer has sent, cut in any way that
   * fits the limit, the client reads exactly the messages in order, each with the
   * id and payload it was written with.
   */
  lemma WrittenMessagesAreRead(frames: seq<Frame>)
    requires Printable(frames)
    ensures Events(RenderAll(frames)) == Expected(frames)
  {
    FramesReadBack(frames);
  }

  /** The ids survive as numbers: two labelled messages read alike only if they are alike. */
  lemma EventsIdentifyMessages(a: Frame, b: Frame)
    requires a.Message? && b.Message? && EventOf(a) == EventOf(b)
    ensures a == b
  {
    if a.id.Some? { DecimalInjective(a.id.value, b.id.value); }
  }
}
