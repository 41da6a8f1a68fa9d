/**
 * The Anthropic backend's response decoding. The body is a server-sent
 * event stream whose events are separated by a blank line ("\n\n"). Each
 * delivery is appended to the text carried over from the previous one; the
 * complete events are decoded, the text of every `content_block_delta` event
 * is collected, and the delivery yields at most one chunk.
 */
module AnthropicChat {
  import opened Wrappers
  import opened Strings
  import CoreChat
  import opened ProvidersChat

  type Item = Result<ChatChunk, CoreChat.ChatStreamError>

  /** A delivery of the response body: its text, or the message of the transport error. */
  type Delivery = Result<string, string>

  datatype Delta = Delta(text: string)

  /** The one field of a `content_block_delta` payload that is read. */
  datatype AnthropicChunkResponse = AnthropicChunkResponse(delta: Delta)

  /** The JSON reader: the payload a text holds, or `None` when it holds none. */
  type Parser = string -> Option<AnthropicChunkResponse>

  /** Why an event's body is invalid. */
  datatype BodyFault = NoEventName | InvalidName | InvalidJson

  datatype ParseEventError = MissingField(field: string) | InvalidBody(reason: BodyFault)

  /** The separator between events. */
  const EventSeparator: string := "\n\n"

  /** The event name whose payload carries text. */
  const DeltaEventName: string := "content_block_delta"

  /** A field whose trimmed form begins with `data:`. */
  predicate IsDataField(field: string) {
    StartsWith(Trim(field), "data:")
  }

  /** The index of the first element that satisfies `p`, if any. */
  function FirstMatching<T>(xs: seq<T>, p: T -> bool): (r: Option<nat>)
    ensures r.None? <==> forall i :: 0 <= i < |xs| ==> !p(xs[i])
    ensures r.Some? ==> r.value < |xs| && p(xs[r.value])
    ensures r.Some? ==> forall i :: 0 <= i < r.value ==> !p(xs[i])
  {
    if xs == [] then None
    else if p(xs[0]) then Some(0)
    else match FirstMatching(xs[1..], p)
      case None => None
      case Some(j) => Some(j + 1)
  }

  /** The index of the first data field, if any (the `find_map` over the lines). */
  function FirstDataField(fields: seq<string>): (r: Option<nat>)
    ensures r.None? <==> forall i :: 0 <= i < |fields| ==> !IsDataField(fields[i])
    ensures r.Some? ==> r.value < |fields| && IsDataField(fields[r.value])
    ensures r.Some? ==> forall i :: 0 <= i < r.value ==> !IsDataField(fields[i])
  {
    FirstMatching(fields, IsDataField)
  }

  /**
   * The `find_map` over the lines of a delta event's body and the decoding
   * of what it finds: the payload is the first data line, trimmed, after its
   * 5-character `data:` prefix.
   */
  function DeltaOfFields(fields: seq<string>, parse: Parser): (r: Result<AnthropicChunkResponse, ParseEventError>)
    ensures r == Err(MissingField("data")) <==> FirstDataField(fields).None?
    ensures FirstDataField(fields).Some? ==>
      r == match parse(Trim(fields[FirstDataField(fields).value])[5..])
           case None => Err(InvalidBody(InvalidJson))
           case Some(response) => Ok(response)
  {
    match FirstDataField(fields)
    case None => Err(MissingField("data"))
    case Some(i) =>
      match parse(Trim(fields[i])[5..])
      case None => Err(InvalidBody(InvalidJson))
      case Some(response) => Ok(response)
  }

  /** `parse_content_block_delta_event`: the body's lines, read as above. */
  function ParseContentBlockDelta(body: string, parse: Parser): (r: Result<AnthropicChunkResponse, ParseEventError>)
    ensures r == Err(MissingField("data")) <==> FirstDataField(Split(body, "\n")).None?
    ensures var fields := Split(body, "\n");
      FirstDataField(fields).Some? ==>
        r == match parse(Trim(fields[FirstDataField(fields).value])[5..])
             case None => Err(InvalidBody(InvalidJson))
             case Some(response) => Ok(response)
    ensures r.Err? ==> r.error == MissingField("data") || r.error == InvalidBody(InvalidJson)
  {
    DeltaOfFields(Split(body, "\n"), parse)
  }

  /**
   * `parse_event` past its first `event:`: the name runs up to the next
   * newline, and only `content_block_delta` has a payload to read.
   */
  function ParseNamedEvent(body: string, parse: Parser): (r: Result<AnthropicChunkResponse, ParseEventError>)
    ensures r != Err(MissingField("event"))
    ensures !Contains(body, "\n") ==> r == Err(InvalidBody(NoEventName))
  {
    match SplitOnce(body, "\n")
    case None => Err(InvalidBody(NoEventName))
    case Some((name, data)) =>
      if Trim(name) == DeltaEventName then ParseContentBlockDelta(data, parse)
      else Err(InvalidBody(InvalidName))
  }

  /** `parse_event`: an event without `event:` is missing its name field. */
  function ParseEvent(event: string, parse: Parser): (r: Result<AnthropicChunkResponse, ParseEventError>)
    ensures r == Err(MissingField("event")) <==> !Contains(event, "event:")
  {
    match SplitOnce(event, "event:")
    case None => Err(MissingField("event"))
    case Some((_, body)) => ParseNamedEvent(body, parse)
  }

  lemma SplitAfterEventTag(body: string)
    ensures SplitOnce("event:" + body, "event:") == Some(("", body))
  {
    var event := "event:" + body;
    assert event == "event:" + body + "";
    FindAtStart(event, "event:");
    assert event[..0] == "" && event[6..] == body;
  }

  lemma SplitAfterName(name: string, data: string)
    requires '\n' !in name
    ensures SplitOnce(name + "\n" + data, "\n") == Some((name, data))
  {
    var body := name + "\n" + data;
    FindAfterFree(name, "\n", data);
    assert body[..|name|] == name && body[|name| + 1..] == data;
  }

  /** An event named `content_block_delta` is read from its data; any other name is rejected. */
  lemma ParseEventOfParts(name: string, data: string, parse: Parser)
    requires '\n' !in name
    ensures ParseEvent("event:" + name + "\n" + data, parse) ==
      if Trim(name) == DeltaEventName then ParseContentBlockDelta(data, parse) else Err(InvalidBody(InvalidName))
  {
    var body := name + "\n" + data;
    AppendAssoc("event:", name, "\n");
    AppendAssoc("event:", name + "\n", data);
    EventOfBody(body, parse);
    NamedEventOfParts(name, data, parse);
  }

  /** An event that starts with its tag is read from the text after the tag. */
  lemma EventOfBody(body: string, parse: Parser)
    ensures ParseEvent("event:" + body, parse) == ParseNamedEvent(body, parse)
  {
    SplitAfterEventTag(body);
  }

  /**
   * Whatever precedes the first `event:` in a piece (a leading newline, an
   * `id:` line) is skipped: the piece is read from the text after that tag.
   */
  lemma EventAfterPreamble(pre: string, body: string, parse: Parser)
    requires forall k :: 0 <= k < |pre| ==> !OccursAt(pre + "event:" + body, "event:", k)
    ensures ParseEvent(pre + "event:" + body, parse) == ParseNamedEvent(body, parse)
  {
    var event := pre + "event:" + body;
    assert event[|pre|..|pre| + 6] == "event:";
    FindIs(event, "event:", |pre|);
    assert event[|pre| + 6..] == body;
  }

  /**
   * A body split at its first newline: the trimmed name decides, and only a
   * `content_block_delta` event is read from its data.
   */
  lemma NamedEventOfParts(name: string, data: string, parse: Parser)
    requires '\n' !in name
    ensures ParseNamedEvent(name + "\n" + data, parse) ==
      if Trim(name) == DeltaEventName then ParseContentBlockDelta(data, parse) else Err(InvalidBody(InvalidName))
  {
    SplitAfterName(name, data);
  }

  /** A single data line whose payload does not end in whitespace is read as that payload. */
  lemma SingleDataLine(payload: string, parse: Parser)
    requires '\n' !in payload
    requires payload == [] || !IsWhitespace(payload[|payload| - 1])
    ensures ParseContentBlockDelta("data:" + payload, parse) ==
      match parse(payload)
      case None => Err(InvalidBody(InvalidJson))
      case Some(response) => Ok(response)
  {
    var line := "data:" + payload;
    DataLineFacts(payload);
    NoLeadInNoMatch(line, "\n");
    SplitWithout(line, "\n");
    assert FirstDataField([line]) == Some(0);
  }

  /** A line that is not a data field is skipped: the rest of the body decides. */
  lemma LeadingOtherLine(line: string, rest: string, parse: Parser)
    requires '\n' !in line && !IsDataField(line)
    ensures ParseContentBlockDelta(line + "\n" + rest, parse) == ParseContentBlockDelta(rest, parse)
  {
    FieldsAfterLine(line, rest);
    SkipOtherField(line, Split(rest, "\n"), parse);
  }

  lemma SkipOtherField(line: string, tail: seq<string>, parse: Parser)
    requires !IsDataField(line)
    ensures DeltaOfFields([line] + tail, parse) == DeltaOfFields(tail, parse)
  {
    match FirstDataField(tail)
    case None =>
      NoDataFieldAfterOther(line, tail);
    case Some(i) =>
      DataFieldAfterOther(line, tail, i);
      SameFirstDataField([line] + tail, tail, i + 1, i, parse);
  }

  /** Two line lists whose first data fields are the same line are read alike. */
  lemma SameFirstDataField(xs: seq<string>, ys: seq<string>, i: nat, j: nat, parse: Parser)
    requires FirstDataField(xs) == Some(i) && FirstDataField(ys) == Some(j)
    requires i < |xs| && j < |ys| && xs[i] == ys[j]
    ensures DeltaOfFields(xs, parse) == DeltaOfFields(ys, parse)
  {
  }

  lemma NoDataFieldAfterOther(line: string, tail: seq<string>)
    requires !IsDataField(line) && FirstDataField(tail).None?
    ensures FirstDataField([line] + tail).None?
  {
    FirstMatchingAfterOther(line, tail, IsDataField);
  }

  /** Past a leading line that is not a data field, the first data field is found one place later. */
  lemma DataFieldAfterOther(line: string, tail: seq<string>, i: nat)
    requires !IsDataField(line) && FirstDataField(tail) == Some(i)
    ensures FirstDataField([line] + tail) == Some(i + 1)
    ensures i + 1 < |[line] + tail| && ([line] + tail)[i + 1] == tail[i]
  {
    FirstMatchingAfterOther(line, tail, IsDataField);
  }

  /** Past a leading element that does not match, the first match is found one place later. */
  lemma FirstMatchingAfterOther<T>(x: T, xs: seq<T>, p: T -> bool)
    requires !p(x)
    ensures FirstMatching([x] + xs, p) ==
      if FirstMatching(xs, p).None? then None else Some(FirstMatching(xs, p).value + 1)
  {
    assert ([x] + xs)[1..] == xs;
  }

  /** A data line decides the result on its own: every line after it is ignored. */
  lemma LeadingDataLine(line: string, rest: string, parse: Parser)
    requires '\n' !in line && IsDataField(line)
    ensures ParseContentBlockDelta(line + "\n" + rest, parse) ==
      match parse(Trim(line)[5..])
      case None => Err(InvalidBody(InvalidJson))
      case Some(response) => Ok(response)
  {
    FieldsAfterLine(line, rest);
    assert ([line] + Split(rest, "\n"))[0] == line;
  }

  /** The lines of a body that starts with one line are that line and the lines of the rest. */
  lemma FieldsAfterLine(line: string, rest: string)
    requires '\n' !in line
    ensures Split(line + "\n" + rest, "\n") == [line] + Split(rest, "\n")
  {
    var body := line + "\n" + rest;
    FindAfterFree(line, "\n", rest);
    SplitFirst(body, "\n", |line|);
    assert body[..|line|] == line && body[|line| + 1..] == rest;
  }

  lemma DataLineFacts(payload: string)
    requires '\n' !in payload
    requires payload == [] || !IsWhitespace(payload[|payload| - 1])
    ensures var line := "data:" + payload;
      '\n' !in line && Trim(line) == line && IsDataField(line) && line[5..] == payload
  {
    var line := "data:" + payload;
    assert line[..5] == "data:" && line[5..] == payload;
    assert forall i :: 5 <= i < |line| ==> line[i] == payload[i - 5];
    assert payload != [] ==> line[|line| - 1] == payload[|payload| - 1];
    TrimmedAlready(line);
  }

  /** The text one event adds to the delivery's content (`process_event`): its delta, or nothing on any error. */
  function Contribution(event: string, parse: Parser): string {
    match ParseEvent(event, parse)
    case Ok(response) => response.delta.text
    case Err(_) => ""
  }

  /** The content of a run of events processed in order. */
  function Contributions(events: seq<string>, parse: Parser): string {
    if events == [] then ""
    else Contributions(events[..|events| - 1], parse) + Contribution(events[|events| - 1], parse)
  }

  lemma {:induction false} ContributionsAppend(a: seq<string>, b: seq<string>, parse: Parser)
    ensures Contributions(a + b, parse) == Contributions(a, parse) + Contributions(b, parse)
    decreases |b|
  {
    if b == [] {
      assert a + b == a;
    } else {
      var init := b[..|b| - 1];
      var x := b[|b| - 1];
      calc {
        Contributions(a + b, parse);
        { assert (a + b)[..|a + b| - 1] == a + init && (a + b)[|a + b| - 1] == x; }
        Contributions(a + init, parse) + Contribution(x, parse);
        { ContributionsAppend(a, init, parse); }
        Contributions(a, parse) + Contributions(init, parse) + Contribution(x, parse);
      }
    }
  }

  /** An event without `event:`, or with another name, contributes nothing. */
  lemma OtherEventsContributeNothing(name: string, data: string, parse: Parser)
    requires '\n' !in name && Trim(name) != DeltaEventName
    ensures Contribution("event:" + name + "\n" + data, parse) == ""
  {
    ParseEventOfParts(name, data, parse);
  }

  /** `process_event`: appends the event's contribution to the content. */
  method ProcessEvent(event: string, content: string, parse: Parser) returns (r: string)
    ensures r == content + Contribution(event, parse)
  {
    r := content;
    var parsed := ParseEvent(event, parse);
    if parsed.Err? {
      return;
    }
    r := r + parsed.value.delta.text;
  }

  /** The item a delivery yields: none when its content is empty, else one content chunk. */
  function ItemOf(content: string): (r: Option<Item>)
    ensures r.None? <==> content == ""
    ensures r.Some? ==> r.value == Ok(Content(content))
  {
    if |content| == 0 then None else Some(Ok(Content(content)))
  }

  /** The only items this backend yields: a non-empty content chunk, or a transport error. */
  predicate StreamItem(item: Item)
  {
    (item.Ok? && item.value.Content? && item.value.text != "") ||
    (item.Err? && item.error.ParseError? && item.error.cause.Transport?)
  }

  /** What one step of the scan yields, and the carry-over it leaves. */
  datatype StepOutcome = StepOutcome(item: Option<Item>, buffer: string)

  /**
   * One step of the `scan`, as written: a transport error is passed on and
   * the carry-over kept; otherwise the carry-over and the delivery are split
   * on blank lines, every piece but the last is processed, and the last
   * becomes the carry-over unless it ends in a blank line. A working text
   * with a single piece processes nothing and leaves the carry-over empty.
   */
  function ScanStep(buffer: string, delivery: Delivery, parse: Parser): (r: StepOutcome)
    ensures delivery.Err? ==> r == StepOutcome(Some(Err(CoreChat.ParseError(CoreChat.Transport(delivery.error)))), buffer)
    ensures delivery.Ok? && !Contains(buffer + delivery.value, EventSeparator) ==> r == StepOutcome(None, "")
    ensures r.item.Some? ==> StreamItem(r.item.value)
  {
    match delivery
    case Err(reason) => StepOutcome(Some(Err(CoreChat.ParseError(CoreChat.Transport(reason)))), buffer)
    case Ok(text) =>
      var pieces := Split(buffer + text, EventSeparator);
      if |pieces| < 2 then StepOutcome(None, "")
      else
        var last := Last(pieces);
        if EndsWith(last, EventSeparator) then
          StepOutcome(ItemOf(Contributions(pieces, parse)), "")
        else
          StepOutcome(ItemOf(Contributions(AllButLast(pieces), parse)), last)
  }

  /** The three outcomes of a step over a delivered text, by the pieces of its working text. */
  lemma ScanStepCases(buffer: string, text: string, parse: Parser)
    ensures var pieces := Split(buffer + text, EventSeparator);
      if |pieces| < 2 then ScanStep(buffer, Ok(text), parse) == StepOutcome(None, "")
      else if EndsWith(Last(pieces), EventSeparator) then
        ScanStep(buffer, Ok(text), parse) == StepOutcome(ItemOf(Contributions(pieces, parse)), "")
      else ScanStep(buffer, Ok(text), parse) == StepOutcome(ItemOf(Contributions(AllButLast(pieces), parse)), Last(pieces))
  {
  }

  /** The scan's state: the text carried over from one delivery to the next. */
  class EventScanner {
    var buffer: string
    const parse: Parser

    constructor(parse: Parser)
      ensures buffer == "" && this.parse == parse
    {
      buffer := "";
      this.parse := parse;
    }

    /** The `scan` closure: drains the carry-over, processes the complete events, and saves the rest. */
    method Feed(delivery: Delivery) returns (item: Option<Item>)
      modifies this
      ensures StepOutcome(item, buffer) == ScanStep(old(buffer), delivery, parse)
    {
      if delivery.Err? {
        return Some(Err(CoreChat.ParseError(CoreChat.Transport(delivery.error))));
      }
      ghost var start := buffer;
      var chunk := buffer + delivery.value;
      buffer := "";
      var content := "";
      var pieces := Split(chunk, EventSeparator);
      var saved: Option<string> := None;
      for i := 0 to |pieces| - 1
        invariant buffer == ""
        invariant content == Contributions(pieces[..i], parse)
        invariant i == 0 ==> saved.None?
        invariant i > 0 ==> saved == Some(pieces[i])
      {
        saved := Some(pieces[i + 1]);
        assert pieces[..i + 1][..i] == pieces[..i];
        content := ProcessEvent(pieces[i], content, parse);
      }
      if saved.Some? {
        assert pieces[..|pieces| - 1] == AllButLast(pieces);
        if EndsWith(saved.value, EventSeparator) {
          content := ProcessEvent(saved.value, content, parse);
        } else {
          buffer := buffer + saved.value;
        }
      }
      item := if |content| == 0 then None else Some(Ok(Content(content)));
      assert delivery == Ok(delivery.value);
      FeedResult(start, delivery.value, parse, content, buffer);
    }
  }

  /** What `Feed` leaves behind, by the pieces of the working text, is one step of the scan. */
  lemma FeedResult(start: string, text: string, parse: Parser, content: string, buffer: string)
    requires var pieces := Split(start + text, EventSeparator);
      (|pieces| < 2 ==> content == "" && buffer == "") &&
      (|pieces| >= 2 && EndsWith(Last(pieces), EventSeparator) ==>
        content == Contributions(AllButLast(pieces), parse) + Contribution(Last(pieces), parse) && buffer == "") &&
      (|pieces| >= 2 && !EndsWith(Last(pieces), EventSeparator) ==>
        content == Contributions(AllButLast(pieces), parse) && buffer == Last(pieces))
    ensures StepOutcome(ItemOf(content), buffer) == ScanStep(start, Ok(text), parse)
  {
    ScanStepCases(start, text, parse);
  }

  /** The last piece of a split never ends with the delimiter, so the `ends_with` branch is dead. */
  lemma CarryOverLacksSeparator(working: string)
    ensures !EndsWith(Last(Split(working, EventSeparator)), EventSeparator)
  {
    var pieces := Split(working, EventSeparator);
    SplitPiecesLackDelimiter(working, EventSeparator);
    assert !Contains(Last(pieces), EventSeparator);
    EndsWithContains(Last(pieces), EventSeparator);
  }

  /**
   * A delivery whose working text holds a blank line yields the content of
   * every complete event, in order, and carries the unfinished last piece;
   * nothing of the working text is lost.
   */
  lemma ScanStepWithSeparator(buffer: string, text: string, parse: Parser)
    requires Contains(buffer + text, EventSeparator)
    ensures var pieces := Split(buffer + text, EventSeparator);
      |pieces| >= 2 &&
      ScanStep(buffer, Ok(text), parse) == StepOutcome(ItemOf(Contributions(AllButLast(pieces), parse)), Last(pieces)) &&
      Join(AllButLast(pieces) + [Last(pieces)], EventSeparator) == buffer + text
  {
    var w := buffer + text;
    SplitHasTwo(w, EventSeparator);
    CarryOverLacksSeparator(w);
    ScanStepCases(buffer, text, parse);
    SplitJoin(w, EventSeparator);
    AllButLastThenLast(Split(w, EventSeparator));
  }

  /** The content a step yields, or the empty text when it yields no content. */
  function ItemText(item: Option<Item>): string {
    if item.Some? && item.value.Ok? then item.value.value.text else ""
  }

  /**
   * The carry-over step as evidently intended: the last piece always becomes
   * the carry-over, so a working text without a blank line waits for the
   * rest of its event instead of being dropped.
   */
  function FixedScanStep(buffer: string, delivery: Delivery, parse: Parser): (r: StepOutcome)
    ensures delivery.Err? ==> r == StepOutcome(Some(Err(CoreChat.ParseError(CoreChat.Transport(delivery.error)))), buffer)
    ensures delivery.Ok? && !Contains(buffer + delivery.value, EventSeparator) ==> r == StepOutcome(None, buffer + delivery.value)
  {
    match delivery
    case Err(reason) => StepOutcome(Some(Err(CoreChat.ParseError(CoreChat.Transport(reason)))), buffer)
    case Ok(text) =>
      var pieces := Split(buffer + text, EventSeparator);
      assert !Contains(buffer + text, EventSeparator) ==> pieces == [buffer + text];
      StepOutcome(ItemOf(Contributions(AllButLast(pieces), parse)), Last(pieces))
  }

  /** Where the working text holds a blank line, the scan as written and the corrected one agree. */
  lemma FixedAgreesWithSeparator(buffer: string, text: string, parse: Parser)
    requires Contains(buffer + text, EventSeparator)
    ensures FixedScanStep(buffer, Ok(text), parse) == ScanStep(buffer, Ok(text), parse)
  {
    ScanStepWithSeparator(buffer, text, parse);
  }

  lemma AllButLastAppend<T>(x: seq<T>, y: seq<T>)
    requires y != []
    ensures AllButLast(x + y) == x + AllButLast(y) && Last(x + y) == Last(y)
  {
    assert (x + y)[..|x + y| - 1] == x + y[..|y| - 1];
  }

  /**
   * With the corrected step, how the text is cut into deliveries does not
   * matter: two deliveries yield together the content that their
   * concatenation yields at once, and leave the same carry-over.
   */
  lemma FixedStepsCompose(buffer: string, a: string, b: string, parse: Parser)
    ensures var first := FixedScanStep(buffer, Ok(a), parse);
      var second := FixedScanStep(first.buffer, Ok(b), parse);
      var whole := FixedScanStep(buffer, Ok(a + b), parse);
      second.buffer == whole.buffer && ItemText(first.item) + ItemText(second.item) == ItemText(whole.item)
  {
    var t := buffer + a;
    var head := Split(t, EventSeparator);
    var tail := Split(Last(head) + b, EventSeparator);
    assert buffer + (a + b) == t + b;
    SplitAppend(t, b, EventSeparator);
    AllButLastAppend(AllButLast(head), tail);
    ContributionsAppend(AllButLast(head), AllButLast(tail), parse);
  }

  /** An event followed by a blank line in one delivery yields the event's content. */
  lemma WholeEventInOneDelivery(event: string, parse: Parser)
    requires !Contains(event, EventSeparator) && (event == [] || event[|event| - 1] != '\n')
    ensures ScanStep("", Ok(event + EventSeparator), parse) == StepOutcome(ItemOf(Contribution(event, parse)), "")
  {
    SplitAtTrailingBlankLine(event);
    assert "" + (event + EventSeparator) == event + EventSeparator;
    assert Contains(event + EventSeparator, EventSeparator) by {
      assert OccursAt(event + EventSeparator, EventSeparator, |event|);
    }
    ScanStepWithSeparator("", event + EventSeparator, parse);
    assert AllButLast([event, ""]) == [event];
    assert Contributions([event], parse) == Contribution(event, parse) by {
      assert [event][..0] == [];
    }
  }

  /**
   * As written, the same event cut before its blank line yields nothing: the
   * first delivery has no blank line and is dropped, and the second is a lone
   * blank line, which holds no event.
   */
  lemma AsWrittenDropsSplitEvent(event: string, parse: Parser)
    requires !Contains(event, EventSeparator)
    ensures ScanStep("", Ok(event), parse) == StepOutcome(None, "")
    ensures ScanStep("", Ok(EventSeparator), parse).item.None?
  {
    assert "" + event == event;
    SplitAtTrailingBlankLine("");
    assert "" + EventSeparator == EventSeparator;
    assert Contributions([""], parse) == Contribution("", parse) by {
      assert [""][..0] == [];
    }
    assert !Contains("", "event:");
    assert AllButLast(["", ""]) == [""];
  }

  /** The corrected step carries the first part and yields the event's content with the blank line. */
  lemma FixedKeepsSplitEvent(event: string, parse: Parser)
    requires !Contains(event, EventSeparator) && (event == [] || event[|event| - 1] != '\n')
    ensures FixedScanStep("", Ok(event), parse) == StepOutcome(None, event)
    ensures FixedScanStep(event, Ok(EventSeparator), parse) == StepOutcome(ItemOf(Contribution(event, parse)), "")
  {
    assert "" + event == event;
    WholeEventInOneDelivery(event, parse);
    assert Contains(event + EventSeparator, EventSeparator) by {
      assert OccursAt(event + EventSeparator, EventSeparator, |event|);
    }
    assert "" + (event + EventSeparator) == event + EventSeparator;
    FixedAgreesWithSeparator(event, EventSeparator, parse);
    FixedAgreesWithSeparator("", event + EventSeparator, parse);
  }

  /** A text with a single newline holds no blank line. */
  lemma SingleNewline(a: string, b: string)
    requires '\n' !in a && '\n' !in b
    ensures !Contains(a + "\n" + b, EventSeparator)
  {
    var s := a + "\n" + b;
    forall j: nat | j + 2 <= |s|
      ensures !OccursAt(s, EventSeparator, j)
    {
      if j < |a| {
        assert s[j] == a[j] && a[j] in a;
      } else if j == |a| {
        assert s[j + 1] == b[0] && b[0] in b;
      } else {
        assert s[j] == b[j - |a| - 1] && b[j - |a| - 1] in b;
      }
    }
  }

  /** A `content_block_delta` event whose data line holds one JSON document. */
  function DeltaEvent(json: string): string {
    "event: content_block_delta\ndata: " + json
  }

  /** A word after a single space trims to the word. */
  lemma TrimSpacedWord(w: string)
    requires w != [] && !IsWhitespace(w[0]) && !IsWhitespace(w[|w| - 1])
    ensures Trim(" " + w) == w
  {
    var s := " " + w;
    assert s[0] == ' ' && IsWhitespace(s[0]);
    assert s[1..] == w;
    assert TrimStart(s) == TrimStart(w);
    assert TrimStart(w) == w;
    assert TrimEnd(w) == w;
  }

  lemma DeltaEventParts(json: string, name: string, data: string)
    requires name == " content_block_delta" && data == "data: " + json
    ensures DeltaEvent(json) == "event:" + name + "\n" + data
  {
  }

  lemma DeltaNameFacts(name: string)
    requires name == " content_block_delta"
    ensures '\n' !in "event:" + name
  {
  }

  lemma DeltaNameTrims(name: string)
    requires name == " content_block_delta"
    ensures Trim(name) == DeltaEventName
  {
    TrimSpacedWord(DeltaEventName);
  }

  lemma PayloadFacts(json: string, payload: string, data: string)
    requires '\n' !in json && json != [] && !IsWhitespace(json[|json| - 1])
    requires payload == " " + json && data == "data: " + json
    ensures data == "data:" + payload
    ensures '\n' !in payload && !IsWhitespace(payload[|payload| - 1])
    ensures !IsWhitespace(data[|data| - 1]) && '\n' !in data
  {
    assert payload[|payload| - 1] == json[|json| - 1];
    assert forall i :: 1 <= i < |payload| ==> payload[i] == json[i - 1];
    assert forall i :: 6 <= i < |data| ==> data[i] == json[i - 6];
  }

  /**
   * Such an event holds no blank line, does not end in a newline, and
   * contributes the text of the document after `data:`, if it parses.
   */
  lemma DeltaEventFacts(json: string, parse: Parser)
    requires '\n' !in json && json != [] && !IsWhitespace(json[|json| - 1])
    ensures var event := DeltaEvent(json);
      !Contains(event, EventSeparator) && event[|event| - 1] != '\n' &&
      Contribution(event, parse) == if parse(" " + json).Some? then parse(" " + json).value.delta.text else ""
  {
    DeltaEventShape(json);
    DeltaEventContribution(json, parse);
  }

  lemma DeltaEventShape(json: string)
    requires '\n' !in json && json != [] && !IsWhitespace(json[|json| - 1])
    ensures var event := DeltaEvent(json);
      !Contains(event, EventSeparator) && event[|event| - 1] != '\n'
  {
    var name, data :| name == " content_block_delta" && data == "data: " + json;
    DeltaEventParts(json, name, data);
    DeltaNameFacts(name);
    PayloadFacts(json, " " + json, data);
    SingleNewline("event:" + name, data);
    var event := DeltaEvent(json);
    assert event[|event| - 1] == data[|data| - 1];
  }

  lemma DeltaEventContribution(json: string, parse: Parser)
    requires '\n' !in json && json != [] && !IsWhitespace(json[|json| - 1])
    ensures Contribution(DeltaEvent(json), parse) == if parse(" " + json).Some? then parse(" " + json).value.delta.text else ""
  {
    var name, data :| name == " content_block_delta" && data == "data: " + json;
    var payload := " " + json;
    DeltaEventParts(json, name, data);
    DeltaNameFacts(name);
    DeltaNameTrims(name);
    PayloadFacts(json, payload, data);
    var event := DeltaEvent(json);
    assert ParseEvent(event, parse) == ParseContentBlockDelta(data, parse) by {
      ParseEventOfParts(name, data, parse);
    }
    SingleDataLine(payload, parse);
    assert ParseContentBlockDelta(data, parse) == ParseContentBlockDelta("data:" + payload, parse);
    var parsed := ParseContentBlockDelta(data, parse);
    assert parsed == match parse(payload) case None => Err(InvalidBody(InvalidJson)) case Some(response) => Ok(response);
    assert parsed.Ok? <==> parse(payload).Some?;
    ContributionOf(event, parse, parsed);
  }

  lemma ContributionOf(event: string, parse: Parser, parsed: Result<AnthropicChunkResponse, ParseEventError>)
    requires ParseEvent(event, parse) == parsed
    ensures Contribution(event, parse) == if parsed.Ok? then parsed.value.delta.text else ""
  {
  }

  /**
   * The single-event response of the backend's tests: one delivery holding
   * the event and its blank line yields one chunk with the delta's text.
   */
  lemma HelloEventExample(json: string, parse: Parser)
    requires json == "{\"delta\":{\"text\":\"Hello!\"}}"
    requires parse(" " + json) == Some(AnthropicChunkResponse(Delta("Hello!")))
    ensures ScanStep("", Ok(DeltaEvent(json) + EventSeparator), parse) == StepOutcome(Some(Ok(Content("Hello!"))), "")
  {
    DeltaEventFacts(json, parse);
    WholeEventInOneDelivery(DeltaEvent(json), parse);
  }

  /**
   * The carry-over defect on that event: cut before its blank line, the
   * scan as written yields nothing from either delivery, while the corrected
   * step yields `Hello!` on the second.
   */
  lemma HelloEventCutBeforeSeparator(json: string, parse: Parser)
    requires json == "{\"delta\":{\"text\":\"Hello!\"}}"
    requires parse(" " + json) == Some(AnthropicChunkResponse(Delta("Hello!")))
    ensures ScanStep("", Ok(DeltaEvent(json)), parse) == StepOutcome(None, "")
    ensures ScanStep("", Ok(EventSeparator), parse).item.None?
    ensures FixedScanStep("", Ok(DeltaEvent(json)), parse) == StepOutcome(None, DeltaEvent(json))
    ensures FixedScanStep(DeltaEvent(json), Ok(EventSeparator), parse).item == Some(Ok(Content("Hello!")))
  {
    DeltaEventFacts(json, parse);
    AsWrittenDropsSplitEvent(DeltaEvent(json), parse);
    FixedKeepsSplitEvent(DeltaEvent(json), parse);
  }

  /** The items a whole response yields, and the carry-over left at its end. */
  datatype ScanOutcome = ScanOutcome(items: seq<Item>, buffer: string)

  /**
   * The `scan` followed by `filter_map` over a whole response: each delivery
   * contributes its item, if any, in order, and hands its carry-over on.
   */
  function ScanAll(deliveries: seq<Delivery>, parse: Parser): (r: ScanOutcome)
    ensures |r.items| <= |deliveries|
  {
    if deliveries == [] then ScanOutcome([], "")
    else
      var prev := ScanAll(deliveries[..|deliveries| - 1], parse);
      var step := ScanStep(prev.buffer, deliveries[|deliveries| - 1], parse);
      ScanOutcome(prev.items + (if step.item.Some? then [step.item.value] else []), step.buffer)
  }

  /** The response stream of `chat`: one scanner fed every delivery in turn. */
  method DecodeStream(deliveries: seq<Delivery>, parse: Parser) returns (items: seq<Item>)
    ensures items == ScanAll(deliveries, parse).items
  {
    var scanner := new EventScanner(parse);
    items := [];
    for i := 0 to |deliveries|
      invariant ScanOutcome(items, scanner.buffer) == ScanAll(deliveries[..i], parse)
    {
      assert deliveries[..i + 1][..i] == deliveries[..i];
      var item := scanner.Feed(deliveries[i]);
      if item.Some? {
        items := items + [item.value];
      }
    }
    assert deliveries[..|deliveries|] == deliveries;
  }

  /** Every item of the stream is a transport error or a non-empty content chunk. */
  lemma {:induction false} ScanAllItems(deliveries: seq<Delivery>, parse: Parser)
    ensures forall item <- ScanAll(deliveries, parse).items :: StreamItem(item)
  {
    if deliveries != [] {
      ScanAllItems(deliveries[..|deliveries| - 1], parse);
    }
  }
}
