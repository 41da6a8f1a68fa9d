/**
 * The OpenAI backend's response decoding. Every delivery of the body is
 * decoded on its own: it is split at blank lines ("\n\n") into events, every
 * event that begins with `data:` is read as a JSON chunk, and the content of
 * the first choice of each is appended to the delivery's one chunk. A data
 * event that does not parse turns the whole delivery into an error. Nothing
 * is carried over from one delivery to the next.
 */
module OpenAiChat {
  import opened Wrappers
  import opened Strings
  import CoreChat
  import opened ProvidersChat

  type Item = Result<ChatChunk, CoreChat.ChatStreamError>

  /** A delivery of the response body: its text, or the message of the transport error. */
  type Delivery = Result<string, string>

  datatype Delta = Delta(content: string)

  datatype Choice = Choice(delta: Delta)

  /** The fields of a streamed chunk that are read. */
  datatype OpenAiChunkResponse = OpenAiChunkResponse(choices: seq<Choice>)

  /** The JSON reader: the chunk a text holds, or `None` when it holds none. */
  type Parser = string -> Option<OpenAiChunkResponse>

  /** The prefix that marks an event carrying a chunk. */
  const DataPrefix: string := "data:"

  /** The content of a chunk's first choice; a chunk without choices adds nothing. */
  function FirstChoiceContent(response: OpenAiChunkResponse): (r: string)
    ensures response.choices == [] ==> r == ""
    ensures response.choices != [] ==> r == response.choices[0].delta.content
  {
    if |response.choices| == 0 then "" else response.choices[0].delta.content
  }

  /** An event whose data does not parse: the one thing that fails a delivery. */
  predicate Fails(event: string, parse: Parser) {
    StartsWith(event, DataPrefix) && parse(event[|DataPrefix|..]).None?
  }

  /**
   * What one event adds to the delivery's chunk: nothing for an event that is
   * not a data event, the first choice's content for a data event, and `None`
   * when the data does not parse.
   */
  function EventText(event: string, parse: Parser): (r: Option<string>)
    ensures r.None? <==> Fails(event, parse)
    ensures !StartsWith(event, DataPrefix) ==> r == Some("")
    ensures StartsWith(event, DataPrefix) && parse(event[|DataPrefix|..]).Some? ==>
      r == Some(FirstChoiceContent(parse(event[|DataPrefix|..]).value))
  {
    match StripPrefix(event, DataPrefix)
    case None => Some("")
    case Some(body) =>
      match parse(body)
      case None => None
      case Some(response) => Some(FirstChoiceContent(response))
  }

  /**
   * The events of one delivery read in order: `None` as soon as one fails,
   * otherwise the texts of all of them, joined.
   */
  function EventsText(events: seq<string>, parse: Parser): Option<string>
  {
    if events == [] then Some("")
    else
      match EventsText(events[..|events| - 1], parse)
      case None => None
      case Some(text) =>
        match EventText(events[|events| - 1], parse)
        case None => None
        case Some(more) => Some(text + more)
  }

  /** A delivery fails exactly when one of its events fails. */
  lemma {:induction false} EventsTextFails(events: seq<string>, parse: Parser)
    ensures EventsText(events, parse).None? <==> exists i :: 0 <= i < |events| && Fails(events[i], parse)
  {
    if events != [] {
      var init := events[..|events| - 1];
      EventsTextFails(init, parse);
      if exists i :: 0 <= i < |init| && Fails(init[i], parse) {
        var i :| 0 <= i < |init| && Fails(init[i], parse);
        assert events[i] == init[i];
      }
      if exists i :: 0 <= i < |events| && Fails(events[i], parse) {
        var i :| 0 <= i < |events| && Fails(events[i], parse);
        if i < |init| {
          assert init[i] == events[i];
        }
      }
    }
  }

  /** The text of an event that does not fail. */
  function TextOf(event: string, parse: Parser): string
    requires !Fails(event, parse)
  {
    EventText(event, parse).value
  }

  /** The texts of a sequence of events, joined. */
  function TextsOf(events: seq<string>, parse: Parser): string
    requires forall i :: 0 <= i < |events| ==> !Fails(events[i], parse)
  {
    if events == [] then ""
    else TextsOf(events[..|events| - 1], parse) + TextOf(events[|events| - 1], parse)
  }

  /** When no event fails, the delivery's text is the texts of its events joined in order. */
  lemma {:induction false} EventsTextJoins(events: seq<string>, parse: Parser)
    requires forall i :: 0 <= i < |events| ==> !Fails(events[i], parse)
    ensures EventsText(events, parse) == Some(TextsOf(events, parse))
  {
    if events != [] {
      EventsTextJoins(events[..|events| - 1], parse);
    }
  }

  /** Reading two runs of events one after the other joins their texts, and fails if either fails. */
  lemma {:induction false} EventsTextAppend(a: seq<string>, b: seq<string>, parse: Parser)
    ensures EventsText(a + b, parse) ==
      if EventsText(a, parse).Some? && EventsText(b, parse).Some?
      then Some(EventsText(a, parse).value + EventsText(b, parse).value)
      else None
    decreases |b|
  {
    if b == [] {
      assert a + b == a;
      assert EventsText(a, parse).Some? ==> EventsText(a, parse).value + "" == EventsText(a, parse).value;
    } else {
      var init := b[..|b| - 1];
      assert (a + b)[..|a + b| - 1] == a + init;
      assert (a + b)[|a + b| - 1] == b[|b| - 1];
      EventsTextAppend(a, init, parse);
      if EventsText(a, parse).Some? && EventsText(init, parse).Some? && EventText(b[|b| - 1], parse).Some? {
        var x, y, z := EventsText(a, parse).value, EventsText(init, parse).value, EventText(b[|b| - 1], parse).value;
        assert x + y + z == x + (y + z);
      }
    }
  }

  /** An event that is not a data event (a comment, an `event:` line, an empty piece) changes nothing. */
  lemma NonDataEventIsIgnored(a: seq<string>, event: string, b: seq<string>, parse: Parser)
    requires !StartsWith(event, DataPrefix)
    ensures EventsText(a + [event] + b, parse) == EventsText(a + b, parse)
  {
    EventsTextAppend(a + [event], b, parse);
    EventsTextAppend(a, [event], parse);
    EventsTextAppend(a, b, parse);
    assert EventsText([event], parse) == Some("" + "");
    if EventsText(a, parse).Some? {
      assert EventsText(a, parse).value + "" == EventsText(a, parse).value;
    }
  }

  /**
   * The per-delivery closure: a transport error is passed on; otherwise the
   * delivery always yields one content chunk, possibly empty, unless one of
   * its data events does not parse.
   */
  function DecodeDelivery(delivery: Delivery, parse: Parser): (r: Item)
    ensures delivery.Err? ==> r == Err(CoreChat.ParseError(CoreChat.Transport(delivery.error)))
    ensures r.Ok? ==> r.value.Content?
  {
    match delivery
    case Err(reason) => Err(CoreChat.ParseError(CoreChat.Transport(reason)))
    case Ok(text) =>
      match EventsText(Split(text, "\n\n"), parse)
      case None => Err(CoreChat.ParseError(CoreChat.InvalidJson))
      case Some(content) => Ok(Content(content))
  }

  /** A delivery is an invalid-JSON error exactly when one of its data events does not parse. */
  lemma DecodeDeliveryFails(text: string, parse: Parser)
    ensures DecodeDelivery(Ok(text), parse) == Err(CoreChat.ParseError(CoreChat.InvalidJson)) <==>
      exists e :: e in Split(text, "\n\n") && Fails(e, parse)
    ensures DecodeDelivery(Ok(text), parse).Ok? <==> forall e :: e in Split(text, "\n\n") ==> !Fails(e, parse)
  {
    var events := Split(text, "\n\n");
    EventsTextFails(events, parse);
    if exists e :: e in events && Fails(e, parse) {
      var e :| e in events && Fails(e, parse);
      var i :| 0 <= i < |events| && events[i] == e;
    }
  }

  /** When the delivery does not fail, its chunk is the texts of its events joined in order. */
  lemma DecodeDeliveryContent(text: string, parse: Parser)
    requires forall e :: e in Split(text, "\n\n") ==> !Fails(e, parse)
    ensures forall i :: 0 <= i < |Split(text, "\n\n")| ==> !Fails(Split(text, "\n\n")[i], parse)
    ensures DecodeDelivery(Ok(text), parse) == Ok(Content(TextsOf(Split(text, "\n\n"), parse)))
  {
    var events := Split(text, "\n\n");
    assert forall i :: 0 <= i < |events| ==> events[i] in events;
    EventsTextJoins(events, parse);
  }

  /**
   * The closure as written: a loop over the events that appends each text and
   * returns the error at the first data event that does not parse.
   */
  method ParseDelivery(delivery: Delivery, parse: Parser) returns (item: Item)
    ensures item == DecodeDelivery(delivery, parse)
  {
    if delivery.Err? {
      return Err(CoreChat.ParseError(CoreChat.Transport(delivery.error)));
    }
    var events := Split(delivery.value, "\n\n");
    var content := "";
    for i := 0 to |events|
      invariant EventsText(events[..i], parse) == Some(content)
    {
      assert events[..i + 1][..i] == events[..i];
      var event := events[i];
      match StripPrefix(event, DataPrefix) {
        case None =>
          assert content + "" == content;
        case Some(body) =>
          match parse(body) {
            case None =>
              EventsTextAppend(events[..i + 1], events[i + 1..], parse);
              assert events[..i + 1] + events[i + 1..] == events;
              return Err(CoreChat.ParseError(CoreChat.InvalidJson));
            case Some(response) =>
              content := content + FirstChoiceContent(response);
          }
      }
    }
    assert events[..|events|] == events;
    item := Ok(Content(content));
  }

  /** The response stream: exactly one item per delivery, in order, each decoded on its own. */
  function DecodeStream(deliveries: seq<Delivery>, parse: Parser): (r: seq<Item>)
    ensures |r| == |deliveries|
    ensures forall i :: 0 <= i < |deliveries| ==> r[i] == DecodeDelivery(deliveries[i], parse)
  {
    seq(|deliveries|, i requires 0 <= i < |deliveries| => DecodeDelivery(deliveries[i], parse))
  }

  /** No state is kept between deliveries: decoding two runs of deliveries concatenates their items. */
  lemma DecodeStreamAppend(a: seq<Delivery>, b: seq<Delivery>, parse: Parser)
    ensures DecodeStream(a + b, parse) == DecodeStream(a, parse) + DecodeStream(b, parse)
  {
  }

  /** An empty delivery still yields a chunk, with empty content. */
  lemma EmptyDeliveryYieldsEmptyChunk(parse: Parser)
    ensures DecodeDelivery(Ok(""), parse) == Ok(Content(""))
  {
    assert Find("", "\n\n") == None;
    assert Split("", "\n\n") == [""];
    assert [""][..0] == [];
    assert EventsText([""], parse) == Some("" + "");
    assert "" + "" == "";
    assert EventsText(Split("", "\n\n"), parse) == Some("");
  }

  /**
   * A delivery holding one data event and its blank line yields the content of
   * the event's first choice: the test at chat.rs:115-130, where the content is `Hello!`.
   */
  lemma SingleEventDelivery(json: string, content: string, parse: Parser)
    requires json != [] && '\n' !in json
    requires parse(json) == Some(OpenAiChunkResponse([Choice(Delta(content))]))
    ensures DecodeDelivery(Ok(DataPrefix + json + "\n\n"), parse) == Ok(Content(content))
  {
    var event := DataPrefix + json;
    assert '\n' !in event by {
      forall k | 0 <= k < |event|
        ensures event[k] != '\n'
      {
        if k >= |DataPrefix| {
          assert event[k] == json[k - |DataPrefix|];
        }
      }
    }
    NoLeadInNoMatch(event, "\n\n");
    assert event[|event| - 1] in event;
    SplitAtTrailingBlankLine(event);
    assert StartsWith(event, DataPrefix);
    assert event[|DataPrefix|..] == json;
    assert EventText(event, parse) == Some(content);
    assert EventText("", parse) == Some("");
    assert [event][..0] == [];
    assert EventsText([event], parse) == Some("" + content);
    assert "" + content == content;
    assert [event, ""][..1] == [event];
    assert EventText([event, ""][1], parse) == Some("");
    assert EventsText([event, ""], parse) == Some(content + "");
    assert "" + content == content && content + "" == content;
  }

  /**
   * The stream's end marker `data: [DONE]` is not JSON: a delivery that
   * contains it is reported as an error, whatever content came before it.
   */
  lemma DoneMarkerFails(before: seq<string>, after: seq<string>, parse: Parser)
    requires parse(" [DONE]") == None
    ensures EventsText(before + ["data: [DONE]"] + after, parse) == None
  {
    var events := before + ["data: [DONE]"] + after;
    assert events[|before|] == "data: [DONE]";
    assert Fails("data: [DONE]", parse) by {
      assert StartsWith("data: [DONE]", DataPrefix);
      assert "data: [DONE]"[|DataPrefix|..] == " [DONE]";
    }
    EventsTextFails(events, parse);
  }
}
