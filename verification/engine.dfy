/**
 * The response engine behind the provider interface: every backend turns the
 * deliveries of a response body into the items of one `ChatResponse`, which
 * the caller reads or aggregates. The backend and its JSON reader are chosen
 * by the caller; the HTTP exchange that produces the deliveries is not part
 * of this model.
 */
module Engine {
  import opened Wrappers
  import CoreChat
  import opened ProvidersChat
  import OllamaChat
  import AnthropicChat
  import OpenAiChat

  type Item = Result<ChatChunk, CoreChat.ChatStreamError>

  /** A delivery of the response body: its text, or the message of the transport error. */
  type Delivery = Result<string, string>

  /** A backend, with the JSON reader its decoder uses. */
  datatype Backend =
    | Ollama(ollama: OllamaChat.Parser)
    | Anthropic(anthropic: AnthropicChat.Parser)
    | OpenAi(openai: OpenAiChat.Parser)

  /** Each delivery of the Ollama stream yields at most two items. */
  lemma {:induction false} OllamaItemBound(deliveries: seq<Delivery>, inThinking: bool, parse: OllamaChat.Parser)
    ensures |OllamaChat.DecodedFrom(deliveries, inThinking, parse).items| <= 2 * |deliveries|
  {
    if deliveries != [] {
      OllamaItemBound(deliveries[..|deliveries| - 1], inThinking, parse);
    }
  }

  /**
   * The items of a backend's response stream: the Ollama stream starts with
   * the thinking flag clear, the Anthropic stream with an empty carry-over,
   * and the OpenAI stream keeps no state.
   */
  function Items(backend: Backend, deliveries: seq<Delivery>): (r: seq<Item>)
    ensures backend.Ollama? ==> |r| <= 2 * |deliveries|
    ensures backend.Anthropic? ==> |r| <= |deliveries|
    ensures backend.OpenAi? ==> |r| == |deliveries|
  {
    match backend
    case Ollama(parse) =>
      OllamaItemBound(deliveries, false, parse);
      OllamaChat.DecodedFrom(deliveries, false, parse).items
    case Anthropic(parse) => AnthropicChat.ScanAll(deliveries, parse).items
    case OpenAi(parse) => OpenAiChat.DecodeStream(deliveries, parse)
  }

  /** `chat` once the request succeeded: the backend's decoder wrapped in a fresh, unread response. */
  method Respond(backend: Backend, deliveries: seq<Delivery>) returns (response: ChatResponse)
    ensures fresh(response) && response.Valid() && response.cursor == 0
    ensures response.items == Items(backend, deliveries)
  {
    var items: seq<Item>;
    match backend {
      case Ollama(parse) =>
        items := OllamaChat.DecodeStream(deliveries, parse);
      case Anthropic(parse) =>
        items := AnthropicChat.DecodeStream(deliveries, parse);
      case OpenAi(parse) =>
        items := OpenAiChat.DecodeStream(deliveries, parse);
    }
    response := new ChatResponse(items);
  }

  /** On every backend a transport error becomes exactly one parse error carrying its message. */
  lemma TransportErrorPassesThrough(backend: Backend, reason: string)
    ensures Items(backend, [Err(reason)]) == [Err(CoreChat.ParseError(CoreChat.Transport(reason)))]
  {
    var d: seq<Delivery> := [Err(reason)];
    var e: Item := Err(CoreChat.ParseError(CoreChat.Transport(reason)));
    assert d[..0] == [] && d[0] == Err(reason);
    match backend {
      case Ollama(parse) =>
        var step := OllamaChat.ParsedChunk(d[0], false, parse);
        assert step.items == [e];
        assert OllamaChat.DecodedFrom(d, false, parse).items == [] + [e];
      case Anthropic(parse) =>
        var step := AnthropicChat.ScanStep("", d[0], parse);
        assert step.item == Some(e);
        assert AnthropicChat.ScanAll(d, parse).items == [] + [e];
      case OpenAi(parse) =>
    }
  }

  /** The texts of an OpenAI response whose deliveries all decode, joined in order. */
  function OpenAiTexts(deliveries: seq<Delivery>, parse: OpenAiChat.Parser): string
    requires forall i :: 0 <= i < |deliveries| ==> OpenAiChat.DecodeDelivery(deliveries[i], parse).Ok?
  {
    if deliveries == [] then ""
    else
      OpenAiTexts(deliveries[..|deliveries| - 1], parse) +
      OpenAiChat.DecodeDelivery(deliveries[|deliveries| - 1], parse).value.text
  }

  /** Aggregating an OpenAI response that has no failed delivery joins its texts and has no thinking. */
  lemma {:induction false} OpenAiAggregate(deliveries: seq<Delivery>, parse: OpenAiChat.Parser)
    requires forall i :: 0 <= i < |deliveries| ==> OpenAiChat.DecodeDelivery(deliveries[i], parse).Ok?
    ensures Strict(Items(OpenAi(parse), deliveries)) == Ok(Aggregated(OpenAiTexts(deliveries, parse), None))
  {
    var items := Items(OpenAi(parse), deliveries);
    OpenAiLossy(deliveries, parse);
    StrictIsLossyWithoutErrors(items);
  }

  /** The lossy aggregate of such a response: the same texts, and no thinking. */
  lemma {:induction false} OpenAiLossy(deliveries: seq<Delivery>, parse: OpenAiChat.Parser)
    requires forall i :: 0 <= i < |deliveries| ==> OpenAiChat.DecodeDelivery(deliveries[i], parse).Ok?
    ensures Lossy(OpenAiChat.DecodeStream(deliveries, parse)) == Aggregated(OpenAiTexts(deliveries, parse), None)
  {
    if deliveries != [] {
      var init := deliveries[..|deliveries| - 1];
      OpenAiLossy(init, parse);
      var items := OpenAiChat.DecodeStream(deliveries, parse);
      assert items[..|items| - 1] == OpenAiChat.DecodeStream(init, parse);
      var last := items[|items| - 1];
      assert Oks(items) == Oks(OpenAiChat.DecodeStream(init, parse)) + [last.value];
      FoldSnoc(Oks(OpenAiChat.DecodeStream(init, parse)), last.value);
    }
  }
}
