/**
 * The OpenAI backend of the core crate's first chat interface: the provider
 * builder, the request address, and the response decoder, which yields the
 * core crate's `ChunkResponse` instead of a content chunk and otherwise reads
 * a delivery exactly as the provider-interface decoder does.
 */
module OpenAiLib {
  import opened Wrappers
  import opened Strings
  import CoreChat
  import ProvidersChat
  import OpenAiChat

  /** The address used by `new`. */
  const DefaultUrl: string := "https://api.openai.com"

  /** The address used by `open_router`. */
  const OpenRouterUrl: string := "https://openrouter.ai/api"

  /** The path every chat request is sent to, below the provider's address. */
  const ChatPath: string := "/v1/chat/completions"

  /** `OpenAiProvider`, without its HTTP client. */
  datatype OpenAiProvider = OpenAiProvider(url: string, apiKey: string)

  /** `OpenAiProvider::new`. */
  function New(apiKey: string): (p: OpenAiProvider)
    ensures p.url == "https://api.openai.com" && p.apiKey == apiKey
  {
    OpenAiProvider(DefaultUrl, apiKey)
  }

  /** `OpenAiProvider::open_router`: the same provider, pointed at OpenRouter. */
  function OpenRouter(apiKey: string): (p: OpenAiProvider)
    ensures p.url == "https://openrouter.ai/api" && p.apiKey == apiKey
  {
    OpenAiProvider(OpenRouterUrl, apiKey)
  }

  /** `OpenAiProvider::url`: replaces the address and keeps the key. */
  function SetUrl(p: OpenAiProvider, url: string): (r: OpenAiProvider)
    ensures r.url == url && r.apiKey == p.apiKey
  {
    p.(url := url)
  }

  /** `OpenAiProvider::api_key`: replaces the key and keeps the address. */
  function SetApiKey(p: OpenAiProvider, apiKey: string): (r: OpenAiProvider)
    ensures r.apiKey == apiKey && r.url == p.url
  {
    p.(apiKey := apiKey)
  }

  /** The address a chat request is posted to: the provider's address followed by the chat path. */
  function ChatUrl(p: OpenAiProvider): (r: string)
    ensures StartsWith(r, p.url) && r[|p.url|..] == "/v1/chat/completions"
  {
    p.url + ChatPath
  }

  /** The address the test at chat.rs:160 expects of a provider built with `new`. */
  lemma DefaultTarget(key: string)
    ensures ChatUrl(New(key)) == "https://api.openai.com/v1/chat/completions"
  {
  }

  /** The address the test at chat.rs:181-184 expects of a provider built with `open_router`. */
  lemma OpenRouterTarget(key: string)
    ensures ChatUrl(OpenRouter(key)) == "https://openrouter.ai/api/v1/chat/completions"
  {
  }

  /** Setting the address twice keeps only the second. */
  lemma SetUrlTwice(p: OpenAiProvider, a: string, b: string)
    ensures SetUrl(SetUrl(p, a), b) == SetUrl(p, b)
  {
  }

  /** The two setters touch different fields, so their order does not matter. */
  lemma SettersCommute(p: OpenAiProvider, url: string, key: string)
    ensures SetUrl(SetApiKey(p, key), url) == SetApiKey(SetUrl(p, url), key)
  {
  }

  type Item = Result<CoreChat.ChunkResponse, CoreChat.ChatStreamError>

  /**
   * The per-delivery closure of this snapshot: a transport error is passed
   * on; otherwise the delivery yields one chunk holding the first-choice
   * contents of its data events, unless one of them does not parse.
   */
  function DecodeDelivery(delivery: OpenAiChat.Delivery, parse: OpenAiChat.Parser): (r: Item)
    ensures delivery.Err? ==> r == Err(CoreChat.ParseError(CoreChat.Transport(delivery.error)))
    ensures delivery.Ok? ==>
      (r.Ok? <==> forall e :: e in Split(delivery.value, "\n\n") ==> !OpenAiChat.Fails(e, parse))
  {
    match delivery
    case Err(reason) => Err(CoreChat.ParseError(CoreChat.Transport(reason)))
    case Ok(text) =>
      OpenAiChat.DecodeDeliveryFails(text, parse);
      match OpenAiChat.EventsText(Split(text, "\n\n"), parse)
      case None => Err(CoreChat.ParseError(CoreChat.InvalidJson))
      case Some(content) => Ok(CoreChat.ChunkResponse(content))
  }

  /**
   * The closure as written: a loop over the events that appends each
   * first-choice text to the chunk and returns the error at the first data
   * event that does not parse.
   */
  method ParseDelivery(delivery: OpenAiChat.Delivery, parse: OpenAiChat.Parser) returns (item: Item)
    ensures item == DecodeDelivery(delivery, parse)
  {
    if delivery.Err? {
      return Err(CoreChat.ParseError(CoreChat.Transport(delivery.error)));
    }
    var events := Split(delivery.value, "\n\n");
    var chunk := CoreChat.ChunkResponse("");
    for i := 0 to |events|
      invariant OpenAiChat.EventsText(events[..i], parse) == Some(chunk.content)
    {
      assert events[..i + 1][..i] == events[..i];
      match StripPrefix(events[i], OpenAiChat.DataPrefix) {
        case None =>
          assert chunk.content + "" == chunk.content;
        case Some(body) =>
          match parse(body) {
            case None =>
              OpenAiChat.EventsTextAppend(events[..i + 1], events[i + 1..], parse);
              assert events[..i + 1] + events[i + 1..] == events;
              return Err(CoreChat.ParseError(CoreChat.InvalidJson));
            case Some(response) =>
              chunk := chunk.(content := chunk.content + OpenAiChat.FirstChoiceContent(response));
          }
      }
    }
    assert events[..|events|] == events;
    item := Ok(chunk);
  }

  /** The response stream: one item per delivery, each decoded on its own. */
  function DecodeStream(deliveries: seq<OpenAiChat.Delivery>, parse: OpenAiChat.Parser): (r: seq<Item>)
    ensures |r| == |deliveries|
    ensures forall i :: 0 <= i < |deliveries| ==> r[i] == DecodeDelivery(deliveries[i], parse)
  {
    seq(|deliveries|, i requires 0 <= i < |deliveries| => DecodeDelivery(deliveries[i], parse))
  }

  /** This snapshot reads every delivery as the provider-interface decoder does, up to the chunk type. */
  lemma AgreesWithChatDecoder(delivery: OpenAiChat.Delivery, parse: OpenAiChat.Parser)
    ensures var later := OpenAiChat.DecodeDelivery(delivery, parse);
      match DecodeDelivery(delivery, parse)
      case Ok(chunk) => later == Ok(ProvidersChat.Content(chunk.content))
      case Err(e) => later == Err(e)
  {
  }
}
