/**
 * The Anthropic backend of the core crate's first chat interface: the
 * provider builder, the request address and the response decoder. The
 * decoder is the same carry-over scan as the provider-interface backend's,
 * and yields the core crate's `ChunkResponse` instead of a content chunk.
 */
module AnthropicLib {
  import opened Wrappers
  import opened Strings
  import CoreChat
  import AnthropicChat

  /** The address used by `new`. */
  const DefaultUrl: string := "https://api.anthropic.com"

  /** The path every chat request is sent to, below the provider's address. */
  const MessagesPath: string := "/v1/messages"

  /** `AnthropicProvider`, without its HTTP client. */
  datatype AnthropicProvider = AnthropicProvider(url: string, apiKey: string)

  /** `AnthropicProvider::new`. */
  function New(apiKey: string): (p: AnthropicProvider)
    ensures p.url == "https://api.anthropic.com" && p.apiKey == apiKey
  {
    AnthropicProvider(DefaultUrl, apiKey)
  }

  /** `AnthropicProvider::url`: replaces the address and keeps the key. */
  function SetUrl(p: AnthropicProvider, url: string): (r: AnthropicProvider)
    ensures r.url == url && r.apiKey == p.apiKey
  {
    p.(url := url)
  }

  /** `AnthropicProvider::api_key`: replaces the key and keeps the address. */
  function SetApiKey(p: AnthropicProvider, apiKey: string): (r: AnthropicProvider)
    ensures r.apiKey == apiKey && r.url == p.url
  {
    p.(apiKey := apiKey)
  }

  /** The address a chat request is posted to: the provider's address followed by the messages path. */
  function MessagesUrl(p: AnthropicProvider): (r: string)
    ensures StartsWith(r, p.url) && r[|p.url|..] == "/v1/messages"
  {
    p.url + MessagesPath
  }

  /** A provider built with `new` posts to the public address. */
  lemma DefaultTarget(key: string)
    ensures MessagesUrl(New(key)) == "https://api.anthropic.com/v1/messages"
  {
  }

  /** The two setters touch different fields, so their order does not matter, and a later call wins. */
  lemma SettersCommute(p: AnthropicProvider, url: string, key: string, other: string)
    ensures SetUrl(SetApiKey(p, key), url) == SetApiKey(SetUrl(p, url), key)
    ensures SetUrl(SetUrl(p, other), url) == SetUrl(p, url)
    ensures SetApiKey(SetApiKey(p, other), key) == SetApiKey(p, key)
  {
  }

  type Item = Result<CoreChat.ChunkResponse, CoreChat.ChatStreamError>

  /** A content item of the provider interface, as this snapshot's chunk type. */
  function AsCoreItem(item: AnthropicChat.Item): (r: Item)
    requires AnthropicChat.StreamItem(item)
    ensures item.Ok? <==> r.Ok?
    ensures r.Ok? ==> r.value.content == item.value.text && r.value.content != ""
    ensures r.Err? ==> r.error == item.error
  {
    match item
    case Ok(chunk) => Ok(CoreChat.ChunkResponse(chunk.text))
    case Err(e) => Err(e)
  }

  /** What one step of this snapshot's scan yields, and the carry-over it leaves. */
  datatype StepOutcome = StepOutcome(item: Option<Item>, buffer: string)

  /**
   * One step of the scan: the carry-over is drained and prepended, every
   * complete event's delta text is collected, the last piece is carried over,
   * and at most one chunk is yielded.
   */
  function ScanStep(buffer: string, delivery: AnthropicChat.Delivery, parse: AnthropicChat.Parser): (r: StepOutcome)
    ensures delivery.Err? ==> r == StepOutcome(Some(Err(CoreChat.ParseError(CoreChat.Transport(delivery.error)))), buffer)
    ensures delivery.Ok? && !Contains(buffer + delivery.value, "\n\n") ==> r == StepOutcome(None, "")
    ensures r.item.Some? && r.item.value.Ok? ==> r.item.value.value.content != ""
    ensures delivery.Ok? && Contains(buffer + delivery.value, "\n\n") ==>
      var pieces := Split(buffer + delivery.value, "\n\n");
      var content := AnthropicChat.Contributions(AllButLast(pieces), parse);
      r.buffer == Last(pieces) &&
      (r.item.None? <==> content == "") &&
      (r.item.Some? ==> r.item.value == Ok(CoreChat.ChunkResponse(content)))
  {
    var step := AnthropicChat.ScanStep(buffer, delivery, parse);
    var r := StepOutcome(if step.item.Some? then Some(AsCoreItem(step.item.value)) else None, step.buffer);
    if delivery.Ok? && Contains(buffer + delivery.value, "\n\n") then
      AnthropicChat.ScanStepWithSeparator(buffer, delivery.value, parse);
      r
    else
      r
  }

  /** The items of a whole response, in order, and the carry-over left at its end. */
  datatype ScanOutcome = ScanOutcome(items: seq<Item>, buffer: string)

  /**
   * The `scan` followed by `filter_map` over a whole response. The closure is
   * the provider interface's scan with its chunk type changed, so this is that
   * fold with each item carried over to this snapshot's chunk.
   */
  function ScanAll(deliveries: seq<AnthropicChat.Delivery>, parse: AnthropicChat.Parser): (r: ScanOutcome)
    ensures |r.items| <= |deliveries|
  {
    var chat := AnthropicChat.ScanAll(deliveries, parse);
    AnthropicChat.ScanAllItems(deliveries, parse);
    ScanOutcome(seq(|chat.items|, i requires 0 <= i < |chat.items| => AsCoreItem(chat.items[i])), chat.buffer)
  }

  /** One more delivery adds this snapshot's step item, if any, and hands on the step's carry-over. */
  lemma ScanAllSnoc(deliveries: seq<AnthropicChat.Delivery>, d: AnthropicChat.Delivery, parse: AnthropicChat.Parser)
    ensures var prev := ScanAll(deliveries, parse);
      var step := ScanStep(prev.buffer, d, parse);
      ScanAll(deliveries + [d], parse) == ScanOutcome(prev.items + (if step.item.Some? then [step.item.value] else []), step.buffer)
  {
    var all := deliveries + [d];
    assert all[..|all| - 1] == deliveries;
    AnthropicChat.ScanAllItems(all, parse);
    AnthropicChat.ScanAllItems(deliveries, parse);
  }

  /**
   * The response stream of this snapshot, driven by the same scanner: one
   * scanner is fed every delivery in turn and each item it yields is passed
   * on as a `ChunkResponse`.
   */
  method DecodeStream(deliveries: seq<AnthropicChat.Delivery>, parse: AnthropicChat.Parser) returns (items: seq<Item>)
    ensures items == ScanAll(deliveries, parse).items
  {
    var scanner := new AnthropicChat.EventScanner(parse);
    items := [];
    for i := 0 to |deliveries|
      invariant scanner.parse == parse
      invariant ScanOutcome(items, scanner.buffer) == ScanAll(deliveries[..i], parse)
    {
      assert deliveries[..i + 1] == deliveries[..i] + [deliveries[i]];
      ScanAllSnoc(deliveries[..i], deliveries[i], parse);
      var item := scanner.Feed(deliveries[i]);
      if item.Some? {
        items := items + [AsCoreItem(item.value)];
      }
    }
    assert deliveries[..|deliveries|] == deliveries;
  }

  /**
   * Both snapshots yield the same stream: item for item, this one's chunk
   * holds the text of the provider interface's content chunk, and both end
   * with the same carry-over.
   */
  lemma {:induction false} AgreesWithChatScan(deliveries: seq<AnthropicChat.Delivery>, parse: AnthropicChat.Parser)
    ensures var mine := ScanAll(deliveries, parse);
      var later := AnthropicChat.ScanAll(deliveries, parse);
      mine.buffer == later.buffer && |mine.items| == |later.items| &&
      forall i :: 0 <= i < |mine.items| ==>
        AnthropicChat.StreamItem(later.items[i]) && mine.items[i] == AsCoreItem(later.items[i])
  {
    AnthropicChat.ScanAllItems(deliveries, parse);
    if deliveries != [] {
      AgreesWithChatScan(deliveries[..|deliveries| - 1], parse);
    }
  }
}
