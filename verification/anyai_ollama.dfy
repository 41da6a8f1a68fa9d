/**
 * The first-generation Ollama backend's response decoding: every delivery of
 * the response body is one JSON document holding a `message`, and becomes
 * exactly one item, the message's content or an error.
 */
module AnyaiOllama {
  import opened Wrappers
  import opened JsonTree
  import AnyaiMessage

  /** Why a delivery could not be decoded. */
  datatype Cause = Transport(reason: string) | InvalidJson | InvalidMessage(err: AnyaiMessage.ParseMessageError)

  /** `ChatStreamError`: every failure is a parse error. */
  datatype ChatStreamError = ParseError(cause: Cause)

  datatype OllamaChunkResponse = OllamaChunkResponse(message: AnyaiMessage.Message)

  /** `OllamaChunkResponse::from_json`: the `message` member, read with Ollama's role names. */
  function FromJson(v: Json): (r: Result<OllamaChunkResponse, AnyaiMessage.ParseMessageError>)
    ensures Get(v, "message").None? ==> r == Err(AnyaiMessage.MissingField("message"))
    ensures Get(v, "message").Some? ==>
      match AnyaiMessage.FromJson(Get(v, "message").value, "user", "assistant", "system")
      case Ok(m) => r == Ok(OllamaChunkResponse(m))
      case Err(e) => r == Err(e)
  {
    match Get(v, "message")
    case None => Err(AnyaiMessage.MissingField("message"))
    case Some(mv) =>
      match AnyaiMessage.FromJson(mv, "user", "assistant", "system")
      case Err(e) => Err(e)
      case Ok(m) => Ok(OllamaChunkResponse(m))
  }

  /**
   * The per-delivery `map` closure: a transport error, a document that does not
   * parse and a document without a valid message all become a parse error;
   * otherwise the item is the message's content. `parse` stands for the JSON
   * reader.
   */
  function DecodeDelivery(delivery: Result<string, string>, parse: string -> Option<Json>): (r: Result<string, ChatStreamError>)
    ensures delivery.Err? ==> r == Err(ParseError(Transport(delivery.error)))
    ensures delivery.Ok? && parse(delivery.value).None? ==> r == Err(ParseError(InvalidJson))
    ensures r.Ok? ==> delivery.Ok? && parse(delivery.value).Some?
    ensures delivery.Ok? && parse(delivery.value).Some? ==>
      var response := FromJson(parse(delivery.value).value);
      (r.Ok? <==> response.Ok?) && (r.Ok? ==> r.value == response.value.message.content)
  {
    match delivery
    case Err(reason) => Err(ParseError(Transport(reason)))
    case Ok(text) =>
      match parse(text)
      case None => Err(ParseError(InvalidJson))
      case Some(json) =>
        match FromJson(json)
        case Err(e) => Err(ParseError(InvalidMessage(e)))
        case Ok(response) => Ok(response.message.content)
  }

  /** The response stream: one item per delivery, in order, with no state carried between deliveries. */
  function DecodeStream(deliveries: seq<Result<string, string>>, parse: string -> Option<Json>): (r: seq<Result<string, ChatStreamError>>)
    ensures |r| == |deliveries|
    ensures forall i :: 0 <= i < |deliveries| ==> r[i] == DecodeDelivery(deliveries[i], parse)
  {
    seq(|deliveries|, i requires 0 <= i < |deliveries| => DecodeDelivery(deliveries[i], parse))
  }

  /** Decoding a concatenation of delivery sequences concatenates the decoded items. */
  lemma DecodeStreamAppend(a: seq<Result<string, string>>, b: seq<Result<string, string>>, parse: string -> Option<Json>)
    ensures DecodeStream(a + b, parse) == DecodeStream(a, parse) + DecodeStream(b, parse)
  {
  }

  /** A message with the `tool` role is rejected: Ollama's role names leave it out. */
  lemma ToolRoleIsRejected(text: string, parse: string -> Option<Json>, content: string)
    requires parse(text) == Some(JObject(map["message" := JObject(map["role" := JString("tool"), "content" := JString(content)])]))
    ensures DecodeDelivery(Ok(text), parse) == Err(ParseError(InvalidMessage(AnyaiMessage.InvalidValue("role", "tool"))))
  {
  }

  /** A document without `message` is reported as a missing field. */
  lemma MissingMessageIsReported(text: string, parse: string -> Option<Json>)
    requires parse(text) == Some(JObject(map["done" := JBool(true)]))
    ensures DecodeDelivery(Ok(text), parse) == Err(ParseError(InvalidMessage(AnyaiMessage.MissingField("message"))))
  {
  }

  /** A valid assistant message yields its content. */
  lemma AssistantContentIsDelivered(text: string, parse: string -> Option<Json>, content: string)
    requires parse(text) == Some(JObject(map["message" := JObject(map["role" := JString("assistant"), "content" := JString(content)])]))
    ensures DecodeDelivery(Ok(text), parse) == Ok(content)
  {
  }
}
