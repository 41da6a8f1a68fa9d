/**
 * Request options of the core crate's first chat interface: a by-value
 * builder over model, messages, streaming flag, token limit and
 * provider-specific extras, together with the chunk and error types its
 * response stream carries.
 */
module CoreChat {
  import opened JsonTree
  import MessageRoles

  /** The messages of a request: a list of messages, or text the caller has already serialised. */
  datatype Messages = Raw(messages: seq<MessageRoles.Message>) | Serialized(raw: string)

  datatype ChatOptions = ChatOptions(
    model: string,
    messages: Messages,
    stream: bool,
    maxTokens: nat,
    extras: map<string, Json>)

  /** The default token limit of a new request. */
  const DefaultMaxTokens: nat := 4096

  /** One item of the response stream. */
  datatype ChunkResponse = ChunkResponse(content: string)

  /** Why a stream item could not be produced; the error's message is kept as text. */
  datatype Cause = Transport(reason: string) | InvalidJson | InvalidEvent(reason: string)

  datatype ChatStreamError = IncompleteChunk | ParseError(cause: Cause)

  /** `ChatOptions::new`. */
  function New(model: string): (o: ChatOptions)
    ensures o.model == model && o.messages == Raw([]) && o.stream
    ensures o.maxTokens == 4096 && o.extras == map[]
  {
    ChatOptions(model, Raw([]), true, DefaultMaxTokens, map[])
  }

  /** `ChatOptions::model`. */
  function SetModel(o: ChatOptions, model: string): (r: ChatOptions)
    ensures r.model == model
    ensures r.messages == o.messages && r.stream == o.stream
    ensures r.maxTokens == o.maxTokens && r.extras == o.extras
  {
    o.(model := model)
  }

  /** `ChatOptions::messages`. */
  function SetMessages(o: ChatOptions, messages: seq<MessageRoles.Message>): (r: ChatOptions)
    ensures r.messages == Raw(messages)
    ensures r.model == o.model && r.stream == o.stream
    ensures r.maxTokens == o.maxTokens && r.extras == o.extras
  {
    o.(messages := Raw(messages))
  }

  /** `ChatOptions::messages_serialized`: the text is stored as given, without validation. */
  function SetMessagesSerialized(o: ChatOptions, raw: string): (r: ChatOptions)
    ensures r.messages == Serialized(raw)
    ensures r.model == o.model && r.stream == o.stream
    ensures r.maxTokens == o.maxTokens && r.extras == o.extras
  {
    o.(messages := Serialized(raw))
  }

  /** `ChatOptions::stream`. */
  function SetStream(o: ChatOptions, stream: bool): (r: ChatOptions)
    ensures r.stream == stream
    ensures r.model == o.model && r.messages == o.messages
    ensures r.maxTokens == o.maxTokens && r.extras == o.extras
  {
    o.(stream := stream)
  }

  /** `ChatOptions::max_tokens`: a limit of zero is raised to one. */
  function SetMaxTokens(o: ChatOptions, maxTokens: nat): (r: ChatOptions)
    ensures r.maxTokens >= 1
    ensures maxTokens >= 1 ==> r.maxTokens == maxTokens
    ensures maxTokens == 0 ==> r.maxTokens == 1
    ensures r.model == o.model && r.messages == o.messages
    ensures r.stream == o.stream && r.extras == o.extras
  {
    o.(maxTokens := if maxTokens < 1 then 1 else maxTokens)
  }

  /** `ChatOptions::extra`: the key now maps to the value, and every other key is kept. */
  function Extra(o: ChatOptions, key: string, value: Json): (r: ChatOptions)
    ensures key in r.extras && r.extras[key] == value
    ensures forall k :: k != key ==> (k in r.extras <==> k in o.extras)
    ensures forall k :: k != key && k in o.extras ==> r.extras[k] == o.extras[k]
    ensures r.model == o.model && r.messages == o.messages
    ensures r.stream == o.stream && r.maxTokens == o.maxTokens
  {
    o.(extras := o.extras[key := value])
  }

  /** A later `extra` for the same key replaces the earlier one. */
  lemma ExtraOverwrites(o: ChatOptions, key: string, first: Json, second: Json)
    ensures Extra(Extra(o, key, first), key, second) == Extra(o, key, second)
  {
    assert Extra(Extra(o, key, first), key, second).extras == Extra(o, key, second).extras;
  }

  /** Extras for different keys may be given in either order. */
  lemma ExtrasCommute(o: ChatOptions, k1: string, v1: Json, k2: string, v2: Json)
    requires k1 != k2
    ensures Extra(Extra(o, k1, v1), k2, v2) == Extra(Extra(o, k2, v2), k1, v1)
  {
    assert Extra(Extra(o, k1, v1), k2, v2).extras == Extra(Extra(o, k2, v2), k1, v1).extras;
  }

  /** Clamping the token limit twice is the same as clamping it once. */
  lemma SetMaxTokensTwice(o: ChatOptions, a: nat, b: nat)
    ensures SetMaxTokens(SetMaxTokens(o, a), b) == SetMaxTokens(o, b)
  {
  }
}
