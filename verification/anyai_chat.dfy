/**
 * Request options of the first-generation `anyai` crate and their JSON form:
 * `model`, `stream` and `messages`, followed by provider-specific extras that
 * are inserted last and so override any of those keys.
 */
module AnyaiChat {
  import opened Wrappers
  import opened JsonTree
  import opened AnyaiMessage

  datatype ChatOptions = ChatOptions(
    model: string,
    messages: seq<Message>,
    stream: bool,
    extras: map<string, Json>)

  /** Rendering to text is not modelled, so serialisation has no failure of its own. */
  datatype SerializeError = SerializeError

  /** `ChatOptions::new`. */
  function New(model: string): (o: ChatOptions)
    ensures o.model == model && o.messages == [] && o.stream && o.extras == map[]
  {
    ChatOptions(model, [], true, map[])
  }

  /** `ChatOptions::model`. */
  function SetModel(o: ChatOptions, model: string): (r: ChatOptions)
    ensures r.model == model
    ensures r.messages == o.messages && r.stream == o.stream && r.extras == o.extras
  {
    o.(model := model)
  }

  /** `ChatOptions::messages`. */
  function SetMessages(o: ChatOptions, messages: seq<Message>): (r: ChatOptions)
    ensures r.messages == messages
    ensures r.model == o.model && r.stream == o.stream && r.extras == o.extras
  {
    o.(messages := messages)
  }

  /** `ChatOptions::stream`. */
  function SetStream(o: ChatOptions, stream: bool): (r: ChatOptions)
    ensures r.stream == stream
    ensures r.model == o.model && r.messages == o.messages && r.extras == o.extras
  {
    o.(stream := stream)
  }

  /** `ChatOptions::extra`: the key now maps to the value, and every other key is kept. */
  function Extra(o: ChatOptions, key: string, value: Json): (r: ChatOptions)
    ensures key in r.extras && r.extras[key] == value
    ensures forall k :: k != key ==> (k in r.extras <==> k in o.extras)
    ensures forall k :: k != key && k in o.extras ==> r.extras[k] == o.extras[k]
    ensures r.model == o.model && r.messages == o.messages && r.stream == o.stream
  {
    o.(extras := o.extras[key := value])
  }

  /** The messages in order, each as `as_json` writes it. */
  function MessagesJson(messages: seq<Message>, names: RoleNames): (r: seq<Json>)
    ensures |r| == |messages|
    ensures forall i :: 0 <= i < |messages| ==> r[i] == AsJson(messages[i], names)
  {
    seq(|messages|, i requires 0 <= i < |messages| => AsJson(messages[i], names))
  }

  /** The object before the extras are added. */
  function BaseFields(o: ChatOptions, names: RoleNames): map<string, Json> {
    map["model" := JString(o.model), "stream" := JBool(o.stream),
        "messages" := JArray(MessagesJson(o.messages, names))]
  }

  /** The document `to_json` serialises. */
  function OptionsJson(o: ChatOptions, names: RoleNames): Json {
    JObject(BaseFields(o, names) + o.extras)
  }

  /** `ChatOptions::to_json`, up to rendering the document as text; it never fails. */
  method ToJson(o: ChatOptions, names: RoleNames) returns (r: Result<Json, SerializeError>)
    ensures r == Ok(OptionsJson(o, names))
  {
    var fields := map["model" := JString(o.model), "stream" := JBool(o.stream)];
    fields := fields["messages" := JArray(MessagesJson(o.messages, names))];
    var remaining := o.extras.Keys;
    while remaining != {}
      invariant remaining <= o.extras.Keys
      invariant fields.Keys == BaseFields(o, names).Keys + (o.extras.Keys - remaining)
      invariant forall k :: k in fields ==>
        fields[k] == if k in o.extras && k !in remaining then o.extras[k] else BaseFields(o, names)[k]
      decreases remaining
    {
      var key :| key in remaining;
      fields := fields[key := o.extras[key]];
      remaining := remaining - {key};
    }
    assert fields == BaseFields(o, names) + o.extras;
    r := Ok(JObject(fields));
  }

  /** The document has exactly the three base keys and the extras' keys. */
  lemma OptionsJsonKeys(o: ChatOptions, names: RoleNames)
    ensures OptionsJson(o, names).fields.Keys == {"model", "stream", "messages"} + o.extras.Keys
  {
  }

  /** Extras are inserted last: every extra appears with its own value, even over a base key. */
  lemma ExtrasOverrideBase(o: ChatOptions, names: RoleNames, key: string)
    requires key in o.extras
    ensures OptionsJson(o, names).fields[key] == o.extras[key]
  {
  }

  /** Each base key that no extra names keeps its base value; the messages keep their order. */
  lemma BaseKeysWithoutExtras(o: ChatOptions, names: RoleNames)
    ensures "model" !in o.extras ==> OptionsJson(o, names).fields["model"] == JString(o.model)
    ensures "stream" !in o.extras ==> OptionsJson(o, names).fields["stream"] == JBool(o.stream)
    ensures "messages" !in o.extras ==>
      var m := OptionsJson(o, names).fields["messages"];
      m.JArray? && |m.items| == |o.messages| &&
      forall i :: 0 <= i < |m.items| ==> GetStr(m.items[i], "content") == Some(o.messages[i].content)
  {
  }
}
