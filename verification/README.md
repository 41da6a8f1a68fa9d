# anyml / anyai chat core, modelled in Dafny

anyml is a family of Rust crates that give one chat interface over several
language-model backends: Ollama, Anthropic and OpenAI (and OpenRouter, which
speaks the OpenAI protocol). The caller builds `ChatOptions`. A backend posts
them and turns the streamed response body into a stream of chunks. A
`ChatResponse` hands those chunks out one at a time, or folds them into one
`AggregatedChat` of content and optional thinking. The core crate also holds a
small JSON writer and model-name formatting, and the macro crate holds the
`json_string!` macro. The older `anyai` crate has its own message and options
types and an Ollama decoder over `serde_json::Value`.

This project models the part of that code that computes:

- **Streaming engine.**
  - The Ollama decoder: a scan over the deliveries that carries a
    "thinking" flag from one delivery to the next, and the
    `<think>`/`</think>` splitter.
  - The Anthropic decoder: server-sent events separated by blank lines, with
    a carry-over buffer.
  - The OpenAI decoder: each delivery is decoded on its own, with no state.
  - The consumer side: `ChatResponse::next`, `aggregate` and
    `aggregate_lossy`, and `AggregatedChat::push`.
  - The second snapshot of the Anthropic and OpenAI decoders in their `lib.rs`
    files. These yield the core crate's `ChunkResponse`.
  - A backend-independent `Engine` that wraps any decoder's items in a
    `ChatResponse`.
- **Pure utilities.**
  - JSON escaping and the `WriteJson` implementations for strings, booleans
    and integers.
  - The `json_string!` expansion: the static fast path, the dynamic writer,
    and conditional fields.
  - Model display names, parameter counts and quantisation labels.
  - Message roles and their (de)serialisation.
  - The options builders of both crates.
  - The `anyai` message JSON form and the `anyai` Ollama decoder.

How things are represented:

- The response body is a finite sequence of deliveries. Each delivery is
  `Ok(text)` or `Err(reason)` for a transport error.
- JSON decoding with serde is a parameter `parse: string -> Option<...>` that
  yields the typed document, or `None` when the text does not decode.
- Mutable state that the source updates in place is a class:
  - the Anthropic scanner's buffer;
  - the JSON writer's output string;
  - `AggregatedChat`;
  - `ChatResponse`'s cursor.
- These loops in the source are methods, each proved equal to a
  specification function: `split_thinking`, `parse_chunk`, the event loops
  of both OpenAI decoders, the Anthropic scanner's window loop,
  `json_escape_into`, the macro's `json_escape`, `Model::name`,
  `ModelQuant::new`, `to_json` and the two aggregation loops of
  `ChatResponse`. The field loops of the macro are recursive functions (see
  "Left out").

## Model

| member | source | states |
|---|---|---|
| OllamaChat.AppendOpt | crates/anyml_ollama/src/chat.rs:117-122 | `get_or_insert_with` then `push_str`: absent only when both parts are absent, and the text is the two parts in order |
| OllamaChat.AppendOptAssoc | crates/anyml_ollama/src/chat.rs:117-122 | appending thinking text is associative |
| OllamaChat.ThenAssoc | crates/anyml_ollama/src/chat.rs:107-136 | concatenating the outputs of successive splits is associative |
| OllamaChat.ThinkingSplitNonEmpty | crates/anyml_ollama/src/chat.rs:107-136 | empty thinking text is never recorded, so any thinking the splitter returns is non-empty |
| OllamaChat.CloseStep | crates/anyml_ollama/src/chat.rs:113-120 | inside a block, the text before the first `</think>` is thinking, the 8-character marker is consumed and the flag clears |
| OllamaChat.CloseStepAt | crates/anyml_ollama/src/chat.rs:113-120 | the same close step, stated on named parts of the text |
| OllamaChat.CloseMissing | crates/anyml_ollama/src/chat.rs:121-123 | inside a block with no `</think>`, all the remaining text is thinking and the flag stays set |
| OllamaChat.OpenStep | crates/anyml_ollama/src/chat.rs:125-128 | outside a block, the text before the first `<think>` is content, the 7-character marker is consumed and the flag is set |
| OllamaChat.OpenMissing | crates/anyml_ollama/src/chat.rs:129-131 | outside a block with no `<think>`, all the text is content and the flag stays clear |
| OllamaChat.SplitThinking | crates/anyml_ollama/src/chat.rs:107-136 | the loop that consumes the text one marker at a time computes exactly ThinkingSplit, including the updated flag |
| OllamaChat.ThinkingSplit | crates/anyml_ollama/src/chat.rs:107-136 | reference definition of `split_thinking`: outside a block, text up to `<think>` is content; inside one, text up to `</think>` is thinking; the markers flip the flag and are dropped; an unclosed block leaves the rest as thinking |
| OllamaChat.PlainTextPassesThrough | crates/anyml_ollama/src/chat.rs:129-132 | text without `<think>` outside a block is all content, and there is no thinking |
| OllamaChat.UnclosedBlockIsAllThinking | crates/anyml_ollama/src/chat.rs:121-123 | non-empty text without `</think>` inside a block is all thinking, and the block stays open |
| OllamaChat.ConsSegment | crates/anyml_ollama/src/chat.rs:107-136 | the rendered text, content and thinking of segments distribute over a leading segment |
| OllamaChat.ConsAlternates | crates/anyml_ollama/src/chat.rs:112-133 | the marker discipline holds on a leading segment and the rest exactly when each part obeys it |
| OllamaChat.MarkerAfterFacts | crates/anyml_ollama/src/chat.rs:113-128 | a marker-free text read in one mode, then the marker that ends that mode, then well-formed segments: together they render that text, follow the marker discipline and split it as expected |
| OllamaChat.MarkerStep | crates/anyml_ollama/src/chat.rs:113-128 | the splitter's first step when the marker that ends the current mode is found: the text before it goes to the mode's side and the flag flips |
| OllamaChat.OpenAcross | crates/anyml_ollama/src/chat.rs:125-128 | when `<think>` occurs only in `b`, the content runs from the start of `a` into `b` |
| OllamaChat.SplitTrace | crates/anyml_ollama/src/chat.rs:107-136 | every input character is either part of a consumed marker or goes, in order, to exactly one of content and thinking |
| OllamaChat.TraceThroughMarker | crates/anyml_ollama/src/chat.rs:113-128 | the SplitTrace case where a marker ends the current mode |
| OllamaChat.FindPastBoundary | crates/anyml_ollama/src/chat.rs:114 | a marker absent from `a` and not straddling is first found in `a + b` where it is first found in `b`, shifted by the length of `a` |
| OllamaChat.ThinkingSplitAppend | crates/anyml_ollama/src/chat.rs:56-60 | splitting `a + b` equals splitting `a` and then `b` with the flag threaded through, when no marker straddles the boundary |
| OllamaChat.CloseInFirst | crates/anyml_ollama/src/chat.rs:113-120 | a `</think>` found in `a` makes `a + b` take the same first step as `a` |
| OllamaChat.OpenInFirst | crates/anyml_ollama/src/chat.rs:125-128 | a `<think>` found in `a` makes `a + b` take the same first step as `a` |
| OllamaChat.AppendCloseInFirst | crates/anyml_ollama/src/chat.rs:113-120 | ThinkingSplitAppend, inside a block, when `</think>` occurs in `a` |
| OllamaChat.AppendOpenInFirst | crates/anyml_ollama/src/chat.rs:125-128 | ThinkingSplitAppend, outside a block, when `<think>` occurs in `a` |
| OllamaChat.CloseAcross | crates/anyml_ollama/src/chat.rs:113-120 | when `</think>` occurs only in `b`, the thinking runs from the start of `a` into `b` |
| OllamaChat.AppendCloseNotInFirst | crates/anyml_ollama/src/chat.rs:113-124 | ThinkingSplitAppend, inside a block, when `a` holds no `</think>` |
| OllamaChat.AppendOpenNotInFirst | crates/anyml_ollama/src/chat.rs:125-132 | ThinkingSplitAppend, outside a block, when `a` holds no `<think>` |
| OllamaChat.OpenAtStart | crates/anyml_ollama/src/chat.rs:125-128 | a text that begins with `<think>` opens a block and has no content before it |
| OllamaChat.CloseAfterPlainText | crates/anyml_ollama/src/chat.rs:113-120 | inside a block, marker-free text followed by `</think>` is the block's thinking, and the block closes |
| OllamaChat.CompleteBlockAtStart | crates/anyml_ollama/src/chat.rs:107-136 | a complete leading block gives thinking = its text, content = the rest, and a clear flag |
| OllamaChat.CompleteBlockExample | crates/anyml_ollama/src/chat.rs:225-243 | the test reply `<think>I need to think</think>The answer.` splits into that thinking and that answer |
| OllamaChat.SplitChunks | crates/anyml_ollama/src/chat.rs:93-102 | a split becomes at most two non-empty chunks: thinking first, if not empty, then content, if not empty |
| OllamaChat.FoldSplitChunks | crates/anyml_core/src/providers/chat.rs:201-208 | pushing a split's chunks adds its content to the content and its thinking to the thinking |
| OllamaChat.ParsedChunk | crates/anyml_ollama/src/chat.rs:65-78 | a transport error or an undecodable document is one error and keeps the flag; a decoded document yields its message's items |
| OllamaChat.MessageChunks | crates/anyml_ollama/src/chat.rs:80-103 | a non-empty structured `thinking` wins: it comes first, then any content, and the flag is kept; otherwise the content's tags are split and the items aggregate to the split's content and thinking |
| OllamaChat.ParseChunk | crates/anyml_ollama/src/chat.rs:65-103 | the pushing implementation yields exactly ParsedChunk's items and flag |
| OllamaChat.DecodeStream | crates/anyml_ollama/src/chat.rs:54-61 | the scan with `flat_map` yields each delivery's items in order, with the flag threaded and starting clear |
| OllamaChat.DecodedFrom | crates/anyml_ollama/src/chat.rs:54-61 | reference definition of the `scan` then `flat_map`: each delivery's items in order, with the thinking flag handed from one delivery to the next |
| OllamaChat.Contents | crates/anyml_ollama/src/chat.rs:138-149 | the message contents of plain deliveries, one per delivery |
| OllamaChat.ErrorFreeAppend | crates/anyml_core/src/providers/chat.rs:135-143 | appending error-free items keeps the strict aggregate equal to the lossy one |
| OllamaChat.PlainChunk | crates/anyml_ollama/src/chat.rs:92-102 | a delivery without structured thinking yields the chunks of its content's split |
| OllamaChat.TransparentStep | crates/anyml_ollama/src/chat.rs:54-61 | one more plain, non-straddling delivery keeps the stream's aggregate equal to the split of the whole text |
| OllamaChat.ChunkingIsTransparent | crates/anyml_ollama/src/chat.rs:54-61 | how plain content is cut into deliveries does not change the aggregate or the final flag, if no marker is cut |
| OllamaChat.SingleDelivery | crates/anyml_ollama/src/chat.rs:54-61 | a one-delivery response yields that delivery's items, from a clear flag |
| OllamaChat.StructuredFieldTakesPriority | crates/anyml_ollama/src/chat.rs:266-283 | a non-empty `thinking` field is the aggregate's thinking, and the content stays as it came, tags included |
| OllamaChat.EmptyThinkingFieldFallsBack | crates/anyml_ollama/src/chat.rs:286-303 | an empty `thinking` field counts as absent: the content's complete tag block becomes the thinking |
| AnthropicChat.FirstDataField | crates/anyml_anthropic/src/chat.rs:130-141 | `find_map` over the lines: the index of the first line whose trimmed form starts with `data:`, absent when none does |
| AnthropicChat.FirstMatching | crates/anyml_anthropic/src/chat.rs:130-141 | the search `find_map` performs: None exactly when no element matches, otherwise the index of a matching element with no match before it |
| AnthropicChat.ParseContentBlockDelta | crates/anyml_anthropic/src/chat.rs:127-148 | `MissingField("data")` exactly when no line is a data field; otherwise the payload of the FIRST data line, trimmed and past `data:`, decides: it decodes to `Ok` or gives `InvalidBody` |
| AnthropicChat.LeadingOtherLine | crates/anyml_anthropic/src/chat.rs:130-140 | a leading line that is not a data field is skipped: the body reads as its remaining lines |
| AnthropicChat.LeadingDataLine | crates/anyml_anthropic/src/chat.rs:130-147 | a leading data line decides the result alone: whatever lines follow it are ignored |
| AnthropicChat.ParseNamedEvent | crates/anyml_anthropic/src/chat.rs:109-124 | a body with no newline has no event name; only `content_block_delta` is read |
| AnthropicChat.NamedEventOfParts | crates/anyml_anthropic/src/chat.rs:109-124 | for a body split at its first newline into a name and data, a name that trims to `content_block_delta` gives the decoded data and any other name is `InvalidBody(InvalidName)` |
| AnthropicChat.EventOfBody | crates/anyml_anthropic/src/chat.rs:101-107 | an event starting with `event:` is parsed from the text after that tag |
| AnthropicChat.ParseEvent | crates/anyml_anthropic/src/chat.rs:101-107 | `MissingField("event")` exactly when the event holds no `event:` |
| AnthropicChat.EventAfterPreamble | crates/anyml_anthropic/src/chat.rs:101-107 | any text before the first `event:` (a leading newline, an `id:` line) is skipped, and the event is read from the text after that tag |
| AnthropicChat.SplitAfterEventTag | crates/anyml_anthropic/src/chat.rs:102-103 | `split_once("event:")` on a tagged event yields the text after the tag |
| AnthropicChat.SplitAfterName | crates/anyml_anthropic/src/chat.rs:109-110 | `split_once("\n")` separates the name line from the data |
| AnthropicChat.ParseEventOfParts | crates/anyml_anthropic/src/chat.rs:101-125 | an event named `content_block_delta`, after trimming, is read from its data; any other name is `InvalidBody` |
| AnthropicChat.SingleDataLine | crates/anyml_anthropic/src/chat.rs:130-147 | a single data line is decoded from the text after its 5-character prefix |
| AnthropicChat.ContributionsAppend | crates/anyml_anthropic/src/chat.rs:62-66 | the content of two runs of events is their contents joined |
| AnthropicChat.Contribution | crates/anyml_anthropic/src/chat.rs:89-99 | reference definition of what `process_event` appends for one event: the delta text of a parsed `content_block_delta`, nothing on any error |
| AnthropicChat.Contributions | crates/anyml_anthropic/src/chat.rs:62-66 | reference definition of the event loop: the contributions of the events, joined in order |
| AnthropicChat.OtherEventsContributeNothing | crates/anyml_anthropic/src/chat.rs:89-96 | an event with another name adds no text: its error is dropped |
| AnthropicChat.ProcessEvent | crates/anyml_anthropic/src/chat.rs:89-99 | `process_event` appends the event's delta text, or nothing on any error |
| AnthropicChat.ItemOf | crates/anyml_anthropic/src/chat.rs:78-82 | no item for empty content, else one content chunk |
| AnthropicChat.ScanStep | crates/anyml_anthropic/src/chat.rs:50-83 | a transport error is passed on with the carry-over kept; a working text without a blank line yields nothing and empties the carry-over; every item is a non-empty chunk or a transport error |
| AnthropicChat.EventScanner.constructor | crates/anyml_anthropic/src/chat.rs:50 | the scan starts with an empty carry-over |
| AnthropicChat.EventScanner.Feed | crates/anyml_anthropic/src/chat.rs:50-83 | the closure updates the buffer in place and yields exactly what ScanStep does |
| AnthropicChat.CarryOverLacksSeparator | crates/anyml_anthropic/src/chat.rs:68-76 | the last piece of a split never ends with the separator, so the `ends_with` branch is dead |
| AnthropicChat.ScanStepWithSeparator | crates/anyml_anthropic/src/chat.rs:56-83 | with a blank line, the step yields the joined content of all complete events and carries the last piece |
| AnthropicChat.FixedScanStep | crates/anyml_anthropic/src/chat.rs:61-76 | corrected step: a working text without a blank line is carried over whole instead of dropped |
| AnthropicChat.FixedAgreesWithSeparator | crates/anyml_anthropic/src/chat.rs:61-76 | where the working text holds a blank line, the as-written and corrected steps agree |
| AnthropicChat.FixedStepsCompose | crates/anyml_anthropic/src/chat.rs:56-83 | with the corrected step, two deliveries yield together what their concatenation yields, and leave the same carry-over |
| AnthropicChat.WholeEventInOneDelivery | crates/anyml_anthropic/src/chat.rs:56-83 | an event and its blank line in one delivery yield that event's content and an empty carry-over |
| AnthropicChat.AsWrittenDropsSplitEvent | crates/anyml_anthropic/src/chat.rs:61-76 | an event cut before its blank line yields nothing from either delivery |
| AnthropicChat.FixedKeepsSplitEvent | crates/anyml_anthropic/src/chat.rs:61-76 | the corrected step carries the first part and yields the event's content on the blank line |
| AnthropicChat.DeltaEventFacts | crates/anyml_anthropic/src/chat.rs:101-147 | a `content_block_delta` event with one data line holds no blank line and contributes the decoded delta text |
| AnthropicChat.HelloEventExample | crates/anyml_anthropic/src/chat.rs:178-193 | the test event in one delivery yields one chunk `Hello!` |
| AnthropicChat.HelloEventCutBeforeSeparator | crates/anyml_anthropic/src/chat.rs:61-76 | the same event cut before its blank line yields nothing as written, and `Hello!` with the corrected step |
| AnthropicChat.ScanAll | crates/anyml_anthropic/src/chat.rs:50-84 | `scan` then `filter_map`: at most one item per delivery, with the carry-over threaded |
| AnthropicChat.DecodeStream | crates/anyml_anthropic/src/chat.rs:48-85 | one scanner fed every delivery in turn yields exactly ScanAll's items |
| AnthropicChat.ScanAllItems | crates/anyml_anthropic/src/chat.rs:78-84 | every item of the stream is a non-empty content chunk or a transport error, never a parse error |
| OpenAiChat.FirstChoiceContent | crates/anyml_openai/src/chat.rs:78-85 | the first choice's delta content; a chunk without choices adds nothing |
| OpenAiChat.EventText | crates/anyml_openai/src/chat.rs:66-86 | fails exactly for a `data:` event that does not decode; a decoded data event adds its first choice's delta content (nothing when there are no choices); a non-data event adds the empty text |
| OpenAiChat.EventsTextFails | crates/anyml_openai/src/chat.rs:66-76 | a delivery's events fail exactly when one of them fails |
| OpenAiChat.EventsTextJoins | crates/anyml_openai/src/chat.rs:66-87 | when no event fails, the result is the events' texts joined in order |
| OpenAiChat.EventsText | crates/anyml_openai/src/chat.rs:66-87 | reference definition of the event loop: None as soon as one event fails, otherwise the events' texts joined in order |
| OpenAiChat.EventsTextAppend | crates/anyml_openai/src/chat.rs:66-87 | reading two runs of events joins their texts, and fails if either fails |
| OpenAiChat.NonDataEventIsIgnored | crates/anyml_openai/src/chat.rs:67 | an event without the `data:` prefix changes nothing |
| OpenAiChat.DecodeDelivery | crates/anyml_openai/src/chat.rs:55-90 | a transport error is passed on; any other result is a content chunk |
| OpenAiChat.DecodeDeliveryFails | crates/anyml_openai/src/chat.rs:68-76 | a delivery is an invalid-JSON error exactly when one of its data events does not decode |
| OpenAiChat.DecodeDeliveryContent | crates/anyml_openai/src/chat.rs:62-89 | a delivery that does not fail is one chunk of its events' texts joined |
| OpenAiChat.ParseDelivery | crates/anyml_openai/src/chat.rs:55-90 | the loop with early return computes exactly DecodeDelivery |
| OpenAiChat.DecodeStream | crates/anyml_openai/src/chat.rs:55 | `filter_map` that always returns `Some`: exactly one item per delivery |
| OpenAiChat.DecodeStreamAppend | crates/anyml_openai/src/chat.rs:55-90 | no state is kept: decoding two runs of deliveries concatenates their items |
| OpenAiChat.EmptyDeliveryYieldsEmptyChunk | crates/anyml_openai/src/chat.rs:62-64 | an empty delivery still yields a chunk with empty content |
| OpenAiChat.SingleEventDelivery | crates/anyml_openai/src/chat.rs:115-130 | one data event and its blank line yield the first choice's content |
| OpenAiChat.DoneMarkerFails | crates/anyml_openai/src/chat.rs:67-76 | an event `data: [DONE]` fails the whole delivery, whatever content came before it |
| OpenAiLib.New | crates/anyml_openai/src/lib.rs:25-31 | `new` uses the public OpenAI address and the given key |
| OpenAiLib.OpenRouter | crates/anyml_openai/src/lib.rs:33-39 | `open_router` uses the OpenRouter address and the given key |
| OpenAiLib.SetUrl | crates/anyml_openai/src/lib.rs:41-44 | replaces the address and keeps the key |
| OpenAiLib.SetApiKey | crates/anyml_openai/src/lib.rs:46-49 | replaces the key and keeps the address |
| OpenAiLib.ChatUrl | crates/anyml_openai/src/lib.rs:65 | the request goes to the provider's address followed by `/v1/chat/completions` |
| OpenAiLib.DefaultTarget | crates/anyml_openai/src/chat.rs:160 | a provider built with `new` posts to `https://api.openai.com/v1/chat/completions`, as the test expects |
| OpenAiLib.OpenRouterTarget | crates/anyml_openai/src/chat.rs:181-184 | a provider built with `open_router` posts to `https://openrouter.ai/api/v1/chat/completions`, as the test expects |
| OpenAiLib.SetUrlTwice | crates/anyml_openai/src/lib.rs:41-44 | a second `url` call overrides the first |
| OpenAiLib.SettersCommute | crates/anyml_openai/src/lib.rs:41-49 | the two setters commute |
| OpenAiLib.DecodeDelivery | crates/anyml_openai/src/lib.rs:92-127 | a transport error is passed on; otherwise the result is a `ChunkResponse` exactly when no data event fails |
| OpenAiLib.ParseDelivery | crates/anyml_openai/src/lib.rs:92-127 | the loop with its early return on the first event that does not parse yields exactly the decoded delivery |
| OpenAiLib.DecodeStream | crates/anyml_openai/src/lib.rs:92 | one item per delivery, each decoded on its own |
| OpenAiLib.AgreesWithChatDecoder | crates/anyml_openai/src/lib.rs:92-127 | this snapshot decodes every delivery as the provider-interface decoder does, up to the chunk type |
| AnthropicLib.New | crates/anyml_anthropic/src/lib.rs:24-30 | `new` uses the public Anthropic address and the given key |
| AnthropicLib.SetUrl | crates/anyml_anthropic/src/lib.rs:32-35 | replaces the address and keeps the key |
| AnthropicLib.SetApiKey | crates/anyml_anthropic/src/lib.rs:37-40 | replaces the key and keeps the address |
| AnthropicLib.MessagesUrl | crates/anyml_anthropic/src/lib.rs:50 | the request goes to the provider's address followed by `/v1/messages` |
| AnthropicLib.DefaultTarget | crates/anyml_anthropic/src/chat.rs:223 | a default provider posts to the address the test expects |
| AnthropicLib.SettersCommute | crates/anyml_anthropic/src/lib.rs:32-40 | the setters commute, and a later call of either wins |
| AnthropicLib.AsCoreItem | crates/anyml_anthropic/src/lib.rs:105-109 | a content chunk becomes a `ChunkResponse` with the same non-empty text; errors are unchanged |
| AnthropicLib.ScanStep | crates/anyml_anthropic/src/lib.rs:77-110 | as for the provider-interface step: transport errors pass, a text without a blank line is dropped, and otherwise the content of all complete events is yielded and the last piece carried |
| AnthropicLib.ScanAll | crates/anyml_anthropic/src/lib.rs:77-111 | the same closure as the provider interface's scan, so its fold with each item given this snapshot's chunk type; at most one item per delivery |
| AnthropicLib.ScanAllSnoc | crates/anyml_anthropic/src/lib.rs:77-111 | one more delivery appends this snapshot's step item, if any, and hands on the step's carry-over |
| AnthropicLib.DecodeStream | crates/anyml_anthropic/src/lib.rs:75-112 | the scanner loop yields exactly ScanAll's items |
| AnthropicLib.AgreesWithChatScan | crates/anyml_anthropic/src/lib.rs:77-111 | both snapshots yield the same stream item for item, and the same final carry-over |
| ProvidersChat.New | crates/anyml_core/src/providers/chat.rs:27-35 | defaults: no messages, streaming on, 4096 max tokens, no thinking |
| ProvidersChat.SetModel | crates/anyml_core/src/providers/chat.rs:38-41 | sets the model and keeps every other field |
| ProvidersChat.SetMessages | crates/anyml_core/src/providers/chat.rs:44-47 | sets typed messages and keeps every other field |
| ProvidersChat.SetMessagesSerialized | crates/anyml_core/src/providers/chat.rs:51-54 | sets pre-serialised messages and keeps every other field |
| ProvidersChat.SetStream | crates/anyml_core/src/providers/chat.rs:58-61 | sets the stream flag and keeps every other field |
| ProvidersChat.SetMaxTokens | crates/anyml_core/src/providers/chat.rs:63-66 | a zero limit becomes 1, as `max(1)` makes it, any other is kept, and other fields are unchanged |
| ProvidersChat.SetThinking | crates/anyml_core/src/providers/chat.rs:69-72 | sets thinking and keeps every other field |
| ProvidersChat.Pushed | crates/anyml_core/src/providers/chat.rs:201-208 | content appends to the content; thinking appends to the thinking, which starts empty when absent |
| ProvidersChat.Fold | crates/anyml_core/src/providers/chat.rs:195-208 | reference definition of aggregation: `push` applied to each chunk in order, from the empty aggregate |
| ProvidersChat.FoldSnoc | crates/anyml_core/src/providers/chat.rs:201-208 | folding one more chunk is pushing it onto the fold |
| ProvidersChat.FoldMeaning | crates/anyml_core/src/providers/chat.rs:195-208 | the aggregate's content is all content chunks joined; the thinking is absent exactly when there was no thinking chunk, and otherwise is all thinking joined |
| ProvidersChat.EmptyThinkingWithoutThinking | crates/anyml_core/src/providers/chat.rs:195-198 | no thinking chunk means no thinking text |
| ProvidersChat.OksOfErrorFree | crates/anyml_core/src/providers/chat.rs:147-157 | without errors, the kept chunks are exactly the items' values |
| ProvidersChat.FirstError | crates/anyml_core/src/providers/chat.rs:135-143 | the index of the first error, absent exactly when every item is `Ok` |
| ProvidersChat.StrictIsLossyWithoutErrors | crates/anyml_core/src/providers/chat.rs:135-157 | without errors, `aggregate` succeeds with the lossy aggregate and reads the whole stream |
| ProvidersChat.StrictReportsFirstError | crates/anyml_core/src/providers/chat.rs:135-143 | `aggregate` returns the first error and stops just after it |
| ProvidersChat.LossyMeaning | crates/anyml_core/src/providers/chat.rs:147-157 | `aggregate_lossy` skips errors and aggregates the remaining chunks |
| ProvidersChat.OksAppend | crates/anyml_core/src/providers/chat.rs:147-157 | the chunks kept from two runs are the two runs' kept chunks joined |
| ProvidersChat.Oks | crates/anyml_core/src/providers/chat.rs:147-157 | reference definition of the chunks `aggregate_lossy` keeps: the `Ok` items' chunks, in order |
| ProvidersChat.Lossy | crates/anyml_core/src/providers/chat.rs:147-157 | reference definition of `aggregate_lossy`'s result: the fold of the kept chunks |
| ProvidersChat.Strict | crates/anyml_core/src/providers/chat.rs:135-143 | reference definition of `aggregate`'s result: the first error if there is one, otherwise the fold of all chunks |
| ProvidersChat.Consumed | crates/anyml_core/src/providers/chat.rs:135-143 | reference definition of how many items `aggregate` reads: up to and including the first error, or all |
| ProvidersChat.OksExtend | crates/anyml_core/src/providers/chat.rs:147-157 | extending a window by one item keeps that item's chunk, if it is `Ok` |
| ProvidersChat.AggregatedChat.constructor | crates/anyml_core/src/providers/chat.rs:195-198 | starts with empty content and no thinking |
| ProvidersChat.AggregatedChat.Push | crates/anyml_core/src/providers/chat.rs:201-208 | updates the fields in place exactly as Pushed |
| ProvidersChat.ChatResponse.constructor | crates/anyml_core/src/providers/chat.rs:125-127 | a new response is unread |
| ProvidersChat.ChatResponse.Next | crates/anyml_core/src/providers/chat.rs:129-131 | yields the next item and advances, or `None` at the end |
| ProvidersChat.ChatResponse.Aggregate | crates/anyml_core/src/providers/chat.rs:135-143 | the strict aggregate of the unread items, consuming up to and including the first error |
| ProvidersChat.ChatResponse.AggregateLossy | crates/anyml_core/src/providers/chat.rs:147-157 | the lossy aggregate of the unread items, consuming all of them |
| Engine.OllamaItemBound | crates/anyml_ollama/src/chat.rs:54-61 | an Ollama stream has at most two items per delivery |
| Engine.Items | crates/anyml_core/src/providers/chat.rs:125-127 | per backend: at most 2n items for Ollama, at most n for Anthropic, exactly n for OpenAI |
| Engine.Respond | crates/anyml_core/src/providers/chat.rs:125-127 | a fresh, unread response over the chosen backend's decoded items |
| Engine.TransportErrorPassesThrough | crates/anyml_ollama/src/chat.rs:69-72 | on every backend a transport error becomes exactly one parse error carrying its message: the early return here, in the Anthropic scan closure (crates/anyml_anthropic/src/chat.rs, lines 51-54) and in the OpenAI stream map (crates/anyml_openai/src/chat.rs, lines 56-59) |
| Engine.OpenAiAggregate | crates/anyml_core/src/providers/chat.rs:135-143 | an OpenAI stream with no failed delivery aggregates to its texts joined, with no thinking |
| Engine.OpenAiLossy | crates/anyml_core/src/providers/chat.rs:147-157 | the lossy aggregate of such a stream is the same |
| CoreChat.New | crates/anyml_core/src/chat.rs:28-36 | defaults: no messages, streaming on, 4096 max tokens, no extras |
| CoreChat.SetModel | crates/anyml_core/src/chat.rs:39-42 | sets the model and keeps every other field |
| CoreChat.SetMessages | crates/anyml_core/src/chat.rs:45-48 | sets typed messages and keeps every other field |
| CoreChat.SetMessagesSerialized | crates/anyml_core/src/chat.rs:52-55 | sets pre-serialised messages and keeps every other field |
| CoreChat.SetStream | crates/anyml_core/src/chat.rs:59-62 | sets the stream flag and keeps every other field |
| CoreChat.SetMaxTokens | crates/anyml_core/src/chat.rs:64-67 | zero becomes 1 and any other limit is kept |
| CoreChat.Extra | crates/anyml_core/src/chat.rs:70-73 | inserts or overwrites one extra key and leaves the others and every field unchanged |
| CoreChat.ExtraOverwrites | crates/anyml_core/src/chat.rs:70-73 | a later value for the same key wins |
| CoreChat.ExtrasCommute | crates/anyml_core/src/chat.rs:70-73 | extras with different keys commute |
| CoreChat.SetMaxTokensTwice | crates/anyml_core/src/chat.rs:64-67 | a later limit wins |
| JsonWrite.Hex4 | crates/anyml_core/src/json.rs:91-93 | the four-digit hex code of a control character |
| JsonWrite.EscapeChar | crates/anyml_core/src/json.rs:83-97 | reference definition of one character's escape: `\"`, `\\`, `\n`, `\r`, `\t`, `\u` with four hex digits for other control characters, the character itself otherwise |
| JsonWrite.Escape | crates/anyml_core/src/json.rs:83-97 | reference definition of `json_escape_into`: each character's escape, in order |
| JsonWrite.EscapeAppend | crates/anyml_core/src/json.rs:83-97 | escaping is per character, so it distributes over concatenation |
| JsonWrite.EscapePrefixStep | crates/anyml_core/src/json.rs:86-95 | escaping one more character appends its escape |
| JsonWrite.EscapeHasNoControl | crates/anyml_core/src/json.rs:83-97 | escaped output holds no raw control character, as section 7 of RFC 8259 requires |
| JsonWrite.Hex4Value | crates/anyml_core/src/json.rs:91-93 | reading four hex digits gives a 16-bit value |
| JsonWrite.Hex4RoundTrip | crates/anyml_core/src/json.rs:91-93 | reading back a written `\u` code gives the original value |
| JsonWrite.UnescapeChar | crates/anyml_core/src/json.rs:86-95 | a JSON reader recovers each escaped character and then continues |
| JsonWrite.EscapeRoundTrip | crates/anyml_core/src/json.rs:83-97 | unescaping the escaped text gives back the original text |
| JsonWrite.Unescape | crates/anyml_core/src/json.rs:83-97 | an independent specification, not code of the source: the JSON string grammar's decoder, which the escape is proved to invert |
| JsonWrite.DigitChar | crates/anyml_core/src/json.rs:41-69 | a decimal digit is a character from `0` to `9` |
| JsonWrite.Digits | crates/anyml_core/src/json.rs:41-69 | a natural number is written as one or more decimal digits |
| JsonWrite.Decimal | crates/anyml_core/src/json.rs:41-69 | reference definition of `to_string` on an integer: a minus sign for negatives, then the digits of the magnitude |
| JsonWrite.DigitsRoundTrip | crates/anyml_core/src/json.rs:41-69 | reading the written digits gives back the number |
| JsonWrite.DecimalRoundTrip | crates/anyml_core/src/json.rs:41-69 | reading a written integer, sign included, gives back the integer |
| JsonWrite.JsonBuffer.constructor | crates/anyml_core/src/json.rs:19-25 | a writer starts from a given output string |
| JsonWrite.JsonBuffer.EscapeInto | crates/anyml_core/src/json.rs:83-97 | the loop appends exactly the escape of its input |
| JsonWrite.JsonBuffer.WriteStr | crates/anyml_core/src/json.rs:19-33 | a string is written quoted and escaped |
| JsonWrite.JsonBuffer.WriteBool | crates/anyml_core/src/json.rs:35-39 | writes `true` or `false` |
| JsonWrite.JsonBuffer.WriteInt | crates/anyml_core/src/json.rs:41-69 | writes the integer in decimal |
| JsonWrite.WrittenStringDecodes | crates/anyml_core/src/json.rs:19-33 | a written string token decodes to the original string |
| JsonMacro.JsonEscape | crates/anyml_macros/src/lib.rs:200-216 | the macro's compile-time escape agrees with the runtime writer's escape |
| JsonMacro.StaticIffNoDynamicNodes | crates/anyml_macros/src/lib.rs:157-162 | a field list is static exactly when it holds no variable or conditional |
| JsonMacro.ValueStaticIffNoDynamicNodes | crates/anyml_macros/src/lib.rs:164-170 | a value is static exactly when it holds no variable or conditional |
| JsonMacro.StaticParts | crates/anyml_macros/src/lib.rs:173-187 | a static list has one `"key":value` part per field |
| JsonMacro.StaticObjectStr | crates/anyml_macros/src/lib.rs:173-187 | the static fast path produces a brace-delimited object |
| JsonMacro.GenFields | crates/anyml_macros/src/lib.rs:219-283 | the first-field flag stays set only for an empty list that started first |
| JsonMacro.GenField | crates/anyml_macros/src/lib.rs:224-282 | after any field, the first-field flag is clear, even for a conditional whose condition is false |
| JsonMacro.GenValue | crates/anyml_macros/src/lib.rs:293-333 | reference definition of `gen_value_write`: escaped quoted literals, literal tokens as written, `write_json` for variables, nested objects by the static or dynamic path |
| JsonMacro.WriteJson | crates/anyml_core/src/json.rs:3-69 | reference definition of `write_json` for strings, booleans and integers: quoted escaped text, `true`/`false`, the decimal form |
| JsonMacro.KeyText | crates/anyml_macros/src/lib.rs:224-235 | reference definition of a pair's opening: the escaped key in quotes and a colon |
| JsonMacro.Expand | crates/anyml_macros/src/lib.rs:336-360 | the expansion always writes a brace-delimited text |
| JsonMacro.GenFieldsOfStatic | crates/anyml_macros/src/lib.rs:219-283 | on static fields the dynamic writer produces the static parts joined by commas |
| JsonMacro.GenValueOfStatic | crates/anyml_macros/src/lib.rs:293-333 | on a static value the dynamic writer produces the static text |
| JsonMacro.ExpandAgreesWithDynamic | crates/anyml_macros/src/lib.rs:336-360 | the static fast path and the dynamic path give the same text |
| JsonMacro.FalseLeadingConditionalLeavesStrayComma | crates/anyml_macros/src/lib.rs:260-278 | as written, in every environment where `c` is false, `{ if c { "a": true }, "b": 1 }` expands to `{,"b":1}` |
| JsonMacro.EmptyTrueConditionalLeavesTrailingComma | crates/anyml_macros/src/lib.rs:260-268 | as written, in every environment where `c` is true and `d` false, `{"a":1, if c { if d {"b":2} } }` expands to `{"a":1,}` |
| JsonMacro.StrayCommaFields | crates/anyml_macros/src/lib.rs:260-278 | with `c` false, the dynamic fields of that object write `,"b":1` |
| JsonMacro.PairAfterFirst | crates/anyml_macros/src/lib.rs:224-237 | a pair that is not first writes a comma, its escaped key and its value |
| JsonMacro.TrailingCommaFields | crates/anyml_macros/src/lib.rs:260-278 | with `c` true and `d` false, the dynamic fields write `"a":1,` |
| JsonMacro.FirstPairA | crates/anyml_macros/src/lib.rs:224-237 | the first pair writes no comma and clears the first-field flag |
| JsonMacro.EmptyConditionalAfterFirst | crates/anyml_macros/src/lib.rs:260-268 | a true conditional after a pair writes its comma even when its inner fields write nothing |
| JsonMacro.CommasAppend | crates/anyml_macros/src/lib.rs:226-231 | comma-led parts concatenate |
| JsonMacro.JoinIsCommas | crates/anyml_macros/src/lib.rs:226-231 | a comma-joined list is its first part followed by comma-led parts |
| JsonMacro.ListedAppend | crates/anyml_macros/src/lib.rs:226-231 | with the written-yet flag, the listing of two runs concatenates |
| JsonMacro.FixedGenFieldsListsPresentPairs | crates/anyml_macros/src/lib.rs:219-283 | the corrected writer lists exactly the present pairs, with commas only between them |
| JsonMacro.FixedGenFields | crates/anyml_macros/src/lib.rs:219-283 | an independent specification, not code of the source: the corrected writer, which decides the comma at run time from whether a pair was written |
| JsonMacro.FixedExpand | crates/anyml_macros/src/lib.rs:336-360 | an independent specification, not code of the source: the corrected expansion, the static text or braces around the corrected writer's fields |
| JsonMacro.PresentPairs | crates/anyml_macros/src/lib.rs:219-283 | an independent specification, not code of the source: the pairs present at run time, those outside conditionals and inside the ones that hold |
| JsonMacro.FixedGenFieldListsPairs | crates/anyml_macros/src/lib.rs:224-282 | the corrected writer on one field lists that field's present pairs |
| JsonMacro.StaticPartsArePresent | crates/anyml_macros/src/lib.rs:173-187 | in a static list every field is present |
| JsonMacro.StaticValueIsFixed | crates/anyml_macros/src/lib.rs:189-198 | the corrected value writer agrees with the static text |
| JsonMacro.FixedExpandIsObjectOfPresentPairs | crates/anyml_macros/src/lib.rs:336-360 | corrected: the expansion is an object of exactly the present pairs, comma-separated |
| JsonMacro.AsWrittenAgreesWithoutConditionals | crates/anyml_macros/src/lib.rs:219-283 | without conditionals, the as-written and corrected writers agree |
| JsonMacro.ValueAgreesWithoutConditionals | crates/anyml_macros/src/lib.rs:293-333 | the same for values |
| ModelName.WithoutTag | crates/anyml_core/src/models/model.rs:46 | the text before the FIRST `:`: a prefix without `:` that is followed by `:` in the identifier, or the whole identifier when it holds none |
| ModelName.LastPathSeparator | crates/anyml_core/src/models/model.rs:47-49 | the last `/` or `\` position, or none |
| ModelName.BaseName | crates/anyml_core/src/models/model.rs:47-49 | the longest suffix without `/` or `\`: it holds no separator, and the character before it, if any, is one |
| ModelName.Spaced | crates/anyml_core/src/models/model.rs:50-66 | a same-length text with each character mapped by the spacing rule |
| ModelName.SpacedHasNoSeparators | crates/anyml_core/src/models/model.rs:50-66 | no `_` or `-` remains, and other characters are kept |
| ModelName.PrettyWords | crates/anyml_core/src/models/model.rs:67-81 | each word is replaced or capitalised, one for one |
| ModelName.PrettyWord | crates/anyml_core/src/models/model.rs:67-81 | reference definition of one word's display form: its fixed spelling from the replacement table, or its first letter upper-cased |
| ModelName.PrettyName | crates/anyml_core/src/models/model.rs:45-83 | reference definition of `name()`: the base name without its tag, separators spaced, each word prettified, joined by single spaces |
| ModelName.Name | crates/anyml_core/src/models/model.rs:45-83 | the loops compute PrettyName |
| ModelName.SpaceSeparators | crates/anyml_core/src/models/model.rs:50-66 | the first loop spaces the base name exactly as Spaced does |
| ModelName.CapitalizeWords | crates/anyml_core/src/models/model.rs:67-81 | the second loop yields the prettified words joined by single spaces |
| ModelName.ReplacementsAreWords | crates/anyml_core/src/models/model.rs:3-16 | every replacement word is non-empty and without whitespace |
| ModelName.PrettyWordIsWord | crates/anyml_core/src/models/model.rs:67-81 | a pretty word is still one word |
| ModelName.NameIsSpaceSeparatedWords | crates/anyml_core/src/models/model.rs:45-83 | the name's words are exactly the prettified words of the base name |
| ModelName.JoinedWordsSpacing | crates/anyml_core/src/models/model.rs:81 | words joined with single spaces are single-spaced |
| ModelName.NameSpacing | crates/anyml_core/src/models/model.rs:45-83 | a name has no leading, trailing or doubled spaces |
| ModelName.ReplacementsKeepLetters | crates/anyml_core/src/models/model.rs:3-16 | every replacement only changes the case of its key |
| ModelName.PrettyWordOnlyChangesCase | crates/anyml_core/src/models/model.rs:67-81 | prettifying a word only changes letter case |
| ModelName.NewParams | crates/anyml_core/src/models/model.rs:90-92 | the parameter count is upper-cased character by character |
| ModelName.NewParamsIdempotent | crates/anyml_core/src/models/model.rs:90-92 | upper-casing twice is upper-casing once |
| ModelName.FirstSeparator | crates/anyml_core/src/models/model.rs:103-118 | the position of the first `_` or `-`, with no separator before it, or none when the label has no separator |
| ModelName.NormalizedSnocAfterSeparator | crates/anyml_core/src/models/model.rs:103-118 | after the first separator, later separators are dropped |
| ModelName.NormalizedSnocBeforeSeparator | crates/anyml_core/src/models/model.rs:103-118 | while no separator has been seen, a separator appends `:` and any other character appends itself |
| ModelName.NewQuant | crates/anyml_core/src/models/model.rs:103-118 | the loop computes the normalised upper-case label |
| ModelName.NormalizedHasNoSeparators | crates/anyml_core/src/models/model.rs:103-118 | a normalised label holds no `_` or `-` |
| ModelName.Normalized | crates/anyml_core/src/models/model.rs:103-118 | an independent specification of the `seen_sep` loop: the first `_` or `-` becomes `:`, the later ones are dropped, everything else is kept in order |
| ModelName.NormalizedIdempotent | crates/anyml_core/src/models/model.rs:103-118 | normalising a normalised label changes nothing |
| ModelName.NormalizedCharsFrom | crates/anyml_core/src/models/model.rs:103-118 | each label character is `:` or comes from the input |
| ModelName.LabelSuffix | crates/anyml_core/src/models/model.rs:128-138 | both labels give ` (P Q)` with the parameters first, one label gives ` (P)` or ` (Q)`, and no label gives nothing |
| ModelName.ToString | crates/anyml_core/src/models/model.rs:125-140 | the display is the pretty name followed by exactly the label text above, and equals the name alone only when there are no labels |
| ModelName.ToStringRecoversLabels | crates/anyml_core/src/models/model.rs:129-131 | with both labels shown and no space in the parameter label, the display determines both labels |
| MessageRoles.AsStr | crates/anyml_core/src/models/message.rs:50-59 | known roles give a known name; an unknown role gives its own text |
| MessageRoles.FromStr | crates/anyml_core/src/models/message.rs:61-70 | an unknown role exactly for an unknown name, keeping the text |
| MessageRoles.AsStrFromStr | crates/anyml_core/src/models/message.rs:50-70 | reading a name and writing it back gives the name |
| MessageRoles.FromStrAsStr | crates/anyml_core/src/models/message.rs:50-70 | writing and reading a role round-trips, except an unknown role holding a known name |
| MessageRoles.Serialize | crates/anyml_core/src/models/message.rs:73-80 | serialises to a name that reads back as the role, with the same exception |
| MessageRoles.Deserialize | crates/anyml_core/src/models/message.rs:82-96 | reads the lower-cased name |
| MessageRoles.DeserializeIgnoresCase | crates/anyml_core/src/models/message.rs:82-96 | names differing only in case read the same |
| MessageRoles.DeserializeUpperCaseUser | crates/anyml_core/src/models/message.rs:82-96 | `USER` reads as the user role |
| MessageRoles.DeserializeSerialize | crates/anyml_core/src/models/message.rs:73-96 | deserialising a serialised role gives it back, for lower-case unknown names |
| MessageRoles.NewMessage | crates/anyml_core/src/models/message.rs:10-15 | a message of the given content and role |
| MessageRoles.FromText | crates/anyml_core/src/models/message.rs:30-37 | a text becomes a user message |
| JsonTree.Get | src/message.rs:56-65 | a field is found exactly in an object that has the key, and it is the value stored under that key |
| JsonTree.AsStr | src/message.rs:56-65 | a text exactly for a string value, and it is that string |
| JsonTree.GetStr | src/message.rs:56-65 | a string field is found exactly when the key exists and holds a string, and the result is that string |
| JsonTree.GetStrReadsMember | src/message.rs:56-65 | reading a string member back gives the string stored under that key, and storing it leaves every other key's reading unchanged |
| AnyaiMessage.AsJson | src/message.rs:30-48 | an object of exactly `role` (the configured name) and `content` |
| AnyaiMessage.RoleName | src/message.rs:37-42 | reference definition of the role's provider name: the configured name for each of the four roles |
| AnyaiMessage.FromJson | src/message.rs:50-81 | a missing `role` or `content` is reported by name, role first; with both present the role name is matched against the user, assistant and system names in that order, the first match gives the message, and no match gives an invalid `role` value; a decoded message is never a tool message |
| AnyaiMessage.FromJsonAsJson | src/message.rs:30-81 | reading a written non-tool message gives it back when the three names are distinct |
| AnyaiMessage.ToolMessageIsRejected | src/message.rs:67-78 | a written tool message does not read back |
| AnyaiMessage.SharedNameReadsAsEarlierRole | src/message.rs:67-78 | when the names coincide, the match reads the earliest role |
| AnyaiMessage.NewMessage | src/message.rs:11-16 | a message of the given content and role |
| AnyaiMessage.FromText | src/message.rs:84-91 | a text becomes a user message |
| AnyaiChat.New | src/chat.rs:23-30 | defaults: no messages, streaming on, no extras |
| AnyaiChat.SetModel | src/chat.rs:33-36 | sets the model and keeps every other field |
| AnyaiChat.SetMessages | src/chat.rs:39-42 | sets the messages and keeps every other field |
| AnyaiChat.SetStream | src/chat.rs:46-49 | sets the stream flag and keeps every other field |
| AnyaiChat.Extra | src/chat.rs:52-55 | inserts or overwrites one extra and keeps the others |
| AnyaiChat.MessagesJson | src/chat.rs:58-85 | one JSON message per message, in order |
| AnyaiChat.ToJson | src/chat.rs:58-85 | the built object is OptionsJson |
| AnyaiChat.OptionsJson | src/chat.rs:58-85 | reference definition of the serialised document: the base fields `model`, `stream` and `messages`, overridden and extended by the extras |
| AnyaiChat.OptionsJsonKeys | src/chat.rs:58-85 | the keys are `model`, `stream`, `messages` and the extras' keys |
| AnyaiChat.ExtrasOverrideBase | src/chat.rs:58-85 | an extra with a base key overrides it |
| AnyaiChat.BaseKeysWithoutExtras | src/chat.rs:58-85 | each base key that no extra names keeps its base value: the model, the stream flag, and the messages in order |
| AnyaiOllama.FromJson | crates/anyai_ollama/src/lib.rs:58-67 | a missing `message` is reported; otherwise the message is read with the Ollama role names |
| AnyaiOllama.DecodeDelivery | crates/anyai_ollama/src/lib.rs:40-50 | transport and JSON errors are reported; otherwise the message content or its error |
| AnyaiOllama.DecodeStream | crates/anyai_ollama/src/lib.rs:40 | one item per delivery |
| AnyaiOllama.DecodeStreamAppend | crates/anyai_ollama/src/lib.rs:40-50 | no state: decoding two runs concatenates their items |
| AnyaiOllama.ToolRoleIsRejected | crates/anyai_ollama/src/lib.rs:64 | a `tool` role is an invalid value |
| AnyaiOllama.MissingMessageIsReported | crates/anyai_ollama/src/lib.rs:60-62 | a document without `message` is reported as missing that field |
| AnyaiOllama.AssistantContentIsDelivered | crates/anyai_ollama/src/lib.rs:40-50 | an assistant message yields its content |

## Left out

- HTTP: building the request, the headers (`Authorization`, `x-api-key`, `anthropic-version`) and the body serialisation are left out. So are the status check and the error body. A response is modelled from the point where its body is a sequence of deliveries.
- The `reasoning` extra that the OpenAI backends add before serialising is not modelled.
- `list_models` in every crate is not part of this model.
- Asynchronous streams are finite sequences. `ChatResponse` is a class with a cursor over them.
- serde decoding of the response documents is a parameter: `parse` returns the typed document or `None`. Which texts decode, and serde's tolerance of whitespace, are not modelled.
- serde serialisation of `ChatOptions` and `Messages` is not modelled. For the `anyai` crate, `to_json` is modelled over a JSON value datatype. `to_string` on that value is not modelled.
- UTF-8 lossy decoding of the delivery bytes is not modelled: each delivery is already a string.
- Floating-point `WriteJson` is not modelled.
- JsonMacro.StaticParts, JsonMacro.GenFields: the field loops of `static_object_str` and `gen_dynamic_fields` are recursive functions over the field list, not loops. They recurse into nested objects through the value writers, so the model does not capture the pushes onto the `parts` and `stmts` vectors one by one, only the finished list.
- The macro's token parsing with `syn` and `quote` is not modelled. The field list is a datatype, and run-time conditions and values come from an environment function.
- Case mapping is ASCII only. Rust's Unicode `to_lowercase` and `to_uppercase` are not modelled.
- The validity of `messages_serialized` text is not checked by the source either. It is kept as an opaque string.
- The Ollama provider's constructors and address setters are not modelled: they carry no logic beyond a stored string.
- The payloads of `anyhow` errors are not modelled. Each error is an abstract cause: a transport message, invalid JSON, or a message error.
- The Anthropic and OpenAI `chat.rs` decoders build `ChatChunk { content }`. Here they are modelled as the `Content` variant of the two-variant chunk used by the Ollama backend and the aggregate.
- Engine.Items: uses the Anthropic step as written, which drops a lone partial event. The corrected step is modelled and proved beside it (see Findings).

## Findings

| source | as written | input that shows it | evidently intended | confidence | as-written member | corrected member |
|---|---|---|---|---|---|---|
| crates/anyml_anthropic/src/chat.rs:61-76 | the last piece of the split is carried over only when the split has two or more pieces, and the `ends_with("\n\n")` branch can never be taken | an event `event: content_block_delta\ndata: {...}` in one delivery and `\n\n` in the next: neither delivery yields anything | every delivery's last piece is carried over, so an event cut by a delivery boundary is decoded once its blank line arrives | high (not executed) | AnthropicChat.HelloEventCutBeforeSeparator | AnthropicChat.FixedStepsCompose |
| crates/anyml_macros/src/lib.rs:239-278 | a conditional field clears the first-field flag at expansion time, so the pair after it writes a leading comma even when the condition is false at run time; by the same cause a true conditional writes its comma before its inner fields, so `{"a":1, if c { if d {"b":2} } }` with `c` true and `d` false writes `{"a":1,}` (JsonMacro.EmptyTrueConditionalLeavesTrailingComma) | `json_string!({ if c { "a": true }, "b": 1 })` with `c` false writes `{,"b":1}` | commas only between pairs actually written | high (not executed) | JsonMacro.FalseLeadingConditionalLeavesStrayComma | JsonMacro.FixedExpandIsObjectOfPresentPairs |
