/**
 * The provider-facing chat interface of the core crate: request options with
 * an optional thinking configuration, the chunks a response stream carries
 * (content or thinking text), and the consumer side that folds a stream into
 * one aggregated answer.
 *
 * The response stream is modelled as the finite sequence of items a backend
 * produces, read through a cursor.
 */
module ProvidersChat {
  import opened Wrappers
  import MessageRoles
  import CoreChat

  type Messages = CoreChat.Messages
  type ChatStreamError = CoreChat.ChatStreamError

  /** Configuration for a model's reasoning: what each provider needs to enable it. */
  datatype Thinking = BudgetTokens(budget: nat) | Effort(level: string) | Enabled

  datatype ChatOptions = ChatOptions(
    model: string,
    messages: Messages,
    stream: bool,
    maxTokens: nat,
    thinking: Option<Thinking>)

  /** `ChatOptions::new`. */
  function New(model: string): (o: ChatOptions)
    ensures o.model == model && o.messages == CoreChat.Raw([]) && o.stream
    ensures o.maxTokens == 4096 && o.thinking == None
  {
    ChatOptions(model, CoreChat.Raw([]), true, CoreChat.DefaultMaxTokens, None)
  }

  /** `ChatOptions::model`. */
  function SetModel(o: ChatOptions, model: string): (r: ChatOptions)
    ensures r.model == model
    ensures r.messages == o.messages && r.stream == o.stream
    ensures r.maxTokens == o.maxTokens && r.thinking == o.thinking
  {
    o.(model := model)
  }

  /** `ChatOptions::messages`. */
  function SetMessages(o: ChatOptions, messages: seq<MessageRoles.Message>): (r: ChatOptions)
    ensures r.messages == CoreChat.Raw(messages)
    ensures r.model == o.model && r.stream == o.stream
    ensures r.maxTokens == o.maxTokens && r.thinking == o.thinking
  {
    o.(messages := CoreChat.Raw(messages))
  }

  /** `ChatOptions::messages_serialized`: the text is stored as given, without validation. */
  function SetMessagesSerialized(o: ChatOptions, raw: string): (r: ChatOptions)
    ensures r.messages == CoreChat.Serialized(raw)
    ensures r.model == o.model && r.stream == o.stream
    ensures r.maxTokens == o.maxTokens && r.thinking == o.thinking
  {
    o.(messages := CoreChat.Serialized(raw))
  }

  /** `ChatOptions::stream`. */
  function SetStream(o: ChatOptions, stream: bool): (r: ChatOptions)
    ensures r.stream == stream
    ensures r.model == o.model && r.messages == o.messages
    ensures r.maxTokens == o.maxTokens && r.thinking == o.thinking
  {
    o.(stream := stream)
  }

  /** `ChatOptions::max_tokens`: a limit of zero is raised to one. */
  function SetMaxTokens(o: ChatOptions, maxTokens: nat): (r: ChatOptions)
    ensures r.maxTokens >= 1
    ensures maxTokens >= 1 ==> r.maxTokens == maxTokens
    ensures maxTokens == 0 ==> r.maxTokens == 1
    ensures r.model == o.model && r.messages == o.messages
    ensures r.stream == o.stream && r.thinking == o.thinking
  {
    o.(maxTokens := if maxTokens < 1 then 1 else maxTokens)
  }

  /** `ChatOptions::thinking`: reasoning is switched on with the given configuration. */
  function SetThinking(o: ChatOptions, thinking: Thinking): (r: ChatOptions)
    ensures r.thinking == Some(thinking)
    ensures r.model == o.model && r.messages == o.messages
    ensures r.stream == o.stream && r.maxTokens == o.maxTokens
  {
    o.(thinking := Some(thinking))
  }

  /** One item of a response: answer text or thinking text. */
  datatype ChatChunk = Content(text: string) | Thinking(text: string)

  /** The value an `AggregatedChat` holds. */
  datatype Aggregated = Aggregated(content: string, thinking: Option<string>)

  /** The thinking text so far, or the empty string when there is none. */
  function OrEmpty(t: Option<string>): string {
    if t.Some? then t.value else ""
  }

  /** What `AggregatedChat::push` makes of an aggregate and one chunk. */
  function Pushed(a: Aggregated, chunk: ChatChunk): (r: Aggregated)
    ensures chunk.Content? ==> r.content == a.content + chunk.text && r.thinking == a.thinking
    ensures chunk.Thinking? ==> r.content == a.content && r.thinking == Some(OrEmpty(a.thinking) + chunk.text)
  {
    match chunk
    case Content(text) => a.(content := a.content + text)
    case Thinking(text) => a.(thinking := Some(OrEmpty(a.thinking) + text))
  }

  /** The left fold of `push` over chunks, from the default (empty) aggregate. */
  function Fold(chunks: seq<ChatChunk>): Aggregated {
    if chunks == [] then Aggregated("", None)
    else Pushed(Fold(chunks[..|chunks| - 1]), chunks[|chunks| - 1])
  }

  lemma FoldSnoc(chunks: seq<ChatChunk>, c: ChatChunk)
    ensures Fold(chunks + [c]) == Pushed(Fold(chunks), c)
  {
    assert (chunks + [c])[..|chunks|] == chunks;
  }

  /** The text a chunk adds to the content. */
  function ContentPiece(c: ChatChunk): string {
    if c.Content? then c.text else ""
  }

  /** The text a chunk adds to the thinking. */
  function ThinkingPiece(c: ChatChunk): string {
    if c.Thinking? then c.text else ""
  }

  /** The content texts of the chunks, concatenated in order. */
  function ContentOf(chunks: seq<ChatChunk>): string {
    if chunks == [] then "" else ContentPiece(chunks[0]) + ContentOf(chunks[1..])
  }

  /** The thinking texts of the chunks, concatenated in order. */
  function ThinkingOf(chunks: seq<ChatChunk>): string {
    if chunks == [] then "" else ThinkingPiece(chunks[0]) + ThinkingOf(chunks[1..])
  }

  predicate HasThinking(chunks: seq<ChatChunk>) {
    exists i :: 0 <= i < |chunks| && chunks[i].Thinking?
  }

  lemma {:induction false} ContentOfSnoc(chunks: seq<ChatChunk>, c: ChatChunk)
    ensures ContentOf(chunks + [c]) == ContentOf(chunks) + ContentPiece(c)
  {
    if chunks == [] {
      assert chunks + [c] == [c];
      assert [c][1..] == [];
    } else {
      assert (chunks + [c])[0] == chunks[0];
      assert (chunks + [c])[1..] == chunks[1..] + [c];
      ContentOfSnoc(chunks[1..], c);
      var h := ContentPiece(chunks[0]);
      assert ContentOf(chunks + [c]) == h + (ContentOf(chunks[1..]) + ContentPiece(c));
      assert h + (ContentOf(chunks[1..]) + ContentPiece(c)) == (h + ContentOf(chunks[1..])) + ContentPiece(c);
    }
  }

  lemma {:induction false} ThinkingOfSnoc(chunks: seq<ChatChunk>, c: ChatChunk)
    ensures ThinkingOf(chunks + [c]) == ThinkingOf(chunks) + ThinkingPiece(c)
  {
    if chunks == [] {
      assert chunks + [c] == [c];
      assert [c][1..] == [];
    } else {
      assert (chunks + [c])[0] == chunks[0];
      assert (chunks + [c])[1..] == chunks[1..] + [c];
      ThinkingOfSnoc(chunks[1..], c);
      var h := ThinkingPiece(chunks[0]);
      assert ThinkingOf(chunks + [c]) == h + (ThinkingOf(chunks[1..]) + ThinkingPiece(c));
      assert h + (ThinkingOf(chunks[1..]) + ThinkingPiece(c)) == (h + ThinkingOf(chunks[1..])) + ThinkingPiece(c);
    }
  }

  /**
   * Folding `push` over chunks concatenates the content texts in order and the
   * thinking texts in order; thinking stays absent exactly when no thinking
   * chunk appears.
   */
  lemma {:induction false} FoldMeaning(chunks: seq<ChatChunk>)
    ensures Fold(chunks).content == ContentOf(chunks)
    ensures Fold(chunks).thinking.None? <==> !HasThinking(chunks)
    ensures Fold(chunks).thinking.Some? ==> Fold(chunks).thinking.value == ThinkingOf(chunks)
  {
    if chunks != [] {
      var init, c := chunks[..|chunks| - 1], chunks[|chunks| - 1];
      assert chunks == init + [c];
      FoldMeaning(init);
      ContentOfSnoc(init, c);
      ThinkingOfSnoc(init, c);
      assert Fold(chunks) == Pushed(Fold(init), c);
      HasThinkingSnoc(init, c);
      if Fold(init).thinking.None? {
        assert ThinkingOf(init) == "" by { EmptyThinkingWithoutThinking(init); }
      }
    }
  }

  lemma HasThinkingSnoc(chunks: seq<ChatChunk>, c: ChatChunk)
    ensures HasThinking(chunks + [c]) <==> HasThinking(chunks) || c.Thinking?
  {
    var all := chunks + [c];
    if HasThinking(chunks) {
      var i :| 0 <= i < |chunks| && chunks[i].Thinking?;
      assert all[i] == chunks[i];
    }
    if c.Thinking? {
      assert all[|chunks|] == c;
    }
    if HasThinking(all) && !c.Thinking? {
      var i :| 0 <= i < |all| && all[i].Thinking?;
      assert i < |chunks|;
      assert chunks[i] == all[i];
    }
  }

  lemma {:induction false} EmptyThinkingWithoutThinking(chunks: seq<ChatChunk>)
    requires !HasThinking(chunks)
    ensures ThinkingOf(chunks) == ""
  {
    if chunks != [] {
      assert !chunks[0].Thinking?;
      EmptyThinkingWithoutThinking(chunks[1..]);
    }
  }

  /** The chunks of the `Ok` items, in order. */
  function Oks(items: seq<Result<ChatChunk, ChatStreamError>>): seq<ChatChunk> {
    if items == [] then []
    else Oks(items[..|items| - 1]) + (if items[|items| - 1].Ok? then [items[|items| - 1].value] else [])
  }

  /** A sequence of items with no error passes all its chunks, in order. */
  lemma {:induction false} OksOfErrorFree(items: seq<Result<ChatChunk, ChatStreamError>>)
    requires forall i :: 0 <= i < |items| ==> items[i].Ok?
    ensures |Oks(items)| == |items|
    ensures forall i :: 0 <= i < |items| ==> Oks(items)[i] == items[i].value
  {
    if items != [] {
      OksOfErrorFree(items[..|items| - 1]);
    }
  }

  /** The position of the first error, if any. */
  function FirstError(items: seq<Result<ChatChunk, ChatStreamError>>): (r: Option<nat>)
    ensures r.None? <==> forall i :: 0 <= i < |items| ==> items[i].Ok?
    ensures r.Some? ==> r.value < |items| && items[r.value].Err?
    ensures r.Some? ==> forall i :: 0 <= i < r.value ==> items[i].Ok?
  {
    if items == [] then None
    else if items[0].Err? then Some(0)
    else match FirstError(items[1..])
      case None => None
      case Some(j) => Some(j + 1)
  }

  /** What `aggregate` returns for the remaining items: the first error, or the fold of them all. */
  function Strict(items: seq<Result<ChatChunk, ChatStreamError>>): Result<Aggregated, ChatStreamError> {
    match FirstError(items)
    case Some(j) => Err(items[j].error)
    case None => Ok(Fold(Oks(items)))
  }

  /** How many items `aggregate` reads: up to and including the first error, or all of them. */
  function Consumed(items: seq<Result<ChatChunk, ChatStreamError>>): nat {
    match FirstError(items)
    case Some(j) => j + 1
    case None => |items|
  }

  /** What `aggregate_lossy` returns: the fold of the `Ok` items. */
  function Lossy(items: seq<Result<ChatChunk, ChatStreamError>>): Aggregated {
    Fold(Oks(items))
  }

  /** On an error-free stream the strict and the lossy aggregate agree. */
  lemma StrictIsLossyWithoutErrors(items: seq<Result<ChatChunk, ChatStreamError>>)
    requires forall i :: 0 <= i < |items| ==> items[i].Ok?
    ensures Strict(items) == Ok(Lossy(items))
    ensures Consumed(items) == |items|
  {
  }

  /** With an error, the strict aggregate is that error and reading stops right after it. */
  lemma StrictReportsFirstError(items: seq<Result<ChatChunk, ChatStreamError>>, j: nat)
    requires j < |items| && items[j].Err?
    requires forall i :: 0 <= i < j ==> items[i].Ok?
    ensures Strict(items) == Err(items[j].error)
    ensures Consumed(items) == j + 1
  {
  }

  /** The lossy aggregate drops the errors: it is the fold of the chunks that arrived. */
  lemma LossyMeaning(items: seq<Result<ChatChunk, ChatStreamError>>)
    ensures Lossy(items).content == ContentOf(Oks(items))
    ensures Lossy(items).thinking.None? <==> !HasThinking(Oks(items))
  {
    FoldMeaning(Oks(items));
  }

  /** Extending a slice by one item extends its `Ok` chunks by that item's chunk, if any. */
  lemma OksExtend(items: seq<Result<ChatChunk, ChatStreamError>>, lo: nat, hi: nat)
    requires lo <= hi < |items|
    ensures Oks(items[lo..hi + 1]) == Oks(items[lo..hi]) + (if items[hi].Ok? then [items[hi].value] else [])
  {
    assert items[lo..hi + 1][..hi - lo] == items[lo..hi];
  }

  /** Extending a slice by one `Ok` item pushes that item's chunk onto its fold. */
  lemma FoldExtend(items: seq<Result<ChatChunk, ChatStreamError>>, lo: nat, hi: nat)
    requires lo <= hi < |items| && items[hi].Ok?
    ensures Fold(Oks(items[lo..hi + 1])) == Pushed(Fold(Oks(items[lo..hi])), items[hi].value)
  {
    OksExtend(items, lo, hi);
    FoldSnoc(Oks(items[lo..hi]), items[hi].value);
  }

  /** No item in `items[lo..hi]` is an error. */
  predicate AllOk(items: seq<Result<ChatChunk, ChatStreamError>>, lo: nat, hi: nat) {
    forall i :: lo <= i < hi && i < |items| ==> items[i].Ok?
  }

  /** `v` is the fold of `items[lo..hi]`, none of which is an error. */
  predicate ReadOk(items: seq<Result<ChatChunk, ChatStreamError>>, lo: nat, hi: nat, v: Aggregated) {
    lo <= hi <= |items| && AllOk(items, lo, hi) && v == Fold(Oks(items[lo..hi]))
  }

  /** Reading one more `Ok` item pushes its chunk. */
  lemma ReadOkStep(items: seq<Result<ChatChunk, ChatStreamError>>, lo: nat, hi: nat, v: Aggregated, chunk: ChatChunk)
    requires ReadOk(items, lo, hi, v) && hi < |items| && items[hi] == Ok(chunk)
    ensures ReadOk(items, lo, hi + 1, Pushed(v, chunk))
  {
    FoldExtend(items, lo, hi);
  }

  /** `v` is the fold of the `Ok` items of `items[lo..hi]`. */
  predicate Folded(items: seq<Result<ChatChunk, ChatStreamError>>, lo: nat, hi: nat, v: Aggregated) {
    lo <= hi <= |items| && v == Fold(Oks(items[lo..hi]))
  }

  /** Reading one more item pushes its chunk if it is `Ok` and leaves the fold alone otherwise. */
  lemma FoldedStep(items: seq<Result<ChatChunk, ChatStreamError>>, lo: nat, hi: nat, v: Aggregated)
    requires Folded(items, lo, hi, v) && hi < |items|
    ensures items[hi].Ok? ==> Folded(items, lo, hi + 1, Pushed(v, items[hi].value))
    ensures items[hi].Err? ==> Folded(items, lo, hi + 1, v)
  {
    OksExtend(items, lo, hi);
    if items[hi].Ok? {
      FoldSnoc(Oks(items[lo..hi]), items[hi].value);
    } else {
      assert Oks(items[lo..hi]) + [] == Oks(items[lo..hi]);
    }
  }

  /** Reading from `lo`, the first error at `j` is what the strict aggregate reports, and reading stops after it. */
  lemma StrictStopsAt(items: seq<Result<ChatChunk, ChatStreamError>>, lo: nat, j: nat)
    requires lo <= j < |items| && items[j].Err?
    requires AllOk(items, lo, j)
    ensures Strict(items[lo..]) == Err(items[j].error)
    ensures Consumed(items[lo..]) == j - lo + 1
  {
    var rest := items[lo..];
    assert rest[j - lo] == items[j];
    assert forall i :: 0 <= i < j - lo ==> rest[i] == items[lo + i];
    StrictReportsFirstError(rest, j - lo);
  }

  /** Reading from `lo` to the end with no error: the strict aggregate is what was folded, all of it read. */
  lemma StrictRunsToEnd(items: seq<Result<ChatChunk, ChatStreamError>>, lo: nat, v: Aggregated)
    requires ReadOk(items, lo, |items|, v)
    ensures Strict(items[lo..]) == Ok(v)
    ensures Consumed(items[lo..]) == |items| - lo
  {
    var rest := items[lo..];
    assert forall i :: 0 <= i < |rest| ==> rest[i] == items[lo + i];
    assert items[lo..|items|] == rest;
    StrictIsLossyWithoutErrors(rest);
  }

  /** The `Ok` chunks of two item sequences in a row are those of each, in a row. */
  lemma {:induction false} OksAppend(a: seq<Result<ChatChunk, ChatStreamError>>, b: seq<Result<ChatChunk, ChatStreamError>>)
    ensures Oks(a + b) == Oks(a) + Oks(b)
    decreases |b|
  {
    if b == [] {
      assert a + b == a;
    } else {
      var init := b[..|b| - 1];
      assert (a + b)[..|a + b| - 1] == a + init;
      OksAppend(a, init);
    }
  }

  /** `AggregatedChat`: content so far and, once any thinking arrived, the thinking so far. */
  class AggregatedChat {
    var content: string
    var thinking: Option<string>

    function Value(): Aggregated
      reads this
    {
      Aggregated(content, thinking)
    }

    /** `AggregatedChat::default`. */
    constructor ()
      ensures content == "" && thinking == None
    {
      content := "";
      thinking := None;
    }

    /**
     * `AggregatedChat::push`: content text is appended to the content; thinking
     * text is appended to the thinking, which starts empty when absent.
     */
    method Push(chunk: ChatChunk)
      modifies this
      ensures Value() == Pushed(old(Value()), chunk)
      ensures chunk.Content? ==> content == old(content) + chunk.text && thinking == old(thinking)
      ensures chunk.Thinking? ==> content == old(content) && thinking == Some(OrEmpty(old(thinking)) + chunk.text)
    {
      match chunk
      case Content(text) =>
        content := content + text;
      case Thinking(text) =>
        if thinking.None? {
          thinking := Some("");
        }
        thinking := Some(thinking.value + text);
    }
  }

  /** `ChatResponse`: the items of a response stream and how many have been read. */
  class ChatResponse {
    const items: seq<Result<ChatChunk, ChatStreamError>>
    var cursor: nat

    predicate Valid()
      reads this
    {
      cursor <= |items|
    }

    /** The items not read yet. */
    function Remaining(): seq<Result<ChatChunk, ChatStreamError>>
      requires Valid()
      reads this
    {
      items[cursor..]
    }

    /** `ChatResponse::new`: nothing has been read. */
    constructor (items: seq<Result<ChatChunk, ChatStreamError>>)
      ensures Valid() && this.items == items && cursor == 0
    {
      this.items := items;
      cursor := 0;
    }

    /** `ChatResponse::next`: the next item, or `None` once the stream is exhausted. */
    method Next() returns (r: Option<Result<ChatChunk, ChatStreamError>>)
      requires Valid()
      modifies this
      ensures Valid()
      ensures old(cursor) < |items| ==> r == Some(items[old(cursor)]) && cursor == old(cursor) + 1
      ensures old(cursor) == |items| ==> r == None && cursor == old(cursor)
    {
      if cursor < |items| {
        r := Some(items[cursor]);
        cursor := cursor + 1;
      } else {
        r := None;
      }
    }

    /**
     * `ChatResponse::aggregate`: reads items until the stream ends or an error
     * arrives. The first error is returned and the partial aggregate dropped;
     * the items after it stay unread.
     */
    method Aggregate() returns (r: Result<AggregatedChat, ChatStreamError>)
      requires Valid()
      modifies this
      ensures Valid()
      ensures r.Ok? ==> fresh(r.value) && Strict(old(Remaining())) == Ok(r.value.Value())
      ensures r.Err? ==> Strict(old(Remaining())) == Err(r.error)
      ensures cursor == old(cursor) + Consumed(old(Remaining()))
    {
      ghost var start := cursor;
      assert old(Remaining()) == items[start..];
      var result := new AggregatedChat();
      while true
        invariant Valid() && start <= cursor
        invariant fresh(result)
        invariant ReadOk(items, start, cursor, result.Value())
        decreases |items| - cursor
      {
        ghost var before := cursor;
        var next := Next();
        if next.None? {
          break;
        }
        match next.value
        case Err(e) =>
          StrictStopsAt(items, start, before);
          return Err(e);
        case Ok(chunk) =>
          ReadOkStep(items, start, before, result.Value(), chunk);
          result.Push(chunk);
      }
      StrictRunsToEnd(items, start, result.Value());
      r := Ok(result);
    }

    /**
     * `ChatResponse::aggregate_lossy`: reads every remaining item, folds the
     * chunks and skips the errors; it never fails.
     */
    method AggregateLossy() returns (r: AggregatedChat)
      requires Valid()
      modifies this
      ensures Valid() && cursor == |items|
      ensures fresh(r) && r.Value() == Lossy(old(Remaining()))
    {
      ghost var start := cursor;
      assert old(Remaining()) == items[start..];
      var result := new AggregatedChat();
      while true
        invariant Valid() && start <= cursor
        invariant fresh(result)
        invariant Folded(items, start, cursor, result.Value())
        decreases |items| - cursor
      {
        ghost var before := cursor;
        var next := Next();
        if next.None? {
          break;
        }
        if next.value.Ok? {
          var chunk := next.value.value;
          FoldedStep(items, start, before, result.Value());
          result.Push(chunk);
        } else {
          FoldedStep(items, start, before, result.Value());
        }
      }
      assert items[start..cursor] == items[start..];
      r := result;
    }
  }
}
