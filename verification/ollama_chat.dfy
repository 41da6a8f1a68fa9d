/**
 * The Ollama backend's response decoding. Every delivery of the response body
 * is one JSON document holding a `message`. A non-empty structured `thinking`
 * field is passed on as it is; otherwise the content is scanned for inline
 * `<think>`…`</think>` tags, with a flag that records, from one delivery to
 * the next, whether the text is inside a thinking block.
 */
module OllamaChat {
  import opened Wrappers
  import opened Strings
  import CoreChat
  import opened ProvidersChat

  type Item = Result<ChatChunk, CoreChat.ChatStreamError>

  /** What `split_thinking` returns, together with the flag it leaves behind. */
  datatype SplitResult = SplitResult(content: string, thinking: Option<string>, inThinking: bool)

  /** A text as a thinking piece: absent when empty. */
  function Piece(text: string): Option<string>
  {
    if text == "" then None else Some(text)
  }

  /** Appending thinking text to an optional accumulator, which starts empty when absent. */
  function AppendOpt(a: Option<string>, b: Option<string>): (r: Option<string>)
    ensures r.None? <==> a.None? && b.None?
    ensures OrEmpty(r) == OrEmpty(a) + OrEmpty(b)
  {
    if a.None? then b else if b.None? then a else Some(a.value + b.value)
  }

  /** The output of splitting one text followed by the output of splitting the next. */
  function Then(first: SplitResult, later: SplitResult): SplitResult {
    SplitResult(first.content + later.content, AppendOpt(first.thinking, later.thinking), later.inThinking)
  }

  lemma AppendOptAssoc(a: Option<string>, b: Option<string>, c: Option<string>)
    ensures AppendOpt(AppendOpt(a, b), c) == AppendOpt(a, AppendOpt(b, c))
  {
    if a.Some? && b.Some? && c.Some? {
      assert (a.value + b.value) + c.value == a.value + (b.value + c.value);
    }
  }

  lemma ThenAssoc(x: SplitResult, y: SplitResult, z: SplitResult)
    ensures Then(Then(x, y), z) == Then(x, Then(y, z))
  {
    AppendOptAssoc(x.thinking, y.thinking, z.thinking);
    assert (x.content + y.content) + z.content == x.content + (y.content + z.content);
  }

  /**
   * What `split_thinking` computes. Outside a thinking block, text up to the
   * first `<think>` is content; inside one, text up to the first `</think>`
   * is thinking; the markers themselves are consumed and flip the flag. Empty
   * thinking text is not recorded.
   */
  function ThinkingSplit(raw: string, inThinking: bool): (r: SplitResult)
    decreases |raw|
  {
    if raw == [] then SplitResult("", None, inThinking)
    else if inThinking then
      match Find(raw, "</think>")
      case Some(end) =>
        Then(SplitResult("", Piece(raw[..end]), false), ThinkingSplit(raw[end + 8..], false))
      case None => SplitResult("", Some(raw), true)
    else
      match Find(raw, "<think>")
      case Some(start) =>
        Then(SplitResult(raw[..start], None, true), ThinkingSplit(raw[start + 7..], true))
      case None => SplitResult(raw, None, false)
  }

  /** Empty thinking text is never recorded, so any thinking the splitter returns is non-empty. */
  lemma {:induction false} ThinkingSplitNonEmpty(raw: string, inThinking: bool)
    decreases |raw|
    ensures ThinkingSplit(raw, inThinking).thinking.Some? ==> ThinkingSplit(raw, inThinking).thinking.value != ""
  {
    if raw != [] {
      if inThinking {
        match Find(raw, "</think>")
        case Some(end) =>
          CloseStep(raw, end);
          ThinkingSplitNonEmpty(raw[end + 8..], false);
        case None =>
      } else {
        match Find(raw, "<think>")
        case Some(start) =>
          OpenStep(raw, start);
          ThinkingSplitNonEmpty(raw[start + 7..], true);
        case None =>
      }
    }
  }

  lemma CloseStep(raw: string, end: nat)
    requires raw != [] && Find(raw, "</think>") == Some(end)
    ensures end + 8 <= |raw|
    ensures ThinkingSplit(raw, true) == Then(SplitResult("", Piece(raw[..end]), false), ThinkingSplit(raw[end + 8..], false))
  {
    FoundFits(raw, "</think>", end);
    CloseUnfold(raw, end);
  }

  lemma CloseUnfold(raw: string, end: nat)
    requires raw != [] && Find(raw, "</think>") == Some(end) && end + 8 <= |raw|
    ensures ThinkingSplit(raw, true) == Then(SplitResult("", Piece(raw[..end]), false), ThinkingSplit(raw[end + 8..], false))
  {
  }

  lemma CloseStepAt(raw: string, end: nat, text: string, rest: string)
    requires raw != [] && Find(raw, "</think>") == Some(end)
    requires end + 8 <= |raw| && text == raw[..end] && rest == raw[end + 8..]
    ensures ThinkingSplit(raw, true) == Then(SplitResult("", Piece(text), false), ThinkingSplit(rest, false))
  {
    CloseUnfold(raw, end);
  }

  lemma OpenStepAt(raw: string, start: nat, text: string, rest: string)
    requires raw != [] && Find(raw, "<think>") == Some(start)
    requires start + 7 <= |raw| && text == raw[..start] && rest == raw[start + 7..]
    ensures ThinkingSplit(raw, false) == Then(SplitResult(text, None, true), ThinkingSplit(rest, true))
  {
    OpenUnfold(raw, start);
  }

  lemma CloseMissing(raw: string)
    requires raw != [] && Find(raw, "</think>") == None
    ensures ThinkingSplit(raw, true) == SplitResult("", Some(raw), true)
  {
  }

  lemma OpenStep(raw: string, start: nat)
    requires raw != [] && Find(raw, "<think>") == Some(start)
    ensures start + 7 <= |raw|
    ensures ThinkingSplit(raw, false) == Then(SplitResult(raw[..start], None, true), ThinkingSplit(raw[start + 7..], true))
  {
    FoundFits(raw, "<think>", start);
    OpenUnfold(raw, start);
  }

  lemma OpenUnfold(raw: string, start: nat)
    requires raw != [] && Find(raw, "<think>") == Some(start) && start + 7 <= |raw|
    ensures ThinkingSplit(raw, false) == Then(SplitResult(raw[..start], None, true), ThinkingSplit(raw[start + 7..], true))
  {
  }

  lemma OpenMissing(raw: string)
    requires raw != [] && Find(raw, "<think>") == None
    ensures ThinkingSplit(raw, false) == SplitResult(raw, None, false)
  {
  }

  /**
   * `split_thinking`: consumes the text from the front, one marker at a time;
   * the flag is both read and updated.
   */
  method SplitThinking(raw: string, inThinking: bool) returns (content: string, thinking: Option<string>, stillThinking: bool)
    ensures SplitResult(content, thinking, stillThinking) == ThinkingSplit(raw, inThinking)
  {
    content := "";
    thinking := None;
    stillThinking := inThinking;
    var remaining := raw;
    while remaining != []
      invariant Then(SplitResult(content, thinking, stillThinking), ThinkingSplit(remaining, stillThinking))
        == ThinkingSplit(raw, inThinking)
      decreases |remaining|
    {
      ghost var before := SplitResult(content, thinking, stillThinking);
      ghost var rest := remaining;
      if stillThinking {
        var found := Find(remaining, "</think>");
        if found.Some? {
          var end := found.value;
          CloseStep(remaining, end);
          var thinkText := remaining[..end];
          if thinkText != "" {
            thinking := Some(OrEmpty(thinking) + thinkText);
          }
          stillThinking := false;
          remaining := remaining[end + 8..];
          ThinkingThen(before, thinkText);
          ThenAssoc(before, SplitResult("", Piece(thinkText), false), ThinkingSplit(remaining, false));
        } else {
          CloseMissing(remaining);
          thinking := Some(OrEmpty(thinking) + remaining);
          UnclosedThen(before, rest);
          break;
        }
      } else {
        var found := Find(remaining, "<think>");
        if found.Some? {
          var start := found.value;
          OpenStep(remaining, start);
          content := content + remaining[..start];
          stillThinking := true;
          remaining := remaining[start + 7..];
          ContentThen(before, rest[..start], true);
          ThenAssoc(before, SplitResult(rest[..start], None, true), ThinkingSplit(remaining, true));
        } else {
          OpenMissing(remaining);
          content := content + remaining;
          ContentThen(before, rest, false);
          break;
        }
      }
    }
    if remaining == [] {
      assert ThinkingSplit(remaining, stillThinking) == SplitResult("", None, stillThinking);
      assert content + "" == content;
    }
  }

  /** Closing a block: the thinking text, when not empty, is appended to the accumulated thinking. */
  lemma ThinkingThen(before: SplitResult, t: string)
    ensures Then(before, SplitResult("", Piece(t), false)) ==
      SplitResult(before.content, if t != "" then Some(OrEmpty(before.thinking) + t) else before.thinking, false)
  {
    assert before.content + "" == before.content;
  }

  /** An unclosed block: the rest of the text is appended to the accumulated thinking. */
  lemma UnclosedThen(before: SplitResult, t: string)
    ensures Then(before, SplitResult("", Some(t), true)) == SplitResult(before.content, Some(OrEmpty(before.thinking) + t), true)
  {
    assert before.content + "" == before.content;
  }

  /** Text read outside a block is appended to the accumulated content. */
  lemma ContentThen(before: SplitResult, t: string, flag: bool)
    ensures Then(before, SplitResult(t, None, flag)) == SplitResult(before.content + t, before.thinking, flag)
  {
  }

  /** Outside a thinking block, text without `<think>` is all content and leaves the flag clear. */
  lemma PlainTextPassesThrough(raw: string)
    requires !Contains(raw, "<think>")
    ensures ThinkingSplit(raw, false) == SplitResult(raw, None, false)
  {
  }

  /** Inside a thinking block, non-empty text without `</think>` is all thinking and the block stays open. */
  lemma UnclosedBlockIsAllThinking(raw: string)
    requires raw != [] && !Contains(raw, "</think>")
    ensures ThinkingSplit(raw, true) == SplitResult("", Some(raw), true)
  {
  }

  /** How the splitter reads its input: text in one mode, or a marker that switches modes. */
  datatype Segment = Text(text: string, thinking: bool) | Open | Close

  function SegmentText(x: Segment): string {
    match x
    case Text(t, _) => t
    case Open => "<think>"
    case Close => "</think>"
  }

  /** The input the segments were read from. */
  function Rendered(segs: seq<Segment>): string {
    if segs == [] then "" else SegmentText(segs[0]) + Rendered(segs[1..])
  }

  /** The text read outside thinking blocks, in order. */
  function ContentText(segs: seq<Segment>): string {
    if segs == [] then ""
    else (if segs[0].Text? && !segs[0].thinking then segs[0].text else "") + ContentText(segs[1..])
  }

  /** The text read inside thinking blocks, in order. */
  function ThinkingText(segs: seq<Segment>): string {
    if segs == [] then ""
    else (if segs[0].Text? && segs[0].thinking then segs[0].text else "") + ThinkingText(segs[1..])
  }

  /**
   * The segments follow the marker discipline from `mode` to `final`: a text
   * is read in the current mode and holds no marker that would end it,
   * `<think>` only opens a block and `</think>` only closes one.
   */
  predicate Alternates(segs: seq<Segment>, mode: bool, final: bool) {
    if segs == [] then mode == final
    else match segs[0]
      case Text(t, k) =>
        k == mode && t != "" && !Contains(t, if mode then "</think>" else "<think>") && Alternates(segs[1..], mode, final)
      case Open => !mode && Alternates(segs[1..], true, final)
      case Close => mode && Alternates(segs[1..], false, final)
  }

  lemma ConsSegment(x: Segment, rest: seq<Segment>)
    ensures Rendered([x] + rest) == SegmentText(x) + Rendered(rest)
    ensures ContentText([x] + rest) == (if x.Text? && !x.thinking then x.text else "") + ContentText(rest)
    ensures ThinkingText([x] + rest) == (if x.Text? && x.thinking then x.text else "") + ThinkingText(rest)
  {
    assert ([x] + rest)[0] == x;
    assert ([x] + rest)[1..] == rest;
  }

  lemma ConsAlternates(x: Segment, rest: seq<Segment>, mode: bool, final: bool)
    ensures Alternates([x] + rest, mode, final) <==>
      match x
      case Text(t, k) =>
        k == mode && t != "" && !Contains(t, if mode then "</think>" else "<think>") && Alternates(rest, mode, final)
      case Open => !mode && Alternates(rest, true, final)
      case Close => mode && Alternates(rest, false, final)
  {
    assert ([x] + rest)[0] == x;
    assert ([x] + rest)[1..] == rest;
  }

  /** A marker after a (possibly empty) text read in the marker's mode. */
  function MarkerAfter(text: string, mode: bool, marker: Segment, rest: seq<Segment>): seq<Segment> {
    (if text == "" then [] else [Text(text, mode)]) + ([marker] + rest)
  }

  /**
   * The segments of a text read in `mode` followed by the marker that ends
   * that mode and then the segments `rest`.
   */
  lemma MarkerAfterFacts(text: string, mode: bool, rest: seq<Segment>, final: bool) returns (segs: seq<Segment>)
    requires !Contains(text, EndMarker(mode))
    requires Alternates(rest, !mode, final)
    ensures Rendered(segs) == text + EndMarker(mode) + Rendered(rest)
    ensures ContentText(segs) == (if mode then "" else text) + ContentText(rest)
    ensures ThinkingText(segs) == (if mode then text else "") + ThinkingText(rest)
    ensures Alternates(segs, mode, final)
  {
    segs := MarkerAfter(text, mode, if mode then Close else Open, rest);
    if mode {
      MarkerAfterClose(text, mode, rest, final);
    } else {
      MarkerAfterOpen(text, mode, rest, final);
    }
  }

  /** MarkerAfterFacts inside a thinking block, ended by `</think>`. */
  lemma MarkerAfterClose(text: string, mode: bool, rest: seq<Segment>, final: bool)
    requires mode && !Contains(text, EndMarker(mode))
    requires Alternates(rest, !mode, final)
    ensures var segs := MarkerAfter(text, mode, if mode then Close else Open, rest);
      Rendered(segs) == text + EndMarker(mode) + Rendered(rest) &&
      ContentText(segs) == (if mode then "" else text) + ContentText(rest) &&
      ThinkingText(segs) == (if mode then text else "") + ThinkingText(rest) &&
      Alternates(segs, mode, final)
  {
    var marker := if mode then Close else Open;
    var segs := MarkerAfter(text, mode, marker, rest);
    ConsSegment(marker, rest);
    ConsAlternates(marker, rest, mode, final);
    if text != "" {
      ConsSegment(Text(text, mode), [marker] + rest);
      ConsAlternates(Text(text, mode), [marker] + rest, mode, final);
      AppendAssoc(text, SegmentText(marker), Rendered(rest));
    } else {
      assert segs == [marker] + rest;
    }
  }

  /** MarkerAfterFacts outside a thinking block, ended by `<think>`. */
  lemma MarkerAfterOpen(text: string, mode: bool, rest: seq<Segment>, final: bool)
    requires !mode && !Contains(text, EndMarker(mode))
    requires Alternates(rest, !mode, final)
    ensures var segs := MarkerAfter(text, mode, if mode then Close else Open, rest);
      Rendered(segs) == text + EndMarker(mode) + Rendered(rest) &&
      ContentText(segs) == (if mode then "" else text) + ContentText(rest) &&
      ThinkingText(segs) == (if mode then text else "") + ThinkingText(rest) &&
      Alternates(segs, mode, final)
  {
    var marker := if mode then Close else Open;
    var segs := MarkerAfter(text, mode, marker, rest);
    ConsSegment(marker, rest);
    ConsAlternates(marker, rest, mode, final);
    if text != "" {
      ConsSegment(Text(text, mode), [marker] + rest);
      ConsAlternates(Text(text, mode), [marker] + rest, mode, final);
      AppendAssoc(text, SegmentText(marker), Rendered(rest));
    } else {
      assert segs == [marker] + rest;
    }
  }

  lemma ThreeParts(s: string, i: nat, j: nat)
    requires i <= j <= |s|
    ensures s == s[..i] + s[i..j] + s[j..]
  {
    assert s[..i] + s[i..j] == s[..j];
  }

  /**
   * Every input character is either part of a consumed marker or goes to
   * exactly one of content and thinking, in input order: the input reads as
   * segments that follow the marker discipline, whose outside text is the
   * content and whose inside text is the thinking.
   */
  lemma {:induction false} SplitTrace(raw: string, inThinking: bool) returns (segs: seq<Segment>)
    decreases |raw|, 1
    ensures Rendered(segs) == raw
    ensures Alternates(segs, inThinking, ThinkingSplit(raw, inThinking).inThinking)
    ensures ContentText(segs) == ThinkingSplit(raw, inThinking).content
    ensures ThinkingText(segs) == OrEmpty(ThinkingSplit(raw, inThinking).thinking)
  {
    if raw == [] {
      segs := [];
    } else if inThinking {
      match Find(raw, "</think>")
      case Some(end) =>
        segs := TraceThroughMarker(raw, true, end);
      case None =>
        CloseMissing(raw);
        segs := [Text(raw, true)];
        ConsSegment(Text(raw, true), []);
        ConsAlternates(Text(raw, true), [], true, true);
    } else {
      match Find(raw, "<think>")
      case Some(start) =>
        segs := TraceThroughMarker(raw, false, start);
      case None =>
        OpenMissing(raw);
        segs := [Text(raw, false)];
        ConsSegment(Text(raw, false), []);
        ConsAlternates(Text(raw, false), [], false, false);
    }
  }

  /** The case of `SplitTrace` where the marker that ends the current mode is found at `at`. */
  lemma {:induction false} TraceThroughMarker(raw: string, mode: bool, at: nat) returns (segs: seq<Segment>)
    requires raw != []
    requires Find(raw, EndMarker(mode)) == Some(at)
    decreases |raw|, 0
    ensures Rendered(segs) == raw
    ensures Alternates(segs, mode, ThinkingSplit(raw, mode).inThinking)
    ensures ContentText(segs) == ThinkingSplit(raw, mode).content
    ensures ThinkingText(segs) == OrEmpty(ThinkingSplit(raw, mode).thinking)
  {
    var text, rest := MarkerSplit(raw, mode, at);
    var tail := SplitTrace(rest, !mode);
    segs := TraceCompose(raw, mode, text, rest, ThinkingSplit(rest, !mode), tail);
  }

  /** The text before the marker found at `at`, and the text after it, with the splitter's first step over them. */
  lemma MarkerSplit(raw: string, mode: bool, at: nat) returns (text: string, rest: string)
    requires raw != [] && Find(raw, EndMarker(mode)) == Some(at)
    ensures raw == text + EndMarker(mode) + rest && !Contains(text, EndMarker(mode))
    ensures |rest| < |raw|
    ensures ThinkingSplit(raw, mode) == Then(StepResult(text, mode), ThinkingSplit(rest, !mode))
  {
    var marker := EndMarker(mode);
    MarkerStep(raw, mode, at);
    text := raw[..at];
    rest := raw[at + |marker|..];
    BeforeFirstHasNone(raw, marker, at);
    assert raw[at..at + |marker|] == marker;
    ThreeParts(raw, at, at + |marker|);
  }

  /** Segments for `text`, the marker that ends `mode`, and `rest`, from the segments of `rest`. */
  lemma TraceCompose(raw: string, mode: bool, text: string, rest: string, r: SplitResult, tail: seq<Segment>)
    returns (segs: seq<Segment>)
    requires raw == text + EndMarker(mode) + rest && !Contains(text, EndMarker(mode))
    requires Rendered(tail) == rest && Alternates(tail, !mode, r.inThinking)
    requires ContentText(tail) == r.content && ThinkingText(tail) == OrEmpty(r.thinking)
    ensures Rendered(segs) == raw
    ensures Alternates(segs, mode, Then(StepResult(text, mode), r).inThinking)
    ensures ContentText(segs) == Then(StepResult(text, mode), r).content
    ensures ThinkingText(segs) == OrEmpty(Then(StepResult(text, mode), r).thinking)
  {
    segs := MarkerAfterFacts(text, mode, tail, r.inThinking);
    ThenParts(StepResult(text, mode), r);
  }

  /** The marker that ends the given mode. */
  function EndMarker(mode: bool): string {
    if mode then "</think>" else "<think>"
  }

  /** What the splitter records for the text before the marker that ends `mode`. */
  function StepResult(text: string, mode: bool): SplitResult {
    if mode then SplitResult("", Piece(text), false) else SplitResult(text, None, true)
  }

  /** The first step of the splitter when the marker that ends the current mode is found at `at`. */
  lemma MarkerStep(raw: string, mode: bool, at: nat)
    requires raw != [] && Find(raw, EndMarker(mode)) == Some(at)
    ensures at + |EndMarker(mode)| <= |raw|
    ensures ThinkingSplit(raw, mode) == Then(StepResult(raw[..at], mode), ThinkingSplit(raw[at + |EndMarker(mode)|..], !mode))
  {
    if mode {
      MarkerStepClose(raw, mode, at);
    } else {
      MarkerStepOpen(raw, mode, at);
    }
  }

  lemma MarkerStepClose(raw: string, mode: bool, at: nat)
    requires mode && raw != [] && Find(raw, EndMarker(mode)) == Some(at)
    ensures at + |EndMarker(mode)| <= |raw|
    ensures ThinkingSplit(raw, mode) == Then(StepResult(raw[..at], mode), ThinkingSplit(raw[at + |EndMarker(mode)|..], !mode))
  {
    CloseStep(raw, at);
  }

  lemma MarkerStepOpen(raw: string, mode: bool, at: nat)
    requires !mode && raw != [] && Find(raw, EndMarker(mode)) == Some(at)
    ensures at + |EndMarker(mode)| <= |raw|
    ensures ThinkingSplit(raw, mode) == Then(StepResult(raw[..at], mode), ThinkingSplit(raw[at + |EndMarker(mode)|..], !mode))
  {
    OpenStep(raw, at);
  }

  /** The content, thinking text and flag of two outputs in sequence. */
  lemma ThenParts(x: SplitResult, y: SplitResult)
    ensures Then(x, y).content == x.content + y.content
    ensures OrEmpty(Then(x, y).thinking) == OrEmpty(x.thinking) + OrEmpty(y.thinking)
    ensures Then(x, y).inThinking == y.inThinking
  {
  }

  /** No occurrence of `m` in `a + b` begins in `a` and ends in `b`. */
  predicate NoStraddle(a: string, b: string, m: string) {
    forall p: nat :: p < |a| < p + |m| ==> !OccursAt(a + b, m, p)
  }

  /** Neither marker occurs across the boundary between `a` and `b`. */
  predicate NoMarkerStraddles(a: string, b: string) {
    NoStraddle(a, b, "<think>") && NoStraddle(a, b, "</think>")
  }

  lemma NoStraddleSuffix(a: string, b: string, m: string, k: nat)
    requires k <= |a| && NoStraddle(a, b, m)
    ensures NoStraddle(a[k..], b, m)
  {
    assert a[k..] + b == (a + b)[k..];
    forall p: nat | p < |a[k..]| < p + |m|
      ensures !OccursAt(a[k..] + b, m, p)
    {
      assert !OccursAt(a + b, m, p + k);
      if p + |m| <= |a[k..] + b| {
        assert (a + b)[p + k..p + k + |m|] == (a[k..] + b)[p..p + |m|];
      }
    }
  }

  lemma NoOccurrenceInFirst(a: string, b: string, m: string)
    requires Find(a, m) == None && NoStraddle(a, b, m)
    ensures forall j: nat :: j < |a| ==> !OccursAt(a + b, m, j)
  {
    forall j: nat | j < |a|
      ensures !OccursAt(a + b, m, j)
    {
      if j + |m| <= |a| {
        OccursAtAppend(a, b, m, j);
        assert !OccursAt(a, m, j);
      }
    }
  }

  lemma OccurrenceInSecond(a: string, b: string, m: string, j: nat)
    ensures OccursAt(a + b, m, |a| + j) <==> OccursAt(b, m, j)
  {
    if j + |m| <= |b| {
      assert (a + b)[|a| + j..|a| + j + |m|] == b[j..j + |m|];
    }
  }

  /** When `m` is not in `a` and does not straddle, its first occurrence in `a + b` is its first in `b`, shifted. */
  lemma FindPastBoundary(a: string, b: string, m: string)
    requires m != "" && Find(a, m) == None && NoStraddle(a, b, m)
    ensures Find(b, m).Some? ==> Find(a + b, m) == Some(|a| + Find(b, m).value)
    ensures Find(b, m).None? ==> Find(a + b, m) == None
  {
    NoOccurrenceInFirst(a, b, m);
    match Find(b, m)
    case Some(k) =>
      OccurrenceInSecond(a, b, m, k);
      forall j: nat | j < |a| + k
        ensures !OccursAt(a + b, m, j)
      {
        if j >= |a| {
          OccurrenceInSecond(a, b, m, j - |a|);
        }
      }
      FindIs(a + b, m, |a| + k);
    case None =>
      forall j: nat
        ensures !OccursAt(a + b, m, j)
      {
        if j >= |a| {
          OccurrenceInSecond(a, b, m, j - |a|);
        }
      }
      FindNone(a + b, m);
  }

  /**
   * Splitting `a + b` is splitting `a` and then `b` with the flag threaded
   * through, the outputs concatenated, provided no marker straddles the
   * boundary: this is what lets the flag carry a thinking block across
   * deliveries.
   */
  lemma {:induction false} ThinkingSplitAppend(a: string, b: string, mode: bool)
    requires NoMarkerStraddles(a, b)
    decreases |a|, 1
    ensures ThinkingSplit(a + b, mode) == Then(ThinkingSplit(a, mode), ThinkingSplit(b, ThinkingSplit(a, mode).inThinking))
  {
    if a == [] {
      assert a + b == b;
      assert "" + ThinkingSplit(b, mode).content == ThinkingSplit(b, mode).content;
    } else if mode {
      match Find(a, "</think>")
      case Some(at) => AppendCloseInFirst(a, b, at);
      case None => AppendCloseNotInFirst(a, b);
    } else {
      match Find(a, "<think>")
      case Some(at) => AppendOpenInFirst(a, b, at);
      case None => AppendOpenNotInFirst(a, b);
    }
  }

  /** `</think>` found in `a`: `a + b` takes the same first step as `a` does. */
  lemma CloseInFirst(a: string, b: string, at: nat)
    requires a != [] && Find(a, "</think>") == Some(at)
    ensures at + 8 <= |a|
    ensures ThinkingSplit(a + b, true) == Then(SplitResult("", Piece(a[..at]), false), ThinkingSplit(a[at + 8..] + b, false))
  {
    FoundFits(a, "</think>", at);
    FindAppend(a, b, "</think>", at);
    SlicesWithin(a, b, at, 8);
    CloseStepAt(a + b, at, a[..at], a[at + 8..] + b);
  }

  /** `<think>` found in `a`: `a + b` takes the same first step as `a`. */
  lemma OpenInFirst(a: string, b: string, at: nat)
    requires a != [] && Find(a, "<think>") == Some(at)
    ensures at + 7 <= |a|
    ensures ThinkingSplit(a, false) == Then(SplitResult(a[..at], None, true), ThinkingSplit(a[at + 7..], true))
    ensures ThinkingSplit(a + b, false) == Then(SplitResult(a[..at], None, true), ThinkingSplit(a[at + 7..] + b, true))
  {
    OpenStep(a, at);
    FindAppend(a, b, "<think>", at);
    SlicesWithin(a, b, at, 7);
    OpenStepAt(a + b, at, a[..at], a[at + 7..] + b);
  }

  lemma {:induction false} AppendCloseInFirst(a: string, b: string, at: nat)
    requires NoMarkerStraddles(a, b) && a != []
    requires Find(a, "</think>") == Some(at)
    decreases |a|, 0
    ensures ThinkingSplit(a + b, true) == Then(ThinkingSplit(a, true), ThinkingSplit(b, ThinkingSplit(a, true).inThinking))
  {
    CloseStep(a, at);
    CloseInFirst(a, b, at);
    var rest := a[at + 8..];
    var step := SplitResult("", Piece(a[..at]), false);
    var r := ThinkingSplit(rest, false);
    assert NoMarkerStraddles(rest, b) by {
      NoStraddleSuffix(a, b, "<think>", at + 8);
      NoStraddleSuffix(a, b, "</think>", at + 8);
    }
    ThinkingSplitAppend(rest, b, false);
    ThenAssoc(step, r, ThinkingSplit(b, r.inThinking));
  }

  lemma {:induction false} AppendOpenInFirst(a: string, b: string, at: nat)
    requires NoMarkerStraddles(a, b) && a != []
    requires Find(a, "<think>") == Some(at)
    decreases |a|, 0
    ensures ThinkingSplit(a + b, false) == Then(ThinkingSplit(a, false), ThinkingSplit(b, ThinkingSplit(a, false).inThinking))
  {
    OpenInFirst(a, b, at);
    var rest := a[at + 7..];
    var step := SplitResult(a[..at], None, true);
    var r := ThinkingSplit(rest, true);
    assert NoMarkerStraddles(rest, b) by {
      NoStraddleSuffix(a, b, "<think>", at + 7);
      NoStraddleSuffix(a, b, "</think>", at + 7);
    }
    ThinkingSplitAppend(rest, b, true);
    ThenAssoc(step, r, ThinkingSplit(b, r.inThinking));
  }

  lemma SlicesWithin(a: string, b: string, k: nat, n: nat)
    requires k + n <= |a|
    ensures (a + b)[..k] == a[..k]
    ensures (a + b)[k + n..] == a[k + n..] + b
  {
  }

  lemma SlicesAcross(a: string, b: string, k: nat, n: nat)
    requires k + n <= |b|
    ensures (a + b)[..|a| + k] == a + b[..k]
    ensures (a + b)[|a| + k + n..] == b[k + n..]
  {
  }

  /** A marker found only in `b` is found in `a + b` past `a`, with the text around it unchanged. */
  lemma AcrossFacts(a: string, b: string, m: string, k: nat)
    requires m != "" && Find(a, m) == None && NoStraddle(a, b, m) && Find(b, m) == Some(k)
    ensures k + |m| <= |b| && Find(a + b, m) == Some(|a| + k)
    ensures (a + b)[..|a| + k] == a + b[..k] && (a + b)[|a| + k + |m|..] == b[k + |m|..]
  {
    FoundFits(b, m, k);
    FindPastBoundary(a, b, m);
    SlicesAcross(a, b, k, |m|);
  }

  /** `</think>` found only in `b`: the thinking text runs from the start of `a` into `b`. */
  lemma CloseAcross(a: string, b: string, k: nat)
    requires a != [] && Find(a, "</think>") == None && NoStraddle(a, b, "</think>")
    requires Find(b, "</think>") == Some(k)
    ensures k + 8 <= |b|
    ensures ThinkingSplit(a + b, true) == Then(SplitResult("", Piece(a + b[..k]), false), ThinkingSplit(b[k + 8..], false))
  {
    AcrossFacts(a, b, "</think>", k);
    CloseStepAt(a + b, |a| + k, a + b[..k], b[k + 8..]);
  }

  /** `<think>` found only in `b`: the content runs from the start of `a` into `b`. */
  lemma OpenAcross(a: string, b: string, k: nat)
    requires a != [] && Find(a, "<think>") == None && NoStraddle(a, b, "<think>")
    requires Find(b, "<think>") == Some(k)
    ensures k + 7 <= |b|
    ensures ThinkingSplit(a + b, false) == Then(SplitResult(a + b[..k], None, true), ThinkingSplit(b[k + 7..], true))
  {
    AcrossFacts(a, b, "<think>", k);
    OpenStepAt(a + b, |a| + k, a + b[..k], b[k + 7..]);
  }

  lemma AppendCloseNotInFirst(a: string, b: string)
    requires NoMarkerStraddles(a, b) && a != []
    requires Find(a, "</think>") == None
    ensures ThinkingSplit(a + b, true) == Then(ThinkingSplit(a, true), ThinkingSplit(b, ThinkingSplit(a, true).inThinking))
  {
    CloseMissing(a);
    match Find(b, "</think>")
    case Some(k) => AppendCloseLater(a, b, k);
    case None => AppendCloseNowhere(a, b);
  }

  lemma AppendCloseLater(a: string, b: string, k: nat)
    requires NoMarkerStraddles(a, b) && a != []
    requires Find(a, "</think>") == None && Find(b, "</think>") == Some(k)
    ensures ThinkingSplit(a + b, true) == Then(SplitResult("", Some(a), true), ThinkingSplit(b, true))
  {
    CloseStep(b, k);
    CloseAcross(a, b, k);
    var first := SplitResult("", Some(a), true);
    var bStep := SplitResult("", Piece(b[..k]), false);
    UnclosedThenClosed(a, b[..k]);
    ThenAssoc(first, bStep, ThinkingSplit(b[k + 8..], false));
  }

  /** Unclosed thinking text followed by text that closes the block is one thinking piece. */
  lemma UnclosedThenClosed(a: string, t: string)
    requires a != []
    ensures Then(SplitResult("", Some(a), true), SplitResult("", Piece(t), false)) == SplitResult("", Piece(a + t), false)
  {
    if t == "" {
      assert a + t == a;
    }
  }

  lemma AppendCloseNowhere(a: string, b: string)
    requires NoMarkerStraddles(a, b) && a != []
    requires Find(a, "</think>") == None && Find(b, "</think>") == None
    ensures ThinkingSplit(a + b, true) == Then(SplitResult("", Some(a), true), ThinkingSplit(b, true))
  {
    if b == [] {
      assert a + b == a;
    } else {
      CloseMissing(b);
      FindPastBoundary(a, b, "</think>");
      CloseMissing(a + b);
    }
  }

  lemma AppendOpenNotInFirst(a: string, b: string)
    requires NoMarkerStraddles(a, b) && a != []
    requires Find(a, "<think>") == None
    ensures ThinkingSplit(a + b, false) == Then(ThinkingSplit(a, false), ThinkingSplit(b, ThinkingSplit(a, false).inThinking))
  {
    OpenMissing(a);
    match Find(b, "<think>")
    case Some(k) => AppendOpenLater(a, b, k);
    case None => AppendOpenNowhere(a, b);
  }

  lemma AppendOpenLater(a: string, b: string, k: nat)
    requires NoMarkerStraddles(a, b) && a != []
    requires Find(a, "<think>") == None && Find(b, "<think>") == Some(k)
    ensures ThinkingSplit(a + b, false) == Then(SplitResult(a, None, false), ThinkingSplit(b, false))
  {
    OpenStep(b, k);
    OpenAcross(a, b, k);
    var first := SplitResult(a, None, false);
    var bStep := SplitResult(b[..k], None, true);
    assert Then(first, bStep) == SplitResult(a + b[..k], None, true);
    ThenAssoc(first, bStep, ThinkingSplit(b[k + 7..], true));
  }

  lemma AppendOpenNowhere(a: string, b: string)
    requires NoMarkerStraddles(a, b) && a != []
    requires Find(a, "<think>") == None && Find(b, "<think>") == None
    ensures ThinkingSplit(a + b, false) == Then(SplitResult(a, None, false), ThinkingSplit(b, false))
  {
    if b == [] {
      assert a + b == a;
      assert a + "" == a;
    } else {
      OpenMissing(b);
      FindPastBoundary(a, b, "<think>");
      OpenMissing(a + b);
    }
  }

  /** A text that begins with `<think>` opens a block and has no content before it. */
  lemma OpenAtStart(rest: string)
    ensures ThinkingSplit("<think>" + rest, false) == Then(SplitResult("", None, true), ThinkingSplit(rest, true))
  {
    var raw := "<think>" + rest;
    FindAtStart(raw, "<think>");
    OpenStep(raw, 0);
    assert raw[..0] == "" && raw[7..] == rest;
  }

  /** Inside a block, text without `<` followed by `</think>` is the block's thinking, and the block closes. */
  lemma CloseAfterPlainText(inner: string, after: string)
    requires '<' !in inner
    ensures ThinkingSplit(inner + "</think>" + after, true) == Then(SplitResult("", Piece(inner), false), ThinkingSplit(after, false))
  {
    var raw := inner + "</think>" + after;
    FindAfterFree(inner, "</think>", after);
    assert raw[..|inner|] == inner && raw[|inner| + 8..] == after;
    CloseStepAt(raw, |inner|, inner, after);
  }

  /**
   * A complete thinking block at the start of the text, from a clear flag:
   * the block's text is the thinking, the text after it the content, and the
   * flag ends clear.
   */
  lemma CompleteBlockAtStart(inner: string, after: string)
    requires '<' !in inner && '<' !in after
    ensures ThinkingSplit("<think>" + inner + "</think>" + after, false) == SplitResult(after, Piece(inner), false)
  {
    var mid := inner + "</think>" + after;
    AppendAssoc("<think>", inner, "</think>");
    AppendAssoc("<think>", inner + "</think>", after);
    OpenAtStart(mid);
    CloseAfterPlainText(inner, after);
    if after != [] {
      NoLeadInNoMatch(after, "<think>");
      OpenMissing(after);
    }
    BlockThenText(inner, after);
  }

  lemma BlockThenText(inner: string, after: string)
    ensures Then(SplitResult("", None, true), Then(SplitResult("", Piece(inner), false), SplitResult(after, None, false)))
      == SplitResult(after, Piece(inner), false)
  {
    assert "" + ("" + after) == after;
  }

  /** The splitter on the example of a reply that thinks first and then answers. */
  lemma CompleteBlockExample(raw: string, thought: string, answer: string)
    requires thought == "I need to think" && answer == "The answer."
    requires raw == "<think>" + thought + "</think>" + answer
    ensures ThinkingSplit(raw, false) == SplitResult(answer, Some(thought), false)
  {
    CompleteBlockAtStart(thought, answer);
  }

  /** The two fields of Ollama's `message` that are read; absent ones default to empty and to `None`. */
  datatype OllamaMessage = OllamaMessage(content: string, thinking: Option<string>)

  datatype OllamaChunkResponse = OllamaChunkResponse(message: OllamaMessage)

  /** One delivery of the response body: its text, or the message of the transport error. */
  type Delivery = Result<string, string>

  /** The JSON reader: the response document a text holds, or `None` when it holds none. */
  type Parser = string -> Option<OllamaChunkResponse>

  /** The items one delivery yields, with the flag it leaves for the next. */
  datatype ChunkOutcome = ChunkOutcome(items: seq<Item>, inThinking: bool)

  /** The chunks a split is passed on as: its thinking first, if not empty, then its content, if not empty. */
  function SplitChunks(s: SplitResult): (r: seq<Item>)
    ensures |r| <= 2
    ensures forall i :: 0 <= i < |r| ==> r[i].Ok? && r[i].value.text != ""
    ensures s.content != "" <==> |r| > 0 && r[|r| - 1] == Ok(Content(s.content))
    ensures s.thinking.Some? && s.thinking.value != "" <==> |r| > 0 && r[0].value.Thinking?
    ensures s.thinking.Some? && s.thinking.value != "" ==> |r| > 0 && r[0] == Ok(Thinking(s.thinking.value))
  {
    (if s.thinking.Some? && s.thinking.value != "" then [Ok(Thinking(s.thinking.value))] else [])
    + (if s.content != "" then [Ok(Content(s.content))] else [])
  }

  /**
   * Folding the chunks of a split onto earlier items adds its content to the
   * content and its thinking, if any, to the thinking.
   */
  lemma FoldSplitChunks(x: seq<Item>, s: SplitResult)
    requires s.thinking.Some? ==> s.thinking.value != ""
    ensures Lossy(x + SplitChunks(s)) ==
      Aggregated(Lossy(x).content + s.content, AppendOpt(Lossy(x).thinking, s.thinking))
  {
    var thought := if s.thinking.Some? then [Thinking(s.thinking.value)] else [];
    var answer := if s.content != "" then [Content(s.content)] else [];
    SplitChunksOks(s);
    OksAppend(x, SplitChunks(s));
    AppendAssoc(Oks(x), thought, answer);
    FoldThinkingOpt(Oks(x), s.thinking);
    FoldContentOpt(Oks(x) + thought, s.content);
  }

  lemma SplitChunksOks(s: SplitResult)
    requires s.thinking.Some? ==> s.thinking.value != ""
    ensures Oks(SplitChunks(s)) ==
      (if s.thinking.Some? then [Thinking(s.thinking.value)] else []) + (if s.content != "" then [Content(s.content)] else [])
  {
    OksOfErrorFree(SplitChunks(s));
  }

  /** Folding an optional thinking chunk appends it to the thinking. */
  lemma FoldThinkingOpt(before: seq<ChatChunk>, t: Option<string>)
    ensures Fold(before + (if t.Some? then [Thinking(t.value)] else [])) ==
      Aggregated(Fold(before).content, AppendOpt(Fold(before).thinking, t))
  {
    if t.Some? {
      FoldSnoc(before, Thinking(t.value));
    } else {
      assert before + [] == before;
    }
  }

  /** Folding a content chunk, present when its text is not empty, appends that text to the content. */
  lemma FoldContentOpt(before: seq<ChatChunk>, c: string)
    ensures Fold(before + (if c != "" then [Content(c)] else [])) == Aggregated(Fold(before).content + c, Fold(before).thinking)
  {
    if c != "" {
      FoldSnoc(before, Content(c));
    } else {
      assert before + [] == before;
      assert Fold(before).content + c == Fold(before).content;
    }
  }

  /**
   * `parse_chunk` as a function of the delivery and the flag: a failed
   * delivery or a document that does not parse is one error and keeps the
   * flag; a non-empty structured `thinking` field is passed on with the raw
   * content and keeps the flag; otherwise the content is split on its tags.
   */
  function ParsedChunk(delivery: Delivery, inThinking: bool, parse: Parser): (r: ChunkOutcome)
    ensures delivery.Err? ==>
      r == ChunkOutcome([Err(CoreChat.ParseError(CoreChat.Transport(delivery.error)))], inThinking)
    ensures delivery.Ok? && parse(delivery.value).None? ==>
      r == ChunkOutcome([Err(CoreChat.ParseError(CoreChat.InvalidJson))], inThinking)
    ensures |r.items| <= 2
    ensures delivery.Ok? && parse(delivery.value).Some? ==> r == MessageChunks(parse(delivery.value).value.message, inThinking)
  {
    match delivery
    case Err(reason) => ChunkOutcome([Err(CoreChat.ParseError(CoreChat.Transport(reason)))], inThinking)
    case Ok(text) =>
      match parse(text)
      case None => ChunkOutcome([Err(CoreChat.ParseError(CoreChat.InvalidJson))], inThinking)
      case Some(response) => MessageChunks(response.message, inThinking)
  }

  /**
   * The items of a parsed message: a non-empty structured thinking field is
   * passed on with the content and leaves the flag alone; otherwise the
   * content goes through the splitter, which updates the flag.
   */
  function MessageChunks(m: OllamaMessage, inThinking: bool): (r: ChunkOutcome)
    ensures |r.items| <= 2
    ensures forall i :: 0 <= i < |r.items| ==> r.items[i].Ok?
    ensures m.thinking.Some? && m.thinking.value != "" ==>
      r.inThinking == inThinking && |r.items| >= 1 && r.items[0] == Ok(Thinking(m.thinking.value)) &&
      (|r.items| == 2 <==> m.content != "") &&
      (m.content != "" ==> r.items[1] == Ok(Content(m.content)))
    ensures !(m.thinking.Some? && m.thinking.value != "") ==>
      var s := ThinkingSplit(m.content, inThinking);
      r.inThinking == s.inThinking && Lossy(r.items) == Aggregated(s.content, s.thinking)
  {
    if m.thinking.Some? && m.thinking.value != "" then
      StructuredOutcome(m, inThinking);
      ChunkOutcome(SplitChunks(SplitResult(m.content, m.thinking, inThinking)), inThinking)
    else
      SplitOutcome(m.content, inThinking);
      var s := ThinkingSplit(m.content, inThinking);
      ChunkOutcome(SplitChunks(s), s.inThinking)
  }

  /** A structured thinking text comes first, and the content, if any, second; the flag is kept. */
  lemma StructuredOutcome(m: OllamaMessage, inThinking: bool)
    requires m.thinking.Some? && m.thinking.value != ""
    ensures var r := ChunkOutcome(SplitChunks(SplitResult(m.content, m.thinking, inThinking)), inThinking);
      |r.items| <= 2 && (forall i :: 0 <= i < |r.items| ==> r.items[i].Ok?) &&
      r.inThinking == inThinking && |r.items| >= 1 && r.items[0] == Ok(Thinking(m.thinking.value)) &&
      (|r.items| == 2 <==> m.content != "") &&
      (m.content != "" ==> r.items[1] == Ok(Content(m.content)))
  {
  }

  /** The chunks of the split content aggregate to the split, and the flag is the splitter's. */
  lemma SplitOutcome(content: string, inThinking: bool)
    ensures var s := ThinkingSplit(content, inThinking);
      var r := ChunkOutcome(SplitChunks(s), s.inThinking);
      |r.items| <= 2 && (forall i :: 0 <= i < |r.items| ==> r.items[i].Ok?) &&
      r.inThinking == s.inThinking && Lossy(r.items) == Aggregated(s.content, s.thinking)
  {
    ThinkingSplitNonEmpty(content, inThinking);
    SplitChunksAggregate(ThinkingSplit(content, inThinking));
  }

  /** The chunks of a split aggregate to its content and its thinking. */
  lemma SplitChunksAggregate(s: SplitResult)
    requires s.thinking.Some? ==> s.thinking.value != ""
    ensures Lossy(SplitChunks(s)) == Aggregated(s.content, s.thinking)
  {
    FoldSplitChunks([], s);
    assert [] + SplitChunks(s) == SplitChunks(s);
  }

  /** `parse_chunk`: builds the delivery's items by pushing them, and updates the flag in place. */
  method ParseChunk(delivery: Delivery, inThinking: bool, parse: Parser) returns (items: seq<Item>, stillThinking: bool)
    ensures ChunkOutcome(items, stillThinking) == ParsedChunk(delivery, inThinking, parse)
  {
    stillThinking := inThinking;
    if delivery.Err? {
      return [Err(CoreChat.ParseError(CoreChat.Transport(delivery.error)))], stillThinking;
    }
    var response := parse(delivery.value);
    if response.None? {
      return [Err(CoreChat.ParseError(CoreChat.InvalidJson))], stillThinking;
    }
    var message := response.value.message;
    items := [];
    if message.thinking.Some? {
      var thinking := message.thinking.value;
      if thinking != "" {
        items := items + [Ok(Thinking(thinking))];
        if message.content != "" {
          items := items + [Ok(Content(message.content))];
        }
        StructuredItems(message, inThinking);
        return;
      }
    }
    var content, thinking;
    content, thinking, stillThinking := SplitThinking(message.content, stillThinking);
    if thinking.Some? {
      if thinking.value != "" {
        items := items + [Ok(Thinking(thinking.value))];
      }
    }
    ghost var thought := items;
    assert thought == if thinking.Some? && thinking.value != "" then [Ok(Thinking(thinking.value))] else [];
    if content != "" {
      items := items + [Ok(Content(content))];
    }
    assert items == thought + if content != "" then [Ok(Content(content))] else [];
    SplitItems(message, inThinking);
  }

  lemma StructuredItems(m: OllamaMessage, inThinking: bool)
    requires m.thinking.Some? && m.thinking.value != ""
    ensures MessageChunks(m, inThinking) ==
      ChunkOutcome([] + [Ok(Thinking(m.thinking.value))] + (if m.content != "" then [Ok(Content(m.content))] else []), inThinking)
  {
  }

  lemma SplitItems(m: OllamaMessage, inThinking: bool)
    requires !(m.thinking.Some? && m.thinking.value != "")
    ensures MessageChunks(m, inThinking) ==
      ChunkOutcome(SplitChunks(ThinkingSplit(m.content, inThinking)), ThinkingSplit(m.content, inThinking).inThinking)
  {
  }

  /**
   * The `scan` over the deliveries followed by `flat_map`: each delivery's
   * items in delivery order, with the flag threaded from one delivery to the
   * next.
   */
  function DecodedFrom(deliveries: seq<Delivery>, inThinking: bool, parse: Parser): ChunkOutcome
  {
    if deliveries == [] then ChunkOutcome([], inThinking)
    else
      var prev := DecodedFrom(deliveries[..|deliveries| - 1], inThinking, parse);
      var last := ParsedChunk(deliveries[|deliveries| - 1], prev.inThinking, parse);
      ChunkOutcome(prev.items + last.items, last.inThinking)
  }

  /** The response stream of `chat`: the flag starts clear and is carried by the scan. */
  method DecodeStream(deliveries: seq<Delivery>, parse: Parser) returns (items: seq<Item>)
    ensures items == DecodedFrom(deliveries, false, parse).items
  {
    var inThinking := false;
    items := [];
    for i := 0 to |deliveries|
      invariant ChunkOutcome(items, inThinking) == DecodedFrom(deliveries[..i], false, parse)
    {
      assert deliveries[..i + 1][..i] == deliveries[..i];
      var chunkItems;
      chunkItems, inThinking := ParseChunk(deliveries[i], inThinking, parse);
      items := items + chunkItems;
    }
    assert deliveries[..|deliveries|] == deliveries;
  }

  /** Every delivery arrived, parsed, and carries no structured thinking. */
  predicate Plain(deliveries: seq<Delivery>, parse: Parser) {
    forall i :: 0 <= i < |deliveries| ==>
      deliveries[i].Ok? && parse(deliveries[i].value).Some? &&
      OrEmpty(parse(deliveries[i].value).value.message.thinking) == ""
  }

  /** The message contents of plain deliveries, in order. */
  function Contents(deliveries: seq<Delivery>, parse: Parser): (r: seq<string>)
    requires Plain(deliveries, parse)
    ensures |r| == |deliveries|
    ensures forall i :: 0 <= i < |r| ==> r[i] == parse(deliveries[i].value).value.message.content
  {
    seq(|deliveries|, i requires 0 <= i < |deliveries| => parse(deliveries[i].value).value.message.content)
  }

  /** No marker straddles the boundary between a delivery's text and all the text before it. */
  predicate Seamless(pieces: seq<string>) {
    forall i :: 0 < i < |pieces| ==> NoMarkerStraddles(Concat(pieces[..i]), pieces[i])
  }

  /** What the stream's aggregate and final flag are for the split of a whole text. */
  predicate AgreesWithSplit(d: ChunkOutcome, s: SplitResult) {
    d.inThinking == s.inThinking &&
    Strict(d.items) == Ok(Lossy(d.items)) &&
    Lossy(d.items) == Aggregated(s.content, s.thinking)
  }

  lemma PlainPrefix(deliveries: seq<Delivery>, parse: Parser, n: nat)
    requires Plain(deliveries, parse) && n <= |deliveries|
    ensures Plain(deliveries[..n], parse)
    ensures Contents(deliveries[..n], parse) == Contents(deliveries, parse)[..n]
  {
  }

  lemma SeamlessPrefix(pieces: seq<string>, n: nat)
    requires Seamless(pieces) && n <= |pieces|
    ensures Seamless(pieces[..n])
  {
    forall i | 0 < i < n
      ensures NoMarkerStraddles(Concat(pieces[..n][..i]), pieces[..n][i])
    {
      assert pieces[..n][..i] == pieces[..i];
    }
  }

  /** A plain delivery yields the chunks of the split of its content. */
  lemma PlainChunk(delivery: Delivery, inThinking: bool, parse: Parser)
    requires delivery.Ok? && parse(delivery.value).Some?
    requires OrEmpty(parse(delivery.value).value.message.thinking) == ""
    ensures var s := ThinkingSplit(parse(delivery.value).value.message.content, inThinking);
      ParsedChunk(delivery, inThinking, parse) == ChunkOutcome(SplitChunks(s), s.inThinking)
  {
  }

  /** Items that are all `Ok` aggregate strictly as they do lossily. */
  lemma ErrorFreeAppend(x: seq<Item>, y: seq<Item>)
    requires Strict(x) == Ok(Lossy(x))
    requires forall i :: 0 <= i < |y| ==> y[i].Ok?
    ensures Strict(x + y) == Ok(Lossy(x + y))
  {
    assert FirstError(x).None?;
    assert forall i :: 0 <= i < |x + y| ==> (x + y)[i].Ok? by {
      forall i | 0 <= i < |x + y|
        ensures (x + y)[i].Ok?
      {
        if i >= |x| {
          assert (x + y)[i] == y[i - |x|];
        }
      }
    }
    StrictIsLossyWithoutErrors(x + y);
  }

  /** One more plain delivery, whose text no marker straddles, extends the agreement. */
  lemma TransparentStep(deliveries: seq<Delivery>, parse: Parser, a: string, b: string)
    requires |deliveries| > 0 && Plain(deliveries, parse)
    requires parse(deliveries[|deliveries| - 1].value).value.message.content == b
    requires |deliveries| > 1 ==> NoMarkerStraddles(a, b)
    requires |deliveries| == 1 ==> a == ""
    requires AgreesWithSplit(DecodedFrom(deliveries[..|deliveries| - 1], false, parse), ThinkingSplit(a, false))
    ensures AgreesWithSplit(DecodedFrom(deliveries, false, parse), ThinkingSplit(a + b, false))
  {
    var n := |deliveries| - 1;
    var prev := DecodedFrom(deliveries[..n], false, parse);
    var sa := ThinkingSplit(a, false);
    var sb := ThinkingSplit(b, sa.inThinking);
    assert ThinkingSplit(a + b, false) == Then(sa, sb) by {
      if n > 0 {
        ThinkingSplitAppend(a, b, false);
      } else {
        assert a + b == b;
      }
    }
    assert deliveries[n].Ok? && parse(deliveries[n].value).Some?;
    PlainChunk(deliveries[n], prev.inThinking, parse);
    ThinkingSplitNonEmpty(b, sa.inThinking);
    var d := DecodedFrom(deliveries, false, parse);
    assert d == ChunkOutcome(prev.items + SplitChunks(sb), sb.inThinking);
    FoldSplitChunks(prev.items, sb);
    ErrorFreeAppend(prev.items, SplitChunks(sb));
  }

  /**
   * Threading the flag makes the division into deliveries invisible: when
   * every delivery is plain and no marker is cut by a delivery boundary, the
   * aggregate of the stream is the split of the whole text at once, and the
   * flag ends as that split leaves it.
   */
  lemma {:induction false} ChunkingIsTransparent(deliveries: seq<Delivery>, parse: Parser)
    requires Plain(deliveries, parse) && Seamless(Contents(deliveries, parse))
    ensures AgreesWithSplit(DecodedFrom(deliveries, false, parse), ThinkingSplit(Concat(Contents(deliveries, parse)), false))
  {
    var pieces := Contents(deliveries, parse);
    if deliveries == [] {
      assert Concat(pieces) == "";
      assert Lossy([]) == Aggregated("", None);
    } else {
      var n := |deliveries| - 1;
      PlainPrefix(deliveries, parse, n);
      SeamlessPrefix(pieces, n);
      ChunkingIsTransparent(deliveries[..n], parse);
      assert Concat(pieces) == Concat(pieces[..n]) + pieces[n];
      TransparentStep(deliveries, parse, Concat(pieces[..n]), pieces[n]);
    }
  }

  /** A response of one delivery: its items are those of that delivery, from a clear flag. */
  lemma SingleDelivery(delivery: Delivery, parse: Parser)
    ensures DecodedFrom([delivery], false, parse) == ParsedChunk(delivery, false, parse)
  {
    assert [delivery][..0] == [];
  }

  /**
   * A non-empty structured `thinking` field takes priority: the aggregate of
   * a one-delivery response is that thinking, with the content left as it
   * came, tags included.
   */
  lemma StructuredFieldTakesPriority(text: string, parse: Parser, content: string, thinking: string)
    requires thinking != ""
    requires parse(text) == Some(OllamaChunkResponse(OllamaMessage(content, Some(thinking))))
    ensures Strict(DecodedFrom([Ok(text)], false, parse).items) == Ok(Aggregated(content, Some(thinking)))
  {
    SingleDelivery(Ok(text), parse);
    var s := SplitResult(content, Some(thinking), false);
    assert ParsedChunk(Ok(text), false, parse).items == SplitChunks(s);
    FoldSplitChunks([], s);
    assert [] + SplitChunks(s) == SplitChunks(s);
    assert Lossy([]) == Aggregated("", None);
    assert "" + content == content;
    assert Lossy(SplitChunks(s)) == Aggregated(content, Some(thinking));
    StrictIsLossyWithoutErrors(SplitChunks(s));
  }

  /**
   * An empty structured `thinking` field counts as absent: the content's
   * tags are parsed, and a complete block becomes the thinking.
   */
  lemma EmptyThinkingFieldFallsBack(text: string, parse: Parser, inner: string, after: string)
    requires '<' !in inner && '<' !in after && inner != ""
    requires parse(text) == Some(OllamaChunkResponse(OllamaMessage("<think>" + inner + "</think>" + after, Some(""))))
    ensures Strict(DecodedFrom([Ok(text)], false, parse).items) == Ok(Aggregated(after, Some(inner)))
  {
    SingleDelivery(Ok(text), parse);
    CompleteBlockAtStart(inner, after);
    var items := ParsedChunk(Ok(text), false, parse).items;
    StrictIsLossyWithoutErrors(items);
  }
}
