/**
 * Display names for models: `Model::name` prettifies a model identifier such as
 * `library/llama-3-1_instruct:latest`, `ModelParams::new` and `ModelQuant::new`
 * normalise the parameter-count and quantisation labels, and `Model::to_string`
 * puts the three together. Case mapping is ASCII only.
 */
module ModelName {
  import opened Wrappers
  import opened Strings

  /** A model as a listing reports it; the thinking modes are not part of this model. */
  datatype Model = Model(id: string, parameters: Option<ModelParams>, quantization: Option<ModelQuant>)

  datatype ModelParams = ModelParams(text: string)

  datatype ModelQuant = ModelQuant(text: string)

  // ---------------------------------------------------------------------------
  // Model::name

  /** `REPLACEMENT_WORDS`: lower-case words with a fixed spelling. */
  const ReplacementWords: map<string, string> := map[
    "ai" := "AI", "api" := "API", "gpt" := "GPT", "lm" := "LM", "llm" := "LLM",
    "moe" := "MoE", "oss" := "OSS", "sd" := "SD", "sdxl" := "SDXL", "vlm" := "VLM",
    "xl" := "XL", "xxl" := "XXL"]

  /** The identifier up to its first `:`, which starts the tag. */
  function WithoutTag(id: string): (r: string)
    ensures StartsWith(id, r) && !Contains(r, ":")
    ensures Contains(id, ":") || r == id
    ensures Contains(id, ":") ==> |r| < |id| && id[|r|] == ':'
  {
    match SplitOnce(id, ":")
    case None => id
    case Some((name, _)) =>
      assert id[..|name|] == name by {
        assert id == name + (":" + SplitOnce(id, ":").value.1);
      }
      assert id[|name|] == ':' by {
        assert id == name + (":" + SplitOnce(id, ":").value.1);
      }
      name
  }

  predicate IsPathSeparator(c: char) {
    c == '/' || c == '\\'
  }

  /** `rfind(['/', '\\'])`: the index of the last path separator. */
  function LastPathSeparator(s: string): (r: Option<nat>)
    ensures r.Some? ==> r.value < |s| && IsPathSeparator(s[r.value])
    ensures r.Some? ==> forall j :: r.value < j < |s| ==> !IsPathSeparator(s[j])
    ensures r.None? ==> forall j :: 0 <= j < |s| ==> !IsPathSeparator(s[j])
  {
    if s == [] then None
    else if IsPathSeparator(s[|s| - 1]) then Some(|s| - 1)
    else LastPathSeparator(s[..|s| - 1])
  }

  /** The text after the last path separator, or all of it when there is none. */
  function BaseName(s: string): (r: string)
    ensures EndsWith(s, r)
    ensures forall j :: 0 <= j < |r| ==> !IsPathSeparator(r[j])
    ensures |r| < |s| ==> IsPathSeparator(s[|s| - |r| - 1])
  {
    match LastPathSeparator(s)
    case None => s
    case Some(pos) => s[pos + 1..]
  }

  /** The character that replaces `b[i]`: `_` and `-` become spaces, except that a `-` between two digits becomes `.`. */
  function SpacedChar(b: string, i: nat): char
    requires i < |b|
  {
    if b[i] == '_' then ' '
    else if b[i] == '-' then
      if i > 0 && IsAsciiDigit(b[i - 1]) && i + 1 < |b| && IsAsciiDigit(b[i + 1]) then '.' else ' '
    else b[i]
  }

  function Spaced(b: string): (r: string)
    ensures |r| == |b|
    ensures forall i :: 0 <= i < |b| ==> r[i] == SpacedChar(b, i)
  {
    seq(|b|, i requires 0 <= i < |b| => SpacedChar(b, i))
  }

  /** No `_` or `-` survives spacing, and every other character is kept in place. */
  lemma SpacedHasNoSeparators(b: string)
    ensures forall i :: 0 <= i < |b| ==> Spaced(b)[i] != '_' && Spaced(b)[i] != '-'
    ensures forall i :: 0 <= i < |b| && b[i] != '_' && b[i] != '-' ==> Spaced(b)[i] == b[i]
  {
  }

  /** A word's display form: its fixed spelling if it has one, else its first letter capitalised. */
  function PrettyWord(w: string): string {
    if Lower(w) in ReplacementWords then ReplacementWords[Lower(w)]
    else if w == [] then []
    else [AsciiUpper(w[0])] + w[1..]
  }

  function PrettyWords(ws: seq<string>): (r: seq<string>)
    ensures |r| == |ws|
    ensures forall i :: 0 <= i < |ws| ==> r[i] == PrettyWord(ws[i])
  {
    seq(|ws|, i requires 0 <= i < |ws| => PrettyWord(ws[i]))
  }

  /** The words of an identifier, before prettifying. */
  function RawWords(id: string): seq<string> {
    Words(Spaced(BaseName(WithoutTag(id))))
  }

  /** `Model::name` as a function of the identifier. */
  function PrettyName(id: string): string {
    Join(PrettyWords(RawWords(id)), " ")
  }

  /** `Model::name`, with its two loops. */
  method Name(id: string) returns (result: string)
    ensures result == PrettyName(id)
  {
    var base := BaseName(WithoutTag(id));
    var spaced := SpaceSeparators(base);
    result := CapitalizeWords(Words(spaced));
  }

  /** The first loop of `Model::name`: each separator becomes a space or, between digits, a `.`. */
  method SpaceSeparators(base: string) returns (spaced: string)
    ensures spaced == Spaced(base)
  {
    spaced := "";
    for i := 0 to |base|
      invariant |spaced| == i
      invariant forall j :: 0 <= j < i ==> spaced[j] == SpacedChar(base, j)
    {
      var c := base[i];
      var out: char;
      if c == '_' {
        out := ' ';
      } else if c == '-' {
        var prevDigit := i > 0 && IsAsciiDigit(base[i - 1]);
        var nextDigit := i + 1 < |base| && IsAsciiDigit(base[i + 1]);
        if prevDigit && nextDigit {
          out := '.';
        } else {
          out := ' ';
        }
      } else {
        out := c;
      }
      assert out == SpacedChar(base, i);
      spaced := spaced + [out];
    }
  }

  /** The second loop of `Model::name`: the words, prettified and joined by single spaces. */
  method CapitalizeWords(words: seq<string>) returns (result: string)
    ensures result == Join(PrettyWords(words), " ")
  {
    result := "";
    for i := 0 to |words|
      invariant result == Join(PrettyWords(words[..i]), " ")
    {
      var word := words[i];
      var piece;
      if Lower(word) in ReplacementWords {
        piece := ReplacementWords[Lower(word)];
      } else if word != [] {
        piece := [AsciiUpper(word[0])] + word[1..];
      } else {
        piece := [];
      }
      assert piece == PrettyWord(word);
      PrettyJoinStep(words, i);
      if i > 0 {
        result := result + " " + piece;
      } else {
        result := result + piece;
      }
    }
    assert words[..|words|] == words;
  }

  /** One more prettified word joins the text with a space in front of it, or starts it. */
  lemma PrettyJoinStep(ws: seq<string>, i: nat)
    requires i < |ws|
    ensures Join(PrettyWords(ws[..i + 1]), " ") ==
      if i > 0 then Join(PrettyWords(ws[..i]), " ") + " " + PrettyWord(ws[i]) else "" + PrettyWord(ws[i])
  {
    PrettyWordsSnoc(ws, i);
    if i > 0 {
      JoinSnoc(PrettyWords(ws[..i]), PrettyWord(ws[i]), " ");
    } else {
      assert PrettyWords(ws[..i + 1]) == [PrettyWord(ws[i])];
    }
  }

  lemma PrettyWordsSnoc(ws: seq<string>, i: nat)
    requires i < |ws|
    ensures PrettyWords(ws[..i + 1]) == PrettyWords(ws[..i]) + [PrettyWord(ws[i])]
  {
  }

  /** The fixed spellings are non-empty and hold no whitespace. */
  lemma ReplacementsAreWords()
    ensures forall k :: k in ReplacementWords ==> ReplacementWords[k] != [] && NoWhitespace(ReplacementWords[k])
  {
  }

  /** Prettifying a word keeps it a single non-empty word. */
  lemma PrettyWordIsWord(w: string)
    requires w != [] && NoWhitespace(w)
    ensures PrettyWord(w) != [] && NoWhitespace(PrettyWord(w))
  {
    ReplacementsAreWords();
    if Lower(w) !in ReplacementWords {
      var p := [AsciiUpper(w[0])] + w[1..];
      forall i | 0 <= i < |p|
        ensures !IsWhitespace(p[i])
      {
        if i > 0 {
          assert p[i] == w[i];
        }
      }
    }
  }

  /**
   * The name is its prettified words separated by single spaces: splitting it
   * on whitespace gives back exactly those words, so there is no leading,
   * trailing or doubled space.
   */
  lemma NameIsSpaceSeparatedWords(id: string)
    ensures Words(PrettyName(id)) == PrettyWords(RawWords(id))
  {
    var ws := RawWords(id);
    forall k | 0 <= k < |ws|
      ensures PrettyWords(ws)[k] != [] && NoWhitespace(PrettyWords(ws)[k])
    {
      PrettyWordIsWord(ws[k]);
    }
    WordsOfJoin(PrettyWords(ws));
  }

  /** Every space in `r` has a non-space on both sides: no leading, trailing or doubled space. */
  predicate SingleSpaced(r: string) {
    forall i :: 0 <= i < |r| && r[i] == ' ' ==> 0 < i < |r| - 1 && r[i - 1] != ' ' && r[i + 1] != ' '
  }

  /** A word in front of a single-spaced text that starts with a non-space keeps it single-spaced. */
  lemma SingleSpacedCons(w: string, rest: string)
    requires w != [] && NoWhitespace(w)
    requires rest != [] && rest[0] != ' ' && SingleSpaced(rest)
    ensures SingleSpaced(w + " " + rest)
  {
    var r := w + " " + rest;
    forall i | 0 <= i < |r|
      ensures r[i] == ' ' ==> 0 < i < |r| - 1 && r[i - 1] != ' ' && r[i + 1] != ' '
    {
      if i < |w| {
        assert r[i] == w[i] && !IsWhitespace(w[i]);
      } else if i == |w| {
        assert r[i - 1] == w[|w| - 1] && !IsWhitespace(w[|w| - 1]);
        assert r[i + 1] == rest[0];
      } else {
        var j := i - |w| - 1;
        assert r[i] == rest[j];
        if r[i] == ' ' {
          assert 0 < j < |rest| - 1;
          assert r[i - 1] == rest[j - 1];
          assert r[i + 1] == rest[j + 1];
        }
      }
    }
  }

  /** Words joined by single spaces are single-spaced and start with a non-space. */
  lemma {:induction false} JoinedWordsSpacing(ws: seq<string>)
    requires forall k :: 0 <= k < |ws| ==> ws[k] != [] && NoWhitespace(ws[k])
    decreases |ws|
    ensures SingleSpaced(Join(ws, " "))
    ensures ws != [] ==> Join(ws, " ") != [] && Join(ws, " ")[0] != ' '
  {
    if |ws| == 1 {
      assert Join(ws, " ") == ws[0];
      assert NoWhitespace(ws[0]);
      assert !IsWhitespace(ws[0][0]);
      forall i | 0 <= i < |ws[0]|
        ensures ws[0][i] != ' '
      {
        assert !IsWhitespace(ws[0][i]);
      }
    } else if |ws| > 1 {
      var w := ws[0];
      assert NoWhitespace(w) && w != [];
      JoinedWordsSpacing(ws[1..]);
      SingleSpacedCons(w, Join(ws[1..], " "));
      assert Join(ws, " ") == w + " " + Join(ws[1..], " ");
      assert !IsWhitespace(w[0]);
    }
  }

  /** The prettified name has no leading, trailing or doubled space. */
  lemma NameSpacing(id: string)
    ensures SingleSpaced(PrettyName(id))
  {
    var ws := PrettyWords(RawWords(id));
    forall k | 0 <= k < |ws|
      ensures ws[k] != [] && NoWhitespace(ws[k])
    {
      PrettyWordIsWord(RawWords(id)[k]);
    }
    JoinedWordsSpacing(ws);
  }

  /** Each fixed spelling differs from its key only in letter case. */
  lemma ReplacementsKeepLetters()
    ensures forall k :: k in ReplacementWords ==> Lower(ReplacementWords[k]) == k
  {
    forall k | k in ReplacementWords
      ensures Lower(ReplacementWords[k]) == k
    {
      var v := ReplacementWords[k];
      assert |Lower(v)| == |k|;
      assert forall i :: 0 <= i < |k| ==> Lower(v)[i] == k[i];
    }
  }

  /** Prettifying a word changes at most the case of its letters. */
  lemma PrettyWordOnlyChangesCase(w: string)
    ensures Lower(PrettyWord(w)) == Lower(w)
  {
    if Lower(w) in ReplacementWords {
      ReplacementsKeepLetters();
    } else if w != [] {
      var p := [AsciiUpper(w[0])] + w[1..];
      assert Lower(p)[0] == Lower(w)[0];
      assert forall i :: 0 < i < |w| ==> Lower(p)[i] == AsciiLower(w[i]);
    }
  }

  // ---------------------------------------------------------------------------
  // ModelParams::new, ModelQuant::new

  /** `ModelParams::new`: the label in upper case. */
  function NewParams(s: string): (r: ModelParams)
    ensures |r.text| == |s|
    ensures forall i :: 0 <= i < |s| ==> r.text[i] == AsciiUpper(s[i])
  {
    ModelParams(Upper(s))
  }

  /** Normalising a parameter label twice changes nothing. */
  lemma NewParamsIdempotent(s: string)
    ensures NewParams(NewParams(s).text) == NewParams(s)
  {
    var u := Upper(s);
    assert Upper(u) == u;
  }

  predicate IsQuantSeparator(c: char) {
    c == '_' || c == '-'
  }

  /** The index of the first `_` or `-`. */
  function FirstSeparator(s: string): (r: Option<nat>)
    ensures r.Some? ==> r.value < |s| && IsQuantSeparator(s[r.value])
    ensures r.Some? ==> forall j :: 0 <= j < r.value ==> !IsQuantSeparator(s[j])
    ensures r.None? ==> forall j :: 0 <= j < |s| ==> !IsQuantSeparator(s[j])
  {
    if s == [] then None
    else
      var init := s[..|s| - 1];
      if FirstSeparator(init).Some? then FirstSeparator(init)
      else if IsQuantSeparator(s[|s| - 1]) then Some(|s| - 1)
      else None
  }

  /** `s` without its `_` and `-` characters. */
  function DropSeparators(s: string): string {
    if s == [] then []
    else DropSeparators(s[..|s| - 1]) + (if IsQuantSeparator(s[|s| - 1]) then [] else [s[|s| - 1]])
  }

  /** The first separator becomes `:`, the later ones are dropped, everything else is kept in order. */
  function Normalized(s: string): string {
    match FirstSeparator(s)
    case None => s
    case Some(i) => s[..i] + ":" + DropSeparators(s[i + 1..])
  }

  lemma FirstSeparatorSnoc(p: string, c: char)
    ensures FirstSeparator(p + [c])
      == if FirstSeparator(p).Some? then FirstSeparator(p)
         else if IsQuantSeparator(c) then Some(|p|) else None
  {
    assert (p + [c])[..|p + [c]| - 1] == p;
  }

  lemma DropSeparatorsSnoc(t: string, c: char)
    ensures DropSeparators(t + [c]) == DropSeparators(t) + (if IsQuantSeparator(c) then [] else [c])
  {
    assert (t + [c])[..|t + [c]| - 1] == t;
  }

  lemma SnocSlices(p: string, c: char, i: nat)
    requires i < |p|
    ensures (p + [c])[..i] == p[..i] && (p + [c])[i + 1..] == p[i + 1..] + [c]
  {
  }

  /** Where the label has a first separator, it becomes `:` and the later ones are dropped. */
  lemma NormalizedAt(s: string, i: nat)
    requires FirstSeparator(s) == Some(i)
    ensures Normalized(s) == s[..i] + ":" + DropSeparators(s[i + 1..])
  {
  }

  /** After the first separator, a character is appended unless it is a separator. */
  lemma NormalizedSnocAfterSeparator(p: string, c: char, i: nat)
    requires FirstSeparator(p) == Some(i)
    ensures Normalized(p + [c]) == Normalized(p) + (if IsQuantSeparator(c) then [] else [c])
  {
    var tail := p[i + 1..];
    var x: string := if IsQuantSeparator(c) then [] else [c];
    var head := p[..i] + ":";
    FirstSeparatorSnoc(p, c);
    NormalizedAt(p + [c], i);
    NormalizedAt(p, i);
    SnocSlices(p, c, i);
    DropSeparatorsSnoc(tail, c);
    AppendAssoc(head, DropSeparators(tail), x);
  }

  /** Before any separator, a separator appends `:` and any other character appends itself. */
  lemma NormalizedSnocBeforeSeparator(p: string, c: char)
    requires FirstSeparator(p).None?
    ensures Normalized(p + [c]) == p + (if IsQuantSeparator(c) then ":" else [c])
  {
    FirstSeparatorSnoc(p, c);
    if IsQuantSeparator(c) {
      NormalizedAt(p + [c], |p|);
      assert (p + [c])[..|p|] == p;
      assert (p + [c])[|p| + 1..] == [];
      assert DropSeparators([]) == [];
    }
  }

  /** What one more character does to the normalised label and to whether a separator was seen. */
  lemma NormalizedSnoc(p: string, c: char)
    ensures FirstSeparator(p + [c]).Some? <==> FirstSeparator(p).Some? || IsQuantSeparator(c)
    ensures Normalized(p + [c]) == Normalized(p) +
      (if !IsQuantSeparator(c) then [c] else if FirstSeparator(p).Some? then "" else ":")
  {
    FirstSeparatorSnoc(p, c);
    match FirstSeparator(p)
    case Some(i) => NormalizedSnocAfterSeparator(p, c, i);
    case None => NormalizedSnocBeforeSeparator(p, c);
  }

  lemma NormalizedPrefixStep(u: string, i: nat)
    requires i < |u|
    ensures FirstSeparator(u[..i + 1]).Some? <==> FirstSeparator(u[..i]).Some? || IsQuantSeparator(u[i])
    ensures Normalized(u[..i + 1]) == Normalized(u[..i]) +
      (if !IsQuantSeparator(u[i]) then [u[i]] else if FirstSeparator(u[..i]).Some? then "" else ":")
  {
    assert u[..i + 1] == u[..i] + [u[i]];
    NormalizedSnoc(u[..i], u[i]);
  }

  /** `ModelQuant::new`, with its `seen_sep` loop. */
  method NewQuant(s: string) returns (q: ModelQuant)
    ensures q.text == Normalized(Upper(s))
  {
    var uppered := Upper(s);
    var result := "";
    var seenSep := false;
    for i := 0 to |uppered|
      invariant result == Normalized(uppered[..i])
      invariant seenSep <==> FirstSeparator(uppered[..i]).Some?
    {
      var c := uppered[i];
      NormalizedPrefixStep(uppered, i);
      if c == '_' || c == '-' {
        if !seenSep {
          result := result + ":";
        }
        seenSep := true;
      } else {
        result := result + [c];
      }
    }
    assert uppered[..|uppered|] == uppered;
    q := ModelQuant(result);
  }

  lemma {:induction false} DropSeparatorsLeavesNone(s: string)
    decreases |s|
    ensures forall j :: 0 <= j < |DropSeparators(s)| ==> !IsQuantSeparator(DropSeparators(s)[j])
  {
    if s != [] {
      DropSeparatorsLeavesNone(s[..|s| - 1]);
    }
  }

  /** A normalised label contains no `_` or `-`. */
  lemma NormalizedHasNoSeparators(s: string)
    ensures forall j :: 0 <= j < |Normalized(s)| ==> !IsQuantSeparator(Normalized(s)[j])
  {
    match FirstSeparator(s)
    case None =>
    case Some(i) =>
      DropSeparatorsLeavesNone(s[i + 1..]);
      var n := Normalized(s);
      forall j | 0 <= j < |n|
        ensures !IsQuantSeparator(n[j])
      {
        if j < i {
          assert n[j] == s[j];
        } else if j > i {
          assert n[j] == DropSeparators(s[i + 1..])[j - i - 1];
        }
      }
  }

  /** Normalising a quantisation label twice changes nothing. */
  lemma NormalizedIdempotent(s: string)
    ensures Normalized(Upper(Normalized(Upper(s)))) == Normalized(Upper(s))
  {
    var n := Normalized(Upper(s));
    assert Upper(n) == n by {
      UpperOfUpperParts(Upper(s));
    }
    NormalizedHasNoSeparators(Upper(s));
    assert FirstSeparator(n).None?;
  }

  /** Normalising an upper-case text leaves it upper case. */
  lemma UpperOfUpperParts(u: string)
    requires Upper(u) == u
    ensures Upper(Normalized(u)) == Normalized(u)
  {
    var n := Normalized(u);
    forall j | 0 <= j < |n|
      ensures AsciiUpper(n[j]) == n[j]
    {
      NormalizedCharsFrom(u, j);
    }
  }

  /** Every character of a normalised text is `:` or a character of the text. */
  lemma NormalizedCharsFrom(u: string, j: nat)
    requires j < |Normalized(u)|
    ensures Normalized(u)[j] == ':' || Normalized(u)[j] in u
  {
    match FirstSeparator(u)
    case None =>
    case Some(i) =>
      PartsCharFrom(u, i, j);
  }

  /** The characters of `u[..i] + ":" + DropSeparators(u[i + 1..])` come from `u`, apart from the `:`. */
  lemma PartsCharFrom(u: string, i: nat, j: nat)
    requires i < |u| && j < |u[..i] + ":" + DropSeparators(u[i + 1..])|
    ensures (u[..i] + ":" + DropSeparators(u[i + 1..]))[j] == ':' || (u[..i] + ":" + DropSeparators(u[i + 1..]))[j] in u
  {
    var tail := u[i + 1..];
    var n := u[..i] + ":" + DropSeparators(tail);
    if j > i {
      DropSeparatorsFrom(tail, j - i - 1);
      assert n[j] == DropSeparators(tail)[j - i - 1];
      InSuffix(u, i + 1, n[j]);
    } else if j < i {
      assert n[j] == u[j];
    }
  }

  lemma InSuffix(u: string, k: nat, x: char)
    requires k <= |u| && x in u[k..]
    ensures x in u
  {
    var m :| 0 <= m < |u[k..]| && u[k..][m] == x;
    assert u[k + m] == x;
  }

  lemma {:induction false} DropSeparatorsFrom(s: string, j: nat)
    requires j < |DropSeparators(s)|
    decreases |s|
    ensures DropSeparators(s)[j] in s
  {
    var init := s[..|s| - 1];
    if j < |DropSeparators(init)| {
      DropSeparatorsFrom(init, j);
      assert DropSeparators(init)[j] in init;
    } else {
      assert DropSeparators(s)[j] == s[|s| - 1];
    }
  }

  // ---------------------------------------------------------------------------
  // Model::to_string

  /** The labels `Model::to_string` shows after the name: nothing, or the present labels in parentheses. */
  function LabelSuffix(params: Option<ModelParams>, quant: Option<ModelQuant>): (r: string)
    ensures r == "" <==> params.None? && quant.None?
    ensures params.Some? && quant.Some? ==> r == " (" + params.value.text + " " + quant.value.text + ")"
    ensures params.Some? && quant.None? ==> r == " (" + params.value.text + ")"
    ensures params.None? && quant.Some? ==> r == " (" + quant.value.text + ")"
  {
    match (params, quant)
    case (Some(p), Some(q)) => " (" + p.text + " " + q.text + ")"
    case (Some(p), None) => " (" + p.text + ")"
    case (None, Some(q)) => " (" + q.text + ")"
    case (None, None) => ""
  }

  /** `Model::to_string`: the name, then whichever of the labels are present, in parentheses. */
  function ToString(m: Model): (r: string)
    ensures StartsWith(r, PrettyName(m.id))
    ensures r[|PrettyName(m.id)|..] == LabelSuffix(m.parameters, m.quantization)
    ensures r == PrettyName(m.id) <==> m.parameters.None? && m.quantization.None?
  {
    var name := PrettyName(m.id);
    var suffix := LabelSuffix(m.parameters, m.quantization);
    assert (name + suffix)[..|name|] == name;
    assert (name + suffix)[|name|..] == suffix;
    assert name + suffix == name ==> |suffix| == 0;
    name + suffix
  }

  /**
   * The display of a model with both labels gives both back: two models of
   * the same identifier whose parameter labels hold no space display alike
   * only when their labels are equal.
   */
  lemma ToStringRecoversLabels(m1: Model, m2: Model)
    requires m1.id == m2.id
    requires m1.parameters.Some? && m1.quantization.Some?
    requires m2.parameters.Some? && m2.quantization.Some?
    requires ' ' !in m1.parameters.value.text && ' ' !in m2.parameters.value.text
    requires ToString(m1) == ToString(m2)
    ensures m1.parameters == m2.parameters && m1.quantization == m2.quantization
  {
    var n := |PrettyName(m1.id)|;
    assert LabelSuffix(m1.parameters, m1.quantization) == ToString(m1)[n..];
    BothLabelsDetermined(m1.parameters.value.text, m1.quantization.value.text,
                         m2.parameters.value.text, m2.quantization.value.text);
  }

  /** The two labels in parentheses are determined by the text when the first holds no space. */
  lemma BothLabelsDetermined(p1: string, q1: string, p2: string, q2: string)
    requires ' ' !in p1 && ' ' !in p2
    requires " (" + p1 + " " + q1 + ")" == " (" + p2 + " " + q2 + ")"
    ensures p1 == p2 && q1 == q2
  {
    ParenthesisedPair(p1, q1);
    ParenthesisedPair(p2, q2);
    SplitAtFirstSpace(p1, q1 + ")", p2, q2 + ")");
    DropClosing(q1);
    DropClosing(q2);
  }

  lemma ParenthesisedPair(p: string, q: string)
    ensures (" (" + p + " " + q + ")")[2..] == p + " " + (q + ")")
  {
  }

  lemma DropClosing(s: string)
    ensures (s + ")")[..|s|] == s
  {
  }

  /** A word without spaces, a space and a rest: the word and the rest are determined by the whole. */
  lemma SplitAtFirstSpace(w1: string, r1: string, w2: string, r2: string)
    requires ' ' !in w1 && ' ' !in w2
    requires w1 + " " + r1 == w2 + " " + r2
    ensures w1 == w2 && r1 == r2
  {
    FirstSpaceAt(w1, r1);
    FirstSpaceAt(w2, r2);
    var s := w1 + " " + r1;
    assert |w1| == |w2|;
    assert w1 == s[..|w1|];
    assert w2 == s[..|w2|];
    assert r1 == s[|w1| + 1..];
    assert r2 == s[|w2| + 1..];
  }

  /** In a word without spaces followed by a space, the first space is right after the word. */
  lemma FirstSpaceAt(w: string, rest: string)
    requires ' ' !in w
    ensures var s := w + " " + rest;
      |w| < |s| && s[|w|] == ' ' && (forall i :: 0 <= i < |w| ==> s[i] != ' ')
  {
    var s := w + " " + rest;
    forall i | 0 <= i < |w|
      ensures s[i] != ' '
    {
      assert s[i] == w[i];
    }
  }
}
