/**
 * The parts of Rust's `str` API that the crates rely on, as functions over
 * `seq<char>`: substring search (`find`), splitting on a non-empty pattern
 * (`split`, `split_once`), prefix tests, trimming with `char::is_whitespace`,
 * `split_whitespace`, and ASCII case mapping.
 */
module Strings {
  import opened Wrappers

  /** Concatenation is associative; stated once so that proofs need not rediscover it. */
  lemma AppendAssoc<T>(a: seq<T>, b: seq<T>, c: seq<T>)
    ensures (a + b) + c == a + (b + c)
  {
  }

  /** `pat` occurs in `s` starting at index `i`. */
  predicate OccursAt(s: string, pat: string, i: nat) {
    i + |pat| <= |s| && s[i..i + |pat|] == pat
  }

  predicate Contains(s: string, pat: string) {
    exists i: nat :: i <= |s| && OccursAt(s, pat, i)
  }

  /** The first occurrence of `pat` in `s` at or after `i`. */
  function FindFrom(s: string, pat: string, i: nat): (r: Option<nat>)
    requires i <= |s|
    decreases |s| - i
    ensures r.Some? ==> i <= r.value && OccursAt(s, pat, r.value)
    ensures r.Some? ==> forall j: nat :: i <= j < r.value ==> !OccursAt(s, pat, j)
    ensures r.None? ==> forall j: nat :: i <= j ==> !OccursAt(s, pat, j)
  {
    if OccursAt(s, pat, i) then Some(i)
    else if i == |s| then None
    else FindFrom(s, pat, i + 1)
  }

  /** `str::find`: the index of the first occurrence of `pat`, if any. */
  function Find(s: string, pat: string): (r: Option<nat>)
    ensures r.Some? ==> OccursAt(s, pat, r.value)
    ensures r.Some? ==> forall j: nat :: j < r.value ==> !OccursAt(s, pat, j)
    ensures r.None? <==> !Contains(s, pat)
  {
    FindFrom(s, pat, 0)
  }

  /** An occurrence that `find` reports lies wholly inside the text. */
  lemma FoundFits(s: string, pat: string, k: nat)
    requires Find(s, pat) == Some(k)
    ensures k + |pat| <= |s|
  {
  }

  /** An occurrence with none before it is the one `find` reports. */
  lemma FindIs(s: string, pat: string, k: nat)
    requires OccursAt(s, pat, k)
    requires forall j: nat :: j < k ==> !OccursAt(s, pat, j)
    ensures Find(s, pat) == Some(k)
  {
  }

  /** A pattern that occurs nowhere is not found. */
  lemma FindNone(s: string, pat: string)
    requires forall j: nat :: !OccursAt(s, pat, j)
    ensures Find(s, pat) == None
  {
  }

  /** The text before the first occurrence of a pattern does not contain it. */
  lemma BeforeFirstHasNone(s: string, pat: string, k: nat)
    requires pat != [] && k <= |s|
    requires forall j: nat :: j < k ==> !OccursAt(s, pat, j)
    ensures !Contains(s[..k], pat)
  {
    forall j: nat | OccursAt(s[..k], pat, j)
      ensures false
    {
      assert s[..k][j..j + |pat|] == s[j..j + |pat|];
      assert OccursAt(s, pat, j);
    }
  }

  /** A text without the first character of a pattern does not contain it. */
  lemma NoLeadInNoMatch(s: string, pat: string)
    requires pat != [] && pat[0] !in s
    ensures !Contains(s, pat)
  {
    forall i: nat | i + |pat| <= |s|
      ensures !OccursAt(s, pat, i)
    {
      assert s[i] in s;
    }
  }

  /** A pattern that begins the text is found at index 0. */
  lemma FindAtStart(s: string, pat: string)
    requires OccursAt(s, pat, 0)
    ensures Find(s, pat) == Some(0)
  {
  }

  /** A pattern after a text without the pattern's first character is found right after that text. */
  lemma FindAfterFree(t: string, pat: string, e: string)
    requires pat != [] && pat[0] !in t
    ensures Find(t + pat + e, pat) == Some(|t|)
  {
    var s := t + pat + e;
    assert s[|t|..|t| + |pat|] == pat;
    assert OccursAt(s, pat, |t|);
    forall j: nat | j < |t|
      ensures !OccursAt(s, pat, j)
    {
      assert s[j] == t[j] && t[j] in t;
    }
    assert Find(s, pat).Some?;
  }

  /** `pieces` joined with `sep` between neighbours (`[...].join(sep)`). */
  function Join(pieces: seq<string>, sep: string): string
  {
    if pieces == [] then ""
    else if |pieces| == 1 then pieces[0]
    else pieces[0] + sep + Join(pieces[1..], sep)
  }

  /** Joining one more piece puts the separator before it. */
  lemma {:induction false} JoinSnoc(pieces: seq<string>, x: string, sep: string)
    requires pieces != []
    decreases |pieces|
    ensures Join(pieces + [x], sep) == Join(pieces, sep) + sep + x
  {
    assert (pieces + [x])[1..] == pieces[1..] + [x];
    if |pieces| > 1 {
      JoinSnoc(pieces[1..], x, sep);
    }
  }

  /** The concatenation of all pieces, in order. */
  function Concat(pieces: seq<string>): string
  {
    if pieces == [] then "" else Concat(pieces[..|pieces| - 1]) + pieces[|pieces| - 1]
  }

  /**
   * `str::split` with a non-empty string pattern: the pieces between the
   * non-overlapping occurrences of `d`, found left to right.
   */
  function Split(s: string, d: string): (r: seq<string>)
    requires d != ""
    decreases |s|
    ensures |r| >= 1
  {
    match Find(s, d)
    case None => [s]
    case Some(k) => [s[..k]] + Split(s[k + |d|..], d)
  }

  /** A text without the delimiter is a single piece. */
  lemma SplitWithout(s: string, d: string)
    requires d != "" && !Contains(s, d)
    ensures Split(s, d) == [s]
  {
  }

  /** A text holding the delimiter splits into at least two pieces. */
  lemma SplitHasTwo(s: string, d: string)
    requires d != "" && Contains(s, d)
    ensures |Split(s, d)| >= 2
  {
    SplitFirst(s, d, Find(s, d).value);
  }

  /** Joining the pieces with the delimiter gives back the text: nothing is lost. */
  lemma {:induction false} SplitJoin(s: string, d: string)
    requires d != ""
    decreases |s|
    ensures Join(Split(s, d), d) == s
  {
    match Find(s, d)
    case None =>
      SplitWithout(s, d);
    case Some(k) =>
      SplitJoinStep(s, d, k);
      SplitJoin(s[k + |d|..], d);
      AroundFound(s, d, k);
  }

  lemma SplitJoinStep(s: string, d: string, k: nat)
    requires d != "" && Find(s, d) == Some(k)
    ensures k + |d| <= |s|
    ensures Join(Split(s, d), d) == s[..k] + d + Join(Split(s[k + |d|..], d), d)
  {
    FoundFits(s, d, k);
    SplitFirst(s, d, k);
    JoinCons(s[..k], Split(s[k + |d|..], d), d);
  }

  /** A text is the part before an occurrence that `find` reports, the pattern, and the part after it. */
  lemma AroundFound(s: string, pat: string, k: nat)
    requires Find(s, pat) == Some(k)
    ensures k + |pat| <= |s| && s == s[..k] + pat + s[k + |pat|..]
  {
    assert s[k..k + |pat|] == pat;
    assert s[..k] + s[k..k + |pat|] == s[..k + |pat|];
  }

  lemma JoinCons(x: string, xs: seq<string>, sep: string)
    requires xs != []
    ensures Join([x] + xs, sep) == x + sep + Join(xs, sep)
  {
    assert ([x] + xs)[1..] == xs;
  }

  /** No piece of a split contains the delimiter. */
  lemma {:induction false} SplitPiecesLackDelimiter(s: string, d: string)
    requires d != ""
    decreases |s|
    ensures forall k :: 0 <= k < |Split(s, d)| ==> !Contains(Split(s, d)[k], d)
  {
    match Find(s, d)
    case None =>
    case Some(k) =>
      BeforeFirstHasNone(s, d, k);
      SplitPiecesLackDelimiter(s[k + |d|..], d);
  }

  function Last<T>(xs: seq<T>): T
    requires xs != []
  {
    xs[|xs| - 1]
  }

  function AllButLast<T>(xs: seq<T>): seq<T>
    requires xs != []
  {
    xs[..|xs| - 1]
  }

  lemma AllButLastThenLast<T>(xs: seq<T>)
    requires xs != []
    ensures AllButLast(xs) + [Last(xs)] == xs
  {
  }

  /** Occurrences before the end of `t` are unaffected by appending to `t`. */
  lemma OccursAtAppend(t: string, e: string, pat: string, j: nat)
    requires j + |pat| <= |t|
    ensures OccursAt(t + e, pat, j) <==> OccursAt(t, pat, j)
  {
    assert (t + e)[j..j + |pat|] == t[j..j + |pat|];
  }

  /** The first occurrence of `pat` in `t` is still the first in `t + e`. */
  lemma FindAppend(t: string, e: string, pat: string, k: nat)
    requires Find(t, pat) == Some(k)
    ensures Find(t + e, pat) == Some(k)
  {
    OccursAtAppend(t, e, pat, k);
    forall j: nat | j < k
      ensures !OccursAt(t + e, pat, j)
    {
      OccursAtAppend(t, e, pat, j);
    }
  }

  /** One step of splitting: the first piece ends at the first occurrence. */
  lemma SplitFirst(t: string, d: string, k: nat)
    requires d != "" && Find(t, d) == Some(k)
    ensures Split(t, d) == [t[..k]] + Split(t[k + |d|..], d)
  {
  }

  /**
   * Splitting `t + e` re-splits only the last piece of `t` together with
   * `e`: every complete piece of `t` stays a piece. This is what makes a
   * carry-over of the last piece sound.
   */
  lemma {:induction false} SplitAppend(t: string, e: string, d: string)
    requires d != ""
    decreases |t|
    ensures Split(t + e, d) == AllButLast(Split(t, d)) + Split(Last(Split(t, d)) + e, d)
  {
    var f := Find(t, d);
    if f.None? {
      assert Split(t, d) == [t];
    } else {
      var k := f.value;
      var rest := t[k + |d|..];
      var tail := Split(rest, d);
      assert Split(t, d) == [t[..k]] + tail by {
        SplitFirst(t, d, k);
      }
      assert Split(t + e, d) == [t[..k]] + Split(rest + e, d) by {
        FindAppend(t, e, d, k);
        SplitFirst(t + e, d, k);
        assert (t + e)[..k] == t[..k];
        assert (t + e)[k + |d|..] == rest + e;
      }
      SplitAppend(rest, e, d);
      ConsLast(t[..k], tail);
      AppendCons(t[..k], tail, Split(t, d), Split(t + e, d), Split(rest + e, d), Split(Last(tail) + e, d));
    }
  }

  lemma AppendCons<T>(a: T, tail: seq<T>, whole: seq<T>, joined: seq<T>, rejoined: seq<T>, carried: seq<T>)
    requires tail != [] && whole == [a] + tail && joined == [a] + rejoined
    requires rejoined == AllButLast(tail) + carried
    ensures whole != [] && joined == AllButLast(whole) + carried
  {
    ConsLast(a, tail);
  }

  lemma ConsLast<T>(x: T, xs: seq<T>)
    requires xs != []
    ensures AllButLast([x] + xs) == [x] + AllButLast(xs)
    ensures Last([x] + xs) == Last(xs)
  {
  }

  /** In a text without a blank line, and not ending in a newline, an appended blank line is the first one. */
  lemma FirstBlankLineAtEnd(t: string)
    requires !Contains(t, "\n\n") && (t == [] || t[|t| - 1] != '\n')
    ensures Find(t + "\n\n", "\n\n") == Some(|t|)
  {
    var s := t + "\n\n";
    assert OccursAt(s, "\n\n", |t|);
    forall j: nat | j < |t|
      ensures !OccursAt(s, "\n\n", j)
    {
      if j + 2 <= |t| {
        assert s[j..j + 2] == t[j..j + 2];
        assert !OccursAt(t, "\n\n", j);
      } else {
        assert s[j] == t[|t| - 1];
      }
    }
  }

  /** Such a text followed by one blank line splits into itself and an empty rest. */
  lemma SplitAtTrailingBlankLine(t: string)
    requires !Contains(t, "\n\n") && (t == [] || t[|t| - 1] != '\n')
    ensures Split(t + "\n\n", "\n\n") == [t, ""]
  {
    var s := t + "\n\n";
    FirstBlankLineAtEnd(t);
    SplitAtEnd(s, "\n\n", |t|);
    assert s[..|t|] == t;
  }

  /** A text whose first delimiter ends it splits into the text before it and an empty piece. */
  lemma SplitAtEnd(s: string, d: string, k: nat)
    requires d != "" && Find(s, d) == Some(k) && k + |d| == |s|
    ensures Split(s, d) == [s[..k], ""]
  {
    SplitFirst(s, d, k);
    assert s[k + |d|..] == "";
    SplitEmpty(d);
  }

  /** The empty text is one empty piece. */
  lemma SplitEmpty(d: string)
    requires d != ""
    ensures Split("", d) == [""]
  {
    assert Find("", d) == None;
  }

  /** `str::split_once`: the text before and after the first occurrence of `d`. */
  function SplitOnce(s: string, d: string): (r: Option<(string, string)>)
    requires d != ""
    ensures r.None? <==> !Contains(s, d)
    ensures r.Some? ==> s == r.value.0 + d + r.value.1 && !Contains(r.value.0, d)
  {
    match Find(s, d)
    case None => None
    case Some(k) =>
      assert s == s[..k] + d + s[k + |d|..];
      BeforeFirstHasNone(s, d, k);
      Some((s[..k], s[k + |d|..]))
  }

  predicate StartsWith(s: string, p: string) {
    |p| <= |s| && s[..|p|] == p
  }

  predicate EndsWith(s: string, p: string) {
    |p| <= |s| && s[|s| - |p|..] == p
  }

  /** A text that does not contain `p` does not end with it. */
  lemma EndsWithContains(s: string, p: string)
    ensures EndsWith(s, p) ==> Contains(s, p)
  {
    if EndsWith(s, p) {
      assert OccursAt(s, p, |s| - |p|);
    }
  }

  /** `str::strip_prefix`. */
  function StripPrefix(s: string, p: string): (r: Option<string>)
    ensures r.Some? <==> StartsWith(s, p)
    ensures r.Some? ==> s == p + r.value
  {
    if StartsWith(s, p) then Some(s[|p|..]) else None
  }

  /** `char::is_whitespace`: the Unicode White_Space property. */
  predicate IsWhitespace(c: char) {
    var n := c as int;
    (0x09 <= n <= 0x0D) || n == 0x20 || n == 0x85 || n == 0xA0 || n == 0x1680
    || (0x2000 <= n <= 0x200A) || n == 0x2028 || n == 0x2029 || n == 0x202F
    || n == 0x205F || n == 0x3000
  }

  predicate NoWhitespace(s: string) {
    forall i :: 0 <= i < |s| ==> !IsWhitespace(s[i])
  }

  function TrimStart(s: string): (r: string)
    ensures r == [] || !IsWhitespace(r[0])
    ensures |r| <= |s| && r == s[|s| - |r|..]
  {
    if s != [] && IsWhitespace(s[0]) then TrimStart(s[1..]) else s
  }

  function TrimEnd(s: string): (r: string)
    ensures r == [] || !IsWhitespace(r[|r| - 1])
    ensures StartsWith(s, r)
  {
    if s != [] && IsWhitespace(s[|s| - 1]) then TrimEnd(s[..|s| - 1]) else s
  }

  /** `str::trim`. */
  function Trim(s: string): string {
    TrimEnd(TrimStart(s))
  }

  /** A text that neither begins nor ends with whitespace is its own trim. */
  lemma TrimmedAlready(s: string)
    requires s != [] ==> !IsWhitespace(s[0]) && !IsWhitespace(s[|s| - 1])
    ensures Trim(s) == s
  {
  }

  /** The length of the leading run of non-whitespace characters. */
  function WordLength(s: string): (n: nat)
    ensures n <= |s|
    ensures NoWhitespace(s[..n])
    ensures n < |s| ==> IsWhitespace(s[n])
  {
    if s == [] || IsWhitespace(s[0]) then 0 else 1 + WordLength(s[1..])
  }

  /** `str::split_whitespace`: the maximal non-empty runs of non-whitespace. */
  function Words(s: string): (r: seq<string>)
    decreases |s|
    ensures forall k :: 0 <= k < |r| ==> r[k] != [] && NoWhitespace(r[k])
  {
    if s == [] then []
    else if IsWhitespace(s[0]) then Words(s[1..])
    else
      var n := WordLength(s);
      [s[..n]] + Words(s[n..])
  }

  /** A word followed by whitespace or the end of the text is measured exactly. */
  lemma {:induction false} WordLengthOfWord(w: string, t: string)
    requires NoWhitespace(w)
    requires t == [] || IsWhitespace(t[0])
    decreases |w|
    ensures WordLength(w + t) == |w|
  {
    if w != [] {
      assert (w + t)[1..] == w[1..] + t;
      WordLengthOfWord(w[1..], t);
    }
  }

  /**
   * `split_whitespace` undoes joining with single spaces: non-empty words without
   * whitespace come back exactly.
   */
  lemma {:induction false} WordsOfJoin(ws: seq<string>)
    requires forall k :: 0 <= k < |ws| ==> ws[k] != [] && NoWhitespace(ws[k])
    decreases |ws|
    ensures Words(Join(ws, " ")) == ws
  {
    if |ws| == 1 {
      WordLengthOfWord(ws[0], []);
      assert ws[0] + [] == ws[0];
      assert ws[0][|ws[0]|..] == [];
    } else if |ws| > 1 {
      var w := ws[0];
      var rest := Join(ws[1..], " ");
      var s := w + " " + rest;
      assert Join(ws, " ") == s;
      WordLengthOfWord(w, " " + rest);
      assert s == w + (" " + rest);
      assert s[..|w|] == w;
      assert s[|w|..] == " " + rest;
      assert (" " + rest)[1..] == rest;
      WordsOfJoin(ws[1..]);
      assert Words(s) == [w] + Words(" " + rest);
    }
  }

  predicate IsAsciiDigit(c: char) {
    '0' <= c <= '9'
  }

  function AsciiUpper(c: char): char {
    if 'a' <= c <= 'z' then (c as int - 32) as char else c
  }

  function AsciiLower(c: char): char {
    if 'A' <= c <= 'Z' then (c as int + 32) as char else c
  }

  /** `str::to_uppercase`, restricted to ASCII letters. */
  function Upper(s: string): (r: string)
    ensures |r| == |s|
    ensures forall i :: 0 <= i < |s| ==> r[i] == AsciiUpper(s[i])
  {
    seq(|s|, i requires 0 <= i < |s| => AsciiUpper(s[i]))
  }

  /** `str::to_lowercase`, restricted to ASCII letters. */
  function Lower(s: string): (r: string)
    ensures |r| == |s|
    ensures forall i :: 0 <= i < |s| ==> r[i] == AsciiLower(s[i])
  {
    seq(|s|, i requires 0 <= i < |s| => AsciiLower(s[i]))
  }
}
