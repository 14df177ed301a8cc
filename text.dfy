/**
 * String helpers shared by the models: whitespace as Python and JavaScript
 * define it, ASCII lower-casing, substring containment, splitting on one
 * character and trimming.
 */
module Text {

  /** The two languages of the source disagree on what whitespace is. */
  datatype Dialect = Python | JavaScript

  /**
   * Python's `str.isspace` (used by `strip` and by `\s` in `re`) and
   * JavaScript's `\s` (also the set `String.prototype.trim` removes).
   */
  predicate IsSpace(d: Dialect, c: char) {
    || ('\t' <= c <= '\r')
    || c == ' ' || c == '\U{A0}' || c == '\U{1680}'
    || ('\U{2000}' <= c <= '\U{200A}')
    || c == '\U{2028}' || c == '\U{2029}' || c == '\U{202F}' || c == '\U{205F}' || c == '\U{3000}'
    || (d == Python && (('\U{1C}' <= c <= '\U{1F}') || c == '\U{85}'))
    || (d == JavaScript && c == '\U{FEFF}')
  }

  /** JavaScript's line terminators: `.` does not match them, `^` and `$` in multiline mode see them. */
  predicate IsLineTerminator(c: char) {
    c == '\n' || c == '\r' || c == '\U{2028}' || c == '\U{2029}'
  }

  predicate IsDigit(c: char) { '0' <= c <= '9' }

  predicate IsUpper(c: char) { 'A' <= c <= 'Z' }

  function ToLowerChar(c: char): char {
    if IsUpper(c) then (c as int + 32) as char else c
  }

  /** `toLowerCase()` / `lower()` restricted to ASCII letters. */
  function ToLower(s: string): (r: string)
    ensures |r| == |s|
    ensures forall i :: 0 <= i < |s| ==> r[i] == ToLowerChar(s[i])
  {
    seq(|s|, i requires 0 <= i < |s| => ToLowerChar(s[i]))
  }

  lemma ToLowerAppend(a: string, b: string)
    ensures ToLower(a + b) == ToLower(a) + ToLower(b)
  {
  }

  lemma ToLowerIdempotent(s: string)
    ensures ToLower(ToLower(s)) == ToLower(s)
  {
  }

  /** `w` occurs in `s` starting at index `i`. */
  predicate OccursAt(s: string, i: int, w: string) {
    0 <= i && i + |w| <= |s| && s[i..i + |w|] == w
  }

  /** Python's `w in s`, JavaScript's `s.includes(w)`. */
  predicate Contains(s: string, w: string) {
    exists i :: 0 <= i <= |s| - |w| && OccursAt(s, i, w)
  }

  /** Some word of `words` occurs in `s`. */
  predicate ContainsAny(s: string, words: seq<string>) {
    exists k :: 0 <= k < |words| && Contains(s, words[k])
  }

  /** Text around an occurrence never hides it. */
  lemma ContainsExtend(s: string, t: string, w: string)
    requires Contains(s, w)
    ensures Contains(s + t, w) && Contains(t + s, w)
  {
    var i :| 0 <= i <= |s| - |w| && OccursAt(s, i, w);
    assert (s + t)[i..i + |w|] == s[i..i + |w|];
    assert OccursAt(s + t, i, w);
    assert (t + s)[|t| + i..|t| + i + |w|] == s[i..i + |w|];
    assert OccursAt(t + s, |t| + i, w);
  }

  lemma ContainsAnyExtend(s: string, t: string, words: seq<string>)
    requires ContainsAny(s, words)
    ensures ContainsAny(s + t, words) && ContainsAny(t + s, words)
  {
    var k :| 0 <= k < |words| && Contains(s, words[k]);
    ContainsExtend(s, t, words[k]);
  }

  /** Containment is transitive: a word inside a phrase is found wherever the phrase is. */
  lemma ContainsTransitive(s: string, w: string, v: string)
    requires Contains(s, w) && Contains(w, v)
    ensures Contains(s, v)
  {
    var i :| 0 <= i <= |s| - |w| && OccursAt(s, i, w);
    var j :| 0 <= j <= |w| - |v| && OccursAt(w, j, v);
    forall k | 0 <= k < |v| ensures s[i + j + k] == v[k] {
      assert s[i + j + k] == s[i..i + |w|][j + k];
      assert w[j + k] == w[j..j + |v|][k];
    }
    assert s[i + j..i + j + |v|] == v;
    assert OccursAt(s, i + j, v);
  }

  /** A text contains each of the stretches it is joined from. */
  lemma ContainsMiddle(a: string, w: string, b: string)
    ensures Contains(a + w + b, w)
  {
    assert (a + w + b)[|a|..|a| + |w|] == w;
    assert OccursAt(a + w + b, |a|, w);
  }

  /** A word occurs in the text of `words[k]` whenever the text contains `words[k]`. */
  lemma ContainsAnyWitness(s: string, words: seq<string>, k: nat)
    requires k < |words| && Contains(s, words[k])
    ensures ContainsAny(s, words)
  {
  }

  // ----- splitting on one character -----

  /** `s.split(sep)` in both Python and JavaScript: the pieces between separators, empty ones kept. */
  function Split(s: string, sep: char): (parts: seq<string>)
    ensures |parts| >= 1
    decreases |s|
  {
    if |s| == 0 then [""]
    else
      var rest := Split(s[1..], sep);
      if s[0] == sep then [""] + rest
      else [[s[0]] + rest[0]] + rest[1..]
  }

  /** `sep.join(parts)`: the inverse of `Split`. */
  function Join(parts: seq<string>, sep: char): string {
    if |parts| == 0 then ""
    else if |parts| == 1 then parts[0]
    else parts[0] + [sep] + Join(parts[1..], sep)
  }

  lemma JoinPrepend(c: char, parts: seq<string>, sep: char)
    requires |parts| >= 1
    ensures Join([[c] + parts[0]] + parts[1..], sep) == [c] + Join(parts, sep)
  {
    var q := [[c] + parts[0]] + parts[1..];
    if |parts| > 1 {
      assert q[1..] == parts[1..];
    }
  }

  /** Splitting then joining gives the text back. */
  lemma {:induction false} SplitJoin(s: string, sep: char)
    ensures Join(Split(s, sep), sep) == s
    decreases |s|
  {
    if |s| > 0 {
      var rest := Split(s[1..], sep);
      SplitJoin(s[1..], sep);
      if s[0] == sep {
        assert ([""] + rest)[1..] == rest;
        assert s == [sep] + s[1..];
      } else {
        JoinPrepend(s[0], rest, sep);
        assert s == [s[0]] + s[1..];
      }
    }
  }

  /** An occurrence in the tail of a text is an occurrence in the text, one place later. */
  lemma OccursInTail(s: string, j: int, w: string)
    requires |s| > 0 && OccursAt(s[1..], j, w)
    ensures OccursAt(s, 1 + j, w)
  {
    assert s[1 + j..1 + j + |w|] == s[1..][j..j + |w|];
  }

  /** Every piece of a split is a contiguous part of the text without the separator. */
  lemma {:induction false} SplitPieces(s: string, sep: char, k: nat)
    requires k < |Split(s, sep)|
    ensures sep !in Split(s, sep)[k]
    ensures k == 0 ==> OccursAt(s, 0, Split(s, sep)[0])
    ensures Contains(s, Split(s, sep)[k])
    decreases |s|
  {
    var p := Split(s, sep)[k];
    if |s| == 0 {
      assert OccursAt(s, 0, p);
    } else {
      var rest := Split(s[1..], sep);
      var k' := if s[0] == sep then k - 1 else k;
      if s[0] == sep && k == 0 {
        assert OccursAt(s, 0, p);
      } else if s[0] != sep && k == 0 {
        SplitPieces(s[1..], sep, 0);
        assert p == [s[0]] + rest[0];
        assert s[..|p|] == [s[0]] + s[1..][..|rest[0]|];
        assert OccursAt(s, 0, p);
      } else {
        assert p == rest[k'];
        SplitPieces(s[1..], sep, k');
        var j :| 0 <= j <= |s[1..]| - |p| && OccursAt(s[1..], j, p);
        OccursInTail(s, j, p);
      }
    }
  }

  // ----- trimming -----

  function TrimLeft(d: Dialect, s: string): (r: string)
    ensures |r| <= |s| && r == s[|s| - |r|..]
    ensures |r| == 0 || !IsSpace(d, r[0])
  {
    if |s| > 0 && IsSpace(d, s[0]) then TrimLeft(d, s[1..]) else s
  }

  function TrimRight(d: Dialect, s: string): (r: string)
    ensures |r| <= |s| && r == s[..|r|]
    ensures |r| == 0 || !IsSpace(d, r[|r| - 1])
  {
    if |s| > 0 && IsSpace(d, s[|s| - 1]) then TrimRight(d, s[..|s| - 1]) else s
  }

  /** Non-empty, with no whitespace at either end: what stripping leaves of a text that is not all blank. */
  predicate Stripped(d: Dialect, s: string) {
    |s| > 0 && !IsSpace(d, s[0]) && !IsSpace(d, s[|s| - 1])
  }

  /** `strip()` in Python, `trim()` in JavaScript. */
  function Trim(d: Dialect, s: string): string {
    TrimRight(d, TrimLeft(d, s))
  }

  /** The trimmed text is a contiguous part of the text with no whitespace at either end. */
  lemma TrimSpec(d: Dialect, s: string)
    ensures var r := Trim(d, s);
      && (|r| == 0 || (!IsSpace(d, r[0]) && !IsSpace(d, r[|r| - 1])))
      && Contains(s, r)
  {
    var l := TrimLeft(d, s);
    var r := TrimRight(d, l);
    var a := |s| - |l|;
    if |r| > 0 {
      assert r[0] == l[0];
    }
    PrefixOfSuffix(s, a, |r|);
    assert OccursAt(s, a, r);
  }

  lemma PrefixOfSuffix<T>(s: seq<T>, a: nat, n: nat)
    requires a + n <= |s|
    ensures s[a..][..n] == s[a..a + n]
  {
  }

  /** A character missing from a text is missing from every stretch of it. */
  lemma InfixAvoids(s: string, w: string, c: char)
    requires Contains(s, w) && c !in s
    ensures c !in w
  {
    var i :| 0 <= i <= |s| - |w| && OccursAt(s, i, w);
    forall k | 0 <= k < |w| ensures w[k] != c {
      assert w[k] == s[i..i + |w|][k] == s[i + k];
    }
  }

  /** `map(trim)`: every piece trimmed. */
  function TrimAll(d: Dialect, pieces: seq<string>): (r: seq<string>)
    ensures |r| == |pieces|
  {
    if |pieces| == 0 then [] else [Trim(d, pieces[0])] + TrimAll(d, pieces[1..])
  }

  lemma {:induction false} TrimAllAt(d: Dialect, pieces: seq<string>, j: nat)
    requires j < |pieces|
    ensures TrimAll(d, pieces)[j] == Trim(d, pieces[j])
    decreases j
  {
    if j > 0 {
      TrimAllAt(d, pieces[1..], j - 1);
      TailIndex(pieces, j - 1);
    }
  }

  /** `filter(length > 0)`: the non-empty texts, in order. */
  function NonEmptyOnly(texts: seq<string>): (r: seq<string>)
    ensures |r| <= |texts|
  {
    if |texts| == 0 then []
    else (if |texts[0]| > 0 then [texts[0]] else []) + NonEmptyOnly(texts[1..])
  }

  /** Trim each piece and drop the empty ones. */
  function TrimmedNonEmpty(d: Dialect, pieces: seq<string>): (r: seq<string>) {
    NonEmptyOnly(TrimAll(d, pieces))
  }

  /** Unfolding `NonEmptyOnly` at its `k`-th text: the first text, or a kept text of the rest. */
  lemma NonEmptyOnlyStep(texts: seq<string>, k: nat)
    requires k < |NonEmptyOnly(texts)|
    ensures |texts[0]| > 0 && k == 0 ==> NonEmptyOnly(texts)[k] == texts[0]
    ensures var k' := if |texts[0]| > 0 then k - 1 else k;
      !(|texts[0]| > 0 && k == 0) ==>
        0 <= k' < |NonEmptyOnly(texts[1..])| && NonEmptyOnly(texts)[k] == NonEmptyOnly(texts[1..])[k']
  {
    var rest := NonEmptyOnly(texts[1..]);
    if |texts[0]| > 0 {
      assert NonEmptyOnly(texts) == [texts[0]] + rest;
      if k > 0 {
        assert ([texts[0]] + rest)[k] == rest[k - 1];
      }
    } else {
      assert NonEmptyOnly(texts) == [] + rest;
      assert [] + rest == rest;
    }
  }

  /** Which text the `k`-th kept one is; it is not empty. */
  lemma {:induction false} NonEmptySource(texts: seq<string>, k: nat) returns (j: nat)
    requires k < |NonEmptyOnly(texts)|
    ensures j < |texts| && NonEmptyOnly(texts)[k] == texts[j] && |texts[j]| > 0
    decreases |texts|
  {
    NonEmptyOnlyStep(texts, k);
    if |texts[0]| > 0 && k == 0 {
      j := 0;
    } else {
      var k' := if |texts[0]| > 0 then k - 1 else k;
      var i := NonEmptySource(texts[1..], k');
      TailIndex(texts, i);
      j := i + 1;
    }
  }

  lemma TailIndex<T>(s: seq<T>, j: nat)
    requires j + 1 < |s|
    ensures s[1..][j] == s[j + 1]
  {
  }

  /**
   * Every piece of `TrimmedNonEmpty(d, Split(s, sep))` is a non-empty,
   * trimmed stretch of `s` without `sep`.
   */
  lemma SplitTrimmedPieces(d: Dialect, s: string, sep: char, k: nat)
    requires k < |TrimmedNonEmpty(d, Split(s, sep))|
    ensures var piece := TrimmedNonEmpty(d, Split(s, sep))[k];
      && Stripped(d, piece) && Contains(s, piece) && sep !in piece
  {
    var pieces := Split(s, sep);
    var piece := TrimmedNonEmpty(d, pieces)[k];
    var trimmed := TrimAll(d, pieces);
    var j := NonEmptySource(trimmed, k);
    TrimAllAt(d, pieces, j);
    TrimSpec(d, pieces[j]);
    SplitPieces(s, sep, j);
    ContainsTransitive(s, pieces[j], piece);
    InfixAvoids(pieces[j], piece, sep);
  }
}
