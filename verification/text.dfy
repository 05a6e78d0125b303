/**
 * String helpers used by the command builders and the report analysis:
 * prefix and suffix tests, substring search with Python's `str.split`
 * semantics, and splitting a command line into its space-separated words.
 */
module Text {
  import opened Options

  /** Python's `s.startswith(p)`. */
  predicate StartsWith(s: string, p: string) {
    |p| <= |s| && s[..|p|] == p
  }

  /** Python's `s.endswith(p)`. */
  predicate EndsWith(s: string, p: string) {
    |p| <= |s| && s[|s| - |p|..] == p
  }

  /** `p` occurs in `s` starting at index `i`. */
  predicate OccursAt(s: string, p: string, i: int) {
    0 <= i && i + |p| <= |s| && s[i..i + |p|] == p
  }

  lemma StartsWithConcat(a: string, b: string)
    ensures StartsWith(a + b, a)
  {
    assert (a + b)[..|a|] == a;
  }

  /** One differing character within the prefix rules out `s.startswith(p)`. */
  lemma DiffersAt(s: string, p: string, i: nat)
    requires i < |p| && i < |s| && s[i] != p[i]
    ensures !StartsWith(s, p)
  {
    if |p| <= |s| {
      assert s[..|p|][i] == s[i];
    }
  }

  lemma EndsWithConcat(a: string, b: string)
    ensures EndsWith(a + b, b)
  {
    assert (a + b)[|a + b| - |b|..] == b;
  }

  lemma OccursAtConcat(a: string, b: string, c: string)
    ensures OccursAt(a + b + c, b, |a|)
  {
    assert (a + b + c)[|a|..|a| + |b|] == b;
  }

  /** Index of the first occurrence of `p` in `s` at or after `from`. */
  function FirstIndexFrom(s: string, p: string, from: nat): (r: Option<nat>)
    requires |p| > 0
    ensures r.Some? ==> from <= r.value && OccursAt(s, p, r.value)
    ensures r.Some? ==> forall j :: from <= j < r.value ==> !OccursAt(s, p, j)
    ensures r.None? ==> forall j :: from <= j ==> !OccursAt(s, p, j)
    decreases |s| - from
  {
    if |s| < from + |p| then None
    else if s[from..from + |p|] == p then Some(from)
    else FirstIndexFrom(s, p, from + 1)
  }

  /** Index of the first occurrence of `p` in `s`, if any. */
  function FirstIndexOf(s: string, p: string): (r: Option<nat>)
    requires |p| > 0
    ensures r.Some? ==> OccursAt(s, p, r.value)
    ensures r.Some? ==> forall j :: 0 <= j < r.value ==> !OccursAt(s, p, j)
    ensures r.None? ==> forall j :: 0 <= j ==> !OccursAt(s, p, j)
  {
    FirstIndexFrom(s, p, 0)
  }

  /**
   * Python's `s.split(sep)[0]`: the text before the first occurrence of
   * `sep`, or all of `s` when `sep` does not occur. Python refuses an
   * empty separator.
   */
  function SplitHead(s: string, sep: string): (h: string)
    requires |sep| > 0
    ensures |h| <= |s| && h == s[..|h|]
    ensures OccursAt(s, sep, |h|) || (h == s && forall j :: 0 <= j ==> !OccursAt(s, sep, j))
    ensures forall j :: 0 <= j < |h| ==> !OccursAt(s, sep, j)
  {
    match FirstIndexOf(s, sep)
    case Some(i) => s[..i]
    case None => s
  }

  // ---------------------------------------------------------------------
  // Space-separated words of a command line
  // ---------------------------------------------------------------------

  /** The longest prefix of `s` that contains no space. */
  function Word(s: string): (w: string)
    ensures |w| <= |s| && w == s[..|w|]
    ensures s != [] && s[0] != ' ' ==> |w| > 0
    ensures ' ' !in w
    ensures |w| < |s| ==> s[|w|] == ' '
  {
    if s == [] || s[0] == ' ' then [] else [s[0]] + Word(s[1..])
  }

  /** The non-empty maximal space-free pieces of `s`, in order; runs of spaces separate them. */
  function Tokens(s: string): (ts: seq<string>)
    ensures forall k :: 0 <= k < |ts| ==> ts[k] != [] && ' ' !in ts[k]
    decreases |s|
  {
    if s == [] then []
    else if s[0] == ' ' then Tokens(s[1..])
    else
      var w := Word(s);
      [w] + Tokens(s[|w|..])
  }

  /** Appending text that starts at a space does not change the first word. */
  lemma {:induction false} WordAppend(a: string, c: string)
    requires c == [] || c[0] == ' '
    ensures Word(a + c) == Word(a)
    decreases |a|
  {
    if a == [] {
      assert a + c == c;
    } else if a[0] == ' ' {
    } else {
      assert (a + c)[1..] == a[1..] + c;
      WordAppend(a[1..], c);
    }
  }

  /** A space-free string is its own first word. */
  lemma {:induction false} WordOfSpaceFree(a: string)
    requires ' ' !in a
    ensures Word(a) == a
    decreases |a|
  {
    if a != [] {
      assert a[0] in a;
      assert forall k :: 0 <= k < |a[1..]| ==> a[1..][k] == a[k + 1];
      WordOfSpaceFree(a[1..]);
      assert a == [a[0]] + a[1..];
    }
  }

  /** Concatenating space-free strings gives a space-free string. */
  lemma SpaceFreeConcat(a: string, b: string)
    requires ' ' !in a && ' ' !in b
    ensures ' ' !in a + b
  {
    forall k | 0 <= k < |a + b| ensures (a + b)[k] != ' ' {
      if k < |a| { assert (a + b)[k] == a[k]; } else { assert (a + b)[k] == b[k - |a|]; }
    }
  }

  /** A single word: non-empty and free of spaces. */
  predicate IsWord(w: string) {
    w != [] && ' ' !in w
  }

  /** A single word is its own only token. */
  lemma TokensOfWord(a: string)
    requires IsWord(a)
    ensures Tokens(a) == [a]
  {
    WordOfSpaceFree(a);
    assert a[|a|..] == [];
  }

  // Regrouping concatenations of words into one sequence display. They are
  // stated for any element type and used for lists of command-line words.

  /** Concatenation is associative. */
  lemma ConcatAssoc<T>(a: seq<T>, b: seq<T>, c: seq<T>)
    ensures a + (b + c) == (a + b) + c
  {
  }

  /** Two leading words joined one at a time form a two-word display. */
  lemma PairDisplayThen<T>(a: T, b: T, t: seq<T>)
    ensures [a] + ([b] + t) == [a, b] + t
  {
  }

  /** A word before a two-word display forms a three-word display. */
  lemma TripleDisplayThen<T>(a: T, b: T, c: T, t: seq<T>)
    ensures [a] + ([b, c] + t) == [a, b, c] + t
  {
  }

  /** Four single words joined left to right form a four-word display. */
  lemma QuadDisplay<T>(a: T, b: T, c: T, d: T)
    ensures [a] + [b] + [c] + [d] == [a, b, c, d]
  {
  }

  /** Two pairs of single words form a four-word display. */
  lemma QuadDisplayThen<T>(a: T, b: T, c: T, d: T, t: seq<T>)
    ensures [a] + [b] + ([c] + [d]) + t == [a, b, c, d] + t
  {
  }

  /** A three-word display before a two-word display forms a five-word display. */
  lemma QuintDisplayThen<T>(a: T, b: T, c: T, d: T, e: T, t: seq<T>)
    ensures [a, b, c] + ([d, e] + t) == [a, b, c, d, e] + t
  {
  }

  /** A word followed by a space and more text is that word and then the text's words. */
  lemma TokensCons(w: string, rest: string)
    requires IsWord(w)
    ensures Tokens(w + " " + rest) == [w] + Tokens(rest)
  {
    TokensJoin(w, rest);
    TokensOfWord(w);
  }

  /** Joining two strings with a single space concatenates their words. */
  lemma {:induction false} TokensJoin(a: string, b: string)
    ensures Tokens(a + " " + b) == Tokens(a) + Tokens(b)
    decreases |a|
  {
    var s := a + " " + b;
    if a == [] {
      assert s == " " + b;
      assert s[1..] == b;
    } else if a[0] == ' ' {
      assert s[1..] == a[1..] + " " + b;
      TokensJoin(a[1..], b);
    } else {
      assert s == a + (" " + b);
      WordAppend(a, " " + b);
      var w := Word(a);
      assert 0 < |w| <= |a|;
      assert s[|w|..] == a[|w|..] + " " + b;
      TokensJoin(a[|w|..], b);
      ConcatAssoc([w], Tokens(a[|w|..]), Tokens(b));
    }
  }
}
