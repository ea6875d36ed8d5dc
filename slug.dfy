/** `generateSlug(title)` of `useArticles`. The random part is a parameter: the text
    `Math.random().toString(36)` would produce. The title pipeline is
    lower-case, drop combining marks, turn each run of white space into one hyphen,
    then drop everything that is neither a word character nor a hyphen. */
module Slug {
  import opened Seqs

  predicate IsLowerLetter(c: char) { 'a' <= c <= 'z' }

  predicate IsDigit(c: char) { '0' <= c <= '9' }

  /** `\w` in a JavaScript regular expression without the `u` flag. */
  predicate IsWordChar(c: char)
  {
    IsLowerLetter(c) || 'A' <= c <= 'Z' || IsDigit(c) || c == '_'
  }

  /** `\s` in a JavaScript regular expression: ECMAScript white space and line terminators. */
  predicate IsSpace(c: char)
  {
    if c <= ' ' then
      // tab, line feed, vertical tab, form feed, carriage return, space
      c == ' ' || '\t' <= c <= '\r'
    else if c < '\U{A0}' then false
    else
      || c == '\U{A0}' || c == '\U{1680}' || ('\U{2000}' <= c <= '\U{200A}')
      || c == '\U{2028}' || c == '\U{2029}' || c == '\U{202F}' || c == '\U{205F}'
      || c == '\U{3000}' || c == '\U{FEFF}'
  }

  /** The range U+0300 to U+036F that the title pipeline strips as diacritics. */
  predicate IsCombiningMark(c: char) { '\U{300}' <= c <= '\U{36F}' }

  predicate NotCombiningMark(c: char) { !IsCombiningMark(c) }

  /** Characters that survive `.replace(/[^\w-]+/g, '')`. */
  predicate IsWordOrHyphen(c: char) { IsWordChar(c) || c == '-' }

  /** Characters a generated slug is made of. */
  predicate IsSlugChar(c: char) { IsLowerLetter(c) || IsDigit(c) || c == '_' || c == '-' }

  // ---------------------------------------------------------------------------
  // The random suffix: `.replace(/[^a-z]+/g, '').substring(0, 5)`
  // ---------------------------------------------------------------------------

  function RandomSuffix(randomText: string): (r: string)
    ensures |r| <= 5
    ensures forall i :: 0 <= i < |r| ==> IsLowerLetter(r[i])
    ensures r <= Filter(randomText, IsLowerLetter)
    ensures |r| == 5 || r == Filter(randomText, IsLowerLetter)
  {
    var letters := Filter(randomText, IsLowerLetter);
    if |letters| <= 5 then letters else letters[..5]
  }

  // ---------------------------------------------------------------------------
  // The title pipeline
  // ---------------------------------------------------------------------------

  function LowerChar(c: char): char
  {
    if 'A' <= c <= 'Z' then (c as int + 32) as char else c
  }

  /** `.toLowerCase()`, on the ASCII letters. */
  function Lower(s: string): (r: string)
    ensures |r| == |s|
    ensures forall i :: 0 <= i < |s| ==> !('A' <= r[i] <= 'Z')
  {
    seq(|s|, i requires 0 <= i < |s| => LowerChar(s[i]))
  }

  /** The hyphenation of the rest of a title. `inRun` says that the previous character
      was white space, whose run has already produced its hyphen. */
  function HyphenateRest(s: string, inRun: bool): (r: string)
    ensures |r| <= |s|
  {
    if s == [] then []
    else if IsSpace(s[0]) then (if inRun then [] else "-") + HyphenateRest(s[1..], true)
    else [s[0]] + HyphenateRest(s[1..], false)
  }

  /** `.replace(/\s+/g, '-')`: each maximal run of white space becomes one hyphen. */
  function Hyphenate(s: string): (r: string)
    ensures |r| <= |s|
  {
    HyphenateRest(s, false)
  }

  /** The whole title pipeline. */
  function Slugify(s: string): (r: string)
    ensures |r| <= |s|
  {
    Filter(Hyphenate(Filter(Lower(s), NotCombiningMark)), IsWordOrHyphen)
  }

  function GenerateSlug(title: string, randomText: string): (r: string)
    ensures |r| <= |title| + 6
  {
    Slugify(title + "-" + RandomSuffix(randomText))
  }

  // ---------------------------------------------------------------------------
  // Properties
  // ---------------------------------------------------------------------------

  /** Upper-case ASCII letters become the lower-case letter at the same alphabet
      position; every other character is left as it is. */
  lemma LowerLetters(s: string, i: int)
    requires 0 <= i < |s|
    ensures 'A' <= s[i] <= 'Z' ==>
      IsLowerLetter(Lower(s)[i]) && Lower(s)[i] as int - 'a' as int == s[i] as int - 'A' as int
    ensures !('A' <= s[i] <= 'Z') ==> Lower(s)[i] == s[i]
  {
  }

  /** Hyphenation leaves no white space. */
  lemma {:induction false} RestNoSpaceLeft(s: string, inRun: bool)
    ensures forall i :: 0 <= i < |HyphenateRest(s, inRun)| ==> !IsSpace(HyphenateRest(s, inRun)[i])
  {
    if s != [] {
      RestNoSpaceLeft(s[1..], IsSpace(s[0]));
    }
  }

  /** Every character hyphenation produces is a hyphen or a character of the input. */
  lemma {:induction false} RestFromInput(s: string, inRun: bool)
    ensures forall i :: 0 <= i < |HyphenateRest(s, inRun)| ==>
      HyphenateRest(s, inRun)[i] == '-' || HyphenateRest(s, inRun)[i] in s
  {
    if s != [] {
      RestFromInput(s[1..], IsSpace(s[0]));
      assert forall c :: c in s[1..] ==> c in s;
    }
  }

  /** Hyphenation leaves no white space, and every character it produces is a hyphen or
      a character of the input. */
  lemma HyphenateAlphabet(s: string)
    ensures forall i :: 0 <= i < |Hyphenate(s)| ==>
      !IsSpace(Hyphenate(s)[i]) && (Hyphenate(s)[i] == '-' || Hyphenate(s)[i] in s)
  {
    RestNoSpaceLeft(s, false);
    RestFromInput(s, false);
  }

  /** A slug consists of lower-case ASCII letters, digits, `_` and `-` only; in
      particular it holds no white space. */
  lemma SlugifyAlphabet(s: string)
    ensures forall i :: 0 <= i < |Slugify(s)| ==> IsSlugChar(Slugify(s)[i]) && !IsSpace(Slugify(s)[i])
  {
    var lowered := Filter(Lower(s), NotCombiningMark);
    assert forall c :: c in lowered ==> !('A' <= c <= 'Z');
    var hyphenated := Hyphenate(lowered);
    HyphenateAlphabet(lowered);
    assert forall c :: c in hyphenated ==> !('A' <= c <= 'Z');
  }

  /** Inside a run, further white space produces nothing. */
  lemma {:induction false} RestSpaceRun(a: string, b: string)
    requires forall i :: 0 <= i < |a| ==> IsSpace(a[i])
    ensures HyphenateRest(a + b, true) == HyphenateRest(b, true)
  {
    if a == [] {
      assert a + b == b;
    } else {
      assert (a + b)[0] == a[0] && (a + b)[1..] == a[1..] + b;
      RestSpaceRun(a[1..], b);
    }
  }

  /** Text that ends in a non-space closes any run, so hyphenation splits after it. */
  lemma {:induction false} RestPrefix(p: string, x: string, inRun: bool)
    requires p != [] && !IsSpace(p[|p| - 1])
    ensures HyphenateRest(p + x, inRun) == HyphenateRest(p, inRun) + HyphenateRest(x, false)
  {
    assert (p + x)[0] == p[0] && (p + x)[1..] == p[1..] + x;
    if |p| > 1 {
      RestPrefix(p[1..], x, IsSpace(p[0]));
    }
  }

  /** A run of white space at the start becomes one hyphen. */
  lemma LeadingRun(a: string, b: string)
    requires |a| > 0 && forall i :: 0 <= i < |a| ==> IsSpace(a[i])
    requires b == [] || !IsSpace(b[0])
    ensures HyphenateRest(a + b, false) == "-" + HyphenateRest(b, false)
  {
    assert (a + b)[0] == a[0] && (a + b)[1..] == a[1..] + b;
    RestSpaceRun(a[1..], b);
  }

  /** A maximal run of white space, wherever it stands, becomes exactly one hyphen. */
  lemma RunBecomesHyphen(p: string, a: string, b: string)
    requires p == [] || !IsSpace(p[|p| - 1])
    requires |a| > 0 && forall i :: 0 <= i < |a| ==> IsSpace(a[i])
    requires b == [] || !IsSpace(b[0])
    ensures Hyphenate(p + a + b) == Hyphenate(p) + "-" + Hyphenate(b)
  {
    var x := a + b;
    assert p + a + b == p + x;
    LeadingRun(a, b);
    if p == [] {
      assert p + x == x;
    } else {
      RestPrefix(p, x, false);
    }
  }

  lemma {:induction false} RestAppend(a: string, b: string, inRun: bool)
    requires b == [] || !IsSpace(b[0])
    ensures HyphenateRest(a + b, inRun) == HyphenateRest(a, inRun) + HyphenateRest(b, false)
  {
    if a == [] {
      assert a + b == b;
    } else {
      assert (a + b)[0] == a[0] && (a + b)[1..] == a[1..] + b;
      RestAppend(a[1..], b, IsSpace(a[0]));
    }
  }

  /** White-space runs never span a boundary that is followed by a non-space. */
  lemma HyphenateAppend(a: string, b: string)
    requires b == [] || !IsSpace(b[0])
    ensures Hyphenate(a + b) == Hyphenate(a) + Hyphenate(b)
  {
    RestAppend(a, b, false);
  }

  lemma LowerAppend(a: string, b: string)
    ensures Lower(a + b) == Lower(a) + Lower(b)
  {
  }

  /** Text already made of slug characters passes the pipeline unchanged. */
  lemma {:induction false} SlugifyFixesSlugText(s: string)
    requires forall i :: 0 <= i < |s| ==> IsSlugChar(s[i])
    ensures Slugify(s) == s
  {
    SlugTextStages(s);
  }

  lemma {:induction false} RestNoSpaces(s: string, inRun: bool)
    requires forall i :: 0 <= i < |s| ==> !IsSpace(s[i])
    ensures HyphenateRest(s, inRun) == s
  {
    if s != [] {
      RestNoSpaces(s[1..], false);
      assert [s[0]] + s[1..] == s;
    }
  }

  /** Text without white space is left as it is. */
  lemma HyphenateNoSpaces(s: string)
    requires forall i :: 0 <= i < |s| ==> !IsSpace(s[i])
    ensures Hyphenate(s) == s
  {
    RestNoSpaces(s, false);
  }

  /** Text made of slug characters is unchanged by each pipeline stage. */
  lemma SlugTextStages(t: string)
    requires forall i :: 0 <= i < |t| ==> IsSlugChar(t[i])
    ensures Lower(t) == t
    ensures Filter(t, NotCombiningMark) == t
    ensures Hyphenate(t) == t
    ensures Filter(t, IsWordOrHyphen) == t
  {
    assert forall i :: 0 <= i < |t| ==> LowerChar(t[i]) == t[i];
    assert Lower(t) == t;
    assert forall i :: 0 <= i < |t| ==> NotCombiningMark(t[i]);
    FilterKeepsAll(t, NotCombiningMark);
    assert forall i :: 0 <= i < |t| ==> !IsSpace(t[i]);
    HyphenateNoSpaces(t);
    assert forall i :: 0 <= i < |t| ==> IsWordOrHyphen(t[i]);
    FilterKeepsAll(t, IsWordOrHyphen);
  }

  /** Slug text appended to any title comes out of the pipeline unchanged, after the
      slugified title. */
  lemma SlugifyAppendSlugText(s: string, t: string)
    requires forall i :: 0 <= i < |t| ==> IsSlugChar(t[i])
    ensures Slugify(s + t) == Slugify(s) + t
  {
    SlugTextStages(t);
    var lowered := Filter(Lower(s), NotCombiningMark);
    assert Filter(Lower(s + t), NotCombiningMark) == lowered + t by {
      LowerAppend(s, t);
      FilterAppend(Lower(s), t, NotCombiningMark);
    }
    assert Hyphenate(lowered + t) == Hyphenate(lowered) + t by {
      HyphenateAppend(lowered, t);
    }
    FilterAppend(Hyphenate(lowered), t, IsWordOrHyphen);
  }

  /** The slug is the slugified title followed by `-` and the random suffix. */
  lemma SlugEndsWithSuffix(title: string, randomText: string)
    ensures GenerateSlug(title, randomText) == Slugify(title) + "-" + RandomSuffix(randomText)
  {
    var tail := "-" + RandomSuffix(randomText);
    assert title + "-" + RandomSuffix(randomText) == title + tail;
    SlugifyAppendSlugText(title, tail);
  }

  /** Generating from a slug that has already been generated adds one more suffix and
      leaves the rest alone. */
  lemma SlugOfSlug(title: string, r1: string, r2: string)
    ensures GenerateSlug(GenerateSlug(title, r1), r2) == GenerateSlug(title, r1) + "-" + RandomSuffix(r2)
  {
    var first := GenerateSlug(title, r1);
    SlugEndsWithSuffix(first, r2);
    SlugifyAlphabet(title + "-" + RandomSuffix(r1));
    SlugifyFixesSlugText(first);
  }
}
