/**
 * `normalize_text` of backend/voice/response_matcher.py and the word split
 * it is compared with. Characters are classified ASCII-only: Python's `\w`,
 * `\s`, `str.strip()` and `str.lower()` also act on non-ASCII characters.
 */
module TextNormalization {
  import opened Strings

  /** Whitespace for `\s` and `str.strip()`: space, \t \n \v \f \r and the separators 0x1c-0x1f. */
  predicate IsSpace(c: char) {
    c == ' ' || 9 <= c as int <= 13 || 28 <= c as int <= 31
  }

  predicate IsUpper(c: char) { 'A' <= c <= 'Z' }

  /** `\w`: letters, digits and the underscore. */
  predicate IsWordChar(c: char) {
    'a' <= c <= 'z' || IsUpper(c) || IsDigit(c) || c == '_'
  }

  /** What the punctuation filter `[^\w\s\-]` keeps. */
  predicate Kept(c: char) { IsWordChar(c) || IsSpace(c) || c == '-' }

  /** A character normalised text may contain: lower-case word characters, a plain space, a hyphen. */
  predicate NormalChar(c: char) {
    (IsWordChar(c) && !IsUpper(c)) || c == ' ' || c == '-'
  }

  /** Leading whitespace removed. */
  function TrimStart(s: string): (r: string)
    ensures |r| <= |s| && r == s[|s| - |r|..]
    ensures r == [] || !IsSpace(r[0])
    ensures forall i :: 0 <= i < |s| - |r| ==> IsSpace(s[i])
    ensures s != [] && IsSpace(s[0]) ==> |r| < |s|
    ensures s == [] || !IsSpace(s[0]) ==> r == s
    decreases |s|
  {
    if s != [] && IsSpace(s[0]) then TrimStart(s[1..]) else s
  }

  /** Trailing whitespace removed. */
  function TrimEnd(s: string): (r: string)
    ensures |r| <= |s| && r == s[..|r|]
    ensures r == [] || !IsSpace(r[|r| - 1])
    ensures forall i :: |r| <= i < |s| ==> IsSpace(s[i])
    ensures s == [] || !IsSpace(s[|s| - 1]) ==> r == s
    decreases |s|
  {
    if s != [] && IsSpace(s[|s| - 1]) then TrimEnd(s[..|s| - 1]) else s
  }

  /**
   * `r` is the slice of `s` from `k` that has only whitespace before and
   * after it in `s` and begins and ends with a non-whitespace character.
   */
  predicate StrippedAt(s: string, r: string, k: nat) {
    k + |r| <= |s| && r == s[k..k + |r|] &&
    (forall i :: 0 <= i < k ==> IsSpace(s[i])) &&
    (forall i :: k + |r| <= i < |s| ==> IsSpace(s[i])) &&
    (r != [] ==> !IsSpace(r[0]) && !IsSpace(r[|r| - 1]))
  }

  /** `str.strip()`. */
  function Strip(s: string): (r: string)
    ensures exists k :: StrippedAt(s, r, k)
    ensures forall c :: c in r ==> c in s
  {
    var t := TrimStart(s);
    var r := TrimEnd(t);
    var k := |s| - |t|;
    assert t == s[k..];
    assert r == s[k..k + |r|];
    assert StrippedAt(s, r, k);
    r
  }

  /** `re.sub(r'[^\w\s\-]', '', s)`. */
  function RemovePunctuation(s: string): (r: string)
    ensures forall i :: 0 <= i < |r| ==> Kept(r[i]) && r[i] in s
    decreases |s|
  {
    if s == [] then []
    else (if Kept(s[0]) then [s[0]] else []) + RemovePunctuation(s[1..])
  }

  /** The filter keeps every occurrence of every kept character. */
  lemma {:induction false} RemovePunctuationCounts(s: string, c: char)
    requires Kept(c)
    ensures multiset(RemovePunctuation(s))[c] == multiset(s)[c]
    decreases |s|
  {
    if s != [] {
      RemovePunctuationCounts(s[1..], c);
      assert s == [s[0]] + s[1..];
    }
  }

  /** The filter works character by character: it distributes over concatenation. */
  lemma {:induction false} RemovePunctuationAppend(a: string, b: string)
    ensures RemovePunctuation(a + b) == RemovePunctuation(a) + RemovePunctuation(b)
    decreases |a|
  {
    if a == [] {
      assert a + b == b;
    } else {
      var head := if Kept(a[0]) then [a[0]] else [];
      assert (a + b)[0] == a[0] && (a + b)[1..] == a[1..] + b;
      RemovePunctuationAppend(a[1..], b);
      calc {
        RemovePunctuation(a + b);
        head + RemovePunctuation(a[1..] + b);
        head + (RemovePunctuation(a[1..]) + RemovePunctuation(b));
        (head + RemovePunctuation(a[1..])) + RemovePunctuation(b);
      }
    }
  }

  lemma SuffixMembers(s: string, t: string)
    requires |t| <= |s| && t == s[|s| - |t|..]
    ensures forall c :: c in t ==> c in s
  {
  }

  /** The facts `Collapse` promises carry over from `rest` to `[c] + rest`. */
  lemma ConsCollapsed(c: char, rest: string, t: string, s: string)
    requires c == ' ' || (!IsSpace(c) && c in s)
    requires forall c :: c in t ==> c in s
    requires forall i :: 0 <= i < |rest| ==> rest[i] == ' ' || (!IsSpace(rest[i]) && rest[i] in t)
    requires forall i :: 0 <= i < |rest| - 1 ==> !(rest[i] == ' ' && rest[i + 1] == ' ')
    requires c == ' ' ==> rest == [] || rest[0] != ' '
    ensures forall i :: 0 <= i < |[c] + rest| ==>
      ([c] + rest)[i] == ' ' || (!IsSpace(([c] + rest)[i]) && ([c] + rest)[i] in s)
    ensures forall i :: 0 <= i < |[c] + rest| - 1 ==> !(([c] + rest)[i] == ' ' && ([c] + rest)[i + 1] == ' ')
  {
    var r := [c] + rest;
    forall i | 0 < i < |r|
      ensures r[i] == rest[i - 1]
    {
    }
  }

  /** `re.sub(r'\s+', ' ', s)`: each run of whitespace becomes one space. */
  function Collapse(s: string): (r: string)
    ensures forall i :: 0 <= i < |r| ==> r[i] == ' ' || (!IsSpace(r[i]) && r[i] in s)
    ensures forall i :: 0 <= i < |r| - 1 ==> !(r[i] == ' ' && r[i + 1] == ' ')
    ensures r != [] <==> s != []
    ensures r != [] ==> (r[0] == ' ' <==> IsSpace(s[0]))
    ensures r != [] ==> (r[|r| - 1] == ' ' <==> IsSpace(s[|s| - 1]))
    decreases |s|
  {
    if s == [] then []
    else if IsSpace(s[0]) then
      var t := TrimStart(s);
      var rest := Collapse(t);
      SuffixMembers(s, t);
      ConsCollapsed(' ', rest, t, s);
      assert t != [] ==> t[|t| - 1] == s[|s| - 1];
      [' '] + rest
    else
      var rest := Collapse(s[1..]);
      SuffixMembers(s, s[1..]);
      ConsCollapsed(s[0], rest, s[1..], s);
      assert |s| > 1 ==> s[1..][|s| - 2] == s[|s| - 1];
      [s[0]] + rest
  }

  /**
   * `normalize_text`: lower-case, strip, drop punctuation other than hyphens,
   * collapse whitespace. The output is lower-case, holds only word
   * characters, plain spaces and hyphens, and never two spaces in a row.
   */
  function Normalize(text: string): (r: string)
    ensures forall i :: 0 <= i < |r| ==> NormalChar(r[i])
    ensures forall i :: 0 <= i < |r| - 1 ==> !(IsSpace(r[i]) && IsSpace(r[i + 1]))
  {
    var lowered := Lower(text);
    var stripped := Strip(lowered);
    var kept := RemovePunctuation(stripped);
    var r := Collapse(kept);
    LowerHasNoUpper(text);
    r
  }

  lemma LowerHasNoUpper(s: string)
    ensures forall c :: c in Lower(s) ==> !IsUpper(c)
  {
    forall c | c in Lower(s)
      ensures !IsUpper(c)
    {
      var i :| 0 <= i < |s| && Lower(s)[i] == c;
    }
  }

  lemma TrimStartExamples()
    ensures TrimStart("a") == "a" && TrimStart(" a") == "a" && TrimStart("  a") == "a"
    ensures TrimStart(".  a") == ".  a"
  {
    assert "  a"[1..] == " a" && " a"[1..] == "a";
    assert !IsSpace("a"[0]) && !IsSpace(".  a"[0]);
    assert TrimStart(" a") == TrimStart(" a"[1..]);
    assert TrimStart("  a") == TrimStart("  a"[1..]);
  }

  lemma LowerDotExample()
    ensures Lower(".  a") == ".  a"
  {
    assert ".  a"[1..] == "  a" && "  a"[1..] == " a" && " a"[1..] == "a" && "a"[1..] == "";
    assert Lower("a") == "a";
    assert Lower(" a") == " a";
    assert Lower("  a") == "  a";
  }

  lemma StripDotExample()
    ensures Strip(".  a") == ".  a"
  {
    TrimStartExamples();
    assert !IsSpace(".  a"[3]);
  }

  lemma RemovePunctuationDotExample()
    ensures RemovePunctuation(".  a") == "  a"
  {
    assert ".  a"[1..] == "  a" && "  a"[1..] == " a" && " a"[1..] == "a" && "a"[1..] == "";
    assert RemovePunctuation("a") == "a";
    assert RemovePunctuation(" a") == " a";
    assert RemovePunctuation("  a") == "  a";
  }

  lemma CollapseSpacesExample()
    ensures Collapse("  a") == " a"
  {
    TrimStartExamples();
    assert "a"[1..] == "";
    assert Collapse("a") == "a";
  }

  lemma NormalizeDotExample()
    ensures Normalize(".  a") == " a"
  {
    LowerDotExample();
    StripDotExample();
    RemovePunctuationDotExample();
    CollapseSpacesExample();
  }

  lemma StripSpaceExample()
    ensures Strip(" a") == "a"
  {
    TrimStartExamples();
    assert TrimEnd("a") == "a" by {
      assert !IsSpace("a"[0]);
    }
  }

  lemma NormalizeSpaceExample()
    ensures Normalize(" a") == "a"
  {
    assert Lower(" a") == " a" by {
      assert " a"[1..] == "a" && "a"[1..] == "";
      assert Lower("a") == "a";
    }
    StripSpaceExample();
    assert "a"[1..] == "";
    assert RemovePunctuation("a") == "a";
    assert Collapse("a") == "a";
  }

  /**
   * Normalisation is not idempotent: stripping comes before punctuation is
   * removed, so a space after leading punctuation survives once.
   */
  lemma NormalizeNotIdempotent()
    ensures Normalize(Normalize(".  a")) != Normalize(".  a")
  {
    NormalizeDotExample();
    NormalizeSpaceExample();
  }

  /**
   * Text that normalisation leaves alone: normal characters only, and every
   * space sits strictly inside the text with no space after it.
   */
  predicate CleanFrom(s: string, i: nat)
    decreases |s| - i
  {
    i >= |s| ||
    (NormalChar(s[i]) && (s[i] == ' ' ==> 0 < i < |s| - 1 && s[i + 1] != ' ') && CleanFrom(s, i + 1))
  }

  predicate Clean(s: string) { CleanFrom(s, 0) }

  lemma {:induction false} CleanAt(s: string, i: nat, j: nat)
    requires CleanFrom(s, i) && i <= j < |s|
    ensures NormalChar(s[j]) && (s[j] == ' ' ==> 0 < j < |s| - 1 && s[j + 1] != ' ')
    decreases j - i
  {
    if i < j {
      CleanAt(s, i + 1, j);
    }
  }

  lemma {:induction false} RemovePunctuationKeeps(s: string)
    requires forall i :: 0 <= i < |s| ==> Kept(s[i])
    ensures RemovePunctuation(s) == s
    decreases |s|
  {
    if s != [] {
      assert Kept(s[0]);
      RemovePunctuationKeeps(s[1..]);
    }
  }

  lemma {:induction false} CollapseKeeps(s: string)
    requires forall i :: 0 <= i < |s| ==> s[i] == ' ' || !IsSpace(s[i])
    requires forall i :: 0 <= i < |s| - 1 ==> !(s[i] == ' ' && s[i + 1] == ' ')
    ensures Collapse(s) == s
    decreases |s|
  {
    if s != [] {
      CollapseKeeps(s[1..]);
      if IsSpace(s[0]) {
        assert s[0] == ' ';
        if |s| > 1 {
          assert s[1] != ' ';
        }
        assert TrimStart(s) == TrimStart(s[1..]) == s[1..];
      }
    }
  }

  lemma {:induction false} LowerKeeps(s: string)
    requires forall i :: 0 <= i < |s| ==> !IsUpper(s[i])
    ensures Lower(s) == s
  {
    forall i | 0 <= i < |s|
      ensures Lower(s)[i] == s[i]
    {
      assert !IsUpper(s[i]);
    }
  }

  lemma StripKeeps(s: string)
    requires s != [] ==> !IsSpace(s[0]) && !IsSpace(s[|s| - 1])
    ensures Strip(s) == s
  {
  }

  lemma CleanEverywhere(s: string)
    requires Clean(s)
    ensures forall i :: 0 <= i < |s| ==> NormalChar(s[i])
    ensures forall i :: 0 <= i < |s| - 1 ==> !(s[i] == ' ' && s[i + 1] == ' ')
    ensures s != [] ==> s[0] != ' ' && s[|s| - 1] != ' '
  {
    forall i | 0 <= i < |s|
      ensures NormalChar(s[i]) && (s[i] == ' ' ==> 0 < i < |s| - 1 && s[i + 1] != ' ')
    {
      CleanAt(s, 0, i);
    }
    if s != [] {
      CleanAt(s, 0, 0);
      CleanAt(s, 0, |s| - 1);
    }
  }

  /** Clean text is its own normal form. */
  lemma CleanIsNormal(s: string)
    requires Clean(s)
    ensures Normalize(s) == s
  {
    CleanEverywhere(s);
    LowerKeeps(s);
    StripKeeps(s);
    RemovePunctuationKeeps(s);
    NormalSpacesArePlain(s);
    CollapseKeeps(s);
  }

  /** The only whitespace among normal characters is the plain space. */
  lemma NormalSpacesArePlain(s: string)
    requires forall i :: 0 <= i < |s| ==> NormalChar(s[i])
    ensures forall i :: 0 <= i < |s| ==> s[i] == ' ' || !IsSpace(s[i])
  {
    forall i | 0 <= i < |s|
      ensures s[i] == ' ' || !IsSpace(s[i])
    {
      var c := s[i];
      assert NormalChar(c);
    }
  }

  /** Normalised text never contains a character outside the normal alphabet. */
  lemma NormalFormAlphabet(text: string, c: char)
    requires c in Normalize(text)
    ensures NormalChar(c)
  {
  }

  /** The longest prefix without whitespace. */
  function TakeWord(s: string): (w: string)
    ensures |w| <= |s| && w == s[..|w|]
    ensures forall i :: 0 <= i < |w| ==> !IsSpace(w[i])
    ensures |w| < |s| ==> IsSpace(s[|w|])
    ensures s != [] && !IsSpace(s[0]) ==> |w| > 0
    decreases |s|
  {
    if s == [] || IsSpace(s[0]) then [] else [s[0]] + TakeWord(s[1..])
  }

  /** `s.split()`: the maximal runs of non-whitespace characters, in order. */
  function Split(s: string): seq<string>
    decreases |s|
  {
    var t := TrimStart(s);
    if t == [] then []
    else
      var w := TakeWord(t);
      [w] + Split(t[|w|..])
  }

  lemma {:induction false} ContainsInSuffix(s: string, k: nat, w: string)
    requires k <= |s| && Contains(s[k..], w)
    ensures Contains(s, w)
    decreases k
  {
    if k > 0 {
      assert s[1..][k - 1..] == s[k..];
      ContainsInSuffix(s[1..], k - 1, w);
    }
  }

  /** Every word of the split occurs in the text. */
  lemma {:induction false} SplitWordsOccur(s: string)
    ensures forall w :: w in Split(s) ==> Contains(s, w)
    decreases |s|
  {
    var t := TrimStart(s);
    if t != [] {
      var w0 := TakeWord(t);
      var k := |s| - |t|;
      var rest := t[|w0|..];
      assert Contains(t, w0) by {
        assert t[..|w0|] == w0;
      }
      ContainsInSuffix(s, k, w0);
      SplitWordsOccur(rest);
      assert rest == s[k + |w0|..];
      forall w | w in Split(rest)
        ensures Contains(s, w)
      {
        ContainsInSuffix(s, k + |w0|, w);
      }
    }
  }

  /** Leading whitespace does not change the split. */
  lemma SplitTrim(s: string)
    ensures Split(s) == Split(TrimStart(s))
  {
    var t := TrimStart(s);
    assert TrimStart(t) == t;
  }

  lemma SplitSpaceCons(c: char, x: string)
    requires IsSpace(c)
    ensures Split([c] + x) == Split(x)
  {
    var s := [c] + x;
    assert s[0] == c && s[1..] == x;
    assert TrimStart(s) == TrimStart(x);
    SplitTrim(s);
    SplitTrim(x);
  }

  /** A word followed by whitespace or nothing is taken whole. */
  lemma {:induction false} TakeWordAppend(w: string, x: string)
    requires forall i :: 0 <= i < |w| ==> !IsSpace(w[i])
    requires x == [] || IsSpace(x[0])
    ensures TakeWord(w + x) == w
    decreases |w|
  {
    if w == [] {
      assert w + x == x;
    } else {
      assert (w + x)[0] == w[0] && (w + x)[1..] == w[1..] + x;
      TakeWordAppend(w[1..], x);
      assert w == [w[0]] + w[1..];
    }
  }

  /** A word followed by whitespace or nothing is the first word of the split. */
  lemma SplitWordCons(w: string, x: string)
    requires w != [] && forall i :: 0 <= i < |w| ==> !IsSpace(w[i])
    requires x == [] || IsSpace(x[0])
    ensures Split(w + x) == [w] + Split(x)
  {
    var t := w + x;
    assert t[0] == w[0];
    assert TrimStart(t) == t;
    TakeWordAppend(w, x);
    assert t[|w|..] == x;
  }

  lemma SliceSplit(s: string, n: nat)
    requires n <= |s|
    ensures s == s[..n] + s[n..]
  {
  }

  lemma ConcatAssoc(x: string, y: string, z: string)
    ensures x + (y + z) == (x + y) + z
  {
  }

  /** Collapsing copies a leading word and goes on after it. */
  lemma {:induction false} CollapseWord(s: string)
    ensures Collapse(s) == TakeWord(s) + Collapse(s[|TakeWord(s)|..])
    decreases |s|
  {
    if s != [] && !IsSpace(s[0]) {
      var w := TakeWord(s[1..]);
      CollapseWord(s[1..]);
      assert s[1..][|w|..] == s[1 + |w|..];
      ConcatAssoc([s[0]], w, Collapse(s[1 + |w|..]));
    } else {
      assert s[0..] == s;
    }
  }

  /** Collapsing whitespace keeps the words, in order. */
  lemma {:induction false} SplitCollapse(s: string)
    ensures Split(Collapse(s)) == Split(s)
    decreases |s|
  {
    if s != [] {
      if IsSpace(s[0]) {
        var t := TrimStart(s);
        SplitCollapse(t);
        SplitSpaceCons(' ', Collapse(t));
        SplitTrim(s);
      } else {
        var w := TakeWord(s);
        var rest := s[|w|..];
        CollapseWord(s);
        SplitCollapse(rest);
        SplitWordCons(w, Collapse(rest));
        SliceSplit(s, |w|);
        SplitWordCons(w, rest);
      }
    }
  }

  /** Whitespace in front does not change the split. */
  lemma {:induction false} SplitLeadingSpaces(a: string, y: string)
    requires forall i :: 0 <= i < |a| ==> IsSpace(a[i])
    ensures Split(a + y) == Split(y)
    decreases |a|
  {
    if a != [] {
      assert a + y == [a[0]] + (a[1..] + y);
      SplitLeadingSpaces(a[1..], y);
      SplitSpaceCons(a[0], a[1..] + y);
    } else {
      assert a + y == y;
    }
  }

  /** Text of whitespace only has no words. */
  lemma SplitAllSpaces(b: string)
    requires forall i :: 0 <= i < |b| ==> IsSpace(b[i])
    ensures Split(b) == []
  {
    SplitLeadingSpaces(b, []);
    assert b + [] == b;
  }

  lemma SplitTrailingWord(t: string, b: string)
    requires t != [] && !IsSpace(t[0])
    requires forall i :: 0 <= i < |b| ==> IsSpace(b[i])
    requires Split(t[|TakeWord(t)|..] + b) == Split(t[|TakeWord(t)|..])
    ensures Split(t + b) == Split(t)
  {
    var w := TakeWord(t);
    var rest := t[|w|..];
    SliceSplit(t, |w|);
    ConcatAssoc(w, rest, b);
    SplitWordCons(w, rest);
    SplitWordCons(w, rest + b);
  }

  /** Whitespace at the end does not change the split. */
  lemma {:induction false} SplitTrailingSpaces(x: string, b: string)
    requires forall i :: 0 <= i < |b| ==> IsSpace(b[i])
    ensures Split(x + b) == Split(x)
    decreases |x|
  {
    var t := TrimStart(x);
    var n := |x| - |t|;
    var a := x[..n];
    SliceSplit(x, n);
    ConcatAssoc(a, t, b);
    assert forall i :: 0 <= i < |a| ==> IsSpace(a[i]);
    SplitLeadingSpaces(a, t);
    SplitLeadingSpaces(a, t + b);
    if t == [] {
      assert t + b == b;
      SplitAllSpaces(b);
    } else {
      SplitTrailingSpaces(t[|TakeWord(t)|..], b);
      SplitTrailingWord(t, b);
    }
  }

  /**
   * Normalising keeps the words of the lower-cased text once punctuation is
   * dropped: stripping and collapsing change only the whitespace between them.
   */
  lemma NormalizeWords(text: string)
    ensures Split(Normalize(text)) == Split(RemovePunctuation(Lower(text)))
  {
    var lowered := Lower(text);
    SplitCollapse(RemovePunctuation(Strip(lowered)));
    StripWords(lowered);
  }

  /** Stripping before the punctuation filter changes no word. */
  lemma StripWords(s: string)
    ensures Split(RemovePunctuation(Strip(s))) == Split(RemovePunctuation(s))
  {
    var r := Strip(s);
    var k: nat :| StrippedAt(s, r, k);
    var front := s[..k];
    var back := s[k + |r|..];
    StripSlices(s, r, k);
    RemovePunctuationAppend(front + r, back);
    RemovePunctuationAppend(front, r);
    RemovePunctuationKeeps(front);
    RemovePunctuationKeeps(back);
    var kept := RemovePunctuation(r);
    SplitTrailingSpaces(front + kept, back);
    SplitLeadingSpaces(front, kept);
  }

  predicate AllSpace(t: string) { forall i :: 0 <= i < |t| ==> IsSpace(t[i]) }

  lemma StripSlices(s: string, r: string, k: nat)
    requires StrippedAt(s, r, k)
    ensures s == s[..k] + r + s[k + |r|..]
    ensures AllSpace(s[..k]) && AllSpace(s[k + |r|..])
  {
    assert s == s[..k] + s[k..k + |r|] + s[k + |r|..];
  }

  /** `set(s.split())`. */
  function Words(s: string): set<string> {
    set w | w in Split(s)
  }
}
