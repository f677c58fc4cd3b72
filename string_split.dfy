/** Whitespace tokenisation as Java's `String.split("\\s+")` performs it, the
    only part of the string library the calculator's constructor relies on.

    `\s` is the class of the six characters space, tab, line feed, vertical
    tab, form feed and carriage return. Splitting returns the maximal runs of
    other characters; a string that starts with whitespace yields an empty
    first token; trailing empty tokens are dropped, so trailing whitespace
    yields nothing and a string of whitespace only yields no token at all; the
    empty string, which the pattern does not match, yields itself. */
module JavaStringSplit {

  predicate IsWhitespace(c: char)
  {
    c == ' ' || c == '\t' || c == '\n' || c == '\r' ||
    c as int == 11 || c as int == 12
  }

  predicate NoWhitespace(s: string)
  {
    forall i :: 0 <= i < |s| ==> !IsWhitespace(s[i])
  }

  predicate AllWhitespace(s: string)
  {
    forall i :: 0 <= i < |s| ==> IsWhitespace(s[i])
  }

  /** Length of the run of non-whitespace characters that starts `s`. */
  function RunLength(s: string): (n: nat)
    ensures n <= |s|
    ensures NoWhitespace(s[..n])
    ensures n < |s| ==> IsWhitespace(s[n])
  {
    if s == [] || IsWhitespace(s[0]) then 0 else 1 + RunLength(s[1..])
  }

  /** The maximal runs of non-whitespace characters of `s`, in order. */
  function Words(s: string): seq<string>
    decreases |s|
  {
    if s == [] then []
    else if IsWhitespace(s[0]) then Words(s[1..])
    else
      var n := RunLength(s);
      [s[..n]] + Words(s[n..])
  }

  /** `s.split("\\s+")`. */
  function Split(s: string): seq<string>
  {
    if s == [] then [s]
    else if Words(s) == [] then []
    else if IsWhitespace(s[0]) then [""] + Words(s)
    else Words(s)
  }

  /** Every word is non-empty and free of whitespace. */
  lemma {:induction false} WordsAreWords(s: string)
    ensures forall w :: w in Words(s) ==> |w| > 0 && NoWhitespace(w)
    decreases |s|
  {
    if s == [] {
    } else if IsWhitespace(s[0]) {
      WordsAreWords(s[1..]);
    } else {
      var n := RunLength(s);
      WordsAreWords(s[n..]);
    }
  }

  /** Every token of a split is free of whitespace, and only the first one can
      be empty (it is, exactly when the string starts with whitespace and has
      a word in it). */
  lemma SplitTokens(s: string)
    ensures forall i :: 0 <= i < |Split(s)| ==> NoWhitespace(Split(s)[i])
    ensures forall i :: 0 < i < |Split(s)| ==> |Split(s)[i]| > 0
    ensures (|Split(s)| > 0 && |Split(s)[0]| == 0) <==> (s == [] || (IsWhitespace(s[0]) && Words(s) != []))
  {
    WordsAreWords(s);
    var t := Split(s);
    forall i | 0 <= i < |t| ensures NoWhitespace(t[i]) && (i > 0 ==> |t[i]| > 0) {
      if s != [] && Words(s) != [] && IsWhitespace(s[0]) {
        if i > 0 {
          assert t[i] == Words(s)[i - 1];
        }
      } else if s != [] {
        assert t[i] in Words(s);
      }
    }
    if s != [] && Words(s) != [] && !IsWhitespace(s[0]) {
      assert t[0] in Words(s);
    }
  }

  /** Leading whitespace adds no word. */
  lemma {:induction false} WordsSkipWhitespace(ws: string, rest: string)
    requires AllWhitespace(ws)
    ensures Words(ws + rest) == Words(rest)
    decreases |ws|
  {
    if ws != [] {
      assert (ws + rest)[0] == ws[0] && IsWhitespace(ws[0]);
      assert (ws + rest)[1..] == ws[1..] + rest;
      WordsSkipWhitespace(ws[1..], rest);
    } else {
      assert ws + rest == rest;
    }
  }

  /** A run of non-whitespace followed by whitespace (or by nothing) is one word. */
  lemma {:induction false} RunLengthOfWord(w: string, rest: string)
    requires NoWhitespace(w)
    requires rest == [] || IsWhitespace(rest[0])
    ensures RunLength(w + rest) == |w|
    decreases |w|
  {
    if w != [] {
      assert (w + rest)[1..] == w[1..] + rest;
      RunLengthOfWord(w[1..], rest);
    } else {
      assert w + rest == rest;
    }
  }

  lemma WordsOfWord(w: string, rest: string)
    requires |w| > 0 && NoWhitespace(w)
    requires rest == [] || IsWhitespace(rest[0])
    ensures Words(w + rest) == [w] + Words(rest)
  {
    RunLengthOfWord(w, rest);
    assert (w + rest)[..|w|] == w;
    assert (w + rest)[|w|..] == rest;
  }

  /** A first and a last name separated by whitespace, possibly followed by
      trailing whitespace, split into exactly those two names. */
  lemma SplitFirstLast(first: string, gap: string, last: string, trail: string)
    requires |first| > 0 && NoWhitespace(first)
    requires |gap| > 0 && AllWhitespace(gap)
    requires |last| > 0 && NoWhitespace(last)
    requires AllWhitespace(trail)
    ensures Split(first + gap + last + trail) == [first, last]
  {
    var s := first + gap + last + trail;
    WordsSkipWhitespace(trail, []);
    assert trail + [] == trail;
    assert Words(trail) == [];
    WordsOfWord(last, trail);
    assert Words(last + trail) == [last];
    WordsSkipWhitespace(gap, last + trail);
    assert Words(gap + (last + trail)) == [last];
    WordsOfWord(first, gap + (last + trail));
    assert s == first + (gap + (last + trail));
    assert Words(s) == [first, last];
  }
}
