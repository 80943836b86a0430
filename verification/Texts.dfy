/** What the lines and words of a text are, said without the functions that find them. */
module Texts {
  import opened Comparers

  ghost predicate Without(s: string, chars: string) { forall c :: c in s ==> c !in chars }

  ghost predicate Only(s: string, chars: string) { forall c :: c in s ==> c in chars }

  const LINE_WHITES := " \n\r\t"
  const WORD_WHITES := " \n\r\t\U{0B}\U{0C}"

  /** A newline ends a line; what follows the last one is a line, too, if only an empty one. */
  lemma LinesAre(a: string, b: string)
    requires Without(a, "\n")
    ensures Lines(a) == [a] && Lines(a + "\n" + b) == [a] + Lines(b)
  {
    var s, n := a + "\n" + b, |a|;
    assert forall j :: 0 <= j < n ==> s[j] == a[j] && a[j] in a && '\n' in "\n";
    assert s[..n] == a && s[n + 1..] == b && a[..n] == a;
    FirstLine(s, n);
    FirstLine(a, n);
  }

  /** Stripping removes white space from the end of a line, and all of it. */
  lemma StrippedIs(s: string, white: string)
    requires Only(white, LINE_WHITES) && (s != [] ==> s[|s| - 1] !in LINE_WHITES)
    ensures RightStripped(s + white) == s
  {
    if white == [] {
      assert s + white == s;
    } else {
      var n := |white| - 1;
      assert white[n] in white;
      assert (s + white)[..|s| + n] == s + white[..n];
      StrippedIs(s, white[..n]);
    }
  }

  lemma StrippedParts(s: string) returns (r: string, white: string)
    ensures s == r + white && Only(white, LINE_WHITES) && (r != [] ==> r[|r| - 1] !in LINE_WHITES)
    ensures r == RightStripped(s)
  {
    if s != [] && s[|s| - 1] in LINE_WHITES {
      var n := |s| - 1;
      r, white := StrippedParts(s[..n]);
      white := white + [s[n]];
      assert s == s[..n] + [s[n]];
      StrippedIs(r, white);
    } else {
      r, white := s, [];
      assert s == s + [];
      StrippedIs(s, []);
    }
  }

  lemma FoundLater(s: string, t: string, i: nat)
    requires i <= |t|
    ensures FirstNonWhite(s + t, |s| + i) == |s| + FirstNonWhite(t, i)
    ensures FirstWhite(s + t, |s| + i) == |s| + FirstWhite(t, i)
    decreases |t| - i
  {
    if i < |t| {
      assert (s + t)[|s| + i] == t[i];
      FoundLater(s, t, i + 1);
    }
  }

  /** The words from some place on are those of the rest of the text. */
  lemma {:induction false} WordsOfRest(s: string, t: string, i: nat)
    requires i <= |t|
    ensures WordsFrom(s + t, |s| + i) == WordsFrom(t, i)
    decreases |t| - i
  {
    hide FirstNonWhite, FirstWhite, WordWhite;
    FoundLater(s, t, i);
    var j := FirstNonWhite(t, i);
    if j < |t| {
      FoundLater(s, t, j);
      var k := FirstWhite(t, j);
      SamePart(s, t, j, k);
      SomeWordAt(t, j);
      WordsOfRest(s, t, k);
    }
  }

  lemma SomeWordAt(t: string, j: nat)
    requires j < |t| && !WordWhite(t[j])
    ensures FirstWhite(t, j) > j
  {
  }

  lemma SamePart(s: string, t: string, j: nat, k: nat)
    requires j <= k <= |t|
    ensures (s + t)[|s| + j..|s| + k] == t[j..k]
  {
  }

  lemma WordFound(s: string, i: nat, j: nat)
    requires i < j <= |s|
    requires (forall k :: 0 <= k < i ==> WordWhite(s[k])) && (forall k :: i <= k < j ==> !WordWhite(s[k]))
    requires j < |s| ==> WordWhite(s[j])
    ensures FirstNonWhite(s, 0) == i && FirstWhite(s, i) == j
  {
    hide WordWhite;
    assert !WordWhite(s[i]);
  }

  lemma WordInText(white: string, word: string, rest: string)
    requires Only(white, WORD_WHITES) && Without(word, WORD_WHITES) && word != []
    requires rest == [] || rest[0] in WORD_WHITES
    ensures var s := white + word + rest;
            FirstNonWhite(s, 0) == |white| && FirstWhite(s, |white|) == |white + word|
  {
    hide FirstNonWhite, FirstWhite;
    var front, s := white + word, white + word + rest;
    forall k | 0 <= k < |white| ensures WordWhite(s[k]) { assert s[k] == white[k] && white[k] in white; }
    forall k | |white| <= k < |front| ensures !WordWhite(s[k]) {
      assert s[k] == word[k - |white|] && word[k - |white|] in word;
    }
    assert |front| < |s| ==> s[|front|] == rest[0];
    WordFound(s, |white|, |front|);
  }

  /** Words are what stands between white space. */
  lemma WordsAre(white: string, word: string, rest: string)
    requires Only(white, WORD_WHITES) && Without(word, WORD_WHITES)
    requires rest == [] || rest[0] in WORD_WHITES
    ensures Words(white) == []
    ensures word != [] ==> Words(white + word + rest) == [word] + Words(rest)
  {
    hide FirstNonWhite, FirstWhite;
    NoWords(white);
    if word != [] {
      var s := white + word + rest;
      WordInText(white, word, rest);
      hide Only, Without;
      assert s[|white|..|white + word|] == word;
      WordsOfRest(white + word, rest, 0);
    }
  }
}
