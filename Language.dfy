/**
 * Lexical heuristics: how hard a word is to type, and whether a pair of
 * characters is a frequent, memorised bigram.
 */
module Language {
  import opened Chars

  /** Membership in the set of very frequent English words, typed faster than others. */
  predicate IsCommonWord(w: string) {
    w in {
    "the", "be", "to", "of", "and", "a", "in", "that", "have", "it",
    "for", "not", "on", "with", "he", "as", "you", "do", "at", "this",
    "but", "his", "by", "from", "they", "we", "say", "her", "she", "or",
    "an", "will", "my", "one", "all", "would", "there", "their", "what",
    "so", "up", "out", "if", "about", "who", "get", "which", "go", "me",
    "when", "make", "can", "like", "time", "no", "just", "him", "know",
    "take", "people", "into", "year", "your", "good", "some", "could",
    "them", "see", "other", "than", "then", "now", "look", "only", "come",
    "its", "over", "think", "also", "back", "after", "use", "two", "how",
    "our", "work", "first", "well", "way", "even", "new", "want", "because"
    }
  }

  /** Membership in the set of frequent English letter pairs, typed in a burst. */
  predicate IsFrequentBigram(b: string) {
    b in {
    "th", "he", "in", "er", "an", "re", "on", "at", "en", "nd", "ti", "es", "or", "te",
    "of", "ed", "is", "it", "al", "ar", "st", "to", "nt", "ng", "se", "ha", "as", "ou",
    "io", "le", "ve", "co", "me", "de", "hi", "ri", "ro", "ic", "ne", "ea", "ra", "ce"
    }
  }

  /** The punctuation removed from both ends of a word before it is classified. */
  const Punctuation: string := ".,!?;:"

  /** Letters whose presence makes a word awkward to type. */
  const AwkwardLetters: string := "zxqj"

  datatype Difficulty = Common | Complex | Normal

  /** Python's `s.lstrip(cs)`: drop the longest prefix made of characters of `cs`. */
  function StripLeft(s: string, cs: string): (r: string)
    ensures |r| <= |s|
    decreases |s|
  {
    if s != [] && s[0] in cs then StripLeft(s[1..], cs) else s
  }

  /** What `lstrip` removes is a prefix of `cs` characters, and what it keeps does not start with one. */
  lemma {:induction false} StripLeftSpec(s: string, cs: string)
    ensures var r := StripLeft(s, cs);
      && r == s[|s| - |r|..]
      && (forall i :: 0 <= i < |s| - |r| ==> s[i] in cs)
      && (r != [] ==> r[0] !in cs)
    decreases |s|
  {
    if s != [] && s[0] in cs {
      StripLeftSpec(s[1..], cs);
      var r := StripLeft(s, cs);
      assert s[1..][|s| - 1 - |r|..] == s[|s| - |r|..];
      forall i | 1 <= i < |s| - |r| ensures s[i] in cs {
        assert s[1..][i - 1] == s[i];
      }
    }
  }

  /** Python's `s.rstrip(cs)`: drop the longest suffix made of characters of `cs`. */
  function StripRight(s: string, cs: string): (r: string)
    ensures |r| <= |s|
    decreases |s|
  {
    if s != [] && s[|s| - 1] in cs then StripRight(s[..|s| - 1], cs) else s
  }

  /** What `rstrip` removes is a suffix of `cs` characters, and what it keeps does not end with one. */
  lemma {:induction false} StripRightSpec(s: string, cs: string)
    ensures var r := StripRight(s, cs);
      && r == s[..|r|]
      && (forall i :: |r| <= i < |s| ==> s[i] in cs)
      && (r != [] ==> r[|r| - 1] !in cs)
    decreases |s|
  {
    if s != [] && s[|s| - 1] in cs {
      StripRightSpec(s[..|s| - 1], cs);
      var r := StripRight(s, cs);
      assert s[..|s| - 1][..|r|] == s[..|r|];
      forall i | |r| <= i < |s| - 1 ensures s[i] in cs {
        assert s[..|s| - 1][i] == s[i];
      }
    }
  }

  /** Python's `s.strip(cs)`. */
  function Strip(s: string, cs: string): string {
    StripRight(StripLeft(s, cs), cs)
  }

  /** The form of a word that is looked up: lower-cased, then stripped of punctuation. */
  function Normalized(word: string): string {
    Strip(LowerString(word), Punctuation)
  }

  predicate HasAwkwardLetter(w: string) {
    exists i :: 0 <= i < |w| && w[i] in AwkwardLetters
  }

  /** `get_word_difficulty`: common words first, then long or awkward words are complex. */
  function WordDifficulty(word: string): (d: Difficulty)
    ensures d == Common <==> IsCommonWord(Normalized(word))
    ensures d == Complex <==>
      !IsCommonWord(Normalized(word)) && (|Normalized(word)| > 8 || HasAwkwardLetter(Normalized(word)))
  {
    var w := Normalized(word);
    if IsCommonWord(w) then Common
    else if |w| > 8 || HasAwkwardLetter(w) then Complex
    else Normal
  }

  /** `is_common_bigram`: the lower-cased pair, in this order, is a frequent bigram. */
  function IsCommonBigram(a: char, b: char): bool {
    IsFrequentBigram(LowerString([a, b]))
  }

  /** The stripped word is a slice of the lower-cased word with only punctuation cut from either end. */
  lemma NormalizedIsTrimmedSlice(word: string) returns (i: nat, j: nat)
    ensures i <= j <= |word| && Normalized(word) == LowerString(word)[i..j]
    ensures forall k :: 0 <= k < i ==> word[k] in Punctuation
    ensures forall k :: j <= k < |word| ==> word[k] in Punctuation
    ensures Normalized(word) != [] ==>
      Normalized(word)[0] !in Punctuation && Normalized(word)[|Normalized(word)| - 1] !in Punctuation
  {
    var lw := LowerString(word);
    i := LeftCut(word);
    j := RightCut(lw, word, i);
    var l := StripLeft(lw, Punctuation);
    var r := StripRight(l, Punctuation);
    StripLeftSpec(lw, Punctuation);
    StripRightSpec(l, Punctuation);
    assert r == l[..|r|];
  }

  /** `lstrip` cuts a prefix of punctuation. */
  lemma LeftCut(word: string) returns (i: nat)
    ensures i <= |word| && StripLeft(LowerString(word), Punctuation) == LowerString(word)[i..]
    ensures forall k :: 0 <= k < i ==> word[k] in Punctuation
  {
    var lw := LowerString(word);
    StripLeftSpec(lw, Punctuation);
    i := |lw| - |StripLeft(lw, Punctuation)|;
    LowerPunctuationRange(word, 0, i);
  }

  /** `rstrip` cuts a suffix of punctuation. */
  lemma RightCut(lw: string, word: string, i: nat) returns (j: nat)
    requires lw == LowerString(word) && i <= |lw|
    ensures i <= j <= |lw| && StripRight(lw[i..], Punctuation) == lw[i..j]
    ensures forall k :: j <= k < |word| ==> word[k] in Punctuation
  {
    var l := lw[i..];
    var r := StripRight(l, Punctuation);
    StripRightSpec(l, Punctuation);
    j := i + |r|;
    SliceOfSuffix(lw, i, |r|);
    forall k | j <= k < |word| ensures lw[k] in Punctuation {
      assert l[k - i] == lw[k];
    }
    LowerPunctuationRange(word, j, |word|);
  }

  /** Punctuation in the lower-cased word was punctuation in the word. */
  lemma LowerPunctuationRange(word: string, lo: nat, hi: nat)
    requires lo <= hi <= |word|
    requires forall k :: lo <= k < hi ==> LowerString(word)[k] in Punctuation
    ensures forall k :: lo <= k < hi ==> word[k] in Punctuation
  {
    forall k | lo <= k < hi ensures word[k] in Punctuation {
      assert LowerString(word)[k] == Lower(word[k]);
      LowerKeepsPunctuation(word[k]);
    }
  }

  lemma SliceOfSuffix(s: string, i: nat, n: nat)
    requires i + n <= |s|
    ensures s[i..][..n] == s[i..i + n]
  {
  }

  /** Lower-casing neither creates nor removes punctuation. */
  lemma LowerKeepsPunctuation(c: char)
    ensures Lower(c) in Punctuation <==> c in Punctuation
  {
  }

  /** A word without capitals and without punctuation at its ends is already in normal form. */
  lemma NormalizedOfLowerWord(word: string)
    requires forall k :: 0 <= k < |word| ==> !IsUpper(word[k])
    requires word != [] ==> word[0] !in Punctuation && word[|word| - 1] !in Punctuation
    ensures Normalized(word) == word
  {
    assert LowerString(word) == word;
  }

  /** A word whose normal form is listed as common is common. */
  lemma ListedWordIsCommon(word: string)
    requires IsCommonWord(Normalized(word))
    ensures WordDifficulty(word) == Common
  {
  }

  lemma JustIsListed()
    ensures IsCommonWord("just")
  {
  }

  lemma JustIsNormal()
    ensures Normalized("just") == "just"
  {
    NormalizedOfLowerWord("just");
  }

  /** Membership in the common set wins over the awkward letters: "just" holds a 'j'. */
  lemma CommonBeatsAwkward()
    ensures HasAwkwardLetter("just") && WordDifficulty("just") == Common
  {
    assert "just"[0] in AwkwardLetters;
    JustIsNormal();
    JustIsListed();
    ListedWordIsCommon("just");
  }

  /** Lower-casing a word that starts with an ASCII capital and has no other capital. */
  lemma LowerCapitalized(word: string)
    requires word != [] && 'A' <= word[0] <= 'Z'
    requires forall k :: 1 <= k < |word| ==> !IsUpper(word[k])
    ensures LowerString(word) == [(word[0] as int + 32) as char] + word[1..]
  {
  }

  /** Stripping removes one trailing punctuation mark from a word without others. */
  lemma StripOneTrailing(w: string, p: char)
    requires w != [] && w[0] !in Punctuation && w[|w| - 1] !in Punctuation && p in Punctuation
    ensures Strip(w + [p], Punctuation) == w
  {
    var wp := w + [p];
    assert StripLeft(wp, Punctuation) == wp;
    assert wp[..|wp| - 1] == w;
    assert StripRight(wp, Punctuation) == StripRight(w, Punctuation);
  }

  /** Case and trailing punctuation do not stop a common word from being common. */
  lemma CapitalizedCommonWord()
    ensures WordDifficulty("The,") == Common
  {
    LowerCapitalized("The,");
    assert LowerString("The,") == "the" + [','];
    StripOneTrailing("the", ',');
    assert IsCommonWord("the");
    ListedWordIsCommon("The,");
  }

  /** An awkward letter makes a stripped, lower-cased word complex. */
  lemma CapitalizedAwkwardWord()
    ensures WordDifficulty("Quiz!") == Complex
  {
    LowerCapitalized("Quiz!");
    assert LowerString("Quiz!") == "quiz" + ['!'];
    StripOneTrailing("quiz", '!');
    assert "quiz"[0] in AwkwardLetters;
    QuizIsNotCommon();
  }

  lemma QuizIsNotCommon()
    ensures !IsCommonWord("quiz")
  {
  }

  /** The empty word is normal. */
  lemma EmptyWordIsNormal()
    ensures WordDifficulty("") == Normal
  {
    assert Normalized("") == "";
    assert !IsCommonWord("");
  }

  /** A normal word is short and free of awkward letters once stripped, and it is not common. */
  lemma NormalMeansPlain(word: string)
    requires WordDifficulty(word) == Normal
    ensures !IsCommonWord(Normalized(word))
    ensures |Normalized(word)| <= 8
    ensures forall i :: 0 <= i < |Normalized(word)| ==> Normalized(word)[i] !in AwkwardLetters
  {
  }

  /** The bigram test is case-insensitive in both characters. */
  lemma BigramIgnoresCase(a: char, b: char)
    ensures IsCommonBigram(a, b) == IsCommonBigram(Lower(a), Lower(b))
  {
    assert LowerString([a, b]) == [Lower(a), Lower(b)];
    assert LowerString([Lower(a), Lower(b)]) == [Lower(a), Lower(b)];
  }

  /** The bigram test is order-sensitive: "th" is frequent, "ht" is not. */
  lemma BigramIsOrdered()
    ensures IsCommonBigram('T', 'H') && IsCommonBigram('t', 'h')
    ensures !IsCommonBigram('h', 't')
  {
    assert LowerString(['T', 'H']) == "th";
    assert LowerString(['t', 'h']) == "th";
    assert LowerString(['h', 't']) == "ht";
  }
}
