/** The chirp profanity filter of cleanWords.go. */
module Profanity {
  import opened Text

  /** What a banned word is replaced by. */
  const Mask: Bytes := Str("****")

  /** The banned words, in lower case. */
  const Kerfuffle: Bytes := Str("kerfuffle")
  const Sharbert: Bytes := Str("sharbert")
  const Fornax: Bytes := Str("fornax")

  /** A word whose lower-case form is one of the three banned words. */
  predicate IsProfane(word: Bytes)
  {
    var lower := Lower(word);
    lower == Kerfuffle || lower == Sharbert || lower == Fornax
  }

  /** What the filter puts in place of one word. */
  function MaskWord(word: Bytes): Bytes
  {
    if IsProfane(word) then Mask else word
  }

  /** Every word of `words` put through `MaskWord`, position by position. */
  function MaskWords(words: seq<Bytes>): (masked: seq<Bytes>)
    ensures |masked| == |words|
  {
    seq(|words|, i requires 0 <= i < |words| => MaskWord(words[i]))
  }

  /** The filtered sentence: split on single spaces, mask word by word, join with single spaces. */
  function Cleaned(sentence: Bytes): Bytes
  {
    Join(MaskWords(Split(sentence)))
  }

  /** `cleanWords`, filling a fresh slot per word before joining. */
  method CleanWords(sentence: Bytes) returns (cleaned: Bytes)
    ensures cleaned == Cleaned(sentence)
  {
    var words := Split(sentence);
    var newSentence := new Bytes[|words|];
    for i := 0 to |words|
      invariant newSentence[..i] == MaskWords(words)[..i]
    {
      if IsProfane(words[i]) {
        newSentence[i] := Mask;
      } else {
        newSentence[i] := words[i];
      }
    }
    assert newSentence[..] == newSentence[..|words|];
    assert MaskWords(words)[..|words|] == MaskWords(words);
    cleaned := Join(newSentence[..]);
  }

  lemma MaskIsNotProfane()
    ensures Space !in Mask && !IsProfane(Mask)
  {
    assert |Lower(Mask)| == 4;
  }

  /** Masked words stay free of spaces. */
  lemma {:induction false} MaskWordsSpaceFree(words: seq<Bytes>)
    requires forall i | 0 <= i < |words| :: Space !in words[i]
    ensures forall i | 0 <= i < |MaskWords(words)| :: Space !in MaskWords(words)[i]
  {
    MaskIsNotProfane();
  }

  /**
   * The filtered sentence has exactly the words of the input, in the same
   * positions, each one masked if and only if it is banned.
   */
  lemma {:induction false} CleanedWords(sentence: Bytes)
    ensures |Split(Cleaned(sentence))| == |Split(sentence)|
    ensures forall i | 0 <= i < |Split(sentence)| ::
      Split(Cleaned(sentence))[i] == if IsProfane(Split(sentence)[i]) then Mask else Split(sentence)[i]
  {
    var words := Split(sentence);
    MaskWordsSpaceFree(words);
    SplitJoin(MaskWords(words));
  }

  /** A sentence without a banned word comes back unchanged, empty words included. */
  lemma {:induction false} CleanedWithoutProfanity(sentence: Bytes)
    requires forall i | 0 <= i < |Split(sentence)| :: !IsProfane(Split(sentence)[i])
    ensures Cleaned(sentence) == sentence
  {
    var words := Split(sentence);
    assert MaskWords(words) == words;
  }

  /** Filtering twice is filtering once: `****` is not itself banned. */
  lemma {:induction false} CleanedIdempotent(sentence: Bytes)
    ensures Cleaned(Cleaned(sentence)) == Cleaned(sentence)
  {
    var words := Split(sentence);
    var masked := MaskWords(words);
    MaskWordsSpaceFree(words);
    SplitJoin(masked);
    MaskIsNotProfane();
    assert MaskWords(masked) == masked;
  }

  /** Filtering keeps every space, so the words keep their positions. */
  lemma {:induction false} CleanedKeepsSpaces(sentence: Bytes)
    ensures Count(Cleaned(sentence), Space) == Count(sentence, Space)
  {
    var words := Split(sentence);
    MaskWordsSpaceFree(words);
    JoinCount(MaskWords(words));
  }

  /** Matching ignores letter case: a word is banned iff its lower-case form is. */
  lemma {:induction false} ProfaneIgnoresCase(word: Bytes)
    ensures IsProfane(word) <==> IsProfane(Lower(word))
  {
    LowerIdempotent(word);
  }

  /** A sentence of one word is that word, masked if it is banned. */
  lemma {:induction false} CleanedOneWord(word: Bytes)
    requires Space !in word
    ensures Cleaned(word) == MaskWord(word)
  {
    SplitWord(word);
    assert MaskWords([word]) == [MaskWord(word)];
  }

  // Matching ignores case but is exact: punctuation keeps a word.

  lemma CleanedMixedCase()
    ensures Cleaned(Str("Fornax")) == Mask
  {
    StrWithoutBlank("Fornax");
    CleanedOneWord(Str("Fornax"));
    assert Lower(Str("Fornax")) == Fornax;
  }

  lemma CleanedUpperCase()
    ensures Cleaned(Str("SHARBERT")) == Mask
  {
    StrWithoutBlank("SHARBERT");
    CleanedOneWord(Str("SHARBERT"));
    assert Lower(Str("SHARBERT")) == Sharbert;
  }

  lemma CleanedPunctuationKept()
    ensures Cleaned(Str("kerfuffle!")) == Str("kerfuffle!")
  {
    StrWithoutBlank("kerfuffle!");
    CleanedOneWord(Str("kerfuffle!"));
    assert |Lower(Str("kerfuffle!"))| == 10;
    assert |Kerfuffle| == 9 && |Sharbert| == 8 && |Fornax| == 6;
  }
}
