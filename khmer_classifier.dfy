/** Structural roles of the code points of the Khmer block (U+1780..U+17FF).
    Every predicate is a range test on the integer code point, as the
    sorter applies them to `ord(char)`. */
module KhmerClassifier {

  const ZERO_WIDTH_SPACE: int := 0x200B
  const COENG: int := 0x17D2
  const RO: int := 0x179A
  const ROBAT: int := 0x17CC

  predicate IsConsonant(code: int) { 0x1780 <= code <= 0x17A2 }

  predicate IsIndependentVowel(code: int) { 0x17A5 <= code <= 0x17B3 }

  /** A dependent vowel sign. */
  predicate IsVowel(code: int) { 0x17B6 <= code <= 0x17C5 }

  /** NIKAHIT, BANTOC and U+17CD..U+17D1; ROBAT (U+17CC) is not among them. */
  predicate IsDiacritic(code: int) { code == 0x17C6 || code == 0x17CB || 0x17CD <= code <= 0x17D1 }

  /** REAHMUK and YUUKALEAPINTU. */
  predicate IsFinal(code: int) { 0x17C7 <= code <= 0x17C8 }

  /** MUUSIKATOAN and TRIISAP. */
  predicate IsShifter(code: int) { code == 0x17C9 || code == 0x17CA }

  predicate IsRobat(code: int) { code == ROBAT }

  predicate IsCoeng(code: int) { code == COENG }

  predicate IsPunctuation(code: int) { 0x17D4 <= code <= 0x17DB }

  predicate IsNumeral(code: int) { 0x17E0 <= code <= 0x17E9 }

  /** A character that is never attached to a previous base: it opens a
      syllable (consonant, independent vowel) or is a unit of its own. */
  predicate IsStandalone(code: int) {
    IsConsonant(code) || IsIndependentVowel(code) || IsNumeral(code) || IsPunctuation(code)
  }

  /** A syllable base: a consonant or an independent vowel. */
  predicate IsBase(code: int) { IsConsonant(code) || IsIndependentVowel(code) }

  /** `is_punctuation_or_final`. The sorter defines it but never calls it;
      it is kept so that every classifier has its counterpart. */
  predicate IsPunctuationOrFinal(code: int) { IsPunctuation(code) || IsFinal(code) }

  predicate IsRo(code: int) { code == RO }

  /** A character that cannot stand alone. */
  predicate IsDependentOnly(code: int) {
    IsVowel(code) || IsCoeng(code) || IsDiacritic(code) || IsRobat(code) || IsShifter(code) || IsFinal(code)
  }

  datatype Role =
    | Consonant | IndependentVowel | DependentVowel | Diacritic | Final
    | Shifter | Robat | Coeng | Punctuation | Numeral | ZeroWidthSpace | Other

  /** The one role of a code point. Each role holds exactly when its
      predicate does, so the predicates are pairwise disjoint and every code
      point outside them (space, Latin, U+17A3, U+17D3, ...) is `Other`. */
  function Classify(code: int): (r: Role)
    ensures r == Consonant <==> IsConsonant(code)
    ensures r == IndependentVowel <==> IsIndependentVowel(code)
    ensures r == DependentVowel <==> IsVowel(code)
    ensures r == Diacritic <==> IsDiacritic(code)
    ensures r == Final <==> IsFinal(code)
    ensures r == Shifter <==> IsShifter(code)
    ensures r == Robat <==> IsRobat(code)
    ensures r == Coeng <==> IsCoeng(code)
    ensures r == Punctuation <==> IsPunctuation(code)
    ensures r == Numeral <==> IsNumeral(code)
    ensures r == ZeroWidthSpace <==> code == ZERO_WIDTH_SPACE
    ensures r == Other <==> !IsStandalone(code) && !IsDependentOnly(code) && code != ZERO_WIDTH_SPACE
  {
    if IsConsonant(code) then Consonant
    else if IsIndependentVowel(code) then IndependentVowel
    else if IsVowel(code) then DependentVowel
    else if IsDiacritic(code) then Diacritic
    else if IsFinal(code) then Final
    else if IsShifter(code) then Shifter
    else if IsRobat(code) then Robat
    else if IsCoeng(code) then Coeng
    else if IsPunctuation(code) then Punctuation
    else if IsNumeral(code) then Numeral
    else if code == ZERO_WIDTH_SPACE then ZeroWidthSpace
    else Other
  }

  /** No code point is both standalone and dependent-only, and RO is a consonant. */
  lemma StandaloneExcludesDependent(code: int)
    ensures !(IsStandalone(code) && IsDependentOnly(code))
    ensures IsRo(code) ==> IsConsonant(code)
  {
  }
}
