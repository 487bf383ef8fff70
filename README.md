# Khmer syllable reordering and segmentation, in Dafny

This project models the text-processing core of a Khmer synthetic-text
generator. It covers two parts and proves what they promise.

The first part is the syllable sorter in `helper/khmer_text_sorter.py`:

- **Classifier.** The `is_*` predicates give each Khmer code point its
  role: consonant, independent vowel, dependent vowel, diacritic, final,
  shifter, robat, coeng, punctuation or numeral. RO is a special consonant.
- **Scan.** One left-to-right scan keeps a ten-slot buffer. The slots are
  Base, Robat, Coeng, Con, Coeng, Con, Shifter, Vowel, Diacritic and Final.
  - Each mark that follows a base goes into its own slot.
  - A coeng is paired with the consonant after it.
  - A subscript RO always takes the second coeng pair.
  - The buffer is flushed before a new base, numeral or punctuation mark,
    when a character does not fit, and at the end of the word. A flush
    writes the non-empty slots in slot order.
  - `sort_khm_word` returns the reordered word as one string.
    `sort_word2sub` returns the list of units.
- **Batch wrapper.** `sort_text2sub` sorts a list of words and concatenates
  their units.

The second part is `clean_khmer_text`. It appears in `clean.py` and again in
`utils/clean.py`. It removes every character that is neither in the Khmer
block U+1780..U+17FF nor whitespace.

Modules:

- `KhmerClassifier` (khmer_classifier.dfy): the role predicates, with
  `Classify`, which assigns each code point exactly one role.
- `SyllableBuffer` (syllable_buffer.dfy): the ten-slot buffer.
  - `Flatten` is the flush.
  - `IsOpenSyllable` is the slot layout the scan keeps.
- `SyllableScan` (syllable_scan.dfy): the scan as pure functions.
  - `Step` is one turn of the loop.
  - `Run` is the rest of the scan.
  - `Tokens` is the unit list of a word. `Join` concatenates units.
    `TokensOfWords` covers a list of words.
- `KhmerTextSorter` (khmer_text_sorter.dfy): the source's procedures as
  imperative methods.
  - The buffer is an `array<string>`, updated in place, and replaced by a
    fresh empty one at each flush, as the source does.
  - Each method is proved equal to the pure scan.
- `ScanUnits` (scan_units.dfy): the structure of every output. Each output
  is a sequence of canonical syllables, numerals or punctuation marks, and
  strays. A stray is a character emitted right after the syllable it did
  not fit.
- `ScanBag` (scan_bag.dfy): conservation laws.
  - No character comes out more often than it went in.
  - Numerals and punctuation marks come out all, in order.
- `ScanReparse` (scan_reparse.dfy): sorting a sorted word changes nothing.
- `ScanScenarios` (scan_scenarios.dfy): the edge cases, one word shape per
  lemma, for any characters of the roles involved.
- `Clean` (clean.dfy) and `UtilsClean` (utils_clean.dfy): the two copies of
  `clean_khmer_text`.

A Python `str` is modelled as a `seq<char>`, surrogates aside (see
"## Left out"), and `ord(c)` is `c as int`.

Four definitions carry no contract of their own. The rows below state their
properties, through the lemmas about them and the methods proved equal to them:

- `SyllableBuffer.Flatten` is `merge_temp_result` and `merge_temp`
  (helper/khmer_text_sorter.py:155-159 and 265-270).
- `SyllableScan.Run` is the scan loop from a given position and buffer,
  final flush included (helper/khmer_text_sorter.py:176-262).
- `SyllableScan.Tokens` is `sort_word2sub` (helper/khmer_text_sorter.py:273-372).
  `SortKhmWord` returns `Join(Tokens(text))`.
- `SyllableScan.TokensOfWords` is `sort_text2sub`
  (helper/khmer_text_sorter.py:375-379).

## Model

| member | source | states |
|---|---|---|
| KhmerClassifier.Classify | helper/khmer_text_sorter.py:59-138 | Each code point gets exactly one role. Each role holds exactly when its `is_*` range test holds, so the range tests are pairwise disjoint. The zero-width space U+200B is a role of its own. |
| KhmerClassifier.StandaloneExcludesDependent | helper/khmer_text_sorter.py:119-152 | `is_standalone` and `is_dependent_only` never both hold. RO is a consonant. |
| SyllableBuffer.OpenSyllableFlattens | helper/khmer_text_sorter.py:155-159 | Flushing an open syllable gives 1 to 10 characters, starting with its base. Every character is a base, robat, coeng, consonant, shifter, vowel, diacritic or final. |
| SyllableBuffer.FlattenUpdateBag | helper/khmer_text_sorter.py:202-229 | Writing a character into a slot adds it to the flushed text and removes what the slot held. |
| SyllableScan.Step | helper/khmer_text_sorter.py:176-243 | One turn of the loop consumes one or two characters. It consumes two only for a coeng followed by a consonant. |
| SyllableScan.StartUnit | helper/khmer_text_sorter.py:185-197 | A standalone character consumes one character and flushes the open syllable, if any. A numeral or punctuation mark is then emitted as a unit of its own and leaves the buffer empty. A consonant or independent vowel is not emitted; it opens a new buffer that holds it in slot 0 and nothing else. |
| SyllableScan.Attach | helper/khmer_text_sorter.py:201-237 | A mark after a base consumes one or two characters. It consumes two only for a coeng and its consonant. |
| SyllableScan.AttachCoeng | helper/khmer_text_sorter.py:204-214 | With the first pair free, a coeng consumes the next character only when that character is a consonant. |
| SyllableScan.AttachSecondCoeng | helper/khmer_text_sorter.py:215-221 | With only the second pair free, a coeng consumes the next character only when that character is a consonant. |
| SyllableScan.StepKeepsBuffer | helper/khmer_text_sorter.py:169-172 | After every turn the buffer is empty or an open syllable in slot layout. Each mark sits in its own slot. Slots 2 and 4 hold a coeng only together with a consonant in slots 3 and 5. |
| SyllableScan.StepKeepsClosedEmpty | helper/khmer_text_sorter.py:187-189 | When slot 0 is empty after a turn, the whole buffer is empty. |
| SyllableScan.RunSkipsZeroWidthSpace | helper/khmer_text_sorter.py:180-182 | U+200B is skipped. It does not close the open syllable. |
| SyllableScan.RunEmitsUnit | helper/khmer_text_sorter.py:185-194 | A numeral or punctuation mark flushes the open syllable and is emitted as a unit of its own. |
| SyllableScan.RunOpensSyllable | helper/khmer_text_sorter.py:185-197 | A consonant or independent vowel flushes the open syllable and opens a new one. |
| SyllableScan.RunAttaches | helper/khmer_text_sorter.py:201-237 | While a syllable is open, any other character is placed, dropped, or flushed and emitted, as the attach rules decide. |
| SyllableScan.RunDropsOrphan | helper/khmer_text_sorter.py:240-243 | With no syllable open, a character that is not standalone is dropped. |
| SyllableScan.TokensOfWordsAppend | helper/khmer_text_sorter.py:375-379 | The units of two word lists are the units of the first followed by the units of the second. |
| ScanUnits.AttachOutcome | helper/khmer_text_sorter.py:201-237 | A mark after a base is emitted exactly when it has no free slot. Only then is the syllable flushed before it and the buffer emptied. Otherwise the base stays. |
| ScanUnits.ParseRenders | helper/khmer_text_sorter.py:287-372 | The scan's output is the rendering of a parse into syllables, standalones and strays. |
| ScanUnits.ParseWellFormed | helper/khmer_text_sorter.py:296-349 | The parse is well formed. Every syllable is an open syllable in slot layout. Numerals and punctuation stand alone. Every stray follows a syllable it could not join. |
| ScanUnits.TokensStructure | helper/khmer_text_sorter.py:273-372 | Every unit list `sort_word2sub` returns is the rendering of a well-formed parse. |
| ScanUnits.TokensWellShaped | helper/khmer_text_sorter.py:273-372 | Every unit has 1 to 10 characters and no U+200B. A unit of several characters starts with a consonant or independent vowel. A numeral or punctuation mark is always a unit of its own. |
| ScanBag.StepBag | helper/khmer_text_sorter.py:185-237 | One turn never emits or keeps a character that was neither read nor already buffered. |
| ScanBag.RunBag | helper/khmer_text_sorter.py:176-262 | The output of the rest of the scan holds no character more often than the buffer and the unread text together. |
| ScanBag.TokensBag | helper/khmer_text_sorter.py:162-262 | The sorted word holds no character more often than the input, so it is never longer than the input. |
| ScanBag.StepSigns | helper/khmer_text_sorter.py:185-194 | One turn emits exactly the numerals and punctuation marks it reads. |
| ScanBag.RunSigns | helper/khmer_text_sorter.py:176-259 | The output of the rest of the scan holds exactly the unread numerals and punctuation marks, in their order. |
| ScanBag.TokensKeepSigns | helper/khmer_text_sorter.py:162-262 | The sorted word keeps every numeral and punctuation mark of the input, in order. |
| ScanReparse.SyllableReparse | helper/khmer_text_sorter.py:202-229 | Scanning a flushed syllable from an empty buffer rebuilds the same buffer. |
| ScanReparse.CanonicalSyllableUnchanged | helper/khmer_text_sorter.py:169-172 | A syllable already in slot order is one unit, returned unchanged. |
| ScanReparse.RunFlushesBeforeStandalone | helper/khmer_text_sorter.py:185-197 | Before a standalone character the open syllable is flushed. The scan then goes on as if no syllable had been open. |
| ScanReparse.RunFlushesStray | helper/khmer_text_sorter.py:233-236 | A character that fits nowhere in the open syllable is emitted right after it. |
| ScanReparse.ReparseUnits | helper/khmer_text_sorter.py:287-372 | Scanning the rendering of a well-formed parse returns that rendering unit for unit. |
| ScanReparse.TokensIdempotent | helper/khmer_text_sorter.py:273-372 | Splitting the joined units of a word again gives the same units. |
| ScanReparse.SortedWordIdempotent | helper/khmer_text_sorter.py:162-262 | Sorting a sorted word changes nothing. This holds for every input, not only for input already in canonical order. |
| ScanScenarios.RobatMovesBeforeVowel | helper/khmer_text_sorter.py:202-225 | Base + vowel + robat comes out as base + robat + vowel. |
| ScanScenarios.SubscriptRoGoesLast | helper/khmer_text_sorter.py:204-214 | Base + coeng + RO + coeng + X, with X a consonant other than RO, comes out as base + coeng + X + coeng + RO. |
| ScanScenarios.SecondRoPairOverwrites | helper/khmer_text_sorter.py:204-214 | A second coeng + RO, arriving while the first pair is still free, overwrites the first. One pair is lost. |
| ScanScenarios.RunOverwritesRoPair | helper/khmer_text_sorter.py:211-214 | With the first pair free, coeng + RO goes to slots 4-5 whatever they held. |
| ScanScenarios.RunDropsCoeng | helper/khmer_text_sorter.py:204-221 | A coeng before a non-consonant, while a coeng slot is free, is dropped and the next character is read normally. |
| ScanScenarios.ZeroWidthSpaceKeepsSyllable | helper/khmer_text_sorter.py:180-182 | Base + U+200B + vowel is one syllable, base + vowel. |
| ScanScenarios.ZeroWidthSpaceBetweenSyllables | helper/khmer_text_sorter.py:180-197 | Two bases around U+200B give two units and no U+200B. |
| ScanScenarios.OrphanMarkDropped | helper/khmer_text_sorter.py:240-243 | A mark before any base is dropped. |
| ScanScenarios.CoengBeforeVowelDropped | helper/khmer_text_sorter.py:204-214 | Base + coeng + vowel comes out as base + vowel. |
| ScanScenarios.FinalCoengEmitted | helper/khmer_text_sorter.py:204-236 | A coeng that ends the word flushes the syllable and comes out as a unit of its own. |
| ScanScenarios.ThirdCoengEmitted | helper/khmer_text_sorter.py:204-236 | A third coeng pair flushes the syllable. The coeng comes out alone, and its consonant opens a new syllable. |
| ScanScenarios.SpaceEmittedAfterSyllable | helper/khmer_text_sorter.py:233-236 | A space after a syllable is emitted right after it. |
| ScanScenarios.NumeralClosesSyllable | helper/khmer_text_sorter.py:185-194 | A numeral flushes the syllable and stands alone. A vowel after it has no base and is dropped. |
| KhmerTextSorter.MergeTempResult | helper/khmer_text_sorter.py:155-159 | Appends the flushed buffer, its non-empty slots in slot order, to `result`. |
| KhmerTextSorter.MergeTemp | helper/khmer_text_sorter.py:265-270 | Returns the flushed buffer: its non-empty slots in slot order. |
| KhmerTextSorter.EmptyBuffer | helper/khmer_text_sorter.py:172 | Allocates a new buffer with all ten slots empty. The buffer is not shared with any earlier one. |
| KhmerTextSorter.AttachMark | helper/khmer_text_sorter.py:201-237 | Updates the buffer in place as the attach rules say and reports the last character read. For a misfit it leaves the buffer alone and reports the flush. |
| KhmerTextSorter.SortKhmWord | helper/khmer_text_sorter.py:162-262 | Returns the units of the word, joined. So it equals `sort_word2sub` joined, and the lemmas on `Tokens` apply to it. |
| KhmerTextSorter.KhmStandalone | helper/khmer_text_sorter.py:185-198 | One turn on a standalone character does what `Step` does. The buffer becomes `Step`'s new slots. The result gains the flushed syllable, then the numeral or punctuation mark if that is what was read. Reading resumes at the next character. |
| KhmerTextSorter.KhmAttach | helper/khmer_text_sorter.py:201-238 | One turn on a mark after a base does what `Step` does. The buffer becomes `Step`'s new slots, the result gains `Step`'s emitted text, and `next` is `Step`'s next position. |
| KhmerTextSorter.SortWord2Sub | helper/khmer_text_sorter.py:273-372 | Returns the units of the word that the pure scan defines. |
| KhmerTextSorter.SubStandalone | helper/khmer_text_sorter.py:296-309 | One turn on a standalone character does what `Step` does. The buffer becomes `Step`'s new slots, and the list gains `Step`'s emitted units. Reading resumes at the next character. |
| KhmerTextSorter.SubAttach | helper/khmer_text_sorter.py:312-349 | One turn on a mark after a base does what `Step` does. The buffer becomes `Step`'s new slots, the list gains `Step`'s emitted units, and `next` is `Step`'s next position. |
| KhmerTextSorter.SortText2Sub | helper/khmer_text_sorter.py:375-379 | Returns the units of each word in turn, concatenated. |
| Clean.CleanKhmerText | clean.py:4-9 | The filter itself. The result is never longer than the input and holds no character the input lacks. Which characters it keeps, and in what order, is stated by the lemmas below. |
| Clean.CleanOnlyKept | clean.py:4-9 | Every character of the result is in U+1780..U+17FF or is whitespace. |
| Clean.CleanCounts | clean.py:4-9 | Each Khmer-block or whitespace character is kept as often as it occurs in the input. Every other character is removed. |
| Clean.CleanKeepsOrder | clean.py:4-9 | The result is a subsequence of the input: kept characters keep their order. |
| Clean.CleanShortens | clean.py:4-9 | The result is never longer than the input. It is strictly shorter when some character is removed. |
| Clean.CleanAppend | clean.py:4-9 | Cleaning works character by character: cleaning a concatenation concatenates the cleaned parts. |
| Clean.CleanUnchanged | clean.py:4-9 | A text is returned unchanged exactly when all of its characters are Khmer-block or whitespace. |
| Clean.CleanAllKept | clean.py:4-9 | A text made only of Khmer-block and whitespace characters is returned unchanged. |
| Clean.CleanIdempotent | clean.py:4-9 | Cleaning twice is cleaning once. |
| Clean.CleanRemovesZeroWidthSpace | clean.py:4-9 | U+200B never survives cleaning. |
| UtilsClean.CleanKhmerText | utils/clean.py:3-8 | The `utils` copy of the filter. The result is never longer than the input and holds no character the input lacks. |
| UtilsClean.SameAsTopLevel | utils/clean.py:3-8 | The `utils` copy returns the same text as the top-level one on every input, so every `Clean` property holds for it as well. |
| UtilsClean.Idempotent | utils/clean.py:3-8 | Cleaning twice with the `utils` copy is cleaning once. |

## Left out

- Both `__main__` blocks of the clean files are left out. They read and write files and print.
- The rest of the repository is not part of this model: image rendering, random syllable generation, bounding boxes, XML output and dataset splitting.
- The commented-out pass-through of orphaned marks is not modelled, because the code drops those marks. The same goes for a second modifier slot: the code keeps one diacritic slot, so a second diacritic flushes the syllable.
- Clean.IsWhitespace: the regular-expression class `\s` is given as its concrete set of code points. These are the ones for which Python's `str.isspace` holds. The model does not cover changes to that set between Python versions.
- A Dafny `char` is a Unicode scalar value, so strings here cannot hold the surrogate code points U+D800..U+DFFF that a Python `str` can. The model says nothing about them: `clean_khmer_text` removes them, and the sorter emits one right after an open syllable and drops one when no syllable is open. Byte encodings are not modelled either.
- KhmerTextSorter.SortText2Sub takes a sequence of words. The source annotates its parameter as `str`, but it iterates over it word by word. Given a `str`, each word would be one character.
- KhmerTextSorter.KhmStandalone, KhmerTextSorter.KhmAttach, KhmerTextSorter.SubStandalone and KhmerTextSorter.SubAttach are the two branches of each loop body, split out as methods.
- Where the documentation of the sorter and its code differ, the model follows the code:
  - The code keeps one modifier slot, where the documentation allows two.
  - The code pairs a coeng with any consonant, LA included. The documentation excludes LA.
  - The code emits a space or other non-Khmer character that arrives while a syllable is open, right after that syllable. It does not remove it as a separator. Only a character that arrives with no syllable open is dropped.
