/** The left-to-right scan shared by `sort_khm_word` and `sort_word2sub`,
    as a pure state machine: a read position, the ten-slot buffer, and the
    units emitted so far. */
module SyllableScan {
  import opened KhmerClassifier
  import opened SyllableBuffer

  /** One transition: where reading resumes, the buffer afterwards, and the
      units emitted by the transition, in order. */
  datatype Move = Move(next: nat, slots: seq<string>, emitted: seq<string>)

  /** The buffer flushed as a unit, if a syllable is open. */
  function Flushed(temp: seq<string>): (r: seq<string>)
    requires |temp| == SLOT_COUNT
  {
    if temp[0] != "" then [Flatten(temp)] else []
  }

  /** A buffer without a base holds nothing at all. */
  predicate ClosedIsEmpty(temp: seq<string>)
    requires |temp| == SLOT_COUNT
  {
    temp[0] == "" ==> temp == EMPTY_SLOTS
  }

  /** One iteration of the scan loop at position `i` with buffer `temp`.
      It reads one character, or two when a coeng takes the consonant after
      it. U+200B is skipped; a standalone character flushes the buffer; any
      other character attaches to an open syllable, or is dropped when no
      syllable is open. */
  function Step(text: string, i: nat, temp: seq<string>): (m: Move)
    requires i < |text| && |temp| == SLOT_COUNT
    ensures i < m.next <= i + 2 && m.next <= |text| && |m.slots| == SLOT_COUNT
    ensures m.next == i + 2 ==> IsCoeng(text[i] as int) && IsConsonant(text[i + 1] as int)
  {
    var code := text[i] as int;
    if code == ZERO_WIDTH_SPACE then Move(i + 1, temp, [])
    else if IsStandalone(code) then StartUnit(text, i, temp)
    else if temp[0] != "" then Attach(text, i, temp)
    else Move(i + 1, temp, [])
  }

  /** A standalone character: the open syllable (if any) is flushed; a
      numeral or punctuation mark is emitted as a unit of its own, a base
      opens a new syllable. The source keeps the old slots when slot 0 is
      empty; this starts from empty slots instead. The two agree on every
      buffer the scan reaches, since a buffer without a base is empty
      throughout (StepKeepsClosedEmpty); the lemmas stated for any buffer
      describe this function, and the loop methods, which keep the old
      slots as the source does, require `ClosedIsEmpty`. */
  function StartUnit(text: string, i: nat, temp: seq<string>): (m: Move)
    requires i < |text| && |temp| == SLOT_COUNT && IsStandalone(text[i] as int)
    ensures m.next == i + 1 && |m.slots| == SLOT_COUNT
    ensures var sign := IsNumeral(text[i] as int) || IsPunctuation(text[i] as int);
      m.emitted == Flushed(temp) + (if sign then [[text[i]]] else [])
      && (m.slots[0] == "" <==> sign)
      && (!sign ==> m.slots[0] == [text[i]])
      && forall k :: 1 <= k < SLOT_COUNT ==> m.slots[k] == ""
  {
    var c := text[i];
    if IsNumeral(c as int) || IsPunctuation(c as int) then
      Move(i + 1, EMPTY_SLOTS, Flushed(temp) + [[c]])
    else
      Move(i + 1, EMPTY_SLOTS[0 := [c]], Flushed(temp))
  }

  /** A non-standalone character while a syllable is open: it goes to the
      first matching free slot; otherwise the syllable is flushed and the
      character emitted after it. */
  function Attach(text: string, i: nat, temp: seq<string>): (m: Move)
    requires i < |text| && |temp| == SLOT_COUNT
    ensures i < m.next <= i + 2 && m.next <= |text| && |m.slots| == SLOT_COUNT
    ensures m.next == i + 2 ==> IsCoeng(text[i] as int) && IsConsonant(text[i + 1] as int)
  {
    var c := text[i];
    var code := c as int;
    if IsRobat(code) && temp[1] == "" then
      Move(i + 1, temp[1 := [c]], [])
    else if IsCoeng(code) && i + 1 < |text| && temp[2] == "" then
      AttachCoeng(text, i, temp)
    else if IsCoeng(code) && i + 1 < |text| && temp[4] == "" then
      AttachSecondCoeng(text, i, temp)
    else if IsShifter(code) && temp[6] == "" then
      Move(i + 1, temp[6 := [c]], [])
    else if IsVowel(code) && temp[7] == "" then
      Move(i + 1, temp[7 := [c]], [])
    else if IsDiacritic(code) && temp[8] == "" then
      Move(i + 1, temp[8 := [c]], [])
    else if IsFinal(code) && temp[9] == "" then
      Move(i + 1, temp[9 := [c]], [])
    else
      Move(i + 1, EMPTY_SLOTS, [Flatten(temp), [c]])
  }

  /** A coeng while the first coeng slot is free: with the consonant after it,
      it fills slots 2-3, or slots 4-5 when that consonant is RO (overwriting
      them); before anything else it is dropped. */
  function AttachCoeng(text: string, i: nat, temp: seq<string>): (m: Move)
    requires i + 1 < |text| && |temp| == SLOT_COUNT
    ensures i < m.next <= i + 2 && |m.slots| == SLOT_COUNT
    ensures m.next == i + 2 ==> IsConsonant(text[i + 1] as int)
  {
    var c, n := text[i], text[i + 1];
    if IsConsonant(n as int) && !IsRo(n as int) then
      Move(i + 2, temp[2 := [c]][3 := [n]], [])
    else if IsConsonant(n as int) && IsRo(n as int) then
      Move(i + 2, temp[4 := [c]][5 := [n]], [])
    else
      Move(i + 1, temp, [])
  }

  /** A coeng while only the second coeng slot is free: with the consonant
      after it, it fills slots 4-5; before anything else it is dropped. */
  function AttachSecondCoeng(text: string, i: nat, temp: seq<string>): (m: Move)
    requires i + 1 < |text| && |temp| == SLOT_COUNT
    ensures i < m.next <= i + 2 && |m.slots| == SLOT_COUNT
    ensures m.next == i + 2 ==> IsConsonant(text[i + 1] as int)
  {
    var c, n := text[i], text[i + 1];
    if IsConsonant(n as int) then
      Move(i + 2, temp[4 := [c]][5 := [n]], [])
    else
      Move(i + 1, temp, [])
  }

  /** The units the scan emits from position `i` on, starting with buffer
      `temp`, including the final flush at the end of the text. */
  function Run(text: string, i: nat, temp: seq<string>): seq<string>
    requires i <= |text| && |temp| == SLOT_COUNT
    decreases |text| - i, 1
  {
    if i == |text| then Flushed(temp) else Continue(text, i, Step(text, i, temp))
  }

  /** The units of the transition `m` taken at position `i`, then the rest of the scan. */
  function Continue(text: string, i: nat, m: Move): seq<string>
    requires i < m.next <= |text| && |m.slots| == SLOT_COUNT
    decreases |text| - i, 0
  {
    m.emitted + Run(text, m.next, m.slots)
  }

  /** The units of a word: what `sort_word2sub` returns. */
  function Tokens(text: string): seq<string>
  {
    Run(text, 0, EMPTY_SLOTS)
  }

  /** The units concatenated in order. */
  function Join(units: seq<string>): string
  {
    if units == [] then "" else units[0] + Join(units[1..])
  }

  /** The units of every word, one word after another: what `sort_text2sub` returns. */
  function TokensOfWords(words: seq<string>): seq<string>
  {
    if words == [] then [] else TokensOfWords(words[..|words| - 1]) + Tokens(words[|words| - 1])
  }

  /** A step keeps the buffer empty or an open syllable. */
  lemma StepKeepsBuffer(text: string, i: nat, temp: seq<string>)
    requires i < |text| && BufferInvariant(temp)
    ensures BufferInvariant(Step(text, i, temp).slots)
  {
    var code := text[i] as int;
    if code != ZERO_WIDTH_SPACE && !IsStandalone(code) && temp[0] != "" {
      AttachKeepsSyllable(text, i, temp);
    } else if code != ZERO_WIDTH_SPACE && IsStandalone(code) && !IsNumeral(code) && !IsPunctuation(code) {
      var t := EMPTY_SLOTS[0 := [text[i]]];
      assert t[1] == t[2] == t[3] == t[4] == t[5] == t[6] == t[7] == t[8] == t[9] == "";
      assert IsOpenSyllable(t);
    }
  }

  /** Attaching to an open syllable leaves an open syllable, or an empty buffer after a flush. */
  lemma AttachKeepsSyllable(text: string, i: nat, temp: seq<string>)
    requires i < |text| && IsOpenSyllable(temp)
    ensures BufferInvariant(Attach(text, i, temp).slots)
  {
    var c := text[i];
    var code := c as int;
    if IsRobat(code) && temp[1] == "" {
      PlaceKeepsSyllable(temp, 1, c);
    } else if IsCoeng(code) && i + 1 < |text| && temp[2] == "" {
      var n := text[i + 1];
      if IsConsonant(n as int) {
        PairKeepsSyllable(temp, if IsRo(n as int) then 4 else 2, c, n);
      }
    } else if IsCoeng(code) && i + 1 < |text| && temp[4] == "" {
      var n := text[i + 1];
      if IsConsonant(n as int) {
        PairKeepsSyllable(temp, 4, c, n);
      }
    } else if IsShifter(code) && temp[6] == "" {
      PlaceKeepsSyllable(temp, 6, c);
    } else if IsVowel(code) && temp[7] == "" {
      PlaceKeepsSyllable(temp, 7, c);
    } else if IsDiacritic(code) && temp[8] == "" {
      PlaceKeepsSyllable(temp, 8, c);
    } else if IsFinal(code) && temp[9] == "" {
      PlaceKeepsSyllable(temp, 9, c);
    }
  }

  /** The role a single-character slot admits. */
  function SlotRole(k: nat): Role
  {
    match k
    case 1 => Robat
    case 6 => Shifter
    case 7 => DependentVowel
    case 8 => Diacritic
    case _ => Final
  }

  /** A coeng and its consonant stored whole in slots k, k+1 (overwriting
      whatever pair was there): the first pair never takes RO, and the second
      pair alone only takes RO. */
  lemma PairKeepsSyllable(t: seq<string>, k: nat, c: char, n: char)
    requires IsOpenSyllable(t) && k in {2, 4}
    requires IsCoeng(c as int) && IsConsonant(n as int)
    requires k == 2 ==> !IsRo(n as int)
    requires k == 4 && t[2] == "" ==> IsRo(n as int)
    ensures IsOpenSyllable(t[k := [c]][k + 1 := [n]])
  {
    var u := t[k := [c]][k + 1 := [n]];
    assert forall j :: 0 <= j < SLOT_COUNT && j != k && j != k + 1 ==> u[j] == t[j];
  }

  lemma PlaceKeepsSyllable(t: seq<string>, k: nat, c: char)
    requires IsOpenSyllable(t) && k in {1, 6, 7, 8, 9} && t[k] == ""
    requires Classify(c as int) == SlotRole(k)
    ensures IsOpenSyllable(t[k := [c]])
  {
    var u := t[k := [c]];
    assert forall j :: 0 <= j < SLOT_COUNT && j != k ==> u[j] == t[j];
  }

  /** A step never leaves stray slot contents in a buffer without a base. */
  lemma StepKeepsClosedEmpty(text: string, i: nat, temp: seq<string>)
    requires i < |text| && |temp| == SLOT_COUNT && ClosedIsEmpty(temp)
    ensures ClosedIsEmpty(Step(text, i, temp).slots)
  {
  }

  /** U+200B is consumed without output and without closing the open syllable. */
  lemma RunSkipsZeroWidthSpace(text: string, i: nat, temp: seq<string>)
    requires i < |text| && |temp| == SLOT_COUNT && text[i] as int == ZERO_WIDTH_SPACE
    ensures Run(text, i, temp) == Run(text, i + 1, temp)
  {
  }

  /** A numeral or punctuation mark flushes the open syllable and is then
      emitted as a unit of its own; the scan goes on with an empty buffer. */
  lemma RunEmitsUnit(text: string, i: nat, temp: seq<string>)
    requires i < |text| && |temp| == SLOT_COUNT
    requires IsNumeral(text[i] as int) || IsPunctuation(text[i] as int)
    ensures Run(text, i, temp) == Flushed(temp) + [[text[i]]] + Run(text, i + 1, EMPTY_SLOTS)
  {
  }

  /** A base flushes the open syllable and opens a new one holding only itself. */
  lemma RunOpensSyllable(text: string, i: nat, temp: seq<string>)
    requires i < |text| && |temp| == SLOT_COUNT && IsBase(text[i] as int)
    ensures Run(text, i, temp) == Flushed(temp) + Run(text, i + 1, EMPTY_SLOTS[0 := [text[i]]])
  {
  }

  /** Any other character, while a syllable is open, is handled by `Attach`. */
  lemma RunAttaches(text: string, i: nat, temp: seq<string>)
    requires i < |text| && |temp| == SLOT_COUNT && temp[0] != ""
    requires text[i] as int != ZERO_WIDTH_SPACE && !IsStandalone(text[i] as int)
    ensures var a := Attach(text, i, temp);
      Run(text, i, temp) == a.emitted + Run(text, a.next, a.slots)
  {
  }

  /** Any other character, while no syllable is open, is dropped. */
  lemma RunDropsOrphan(text: string, i: nat, temp: seq<string>)
    requires i < |text| && |temp| == SLOT_COUNT && temp[0] == ""
    requires text[i] as int != ZERO_WIDTH_SPACE && !IsStandalone(text[i] as int)
    ensures Run(text, i, temp) == Run(text, i + 1, temp)
  {
  }

  lemma JoinSmall(a: string, b: string)
    ensures Join([]) == ""
    ensures Join([a]) == a
    ensures Join([a, b]) == a + b
  {
    assert [a][1..] == [];
    assert [a, b][1..] == [b];
    assert [b][1..] == [];
  }

  /** Joining after a flush adds the flushed syllable, if any, to what was joined so far. */
  lemma JoinAfterFlush(result: string, t: seq<string>, rest: seq<string>)
    requires |t| == SLOT_COUNT
    ensures result + Join(Flushed(t) + rest) == (if t[0] != "" then result + Flatten(t) else result) + Join(rest)
  {
    if t[0] != "" {
      JoinFront(Flatten(t), Flatten(t), rest);
    } else {
      assert Flushed(t) + rest == rest;
    }
  }

  /** Collecting after a flush adds the flushed syllable, if any, to what was collected so far. */
  lemma UnitsAfterFlush(result: seq<string>, t: seq<string>, rest: seq<string>)
    requires |t| == SLOT_COUNT
    ensures result + (Flushed(t) + rest) == (if t[0] != "" then result + [Flatten(t)] else result) + rest
  {
    if t[0] == "" {
      assert Flushed(t) + rest == rest;
    }
  }

  lemma Regroup<T>(a: seq<T>, b: seq<T>, c: seq<T>)
    ensures (a + b) + c == a + (b + c)
  {
  }

  /** One unit, or two, in front of the rest. */
  lemma JoinFront(x: string, y: string, rest: seq<string>)
    ensures Join([x] + rest) == x + Join(rest)
    ensures Join([x, y] + rest) == x + y + Join(rest)
  {
    assert ([x] + rest)[1..] == rest;
    assert ([x, y] + rest)[1..] == [y] + rest;
    assert ([y] + rest)[1..] == rest;
  }

  lemma {:induction false} JoinAppend(a: seq<string>, b: seq<string>)
    ensures Join(a + b) == Join(a) + Join(b)
    decreases |a|
  {
    if a == [] {
      assert a + b == b;
    } else {
      assert (a + b)[1..] == a[1..] + b;
      JoinAppend(a[1..], b);
    }
  }

  /** Sorting a list of words one word at a time: the units of two lists of
      words are the units of the first followed by those of the second. */
  lemma {:induction false} TokensOfWordsAppend(a: seq<string>, b: seq<string>)
    ensures TokensOfWords(a + b) == TokensOfWords(a) + TokensOfWords(b)
    decreases |b|
  {
    if b == [] {
      assert a + b == a;
    } else {
      var init := b[..|b| - 1];
      var last := b[|b| - 1];
      assert (a + b)[..|a + b| - 1] == a + init;
      assert (a + b)[|a + b| - 1] == last;
      TokensOfWordsAppend(a, init);
      Regroup(TokensOfWords(a), TokensOfWords(init), Tokens(last));
    }
  }

  /** One turn of the loop, on the joined output: the text emitted so far
      grows by the turn's units, and the rest of the scan starts from the
      turn's new position and buffer. */
  lemma JoinStep(text: string, i: nat, temp: seq<string>, result: string)
    requires i < |text| && |temp| == SLOT_COUNT
    ensures var m := Step(text, i, temp);
      result + Join(Run(text, i, temp)) == (result + Join(m.emitted)) + Join(Run(text, m.next, m.slots))
  {
    var m := Step(text, i, temp);
    var rest := Run(text, m.next, m.slots);
    assert Run(text, i, temp) == m.emitted + rest;
    JoinAppend(m.emitted, rest);
  }

  /** One turn of the loop, on the list of units. */
  lemma UnitsStep(text: string, i: nat, temp: seq<string>, result: seq<string>)
    requires i < |text| && |temp| == SLOT_COUNT
    ensures var m := Step(text, i, temp);
      result + Run(text, i, temp) == (result + m.emitted) + Run(text, m.next, m.slots)
  {
    var m := Step(text, i, temp);
    assert Run(text, i, temp) == m.emitted + Run(text, m.next, m.slots);
  }
}
