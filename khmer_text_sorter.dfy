/** The sorter's procedures: the buffer merges, the two copies of the scan
    loop (one building a string, one a list of units) and the batch wrapper.
    Each is proved against the pure scan of module SyllableScan. */
module KhmerTextSorter {
  import opened KhmerClassifier
  import opened SyllableBuffer
  import opened SyllableScan

  /** `merge_temp_result`: appends the non-empty slots, in index order, to `result`. */
  method MergeTempResult(temp: array<string>, result: string) returns (r: string)
    ensures r == result + Flatten(temp[..])
  {
    r := result;
    var k := 0;
    while k < temp.Length
      invariant 0 <= k <= temp.Length
      invariant r == result + Flatten(temp[..k])
    {
      assert temp[..k + 1][..k] == temp[..k];
      if temp[k] != "" {
        r := r + temp[k];
      }
      k := k + 1;
    }
    assert temp[..temp.Length] == temp[..];
  }

  /** `merge_temp`: the non-empty slots concatenated in index order. */
  method MergeTemp(temp: array<string>) returns (r: string)
    ensures r == Flatten(temp[..])
  {
    r := "";
    var k := 0;
    while k < temp.Length
      invariant 0 <= k <= temp.Length
      invariant r == Flatten(temp[..k])
    {
      assert temp[..k + 1][..k] == temp[..k];
      if temp[k] != "" {
        r := r + temp[k];
      }
      k := k + 1;
    }
    assert temp[..temp.Length] == temp[..];
  }

  /** `[""] * 10`: a fresh buffer with every slot empty. */
  method EmptyBuffer() returns (temp: array<string>)
    ensures fresh(temp) && temp[..] == EMPTY_SLOTS
  {
    temp := new string[SLOT_COUNT](_ => "");
    assert temp[..] == EMPTY_SLOTS;
  }

  /** The attaching branch of the scan loop: places the character at `i`
      (with the consonant after it, for a coeng) into its free slot, or
      drops a coeng that is not followed by a consonant. Returns the position
      of the last character consumed, and `misfit` when the character has no
      free slot, in which case the buffer is untouched and the caller flushes. */
  method AttachMark(temp: array<string>, text: string, i: nat) returns (last: nat, misfit: bool)
    requires i < |text| && temp.Length == SLOT_COUNT
    modifies temp
    ensures temp[0] == old(temp[0])
    ensures var m := Attach(text, i, old(temp[..]));
      if misfit then last == i && temp[..] == old(temp[..]) && m == Move(i + 1, EMPTY_SLOTS, [Flatten(temp[..]), [text[i]]])
      else m == Move(last + 1, temp[..], [])
  {
    var c := text[i];
    var code := c as int;
    last, misfit := i, false;
    if IsRobat(code) && temp[1] == "" {
      temp[1] := [c];
    } else if IsCoeng(code) && i + 1 < |text| && temp[2] == "" {
      var next := text[i + 1];
      if IsConsonant(next as int) && !IsRo(next as int) {
        temp[2] := [c];
        temp[3] := [next];
        last := i + 1;
      } else if IsConsonant(next as int) && IsRo(next as int) {
        temp[4] := [c];
        temp[5] := [next];
        last := i + 1;
      }
    } else if IsCoeng(code) && i + 1 < |text| && temp[4] == "" {
      var next := text[i + 1];
      if IsConsonant(next as int) {
        temp[4] := [c];
        temp[5] := [next];
        last := i + 1;
      }
    } else if IsShifter(code) && temp[6] == "" {
      temp[6] := [c];
    } else if IsVowel(code) && temp[7] == "" {
      temp[7] := [c];
    } else if IsDiacritic(code) && temp[8] == "" {
      temp[8] := [c];
    } else if IsFinal(code) && temp[9] == "" {
      temp[9] := [c];
    } else {
      misfit := true;
    }
  }

  /** `sort_khm_word`: the word with every syllable in canonical order, which
      is exactly the units of `sort_word2sub` joined together. */
  method SortKhmWord(text: string) returns (result: string)
    ensures result == Join(Tokens(text))
  {
    result := "";
    var temp := EmptyBuffer();
    var i := 0;
    ghost var goal := Join(Tokens(text));
    while i < |text|
      invariant 0 <= i <= |text| && temp.Length == SLOT_COUNT
      invariant fresh(temp) && ClosedIsEmpty(temp[..])
      invariant result + Join(Run(text, i, temp[..])) == goal
    {
      var code := text[i] as int;
      if code == ZERO_WIDTH_SPACE {
        RunSkipsZeroWidthSpace(text, i, temp[..]);
        i := i + 1;
        continue;
      }
      ghost var t := temp[..];
      JoinStep(text, i, t, result);
      StepKeepsClosedEmpty(text, i, t);
      if IsStandalone(code) {
        temp, result := KhmStandalone(temp, text, i, result);
        i := i + 1;
      } else if temp[0] != "" {
        temp, result, i := KhmAttach(temp, text, i, result);
      } else {
        RunDropsOrphan(text, i, temp[..]);
        i := i + 1;
      }
    }
    if temp[0] != "" {
      result := MergeTempResult(temp, result);
    }
    JoinSmall(Flatten(temp[..]), "");
  }

  /** The standalone branch of `sort_khm_word`: merge the open syllable into
      the result, then append a numeral or punctuation mark, or open a new
      syllable on a base. The buffer it starts from is empty unless a
      syllable is open, as it always is in the loop. */
  method KhmStandalone(temp: array<string>, text: string, i: nat, result: string)
    returns (temp': array<string>, result': string)
    requires i < |text| && temp.Length == SLOT_COUNT && ClosedIsEmpty(temp[..])
    requires IsStandalone(text[i] as int)
    modifies temp
    ensures temp'.Length == SLOT_COUNT && (temp' == temp || fresh(temp'))
    ensures var m := Step(text, i, old(temp[..]));
      m.next == i + 1 && temp'[..] == m.slots && result' == result + Join(m.emitted)
  {
    var c := text[i];
    var code := c as int;
    ghost var t := temp[..];
    ghost var m := StartUnit(text, i, t);
    assert Step(text, i, t) == m;
    temp', result' := temp, result;
    if temp[0] != "" {
      result' := MergeTempResult(temp, result);
      temp' := EmptyBuffer();
    }
    assert temp'[..] == EMPTY_SLOTS;
    if IsNumeral(code) || IsPunctuation(code) {
      JoinAfterFlush(result, t, [[c]]);
      JoinSmall([c], [c]);
      result' := result' + [c];
    } else {
      JoinAfterFlush(result, t, []);
      JoinSmall([c], [c]);
      temp'[0] := [c];
      assert temp'[..] == EMPTY_SLOTS[0 := [c]];
    }
  }

  /** The attaching branch of `sort_khm_word`: place the character (and, for
      a coeng, the consonant after it) in the open syllable, drop a coeng
      without a consonant, or merge the syllable and append the character. */
  method KhmAttach(temp: array<string>, text: string, i: nat, result: string)
    returns (temp': array<string>, result': string, next: nat)
    requires i < |text| && temp.Length == SLOT_COUNT && temp[0] != ""
    requires text[i] as int != ZERO_WIDTH_SPACE && !IsStandalone(text[i] as int)
    modifies temp
    ensures temp'.Length == SLOT_COUNT && (temp' == temp || fresh(temp'))
    ensures var m := Step(text, i, old(temp[..]));
      next == m.next && temp'[..] == m.slots && result' == result + Join(m.emitted)
  {
    ghost var t := temp[..];
    ghost var a := Attach(text, i, t);
    assert Step(text, i, t) == a;
    var last, misfit := AttachMark(temp, text, i);
    temp', result' := temp, result;
    if misfit {
      JoinSmall(Flatten(t), [text[i]]);
      result' := MergeTempResult(temp, result);
      temp' := EmptyBuffer();
      result' := result' + [text[i]];
    } else {
      JoinSmall("", "");
      assert result + Join(a.emitted) == result;
    }
    next := last + 1;
  }

  /** `sort_word2sub`: the same scan as `sort_khm_word`, collecting each
      flushed syllable and each emitted character as a unit of its own. */
  method SortWord2Sub(text: string) returns (result: seq<string>)
    ensures result == Tokens(text)
  {
    result := [];
    var temp := EmptyBuffer();
    var i := 0;
    ghost var goal := Tokens(text);
    while i < |text|
      invariant 0 <= i <= |text| && temp.Length == SLOT_COUNT
      invariant fresh(temp) && ClosedIsEmpty(temp[..])
      invariant result + Run(text, i, temp[..]) == goal
    {
      var code := text[i] as int;
      if code == ZERO_WIDTH_SPACE {
        RunSkipsZeroWidthSpace(text, i, temp[..]);
        i := i + 1;
        continue;
      }
      ghost var t := temp[..];
      UnitsStep(text, i, t, result);
      StepKeepsClosedEmpty(text, i, t);
      if IsStandalone(code) {
        temp, result := SubStandalone(temp, text, i, result);
        i := i + 1;
      } else if temp[0] != "" {
        temp, result, i := SubAttach(temp, text, i, result);
      } else {
        RunDropsOrphan(text, i, temp[..]);
        i := i + 1;
      }
    }
    if temp[0] != "" {
      var unit := MergeTemp(temp);
      result := result + [unit];
    }
  }

  /** The standalone branch of `sort_word2sub`. */
  method SubStandalone(temp: array<string>, text: string, i: nat, result: seq<string>)
    returns (temp': array<string>, result': seq<string>)
    requires i < |text| && temp.Length == SLOT_COUNT && ClosedIsEmpty(temp[..])
    requires IsStandalone(text[i] as int)
    modifies temp
    ensures temp'.Length == SLOT_COUNT && (temp' == temp || fresh(temp'))
    ensures var m := Step(text, i, old(temp[..]));
      m.next == i + 1 && temp'[..] == m.slots && result' == result + m.emitted
  {
    var c := text[i];
    var code := c as int;
    ghost var t := temp[..];
    ghost var m := StartUnit(text, i, t);
    assert Step(text, i, t) == m;
    temp', result' := temp, result;
    if temp[0] != "" {
      var unit := MergeTemp(temp);
      result' := result + [unit];
      temp' := EmptyBuffer();
    }
    assert result' == result + Flushed(t);
    assert temp'[..] == EMPTY_SLOTS;
    if IsNumeral(code) || IsPunctuation(code) {
      assert m.emitted == Flushed(t) + [[c]];
      result' := result' + [[c]];
    } else {
      assert m.emitted == Flushed(t);
      temp'[0] := [c];
      assert temp'[..] == EMPTY_SLOTS[0 := [c]];
    }
  }

  /** The attaching branch of `sort_word2sub`. */
  method SubAttach(temp: array<string>, text: string, i: nat, result: seq<string>)
    returns (temp': array<string>, result': seq<string>, next: nat)
    requires i < |text| && temp.Length == SLOT_COUNT && temp[0] != ""
    requires text[i] as int != ZERO_WIDTH_SPACE && !IsStandalone(text[i] as int)
    modifies temp
    ensures temp'.Length == SLOT_COUNT && (temp' == temp || fresh(temp'))
    ensures var m := Step(text, i, old(temp[..]));
      next == m.next && temp'[..] == m.slots && result' == result + m.emitted
  {
    ghost var t := temp[..];
    ghost var a := Attach(text, i, t);
    assert Step(text, i, t) == a;
    var last, misfit := AttachMark(temp, text, i);
    temp', result' := temp, result;
    if misfit {
      var unit := MergeTemp(temp);
      result' := result + [unit];
      temp' := EmptyBuffer();
      result' := result' + [[text[i]]];
    } else {
      assert result + a.emitted == result;
    }
    next := last + 1;
  }

  /** `sort_text2sub`: the units of every word, in order, in one list. */
  method SortText2Sub(words: seq<string>) returns (units: seq<string>)
    ensures units == TokensOfWords(words)
  {
    units := [];
    var k := 0;
    while k < |words|
      invariant 0 <= k <= |words|
      invariant units == TokensOfWords(words[..k])
    {
      var more := SortWord2Sub(words[k]);
      assert words[..k + 1][..k] == words[..k];
      units := units + more;
      k := k + 1;
    }
    assert words[..|words|] == words;
  }
}
