/** The structure of the scan's output. Every unit it emits is a flushed
    syllable, a numeral or punctuation mark, or a character that could not be
    placed in the syllable just before it ("stray"). */
module ScanUnits {
  import opened KhmerClassifier
  import opened SyllableBuffer
  import opened SyllableScan

  datatype Unit = Syllable(slots: seq<string>) | Standalone(c: char) | Stray(c: char)

  /** The string a unit is emitted as. */
  function Render(u: Unit): string
  {
    match u
    case Syllable(t) => Flatten(t)
    case Standalone(c) => [c]
    case Stray(c) => [c]
  }

  function RenderAll(us: seq<Unit>): (r: seq<string>)
    ensures |r| == |us|
    ensures forall k :: 0 <= k < |us| ==> r[k] == Render(us[k])
  {
    seq(|us|, k requires 0 <= k < |us| => Render(us[k]))
  }

  /** The open syllable `t` has no free slot for `c`; `atEnd` says that `c`
      is the last character of the text, so a coeng has no consonant to take. */
  predicate NoSlotFor(t: seq<string>, c: char, atEnd: bool)
    requires |t| == SLOT_COUNT
  {
    var code := c as int;
    && !(IsRobat(code) && t[1] == "")
    && !(IsCoeng(code) && !atEnd && (t[2] == "" || t[4] == ""))
    && !(IsShifter(code) && t[6] == "")
    && !(IsVowel(code) && t[7] == "")
    && !(IsDiacritic(code) && t[8] == "")
    && !(IsFinal(code) && t[9] == "")
  }

  /** A character emitted right after the open syllable `t`. */
  predicate Unplaceable(t: seq<string>, c: char, atEnd: bool)
    requires |t| == SLOT_COUNT
  {
    c as int != ZERO_WIDTH_SPACE && !IsStandalone(c as int) && NoSlotFor(t, c, atEnd)
  }

  /** The shape of every output: syllables in canonical slot order, numerals
      and punctuation marks, and strays, each stray right after the syllable
      it did not fit (the last unit when it is a coeng that met the end). */
  predicate Units(us: seq<Unit>)
    decreases |us|
  {
    if us == [] then true
    else match us[0]
      case Standalone(c) => (IsNumeral(c as int) || IsPunctuation(c as int)) && Units(us[1..])
      case Stray(_) => false
      case Syllable(t) =>
        && IsOpenSyllable(t)
        && if |us| >= 2 && us[1].Stray? then Unplaceable(t, us[1].c, |us| == 2) && Units(us[2..])
           else Units(us[1..])
  }

  function FlushedUnits(temp: seq<string>): seq<Unit>
    requires |temp| == SLOT_COUNT
  {
    if temp[0] != "" then [Syllable(temp)] else []
  }

  /** The units one step of the scan emits: the same decisions as `Step`,
      recording what each emitted string is. */
  function StepUnits(text: string, i: nat, temp: seq<string>): seq<Unit>
    requires i < |text| && |temp| == SLOT_COUNT
  {
    var c := text[i];
    var code := c as int;
    if code == ZERO_WIDTH_SPACE then []
    else if IsNumeral(code) || IsPunctuation(code) then FlushedUnits(temp) + [Standalone(c)]
    else if IsStandalone(code) then FlushedUnits(temp)
    else if temp[0] == "" then []
    else if Attach(text, i, temp).emitted == [] then []
    else [Syllable(temp), Stray(c)]
  }

  /** The units the scan emits from position `i` with buffer `temp`. */
  function Parse(text: string, i: nat, temp: seq<string>): seq<Unit>
    requires i <= |text| && |temp| == SLOT_COUNT
    decreases |text| - i
  {
    if i == |text| then FlushedUnits(temp)
    else
      var m := Step(text, i, temp);
      StepUnits(text, i, temp) + Parse(text, m.next, m.slots)
  }

  /** What `Attach` does, in terms of free slots: it places the character
      (keeping the base) exactly when there is a slot for it, and otherwise
      flushes the syllable and emits the character. */
  lemma AttachOutcome(text: string, i: nat, temp: seq<string>)
    requires i < |text| && |temp| == SLOT_COUNT
    ensures var a := Attach(text, i, temp);
      && (a.emitted != [] <==> NoSlotFor(temp, text[i], i + 1 == |text|))
      && (a.emitted != [] ==> a == Move(i + 1, EMPTY_SLOTS, [Flatten(temp), [text[i]]]))
      && (a.emitted == [] ==> a.slots[0] == temp[0])
  {
    var code := text[i] as int;
    if IsRobat(code) && temp[1] == "" {
    } else if IsCoeng(code) && i + 1 < |text| && temp[2] == "" {
    } else if IsCoeng(code) && i + 1 < |text| && temp[4] == "" {
    } else if IsShifter(code) && temp[6] == "" {
    } else if IsVowel(code) && temp[7] == "" {
    } else if IsDiacritic(code) && temp[8] == "" {
    } else if IsFinal(code) && temp[9] == "" {
    } else {
      assert NoSlotFor(temp, text[i], i + 1 == |text|);
    }
  }

  lemma RenderAllAppend(a: seq<Unit>, b: seq<Unit>)
    ensures RenderAll(a + b) == RenderAll(a) + RenderAll(b)
  {
  }

  lemma RenderFlushed(temp: seq<string>)
    requires |temp| == SLOT_COUNT
    ensures RenderAll(FlushedUnits(temp)) == Flushed(temp)
  {
  }

  /** Each step's units render as the strings the step emits. */
  lemma StepUnitsRender(text: string, i: nat, temp: seq<string>)
    requires i < |text| && |temp| == SLOT_COUNT
    ensures RenderAll(StepUnits(text, i, temp)) == Step(text, i, temp).emitted
  {
    var c := text[i];
    var code := c as int;
    RenderFlushed(temp);
    if code != ZERO_WIDTH_SPACE && (IsNumeral(code) || IsPunctuation(code)) {
      RenderAllAppend(FlushedUnits(temp), [Standalone(c)]);
    } else if code != ZERO_WIDTH_SPACE && !IsStandalone(code) && temp[0] != "" {
      AttachOutcome(text, i, temp);
    }
  }

  /** `Parse` accounts for every string the scan emits, in order. */
  lemma {:induction false} ParseRenders(text: string, i: nat, temp: seq<string>)
    requires i <= |text| && |temp| == SLOT_COUNT
    ensures RenderAll(Parse(text, i, temp)) == Run(text, i, temp)
    decreases |text| - i
  {
    if i == |text| {
      RenderFlushed(temp);
    } else {
      var m := Step(text, i, temp);
      ParseRenders(text, m.next, m.slots);
      StepUnitsRender(text, i, temp);
      RenderAllAppend(StepUnits(text, i, temp), Parse(text, m.next, m.slots));
    }
  }

  /** Putting one or two units in front of a well-formed sequence. */
  lemma UnitsCons(u: Unit, us: seq<Unit>)
    requires Units(us) && !u.Stray?
    requires u.Standalone? ==> IsNumeral(u.c as int) || IsPunctuation(u.c as int)
    requires u.Syllable? ==> IsOpenSyllable(u.slots)
    requires us != [] ==> !us[0].Stray?
    ensures Units([u] + us)
  {
    assert ([u] + us)[1..] == us;
  }

  lemma UnitsStray(t: seq<string>, c: char, us: seq<Unit>)
    requires IsOpenSyllable(t) && Units(us) && Unplaceable(t, c, us == [])
    ensures Units([Syllable(t), Stray(c)] + us)
  {
    assert ([Syllable(t), Stray(c)] + us)[2..] == us;
  }

  /** A well-formed sequence never starts with a stray. */
  lemma UnitsHead(us: seq<Unit>)
    requires Units(us) && us != []
    ensures !us[0].Stray?
  {
  }

  lemma EmitKeepsUnits(temp: seq<string>, c: char, rest: seq<Unit>)
    requires BufferInvariant(temp) && Units(rest) && (rest != [] ==> !rest[0].Stray?)
    requires IsNumeral(c as int) || IsPunctuation(c as int)
    ensures Units(FlushedUnits(temp) + [Standalone(c)] + rest)
  {
    UnitsCons(Standalone(c), rest);
    if temp[0] != "" {
      UnitsCons(Syllable(temp), [Standalone(c)] + rest);
      assert FlushedUnits(temp) + [Standalone(c)] + rest == [Syllable(temp)] + ([Standalone(c)] + rest);
    } else {
      assert FlushedUnits(temp) + [Standalone(c)] + rest == [Standalone(c)] + rest;
    }
  }

  lemma AttachKeepsUnits(text: string, i: nat, temp: seq<string>, rest: seq<Unit>)
    requires i < |text| && IsOpenSyllable(temp) && Units(rest)
    requires text[i] as int != ZERO_WIDTH_SPACE && !IsStandalone(text[i] as int)
    requires var a := Attach(text, i, temp);
      (a.emitted == [] ==> rest != [] && rest[0].Syllable?) && (a.next == |text| && a.emitted != [] ==> rest == [])
    ensures var us := if Attach(text, i, temp).emitted == [] then rest else [Syllable(temp), Stray(text[i])] + rest;
      Units(us) && us != [] && us[0].Syllable?
  {
    AttachOutcome(text, i, temp);
    if Attach(text, i, temp).emitted != [] {
      UnitsStray(temp, text[i], rest);
    }
  }

  /** From any buffer the scan can hold, the output has the shape `Units`,
      and an open syllable is the first thing emitted. */
  lemma {:induction false} ParseWellFormed(text: string, i: nat, temp: seq<string>)
    requires i <= |text| && BufferInvariant(temp)
    ensures Units(Parse(text, i, temp))
    ensures temp[0] != "" ==> Parse(text, i, temp) != [] && Parse(text, i, temp)[0].Syllable?
    decreases |text| - i
  {
    if i == |text| {
      if temp[0] != "" {
        UnitsCons(Syllable(temp), []);
      }
    } else {
      var c := text[i];
      var code := c as int;
      if code == ZERO_WIDTH_SPACE || (!IsStandalone(code) && temp[0] == "") {
        ParseWellFormed(text, i + 1, temp);
        ParseSkips(text, i, temp);
      } else if IsNumeral(code) || IsPunctuation(code) {
        ParseWellFormed(text, i + 1, EMPTY_SLOTS);
        ParseEmits(text, i, temp);
      } else if IsStandalone(code) {
        StepKeepsBuffer(text, i, temp);
        ParseWellFormed(text, i + 1, EMPTY_SLOTS[0 := [c]]);
        ParseOpens(text, i, temp);
      } else {
        var a := Attach(text, i, temp);
        AttachKeepsSyllable(text, i, temp);
        AttachOutcome(text, i, temp);
        ParseWellFormed(text, a.next, a.slots);
        ParseAttaches(text, i, temp);
      }
    }
  }

  lemma ParseSkips(text: string, i: nat, temp: seq<string>)
    requires i < |text| && |temp| == SLOT_COUNT
    requires text[i] as int == ZERO_WIDTH_SPACE || (!IsStandalone(text[i] as int) && temp[0] == "")
    ensures Parse(text, i, temp) == Parse(text, i + 1, temp)
  {
    assert StepUnits(text, i, temp) == [];
  }

  lemma ParseEmits(text: string, i: nat, temp: seq<string>)
    requires i < |text| && BufferInvariant(temp)
    requires IsNumeral(text[i] as int) || IsPunctuation(text[i] as int)
    requires Units(Parse(text, i + 1, EMPTY_SLOTS))
    ensures Units(Parse(text, i, temp))
    ensures temp[0] != "" ==> Parse(text, i, temp) != [] && Parse(text, i, temp)[0].Syllable?
  {
    var rest := Parse(text, i + 1, EMPTY_SLOTS);
    assert Parse(text, i, temp) == FlushedUnits(temp) + [Standalone(text[i])] + rest;
    if rest != [] {
      UnitsHead(rest);
    }
    EmitKeepsUnits(temp, text[i], rest);
  }

  lemma ParseOpens(text: string, i: nat, temp: seq<string>)
    requires i < |text| && BufferInvariant(temp) && IsBase(text[i] as int)
    requires var rest := Parse(text, i + 1, EMPTY_SLOTS[0 := [text[i]]]);
      Units(rest) && rest != [] && rest[0].Syllable?
    ensures Units(Parse(text, i, temp))
    ensures temp[0] != "" ==> Parse(text, i, temp) != [] && Parse(text, i, temp)[0].Syllable?
  {
    var rest := Parse(text, i + 1, EMPTY_SLOTS[0 := [text[i]]]);
    assert Parse(text, i, temp) == FlushedUnits(temp) + rest;
    if temp[0] != "" {
      UnitsCons(Syllable(temp), rest);
    } else {
      assert FlushedUnits(temp) + rest == rest;
    }
  }

  lemma ParseAttaches(text: string, i: nat, temp: seq<string>)
    requires i < |text| && IsOpenSyllable(temp)
    requires text[i] as int != ZERO_WIDTH_SPACE && !IsStandalone(text[i] as int)
    requires var a := Attach(text, i, temp);
      var rest := Parse(text, a.next, a.slots);
      && Units(rest)
      && (a.emitted == [] ==> rest != [] && rest[0].Syllable?)
      && (a.next == |text| && a.emitted != [] ==> rest == [])
    ensures Units(Parse(text, i, temp))
    ensures Parse(text, i, temp) != [] && Parse(text, i, temp)[0].Syllable?
  {
    var a := Attach(text, i, temp);
    var rest := Parse(text, a.next, a.slots);
    assert Parse(text, i, temp) == StepUnits(text, i, temp) + rest;
    AttachKeepsUnits(text, i, temp, rest);
    if a.emitted == [] {
      assert StepUnits(text, i, temp) + rest == rest;
    }
  }

  /** What the scan emits, unit by unit: a syllable in canonical slot
      order, a numeral or punctuation mark, or a stray right after the
      syllable it did not fit. */
  predicate UnitAt(us: seq<Unit>, k: nat)
    requires k < |us|
  {
    match us[k]
    case Syllable(t) => IsOpenSyllable(t)
    case Standalone(c) => IsNumeral(c as int) || IsPunctuation(c as int)
    case Stray(c) =>
      k > 0 && us[k - 1].Syllable? && |us[k - 1].slots| == SLOT_COUNT && Unplaceable(us[k - 1].slots, c, k == |us| - 1)
  }

  lemma {:induction false} UnitsPointwise(us: seq<Unit>)
    requires Units(us)
    ensures forall k :: 0 <= k < |us| ==> UnitAt(us, k)
    decreases |us|
  {
    if us != [] {
      if us[0].Syllable? && |us| >= 2 && us[1].Stray? {
        var tail := us[2..];
        UnitsPointwise(tail);
        forall k | 2 <= k < |us| ensures UnitAt(us, k) {
          assert us[k] == tail[k - 2];
          assert UnitAt(tail, k - 2);
          if k > 2 {
            assert us[k - 1] == tail[k - 3];
          }
        }
      } else {
        var tail := us[1..];
        UnitsPointwise(tail);
        forall k | 1 <= k < |us| ensures UnitAt(us, k) {
          assert us[k] == tail[k - 1];
          assert UnitAt(tail, k - 1);
          if k > 1 {
            assert us[k - 1] == tail[k - 2];
          }
        }
      }
    }
  }

  /** The units of a word: `Tokens` is exactly their rendering, and they
      have the shape `Units`. */
  lemma TokensStructure(text: string)
    ensures Tokens(text) == RenderAll(Parse(text, 0, EMPTY_SLOTS))
    ensures Units(Parse(text, 0, EMPTY_SLOTS))
  {
    ParseRenders(text, 0, EMPTY_SLOTS);
    ParseWellFormed(text, 0, EMPTY_SLOTS);
  }

  /** A token as the scan emits it: one to ten characters; a syllable
      starting with a consonant or independent vowel unless it is a single
      character; no zero-width space; a numeral or punctuation mark only as a
      token of its own. */
  predicate TokenShape(tok: string)
  {
    && 1 <= |tok| <= SLOT_COUNT
    && (|tok| == 1 || IsBase(tok[0] as int))
    && forall j :: 0 <= j < |tok| ==>
         && tok[j] as int != ZERO_WIDTH_SPACE
         && (IsNumeral(tok[j] as int) || IsPunctuation(tok[j] as int) ==> |tok| == 1)
  }

  lemma UnitShape(us: seq<Unit>, k: nat)
    requires k < |us| && UnitAt(us, k)
    ensures TokenShape(Render(us[k]))
  {
    if us[k].Syllable? {
      OpenSyllableFlattens(us[k].slots);
    }
  }

  /** Every token of every word has the shape the scan promises. */
  lemma TokensWellShaped(text: string)
    ensures forall k :: 0 <= k < |Tokens(text)| ==> TokenShape(Tokens(text)[k])
  {
    var us := Parse(text, 0, EMPTY_SLOTS);
    TokensStructure(text);
    UnitsPointwise(us);
    forall k | 0 <= k < |us| ensures TokenShape(Tokens(text)[k]) {
      UnitShape(us, k);
    }
  }
}
