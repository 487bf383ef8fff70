/** What the scan does to the characters of a word: it only drops or
    reorders them, never invents or duplicates one, and it keeps the
    numerals and punctuation marks, in their original order. */
module ScanBag {
  import opened KhmerClassifier
  import opened SyllableBuffer
  import opened SyllableScan
  import opened ScanUnits

  /** A numeral or punctuation mark: the characters emitted as units of their own. */
  predicate IsSign(c: char)
  {
    IsNumeral(c as int) || IsPunctuation(c as int)
  }

  /** The numerals and punctuation marks of `s`, in order. */
  function Signs(s: string): (r: string)
    ensures |r| <= |s|
  {
    if s == [] then [] else (if IsSign(s[0]) then [s[0]] else []) + Signs(s[1..])
  }

  lemma {:induction false} SignsAppend(a: string, b: string)
    ensures Signs(a + b) == Signs(a) + Signs(b)
    decreases |a|
  {
    if a == [] {
      assert a + b == b;
    } else {
      var head := if IsSign(a[0]) then [a[0]] else [];
      assert (a + b)[0] == a[0] && (a + b)[1..] == a[1..] + b;
      assert Signs(a + b) == head + Signs(a[1..] + b);
      assert Signs(a) == head + Signs(a[1..]);
      SignsAppend(a[1..], b);
      Regroup(head, Signs(a[1..]), Signs(b));
    }
  }

  /** Text with no numeral or punctuation mark has no signs. */
  lemma {:induction false} SignsNone(s: string)
    requires forall j :: 0 <= j < |s| ==> !IsSign(s[j])
    ensures Signs(s) == []
    decreases |s|
  {
    if s != [] {
      SignsNone(s[1..]);
    }
  }

  lemma SignsOne(c: char)
    ensures Signs([c]) == if IsSign(c) then [c] else []
  {
    assert [c][1..] == [];
  }

  /** An open syllable holds no sign, so flushing it adds none. */
  lemma SyllableHasNoSigns(t: seq<string>)
    requires IsOpenSyllable(t)
    ensures Signs(Flatten(t)) == []
  {
    OpenSyllableFlattens(t);
    SignsNone(Flatten(t));
  }

  /** A buffer whose slots are all empty flattens to nothing. */
  lemma {:induction false} FlattenBlank(t: seq<string>)
    requires forall k :: 0 <= k < |t| ==> t[k] == ""
    ensures Flatten(t) == ""
    decreases |t|
  {
    if t != [] {
      FlattenBlank(t[..|t| - 1]);
    }
  }

  lemma FlattenEmptySlots()
    ensures Flatten(EMPTY_SLOTS) == ""
  {
    FlattenBlank(EMPTY_SLOTS);
  }

  /** The buffer that holds only a base flattens to that base. */
  lemma FlattenBaseOnly(c: char)
    ensures Flatten(EMPTY_SLOTS[0 := [c]]) == [c]
  {
    var t := EMPTY_SLOTS[0 := [c]];
    FlattenAt(t, 0);
    assert t[..0] == [];
    FlattenBlank(t[1..]);
  }

  /** A step that had the buffer `before` and read `read`, then emitted
      `emitted` and kept `after`, invented no character. */
  predicate Keeps(before: string, read: string, emitted: string, after: string)
  {
    multiset(emitted) + multiset(after) <= multiset(before) + multiset(read)
  }

  lemma KeepsSkip(before: string, read: string)
    ensures Keeps(before, read, "", before)
  {
  }

  lemma KeepsEmit(before: string, flushed: string, c: char)
    requires multiset(flushed) <= multiset(before)
    ensures Keeps(before, [c], flushed + [c], "")
  {
  }

  lemma KeepsOpen(before: string, flushed: string, c: char)
    requires multiset(flushed) <= multiset(before)
    ensures Keeps(before, [c], flushed, [c])
  {
  }

  lemma KeepsPlace(before: string, read: string, after: string)
    requires multiset(after) <= multiset(before) + multiset(read)
    ensures Keeps(before, read, "", after)
  {
  }

  lemma KeepsMisfit(before: string, c: char)
    ensures Keeps(before, [c], before + [c], "")
  {
  }

  /** A flush emits the buffer's characters, or nothing. */
  lemma JoinFlushed(temp: seq<string>)
    requires |temp| == SLOT_COUNT
    ensures Join(Flushed(temp)) == if temp[0] != "" then Flatten(temp) else ""
    ensures multiset(Join(Flushed(temp))) <= multiset(Flatten(temp))
  {
    JoinSmall(Flatten(temp), Flatten(temp));
  }

  /** Overwriting a slot leaves at most the old characters and the new ones. */
  lemma UpdateBag(t: seq<string>, k: nat, s: string)
    requires k < |t|
    ensures multiset(Flatten(t[k := s])) <= multiset(Flatten(t)) + multiset(s)
  {
    FlattenUpdateBag(t, k, s);
  }

  /** The characters a step reads. */
  function Read(text: string, i: nat, m: Move): (r: string)
    requires i < m.next <= |text|
    ensures |r| == m.next - i
  {
    text[i..m.next]
  }

  /** The characters a step emits. */
  function Emitted(m: Move): string
  {
    Join(m.emitted)
  }

  /** A step keeps the characters it had and read, in the sense of `Keeps`. */
  predicate StepKeeps(text: string, i: nat, temp: seq<string>, m: Move)
    requires i < m.next <= |text| && |temp| == SLOT_COUNT && |m.slots| == SLOT_COUNT
  {
    Keeps(Flatten(temp), Read(text, i, m), Emitted(m), Flatten(m.slots))
  }

  /** A numeral or punctuation mark is emitted after the flush. */
  lemma EmitBag(text: string, i: nat, temp: seq<string>)
    requires i < |text| && |temp| == SLOT_COUNT
    ensures StepKeeps(text, i, temp, Move(i + 1, EMPTY_SLOTS, Flushed(temp) + [[text[i]]]))
  {
    var c := text[i];
    JoinFlushed(temp);
    JoinAppend(Flushed(temp), [[c]]);
    JoinSmall([c], [c]);
    FlattenEmptySlots();
    assert text[i..i + 1] == [c];
    KeepsEmit(Flatten(temp), Join(Flushed(temp)), c);
  }

  /** A base opens a syllable after the flush. */
  lemma OpenBag(text: string, i: nat, temp: seq<string>)
    requires i < |text| && |temp| == SLOT_COUNT
    ensures StepKeeps(text, i, temp, Move(i + 1, EMPTY_SLOTS[0 := [text[i]]], Flushed(temp)))
  {
    var c := text[i];
    JoinFlushed(temp);
    FlattenBaseOnly(c);
    assert text[i..i + 1] == [c];
    KeepsOpen(Flatten(temp), Join(Flushed(temp)), c);
  }

  /** A character read and dropped, or skipped. */
  lemma SkipBag(text: string, i: nat, temp: seq<string>)
    requires i < |text| && |temp| == SLOT_COUNT
    ensures StepKeeps(text, i, temp, Move(i + 1, temp, []))
  {
    JoinSmall("", "");
    KeepsSkip(Flatten(temp), text[i..i + 1]);
  }

  /** A mark put into a free slot moves from the text to the buffer. */
  lemma PlaceBag(text: string, i: nat, temp: seq<string>, k: nat)
    requires i < |text| && |temp| == SLOT_COUNT && k < SLOT_COUNT
    ensures StepKeeps(text, i, temp, Move(i + 1, temp[k := [text[i]]], []))
  {
    assert text[i..i + 1] == [text[i]];
    UpdateBag(temp, k, [text[i]]);
    JoinSmall("", "");
    KeepsPlace(Flatten(temp), [text[i]], Flatten(temp[k := [text[i]]]));
  }

  /** A coeng and its consonant move from the text to a pair of slots. */
  lemma PairBag(text: string, i: nat, temp: seq<string>, k: nat)
    requires i + 1 < |text| && |temp| == SLOT_COUNT && k + 1 < SLOT_COUNT
    ensures StepKeeps(text, i, temp, Move(i + 2, temp[k := [text[i]]][k + 1 := [text[i + 1]]], []))
  {
    var c, n := text[i], text[i + 1];
    var after := Flatten(temp[k := [c]][k + 1 := [n]]);
    assert text[i..i + 2] == [c] + [n];
    UpdateBag(temp, k, [c]);
    UpdateBag(temp[k := [c]], k + 1, [n]);
    assert multiset(after) <= multiset(Flatten(temp)) + multiset([c] + [n]);
    JoinSmall("", "");
    KeepsPlace(Flatten(temp), [c] + [n], after);
  }

  /** A character with no slot leaves with the flushed syllable. */
  lemma MisfitBag(text: string, i: nat, temp: seq<string>)
    requires i < |text| && |temp| == SLOT_COUNT
    ensures StepKeeps(text, i, temp, Move(i + 1, EMPTY_SLOTS, [Flatten(temp), [text[i]]]))
  {
    assert text[i..i + 1] == [text[i]];
    JoinSmall(Flatten(temp), [text[i]]);
    FlattenEmptySlots();
    KeepsMisfit(Flatten(temp), text[i]);
  }

  /** A coeng while the first coeng slot is free: the pair it fills, or it is dropped. */
  lemma CoengBag(text: string, i: nat, temp: seq<string>)
    requires i + 1 < |text| && |temp| == SLOT_COUNT
    ensures StepKeeps(text, i, temp, AttachCoeng(text, i, temp))
  {
    var n := text[i + 1] as int;
    if IsConsonant(n) && !IsRo(n) {
      PairBag(text, i, temp, 2);
    } else if IsConsonant(n) {
      PairBag(text, i, temp, 4);
    } else {
      SkipBag(text, i, temp);
    }
  }

  /** A coeng while only the second coeng slot is free: the pair it fills, or it is dropped. */
  lemma SecondCoengBag(text: string, i: nat, temp: seq<string>)
    requires i + 1 < |text| && |temp| == SLOT_COUNT
    ensures StepKeeps(text, i, temp, AttachSecondCoeng(text, i, temp))
  {
    if IsConsonant(text[i + 1] as int) {
      PairBag(text, i, temp, 4);
    } else {
      SkipBag(text, i, temp);
    }
  }

  /** Attaching to an open syllable: the slot it fills, the pair it fills, or the flush. */
  lemma AttachBag(text: string, i: nat, temp: seq<string>)
    requires i < |text| && |temp| == SLOT_COUNT
    ensures StepKeeps(text, i, temp, Attach(text, i, temp))
  {
    var code := text[i] as int;
    if IsRobat(code) && temp[1] == "" {
      PlaceBag(text, i, temp, 1);
    } else if IsCoeng(code) && i + 1 < |text| && temp[2] == "" {
      CoengBag(text, i, temp);
    } else if IsCoeng(code) && i + 1 < |text| && temp[4] == "" {
      SecondCoengBag(text, i, temp);
    } else if IsShifter(code) && temp[6] == "" {
      PlaceBag(text, i, temp, 6);
    } else if IsVowel(code) && temp[7] == "" {
      PlaceBag(text, i, temp, 7);
    } else if IsDiacritic(code) && temp[8] == "" {
      PlaceBag(text, i, temp, 8);
    } else if IsFinal(code) && temp[9] == "" {
      PlaceBag(text, i, temp, 9);
    } else {
      MisfitBag(text, i, temp);
    }
  }

  /** One step emits and keeps in the buffer only characters it had or read. */
  lemma StepBag(text: string, i: nat, temp: seq<string>)
    requires i < |text| && |temp| == SLOT_COUNT
    ensures StepKeeps(text, i, temp, Step(text, i, temp))
  {
    var code := text[i] as int;
    if code == ZERO_WIDTH_SPACE || (!IsStandalone(code) && temp[0] == "") {
      SkipBag(text, i, temp);
    } else if IsStandalone(code) {
      EmitBag(text, i, temp);
      OpenBag(text, i, temp);
    } else {
      AttachBag(text, i, temp);
    }
  }

  /** The text of the scan from `i` is what the step at `i` emits, then the rest. */
  lemma RunJoin(text: string, i: nat, temp: seq<string>)
    requires i < |text| && |temp| == SLOT_COUNT
    ensures var m := Step(text, i, temp);
      Join(Run(text, i, temp)) == Emitted(m) + Join(Run(text, m.next, m.slots))
  {
    var m := Step(text, i, temp);
    JoinAppend(m.emitted, Run(text, m.next, m.slots));
  }

  lemma ReadSplit(text: string, i: nat, m: Move)
    requires i < m.next <= |text|
    ensures text[i..] == Read(text, i, m) + text[m.next..]
  {
  }

  /** Chaining a step that keeps characters with a rest that keeps them. */
  lemma KeepsChain(before: string, read: string, emitted: string, after: string, rest: string, tail: string)
    requires Keeps(before, read, emitted, after)
    requires multiset(rest) <= multiset(after) + multiset(tail)
    ensures multiset(emitted + rest) <= multiset(before) + multiset(read + tail)
  {
    var e, r, a, b, d, t := multiset(emitted), multiset(rest), multiset(after), multiset(before), multiset(read), multiset(tail);
    assert multiset(emitted + rest) == e + r;
    assert multiset(read + tail) == d + t;
    forall x
      ensures (e + r)[x] <= (b + (d + t))[x]
    {
      assert (e + a)[x] <= (b + d)[x];
      assert r[x] <= (a + t)[x];
    }
  }

  /** The scan from `i` emits only characters of the buffer and of the text still to read. */
  lemma {:induction false} RunBag(text: string, i: nat, temp: seq<string>)
    requires i <= |text| && |temp| == SLOT_COUNT
    ensures multiset(Join(Run(text, i, temp))) <= multiset(Flatten(temp)) + multiset(text[i..])
    decreases |text| - i
  {
    if i == |text| {
      JoinFlushed(temp);
    } else {
      var m := Step(text, i, temp);
      RunJoin(text, i, temp);
      StepBag(text, i, temp);
      ReadSplit(text, i, m);
      RunBag(text, m.next, m.slots);
      KeepsChain(Flatten(temp), Read(text, i, m), Emitted(m), Flatten(m.slots),
        Join(Run(text, m.next, m.slots)), text[m.next..]);
    }
  }

  /** `sort_word2sub` never emits a character more often than the word holds
      it, so its units together are never longer than the word. */
  lemma TokensBag(text: string)
    ensures multiset(Join(Tokens(text))) <= multiset(text)
    ensures |Join(Tokens(text))| <= |text|
  {
    RunBag(text, 0, EMPTY_SLOTS);
    FlattenEmptySlots();
    assert text[0..] == text;
    var out := multiset(Join(Tokens(text)));
    assert multiset(text) == out + (multiset(text) - out);
  }

  /** A step that emits nothing and reads no sign: no signs on either side. */
  lemma QuietSigns(text: string, i: nat, m: Move)
    requires i < m.next <= |text| && m.emitted == []
    requires !IsSign(text[i]) && (m.next == i + 2 ==> !IsSign(text[i + 1]))
    requires m.next <= i + 2
    ensures Signs(Emitted(m)) == Signs(Read(text, i, m)) == []
  {
    JoinSmall("", "");
    SignsNone(Read(text, i, m));
  }

  /** Flushing the buffer emits no sign. */
  lemma FlushedNoSigns(temp: seq<string>)
    requires BufferInvariant(temp)
    ensures Signs(Join(Flushed(temp))) == []
  {
    JoinFlushed(temp);
    if temp[0] != "" {
      SyllableHasNoSigns(temp);
    }
  }

  /** A sign is emitted after the flush, which adds no sign. */
  lemma EmitSigns(text: string, i: nat, temp: seq<string>)
    requires i < |text| && BufferInvariant(temp) && IsSign(text[i])
    ensures Signs(Emitted(Move(i + 1, EMPTY_SLOTS, Flushed(temp) + [[text[i]]]))) == Signs(text[i..i + 1]) == [text[i]]
  {
    var c := text[i];
    var flushed := Join(Flushed(temp));
    FlushedNoSigns(temp);
    JoinAppend(Flushed(temp), [[c]]);
    JoinSmall([c], [c]);
    assert Emitted(Move(i + 1, EMPTY_SLOTS, Flushed(temp) + [[c]])) == flushed + [c];
    SignsAppend(flushed, [c]);
    SignsOne(c);
    assert text[i..i + 1] == [c];
  }

  /** A base opens a syllable after the flush: no sign on either side. */
  lemma OpenSigns(text: string, i: nat, temp: seq<string>)
    requires i < |text| && BufferInvariant(temp) && !IsSign(text[i])
    ensures Signs(Emitted(Move(i + 1, EMPTY_SLOTS[0 := [text[i]]], Flushed(temp)))) == Signs(text[i..i + 1]) == []
  {
    FlushedNoSigns(temp);
    SignsOne(text[i]);
    assert text[i..i + 1] == [text[i]];
  }

  /** A character with no slot, after the syllable: no sign on either side. */
  lemma MisfitSigns(text: string, i: nat, temp: seq<string>)
    requires i < |text| && IsOpenSyllable(temp) && !IsSign(text[i])
    ensures Signs(Emitted(Move(i + 1, EMPTY_SLOTS, [Flatten(temp), [text[i]]]))) == Signs(text[i..i + 1]) == []
  {
    var c := text[i];
    JoinSmall(Flatten(temp), [c]);
    SyllableHasNoSigns(temp);
    SignsAppend(Flatten(temp), [c]);
    SignsOne(c);
    assert text[i..i + 1] == [c];
  }

  /** A step emits exactly the signs it reads. */
  lemma StepSigns(text: string, i: nat, temp: seq<string>)
    requires i < |text| && BufferInvariant(temp)
    ensures var m := Step(text, i, temp);
      Signs(Emitted(m)) == Signs(Read(text, i, m))
  {
    var c := text[i];
    var code := c as int;
    var m := Step(text, i, temp);
    if code != ZERO_WIDTH_SPACE && IsStandalone(code) {
      if IsSign(c) {
        EmitSigns(text, i, temp);
      } else {
        OpenSigns(text, i, temp);
      }
    } else if code != ZERO_WIDTH_SPACE && temp[0] != "" && m.emitted != [] {
      AttachOutcome(text, i, temp);
      MisfitSigns(text, i, temp);
    } else {
      QuietSigns(text, i, m);
    }
  }

  /** The scan from `i` emits the signs of the text still to read, in order. */
  lemma {:induction false} RunSigns(text: string, i: nat, temp: seq<string>)
    requires i <= |text| && BufferInvariant(temp)
    ensures Signs(Join(Run(text, i, temp))) == Signs(text[i..])
    decreases |text| - i
  {
    if i == |text| {
      JoinFlushed(temp);
      if temp[0] != "" {
        SyllableHasNoSigns(temp);
      }
    } else {
      var m := Step(text, i, temp);
      RunJoin(text, i, temp);
      StepSigns(text, i, temp);
      StepKeepsBuffer(text, i, temp);
      ReadSplit(text, i, m);
      RunSigns(text, m.next, m.slots);
      SignsAppend(Emitted(m), Join(Run(text, m.next, m.slots)));
      SignsAppend(Read(text, i, m), text[m.next..]);
    }
  }

  /** `sort_word2sub` keeps every numeral and punctuation mark of the word, in order. */
  lemma TokensKeepSigns(text: string)
    ensures Signs(Join(Tokens(text))) == Signs(text)
  {
    assert text[0..] == text;
    RunSigns(text, 0, EMPTY_SLOTS);
  }
}
