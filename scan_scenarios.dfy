/** The scan on short words, one word shape per lemma, stated for any
    characters of the roles involved: where marks end up, which pair a
    subscript RO takes, and what happens to characters that have no place. */
module ScanScenarios {
  import opened KhmerClassifier
  import opened SyllableBuffer
  import opened SyllableScan
  import opened ScanReparse
  import opened ScanBag

  /** A full buffer flattens to its ten slots in order. */
  lemma FlattenTen(t: seq<string>)
    requires |t| == SLOT_COUNT
    ensures Flatten(t) == t[0] + (t[1] + (t[2] + (t[3] + (t[4] + (t[5] + (t[6] + (t[7] + (t[8] + t[9]))))))))
  {
    assert t[0..] == t;
    FlattenFront(t, 0);
    FlattenFront(t, 1);
    FlattenFront(t, 2);
    FlattenFront(t, 3);
    FlattenFront(t, 4);
    FlattenFront(t, 5);
    FlattenFront(t, 6);
    FlattenFront(t, 7);
    FlattenFront(t, 8);
    FlattenFront(t, 9);
    assert t[10..] == [];
  }

  /** At the end of the text the open syllable is flushed. */
  lemma RunEnds(y: string, t: seq<string>)
    requires |t| == SLOT_COUNT && t[0] != ""
    ensures Run(y, |y|, t) == [Flatten(t)]
  {
  }

  lemma RunEndsEmpty(y: string)
    ensures Run(y, |y|, EMPTY_SLOTS) == []
  {
  }

  /** A base opens a syllable: with no syllable open, nothing is emitted. */
  lemma RunStarts(y: string, p: nat)
    requires p < |y| && IsBase(y[p] as int)
    ensures Run(y, p, EMPTY_SLOTS) == Run(y, p + 1, EMPTY_SLOTS[0 := [y[p]]])
  {
    StepStarts(y, p);
    RunQuiet(y, p, EMPTY_SLOTS, p + 1, EMPTY_SLOTS[0 := [y[p]]]);
  }

  /** A mark goes into its free slot. */
  lemma RunPlaces(y: string, p: nat, u: seq<string>, k: nat)
    requires p < |y| && |u| == SLOT_COUNT && u[0] != ""
    requires k in {1, 6, 7, 8, 9} && u[k] == "" && Classify(y[p] as int) == SlotRole(k)
    ensures Run(y, p, u) == Run(y, p + 1, u[k := [y[p]]])
  {
    StepPlaces(y, p, u, k);
    RunQuiet(y, p, u, p + 1, u[k := [y[p]]]);
  }

  /** A coeng and its consonant go into a free pair of slots. */
  lemma RunPairs(y: string, p: nat, u: seq<string>, k: nat)
    requires p + 1 < |y| && |u| == SLOT_COUNT && u[0] != ""
    requires IsCoeng(y[p] as int) && IsConsonant(y[p + 1] as int)
    requires k == 2 ==> u[2] == "" && !IsRo(y[p + 1] as int)
    requires k == 4 ==> u[4] == "" && (u[2] == "" ==> IsRo(y[p + 1] as int))
    requires k in {2, 4}
    ensures Run(y, p, u) == Run(y, p + 2, u[k := [y[p]]][k + 1 := [y[p + 1]]])
  {
    StepPairs(y, p, u, k);
    RunQuiet(y, p, u, p + 2, u[k := [y[p]]][k + 1 := [y[p + 1]]]);
  }

  /** A coeng with subscript RO, while the first pair is free, overwrites
      slots 4-5 whatever they hold. */
  lemma RunOverwritesRoPair(y: string, p: nat, u: seq<string>)
    requires p + 1 < |y| && |u| == SLOT_COUNT && u[0] != "" && u[2] == ""
    requires IsCoeng(y[p] as int) && IsRo(y[p + 1] as int)
    ensures Run(y, p, u) == Run(y, p + 2, u[4 := [y[p]]][5 := [y[p + 1]]])
  {
    assert Step(y, p, u) == AttachCoeng(y, p, u);
    RunQuiet(y, p, u, p + 2, u[4 := [y[p]]][5 := [y[p + 1]]]);
  }

  /** A coeng before anything but a consonant, while a coeng slot is free, is dropped. */
  lemma RunDropsCoeng(y: string, p: nat, u: seq<string>)
    requires p + 1 < |y| && |u| == SLOT_COUNT && u[0] != "" && (u[2] == "" || u[4] == "")
    requires IsCoeng(y[p] as int) && !IsConsonant(y[p + 1] as int)
    ensures Run(y, p, u) == Run(y, p + 1, u)
  {
    if u[2] == "" {
      assert Step(y, p, u) == AttachCoeng(y, p, u);
    } else {
      assert Step(y, p, u) == AttachSecondCoeng(y, p, u);
    }
    RunQuiet(y, p, u, p + 1, u);
  }

  /** A character with no place in the open syllable is emitted after it. */
  lemma RunMisfit(y: string, p: nat, u: seq<string>)
    requires p < |y| && |u| == SLOT_COUNT && u[0] != ""
    requires y[p] as int != ZERO_WIDTH_SPACE && !IsStandalone(y[p] as int)
    requires Attach(y, p, u) == Move(p + 1, EMPTY_SLOTS, [Flatten(u), [y[p]]])
    ensures Run(y, p, u) == [Flatten(u), [y[p]]] + Run(y, p + 1, EMPTY_SLOTS)
  {
    RunAttaches(y, p, u);
  }

  /** Base + vowel + robat comes out as base + robat + vowel. */
  lemma RobatMovesBeforeVowel(b: char, v: char, r: char)
    requires IsBase(b as int) && IsVowel(v as int) && IsRobat(r as int)
    ensures Tokens([b, v, r]) == [[b, r, v]]
  {
    var y := [b, v, r];
    var t1 := EMPTY_SLOTS[0 := [b]];
    var t2 := t1[7 := [v]];
    var t3 := t2[1 := [r]];
    RunStarts(y, 0);
    RunPlaces(y, 1, t1, 7);
    RunPlaces(y, 2, t2, 1);
    RunEnds(y, t3);
    assert Flatten(t3) == [b, r, v] by {
      FlattenTen(t3);
    }
  }

  /** Base + coeng + RO + coeng + X (X a consonant other than RO) comes out
      as base + coeng + X + coeng + RO: subscript RO always takes the second pair. */
  lemma SubscriptRoGoesLast(b: char, c1: char, ro: char, c2: char, x: char)
    requires IsBase(b as int) && IsCoeng(c1 as int) && IsCoeng(c2 as int)
    requires IsRo(ro as int) && IsConsonant(x as int) && !IsRo(x as int)
    ensures Tokens([b, c1, ro, c2, x]) == [[b, c2, x, c1, ro]]
  {
    var y := [b, c1, ro, c2, x];
    var t1 := EMPTY_SLOTS[0 := [b]];
    var t2 := t1[4 := [c1]][5 := [ro]];
    var t3 := t2[2 := [c2]][3 := [x]];
    RunStarts(y, 0);
    RunPairs(y, 1, t1, 4);
    RunPairs(y, 3, t2, 2);
    RunEnds(y, t3);
    assert Flatten(t3) == [b, c2, x, c1, ro] by {
      FlattenTen(t3);
    }
  }

  /** A second coeng + RO while the first pair is still free overwrites the
      first one: one pair is lost, none is duplicated. */
  lemma SecondRoPairOverwrites(b: char, c1: char, r1: char, c2: char, r2: char)
    requires IsBase(b as int) && IsCoeng(c1 as int) && IsCoeng(c2 as int)
    requires IsRo(r1 as int) && IsRo(r2 as int)
    ensures Tokens([b, c1, r1, c2, r2]) == [[b, c2, r2]]
  {
    var y := [b, c1, r1, c2, r2];
    var t1 := EMPTY_SLOTS[0 := [b]];
    var t2 := t1[4 := [c1]][5 := [r1]];
    var t3 := t2[4 := [c2]][5 := [r2]];
    RunStarts(y, 0);
    RunOverwritesRoPair(y, 1, t1);
    RunOverwritesRoPair(y, 3, t2);
    RunEnds(y, t3);
    assert Flatten(t3) == [b, c2, r2] by {
      FlattenTen(t3);
    }
  }

  /** U+200B inside a syllable is dropped and does not close the syllable. */
  lemma ZeroWidthSpaceKeepsSyllable(b: char, z: char, v: char)
    requires IsBase(b as int) && z as int == ZERO_WIDTH_SPACE && IsVowel(v as int)
    ensures Tokens([b, z, v]) == [[b, v]]
  {
    var y := [b, z, v];
    var t1 := EMPTY_SLOTS[0 := [b]];
    var t2 := t1[7 := [v]];
    RunStarts(y, 0);
    RunSkipsZeroWidthSpace(y, 1, t1);
    RunPlaces(y, 2, t1, 7);
    RunEnds(y, t2);
    assert Flatten(t2) == [b, v] by {
      FlattenTen(t2);
    }
  }

  /** Two bases around U+200B: two syllables, and no U+200B. */
  lemma ZeroWidthSpaceBetweenSyllables(b1: char, z: char, b2: char)
    requires IsBase(b1 as int) && z as int == ZERO_WIDTH_SPACE && IsBase(b2 as int)
    ensures Tokens([b1, z, b2]) == [[b1], [b2]]
  {
    var y := [b1, z, b2];
    var t1 := EMPTY_SLOTS[0 := [b1]];
    var t2 := EMPTY_SLOTS[0 := [b2]];
    RunStarts(y, 0);
    RunSkipsZeroWidthSpace(y, 1, t1);
    RunOpensSyllable(y, 2, t1);
    RunEnds(y, t2);
    FlattenBaseOnly(b1);
    FlattenBaseOnly(b2);
  }

  /** A mark with no syllable open is dropped. */
  lemma OrphanMarkDropped(m: char, b: char)
    requires m as int != ZERO_WIDTH_SPACE && !IsStandalone(m as int) && IsBase(b as int)
    ensures Tokens([m, b]) == [[b]]
  {
    var y := [m, b];
    var t1 := EMPTY_SLOTS[0 := [b]];
    RunDropsOrphan(y, 0, EMPTY_SLOTS);
    RunStarts(y, 1);
    RunEnds(y, t1);
    FlattenBaseOnly(b);
  }

  /** A coeng followed by a vowel, with a coeng slot free, is dropped; the vowel is kept. */
  lemma CoengBeforeVowelDropped(b: char, c: char, v: char)
    requires IsBase(b as int) && IsCoeng(c as int) && IsVowel(v as int)
    ensures Tokens([b, c, v]) == [[b, v]]
  {
    var y := [b, c, v];
    var t1 := EMPTY_SLOTS[0 := [b]];
    var t2 := t1[7 := [v]];
    RunStarts(y, 0);
    RunDropsCoeng(y, 1, t1);
    RunPlaces(y, 2, t1, 7);
    RunEnds(y, t2);
    assert Flatten(t2) == [b, v] by {
      FlattenTen(t2);
    }
  }

  /** A coeng that ends the word flushes the syllable and is emitted on its own. */
  lemma FinalCoengEmitted(b: char, c: char)
    requires IsBase(b as int) && IsCoeng(c as int)
    ensures Tokens([b, c]) == [[b], [c]]
  {
    var y := [b, c];
    var t1 := EMPTY_SLOTS[0 := [b]];
    RunStarts(y, 0);
    RunMisfit(y, 1, t1);
    RunEndsEmpty(y);
    FlattenBaseOnly(b);
  }

  /** A third coeng, with both pairs taken, flushes the syllable and is
      emitted on its own; its consonant then opens a syllable of its own. */
  lemma ThirdCoengEmitted(b: char, c1: char, k1: char, c2: char, k2: char, c3: char, k3: char)
    requires IsBase(b as int) && IsCoeng(c1 as int) && IsCoeng(c2 as int) && IsCoeng(c3 as int)
    requires IsConsonant(k1 as int) && !IsRo(k1 as int) && IsConsonant(k2 as int) && IsConsonant(k3 as int)
    ensures Tokens([b, c1, k1, c2, k2, c3, k3]) == [[b, c1, k1, c2, k2], [c3], [k3]]
  {
    var y := [b, c1, k1, c2, k2, c3, k3];
    var t1 := EMPTY_SLOTS[0 := [b]];
    var t2 := t1[2 := [c1]][3 := [k1]];
    var t3 := t2[4 := [c2]][5 := [k2]];
    var t4 := EMPTY_SLOTS[0 := [k3]];
    RunStarts(y, 0);
    RunPairs(y, 1, t1, 2);
    RunPairs(y, 3, t2, 4);
    RunMisfit(y, 5, t3);
    RunStarts(y, 6);
    RunEnds(y, t4);
    FlattenBaseOnly(k3);
    assert Flatten(t3) == [b, c1, k1, c2, k2] by {
      FlattenTen(t3);
    }
  }

  /** A space after a syllable flushes it and is emitted on its own. */
  lemma SpaceEmittedAfterSyllable(b: char)
    requires IsBase(b as int)
    ensures Tokens([b, ' ']) == [[b], [' ']]
  {
    var y := [b, ' '];
    var t1 := EMPTY_SLOTS[0 := [b]];
    RunStarts(y, 0);
    RunMisfit(y, 1, t1);
    RunEndsEmpty(y);
    FlattenBaseOnly(b);
  }

  /** A numeral flushes the syllable and is emitted on its own; a mark after
      it finds no syllable open and is dropped. */
  lemma NumeralClosesSyllable(b: char, n: char, v: char)
    requires IsBase(b as int) && IsNumeral(n as int) && IsVowel(v as int)
    ensures Tokens([b, n, v]) == [[b], [n]]
  {
    var y := [b, n, v];
    var t1 := EMPTY_SLOTS[0 := [b]];
    RunStarts(y, 0);
    RunEmitsUnit(y, 1, t1);
    RunDropsOrphan(y, 2, EMPTY_SLOTS);
    RunEndsEmpty(y);
    FlattenBaseOnly(b);
  }
}
