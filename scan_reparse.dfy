/** Re-scanning the scan's own output gives the same units back: a syllable in
    canonical slot order is read back slot by slot into the same buffer, and
    every boundary between units is decided the same way the second time. */
module ScanReparse {
  import opened KhmerClassifier
  import opened SyllableBuffer
  import opened SyllableScan
  import opened ScanUnits

  /** `s` occurs in `y` at position `p`. */
  predicate IsAt(y: string, p: nat, s: string)
  {
    p + |s| <= |y| && y[p..p + |s|] == s
  }

  lemma IsAtSplit(y: string, p: nat, a: string, b: string)
    requires IsAt(y, p, a + b)
    ensures IsAt(y, p, a) && IsAt(y, p + |a|, b)
  {
    assert y[p..p + |a|] == (a + b)[..|a|];
    assert y[p + |a|..p + |a| + |b|] == (a + b)[|a|..];
  }

  lemma FlattenFront(t: seq<string>, k: nat)
    requires k < |t|
    ensures Flatten(t[k..]) == t[k] + Flatten(t[k + 1..])
  {
    assert t[k..] == [t[k]] + t[k + 1..];
    FlattenAppend([t[k]], t[k + 1..]);
    assert [t[k]][..0] == [];
  }

  /** A step that emits nothing hands the rest of the scan to the state it reaches. */
  lemma RunQuiet(y: string, p: nat, u: seq<string>, q: nat, v: seq<string>)
    requires p < |y| && |u| == SLOT_COUNT
    requires Step(y, p, u) == Move(q, v, [])
    ensures Run(y, p, u) == Run(y, q, v)
  {
  }

  /** A base read with no syllable open opens one. */
  lemma StepStarts(y: string, p: nat)
    requires p < |y| && IsBase(y[p] as int)
    ensures Step(y, p, EMPTY_SLOTS) == Move(p + 1, EMPTY_SLOTS[0 := [y[p]]], [])
  {
  }

  /** A mark whose single slot is free goes into it. */
  lemma StepPlaces(y: string, p: nat, u: seq<string>, k: nat)
    requires p < |y| && |u| == SLOT_COUNT && u[0] != ""
    requires k in {1, 6, 7, 8, 9} && u[k] == "" && Classify(y[p] as int) == SlotRole(k)
    ensures Step(y, p, u) == Move(p + 1, u[k := [y[p]]], [])
  {
  }

  /** A coeng and its consonant go into the pair of slots the scan chooses
      for them: slots 2-3 for a consonant other than RO, slots 4-5 for RO or
      when the first pair is taken. */
  lemma StepPairs(y: string, p: nat, u: seq<string>, k: nat)
    requires p + 1 < |y| && |u| == SLOT_COUNT && u[0] != ""
    requires IsCoeng(y[p] as int) && IsConsonant(y[p + 1] as int)
    requires k == 2 ==> u[2] == "" && !IsRo(y[p + 1] as int)
    requires k == 4 ==> u[4] == "" && (u[2] == "" ==> IsRo(y[p + 1] as int))
    requires k in {2, 4}
    ensures Step(y, p, u) == Move(p + 2, u[k := [y[p]]][k + 1 := [y[p + 1]]], [])
  {
    assert Step(y, p, u) == Attach(y, p, u);
    if k == 2 || u[2] == "" {
      assert Attach(y, p, u) == AttachCoeng(y, p, u);
    } else {
      assert Attach(y, p, u) == AttachSecondCoeng(y, p, u);
    }
  }

  lemma PrefixGrow(t: seq<string>, k: nat)
    requires |t| == SLOT_COUNT && k < SLOT_COUNT
    ensures Prefix(t, k)[k := t[k]] == Prefix(t, k + 1)
  {
  }

  lemma PrefixPair(t: seq<string>, k: nat)
    requires |t| == SLOT_COUNT && k + 2 <= SLOT_COUNT
    ensures Prefix(t, k)[k := t[k]][k + 1 := t[k + 1]] == Prefix(t, k + 2)
  {
    PrefixGrow(t, k);
    PrefixGrow(t, k + 1);
  }

  lemma PrefixEnds(t: seq<string>)
    requires |t| == SLOT_COUNT
    ensures Prefix(t, 0) == EMPTY_SLOTS && Prefix(t, SLOT_COUNT) == t
  {
  }

  /** An empty slot of `t` is passed over: nothing is read for it. */
  lemma SkipSlot(t: seq<string>, k: nat)
    requires |t| == SLOT_COUNT && k < SLOT_COUNT && t[k] == ""
    ensures Prefix(t, k) == Prefix(t, k + 1)
    ensures Flatten(t[k..]) == Flatten(t[k + 1..])
  {
    PrefixGrow(t, k);
    assert Prefix(t, k)[k := t[k]] == Prefix(t, k);
    FlattenFront(t, k);
  }

  /** The text from slot `k` on starts with slot `k`'s own characters. */
  lemma SlotText(y: string, p: nat, t: seq<string>, k: nat)
    requires |t| == SLOT_COUNT && k < SLOT_COUNT && IsAt(y, p, Flatten(t[k..]))
    ensures IsAt(y, p, t[k]) && IsAt(y, p + |t[k]|, Flatten(t[k + 1..]))
    ensures |Flatten(t[k..])| == |t[k]| + |Flatten(t[k + 1..])|
  {
    FlattenFront(t, k);
    IsAtSplit(y, p, t[k], Flatten(t[k + 1..]));
  }

  /** A filled single-character slot of an open syllable holds a character of the slot's role. */
  lemma MarkSlot(t: seq<string>, k: nat)
    requires IsOpenSyllable(t) && k in {1, 6, 7, 8, 9} && t[k] != ""
    ensures |t[k]| == 1 && Classify(t[k][0] as int) == SlotRole(k)
  {
  }

  /** A filled coeng pair of an open syllable holds a coeng and a consonant,
      RO when it is the second pair alone and never RO in the first pair. */
  lemma PairSlots(t: seq<string>, k: nat)
    requires IsOpenSyllable(t) && k in {2, 4} && t[k] != ""
    ensures |t[k]| == 1 && |t[k + 1]| == 1
    ensures IsCoeng(t[k][0] as int) && IsConsonant(t[k + 1][0] as int)
    ensures k == 2 ==> !IsRo(t[3][0] as int)
    ensures k == 4 && t[2] == "" ==> IsRo(t[5][0] as int)
  {
  }

  /** The character of a filled single slot, read after the slots before it, goes back into it. */
  lemma ReadMark(y: string, p: nat, t: seq<string>, k: nat)
    requires p < |y| && |t| == SLOT_COUNT && t[0] != ""
    requires k in {1, 6, 7, 8, 9} && t[k] == [y[p]] && Classify(t[k][0] as int) == SlotRole(k)
    ensures Run(y, p, Prefix(t, k)) == Run(y, p + 1, Prefix(t, k + 1))
  {
    assert t[k][0] == y[p];
    PrefixGrow(t, k);
    StepPlaces(y, p, Prefix(t, k), k);
    RunQuiet(y, p, Prefix(t, k), p + 1, Prefix(t, k + 1));
  }

  /** The two characters of a filled coeng pair, read after the slots before
      it, go back into the pair. */
  lemma ReadPair(y: string, p: nat, t: seq<string>, k: nat)
    requires p + 1 < |y| && |t| == SLOT_COUNT && t[0] != "" && k in {2, 4}
    requires t[k] == [y[p]] && t[k + 1] == [y[p + 1]]
    requires IsCoeng(y[p] as int) && IsConsonant(y[p + 1] as int)
    requires k == 2 ==> !IsRo(y[p + 1] as int)
    requires k == 4 && t[2] == "" ==> IsRo(y[p + 1] as int)
    ensures Run(y, p, Prefix(t, k)) == Run(y, p + 2, Prefix(t, k + 2))
  {
    PrefixPair(t, k);
    StepPairs(y, p, Prefix(t, k), k);
    RunQuiet(y, p, Prefix(t, k), p + 2, Prefix(t, k + 2));
  }

  /** Reading the slots from `k` on, in canonical order, fills them in; their
      text ends at `q`. */
  lemma {:induction false} ReparseFrom(y: string, p: nat, t: seq<string>, k: nat, q: nat)
    requires IsOpenSyllable(t) && 1 <= k <= SLOT_COUNT
    requires k == 3 ==> t[2] == ""
    requires k == 5 ==> t[4] == ""
    requires IsAt(y, p, Flatten(t[k..]))
    requires q == p + |Flatten(t[k..])|
    ensures Run(y, p, Prefix(t, k)) == Run(y, q, t)
    decreases SLOT_COUNT - k, 1
  {
    if k == SLOT_COUNT {
      PrefixEnds(t);
      assert t[k..] == [];
    } else if t[k] == "" {
      ReparseSkipFrom(y, p, t, k, q);
    } else if k == 2 || k == 4 {
      ReparsePairFrom(y, p, t, k, q);
    } else {
      ReparseMarkFrom(y, p, t, k, q);
    }
  }

  lemma {:induction false} ReparseSkipFrom(y: string, p: nat, t: seq<string>, k: nat, q: nat)
    requires IsOpenSyllable(t) && 1 <= k < SLOT_COUNT && t[k] == ""
    requires IsAt(y, p, Flatten(t[k..]))
    requires q == p + |Flatten(t[k..])|
    ensures Run(y, p, Prefix(t, k)) == Run(y, q, t)
    decreases SLOT_COUNT - k, 0
  {
    SkipSlot(t, k);
    ReparseFrom(y, p, t, k + 1, q);
  }

  lemma {:induction false} ReparseMarkFrom(y: string, p: nat, t: seq<string>, k: nat, q: nat)
    requires IsOpenSyllable(t) && k in {1, 6, 7, 8, 9} && t[k] != ""
    requires IsAt(y, p, Flatten(t[k..]))
    requires q == p + |Flatten(t[k..])|
    ensures Run(y, p, Prefix(t, k)) == Run(y, q, t)
    decreases SLOT_COUNT - k, 0
  {
    MarkStep(y, p, t, k);
    ReparseFrom(y, p + 1, t, k + 1, q);
  }

  /** A filled single slot is read back from the next character of the text. */
  lemma MarkStep(y: string, p: nat, t: seq<string>, k: nat)
    requires IsOpenSyllable(t) && k in {1, 6, 7, 8, 9} && t[k] != ""
    requires IsAt(y, p, Flatten(t[k..]))
    ensures IsAt(y, p + 1, Flatten(t[k + 1..])) && |Flatten(t[k..])| == 1 + |Flatten(t[k + 1..])|
    ensures Run(y, p, Prefix(t, k)) == Run(y, p + 1, Prefix(t, k + 1))
  {
    MarkSlot(t, k);
    MarkText(y, p, t, k);
    ReadMark(y, p, t, k);
  }

  /** The next character of the text is the one a single-character slot holds. */
  lemma MarkText(y: string, p: nat, t: seq<string>, k: nat)
    requires |t| == SLOT_COUNT && k < SLOT_COUNT && |t[k]| == 1
    requires IsAt(y, p, Flatten(t[k..]))
    ensures p < |y| && t[k] == [y[p]]
    ensures IsAt(y, p + 1, Flatten(t[k + 1..])) && |Flatten(t[k..])| == 1 + |Flatten(t[k + 1..])|
  {
    SlotText(y, p, t, k);
    assert y[p..p + 1] == t[k];
  }

  lemma {:induction false} ReparsePairFrom(y: string, p: nat, t: seq<string>, k: nat, q: nat)
    requires IsOpenSyllable(t) && k in {2, 4} && t[k] != ""
    requires IsAt(y, p, Flatten(t[k..]))
    requires q == p + |Flatten(t[k..])|
    ensures Run(y, p, Prefix(t, k)) == Run(y, q, t)
    decreases SLOT_COUNT - k, 0
  {
    PairStep(y, p, t, k);
    ReparseFrom(y, p + 2, t, k + 2, q);
  }

  /** A filled coeng pair is read back from the next two characters of the text. */
  lemma PairStep(y: string, p: nat, t: seq<string>, k: nat)
    requires IsOpenSyllable(t) && k in {2, 4} && t[k] != ""
    requires IsAt(y, p, Flatten(t[k..]))
    ensures IsAt(y, p + 2, Flatten(t[k + 2..])) && |Flatten(t[k..])| == 2 + |Flatten(t[k + 2..])|
    ensures Run(y, p, Prefix(t, k)) == Run(y, p + 2, Prefix(t, k + 2))
  {
    PairText(y, p, t, k);
    ReadPair(y, p, t, k);
  }

  /** The next two characters of the text are the ones a filled coeng pair holds. */
  lemma PairText(y: string, p: nat, t: seq<string>, k: nat)
    requires IsOpenSyllable(t) && k in {2, 4} && t[k] != ""
    requires IsAt(y, p, Flatten(t[k..]))
    ensures p + 1 < |y| && t[k] == [y[p]] && t[k + 1] == [y[p + 1]]
    ensures IsCoeng(y[p] as int) && IsConsonant(y[p + 1] as int)
    ensures k == 2 ==> !IsRo(y[p + 1] as int)
    ensures k == 4 && t[2] == "" ==> IsRo(y[p + 1] as int)
    ensures IsAt(y, p + 2, Flatten(t[k + 2..])) && |Flatten(t[k..])| == 2 + |Flatten(t[k + 2..])|
  {
    SlotText(y, p, t, k);
    SlotText(y, p + 1, t, k + 1);
    PairSlots(t, k);
    assert y[p..p + 1] == t[k] && y[p + 1..p + 2] == t[k + 1];
  }

  /** A syllable in canonical order, read with no syllable open, leaves exactly
      that syllable in the buffer. */
  lemma SyllableReparse(y: string, j: nat, t: seq<string>)
    requires IsOpenSyllable(t) && IsAt(y, j, Flatten(t))
    ensures Run(y, j, EMPTY_SLOTS) == Run(y, j + |Flatten(t)|, t)
  {
    BaseStep(y, j, t);
    ReparseMarks(y, j + 1, t);
  }

  /** The slots after the base, read after it, fill in the rest of the syllable. */
  lemma ReparseMarks(y: string, p: nat, t: seq<string>)
    requires IsOpenSyllable(t) && IsAt(y, p, Flatten(t[1..]))
    ensures Run(y, p, Prefix(t, 1)) == Run(y, p + |Flatten(t[1..])|, t)
  {
    ReparseFrom(y, p, t, 1, p + |Flatten(t[1..])|);
  }

  /** The base of a syllable, read with no syllable open, opens it. */
  lemma BaseStep(y: string, j: nat, t: seq<string>)
    requires IsOpenSyllable(t) && IsAt(y, j, Flatten(t))
    ensures IsAt(y, j + 1, Flatten(t[1..])) && |Flatten(t)| == 1 + |Flatten(t[1..])|
    ensures Run(y, j, EMPTY_SLOTS) == Run(y, j + 1, Prefix(t, 1))
  {
    SyllableText(y, j, t);
    StepStarts(y, j);
    RunQuiet(y, j, EMPTY_SLOTS, j + 1, Prefix(t, 1));
  }

  /** The text of a syllable: its base, then the rest of its slots. */
  lemma SyllableText(y: string, j: nat, t: seq<string>)
    requires IsOpenSyllable(t) && IsAt(y, j, Flatten(t))
    ensures j < |y| && IsBase(y[j] as int) && EMPTY_SLOTS[0 := [y[j]]] == Prefix(t, 1)
    ensures IsAt(y, j + 1, Flatten(t[1..])) && |Flatten(t)| == 1 + |Flatten(t[1..])|
  {
    assert t[0..] == t;
    SlotText(y, j, t, 0);
    assert y[j..j + 1] == t[0];
    assert t[0] == [y[j]];
    PrefixGrow(t, 0);
    PrefixEnds(t);
  }

  /** A syllable already in canonical order (base, robat, coeng pairs,
      shifter, vowel, one modifier, final) comes back unchanged, as one token. */
  lemma CanonicalSyllableUnchanged(t: seq<string>)
    requires IsOpenSyllable(t)
    ensures Tokens(Flatten(t)) == [Flatten(t)]
  {
    var y := Flatten(t);
    assert y[0..|y|] == y;
    SyllableReparse(y, 0, t);
  }

  /** An open syllable is flushed, on its own, before a standalone character. */
  lemma RunFlushesBeforeStandalone(y: string, p: nat, t: seq<string>)
    requires p < |y| && |t| == SLOT_COUNT && t[0] != "" && IsStandalone(y[p] as int)
    ensures Run(y, p, t) == [Flatten(t)] + Run(y, p, EMPTY_SLOTS)
  {
    if IsNumeral(y[p] as int) || IsPunctuation(y[p] as int) {
      RunFlushesBeforeUnit(y, p, t);
    } else {
      RunFlushesBeforeBase(y, p, t);
    }
  }

  lemma RunFlushesBeforeUnit(y: string, p: nat, t: seq<string>)
    requires p < |y| && |t| == SLOT_COUNT && t[0] != ""
    requires IsNumeral(y[p] as int) || IsPunctuation(y[p] as int)
    ensures Run(y, p, t) == [Flatten(t)] + Run(y, p, EMPTY_SLOTS)
  {
    RunEmitsUnit(y, p, t);
    RunEmitsUnit(y, p, EMPTY_SLOTS);
    assert Flushed(t) == [Flatten(t)] && Flushed(EMPTY_SLOTS) == [];
    FlushInFront(Flatten(t), [[y[p]]], Run(y, p + 1, EMPTY_SLOTS), Run(y, p, t), Run(y, p, EMPTY_SLOTS));
  }

  lemma FlushInFront(f: string, x: seq<string>, r: seq<string>, a: seq<string>, b: seq<string>)
    requires a == [f] + x + r && b == [] + x + r
    ensures a == [f] + b
  {
  }

  lemma RunFlushesBeforeBase(y: string, p: nat, t: seq<string>)
    requires p < |y| && |t| == SLOT_COUNT && t[0] != "" && IsBase(y[p] as int)
    ensures Run(y, p, t) == [Flatten(t)] + Run(y, p, EMPTY_SLOTS)
  {
    RunOpensSyllable(y, p, t);
    RunOpensSyllable(y, p, EMPTY_SLOTS);
    assert Flushed(t) == [Flatten(t)] && Flushed(EMPTY_SLOTS) == [];
    FlushInFront(Flatten(t), [], Run(y, p + 1, EMPTY_SLOTS[0 := [y[p]]]), Run(y, p, t), Run(y, p, EMPTY_SLOTS));
  }

  /** An open syllable is flushed, and the character emitted after it, when
      the character has no slot. */
  lemma RunFlushesStray(y: string, p: nat, t: seq<string>)
    requires p < |y| && |t| == SLOT_COUNT && t[0] != ""
    requires Unplaceable(t, y[p], p + 1 == |y|)
    ensures Run(y, p, t) == [Flatten(t), [y[p]]] + Run(y, p + 1, EMPTY_SLOTS)
  {
    RunAttaches(y, p, t);
    AttachOutcome(y, p, t);
  }

  lemma RenderAllFront(us: seq<Unit>)
    requires us != []
    ensures RenderAll(us) == [Render(us[0])] + RenderAll(us[1..])
  {
  }

  lemma SuffixSplit(y: string, j: nat, a: string, b: string)
    requires j <= |y| && y[j..] == a + b
    ensures IsAt(y, j, a) && y[j + |a|..] == b
  {
    assert y[j..j + |a|] == (a + b)[..|a|];
  }

  /** The text of a run of units starts with the first unit's text. */
  lemma FrontText(y: string, j: nat, us: seq<Unit>)
    requires us != [] && j <= |y| && y[j..] == Join(RenderAll(us))
    ensures IsAt(y, j, Render(us[0]))
    ensures y[j + |Render(us[0])|..] == Join(RenderAll(us[1..]))
  {
    RenderAllFront(us);
    JoinFront(Render(us[0]), Render(us[0]), RenderAll(us[1..]));
    SuffixSplit(y, j, Render(us[0]), Join(RenderAll(us[1..])));
  }

  /** What a well-formed run of units starting with a syllable says about its first two units. */
  lemma SyllableUnits(us: seq<Unit>)
    requires Units(us) && us != [] && us[0].Syllable?
    ensures IsOpenSyllable(us[0].slots)
    ensures |us| >= 2 && us[1].Stray? ==> Unplaceable(us[0].slots, us[1].c, |us| == 2) && Units(us[2..])
    ensures !(|us| >= 2 && us[1].Stray?) ==> Units(us[1..])
  {
  }

  /** A well-formed run of units starts with a standalone character. */
  lemma HeadStandalone(us: seq<Unit>)
    requires Units(us) && us != []
    ensures |Render(us[0])| >= 1 && IsStandalone(Render(us[0])[0] as int)
  {
    UnitsHead(us);
    if us[0].Syllable? {
      OpenSyllableFlattens(us[0].slots);
    }
  }

  /** Well-formed units, written out one after another and scanned from an
      empty buffer, are scanned back into the same strings. */
  lemma {:induction false} ReparseUnits(y: string, j: nat, us: seq<Unit>)
    requires Units(us) && j <= |y| && y[j..] == Join(RenderAll(us))
    ensures Run(y, j, EMPTY_SLOTS) == RenderAll(us)
    decreases |us|, 1
  {
    if us == [] {
      assert j == |y|;
    } else if us[0].Standalone? {
      ReparseStandalone(y, j, us);
    } else if |us| == 1 {
      UnitsHead(us);
      ReparseLastSyllable(y, j, us);
    } else if us[1].Stray? {
      UnitsHead(us);
      ReparseSyllableStray(y, j, us);
    } else {
      UnitsHead(us);
      ReparseSyllableNext(y, j, us);
    }
  }

  lemma {:induction false} ReparseStandalone(y: string, j: nat, us: seq<Unit>)
    requires Units(us) && us != [] && us[0].Standalone?
    requires j <= |y| && y[j..] == Join(RenderAll(us))
    ensures Run(y, j, EMPTY_SLOTS) == RenderAll(us)
    decreases |us|, 0
  {
    var c := us[0].c;
    FrontText(y, j, us);
    assert y[j..j + 1] == [c];
    RunEmitsUnit(y, j, EMPTY_SLOTS);
    assert Flushed(EMPTY_SLOTS) == [];
    ReparseUnits(y, j + 1, us[1..]);
    RenderAllFront(us);
  }

  lemma {:induction false} ReparseLastSyllable(y: string, j: nat, us: seq<Unit>)
    requires Units(us) && |us| == 1 && us[0].Syllable?
    requires j <= |y| && y[j..] == Join(RenderAll(us))
    ensures Run(y, j, EMPTY_SLOTS) == RenderAll(us)
    decreases |us|, 0
  {
    var t := us[0].slots;
    FrontText(y, j, us);
    SyllableUnits(us);
    assert RenderAll(us[1..]) == [];
    assert j + |Flatten(t)| == |y|;
    SyllableReparse(y, j, t);
    assert Run(y, |y|, t) == [Flatten(t)];
    RenderAllFront(us);
  }

  lemma {:induction false} ReparseSyllableNext(y: string, j: nat, us: seq<Unit>)
    requires Units(us) && |us| >= 2 && us[0].Syllable? && !us[1].Stray?
    requires j <= |y| && y[j..] == Join(RenderAll(us))
    ensures Run(y, j, EMPTY_SLOTS) == RenderAll(us)
    decreases |us|, 0
  {
    var t := us[0].slots;
    var p := j + |Flatten(t)|;
    FrontText(y, j, us);
    SyllableUnits(us);
    FrontText(y, p, us[1..]);
    HeadStandalone(us[1..]);
    assert y[p] == Render(us[1])[0];
    SyllableReparse(y, j, t);
    RunFlushesBeforeStandalone(y, p, t);
    ReparseUnits(y, p, us[1..]);
    RenderAllFront(us);
  }

  lemma {:induction false} ReparseSyllableStray(y: string, j: nat, us: seq<Unit>)
    requires Units(us) && |us| >= 2 && us[0].Syllable? && us[1].Stray?
    requires j <= |y| && y[j..] == Join(RenderAll(us))
    ensures Run(y, j, EMPTY_SLOTS) == RenderAll(us)
    decreases |us|, 0
  {
    var t := us[0].slots;
    var p := j + |Flatten(t)|;
    StrayText(y, j, us);
    StrayRender(us);
    SyllableReparse(y, j, t);
    RunFlushesStray(y, p, t);
    ReparseUnits(y, p + 1, us[2..]);
  }

  /** The text of a syllable followed by a stray: the syllable, the stray
      character (last in the text exactly when it is the last unit), then the rest. */
  lemma StrayText(y: string, j: nat, us: seq<Unit>)
    requires Units(us) && |us| >= 2 && us[0].Syllable? && us[1].Stray?
    requires j <= |y| && y[j..] == Join(RenderAll(us))
    ensures var p := j + |Flatten(us[0].slots)|;
      && IsOpenSyllable(us[0].slots) && Units(us[2..])
      && IsAt(y, j, Flatten(us[0].slots)) && p < |y| && y[p] == us[1].c
      && Unplaceable(us[0].slots, y[p], p + 1 == |y|)
      && y[p + 1..] == Join(RenderAll(us[2..]))
  {
    var p := j + |Flatten(us[0].slots)|;
    StraySplit(y, j, us);
    SyllableUnits(us);
    TextEnds(y, p + 1, us[2..]);
  }

  lemma StraySplit(y: string, j: nat, us: seq<Unit>)
    requires |us| >= 2 && us[0].Syllable? && us[1].Stray?
    requires j <= |y| && y[j..] == Join(RenderAll(us))
    ensures var p := j + |Flatten(us[0].slots)|;
      && IsAt(y, j, Flatten(us[0].slots)) && p < |y| && y[p] == us[1].c
      && y[p + 1..] == Join(RenderAll(us[2..]))
  {
    var p := j + |Flatten(us[0].slots)|;
    FrontText(y, j, us);
    FrontText(y, p, us[1..]);
    assert us[1..][1..] == us[2..];
    assert y[p..p + 1] == [us[1].c];
  }

  /** The text of a well-formed run of units ends exactly where the run does. */
  lemma TextEnds(y: string, q: nat, vs: seq<Unit>)
    requires Units(vs) && q <= |y| && y[q..] == Join(RenderAll(vs))
    ensures q == |y| <==> vs == []
  {
    if vs == [] {
      assert RenderAll(vs) == [];
    } else {
      HeadStandalone(vs);
      FrontText(y, q, vs);
    }
  }

  lemma StrayRender(us: seq<Unit>)
    requires |us| >= 2 && us[0].Syllable? && us[1].Stray?
    ensures RenderAll(us) == [Flatten(us[0].slots), [us[1].c]] + RenderAll(us[2..])
  {
  }

  /** `sort_word2sub` is idempotent: the units of the joined units are the
      units themselves. */
  lemma TokensIdempotent(text: string)
    ensures Tokens(Join(Tokens(text))) == Tokens(text)
  {
    var us := Parse(text, 0, EMPTY_SLOTS);
    TokensStructure(text);
    var y := Join(RenderAll(us));
    assert y[0..] == y;
    ReparseUnits(y, 0, us);
  }

  /** `sort_khm_word` is idempotent: sorting a sorted word changes nothing. */
  lemma SortedWordIdempotent(text: string)
    ensures Join(Tokens(Join(Tokens(text)))) == Join(Tokens(text))
  {
    TokensIdempotent(text);
  }
}
