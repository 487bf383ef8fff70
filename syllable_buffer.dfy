/** The ten-slot syllable buffer `temp` of the sorter:
      0 Base, 1 Robat, 2 Coeng, 3 Con, 4 Coeng, 5 Con, 6 Shifter, 7 Vowel, 8 Diacritic, 9 Final.
    A slot holds "" (empty) or one character. */
module SyllableBuffer {
  import opened KhmerClassifier

  const SLOT_COUNT: nat := 10

  /** The buffer as the scan creates it and after every flush. */
  const EMPTY_SLOTS: seq<string> := ["", "", "", "", "", "", "", "", "", ""]

  /** The contents of the slots concatenated in index order (empty slots add nothing). */
  function Flatten(slots: seq<string>): string
  {
    if slots == [] then "" else Flatten(slots[..|slots| - 1]) + slots[|slots| - 1]
  }

  /** A slot that is empty or holds one character of the given role. */
  predicate Holds(s: string, role: Role)
  {
    s == "" || (|s| == 1 && Classify(s[0] as int) == role)
  }

  /** An open syllable in the layout the scan builds:
      Base Robat? (Coeng C)? (Coeng C)? Shifter? Vowel? Modifier? Final?
      A coeng pair is stored whole; the first pair never holds RO, and the
      second pair is used without the first only for subscript RO. */
  predicate IsOpenSyllable(t: seq<string>)
  {
    && |t| == SLOT_COUNT
    && |t[0]| == 1 && IsBase(t[0][0] as int)
    && Holds(t[1], Robat)
    && (t[2] == "" <==> t[3] == "")
    && Holds(t[2], Coeng) && Holds(t[3], Consonant)
    && (t[3] != "" ==> !IsRo(t[3][0] as int))
    && (t[4] == "" <==> t[5] == "")
    && Holds(t[4], Coeng) && Holds(t[5], Consonant)
    && (t[2] == "" && t[5] != "" ==> IsRo(t[5][0] as int))
    && Holds(t[6], Shifter)
    && Holds(t[7], DependentVowel)
    && Holds(t[8], Diacritic)
    && Holds(t[9], Final)
  }

  /** What the buffer always is between two steps of the scan: empty, or an open syllable. */
  predicate BufferInvariant(t: seq<string>)
  {
    t == EMPTY_SLOTS || IsOpenSyllable(t)
  }

  /** A character that can sit in a syllable slot. */
  predicate IsSyllableChar(c: char)
  {
    IsBase(c as int) || IsDependentOnly(c as int)
  }

  /** The slots below `k` of `t`, the others emptied: the buffer after the
      scan has read the first `k` slots of `t` back from its flattening. */
  function Prefix(t: seq<string>, k: nat): (p: seq<string>)
    requires |t| == SLOT_COUNT && k <= SLOT_COUNT
    ensures |p| == SLOT_COUNT
    ensures forall j :: 0 <= j < k ==> p[j] == t[j]
    ensures forall j :: k <= j < SLOT_COUNT ==> p[j] == ""
  {
    seq(SLOT_COUNT, j requires 0 <= j < SLOT_COUNT => if j < k then t[j] else "")
  }

  lemma {:induction false} FlattenAppend(a: seq<string>, b: seq<string>)
    ensures Flatten(a + b) == Flatten(a) + Flatten(b)
    decreases |b|
  {
    if b == [] {
      assert a + b == a;
    } else {
      var b' := b[..|b| - 1];
      assert (a + b)[..|a + b| - 1] == a + b';
      assert (a + b)[|a + b| - 1] == b[|b| - 1];
      assert Flatten(a + b) == Flatten(a + b') + b[|b| - 1];
      FlattenAppend(a, b');
    }
  }

  /** Slot `k` sits between the slots before it and the slots after it. */
  lemma {:induction false} FlattenAt(t: seq<string>, k: nat)
    requires k < |t|
    ensures Flatten(t) == Flatten(t[..k]) + t[k] + Flatten(t[k + 1..])
  {
    var before, slot, after := t[..k], [t[k]], t[k + 1..];
    assert t == (before + slot) + after;
    FlattenAppend(before + slot, after);
    FlattenAppend(before, slot);
    assert slot[..0] == [];
    assert Flatten(slot) == t[k];
  }

  /** Overwriting one slot trades that slot's characters for the new ones. */
  lemma {:induction false} FlattenUpdateBag(t: seq<string>, k: nat, s: string)
    requires k < |t|
    ensures multiset(Flatten(t[k := s])) + multiset(t[k]) == multiset(Flatten(t)) + multiset(s)
  {
    var u := t[k := s];
    FlattenAt(t, k);
    FlattenAt(u, k);
    assert u[..k] == t[..k] && u[k + 1..] == t[k + 1..];
  }

  /** A buffer of at most one character per slot flattens to at most one character per slot. */
  lemma {:induction false} FlattenLength(t: seq<string>)
    requires forall k :: 0 <= k < |t| ==> |t[k]| <= 1
    ensures |Flatten(t)| <= |t|
    decreases |t|
  {
    if t != [] {
      FlattenLength(t[..|t| - 1]);
    }
  }

  /** Every character of the flattening comes from some slot. */
  lemma {:induction false} FlattenChars(t: seq<string>, p: char -> bool)
    requires forall k, j :: 0 <= k < |t| && 0 <= j < |t[k]| ==> p(t[k][j])
    ensures forall j :: 0 <= j < |Flatten(t)| ==> p(Flatten(t)[j])
    decreases |t|
  {
    if t != [] {
      var t' := t[..|t| - 1];
      FlattenChars(t', p);
      var last := t[|t| - 1];
      forall j | 0 <= j < |Flatten(t)| ensures p(Flatten(t)[j]) {
        if j >= |Flatten(t')| {
          assert Flatten(t)[j] == last[j - |Flatten(t')|];
        }
      }
    }
  }

  /** A flushed syllable starts with its base, holds at most ten characters,
      all of them syllable characters, and none of them U+200B, a numeral or
      a punctuation mark. */
  lemma OpenSyllableFlattens(t: seq<string>)
    requires IsOpenSyllable(t)
    ensures 1 <= |Flatten(t)| <= SLOT_COUNT
    ensures Flatten(t)[0] == t[0][0]
    ensures forall j :: 0 <= j < |Flatten(t)| ==> IsSyllableChar(Flatten(t)[j])
  {
    FlattenLength(t);
    FlattenAt(t, 0);
    assert t[..0] == [];
    OpenSlotsHoldSyllableChars(t);
    FlattenChars(t, IsSyllableChar);
  }

  lemma OpenSlotsHoldSyllableChars(t: seq<string>)
    requires IsOpenSyllable(t)
    ensures forall k, j :: 0 <= k < |t| && 0 <= j < |t[k]| ==> IsSyllableChar(t[k][j])
  {
    forall k, j | 0 <= k < |t| && 0 <= j < |t[k]| ensures IsSyllableChar(t[k][j]) {
      assert |t[k]| == 1 && j == 0;
      var r := Classify(t[k][0] as int);
      assert k == 0 || Holds(t[k], r);
    }
  }
}
