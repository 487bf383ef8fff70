/** `clean_khmer_text`: removes every character that is neither in the Khmer
    block U+1780..U+17FF nor whitespace, keeping the rest in order. */
module Clean {

  /** The characters the regular-expression class `\s` matches in a `str`
      pattern: those for which Python's `str.isspace` holds. */
  predicate IsWhitespace(code: int)
  {
    (0x09 <= code <= 0x0D) || (0x1C <= code <= 0x20) || code == 0x85 || code == 0xA0
    || code == 0x1680 || (0x2000 <= code <= 0x200A) || code == 0x2028 || code == 0x2029
    || code == 0x202F || code == 0x205F || code == 0x3000
  }

  /** The Khmer block, U+1780..U+17FF. */
  predicate IsKhmerBlock(code: int)
  {
    0x1780 <= code <= 0x17FF
  }

  /** The characters the cleaning keeps: the Khmer block and whitespace. */
  predicate Kept(c: char)
  {
    IsKhmerBlock(c as int) || IsWhitespace(c as int)
  }

  /** The characters of `text` that are kept, in their order. */
  function CleanKhmerText(text: string): (r: string)
    ensures |r| <= |text|
    ensures forall c :: c in r ==> c in text
  {
    if text == [] then "" else (if Kept(text[0]) then [text[0]] else "") + CleanKhmerText(text[1..])
  }

  /** `s` is `t` with some characters removed. */
  predicate IsSubsequence(s: string, t: string)
  {
    if s == [] then true
    else if t == [] then false
    else if s[0] == t[0] then IsSubsequence(s[1..], t[1..])
    else IsSubsequence(s, t[1..])
  }

  /** Cleaning a text is keeping or dropping its first character, then cleaning the rest. */
  lemma CleanFront(text: string)
    requires text != []
    ensures Kept(text[0]) ==> CleanKhmerText(text) == [text[0]] + CleanKhmerText(text[1..])
    ensures !Kept(text[0]) ==> CleanKhmerText(text) == CleanKhmerText(text[1..])
  {
  }

  /** Only kept characters come out. */
  lemma {:induction false} CleanOnlyKept(text: string)
    ensures forall i :: 0 <= i < |CleanKhmerText(text)| ==> Kept(CleanKhmerText(text)[i])
    decreases |text|
  {
    if text != [] {
      var rest := CleanKhmerText(text[1..]);
      CleanOnlyKept(text[1..]);
      CleanFront(text);
      if Kept(text[0]) {
        assert forall i :: 1 <= i < |rest| + 1 ==> ([text[0]] + rest)[i] == rest[i - 1];
      }
    }
  }

  /** Each kept character comes out as often as it occurs; the others never. */
  lemma {:induction false} CleanCounts(text: string)
    ensures forall c :: multiset(CleanKhmerText(text))[c] == if Kept(c) then multiset(text)[c] else 0
    decreases |text|
  {
    if text != [] {
      var rest := CleanKhmerText(text[1..]);
      CleanCounts(text[1..]);
      CleanFront(text);
      assert text == [text[0]] + text[1..];
      assert multiset(text) == multiset{text[0]} + multiset(text[1..]);
    }
  }

  /** The kept characters come out in the order they come in. */
  lemma {:induction false} CleanKeepsOrder(text: string)
    ensures IsSubsequence(CleanKhmerText(text), text)
    decreases |text|
  {
    if text != [] {
      var rest := CleanKhmerText(text[1..]);
      CleanKeepsOrder(text[1..]);
      CleanFront(text);
      if Kept(text[0]) {
        assert ([text[0]] + rest)[1..] == rest;
      } else if rest != [] {
        SubsequenceDrop(rest, text);
      }
    }
  }

  /** Cleaning never lengthens a text, and shortens it by each character it drops. */
  lemma {:induction false} CleanShortens(text: string)
    ensures |CleanKhmerText(text)| <= |text|
    ensures (exists i :: 0 <= i < |text| && !Kept(text[i])) ==> |CleanKhmerText(text)| < |text|
    decreases |text|
  {
    if text != [] {
      CleanShortens(text[1..]);
      CleanFront(text);
      var tail := text[1..];
      if exists i :: 0 <= i < |text| && !Kept(text[i]) {
        var i :| 0 <= i < |text| && !Kept(text[i]);
        if i > 0 {
          assert !Kept(tail[i - 1]);
        }
      }
    }
  }

  /** A subsequence of the tail is a subsequence of the whole. */
  lemma {:induction false} SubsequenceDrop(s: string, t: string)
    requires t != [] && IsSubsequence(s, t[1..])
    ensures IsSubsequence(s, t)
    decreases |t|, 1
  {
    if s != [] && s[0] == t[0] {
      SubsequenceTail(s, t[1..]);
    }
  }

  /** Dropping the first character of a subsequence keeps it a subsequence. */
  lemma {:induction false} SubsequenceTail(s: string, u: string)
    requires s != [] && IsSubsequence(s, u)
    ensures IsSubsequence(s[1..], u)
    decreases |u| + 1, 0
  {
    if s[0] == u[0] {
      if s[1..] != [] {
        SubsequenceDrop(s[1..], u);
      }
    } else {
      SubsequenceTail(s, u[1..]);
      if s[1..] != [] {
        SubsequenceDrop(s[1..], u);
      }
    }
  }

  /** Cleaning works character by character, so it distributes over concatenation. */
  lemma {:induction false} CleanAppend(a: string, b: string)
    ensures CleanKhmerText(a + b) == CleanKhmerText(a) + CleanKhmerText(b)
    decreases |a|
  {
    if a == [] {
      assert a + b == b;
    } else {
      var ab := a + b;
      assert ab[0] == a[0];
      assert ab[1..] == a[1..] + b;
      CleanFront(ab);
      CleanFront(a);
      CleanAppend(a[1..], b);
      var head := if Kept(a[0]) then [a[0]] else "";
      assert CleanKhmerText(ab) == head + (CleanKhmerText(a[1..]) + CleanKhmerText(b));
      assert CleanKhmerText(a) == head + CleanKhmerText(a[1..]);
      assert head + (CleanKhmerText(a[1..]) + CleanKhmerText(b)) == (head + CleanKhmerText(a[1..])) + CleanKhmerText(b);
    }
  }

  /** A text is left unchanged exactly when every character of it is kept. */
  lemma CleanUnchanged(text: string)
    ensures CleanKhmerText(text) == text <==> forall i :: 0 <= i < |text| ==> Kept(text[i])
  {
    CleanShortens(text);
    if forall i :: 0 <= i < |text| ==> Kept(text[i]) {
      CleanAllKept(text);
    }
  }

  /** A text of kept characters only is its own cleaning. */
  lemma {:induction false} CleanAllKept(text: string)
    requires forall i :: 0 <= i < |text| ==> Kept(text[i])
    ensures CleanKhmerText(text) == text
    decreases |text|
  {
    if text != [] {
      var tail := text[1..];
      assert forall i :: 0 <= i < |tail| ==> tail[i] == text[i + 1];
      CleanAllKept(tail);
      CleanFront(text);
      assert text == [text[0]] + tail;
    }
  }

  /** Cleaning twice is cleaning once. */
  lemma CleanIdempotent(text: string)
    ensures CleanKhmerText(CleanKhmerText(text)) == CleanKhmerText(text)
  {
    CleanOnlyKept(text);
    CleanAllKept(CleanKhmerText(text));
  }

  /** The zero-width space U+200B is neither Khmer nor whitespace: cleaning removes it. */
  lemma CleanRemovesZeroWidthSpace(text: string)
    ensures forall i :: 0 <= i < |CleanKhmerText(text)| ==> CleanKhmerText(text)[i] as int != 0x200B
  {
    CleanOnlyKept(text);
  }
}
