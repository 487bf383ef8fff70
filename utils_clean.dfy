/** `clean_khmer_text` as the `utils` package has it: the same removal of
    every character outside the Khmer block and whitespace, here stated from
    the end of the text, and proved to agree with the top-level one. */
module UtilsClean {
  import Clean

  /** The kept characters of `text`, in order, built from the last one back. */
  function CleanKhmerText(text: string): (r: string)
    ensures |r| <= |text|
    ensures forall c :: c in r ==> c in text
  {
    if text == [] then ""
    else CleanKhmerText(text[..|text| - 1]) + (if Clean.Kept(text[|text| - 1]) then [text[|text| - 1]] else "")
  }

  /** Both copies of the function return the same text on every input. */
  lemma {:induction false} SameAsTopLevel(text: string)
    ensures CleanKhmerText(text) == Clean.CleanKhmerText(text)
    decreases |text|
  {
    if text != [] {
      var init := text[..|text| - 1];
      var last := text[|text| - 1];
      SameAsTopLevel(init);
      assert text == init + [last];
      Clean.CleanAppend(init, [last]);
      assert [last][1..] == [];
    }
  }

  /** Cleaning twice is cleaning once, for this copy as well. */
  lemma Idempotent(text: string)
    ensures CleanKhmerText(CleanKhmerText(text)) == CleanKhmerText(text)
  {
    SameAsTopLevel(text);
    SameAsTopLevel(CleanKhmerText(text));
    Clean.CleanIdempotent(text);
  }
}
