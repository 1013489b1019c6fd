/** Substring tests, as `includes` and the unanchored patterns of the event tap make them. */
module Texts {

  predicate HasAt(text: string, part: string, i: nat) {
    i + |part| <= |text| && text[i..i + |part|] == part
  }

  predicate Has(text: string, part: string) {
    exists i :: 0 <= i <= |text| && HasAt(text, part, i)
  }

  /** The text is something, then the part, then something. */
  ghost predicate Contains(text: string, part: string) {
    exists before: string, after: string :: text == before + part + after
  }

  lemma HasExactly(text: string, part: string)
    ensures Has(text, part) <==> Contains(text, part)
  {
    if Has(text, part) {
      var i :| 0 <= i <= |text| && HasAt(text, part, i);
      assert text == text[..i] + part + text[i + |part|..];
    }
    if Contains(text, part) {
      var before, after :| text == before + part + after;
      assert HasAt(text, part, |before|);
    }
  }

  function Lower(text: string): string {
    seq(|text|, i requires 0 <= i < |text| => if 'A' <= text[i] <= 'Z' then text[i] - 'A' + 'a' else text[i])
  }

  const UPPER_CASE := "ABCDEFGHIJKLMNOPQRSTUVWXYZ"
  const LOWER_CASE := "abcdefghijklmnopqrstuvwxyz"

  /** Letter by letter, and leaving everything else as it is. */
  lemma LowerExactly(text: string, i: nat, k: nat)
    requires i < |text| && k < 26
    ensures |Lower(text)| == |text|
    ensures text[i] == UPPER_CASE[k] ==> Lower(text)[i] == LOWER_CASE[k]
    ensures text[i] !in UPPER_CASE ==> Lower(text)[i] == text[i]
  {
    LettersInOrder(k);
    if 'A' <= text[i] <= 'Z' {
      var n := text[i] as int - 'A' as int;
      LettersInOrder(n);
      assert UPPER_CASE[n] == text[i];
    }
  }

  lemma LettersInOrder(k: nat)
    requires k < 26
    ensures UPPER_CASE[k] as int == 65 + k && LOWER_CASE[k] as int == 97 + k
  {
  }
}
