/** Go's `strings.Contains`. */
module Substrings {
  predicate OccursAt(text: string, part: string, i: int) {
    0 <= i <= |text| - |part| && text[i..i + |part|] == part
  }

  predicate Contains(text: string, part: string) {
    exists i | 0 <= i <= |text| :: OccursAt(text, part, i)
  }

  /** The part is somewhere in the text. */
  lemma ContainsMeans(text: string, part: string)
    ensures Contains(text, part) <==> exists a, b :: text == a + part + b
  {
    if Contains(text, part) {
      var i :| 0 <= i <= |text| && OccursAt(text, part, i);
      assert text == text[..i] + part + text[i + |part|..];
    }
    if a, b :| text == a + part + b {
      assert OccursAt(text, part, |a|);
    }
  }

  lemma ContainsItself(text: string)
    ensures Contains(text, text)
  {
    assert OccursAt(text, text, 0);
  }

  /** A letter of `part` that does not occur in `text`. */
  lemma NotContained(text: string, part: string, k: nat)
    requires k < |part| && part[k] !in text
    ensures !Contains(text, part)
  {
  }
}
