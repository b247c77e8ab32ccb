/** Facts about the lines the daemons write: which text a line contains. */
module Text {

  /** The `n` characters of `text` starting at `i`. */
  function Slice(text: string, i: nat, n: nat): string
    requires i + n <= |text|
  {
    text[i..i + n]
  }

  /** `part` occurs somewhere in `text`. */
  predicate Mentions(text: string, part: string)
  {
    exists i: nat :: i + |part| <= |text| && Slice(text, i, |part|) == part
  }

  predicate EndsWith(text: string, suffix: string)
  {
    |suffix| <= |text| && text[|text| - |suffix|..] == suffix
  }

  /** A line built around `part` mentions it. */
  lemma MentionsInside(before: string, part: string, after: string)
    ensures Mentions(before + part + after, part)
  {
    assert Slice(before + part + after, |before|, |part|) == part;
  }

  /** A line ending in `part` mentions it. */
  lemma MentionsAtEnd(before: string, part: string)
    ensures Mentions(before + part, part)
  {
    assert Slice(before + part, |before|, |part|) == part;
  }

  lemma EndsWithAppend(before: string, suffix: string)
    ensures EndsWith(before + suffix, suffix)
  {
  }
}
