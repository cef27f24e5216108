/** Searching in strings. */
module Text {
  import opened Wrappers

  /** str::find: the first position at which the pattern occurs. */
  function Find(text: string, pattern: string): (at: Option<nat>)
    ensures at.Some? ==> at.value + |pattern| <= |text|
  {
    if pattern <= text then Some(0)
    else if text == [] then None
    else
      var rest := Find(text[1..], pattern);
      if rest.Some? then Some(rest.value + 1) else None
  }

  /** The pattern does not occur at any of the first n positions. */
  ghost predicate NotBefore(text: string, pattern: string, n: nat)
    requires n <= |text|
  {
    forall k | 0 <= k < n :: !(pattern <= text[k..])
  }

  lemma {:induction false} FindAt(before: string, pattern: string, after: string)
    requires pattern != []
    requires NotBefore(before + pattern + after, pattern, |before|)
    ensures Find(before + pattern + after, pattern) == Some(|before|)
    decreases |before|
  {
    var text := before + pattern + after;
    if before == [] {
      assert text == pattern + after;
    } else {
      assert text[0..] == text;
      assert text[1..] == before[1..] + pattern + after;
      forall k | 0 <= k < |before| - 1 ensures !(pattern <= (before[1..] + pattern + after)[k..]) {
        assert (before[1..] + pattern + after)[k..] == text[k + 1..];
      }
      FindAt(before[1..], pattern, after);
    }
  }

  /** A text in which one character of the pattern never occurs holds no part of the pattern at that character. */
  lemma NoEarlierOccurrence(before: string, pattern: string, after: string, at: nat)
    requires at < |pattern| && pattern[at] !in before
    requires forall j | 0 <= j < at :: pattern[j] != pattern[at]
    ensures NotBefore(before + pattern + after, pattern, |before|)
  {
    var text := before + pattern + after;
    forall k | 0 <= k < |before| ensures !(pattern <= text[k..]) {
      assert text[k..][at] == text[k + at];
      assert text[k + at] == if k + at < |before| then before[k + at] else pattern[k + at - |before|];
    }
  }
}
