/** Trimming a record file to its last complete line, by reading blocks backwards from the end. */
module JsonlTail {

  newtype byte = x: int | 0 <= x < 256

  const NEWLINE: byte := 10

  /** Nothing, or text whose last line is complete. */
  predicate Complete(s: seq<byte>) {
    s == [] || s[|s| - 1] == NEWLINE
  }

  /** The first n bytes are complete, and no longer prefix is. */
  ghost predicate IsLongestComplete(s: seq<byte>, n: nat) {
    n <= |s| && Complete(s[..n]) && forall m: nat | n < m <= |s| :: !Complete(s[..m])
  }

  /** bytes.rfind(b"\n") */
  function LastNewline(s: seq<byte>): (i: int)
    ensures -1 <= i < |s|
    ensures i >= 0 ==> s[i] == NEWLINE
    ensures forall j | i < j < |s| :: s[j] != NEWLINE
  {
    if s == [] then -1
    else if s[|s| - 1] == NEWLINE then |s| - 1
    else LastNewline(s[..|s| - 1])
  }

  /** A longest complete prefix ends after the last newline, or is empty when there is none. */
  lemma LongestIff(s: seq<byte>, n: nat)
    ensures IsLongestComplete(s, n) <==>
            && n <= |s| && (n > 0 ==> s[n - 1] == NEWLINE)
            && forall j: nat | n <= j < |s| :: s[j] != NEWLINE
  {
    if n <= |s| {
      assert forall m: nat | n < m <= |s| :: s[..m][m - 1] == s[m - 1];
      forall j: nat | n <= j < |s| && IsLongestComplete(s, n) ensures s[j] != NEWLINE {
        assert !Complete(s[..j + 1]);
      }
    }
  }

  /** There is exactly one, so the block size does not matter. */
  lemma LongestIsUnique(s: seq<byte>, m: nat, n: nat)
    requires IsLongestComplete(s, m) && IsLongestComplete(s, n)
    ensures m == n
  {
    LongestIff(s, m);
    LongestIff(s, n);
  }

  /** Trimming again drops nothing. */
  lemma TrimIsIdempotent(s: seq<byte>, n: nat)
    requires IsLongestComplete(s, n)
    ensures IsLongestComplete(s[..n], n)
  {
    LongestIff(s, n);
    LongestIff(s[..n], n);
  }

  /** Complete records followed by a partial line: exactly the records are kept. */
  lemma PartialLineIsDropped(records: seq<byte>, partial: seq<byte>)
    requires Complete(records) && forall j: nat | j < |partial| :: partial[j] != NEWLINE
    ensures IsLongestComplete(records + partial, |records|)
  {
    LongestIff(records + partial, |records|);
  }

  function Newlines(s: seq<byte>): nat {
    if s == [] then 0 else Newlines(s[..|s| - 1]) + if s[|s| - 1] == NEWLINE then 1 else 0
  }

  lemma {:induction false} NewlinesAreCounted(s: seq<byte>)
    ensures Newlines(s) == multiset(s)[NEWLINE]
    decreases |s|
  {
    if s != [] {
      NewlinesAreCounted(s[..|s| - 1]);
      assert s == s[..|s| - 1] + [s[|s| - 1]];
    }
  }

  /** No complete line is lost. */
  lemma {:induction false} LinesAreKept(s: seq<byte>, n: nat)
    requires IsLongestComplete(s, n)
    ensures Newlines(s[..n]) == Newlines(s)
    ensures multiset(s[..n])[NEWLINE] == multiset(s)[NEWLINE]
    decreases |s|
  {
    LongestIff(s, n);
    NewlinesAreCounted(s);
    NewlinesAreCounted(s[..n]);
    if n < |s| {
      var init := s[..|s| - 1];
      LongestIff(init, n);
      LinesAreKept(init, n);
      assert init[..n] == s[..n];
    } else {
      assert s[..n] == s;
    }
  }

  /** A file, which may not exist. */
  class RecordFile {
    var present: bool
    var content: seq<byte>

    constructor (present: bool, content: seq<byte>)
      ensures this.present == present && this.content == content
    {
      this.present, this.content := present, content;
    }

    /** trim_incomplete_jsonl_tail: truncates in place and returns the number of bytes dropped. */
    method Trim(blockSize: nat) returns (dropped: nat)
      requires blockSize > 0
      modifies this
      ensures present == old(present)
      ensures !present ==> dropped == 0 && content == old(content)
      ensures present ==>
                && IsLongestComplete(old(content), |content|) && content == old(content)[..|content|]
                && dropped == |old(content)| - |content|
    {
      if !present {
        return 0;
      }
      var size := |content|;
      if size == 0 {
        return 0;
      }
      if content[size - 1] == NEWLINE {
        LongestIff(content, size);
        assert content[..size] == content;
        return 0;
      }
      var cursor, retained := size, 0;
      while cursor > 0
        invariant 0 <= cursor <= size && retained == 0
        invariant forall j | cursor <= j < size :: content[j] != NEWLINE
        invariant content == old(content) && present
      {
        var start := if cursor <= blockSize then 0 else cursor - blockSize;
        var chunk := content[start..cursor];
        var newline := LastNewline(chunk);
        assert forall j | start <= j < cursor :: content[j] == chunk[j - start];
        if newline >= 0 {
          retained := start + newline + 1;
          break;
        }
        cursor := start;
      }
      LongestIff(content, retained);
      content := content[..retained];
      return size - retained;
    }
  }
}
