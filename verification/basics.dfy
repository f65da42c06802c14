/** Small shared vocabulary: an optional value and a few sequence helpers. */
module Basics {

  /** A value that may be absent; stands for Ruby's `nil` in optional positions. */
  datatype Option<+T> = None | Some(value: T)

  /** Number of occurrences of `c` in `s`. */
  function Count(s: string, c: char): nat
  {
    if |s| == 0 then 0
    else (if s[0] == c then 1 else 0) + Count(s[1..], c)
  }

  lemma {:induction false} CountAppend(a: string, b: string, c: char)
    ensures Count(a + b, c) == Count(a, c) + Count(b, c)
  {
    if |a| == 0 {
      assert a + b == b;
    } else {
      assert (a + b)[1..] == a[1..] + b;
      CountAppend(a[1..], b, c);
    }
  }

  /** Splitting a prefix of `s` at `j` adds up the counts of both halves. */
  lemma CountSplit(s: string, i: nat, j: nat, c: char)
    requires i <= j <= |s|
    ensures Count(s[..j], c) == Count(s[..i], c) + Count(s[i..j], c)
  {
    assert s[..j] == s[..i] + s[i..j];
    CountAppend(s[..i], s[i..j], c);
  }

  lemma {:induction false} CountAbsent(s: string, c: char)
    requires forall i :: 0 <= i < |s| ==> s[i] != c
    ensures Count(s, c) == 0
  {
    if |s| > 0 {
      CountAbsent(s[1..], c);
    }
  }
}
