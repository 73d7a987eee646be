/** Sequence functions shared by several samples: reversal and occurrence
    counting. */
module Seqs {

  function Reverse<T>(s: seq<T>): (r: seq<T>)
    ensures |r| == |s|
  {
    if s == [] then [] else Reverse(s[1..]) + [s[0]]
  }

  lemma {:induction false} ReverseAt<T>(s: seq<T>, k: nat)
    requires k < |s|
    ensures Reverse(s)[k] == s[|s| - 1 - k]
  {
    if k < |s| - 1 {
      ReverseAt(s[1..], k);
    }
  }

  /** Reversing twice gives the sequence back. */
  lemma ReverseInvolution<T>(s: seq<T>)
    ensures Reverse(Reverse(s)) == s
  {
    forall k | 0 <= k < |s| ensures Reverse(Reverse(s))[k] == s[k] {
      ReverseAt(Reverse(s), k);
      ReverseAt(s, |s| - 1 - k);
    }
  }

  /** Reversing `s + [x]` puts `x` first. */
  lemma {:induction false} ReverseSnoc<T>(s: seq<T>, x: T)
    ensures Reverse(s + [x]) == [x] + Reverse(s)
  {
    if s != [] {
      assert (s + [x])[1..] == s[1..] + [x];
      ReverseSnoc(s[1..], x);
    } else {
      assert s + [x] == [x];
    }
  }

  /** How many times `x` occurs in `s`. */
  function Occurrences<T(==)>(s: seq<T>, x: T): (n: nat)
  {
    if s == [] then 0 else (if s[0] == x then 1 else 0) + Occurrences(s[1..], x)
  }

  /** `x` occurs at most `|s|` times, and at least once exactly when it is in `s`. */
  lemma {:induction false} OccurrencesBounds<T>(s: seq<T>, x: T)
    ensures Occurrences(s, x) <= |s|
    ensures Occurrences(s, x) > 0 <==> x in s
  {
    if s != [] {
      OccurrencesBounds(s[1..], x);
      assert x in s <==> s[0] == x || x in s[1..];
    }
  }

  lemma OccurrencesCons<T>(x: T, s: seq<T>, y: T)
    ensures Occurrences([x] + s, y) == (if x == y then 1 else 0) + Occurrences(s, y)
  {
    assert ([x] + s)[1..] == s;
  }

  lemma {:induction false} OccurrencesConcat<T>(a: seq<T>, b: seq<T>, x: T)
    ensures Occurrences(a + b, x) == Occurrences(a, x) + Occurrences(b, x)
  {
    if a != [] {
      assert (a + b)[1..] == a[1..] + b;
      OccurrencesConcat(a[1..], b, x);
    } else {
      assert a + b == b;
    }
  }

  lemma {:induction false} OccurrencesAppend<T>(s: seq<T>, y: T, x: T)
    ensures Occurrences(s + [y], x) == Occurrences(s, x) + (if y == x then 1 else 0)
  {
    if s != [] {
      assert (s + [y])[1..] == s[1..] + [y];
      OccurrencesAppend(s[1..], y, x);
    } else {
      assert s + [y] == [y];
    }
  }
}
