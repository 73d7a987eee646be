/** Models of the helpers in the ownership samples: `first_word`, `change`,
    `calculate_length`, `takes_and_gives_back` and the slice checks. */
module Ownership {
  import opened Text

  /** A heap-allocated, growable `String` that a `&mut` borrow can change. */
  class RustString {
    var contents: string

    constructor From(s: string)
      ensures contents == s
    {
      contents := s;
    }

    /** `String::push_str` */
    method PushStr(tail: string)
      modifies this
      ensures contents == old(contents) + tail
    {
      contents := contents + tail;
    }
  }

  /** `first_word`: walks the bytes of `s` and returns the slice before the
      first space, or all of `s` when there is none. */
  method FirstWord(s: string) returns (word: string)
    ensures word == PrefixBefore(s, ' ')
    ensures word <= s && ' ' !in word
    ensures ' ' in s ==> |word| < |s| && s[|word|] == ' '
    ensures ' ' !in s ==> word == s
  {
    for i := 0 to |s|
      invariant ' ' !in s[..i]
    {
      if s[i] == ' ' {
        PrefixBeforeAt(s, ' ', i);
        return s[0..i];
      }
    }
    assert s[..|s|] == s;
    return s;
  }

  /** `change`: appends ", world" to the borrowed string in place. */
  method Change(someString: RustString)
    modifies someString
    ensures someString.contents == old(someString.contents) + ", world"
  {
    someString.PushStr(", world");
  }

  /** `calculate_length`: the byte length of the borrowed string. */
  function CalculateLength(s: string): (n: nat)
    ensures n == Utf8Len(s)
    ensures |s| <= n
  {
    Utf8Len(s)
  }

  /** `change` makes a string exactly seven bytes longer. */
  lemma ChangeAddsSevenBytes(s: string)
    ensures CalculateLength(s + ", world") == CalculateLength(s) + 7
  {
    Utf8LenConcat(s, ", world");
    Utf8LenAscii(", world");
  }

  /** `takes_and_gives_back`: hands its argument back unchanged. */
  function TakesAndGivesBack(aString: string): (r: string)
    ensures r == aString
  {
    aString
  }

  /** The slices taken in `slices`: byte ranges of ASCII text are character
      ranges, and `&a[1..3]` of `[1, 2, 3, 4, 5]` is `[2, 3]`. */
  lemma SliceExamples()
    ensures "hello world"[0..5] == "hello" && "hello world"[6..11] == "world"
    ensures [1, 2, 3, 4, 5][1..3] == [2, 3]
  {
  }

  /** `first_word` of "hello world" is "hello". */
  lemma FirstWordExample()
    ensures PrefixBefore("hello world", ' ') == "hello"
  {
    assert "hello" + [' '] + "world" == "hello world";
    PrefixBeforeJoin("hello", ' ', "world");
  }
}
