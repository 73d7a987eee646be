/** Models of the lifetime samples: `longest`, `compare`, the two nested
    copies of `first_word`, `ImportantExcerpt`, `Parser::parse` and the
    memoising `Cache`. Lifetimes themselves have no run-time meaning. */
module Lifetimes {
  import opened Text
  import opened Wrappers
  import opened Ints
  import Ownership

  /** `longest`: the argument with more bytes; on a tie, `y`. */
  function Longest(x: string, y: string): (r: string)
    ensures r == x || r == y
    ensures Utf8Len(r) >= Utf8Len(x) && Utf8Len(r) >= Utf8Len(y)
    ensures Utf8Len(x) > Utf8Len(y) ==> r == x
    ensures Utf8Len(x) <= Utf8Len(y) ==> r == y
  {
    if Utf8Len(x) > Utf8Len(y) then x else y
  }

  /** `longest_with_an_announcement`: prints `ann` (not modelled), then
      chooses exactly as `longest` does. */
  function LongestWithAnnouncement(x: string, y: string, ann: string): (r: string)
    ensures r == Longest(x, y)
  {
    if Utf8Len(x) > Utf8Len(y) then x else y
  }

  /** `compare`: whether `x` has strictly more bytes than `y`. */
  function Compare(x: string, y: string): (r: bool)
    ensures r <==> Utf8Len(x) > Utf8Len(y)
    ensures r ==> Longest(x, y) == x
    ensures !r ==> Longest(x, y) == y
  {
    Utf8Len(x) > Utf8Len(y)
  }

  /** The calls made in `function_lifetimes`, `lifetime_syntax` and
      `complex_lifetimes`. */
  lemma LongestExamples()
    ensures Longest("long string is long", "xyz") == "long string is long"
    ensures Longest("abcd", "xyz") == "abcd"
  {
    Utf8LenAscii("long string is long");
    Utf8LenAscii("xyz");
    Utf8LenAscii("abcd");
  }

  lemma AnnouncementExample()
    ensures LongestWithAnnouncement("abcd", "xyz", "announcement") == "abcd"
  {
    Utf8LenAscii("xyz");
    Utf8LenAscii("abcd");
  }

  lemma CompareExample()
    ensures !Compare("hello", "world!")
  {
    Utf8LenAscii("hello");
    Utf8LenAscii("world!");
  }

  /** The copy of `first_word` with an explicit lifetime parameter. */
  method FirstWordAnnotated(s: string) returns (word: string)
    ensures word == PrefixBefore(s, ' ')
  {
    word := Ownership.FirstWord(s);
  }

  /** The copy of `first_word` whose lifetimes are elided. */
  method FirstWordElided(s: string) returns (word: string)
    ensures word == PrefixBefore(s, ' ')
  {
    word := Ownership.FirstWord(s);
  }

  /** A struct holding a borrowed slice of a novel. */
  datatype ImportantExcerpt = ImportantExcerpt(part: string) {

    function Level(): (l: int32)
      ensures l == 3
    {
      3
    }

    /** Prints the announcement (not modelled) and returns the stored part. */
    function AnnounceAndReturnPart(announcement: string): (r: string)
      ensures r == part
    {
      part
    }
  }

  /** `novel.split('.').next()`: `split` always yields a first piece, so the
      `expect` never fires; the piece is the text before the first '.'. */
  function FirstSentence(novel: string): (r: string)
    ensures r <= novel && '.' !in r
    ensures |r| < |novel| ==> novel[|r|] == '.'
  {
    PrefixBefore(novel, '.')
  }

  lemma FirstSentenceExample()
    ensures FirstSentence("Call me Ishmael. Some years ago...") == "Call me Ishmael"
  {
    assert "Call me Ishmael" + ['.'] + " Some years ago..." == "Call me Ishmael. Some years ago...";
    PrefixBeforeJoin("Call me Ishmael", '.', " Some years ago...");
  }

  const EmptyInput: string := "入力が空です"

  /** `Parser::parse`: fails exactly when the context string is empty. */
  function Parse(context: string): (r: Result<(), string>)
    ensures r.Err? <==> context == []
    ensures r.Err? ==> r.error == EmptyInput
  {
    if context == [] then Err(EmptyInput) else Ok(())
  }

  /** `Cache`: keeps the borrowed text and, once asked, its upper-cased form.
      `computations` counts how often the upper-casing ran. */
  class Cache {
    const data: string
    var processed: Option<string>
    ghost var computations: nat

    ghost predicate Valid()
      reads this
    {
      && computations <= 1
      && (processed.None? <==> computations == 0)
      && (processed.Some? ==> processed.value == ToUpperAscii(data))
    }

    /** `Cache::new` */
    constructor New(data: string)
      ensures Valid()
      ensures this.data == data && processed == None && computations == 0
    {
      this.data := data;
      processed := None;
      computations := 0;
    }

    /** `Cache::get_processed`: computes the upper-cased text on the first
        call only; every call returns the same text. */
    method GetProcessed() returns (r: string)
      requires Valid()
      modifies this
      ensures Valid()
      ensures r == ToUpperAscii(data) && processed == Some(r)
      ensures computations == 1
      ensures old(processed).Some? ==> processed == old(processed) && computations == old(computations)
    {
      if processed.None? {
        processed := Some(ToUpperAscii(data));
        computations := computations + 1;
      }
      r := processed.value;
    }

    /** `Cache::get_original` */
    function GetOriginal(): (r: string)
      ensures r == data
    {
      data
    }
  }

  /** The cache use in `practical_examples`: both `get_processed` calls give
      the same text, computed once, and the original is untouched. */
  method CacheDemo() returns (original: string, first: string, again: string)
    ensures original == "hello world"
    ensures first == again == "HELLO WORLD"
  {
    var cache := new Cache.New("hello world");
    original := cache.GetOriginal();
    first := cache.GetProcessed();
    again := cache.GetProcessed();
    assert cache.computations == 1;
  }
}
