/** Models of the generics and traits samples: the three `largest` loops,
    `Point2::mixup`, the `Summary` formats, `Pair::cmp_display`, the bounded
    `Counter` iterator, `Add for Point` and the `outline_print` frame. */
module TraitsGenerics {
  import opened Ints
  import opened Wrappers
  import opened Text

  // ---------------------------------------------------------------------------
  // largest

  /** The position `largest` ends on, read left to right: the first position
      whose key is maximal. `key` stands for the order of the element type
      (`i32` and `char` are both totally ordered, so an integer key captures it). */
  function FirstMaxIndex<T>(list: seq<T>, key: T -> int): (k: nat)
    requires |list| > 0
    ensures k < |list|
    ensures forall j :: 0 <= j < |list| ==> key(list[j]) <= key(list[k])
    ensures forall j :: 0 <= j < k ==> key(list[j]) < key(list[k])
    decreases |list|
  {
    if |list| == 1 then 0
    else
      var k := FirstMaxIndex(list[..|list| - 1], key);
      if key(list[|list| - 1]) > key(list[k]) then |list| - 1 else k
  }

  /** Being maximal and before every other maximum pins a position down. */
  lemma FirstMaxIndexUnique<T>(list: seq<T>, key: T -> int, k: nat)
    requires k < |list|
    requires forall j :: 0 <= j < |list| ==> key(list[j]) <= key(list[k])
    requires forall j :: 0 <= j < k ==> key(list[j]) < key(list[k])
    ensures k == FirstMaxIndex(list, key)
  {
    var m := FirstMaxIndex(list, key);
    assert key(list[m]) <= key(list[k]) && key(list[k]) <= key(list[m]);
  }

  function I32Key(x: int32): int { x as int }
  function CharKey(c: char): int { c as int }

  /** Generic `largest`: `list[0]` panics on an empty slice, hence the
      precondition. Returns the position of the element the result borrows. */
  method Largest<T>(list: seq<T>, key: T -> int) returns (k: nat)
    requires |list| > 0
    ensures k == FirstMaxIndex(list, key)
    ensures forall j :: 0 <= j < |list| ==> key(list[j]) <= key(list[k])
  {
    k := 0;
    for i := 0 to |list|
      invariant k < |list|
      invariant i == 0 ==> k == 0
      invariant i > 0 ==> k == FirstMaxIndex(list[..i], key)
    {
      assert list[..i + 1][..i] == list[..i];
      if key(list[i]) > key(list[k]) {
        k := i;
      }
    }
    assert list[..|list|] == list;
  }

  /** `largest_i32`: the same loop, written for `i32`. */
  method LargestI32(list: seq<int32>) returns (k: nat)
    requires |list| > 0
    ensures k == FirstMaxIndex(list, I32Key)
  {
    k := 0;
    for i := 0 to |list|
      invariant k < |list|
      invariant i == 0 ==> k == 0
      invariant i > 0 ==> k == FirstMaxIndex(list[..i], I32Key)
    {
      assert list[..i + 1][..i] == list[..i];
      if list[i] > list[k] {
        k := i;
      }
    }
    assert list[..|list|] == list;
  }

  /** `largest_char`: the same loop, written for `char`. */
  method LargestChar(list: seq<char>) returns (k: nat)
    requires |list| > 0
    ensures k == FirstMaxIndex(list, CharKey)
  {
    k := 0;
    for i := 0 to |list|
      invariant k < |list|
      invariant i == 0 ==> k == 0
      invariant i > 0 ==> k == FirstMaxIndex(list[..i], CharKey)
    {
      assert list[..i + 1][..i] == list[..i];
      if list[i] > list[k] {
        k := i;
      }
    }
    assert list[..|list|] == list;
  }

  const NumberList: seq<int32> := [34, 50, 25, 100, 65]

  /** The two lists of `generics_basics`: 100 and 'y'. */
  lemma LargestExamples()
    ensures FirstMaxIndex(NumberList, I32Key) == 3
    ensures FirstMaxIndex(['y', 'm', 'a', 'q'], CharKey) == 0
  {
    FirstMaxIndexUnique(NumberList, I32Key, 3);
    FirstMaxIndexUnique(['y', 'm', 'a', 'q'], CharKey, 0);
  }

  // ---------------------------------------------------------------------------
  // Point2::mixup

  datatype Point2<T, U> = Point2(x: T, y: U) {

    /** Keeps this point's `x` and takes `other`'s `y`. */
    function Mixup<V, W>(other: Point2<V, W>): (r: Point2<T, W>)
      ensures r.x == x && r.y == other.y
    {
      Point2(x, other.y)
    }
  }

  lemma MixupLaws<T, U, V, W, X, Y>(p: Point2<T, U>, q: Point2<V, W>, r: Point2<X, Y>)
    ensures p.Mixup(p) == p
    ensures p.Mixup(q).Mixup(r) == p.Mixup(r)
  {
  }

  lemma MixupExample()
    ensures Point2(5 as int32, 10.4).Mixup(Point2("Hello", 'c')) == Point2(5 as int32, 'c')
  {
  }

  // ---------------------------------------------------------------------------
  // Summary

  const UnknownAuthor: string := "(著者不明)"

  datatype NewsArticle = NewsArticle(headline: string, location: string, author: string, content: string) {

    /** `"{headline}, {author} ({location})"` */
    function Summarize(): string
    {
      headline + ", " + author + " (" + location + ")"
    }

    /** The override: `"@{author}"`. */
    function SummarizeAuthor(): string
    {
      "@" + author
    }
  }

  datatype Tweet = Tweet(username: string, content: string, reply: bool, retweet: bool) {

    /** `"{username}: {content}"` */
    function Summarize(): string
    {
      username + ": " + content
    }

    /** The trait's default `summarize_author`. */
    function SummarizeAuthor(): string
    {
      UnknownAuthor
    }
  }

  /** The `Article` of `trait_bounds`: its summary is the title, its
      `Display` is `"Article: {title}"`. */
  datatype Article = Article(title: string) {

    function Summarize(): string
    {
      title
    }

    function Display(): string
    {
      "Article: " + title
    }
  }

  /** A tweet summary starts with the user name, up to the first ':', and
      is two bytes longer than name and content together. */
  lemma {:induction false} TweetSummaryParts(t: Tweet)
    requires ':' !in t.username
    ensures PrefixBefore(t.Summarize(), ':') == t.username
    ensures Utf8Len(t.Summarize()) == Utf8Len(t.username) + Utf8Len(t.content) + 2
  {
    assert t.Summarize() == t.username + [':'] + (" " + t.content);
    PrefixBeforeJoin(t.username, ':', " " + t.content);
    Utf8LenConcat(t.username, ": ");
    Utf8LenConcat(t.username + ": ", t.content);
    Utf8LenAscii(": ");
  }

  /** An article summary starts with the headline, up to the first ','. */
  lemma {:induction false} ArticleSummaryHeadline(a: NewsArticle)
    requires ',' !in a.headline
    ensures PrefixBefore(a.Summarize(), ',') == a.headline
  {
    var rest := " " + a.author + " (" + a.location + ")";
    assert a.Summarize() == a.headline + [','] + rest;
    PrefixBeforeJoin(a.headline, ',', rest);
  }

  lemma SummaryExamples()
    ensures Tweet("rust_lover", "Rustを学び始めました!", false, false).SummarizeAuthor() == UnknownAuthor
    ensures NewsArticle("h", "東京", "技術太郎", "c").SummarizeAuthor() == "@技術太郎"
    ensures Article("Rustの新機能").Display() == "Article: " + Article("Rustの新機能").Summarize()
  {
  }

  // ---------------------------------------------------------------------------
  // Pair::cmp_display

  datatype Pair = Pair(x: int, y: int)

  /** Which of the two lines `cmp_display` prints. */
  datatype Shown = LargestIsX(x: int) | LargestIsY(y: int)

  /** `cmp_display`: shows `x` when `x >= y` (ties go to `x`), else `y`. */
  function CmpDisplay(p: Pair): (r: Shown)
    ensures r.LargestIsX? <==> p.x >= p.y
    ensures r.LargestIsX? ==> r.x == p.x && r.x >= p.y
    ensures r.LargestIsY? ==> r.y == p.y && r.y > p.x
  {
    if p.x >= p.y then LargestIsX(p.x) else LargestIsY(p.y)
  }

  // ---------------------------------------------------------------------------
  // Counter

  /** One call of `Counter::next` on the state `(count, max)`: the new count
      and the yielded item. */
  function CounterStep(count: uint32, max: uint32): (r: (uint32, Option<uint32>))
    ensures count < max ==> r.0 as int == count as int + 1 && r.1 == Some(r.0)
    ensures count >= max ==> r == (count, None)
  {
    if count < max then (count + 1, Some(count + 1)) else (count, None)
  }

  /** The items of `steps` successive `next` calls. */
  function CounterItems(count: uint32, max: uint32, steps: nat): (items: seq<Option<uint32>>)
    ensures |items| == steps
    decreases steps
  {
    if steps == 0 then []
    else
      var (c, item) := CounterStep(count, max);
      [item] + CounterItems(c, max, steps - 1)
  }

  /** From `count <= max`, the i-th call yields `count + i + 1` while that is
      at most `max`, and `None` from then on. */
  lemma {:induction false} CounterItemsAt(count: uint32, max: uint32, steps: nat, i: nat)
    requires count <= max && i < steps
    ensures CounterItems(count, max, steps)[i] ==
      if count as int + i + 1 <= max as int then Some((count as int + i + 1) as uint32) else None
    decreases steps
  {
    var (c, item) := CounterStep(count, max);
    if i > 0 {
      CounterItemsAt(c, max, steps - 1, i - 1);
    }
  }

  /** `Counter::new(3)` yields 1, 2, 3 and then `None`. */
  lemma CounterThreeItems()
    ensures CounterItems(0, 3, 5) == [Some(1), Some(2), Some(3), None, None]
  {
    var items := CounterItems(0, 3, 5);
    forall i | 0 <= i < 5 ensures items[i] == [Some(1), Some(2), Some(3), None, None][i] {
      CounterItemsAt(0, 3, 5, i);
    }
  }

  /** `Counter` from `associated_types` (the one in `custom_iterator` is identical). */
  class Counter {
    var count: uint32
    const max: uint32

    /** `Counter::new` */
    constructor New(max: uint32)
      ensures count == 0 && this.max == max
    {
      count := 0;
      this.max := max;
    }

    /** `Iterator::next`: counts up to `max`, then keeps returning `None`. */
    method Next() returns (item: Option<uint32>)
      modifies this
      ensures (count, item) == CounterStep(old(count), max)
      ensures old(count) <= max ==> count <= max
    {
      if count < max {
        count := count + 1;
        item := Some(count);
      } else {
        item := None;
      }
    }
  }

  /** The values `count + 1 .. max`, in order. */
  function CountUp(count: nat, max: nat): (r: seq<uint32>)
    requires max <= UINT32_MAX
    ensures |r| == if count < max then max - count else 0
    ensures forall i :: 0 <= i < |r| ==> r[i] as int == count + i + 1
    decreases max - count
  {
    if count >= max then [] else [(count + 1) as uint32] + CountUp(count + 1, max)
  }

  /** `while let Some(n) = counter.next()`: drains the counter, collecting
      every item, and stops at the first `None`. */
  method Drain(counter: Counter) returns (items: seq<uint32>)
    requires counter.count <= counter.max
    modifies counter
    ensures items == CountUp(old(counter.count) as nat, counter.max as nat)
    ensures counter.count == counter.max
  {
    ghost var start := counter.count as nat;
    items := [];
    var item := counter.Next();
    while item.Some?
      invariant counter.count <= counter.max
      invariant item.Some? ==> item.value == counter.count && counter.count as nat > start
      invariant item.None? ==> counter.count == counter.max
      invariant items + (if item.Some? then [item.value] else []) == CountUp(start, counter.count as nat)
      decreases counter.max - counter.count, item.Some?
    {
      items := items + [item.value];
      item := counter.Next();
    }
  }

  // ---------------------------------------------------------------------------
  // Add for Point

  datatype Point = Point(x: int32, y: int32)

  /** `i32 + i32` panics on overflow in a debug build. */
  predicate CanAdd(p: Point, q: Point)
  {
    IsInt32(p.x as int + q.x as int) && IsInt32(p.y as int + q.y as int)
  }

  /** `Add for Point`: componentwise addition. */
  function Add(p: Point, q: Point): (r: Point)
    requires CanAdd(p, q)
    ensures r.x as int == p.x as int + q.x as int
    ensures r.y as int == p.y as int + q.y as int
  {
    Point(p.x + q.x, p.y + q.y)
  }

  lemma AddLaws(p: Point, q: Point)
    requires CanAdd(p, q)
    ensures CanAdd(q, p) && Add(p, q) == Add(q, p)
    ensures CanAdd(p, Point(0, 0)) && Add(p, Point(0, 0)) == p
  {
  }

  lemma AddExample()
    ensures Add(Point(1, 0), Point(2, 3)) == Point(3, 3)
  {
  }

  // ---------------------------------------------------------------------------
  // OutlinePrint

  /** The five lines `outline_print` writes around the `Display` text. */
  function OutlineLines(output: string): (lines: seq<string>)
    ensures |lines| == 5
  {
    var len := Utf8Len(output);
    var border := Repeat('*', len + 4);
    var blank := "*" + Repeat(' ', len + 2) + "*";
    [border, blank, "* " + output + " *", blank, border]
  }

  lemma BorderWidth(n: nat)
    ensures Utf8Len(Repeat('*', n + 4)) == n + 4
  {
    Utf8LenRepeat('*', n + 4);
  }

  lemma BlankWidth(n: nat)
    ensures Utf8Len("*" + Repeat(' ', n + 2) + "*") == n + 4
  {
    Utf8LenRepeat(' ', n + 2);
    assert Utf8Len("*") == 1;
    Utf8LenFrame("*", Repeat(' ', n + 2), "*");
  }

  lemma MiddleWidth(output: string)
    ensures Utf8Len("* " + output + " *") == Utf8Len(output) + 4
  {
    assert Utf8Len("* ") == 2 && Utf8Len(" *") == 2;
    Utf8LenFrame("* ", output, " *");
  }

  /** Every line of the frame is `len + 4` bytes long, so the frame is a
      rectangle; the middle line holds the text itself. */
  lemma OutlineLinesWidth(output: string)
    ensures forall i :: 0 <= i < 5 ==> Utf8Len(OutlineLines(output)[i]) == Utf8Len(output) + 4
    ensures OutlineLines(output)[2][2..|OutlineLines(output)[2]| - 2] == output
  {
    var len := Utf8Len(output);
    BorderWidth(len);
    BlankWidth(len);
    MiddleWidth(output);
    var middle := "* " + output + " *";
    assert middle[2..|middle| - 2] == output;
  }
}
