/** The iterator and closure samples: the multi-line `complex` closure, the
    `filter`/`map`/`take` pipelines and `sum`, the two hand-written
    iterators (`Counter`, `Fibonacci`), word counting with `for_each`, and
    `Option` flattening. */
module IteratorsClosures {
  import opened Ints
  import opened Wrappers
  import opened Text
  import opened Seqs
  import opened TraitsGenerics
  import opened Collections

  // ---------------------------------------------------------------------------
  // The `complex` closure

  /** `let a = x + 1; let b = a * 2; b + 10` on `i32`; each step panics on
      overflow in a debug build. */
  function Complex(x: int32): (r: int32)
    requires IsInt32(x as int + 1) && IsInt32((x as int + 1) * 2) && IsInt32((x as int + 1) * 2 + 10)
    ensures r as int == 2 * x as int + 12
  {
    var a := x + 1;
    var b := a * 2;
    b + 10
  }

  /** The inputs for which no step of `complex` overflows. */
  lemma ComplexDomain(x: int32)
    ensures (IsInt32(x as int + 1) && IsInt32((x as int + 1) * 2) && IsInt32((x as int + 1) * 2 + 10))
        <==> -1_073_741_825 <= x as int <= 1_073_741_817
  {
  }

  lemma ComplexExample()
    ensures Complex(5) == 22
  {
  }

  // ---------------------------------------------------------------------------
  // Iterator adapters, on the collected sequences

  /** `map(f).collect()` */
  function MapSeq<T, U>(f: T -> U, s: seq<T>): (r: seq<U>)
  {
    if s == [] then [] else [f(s[0])] + MapSeq(f, s[1..])
  }

  /** `map` applies the function at every position and keeps the length. */
  lemma {:induction false} MapSeqAt<T, U>(f: T -> U, s: seq<T>)
    ensures |MapSeq(f, s)| == |s|
    ensures forall i :: 0 <= i < |s| ==> MapSeq(f, s)[i] == f(s[i])
  {
    if s != [] {
      MapSeqAt(f, s[1..]);
      var r := MapSeq(f, s);
      assert r == [f(s[0])] + MapSeq(f, s[1..]);
      forall i | 0 < i < |s| ensures r[i] == f(s[i]) {
        assert s[i] == s[1..][i - 1];
      }
    }
  }

  /** `filter(p).collect()`: the elements satisfying `p`, in order. */
  function Filter<T>(p: T -> bool, s: seq<T>): (r: seq<T>)
  {
    if s == [] then []
    else (if p(s[0]) then [s[0]] else []) + Filter(p, s[1..])
  }

  /** `filter` keeps exactly the elements satisfying the predicate. */
  lemma {:induction false} FilterMembers<T>(p: T -> bool, s: seq<T>)
    ensures |Filter(p, s)| <= |s|
    ensures forall i :: 0 <= i < |Filter(p, s)| ==> Filter(p, s)[i] in s && p(Filter(p, s)[i])
    ensures forall i :: 0 <= i < |s| && p(s[i]) ==> s[i] in Filter(p, s)
  {
    if s != [] {
      FilterMembers(p, s[1..]);
      var head := if p(s[0]) then [s[0]] else [];
      var r, t := Filter(p, s), Filter(p, s[1..]);
      assert r == head + t;
      forall i | 0 <= i < |r| ensures r[i] in s && p(r[i]) {
        if i >= |head| {
          assert r[i] == t[i - |head|];
          assert r[i] in s[1..];
        }
      }
      forall i | 0 <= i < |s| && p(s[i]) ensures s[i] in r {
        if i > 0 {
          assert s[i] == s[1..][i - 1];
        }
      }
    }
  }

  /** Filtering commutes with concatenation, so it keeps the relative order. */
  lemma {:induction false} FilterConcat<T>(p: T -> bool, a: seq<T>, b: seq<T>)
    ensures Filter(p, a + b) == Filter(p, a) + Filter(p, b)
  {
    if a != [] {
      assert (a + b)[0] == a[0];
      assert (a + b)[1..] == a[1..] + b;
      FilterConcat(p, a[1..], b);
    } else {
      assert a + b == b;
    }
  }

  /** `take(n).collect()` */
  function Take<T>(s: seq<T>, n: nat): (r: seq<T>)
    ensures r <= s && |r| == if n <= |s| then n else |s|
  {
    if n <= |s| then s[..n] else s
  }

  /** `skip(n).collect()` */
  function Skip<T>(s: seq<T>, n: nat): (r: seq<T>)
    ensures |r| == if n <= |s| then |s| - n else 0
    ensures Take(s, n) + r == s
  {
    if n <= |s| then s[n..] else []
  }

  /** `sum()` */
  function Sum(s: seq<int>): int
  {
    if s == [] then 0 else s[0] + Sum(s[1..])
  }

  /** `fold(init, f)` */
  function FoldLeft<A, T>(f: (A, T) -> A, acc: A, s: seq<T>): A
  {
    if s == [] then acc else FoldLeft(f, f(acc, s[0]), s[1..])
  }

  function Plus(a: int, x: int): int { a + x }

  /** `fold(acc, |acc, x| acc + x)` adds the sum to the start value. */
  lemma {:induction false} FoldPlusIsSum(acc: int, s: seq<int>)
    ensures FoldLeft(Plus, acc, s) == acc + Sum(s)
    decreases s
  {
    if s != [] {
      FoldPlusIsSum(acc + s[0], s[1..]);
    }
  }

  lemma {:induction false} SumConcat(a: seq<int>, b: seq<int>)
    ensures Sum(a + b) == Sum(a) + Sum(b)
  {
    if a != [] {
      assert (a + b)[1..] == a[1..] + b;
      SumConcat(a[1..], b);
    } else {
      assert a + b == b;
    }
  }

  predicate IsEven(x: int) { x % 2 == 0 }
  function Square(x: int): int { x * x }
  predicate GreaterThanTen(x: int) { x > 10 }

  /** The vector `[1, 2, …, 10]` of the adapter samples. */
  const OneToTen: seq<int> := seq(10, i => i + 1)

  lemma EvensOfOneToTen()
    ensures Filter(IsEven, OneToTen) == [2, 4, 6, 8, 10]
  {
    var low, high := [1, 2, 3, 4, 5], [6, 7, 8, 9, 10];
    assert OneToTen == low + high by {
      assert forall i :: 0 <= i < 10 ==> OneToTen[i] == (low + high)[i];
    }
    FilterConcat(IsEven, low, high);
    EvensOfLow(low);
    EvensOfHigh(high);
  }

  lemma EvensOfLow(s: seq<int>)
    requires s == [1, 2, 3, 4, 5]
    ensures Filter(IsEven, s) == [2, 4]
  {
    assert IsEven(s[1]) && IsEven(s[3]) && !IsEven(s[0]) && !IsEven(s[2]) && !IsEven(s[4]);
    FilterStep(IsEven, s);
    FilterStep(IsEven, s[1..]);
    FilterStep(IsEven, s[2..]);
    FilterStep(IsEven, s[3..]);
    FilterStep(IsEven, s[4..]);
    assert s[4..][1..] == [];
  }

  lemma EvensOfHigh(s: seq<int>)
    requires s == [6, 7, 8, 9, 10]
    ensures Filter(IsEven, s) == [6, 8, 10]
  {
    assert IsEven(s[0]) && IsEven(s[2]) && IsEven(s[4]) && !IsEven(s[1]) && !IsEven(s[3]);
    FilterStep(IsEven, s);
    FilterStep(IsEven, s[1..]);
    FilterStep(IsEven, s[2..]);
    FilterStep(IsEven, s[3..]);
    FilterStep(IsEven, s[4..]);
    assert s[4..][1..] == [];
  }

  /** One step of `filter`: the head is kept or dropped. */
  lemma FilterStep<T>(p: T -> bool, s: seq<T>)
    requires s != []
    ensures Filter(p, s) == (if p(s[0]) then [s[0]] + Filter(p, s[1..]) else Filter(p, s[1..]))
  {
  }

  lemma SquaresOfEvens()
    ensures MapSeq(Square, [2, 4, 6, 8, 10]) == [4, 16, 36, 64, 100]
  {
  }

  /** `filter(even).map(square).take(3)` gives `[4, 16, 36]`. */
  lemma ChainExample()
    ensures Take(MapSeq(Square, Filter(IsEven, OneToTen)), 3) == [4, 16, 36]
  {
    EvensOfOneToTen();
    SquaresOfEvens();
    assert Take([4, 16, 36, 64, 100], 3) == [4, 16, 36];
  }

  lemma LargeSquares()
    ensures Sum(Filter(GreaterThanTen, [4, 16, 36, 64, 100])) == 216
  {
    assert Filter(GreaterThanTen, [4, 16, 36, 64, 100]) == [16, 36, 64, 100];
  }

  /** `filter(even).map(square).filter(> 10).sum()` gives 216. */
  lemma PipelineExample()
    ensures Sum(Filter(GreaterThanTen, MapSeq(Square, Filter(IsEven, OneToTen)))) == 216
  {
    EvensOfOneToTen();
    SquaresOfEvens();
    LargeSquares();
  }

  lemma TakeSkipExamples()
    ensures Take(OneToTen, 3) == [1, 2, 3] && Skip(OneToTen, 5) == [6, 7, 8, 9, 10]
  {
  }

  /** `iter().sum()` and `fold(0, +)` on `[1, 2, 3, 4, 5]`. */
  lemma SumExamples()
    ensures Sum([1, 2, 3, 4, 5]) == 15
    ensures FoldLeft(Plus, 0, [1, 2, 3, 4, 5]) == 15
  {
    FoldPlusIsSum(0, [1, 2, 3, 4, 5]);
  }

  // ---------------------------------------------------------------------------
  // Counter (the copy in `custom_iterator`)

  predicate IsEvenU32(x: uint32) { x % 2 == 0 }
  function U32ToInt(x: uint32): int { x as int }

  lemma CounterEvens()
    ensures Sum(MapSeq(U32ToInt, Filter(IsEvenU32, [1, 2, 3, 4, 5]))) == 6
  {
    var evens: seq<uint32> := [2, 4];
    assert Filter(IsEvenU32, [1, 2, 3, 4, 5]) == evens;
    MapSeqAt(U32ToInt, evens);
    assert MapSeq(U32ToInt, evens) == [2, 4];
  }

  /** `for num in Counter::new(5)` and `Counter::new(5).filter(even).sum()`. */
  method CounterFiveDemo() returns (items: seq<uint32>, evenSum: int)
    ensures items == [1, 2, 3, 4, 5]
    ensures evenSum == 6
  {
    var counter := new Counter.New(5);
    items := Drain(counter);
    assert items == [1, 2, 3, 4, 5];
    CounterEvens();
    evenSum := Sum(MapSeq(U32ToInt, Filter(IsEvenU32, items)));
  }

  // ---------------------------------------------------------------------------
  // Fibonacci

  function Fib(n: nat): nat
  {
    if n < 2 then n else Fib(n - 2) + Fib(n - 1)
  }

  /** `u64::checked_add` */
  function CheckedAdd(a: uint64, b: uint64): (r: Option<uint64>)
    ensures r.Some? <==> a as int + b as int <= UINT64_MAX
    ensures r.Some? ==> r.value as int == a as int + b as int
  {
    if a as int + b as int <= UINT64_MAX then Some(a + b) else None
  }

  /** One call of `Fibonacci::next` on `(current, next)`: the new state and
      the item. The `?` on `checked_add` returns before any field is set. */
  function FibStep(current: uint64, next: uint64): (r: (uint64, uint64, Option<uint64>))
    ensures current as int + next as int > UINT64_MAX ==> r == (current, next, None)
    ensures current as int + next as int <= UINT64_MAX ==>
      r.0 == next && r.1 as int == current as int + next as int && r.2 == Some(next)
  {
    match CheckedAdd(current, next)
    case None => (current, next, None)
    case Some(sum) => (next, sum, Some(next))
  }

  class Fibonacci {
    var current: uint64
    var next: uint64

    /** `Fibonacci::new` */
    constructor New()
      ensures current == 0 && next == 1
    {
      current := 0;
      next := 1;
    }

    /** `Iterator::next` */
    method Next() returns (item: Option<uint64>)
      modifies this
      ensures (current, next, item) == FibStep(old(current), old(next))
    {
      var newNext := CheckedAdd(current, next);
      if newNext.None? {
        return None;
      }
      current := next;
      next := newNext.value;
      item := Some(current);
    }
  }

  /** The items of `steps` successive `next` calls. */
  function FibItems(current: uint64, next: uint64, steps: nat): (items: seq<Option<uint64>>)
    ensures |items| == steps
    decreases steps
  {
    if steps == 0 then []
    else
      var (c, n, item) := FibStep(current, next);
      [item] + FibItems(c, n, steps - 1)
  }

  /** Once `next` has overflowed, every later call returns `None` too. */
  lemma {:induction false} FibItemsAfterOverflow(current: uint64, next: uint64, steps: nat)
    requires current as int + next as int > UINT64_MAX
    ensures forall i :: 0 <= i < steps ==> FibItems(current, next, steps)[i] == None
    decreases steps
  {
    if steps > 0 {
      FibItemsAfterOverflow(current, next, steps - 1);
      var items := FibItems(current, next, steps);
      assert items == [None] + FibItems(current, next, steps - 1);
    }
  }

  lemma {:induction false} FibMonotone(m: nat, n: nat)
    requires m <= n
    ensures Fib(m) <= Fib(n)
    decreases n - m
  {
    if m < n {
      FibMonotone(m, n - 1);
      if n >= 2 {
        assert Fib(n) == Fib(n - 2) + Fib(n - 1);
      }
    }
  }

  /** From the state `(Fib(k), Fib(k+1))`, call `i` yields `Fib(k+i+1)` as
      long as `Fib(k+i+2)` fits in a `u64`. */
  lemma {:induction false} FibItemsAt(k: nat, steps: nat, i: nat)
    requires i < steps && Fib(k + i + 2) <= UINT64_MAX
    ensures Fib(k + 1) <= UINT64_MAX
    ensures FibItems(Fib(k) as uint64, Fib(k + 1) as uint64, steps)[i] == Some(Fib(k + i + 1) as uint64)
    decreases i
  {
    FibMonotone(k, k + i + 2);
    FibMonotone(k + 1, k + i + 2);
    FibMonotone(k + 2, k + i + 2);
    var step := FibStep(Fib(k) as uint64, Fib(k + 1) as uint64);
    assert Fib(k + 2) == Fib(k) + Fib(k + 1);
    assert step == (Fib(k + 1) as uint64, Fib(k + 2) as uint64, Some(Fib(k + 1) as uint64));
    if i > 0 {
      FibItemsAt(k + 1, steps - 1, i - 1);
      assert k + 1 + (i - 1) + 1 == k + i + 1;
    }
  }

  /** `Fibonacci::new().take(n).collect()`: collecting stops after `n`
      items or at the first `None`, whichever comes first. */
  method FibonacciTake(n: nat) returns (values: seq<uint64>)
    ensures |values| <= n
    ensures forall i :: 0 <= i < |values| ==> values[i] as nat == Fib(i + 1)
    ensures |values| < n ==> Fib(|values| + 2) > UINT64_MAX
  {
    var fib := new Fibonacci.New();
    values := [];
    while |values| < n
      invariant |values| <= n
      invariant fib.current as nat == Fib(|values|) && fib.next as nat == Fib(|values| + 1)
      invariant forall i :: 0 <= i < |values| ==> values[i] as nat == Fib(i + 1)
      decreases n - |values|
    {
      var item := fib.Next();
      if item.None? {
        return;
      }
      values := values + [item.value];
    }
  }

  lemma FibFirstValues()
    ensures Fib(1) == 1 && Fib(2) == 1 && Fib(3) == 2 && Fib(4) == 3 && Fib(5) == 5
    ensures Fib(6) == 8 && Fib(7) == 13 && Fib(8) == 21 && Fib(9) == 34 && Fib(10) == 55
    ensures Fib(11) == 89
  {
  }

  /** `Fibonacci::new().take(10).collect()` */
  method FibonacciFirstTen() returns (values: seq<uint64>)
    ensures values == [1, 1, 2, 3, 5, 8, 13, 21, 34, 55]
  {
    values := FibonacciTake(10);
    FibFirstValues();
    if |values| < 10 {
      FibMonotone(|values| + 2, 11);
    }
  }

  // ---------------------------------------------------------------------------
  // Word count with `for_each`

  lemma PracticalJoined()
    ensures JoinSpaces(["hello", "world", "hello", "rust", "world", "world"])
         == "hello world hello rust world world"
  {
    var words := ["hello", "world", "hello", "rust", "world", "world"];
    assert JoinSpaces(words) == "hello world hello rust world world";
  }

  lemma PracticalPlainWords()
    ensures forall i :: 0 <= i < 6 ==>
              ["hello", "world", "hello", "rust", "world", "world"][i] != []
              && NoWhitespace(["hello", "world", "hello", "rust", "world", "world"][i])
  {
    LowerCaseWord("hello");
    LowerCaseWord("world");
    LowerCaseWord("rust");
  }

  lemma PracticalWords()
    ensures SplitWhitespace("hello world hello rust world world") ==
      ["hello", "world", "hello", "rust", "world", "world"]
  {
    PracticalJoined();
    PracticalPlainWords();
    SplitJoin(["hello", "world", "hello", "rust", "world", "world"]);
  }

  lemma CountsOfPractical(words: seq<string>, counts: map<string, nat>)
    requires words == ["hello", "world", "hello", "rust", "world", "world"]
    requires forall w :: w in counts <==> w in words
    requires forall w :: w in counts ==> counts[w] == Occurrences(words, w)
    ensures counts == map["hello" := 2, "world" := 3, "rust" := 1]
  {
    PracticalOccurrences(words);
    forall w ensures w in counts <==> w in {"hello", "world", "rust"} {
      assert w in words <==> w == "hello" || w == "world" || w == "rust";
    }
    assert counts.Keys == {"hello", "world", "rust"};
  }

  lemma PracticalOccurrences(words: seq<string>)
    requires words == ["hello", "world", "hello", "rust", "world", "world"]
    ensures Occurrences(words, "hello") == 2
    ensures Occurrences(words, "world") == 3
    ensures Occurrences(words, "rust") == 1
  {
    PracticalHellos();
    PracticalWorlds();
    PracticalRusts();
  }

  lemma PracticalHellos()
    ensures Occurrences(["hello", "world", "hello", "rust", "world", "world"], "hello") == 2
  {
  }

  lemma PracticalWorlds()
    ensures Occurrences(["hello", "world", "hello", "rust", "world", "world"], "world") == 3
  {
  }

  lemma PracticalRusts()
    ensures Occurrences(["hello", "world", "hello", "rust", "world", "world"], "rust") == 1
  {
  }

  /** `for_each(|word| *word_count.entry(word).or_insert(0) += 1)` over
      `"hello world hello rust world world"`. */
  method PracticalWordCountDemo() returns (counts: map<string, nat>)
    ensures counts == map["hello" := 2, "world" := 3, "rust" := 1]
  {
    var words := ["hello", "world", "hello", "rust", "world", "world"];
    PracticalWords();
    counts := WordCount(SplitWhitespace("hello world hello rust world world"));
    CountsOfPractical(words, counts);
  }

  // ---------------------------------------------------------------------------
  // `Option` flattening

  /** `into_iter().flatten().collect()` on a vector of options. */
  function FlattenOptions<T>(opts: seq<Option<T>>): (r: seq<T>)
  {
    if opts == [] then []
    else (if opts[0].Some? then [opts[0].value] else []) + FlattenOptions(opts[1..])
  }

  /** Flattening keeps exactly the `Some` payloads. */
  lemma {:induction false} FlattenOptionsMembers<T>(opts: seq<Option<T>>)
    ensures |FlattenOptions(opts)| <= |opts|
    ensures forall i :: 0 <= i < |FlattenOptions(opts)| ==> Some(FlattenOptions(opts)[i]) in opts
    ensures forall i :: 0 <= i < |opts| && opts[i].Some? ==> opts[i].value in FlattenOptions(opts)
  {
    if opts != [] {
      FlattenOptionsMembers(opts[1..]);
      var head := if opts[0].Some? then [opts[0].value] else [];
      var r, t := FlattenOptions(opts), FlattenOptions(opts[1..]);
      assert r == head + t;
      forall i | 0 <= i < |r| ensures Some(r[i]) in opts {
        if i >= |head| {
          assert r[i] == t[i - |head|];
          assert Some(r[i]) in opts[1..];
        }
      }
      forall i | 0 <= i < |opts| && opts[i].Some? ensures opts[i].value in r {
        if i > 0 {
          assert opts[i] == opts[1..][i - 1];
        }
      }
    }
  }

  lemma {:induction false} FlattenOptionsConcat<T>(a: seq<Option<T>>, b: seq<Option<T>>)
    ensures FlattenOptions(a + b) == FlattenOptions(a) + FlattenOptions(b)
  {
    if a != [] {
      assert (a + b)[0] == a[0];
      assert (a + b)[1..] == a[1..] + b;
      FlattenOptionsConcat(a[1..], b);
    } else {
      assert a + b == b;
    }
  }

  /** Wrapping every element in `Some` and flattening gives the elements
      back in their order. */
  lemma {:induction false} FlattenOptionsSomes<T>(s: seq<T>)
    ensures FlattenOptions(MapSeq(x => Some(x), s)) == s
  {
    if s != [] {
      var m := MapSeq(x => Some(x), s);
      assert m[1..] == MapSeq(x => Some(x), s[1..]);
      FlattenOptionsSomes(s[1..]);
    }
  }

  lemma FlattenOptionsExample()
    ensures FlattenOptions([Some(1), None, Some(2), None, Some(3)]) == [1, 2, 3]
  {
  }
}
