/** The collection samples: vectors changed in place, the `Vec` operation
    sequence, `HashMap` overwrite, `entry().or_insert` and word counting,
    and `HashSet` algebra. */
module Collections {
  import opened Ints
  import opened Wrappers
  import opened Text
  import opened Seqs

  // ---------------------------------------------------------------------------
  // In-place loops over a vector (`for i in &mut v`)

  /** `*i += 50` on every element; overflow of `i32` would panic. */
  method AddFifty(v: array<int32>)
    requires forall i :: 0 <= i < v.Length ==> v[i] as int + 50 <= INT32_MAX
    modifies v
    ensures forall i :: 0 <= i < v.Length ==> v[i] as int == old(v[i]) as int + 50
  {
    for k := 0 to v.Length
      invariant forall i :: 0 <= i < k ==> v[i] as int == old(v[i]) as int + 50
      invariant forall i :: k <= i < v.Length ==> v[i] == old(v[i])
    {
      v[k] := v[k] + 50;
    }
  }

  /** `*i *= 2` on every element; overflow of `i32` would panic. */
  method DoubleEach(v: array<int32>)
    requires forall i :: 0 <= i < v.Length ==> IsInt32(v[i] as int * 2)
    modifies v
    ensures forall i :: 0 <= i < v.Length ==> v[i] as int == old(v[i]) as int * 2
  {
    for k := 0 to v.Length
      invariant forall i :: 0 <= i < k ==> v[i] as int == old(v[i]) as int * 2
      invariant forall i :: k <= i < v.Length ==> v[i] == old(v[i])
    {
      v[k] := v[k] * 2;
    }
  }

  /** `vec![100, 32, 57]` after each loop. */
  method InPlaceLoopsDemo() returns (plusFifty: seq<int32>, doubled: seq<int32>)
    ensures plusFifty == [150, 82, 107]
    ensures doubled == [200, 64, 114]
  {
    var v := new int32[3] [100, 32, 57];
    AddFifty(v);
    plusFifty := v[..];
    var w := new int32[3] [100, 32, 57];
    DoubleEach(w);
    doubled := w[..];
  }

  // ---------------------------------------------------------------------------
  // `Vec<i32>` operations

  function InsertAt(s: seq<int32>, index: nat, x: int32): (r: seq<int32>)
    requires index <= |s|
    ensures |r| == |s| + 1 && r[index] == x
    ensures forall i :: 0 <= i < index ==> r[i] == s[i]
    ensures forall i :: index < i < |r| ==> r[i] == s[i - 1]
  {
    s[..index] + [x] + s[index..]
  }

  function RemoveAt(s: seq<int32>, index: nat): (r: seq<int32>)
    requires index < |s|
    ensures |r| == |s| - 1
    ensures forall i :: 0 <= i < index ==> r[i] == s[i]
    ensures forall i :: index <= i < |r| ==> r[i] == s[i + 1]
  {
    s[..index] + s[index + 1..]
  }

  /** Removing at the index just inserted at gives back the element and the
      original vector. */
  lemma RemoveInserted(s: seq<int32>, index: nat, x: int32)
    requires index <= |s|
    ensures InsertAt(s, index, x)[index] == x
    ensures RemoveAt(InsertAt(s, index, x), index) == s
  {
  }

  predicate Ascending(s: seq<int32>)
  {
    forall i, j :: 0 <= i < j < |s| ==> s[i] <= s[j]
  }

  function InsertSorted(x: int32, s: seq<int32>): (r: seq<int32>)
    requires Ascending(s)
    ensures Ascending(r) && multiset(r) == multiset(s) + multiset{x}
    ensures forall k :: 0 <= k < |r| ==> r[k] == x || r[k] in s
  {
    if s == [] || x <= s[0] then [x] + s
    else
      var t := InsertSorted(x, s[1..]);
      InsertSortedCons(x, s, t);
      [s[0]] + t
  }

  /** The recursive case of `InsertSorted`: the head stays in front. */
  lemma InsertSortedCons(x: int32, s: seq<int32>, t: seq<int32>)
    requires s != [] && Ascending(s) && s[0] < x
    requires Ascending(t) && multiset(t) == multiset(s[1..]) + multiset{x}
    requires forall k :: 0 <= k < |t| ==> t[k] == x || t[k] in s[1..]
    ensures Ascending([s[0]] + t)
    ensures multiset([s[0]] + t) == multiset(s) + multiset{x}
    ensures forall k :: 0 <= k < |[s[0]] + t| ==> ([s[0]] + t)[k] == x || ([s[0]] + t)[k] in s
  {
    assert s == [s[0]] + s[1..];
    var r := [s[0]] + t;
    forall k | 0 <= k < |t| ensures s[0] <= t[k] {
      if t[k] != x {
        var j :| 0 <= j < |s[1..]| && s[1..][j] == t[k];
        assert s[1..][j] == s[j + 1];
      }
    }
    forall i, j | 0 <= i < j < |r| ensures r[i] <= r[j] {
      if i > 0 {
        assert r[i] == t[i - 1] && r[j] == t[j - 1];
      } else {
        assert r[j] == t[j - 1];
      }
    }
    forall k | 0 <= k < |r| ensures r[k] == x || r[k] in s {
      if k > 0 {
        assert r[k] == t[k - 1];
      }
    }
  }

  /** The order `slice::sort` produces: ascending, same elements. */
  function SortSeq(s: seq<int32>): (r: seq<int32>)
    ensures Ascending(r) && multiset(r) == multiset(s)
  {
    if s == [] then []
    else
      assert s == [s[0]] + s[1..];
      InsertSorted(s[0], SortSeq(s[1..]))
  }

  /** There is only one ascending arrangement of a multiset, so the result of
      any correct sort is `SortSeq`'s. */
  lemma {:induction false} AscendingUnique(a: seq<int32>, b: seq<int32>)
    requires Ascending(a) && Ascending(b) && multiset(a) == multiset(b)
    ensures a == b
  {
    if a == [] {
      assert |multiset(b)| == 0;
    } else {
      assert a[0] in multiset(b);
      var i :| 0 <= i < |b| && b[i] == a[0];
      assert b[0] in multiset(a);
      var j :| 0 <= j < |a| && a[j] == b[0];
      assert b[0] <= b[i] && a[0] <= a[j];
      MultisetTail(a, b);
      AscendingUnique(a[1..], b[1..]);
      assert a == [a[0]] + a[1..] && b == [b[0]] + b[1..];
    }
  }

  lemma MultisetTail(a: seq<int32>, b: seq<int32>)
    requires a != [] && b != [] && a[0] == b[0] && multiset(a) == multiset(b)
    ensures multiset(a[1..]) == multiset(b[1..])
  {
    assert a == [a[0]] + a[1..];
    assert b == [b[0]] + b[1..];
    assert multiset(a[1..]) == multiset(a) - multiset{a[0]};
    assert multiset(b[1..]) == multiset(b) - multiset{b[0]};
  }

  /** `Vec::dedup`: drops each element equal to the one before it. */
  function DedupSeq(s: seq<int32>): (r: seq<int32>)
    ensures |r| <= |s|
    ensures s != [] ==> r != [] && r[0] == s[0]
    ensures forall i :: 0 <= i < |r| - 1 ==> r[i] != r[i + 1]
    ensures forall x :: x in r <==> x in s
  {
    if |s| <= 1 then s
    else if s[0] == s[1] then DedupSeq(s[1..])
    else [s[0]] + DedupSeq(s[1..])
  }

  /** `dedup` drops an element exactly when it equals its neighbour: a
      repeated element collapses wherever it stands ... */
  lemma {:induction false} DedupRepeat(a: seq<int32>, x: int32, b: seq<int32>)
    ensures DedupSeq(a + [x, x] + b) == DedupSeq(a + [x] + b)
  {
    var s, t := a + [x, x] + b, a + [x] + b;
    if a == [] {
      assert s[1..] == t;
    } else {
      assert s[0] == t[0] == a[0];
      assert s[1] == t[1];
      assert s[1..] == a[1..] + [x, x] + b;
      assert t[1..] == a[1..] + [x] + b;
      DedupRepeat(a[1..], x, b);
    }
  }

  /** ... and at a boundary between two different elements nothing is
      dropped, so `dedup` keeps the order of what it keeps. */
  lemma {:induction false} DedupSplit(a: seq<int32>, b: seq<int32>)
    requires a != [] && b != [] && a[|a| - 1] != b[0]
    ensures DedupSeq(a + b) == DedupSeq(a) + DedupSeq(b)
  {
    var s := a + b;
    assert s[1..] == a[1..] + b;
    if |a| == 1 {
      assert s[1] == b[0];
      assert s[1..] == b;
    } else {
      assert s[1] == a[1];
      DedupSplit(a[1..], b);
    }
  }

  /** On an ascending vector `dedup` leaves each value once, strictly ascending. */
  lemma {:induction false} DedupAscending(s: seq<int32>)
    requires Ascending(s)
    ensures forall i, j :: 0 <= i < j < |DedupSeq(s)| ==> DedupSeq(s)[i] < DedupSeq(s)[j]
  {
    if |s| > 1 {
      DedupAscending(s[1..]);
      var r := DedupSeq(s);
      var t := DedupSeq(s[1..]);
      if s[0] != s[1] {
        assert r == [s[0]] + t;
        forall i, j | 0 <= i < j < |r| ensures r[i] < r[j] {
          if i == 0 {
            assert r[j] == t[j - 1] && r[j] in s[1..];
          }
        }
      }
    }
  }

  /** A `Vec<i32>`: a growable sequence changed in place. */
  class Vector {
    var elements: seq<int32>

    constructor FromSeq(s: seq<int32>)
      ensures elements == s
    {
      elements := s;
    }

    method Push(x: int32)
      modifies this
      ensures elements == old(elements) + [x]
    {
      elements := elements + [x];
    }

    /** `Vec::pop`: the last element, or `None` when empty. */
    method Pop() returns (last: Option<int32>)
      modifies this
      ensures old(elements) == [] ==> last == None && elements == []
      ensures old(elements) != [] ==>
        last == Some(old(elements)[|old(elements)| - 1]) &&
        elements == old(elements)[..|old(elements)| - 1]
    {
      if elements == [] {
        last := None;
      } else {
        last := Some(elements[|elements| - 1]);
        elements := elements[..|elements| - 1];
      }
    }

    /** `Vec::insert`, which panics when `index > len`. */
    method Insert(index: nat, x: int32)
      requires index <= |elements|
      modifies this
      ensures elements == InsertAt(old(elements), index, x)
    {
      elements := InsertAt(elements, index, x);
    }

    /** `Vec::remove`, which panics when `index >= len`. */
    method Remove(index: nat) returns (x: int32)
      requires index < |elements|
      modifies this
      ensures x == old(elements)[index]
      ensures elements == RemoveAt(old(elements), index)
    {
      x := elements[index];
      elements := RemoveAt(elements, index);
    }

    method Clear()
      modifies this
      ensures elements == []
    {
      elements := [];
    }

    method Sort()
      modifies this
      ensures Ascending(elements) && multiset(elements) == multiset(old(elements))
      ensures elements == SortSeq(old(elements))
    {
      elements := SortSeq(elements);
    }

    method Reverse()
      modifies this
      ensures elements == Seqs.Reverse(old(elements))
    {
      elements := Seqs.Reverse(elements);
    }

    method Dedup()
      modifies this
      ensures elements == DedupSeq(old(elements))
    {
      elements := DedupSeq(elements);
    }
  }

  /** `pop`, `insert(0, 100)`, `remove(0)` and `clear` on `[1, 2, 3, 4, 5]`,
      then the slice `[1..4]`. */
  method VectorOperationsDemo() returns (last: Option<int32>, removed: int32,
                                         afterRemove: seq<int32>, afterClear: seq<int32>,
                                         slice: seq<int32>)
    ensures last == Some(5) && removed == 100
    ensures afterRemove == [1, 2, 3, 4] && afterClear == []
    ensures slice == [2, 3, 4]
  {
    var v := new Vector.FromSeq([1, 2, 3, 4, 5]);
    last := v.Pop();
    v.Insert(0, 100);
    removed := v.Remove(0);
    afterRemove := v.elements;
    v.Clear();
    afterClear := v.elements;
    var w: seq<int32> := [1, 2, 3, 4, 5];
    slice := w[1..4];
  }

  lemma SortExample(s: seq<int32>, r: seq<int32>)
    requires s == [5, 3, 1, 4, 2]
    requires Ascending(r) && multiset(r) == multiset(s)
    ensures r == [1, 2, 3, 4, 5]
  {
    var target: seq<int32> := [1, 2, 3, 4, 5];
    SortInputMultiset(s, target);
    assert Ascending(target);
    AscendingUnique(r, target);
  }

  lemma SortInputMultiset(s: seq<int32>, t: seq<int32>)
    requires s == [5, 3, 1, 4, 2] && t == [1, 2, 3, 4, 5]
    ensures multiset(s) == multiset(t)
  {
    calc {
      multiset(s);
      multiset{5, 3, 1, 4, 2};
      multiset{1, 2, 3, 4, 5};
      multiset(t);
    }
  }

  lemma ReverseExample(s: seq<int32>)
    requires s == [1, 2, 3, 4, 5]
    ensures Seqs.Reverse(s) == [5, 4, 3, 2, 1]
  {
    forall k | 0 <= k < 5 ensures Seqs.Reverse(s)[k] == s[4 - k] {
      ReverseAt(s, k);
    }
  }

  /** `sort` then `reverse` on `[5, 3, 1, 4, 2]`. */
  method SortReverseDemo() returns (sorted: seq<int32>, reversed: seq<int32>)
    ensures sorted == [1, 2, 3, 4, 5] && reversed == [5, 4, 3, 2, 1]
  {
    var u := new Vector.FromSeq([5, 3, 1, 4, 2]);
    var original := u.elements;
    u.Sort();
    sorted := u.elements;
    SortExample(original, sorted);
    u.Reverse();
    reversed := u.elements;
    ReverseExample(sorted);
  }

  /** `dedup` on `[1, 1, 2, 2, 3, 3]`. */
  method DedupDemo() returns (deduped: seq<int32>)
    ensures deduped == [1, 2, 3]
  {
    var d := new Vector.FromSeq([1, 1, 2, 2, 3, 3]);
    d.Dedup();
    deduped := d.elements;
  }

  // ---------------------------------------------------------------------------
  // `HashMap`

  /** `insert` on a present key replaces its value. */
  lemma InsertOverwrites<K, V>(m: map<K, V>, k: K, v1: V, v2: V)
    ensures m[k := v1][k := v2] == m[k := v2]
    ensures m[k := v2][k] == v2
  {
  }

  /** `entry(k).or_insert(d)`: the map afterwards and the value the returned
      reference points at. */
  function EntryOrInsert<K, V>(m: map<K, V>, k: K, d: V): (r: (map<K, V>, V))
    ensures k in r.0 && r.0[k] == r.1
    ensures r.0.Keys == m.Keys + {k}
    ensures forall j :: j in m ==> r.0[j] == m[j]
    ensures k !in m ==> r.1 == d
  {
    if k in m then (m, m[k]) else (m[k := d], d)
  }

  /** A second `or_insert` on the same key changes nothing, whatever its
      default. */
  lemma EntryOrInsertIdempotent<K, V>(m: map<K, V>, k: K, d: V, d2: V)
    ensures EntryOrInsert(EntryOrInsert(m, k, d).0, k, d2) == EntryOrInsert(m, k, d)
  {
  }

  /** Overwriting Blue, then `or_insert(50)` for Yellow and for Blue. */
  lemma ScoresExample()
    ensures var s := map[]["Blue" := 10 as int32]["Blue" := 25 as int32];
            var s1 := EntryOrInsert(s, "Yellow", 50 as int32).0;
            var s2 := EntryOrInsert(s1, "Blue", 50 as int32).0;
            s == map["Blue" := 25 as int32] &&
            s2 == map["Blue" := 25 as int32, "Yellow" := 50 as int32]
  {
    var s := map[]["Blue" := 10 as int32]["Blue" := 25 as int32];
    assert s == map["Blue" := 25 as int32];
    var s1 := EntryOrInsert(s, "Yellow", 50 as int32).0;
    assert s1 == map["Blue" := 25 as int32, "Yellow" := 50 as int32];
  }

  /** Sum of the values of a map. */
  ghost function SumValues(m: map<string, nat>): nat
    decreases |m|
  {
    if m == map[] then 0
    else
      var k :| k in m;
      m[k] + SumValues(m - {k})
  }

  lemma {:induction false} SumValuesRemove(m: map<string, nat>, k: string)
    requires k in m
    ensures SumValues(m) == m[k] + SumValues(m - {k})
    decreases |m|
  {
    var j :| j in m && SumValues(m) == m[j] + SumValues(m - {j});
    if j != k {
      SumValuesRemove(m - {j}, k);
      SumValuesRemove(m - {k}, j);
      assert m - {j} - {k} == m - {k} - {j};
    }
  }

  /** Adding one to an entry, or inserting a one, adds one to the total. */
  lemma SumValuesBump(m: map<string, nat>, k: string)
    ensures SumValues(m[k := (if k in m then m[k] else 0) + 1]) == SumValues(m) + 1
  {
    var m' := m[k := (if k in m then m[k] else 0) + 1];
    SumValuesRemove(m', k);
    if k in m {
      SumValuesRemove(m, k);
      assert m' - {k} == m - {k};
    } else {
      assert m' - {k} == m;
    }
  }

  /** What the word-count loop keeps for the words seen so far. */
  ghost predicate Counted(counts: map<string, nat>, seen: seq<string>)
  {
    && (forall w :: w in counts <==> w in seen)
    && (forall w :: w in counts ==> counts[w] == Occurrences(seen, w))
    && SumValues(counts) == |seen|
  }

  /** `*counts.entry(word).or_insert(0) += 1` */
  function CountWord(counts: map<string, nat>, word: string): (r: map<string, nat>)
    ensures r.Keys == counts.Keys + {word}
  {
    var (entered, count) := EntryOrInsert(counts, word, 0);
    entered[word := count + 1]
  }

  lemma CountWordStep(counts: map<string, nat>, seen: seq<string>, word: string)
    requires Counted(counts, seen)
    ensures Counted(CountWord(counts, word), seen + [word])
  {
    var r := CountWord(counts, word);
    assert r == counts[word := (if word in counts then counts[word] else 0) + 1];
    SumValuesBump(counts, word);
    forall w | w in r ensures r[w] == Occurrences(seen + [word], w) {
      OccurrencesAppend(seen, word, w);
      OccurrencesBounds(seen, w);
    }
    forall w ensures w in r <==> w in seen + [word] {
      assert w in seen + [word] <==> w in seen || w == word;
    }
  }

  /** The word-count loop: `*map.entry(word).or_insert(0) += 1` for every
      word. Each word present maps to its number of occurrences, and the
      counts add up to the number of words. */
  method WordCount(words: seq<string>) returns (counts: map<string, nat>)
    ensures forall w :: w in counts <==> w in words
    ensures forall w :: w in counts ==> counts[w] == Occurrences(words, w)
    ensures SumValues(counts) == |words|
  {
    counts := map[];
    for i := 0 to |words|
      invariant Counted(counts, words[..i])
    {
      assert words[..i + 1] == words[..i] + [words[i]];
      CountWordStep(counts, words[..i], words[i]);
      counts := CountWord(counts, words[i]);
    }
    assert words[..|words|] == words;
  }

  lemma HelloWorldJoined()
    ensures JoinSpaces(["hello", "world", "wonderful", "world"]) == "hello world wonderful world"
  {
    var words := ["hello", "world", "wonderful", "world"];
    assert JoinSpaces(words) == "hello world wonderful world";
  }

  lemma HelloWorldPlainWords()
    ensures forall i :: 0 <= i < 4 ==>
              ["hello", "world", "wonderful", "world"][i] != []
              && NoWhitespace(["hello", "world", "wonderful", "world"][i])
  {
    LowerCaseWord("hello");
    LowerCaseWord("world");
    LowerCaseWord("wonderful");
  }

  lemma HelloWorldWords()
    ensures SplitWhitespace("hello world wonderful world") == ["hello", "world", "wonderful", "world"]
  {
    HelloWorldJoined();
    HelloWorldPlainWords();
    SplitJoin(["hello", "world", "wonderful", "world"]);
  }

  lemma CountsOfHelloWorld(words: seq<string>, counts: map<string, nat>)
    requires words == ["hello", "world", "wonderful", "world"]
    requires forall w :: w in counts <==> w in words
    requires forall w :: w in counts ==> counts[w] == Occurrences(words, w)
    ensures counts == map["hello" := 1, "world" := 2, "wonderful" := 1]
  {
    assert "hello" != "world" by { assert "hello"[0] != "world"[0]; }
    assert "wonderful" != "world" && "wonderful" != "hello";
    assert Occurrences(["hello", "world", "wonderful", "world"], "world") == 2;
    assert Occurrences(["hello", "world", "wonderful", "world"], "hello") == 1;
    assert Occurrences(["hello", "world", "wonderful", "world"], "wonderful") == 1;
    forall w ensures w in counts <==> w in {"hello", "world", "wonderful"} {
      assert w in words <==> w == "hello" || w == "world" || w == "wonderful";
    }
    assert counts.Keys == {"hello", "world", "wonderful"};
  }

  /** `"hello world wonderful world".split_whitespace()` and its counts. */
  method WordCountDemo() returns (counts: map<string, nat>)
    ensures counts == map["hello" := 1, "world" := 2, "wonderful" := 1]
  {
    var words := ["hello", "world", "wonderful", "world"];
    HelloWorldWords();
    counts := WordCount(SplitWhitespace("hello world wonderful world"));
    CountsOfHelloWorld(words, counts);
  }

  // ---------------------------------------------------------------------------
  // `HashSet<i32>`

  /** A repeated insert is ignored; union, intersection and difference of
      {1,2,3} and {2,3,4}. */
  lemma SetExamples()
    ensures {1, 2} + {2} == {1, 2} && 2 in {1, 2}
    ensures {1, 2, 3} + {2, 3, 4} == {1, 2, 3, 4}
    ensures {1, 2, 3} * {2, 3, 4} == {2, 3}
    ensures {1, 2, 3} - {2, 3, 4} == {1}
  {
  }
}
