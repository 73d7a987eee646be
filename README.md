# Rust tutorial samples: a verified model of the small helpers and the menu

The repository is a collection of Rust tutorial samples, one module per topic.
`main` shows a menu and runs the topic the user picks. Most of the code only
prints. This project models the parts that compute something, each on its own
terms, and proves what the code and its assertions promise:

- the byte-scanning `first_word` (all three copies), `change`, `calculate_length` and `takes_and_gives_back`, in module `Ownership`;
- `longest`, `longest_with_an_announcement`, `compare`, `ImportantExcerpt`, `Parser::parse` and the memoising `Cache`, in module `Lifetimes`;
- `largest` and its `i32`/`char` versions, `Point2::mixup`, the `Counter` iterator, `cmp_display`, `Add for Point`, the `summarize` formats and the `outline_print` lines, in module `TraitsGenerics`;
- `complex`, the adapter pipelines, `Option` flattening, the `Fibonacci` iterator that stops on `u64` overflow, and the word count, in module `IteratorsClosures`;
- `Rectangle`, `build_user`, struct-update syntax and the `unwrap_or` sum, in module `StructsEnums`;
- `value_in_cents`, `plus_one`, the `while let` stack drain, the setting-update rule, match guards, `@` bindings and the range and struct classifiers, in module `PatternMatching`;
- `Guess`, `last_char_of_first_line` and the `Result` combinator examples, in module `ErrorHandling`;
- the in-place vector loops, the `Vec` operation sequence, HashMap overwrite versus `entry().or_insert`, the word count and the HashSet operations, in module `Collections`;
- the read, trim and dispatch loop of `main`, in module `Menu`.

Modules `Text`, `Seqs`, `Ints` and `Wrappers` hold the shared vocabulary:

- UTF-8 byte length, since Rust's `len()` counts bytes;
- `trim` and `split_whitespace`;
- reversal and occurrence counting;
- the integer widths;
- `Option` and `Result`.

Code that changes state in place stays imperative:

- `Cache`, `Counter`, `Fibonacci`, `Rectangle` and the `Vec` are classes whose methods modify their fields;
- `largest`, `first_word`, the element loops, the word count and the menu loop are methods with loop invariants;
- each such method is proved against a specification function;
- the properties the source states about that function are proved as lemmas.

Panics become preconditions: indexing an empty slice, and overflow in debug builds. A recoverable error becomes a `Result` or an `Option`.

At end of input `read_line` returns `Ok(0)` and leaves the buffer empty. The trimmed empty token is an invalid choice, so the menu prints its diagnostic and asks again; it neither stops nor panics (`Menu.EndOfInputContinues`, `Menu.EndOfInputNeverQuits`). Only a failed read panics.

## Model

| member | source | states |
|---|---|---|
| Ownership.RustString.From | src/ownership.rs:136 | `String::from` holds exactly the given text |
| Ownership.RustString.PushStr | src/ownership.rs:127 | `push_str` leaves the old text followed by the tail |
| Ownership.FirstWord | src/ownership.rs:169-179 | the result is a prefix of the input with no space in it; when the input has a space, the result stops at the first one; when it has none, the result is the whole input |
| Ownership.Change | src/ownership.rs:126-128 | the borrowed string becomes its old text followed by ", world", changed in place |
| Ownership.CalculateLength | src/ownership.rs:122-124 | the length is the UTF-8 byte length, never less than the number of characters |
| Ownership.ChangeAddsSevenBytes | src/ownership.rs:122-128 | after `change`, `calculate_length` reports exactly seven more bytes |
| Ownership.TakesAndGivesBack | src/ownership.rs:78-80 | the string handed back is the one passed in |
| Ownership.SliceExamples | src/ownership.rs:138-165 | `&s[0..5]` and `&s[6..11]` of "hello world" are "hello" and "world"; `&a[1..3]` of `[1, 2, 3, 4, 5]` is `[2, 3]` |
| Ownership.FirstWordExample | src/ownership.rs:150-157 | `first_word("hello world")` is "hello" |
| Lifetimes.Longest | src/lifetimes.rs:36-42 | the result is one of the arguments and is at least as long as both; it is `x` exactly when `x` has strictly more bytes, so a tie goes to `y` |
| Lifetimes.LongestWithAnnouncement | src/lifetimes.rs:204-213 | chooses exactly as `longest` does, whatever the announcement |
| Lifetimes.Compare | src/lifetimes.rs:86-88 | true exactly when `x` has strictly more bytes than `y`, which is exactly when `longest` picks `x` |
| Lifetimes.LongestExamples | src/lifetimes.rs:44-58 | `longest("long string is long", "xyz")` and `longest("abcd", "xyz")` return the first argument |
| Lifetimes.AnnouncementExample | src/lifetimes.rs:215-219 | `longest_with_an_announcement("abcd", "xyz", …)` is "abcd" |
| Lifetimes.CompareExample | src/lifetimes.rs:90-93 | `compare("hello", "world!")` is false |
| Lifetimes.FirstWordAnnotated | src/lifetimes.rs:71-79 | the copy of `first_word` with a lifetime parameter returns the prefix before the first space, or the whole string |
| Lifetimes.FirstWordElided | src/lifetimes.rs:141-149 | the copy of `first_word` with elided lifetimes returns the prefix before the first space, or the whole string |
| Lifetimes.ImportantExcerpt.Level | src/lifetimes.rs:106-108 | `level` is always 3 |
| Lifetimes.ImportantExcerpt.AnnounceAndReturnPart | src/lifetimes.rs:110-113 | returns the stored part unchanged |
| Lifetimes.FirstSentence | src/lifetimes.rs:116-117 | the first piece of `split('.')` is a prefix of the novel with no '.' in it, followed by a '.' unless it is the whole novel |
| Lifetimes.FirstSentenceExample | src/lifetimes.rs:116-121 | the excerpt of "Call me Ishmael. Some years ago..." is "Call me Ishmael" |
| Lifetimes.Parse | src/lifetimes.rs:235-243 | `Err` with the "input is empty" message exactly when the context string is empty, `Ok(())` otherwise |
| Lifetimes.Cache.New | src/lifetimes.rs:266-271 | a new cache holds the data and has nothing processed |
| Lifetimes.Cache.GetProcessed | src/lifetimes.rs:273-279 | returns the upper-cased data and stores it; the upper-casing runs at most once, and a call on a filled cache changes nothing |
| Lifetimes.Cache.GetOriginal | src/lifetimes.rs:281-283 | returns the data unchanged |
| Lifetimes.CacheDemo | src/lifetimes.rs:286-291 | the original is "hello world", and both `get_processed` calls give "HELLO WORLD" from one computation |
| TraitsGenerics.FirstMaxIndex | src/traits_generics.rs:40-48 | the position the loop ends on: a maximal element, and the first one, since only a strictly greater item replaces the current largest |
| TraitsGenerics.FirstMaxIndexUnique | src/traits_generics.rs:42-46 | a position that is maximal and strictly above every earlier element is the one `largest` picks |
| TraitsGenerics.Largest | src/traits_generics.rs:40-48 | needs a non-empty slice (`list[0]` panics otherwise); returns the first position of a maximum, whose element is at least every element |
| TraitsGenerics.LargestI32 | src/traits_generics.rs:13-21 | the `i32` loop picks the same position as generic `largest` |
| TraitsGenerics.LargestChar | src/traits_generics.rs:23-31 | the `char` loop picks the same position as generic `largest` |
| TraitsGenerics.LargestExamples | src/traits_generics.rs:33-37 | the largest of `[34, 50, 25, 100, 65]` is 100, at position 3; the largest of `['y', 'm', 'a', 'q']` is 'y', at position 0 |
| TraitsGenerics.Point2.Mixup | src/traits_generics.rs:100-105 | takes `x` from `self` and `y` from `other` |
| TraitsGenerics.MixupLaws | src/traits_generics.rs:100-105 | mixing a point with itself changes nothing, and two mixups in a row keep the first `x` and the last `y` |
| TraitsGenerics.MixupExample | src/traits_generics.rs:108-110 | `(5, 10.4).mixup(("Hello", 'c'))` is `(5, 'c')` |
| TraitsGenerics.NewsArticle.Summarize | src/traits_generics.rs:169-171 | defines the "{headline}, {author} ({location})" summary; `TraitsGenerics.ArticleSummaryHeadline` states its property |
| TraitsGenerics.NewsArticle.SummarizeAuthor | src/traits_generics.rs:173-175 | defines the override "@{author}"; `TraitsGenerics.SummaryExamples` evaluates it |
| TraitsGenerics.Tweet.Summarize | src/traits_generics.rs:179-181 | defines the "{username}: {content}" summary; `TraitsGenerics.TweetSummaryParts` states its properties |
| TraitsGenerics.Tweet.SummarizeAuthor | src/traits_generics.rs:147-149 | defines the trait's default author text "(著者不明)", which `Tweet` does not override; `TraitsGenerics.SummaryExamples` evaluates it |
| TraitsGenerics.Article.Summarize | src/traits_generics.rs:217-221 | defines the summary of an `Article`: its title |
| TraitsGenerics.Article.Display | src/traits_generics.rs:255-258 | defines the `Display` text "Article: {title}"; `TraitsGenerics.SummaryExamples` evaluates it |
| TraitsGenerics.TweetSummaryParts | src/traits_generics.rs:178-182 | a tweet summary starts with the user name up to the first ':', and is two bytes longer than the name and content together |
| TraitsGenerics.ArticleSummaryHeadline | src/traits_generics.rs:168-171 | an article summary starts with the headline up to the first ',' |
| TraitsGenerics.SummaryExamples | src/traits_generics.rs:143-176 | a tweet falls back to the default author text "(著者不明)"; an article's author is "@" plus its author; an `Article`'s `Display` is "Article: " plus its summary |
| TraitsGenerics.CmpDisplay | src/traits_generics.rs:313-321 | shows `x` exactly when `x >= y`, so ties go to `x`; otherwise shows `y`, which is then strictly larger |
| TraitsGenerics.CounterStep | src/traits_generics.rs:361-368 | below `max`, `next` increments the count and yields the new count; at `max` it yields `None` and keeps the state |
| TraitsGenerics.CounterItems | src/traits_generics.rs:361-368 | `steps` calls of `next` give exactly `steps` items |
| TraitsGenerics.CounterItemsAt | src/traits_generics.rs:361-368 | from `count <= max`, the i-th call yields `count + i + 1` while that is at most `max`, and `None` ever after |
| TraitsGenerics.CounterThreeItems | src/traits_generics.rs:371-375 | `Counter::new(3)` yields 1, 2, 3 and then `None` |
| TraitsGenerics.Counter.New | src/traits_generics.rs:353-355 | a new counter starts at 0 with the given maximum |
| TraitsGenerics.Counter.Next | src/traits_generics.rs:361-368 | one `next` call moves the state as `CounterStep` says, and keeps `count <= max` |
| TraitsGenerics.CountUp | src/traits_generics.rs:371-375 | the values `count + 1` through `max`, in order |
| TraitsGenerics.Drain | src/traits_generics.rs:371-375 | the `while let` loop collects every value from the current count up to `max`, in order, and leaves the counter at `max` |
| TraitsGenerics.Add | src/traits_generics.rs:396-404 | adds componentwise; an `i32` overflow panics in a debug build, so both sums must fit |
| TraitsGenerics.AddLaws | src/traits_generics.rs:396-404 | point addition commutes, and the origin is its identity |
| TraitsGenerics.AddExample | src/traits_generics.rs:407-409 | `(1, 0) + (2, 3)` is `(3, 3)` |
| TraitsGenerics.OutlineLines | src/traits_generics.rs:420-427 | `outline_print` writes five lines |
| TraitsGenerics.BorderWidth | src/traits_generics.rs:423 | the border line is `len + 4` bytes |
| TraitsGenerics.BlankWidth | src/traits_generics.rs:424 | the blank line is `len + 4` bytes |
| TraitsGenerics.MiddleWidth | src/traits_generics.rs:425 | the middle line is `len + 4` bytes |
| TraitsGenerics.OutlineLinesWidth | src/traits_generics.rs:420-427 | all five lines are `len + 4` bytes, and the middle line holds the text between "* " and " *" |
| IteratorsClosures.Complex | src/iterators_closures.rs:27-31 | `complex(x)` is `2 * (x + 1) + 10`, that is `2x + 12`, when no `i32` step overflows |
| IteratorsClosures.ComplexDomain | src/iterators_closures.rs:27-31 | no step of `complex` overflows exactly when `x` lies in -1073741825..=1073741817 |
| IteratorsClosures.ComplexExample | src/iterators_closures.rs:32-33 | `complex(5)` is 22 |
| IteratorsClosures.MapSeq | src/iterators_closures.rs:189 | defines `map(f).collect()` element by element; `IteratorsClosures.MapSeqAt` states its properties |
| IteratorsClosures.MapSeqAt | src/iterators_closures.rs:189 | `map` keeps the length and applies the closure at every position |
| IteratorsClosures.Filter | src/iterators_closures.rs:193 | defines `filter(p).collect()`: the elements satisfying `p`, in order; `IteratorsClosures.FilterMembers` and `IteratorsClosures.FilterConcat` state its properties |
| IteratorsClosures.FilterMembers | src/iterators_closures.rs:193 | `filter` keeps exactly the elements that satisfy the predicate |
| IteratorsClosures.FilterConcat | src/iterators_closures.rs:193 | filtering a concatenation filters each part, so the kept elements stay in their order |
| IteratorsClosures.FilterStep | src/iterators_closures.rs:193 | one step of `filter` keeps or drops the head as the predicate says |
| IteratorsClosures.Take | src/iterators_closures.rs:197 | `take(n)` is the prefix of length `n`, or everything when there are fewer |
| IteratorsClosures.Skip | src/iterators_closures.rs:201 | `skip(n)` is what `take(n)` leaves, so the two put back together give the input |
| IteratorsClosures.EvensOfOneToTen | src/iterators_closures.rs:186-194 | the even members of `[1, …, 10]` are `[2, 4, 6, 8, 10]` |
| IteratorsClosures.EvensOfLow | src/iterators_closures.rs:193 | the even members of `[1, …, 5]` are `[2, 4]` |
| IteratorsClosures.EvensOfHigh | src/iterators_closures.rs:193 | the even members of `[6, …, 10]` are `[6, 8, 10]` |
| IteratorsClosures.SquaresOfEvens | src/iterators_closures.rs:208 | squaring `[2, 4, 6, 8, 10]` gives `[4, 16, 36, 64, 100]` |
| IteratorsClosures.ChainExample | src/iterators_closures.rs:205-211 | `filter(even).map(square).take(3)` on `[1, …, 10]` gives `[4, 16, 36]` |
| IteratorsClosures.LargeSquares | src/iterators_closures.rs:410-411 | the squares above 10 sum to 216 |
| IteratorsClosures.PipelineExample | src/iterators_closures.rs:405-412 | `filter(even).map(square).filter(> 10).sum()` on `[1, …, 10]` is 216 |
| IteratorsClosures.TakeSkipExamples | src/iterators_closures.rs:196-202 | `take(3)` gives `[1, 2, 3]` and `skip(5)` gives `[6, …, 10]` |
| IteratorsClosures.Sum | src/iterators_closures.rs:246 | defines `sum()` over unbounded integers; `IteratorsClosures.SumConcat` states its property |
| IteratorsClosures.FoldLeft | src/iterators_closures.rs:262-265 | defines `fold(init, f)`, applying `f` from the left; `IteratorsClosures.FoldPlusIsSum` relates it to `sum()` |
| IteratorsClosures.FoldPlusIsSum | src/iterators_closures.rs:262 | `fold(acc, +)` is the start value plus `sum()` |
| IteratorsClosures.SumConcat | src/iterators_closures.rs:246 | `sum` of a concatenation is the sum of the parts |
| IteratorsClosures.SumExamples | src/iterators_closures.rs:239-263 | `sum()` and `fold(0, +)` of `[1, 2, 3, 4, 5]` are both 15 |
| IteratorsClosures.CounterEvens | src/iterators_closures.rs:331 | the even items of 1..=5 sum to 6 |
| IteratorsClosures.CounterFiveDemo | src/iterators_closures.rs:323-332 | `Counter::new(5)` yields exactly 1, 2, 3, 4, 5, and its even items sum to 6 |
| IteratorsClosures.CheckedAdd | src/iterators_closures.rs:353 | `checked_add` gives the sum exactly when it fits in a `u64`, and `None` otherwise |
| IteratorsClosures.FibStep | src/iterators_closures.rs:352-357 | on overflow `next` yields `None` with the state untouched; otherwise the state moves to `(next, current + next)` and the new `current` is yielded |
| IteratorsClosures.Fibonacci.New | src/iterators_closures.rs:341-346 | a new iterator starts at `(0, 1)` |
| IteratorsClosures.Fibonacci.Next | src/iterators_closures.rs:352-357 | one `next` call moves the state as `FibStep` says |
| IteratorsClosures.FibItems | src/iterators_closures.rs:352-357 | `steps` calls of `next` give exactly `steps` items |
| IteratorsClosures.FibItemsAfterOverflow | src/iterators_closures.rs:353 | once the addition overflows, every later call is `None` as well |
| IteratorsClosures.FibMonotone | src/iterators_closures.rs:352-357 | the Fibonacci numbers never decrease |
| IteratorsClosures.FibItemsAt | src/iterators_closures.rs:352-357 | from the state `(Fib(k), Fib(k+1))`, call `i` yields `Fib(k+i+1)` while `Fib(k+i+2)` fits in a `u64` |
| IteratorsClosures.FibonacciTake | src/iterators_closures.rs:360 | `take(n).collect()` gives at most `n` values, the i-th being `Fib(i+1)`, and stops early only when the next addition would overflow |
| IteratorsClosures.FibFirstValues | src/iterators_closures.rs:360 | the Fibonacci numbers 1 through 11 |
| IteratorsClosures.FibonacciFirstTen | src/iterators_closures.rs:360 | the first ten values are 1, 1, 2, 3, 5, 8, 13, 21, 34, 55 |
| IteratorsClosures.PracticalJoined | src/iterators_closures.rs:369 | the sample text is its six words joined by single spaces |
| IteratorsClosures.PracticalPlainWords | src/iterators_closures.rs:369 | each of the six words is non-empty and has no whitespace |
| IteratorsClosures.PracticalWords | src/iterators_closures.rs:369-371 | `split_whitespace` of the sample text gives its six words |
| IteratorsClosures.PracticalOccurrences | src/iterators_closures.rs:369 | "hello" occurs twice, "world" three times and "rust" once in the sample text |
| IteratorsClosures.PracticalHellos | src/iterators_closures.rs:369 | "hello" occurs twice |
| IteratorsClosures.PracticalWorlds | src/iterators_closures.rs:369 | "world" occurs three times |
| IteratorsClosures.PracticalRusts | src/iterators_closures.rs:369 | "rust" occurs once |
| IteratorsClosures.CountsOfPractical | src/iterators_closures.rs:369-372 | a map whose keys are the words and whose values are their occurrences is `{hello: 2, world: 3, rust: 1}` |
| IteratorsClosures.PracticalWordCountDemo | src/iterators_closures.rs:369-372 | the `for_each` word count of the sample text is `{hello: 2, world: 3, rust: 1}` |
| IteratorsClosures.FlattenOptions | src/iterators_closures.rs:416 | defines `into_iter().flatten().collect()` on options; `IteratorsClosures.FlattenOptionsMembers`, `IteratorsClosures.FlattenOptionsConcat` and `IteratorsClosures.FlattenOptionsSomes` state its properties |
| IteratorsClosures.FlattenOptionsMembers | src/iterators_closures.rs:415-416 | `flatten` keeps exactly the `Some` payloads and never grows |
| IteratorsClosures.FlattenOptionsConcat | src/iterators_closures.rs:415-416 | flattening a concatenation flattens each part, so the payloads keep their order |
| IteratorsClosures.FlattenOptionsSomes | src/iterators_closures.rs:415-416 | wrapping every element in `Some` and flattening gives the elements back, in order |
| IteratorsClosures.FlattenOptionsExample | src/iterators_closures.rs:415-416 | `[Some(1), None, Some(2), None, Some(3)]` flattens to `[1, 2, 3]` |
| StructsEnums.Rectangle.New | src/structs_enums.rs:140-142 | `Rectangle::new` stores the width and height it is given |
| StructsEnums.Rectangle.Square | src/structs_enums.rs:133-138 | `Rectangle::square(s)` has width and height both `s` |
| StructsEnums.Rectangle.Area | src/structs_enums.rs:114-116 | the area is width times height; a `u32` overflow panics, so the product must fit |
| StructsEnums.Rectangle.CanHold | src/structs_enums.rs:119-121 | true exactly when this rectangle is strictly wider and strictly taller than the other |
| StructsEnums.Rectangle.DoubleSize | src/structs_enums.rs:124-127 | both sides double in place, so the area quadruples; a `u32` overflow panics |
| StructsEnums.CanHoldOrder | src/structs_enums.rs:119-121 | no rectangle can hold itself, holding is never mutual, and it is transitive |
| StructsEnums.RectangleDemo | src/structs_enums.rs:145-163 | 30x50 has area 1500, holds 10x40 but not 60x45; the 25-square has area 625; 10x20 doubles to 20x40 |
| StructsEnums.BuildUser | src/structs_enums.rs:42-49 | a built user is active with one sign-in and keeps the given email and user name |
| StructsEnums.WithEmail | src/structs_enums.rs:58-61 | the struct-update literal takes the new email and copies every other field |
| StructsEnums.WithEmailLaws | src/structs_enums.rs:38-61 | updating a built user's email is building it with that email, and giving back the old email restores the user |
| StructsEnums.UserExamples | src/structs_enums.rs:32-61 | `user2` keeps everything but its new email; `user4` is `user3` with "different@example.com" |
| StructsEnums.AddOrZero | src/structs_enums.rs:268-274 | `x + y.unwrap_or(0)` is `x` when `y` is `None` and `x` plus the payload otherwise; the `i32` addition panics on overflow |
| StructsEnums.AddOrZeroExample | src/structs_enums.rs:268-275 | `5 + Some(5).unwrap_or(0)` is 10, and with `None` it is 5 |
| PatternMatching.ValueInCents | src/pattern_matching.rs:19-29 | every coin is worth 1, 5, 10 or 25 cents |
| PatternMatching.CoinOfCentsInverts | src/pattern_matching.rs:19-29 | Penny, Nickel, Dime and Quarter have four different values, so the value gives the coin back; no other amount is a coin |
| PatternMatching.StateCoinValue | src/pattern_matching.rs:57-68 | defines the binding `value_in_cents`, 25 for a quarter of any state; `PatternMatching.StateCoinValueAgrees` ties it to the plain one |
| PatternMatching.StateCoinValueAgrees | src/pattern_matching.rs:57-68 | the binding `value_in_cents` agrees with the plain one, so a quarter is 25 cents whatever its state |
| PatternMatching.PlusOne | src/pattern_matching.rs:78-83 | `None` stays `None` and `Some(i)` becomes `Some(i + 1)`; `i + 1` panics on `i32::MAX` |
| PatternMatching.PlusOneExamples | src/pattern_matching.rs:85-87 | `plus_one(Some(5))` is `Some(6)` and `plus_one(None)` is `None` |
| PatternMatching.PopAll | src/pattern_matching.rs:158-160 | `while let Some(top) = stack.pop()` yields the elements in reverse push order and leaves the stack empty |
| PatternMatching.WhileLetDemo | src/pattern_matching.rs:152-160 | pushing 1, 2, 3 and draining yields 3, 2, 1 |
| PatternMatching.UpdateSetting | src/pattern_matching.rs:319-326 | a present setting is kept when the new value is also present; in every other case the new value replaces it |
| PatternMatching.UpdateSettingLaws | src/pattern_matching.rs:319-326 | the update never swaps one present value for another, and applying it twice is the same as once |
| PatternMatching.UpdateSettingExample | src/pattern_matching.rs:316-327 | `(Some(5), Some(10))` keeps 5; `(None, Some(10))` gives 10; `(Some(5), None)` gives `None` |
| PatternMatching.ParityGuard | src/pattern_matching.rs:360-364 | `Some(x)` takes the even arm exactly when `x` is even and the odd arm otherwise; `None` takes neither |
| PatternMatching.AlternationGuard | src/pattern_matching.rs:370-373 | "yes" exactly when `x` is 4, 5 or 6 and `y` holds, so the guard covers all three alternatives; otherwise "no" |
| PatternMatching.GuardExamples | src/pattern_matching.rs:357-373 | `Some(4)` takes the even arm; `x = 4` with `y = false` gives "no" |
| PatternMatching.ClassifyId | src/pattern_matching.rs:387-395 | ids in 3..=7 are bound to `id_variable`; those in 10..=12 take the second arm; every other id takes the last arm with its value |
| PatternMatching.ClassifyIdExample | src/pattern_matching.rs:384-395 | id 5 is bound in range; 11 takes the second arm; 8 takes the last |
| PatternMatching.Place | src/pattern_matching.rs:250-254 | a point is on the x axis exactly when `y == 0`, on the y axis exactly when `y != 0` and `x == 0`, and elsewhere otherwise; the arms give back the matched fields |
| PatternMatching.PlaceExamples | src/pattern_matching.rs:239-254 | the origin matches the x-axis arm first; `(0, 7)` is on the y axis |
| PatternMatching.OneThroughFive | src/pattern_matching.rs:216-219 | the `1..=5` arm matches exactly 1 through 5 |
| PatternMatching.ClassifyLetter | src/pattern_matching.rs:223-227 | `'a'..='j'` and `'k'..='z'` match exactly their ranges; anything else takes the last arm |
| PatternMatching.Dice | src/pattern_matching.rs:108-112 | 3 and exactly 3 gets a hat, 7 and exactly 7 loses one, any other roll moves by the roll |
| PatternMatching.ClassifierExamples | src/pattern_matching.rs:98-227 | 5 is in one through five, 'c' is an early letter, and a roll of 9 moves nine spaces |
| Seqs.Reverse | src/collections.rs:91 | reversal keeps the length |
| Seqs.ReverseAt | src/collections.rs:91 | position `k` of the reversal holds the element `k` places from the end |
| Seqs.ReverseInvolution | src/collections.rs:91 | reversing twice gives the sequence back |
| Seqs.ReverseSnoc | src/pattern_matching.rs:158 | the last element pushed is the first popped |
| Seqs.OccurrencesBounds | src/collections.rs:353-356 | a word occurs at most as many times as there are words, and at least once exactly when it is one of them |
| Seqs.OccurrencesCons | src/collections.rs:353-356 | occurrences in a sequence with a head in front are the head's contribution plus the rest's |
| Seqs.OccurrencesConcat | src/collections.rs:353-356 | occurrences in a concatenation add up |
| Seqs.OccurrencesAppend | src/collections.rs:353-356 | appending a word adds one occurrence of that word and none of any other |
| ErrorHandling.GuessValue | src/error_handling.rs:346-348 | `value()` of any `Guess` lies in 1..=100 |
| ErrorHandling.NewGuess | src/error_handling.rs:336-344 | `Guess::new` succeeds exactly on 1..=100 and then holds the input; otherwise it reports the rejected input |
| ErrorHandling.NewGuessRoundTrip | src/error_handling.rs:336-348 | building a guess from a guess's value gives the same guess |
| ErrorHandling.GuessExamples | src/error_handling.rs:352-360 | `Guess::new(50)` succeeds with value 50, and `Guess::new(200)` fails on 200 |
| ErrorHandling.FirstLine | src/error_handling.rs:195 | `lines().next()` is `None` exactly for the empty text; otherwise it has no newline and is the whole text when the text has none, or the text up to its first "\n" (never ending in '\r'), or the text up to its first "\r\n" |
| ErrorHandling.LastCharOfFirstLine | src/error_handling.rs:193-196 | `None` for the empty text or an empty first line; otherwise the last character of the first line |
| ErrorHandling.LastCharOfLine | src/error_handling.rs:193-196 | for a first line ended by "\n", the result is that line's last character, unless it is a '\r' belonging to the line ending |
| ErrorHandling.LastCharOfSingleLine | src/error_handling.rs:193-196 | a text without a newline gives its own last character |
| ErrorHandling.LastCharExamples | src/error_handling.rs:198-210 | "Hello\nWorld" gives `Some('o')` and "" gives `None` |
| ErrorHandling.LastCharEmptyFirstLine | src/error_handling.rs:195 | a text starting with "\n" gives `None` |
| ErrorHandling.LastCharCrLf | src/error_handling.rs:195 | in "ab\r\ncd" the '\r' belongs to the line ending, so the result is `Some('b')` |
| ErrorHandling.Double | src/error_handling.rs:272-274 | `double` always succeeds with twice its input; an `i32` overflow panics |
| ErrorHandling.CombinatorExamples | src/error_handling.rs:261-295 | the sample chains: `map` gives `Ok(4)`, two `and_then(double)` give `Ok(8)`, `map_err` prefixes the message, `or_else` recovers `Ok(0)`, `unwrap_or(42)` gives 42 and `unwrap_or_else` gives 0 |
| ErrorHandling.MapKeepsTag | src/error_handling.rs:262-269 | `map` and `map_err` keep the `Ok`/`Err` tag; each changes only its own side |
| ErrorHandling.AndThenDoubleTwice | src/error_handling.rs:272-277 | for every `i32` whose quadruple fits, `and_then(double)` doubles it and a second one quadruples it; an `Err` passes through both unchanged |
| ErrorHandling.FallbackLaws | src/error_handling.rs:280-287 | `or_else` and `unwrap_or` leave an `Ok` alone and use the fallback only on `Err` |
| Collections.AddFifty | src/collections.rs:48-52 | `*i += 50` adds 50 to every element in place, keeping the length; an `i32` overflow panics, so every element must leave room |
| Collections.DoubleEach | src/collections.rs:114-119 | `*i *= 2` doubles every element in place (the `iter_mut` loop of src/iterators_closures.rs:165-169 is the same loop); an overflow panics |
| Collections.InPlaceLoopsDemo | src/collections.rs:47-52 | `[100, 32, 57]` becomes `[150, 82, 107]` after `+= 50` and `[200, 64, 114]` after `*= 2` |
| Collections.InsertAt | src/collections.rs:66 | `insert` puts the element at the index and shifts the rest one place right |
| Collections.RemoveAt | src/collections.rs:70 | `remove` drops the element at the index and shifts the rest one place left |
| Collections.RemoveInserted | src/collections.rs:66-71 | `remove(i)` right after `insert(i, x)` returns `x` and restores the vector |
| Collections.InsertSorted | src/collections.rs:87 | inserting into an ascending sequence keeps it ascending and adds exactly the one element |
| Collections.InsertSortedCons | src/collections.rs:87 | putting the smaller head in front of an ascending insertion keeps it ascending, with the same elements |
| Collections.SortSeq | src/collections.rs:87 | `sort` gives an ascending permutation of the input |
| Collections.AscendingUnique | src/collections.rs:87 | two ascending sequences with the same elements are equal, so every correct sort gives `SortSeq`'s result |
| Collections.MultisetTail | src/collections.rs:87 | dropping equal heads from two permutations of each other leaves permutations |
| Collections.DedupSeq | src/collections.rs:96 | `dedup` never grows the vector, keeps the first element and the same set of values, and leaves no two equal neighbours; `DedupRepeat` and `DedupSplit` pin down the rest |
| Collections.DedupRepeat | src/collections.rs:96 | for all inputs, two equal neighbours anywhere in the vector collapse to one, and nothing else changes |
| Collections.DedupSplit | src/collections.rs:96 | for all inputs, where two different elements meet, `dedup` of the whole is `dedup` of each side joined, so order is kept and only a repeat of the previous element is dropped |
| Collections.DedupAscending | src/collections.rs:94-95 | on an ascending vector `dedup` leaves each value once, strictly ascending |
| Collections.Vector.FromSeq | src/collections.rs:59 | `vec![…]` holds exactly the given elements |
| Collections.Vector.Push | src/collections.rs:59 | `push` appends one element |
| Collections.Vector.Pop | src/collections.rs:62 | `pop` removes and returns the last element, or `None` on an empty vector |
| Collections.Vector.Insert | src/collections.rs:66 | `insert` needs `index <= len` (it panics otherwise) and inserts as `InsertAt` says |
| Collections.Vector.Remove | src/collections.rs:70 | `remove` needs `index < len` (it panics otherwise), returns the element and removes it as `RemoveAt` says |
| Collections.Vector.Clear | src/collections.rs:77 | `clear` empties the vector |
| Collections.Vector.Sort | src/collections.rs:87 | `sort` leaves an ascending permutation of the old elements |
| Collections.Vector.Reverse | src/collections.rs:91 | `reverse` leaves the old elements in reverse order |
| Collections.Vector.Dedup | src/collections.rs:96 | `dedup` leaves the old elements with consecutive duplicates removed |
| Collections.VectorOperationsDemo | src/collections.rs:59-82 | on `[1, 2, 3, 4, 5]`, `pop` gives 5, `remove(0)` after `insert(0, 100)` gives 100 and leaves `[1, 2, 3, 4]`, `clear` empties it, and the slice `[1..4]` is `[2, 3, 4]` |
| Collections.SortExample | src/collections.rs:86-87 | any ascending permutation of `[5, 3, 1, 4, 2]` is `[1, 2, 3, 4, 5]` |
| Collections.SortInputMultiset | src/collections.rs:86-87 | `[5, 3, 1, 4, 2]` and `[1, 2, 3, 4, 5]` hold the same elements |
| Collections.ReverseExample | src/collections.rs:91 | reversing `[1, 2, 3, 4, 5]` gives `[5, 4, 3, 2, 1]` |
| Collections.SortReverseDemo | src/collections.rs:86-92 | `sort` gives `[1, 2, 3, 4, 5]` and `reverse` then gives `[5, 4, 3, 2, 1]` |
| Collections.DedupDemo | src/collections.rs:94-96 | `dedup` on `[1, 1, 2, 2, 3, 3]` gives `[1, 2, 3]` |
| Collections.InsertOverwrites | src/collections.rs:340-342 | a second `insert` on a key replaces the first value |
| Collections.EntryOrInsert | src/collections.rs:345-346 | `entry(k).or_insert(d)` adds `k` with `d` only when it is absent, keeps every existing value, and returns the value now stored at `k` |
| Collections.EntryOrInsertIdempotent | src/collections.rs:345-346 | a second `or_insert` on the same key changes nothing, whatever its default |
| Collections.ScoresExample | src/collections.rs:340-347 | Blue ends at 25 after the overwrite; `or_insert(50)` adds Yellow with 50 and leaves Blue at 25 |
| Collections.SumValuesRemove | src/collections.rs:353-356 | the total of the counts is any one count plus the total of the rest |
| Collections.SumValuesBump | src/collections.rs:354-355 | adding one to an entry, or inserting a one, adds one to the total |
| Collections.CountWord | src/collections.rs:354-355 | one step of the loop adds the word as a key and keeps the other keys |
| Collections.CountWordStep | src/collections.rs:353-356 | one step keeps the loop invariant: the keys are the words seen, each count is the word's occurrences, and the counts add up to the words seen |
| Collections.WordCount | src/collections.rs:350-357 | the keys are exactly the words, each count is the number of occurrences, and the counts add up to the number of words |
| Collections.HelloWorldJoined | src/collections.rs:350 | the sample text is its four words joined by single spaces |
| Collections.HelloWorldPlainWords | src/collections.rs:350 | each of the four words is non-empty and has no whitespace |
| Collections.HelloWorldWords | src/collections.rs:350-353 | `split_whitespace` of the sample text gives its four words |
| Collections.CountsOfHelloWorld | src/collections.rs:350-357 | a map whose keys are the words and whose values are their occurrences is `{hello: 1, world: 2, wonderful: 1}` |
| Collections.WordCountDemo | src/collections.rs:350-357 | the word count of "hello world wonderful world" is `{hello: 1, world: 2, wonderful: 1}` |
| Collections.SetExamples | src/collections.rs:400-420 | `HashSet<i32>` is Dafny's built-in `set`, so these are the source's sample results checked on that type: a repeated insert is ignored and 2 is present; with {1,2,3} and {2,3,4}, the union is {1,2,3,4}, the intersection {2,3} and the difference {1} |
| Menu.MenuNumber | src/main.rs:38-46 | every topic is listed under a number from 1 to 9 |
| Menu.MenuKey | src/main.rs:59-67 | a topic's key is the single digit of its menu number |
| Menu.Parse | src/main.rs:58-87 | exactly "q" and "Q" quit; exactly the single digits run something; "0" runs every topic in the fixed order; any other digit runs the one topic whose key it is; every other token is invalid |
| Menu.ParseSelects | src/main.rs:59-67 | a token runs exactly one topic `t` exactly when it is `t`'s key |
| Menu.AllTopicsInMenuOrder | src/main.rs:68-78 | "0" runs all nine topics, each once, in menu order: basics, ownership, structs and enums, pattern matching, error handling, traits and generics, collections, iterators and closures, lifetimes |
| Menu.Actions | src/main.rs:59-78 | defines the output of running the selected topics: one `run_all` event per topic, in the order given; `Menu.StepRunAllExample` and `Menu.StepTopicExample` evaluate it |
| Menu.Respond | src/main.rs:58-91 | defines what a non-quit command prints after the prompt: the topics' actions then the separator, or the diagnostic alone; `Menu.RespondSeparator` states its property |
| Menu.RespondSeparator | src/main.rs:83-91 | the separator follows every action command, as its last output, and never an invalid choice, which `continue` skips past |
| Menu.Step | src/main.rs:52-91 | defines one pass of the loop body on one read: prompt, then panic on a failed read, farewell and stop on a quit token, otherwise the response and go on; `Menu.StepOutcome` and `Menu.StepLine` state its properties |
| Menu.Loop | src/main.rs:51-92 | defines `loop` over a body: run it on each read in turn, join what it prints, stop at the first outcome other than `Pending`; `Menu.LoopPending`, `Menu.LoopEnds` and `Menu.LoopStops` state its properties, and `Menu.RunLoop` is proved equal to it |
| Menu.Session | src/main.rs:51-92 | defines the menu loop as `Menu.Loop` with `Menu.Step` as its body; `Menu.SessionPending`, `Menu.SessionQuits` and `Menu.SessionPanics` state how it ends |
| Menu.StepLine | src/main.rs:52-91 | a line whose trimmed token quits prints the prompt and the farewell and ends the loop; any other line prints the prompt and the command's response and goes round again |
| Menu.RunLoop | src/main.rs:51-92 | the `loop` runs its body on each read in turn, collecting what it prints, and stops at the first body that does not go on |
| Menu.MenuLoop | src/main.rs:28-93 | `main` prints the banner, then exactly what the read-and-dispatch loop prints, and ends as that loop ends |
| Menu.StepOutcome | src/main.rs:52-91 | one pass always prompts first; it panics exactly on a failed read, quits exactly on a quit token, goes on otherwise, and prints the separator exactly for an action token |
| Menu.LoopPending | src/main.rs:51-92 | the loop is still running exactly when every pass so far went on |
| Menu.LoopEnds | src/main.rs:51-92 | the loop ends with a given outcome exactly when some pass ends with it and every earlier pass went on |
| Menu.LoopStops | src/main.rs:81 | once the loop has ended, later input is never read |
| Menu.LoopConcat | src/main.rs:51-92 | a loop still running after one stretch of input continues on the next, its output following on |
| Menu.LoopSnoc | src/main.rs:51-92 | one more read extends a running loop by exactly that pass |
| Menu.LoopEndsAt | src/main.rs:51-92 | a loop that ends at read `i` prints what reads `0..i` printed, then pass `i`'s output, and ends with pass `i`'s outcome |
| Menu.LoopGoesOn | src/main.rs:51-92 | a loop still running after read `i` has printed what reads `0..i` printed, then pass `i`'s output |
| Menu.LoopThree | src/main.rs:51-92 | two passes that go on and a third that ends it: the loop prints the three outputs and never reads further |
| Menu.SessionPending | src/main.rs:51-92 | the menu is still waiting exactly when every line read so far was something other than a quit token |
| Menu.SessionQuits | src/main.rs:79-82 | the menu quits exactly when some line's token is "q" or "Q" and every earlier read was a line with another token |
| Menu.SessionPanics | src/main.rs:56 | the menu panics exactly when some read fails and every earlier read was a line with a non-quit token |
| Menu.TrimmedKey | src/main.rs:56-58 | whitespace around a key, including the newline `read_line` keeps, does not change the command |
| Menu.EndOfInputContinues | src/main.rs:56-58 | at end of input `read_line` leaves the buffer empty; the empty token is an invalid choice, so the menu prints the diagnostic and prompts again |
| Menu.EndOfInputNeverQuits | src/main.rs:56-86 | any number of end-of-input reads leaves the menu running |
| Menu.StepTopicExample | src/main.rs:58-61 | " 3\n" runs the structs and enums module, then the separator |
| Menu.StepInvalidExample | src/main.rs:83-86 | "x\n" prints the diagnostic and no separator |
| Menu.StepQuitExample | src/main.rs:79-82 | "Q\n" prints the farewell and ends the loop |
| Menu.StepRunAllExample | src/main.rs:68-78 | "0\n" runs all nine modules in order, then the separator |
| Menu.SessionExample | src/main.rs:51-92 | reading " 3", "x", "Q" runs one module, rejects one token and quits, and nothing after "Q" is read |
| Menu.RunAllExample | src/main.rs:51-92 | "0" followed by a failed read runs every module, prompts again and ends in a panic |
| Text.Utf8Width | src/lifetimes.rs:37 | a character takes one to four bytes in UTF-8, and one exactly when it is ASCII |
| Text.Utf8Len | src/lifetimes.rs:37 | `str::len` counts at least one and at most four bytes per character, and is 0 only for the empty string |
| Text.Utf8LenConcat | src/ownership.rs:127 | the byte length of a concatenation is the sum of the lengths |
| Text.Utf8LenFrame | src/traits_generics.rs:425 | the byte length of a string between two others adds up |
| Text.Utf8LenAscii | src/lifetimes.rs:37 | a string's byte length equals its character count exactly when it is ASCII |
| Text.Repeat | src/traits_generics.rs:423-424 | `repeat(n)` on a one-character string gives `n` copies of it |
| Text.Utf8LenRepeat | src/traits_generics.rs:423-424 | `n` copies of a character take `n` times its width in bytes |
| Text.PrefixBefore | src/ownership.rs:169-179 | the text before the first separator: a prefix with no separator, followed by a separator unless it is the whole text |
| Text.PrefixBeforeJoin | src/ownership.rs:169-179 | the part before the first separator in `a + sep + b` is `a`, when `a` has no separator |
| Text.PrefixBeforeAt | src/ownership.rs:172-176 | when the first separator is at index `i`, the text before it is `s[..i]` |
| Text.TrimStart | src/main.rs:58 | trimming the start leaves nothing longer and no whitespace in front |
| Text.TrimStartSuffix | src/main.rs:58 | trimming the start removes exactly a run of leading whitespace |
| Text.TrimEnd | src/main.rs:58 | trimming the end leaves nothing longer and no whitespace at the back |
| Text.TrimEndPrefix | src/main.rs:58 | trimming the end removes exactly a run of trailing whitespace |
| Text.Trim | src/main.rs:58 | defines `str::trim` as `trim_end` after `trim_start`; `Text.TrimPadded` states that it removes exactly the padding around a token |
| Text.TrimStartPadded | src/main.rs:58 | leading whitespace before a token is removed |
| Text.TrimEndPadded | src/main.rs:58 | trailing whitespace after a token is removed |
| Text.TrimPadded | src/main.rs:58 | `trim` removes exactly the whitespace padding around a token |
| Text.LeadingWord | src/collections.rs:353 | the longest whitespace-free prefix, non-empty when the text starts with a non-space |
| Text.SplitWhitespace | src/collections.rs:353 | defines `split_whitespace` as the maximal whitespace-free runs, in order; `Text.SplitWhitespaceWords` and `Text.SplitJoin` state its properties |
| Text.SplitWhitespaceWords | src/collections.rs:353 | every word `split_whitespace` yields is non-empty and free of whitespace |
| Text.LeadingWordBefore | src/collections.rs:353 | a word followed by whitespace or the end is the leading word |
| Text.SplitWhitespaceSkip | src/collections.rs:353 | leading whitespace adds no word |
| Text.SplitWhitespaceWord | src/collections.rs:353 | a leading word followed by whitespace or the end is the first word yielded |
| Text.SplitWhitespaceSingle | src/collections.rs:353 | a single word splits to itself |
| Text.SplitWhitespaceSpaced | src/collections.rs:353 | a word and a space in front of the rest give that word, then the rest's words |
| Text.SplitJoin | src/collections.rs:353 | splitting non-empty, whitespace-free words joined by single spaces gives the words back |
| Text.SplitJoinCons | src/collections.rs:353 | the same round trip, one word at a time |
| Text.LowerCaseWord | src/collections.rs:350 | a word of lower-case ASCII letters has no whitespace |
| Text.ToUpperAscii | src/lifetimes.rs:276 | upper-casing keeps the length |
| Text.ToUpperAsciiIdempotent | src/lifetimes.rs:276 | upper-casing twice is upper-casing once |

## Left out

- Filesystem I/O in `error_handling.rs` (`File::open`, `File::create`, `read_to_string` and the `?` chains over them): these depend on the outside world.
- Floating-point code: both `divide` functions, `square_root`, `distance_from_origin` and `SpreadsheetCell::Float`. Dafny has no IEEE floats here.
- Printing: `println!` output is modelled as a sequence of events in the menu and as values everywhere else. The banner text is a single `Banner` event.
- `flush().unwrap()` on stdout: assumed to succeed. Only the failure of `read_line` is modelled.
- `Message::call` and `route`: they only print.
- The basics module is not part of this model. `basics::run_all`, like every other topic's `run_all`, is an opaque `Action` event.
- Unicode case mapping: `to_uppercase` and `to_lowercase` on non-ASCII text, and `chars().count()`. `Cache` upper-cases ASCII letters only (`Text.ToUpperAscii`), and the word-count inputs are lower-case ASCII.
- HashMap iteration order and `capacity()`: maps are Dafny `map`s, which have no order.
- `max_by_key` and its tie behaviour.
- `VecDeque`, `BTreeMap`, `zip` and the other adapter and closure demos that only print.
- The string-building demos (`format!`, `+` on strings) that only print.
- The `Words` iterator in `lifetimes.rs`.
- The destructuring sum in `pattern_matching.rs`.
- Lessons with no runtime behaviour: moves, borrows, lifetime annotations, `Fn`/`FnMut`/`FnOnce` capture, and `Copy`/`Clone` derivations.
- Commented-out panics.
- ErrorHandling.NewGuess: the error is modelled by the rejected value, not by the text of the message.
- Collections.WordCount: counts are `nat`, not `i32`. No sample text comes near 2^31 words.
- IteratorsClosures adapter values are unbounded `int`s, not `i32`. Every sample value is small.
- `first_word` scans characters for `' '` instead of bytes for `0x20`. The prefix is the same, because `0x20` never occurs inside a multi-byte UTF-8 sequence.
- `Counter` has two identical definitions, in `traits_generics.rs` and `iterators_closures.rs`. It is modelled once in `TraitsGenerics`.
