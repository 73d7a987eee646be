/** The error-handling samples: the `Guess` validation type, `?` on an
    `Option` in `last_char_of_first_line`, and the `Result` combinator
    chains. */
module ErrorHandling {
  import opened Ints
  import opened Wrappers
  import opened Text

  // ---------------------------------------------------------------------------
  // Guess

  /** The representation of a `Guess`; its field is private in the source,
      so only `Guess::new` creates one. */
  datatype GuessData = GuessData(value: int32)

  /** Every `Guess` holds a value in `1..=100`. */
  type Guess = g: GuessData | 1 <= g.value <= 100 witness GuessData(1)

  /** The error `Guess::new` reports: the rejected input (the source formats
      it into its message). */
  datatype GuessError = OutOfRange(input: int32)

  /** `Guess::new` succeeds exactly on `1..=100`, keeps the input on success
      and reports it on failure. */
  function NewGuess(value: int32): (r: Result<Guess, GuessError>)
    ensures r.Ok? <==> 1 <= value <= 100
    ensures r.Ok? ==> GuessValue(r.value) == value
    ensures r.Err? ==> r.error == OutOfRange(value)
  {
    if value < 1 || value > 100 then Err(OutOfRange(value))
    else
      var g: Guess := GuessData(value);
      Ok(g)
  }

  /** `Guess::value` */
  function GuessValue(g: Guess): (v: int32)
    ensures 1 <= v <= 100
  {
    g.value
  }

  /** Rebuilding a guess from its value gives the same guess. */
  lemma NewGuessRoundTrip(g: Guess)
    ensures NewGuess(GuessValue(g)) == Ok(g)
  {
  }

  lemma GuessExamples()
    ensures NewGuess(50).Ok? && GuessValue(NewGuess(50).value) == 50
    ensures NewGuess(200) == Err(OutOfRange(200))
  {
  }

  // ---------------------------------------------------------------------------
  // last_char_of_first_line

  /** `text.lines().next()`: `None` for the empty text, otherwise the text
      up to the first `'\n'`, without a `'\r'` directly before that `'\n'`. */
  function FirstLine(text: string): (r: Option<string>)
    ensures r.None? <==> text == []
    ensures r.Some? ==> r.value <= text && '\n' !in r.value
    ensures r.Some? ==>
              (r.value == text && '\n' !in text)
              || (r.value + "\n" <= text && (r.value == [] || r.value[|r.value| - 1] != '\r'))
              || r.value + "\r\n" <= text
  {
    if text == [] then None
    else
      var line := PrefixBefore(text, '\n');
      if |line| < |text| && line != [] && line[|line| - 1] == '\r' then Some(line[..|line| - 1])
      else Some(line)
  }

  /** `text.lines().next()?.chars().last()` */
  function LastCharOfFirstLine(text: string): (r: Option<char>)
    ensures text == [] ==> r == None
    ensures r.Some? <==> FirstLine(text).Some? && FirstLine(text).value != []
    ensures r.Some? ==> r.value == FirstLine(text).value[|FirstLine(text).value| - 1]
  {
    match FirstLine(text)
    case None => None
    case Some(line) => if line == [] then None else Some(line[|line| - 1])
  }

  /** For a first line `line` ended by `"\n"`, the result is the last
      character of `line`, unless it is a `'\r'` that belongs to the line
      ending. */
  lemma LastCharOfLine(line: string, rest: string)
    requires '\n' !in line && line != [] && line[|line| - 1] != '\r'
    ensures LastCharOfFirstLine(line + "\n" + rest) == Some(line[|line| - 1])
  {
    assert line + "\n" + rest == line + ['\n'] + rest;
    PrefixBeforeJoin(line, '\n', rest);
  }

  /** Text without a newline is its own first line. */
  lemma LastCharOfSingleLine(line: string)
    requires '\n' !in line && line != []
    ensures LastCharOfFirstLine(line) == Some(line[|line| - 1])
  {
  }

  /** `"Hello\nWorld"` gives `Some('o')` and `""` gives `None`. */
  lemma LastCharExamples()
    ensures LastCharOfFirstLine("Hello\nWorld") == Some('o')
    ensures LastCharOfFirstLine("") == None
  {
    LastCharOfLine("Hello", "World");
    assert "Hello" + "\n" + "World" == "Hello\nWorld";
  }

  /** An empty first line gives `None`. */
  lemma LastCharEmptyFirstLine(rest: string)
    ensures LastCharOfFirstLine("\n" + rest) == None
  {
    assert "\n" + rest == [] + ['\n'] + rest;
    PrefixBeforeJoin([], '\n', rest);
  }

  /** In `"ab\r\ncd"` the `'\r'` belongs to the line ending. */
  lemma LastCharCrLf()
    ensures LastCharOfFirstLine("ab\r\ncd") == Some('b')
  {
    var text := "ab\r\ncd";
    assert text == "ab\r" + ['\n'] + "cd";
    PrefixBeforeJoin("ab\r", '\n', "cd");
    var line := PrefixBefore(text, '\n');
    assert line == "ab\r" && |line| < |text|;
    assert line[..|line| - 1] == "ab";
  }

  // ---------------------------------------------------------------------------
  // Result combinators

  /** `double`; `x * 2` panics on `i32` overflow. */
  function Double(x: int32): (r: Result<int32, string>)
    requires IsInt32(x as int * 2)
    ensures r.Ok? && r.value as int == 2 * x as int
  {
    Ok(x * 2)
  }

  const OkTwo: Result<int32, string> := Ok(2)
  const Failure: Result<int32, string> := Err("error")
  const FirstFailure: Result<int32, string> := Err("エラー1")

  /** `map`, `map_err`, `and_then`, `or_else`, `unwrap_or` and
      `unwrap_or_else` as the samples call them. */
  lemma CombinatorExamples()
    ensures OkTwo.Map((x: int32) requires IsInt32(x as int * 2) => x * 2) == Ok(4)
    ensures OkTwo.AndThen(Double).AndThen(Double) == Ok(8)
    ensures Failure.MapErr(e => "変換されたエラー: " + e) == Err("変換されたエラー: error")
    ensures FirstFailure.OrElse(_ => Result<int32, string>.Ok(0)) == Ok(0)
    ensures Failure.UnwrapOr(42) == 42
    ensures Failure.UnwrapOrElse(_ => 0) == 0
  {
    assert "変換されたエラー: " + "error" == "変換されたエラー: error";
  }

  /** `map` and `map_err` keep the `Ok`/`Err` tag; `map_err` leaves an `Ok`
      value alone and `map` an `Err` error. */
  lemma MapKeepsTag<T, E, U, F>(r: Result<T, E>, f: T -> U, g: E -> F)
    ensures r.Map(f).Ok? == r.Ok? && r.MapErr(g).Ok? == r.Ok?
    ensures r.Ok? ==> r.MapErr(g) == Ok(r.value) && r.Map(f) == Ok(f(r.value))
    ensures r.Err? ==> r.Map(f) == Err(r.error) && r.MapErr(g) == Err(g(r.error))
  {
  }

  /** The chain `and_then(double).and_then(double)` quadruples an `Ok`
      whose quadruple fits in `i32`, and passes an `Err` through untouched. */
  lemma AndThenDoubleTwice(x: int32, e: string)
    requires IsInt32(x as int * 4)
    ensures Double.requires(x) && Result<int32, string>.Ok(x).AndThen(Double) == Ok(x * 2)
    ensures Double.requires(x * 2) && Result<int32, string>.Ok(x).AndThen(Double).AndThen(Double) == Ok(x * 4)
    ensures Result<int32, string>.Err(e).AndThen(Double).AndThen(Double) == Err(e)
  {
    assert IsInt32(x as int * 2);
    assert IsInt32((x * 2) as int * 2);
  }

  /** `or_else` and `unwrap_or` leave an `Ok` untouched and only consult the
      fallback on `Err`. */
  lemma FallbackLaws<T, E, F>(r: Result<T, E>, h: E -> Result<T, F>, d: T)
    ensures r.Ok? ==> r.OrElse(h) == Ok(r.value) && r.UnwrapOr(d) == r.value
    ensures r.Err? ==> r.OrElse(h) == h(r.error) && r.UnwrapOr(d) == d
  {
  }
}
