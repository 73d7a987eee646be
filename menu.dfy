/** The interactive menu of the sample collection: it prints a banner, then
    repeatedly prompts, reads a line, trims it and dispatches on the token.
    Standard input is a sequence of read results and the printed text is a
    sequence of output events, so the loop is a function of what it reads. */
module Menu {
  import opened Text

  /** The nine sample modules, in menu order. */
  datatype Topic =
    | Basics | Ownership | StructsEnums | PatternMatching | ErrorHandling
    | TraitsGenerics | Collections | IteratorsClosures | Lifetimes

  /** The order in which "0" runs every module. */
  const AllTopics: seq<Topic> :=
    [Basics, Ownership, StructsEnums, PatternMatching, ErrorHandling,
     TraitsGenerics, Collections, IteratorsClosures, Lifetimes]

  /** The number the menu lists a topic under. */
  function MenuNumber(t: Topic): (n: nat)
    ensures 1 <= n <= 9
  {
    match t
    case Basics => 1
    case Ownership => 2
    case StructsEnums => 3
    case PatternMatching => 4
    case ErrorHandling => 5
    case TraitsGenerics => 6
    case Collections => 7
    case IteratorsClosures => 8
    case Lifetimes => 9
  }

  /** The one-character token that selects a topic. */
  function MenuKey(t: Topic): (key: string)
    ensures |key| == 1 && key[0] as int == '0' as int + MenuNumber(t)
  {
    [('0' as int + MenuNumber(t)) as char]
  }

  /** What a trimmed input line asks for. */
  datatype Command = Run(topics: seq<Topic>) | Quit | Invalid

  /** The `match` on the trimmed line. */
  function Parse(token: string): (c: Command)
    ensures c.Quit? <==> token == "q" || token == "Q"
    ensures c.Run? <==> |token| == 1 && '0' <= token[0] <= '9'
    ensures token == "0" ==> c == Run(AllTopics)
    ensures c.Run? && token != "0" ==>
              |c.topics| == 1 && token == MenuKey(c.topics[0])
  {
    if |token| != 1 then Invalid
    else match token[0]
      case '1' => Run([Basics])
      case '2' => Run([Ownership])
      case '3' => Run([StructsEnums])
      case '4' => Run([PatternMatching])
      case '5' => Run([ErrorHandling])
      case '6' => Run([TraitsGenerics])
      case '7' => Run([Collections])
      case '8' => Run([IteratorsClosures])
      case '9' => Run([Lifetimes])
      case '0' => Run(AllTopics)
      case 'q' => Quit
      case 'Q' => Quit
      case _ => Invalid
  }

  /** A topic is selected by its own key and by no other token. */
  lemma ParseSelects(token: string, t: Topic)
    ensures Parse(token) == Run([t]) <==> token == MenuKey(t)
  {
    if token == MenuKey(t) {
      match t
      case Basics =>
      case Ownership =>
      case StructsEnums =>
      case PatternMatching =>
      case ErrorHandling =>
      case TraitsGenerics =>
      case Collections =>
      case IteratorsClosures =>
      case Lifetimes =>
    }
  }

  /** "0" runs the nine modules once each, in menu order. */
  lemma AllTopicsInMenuOrder()
    ensures |AllTopics| == 9
    ensures forall i :: 0 <= i < |AllTopics| ==> MenuNumber(AllTopics[i]) == i + 1
    ensures forall t: Topic :: t in AllTopics
  {
    forall t: Topic ensures t in AllTopics {
      assert AllTopics[MenuNumber(t) - 1] == t;
    }
  }

  /** A line as `read_line` delivers it, or a failed read. */
  datatype ReadResult = Line(text: string) | Failed

  /** What the program prints, one event per `println!` group. */
  datatype Output =
    | Banner               // the title and the list of choices
    | Prompt               // "選択 (0-9, q): "
    | Action(topic: Topic) // that module's `run_all`
    | Separator            // the blank line, "---", blank line
    | Diagnostic           // the invalid-choice message
    | Farewell             // the goodbye message

  /** How the loop ends: by quitting, by the panic of `unwrap` on a failed
      read, or not yet, because the input read so far has run out. */
  datatype Outcome = Quitted | Panicked | Pending

  /** One `run_all` per topic, in order. */
  function Actions(topics: seq<Topic>): seq<Output>
  {
    seq(|topics|, i requires 0 <= i < |topics| => Action(topics[i]))
  }

  /** What one non-quitting command prints after the prompt. */
  function Respond(c: Command): (out: seq<Output>)
    requires !c.Quit?
  {
    match c
    case Run(topics) => Actions(topics) + [Separator]
    case Invalid => [Diagnostic]
  }

  /** The separator follows every action command and nothing else. */
  lemma RespondSeparator(c: Command)
    requires !c.Quit?
    ensures Separator in Respond(c) <==> c.Run?
    ensures c.Run? ==> Respond(c)[|Respond(c)| - 1] == Separator
  {
    if c.Run? {
      assert Respond(c)[|c.topics|] == Separator;
    }
  }

  /** One pass of the loop body: what it prints for one read, and how the
      loop ends there, or `Pending` when it goes round again. */
  function Step(r: ReadResult): (seq<Output>, Outcome)
  {
    match r
    case Failed => ([Prompt], Panicked)
    case Line(text) =>
      var c := Parse(Trim(text));
      if c.Quit? then ([Prompt, Farewell], Quitted)
      else ([Prompt] + Respond(c), Pending)
  }

  /** `loop` around a body that answers one read: it goes round while the
      body's outcome is `Pending` and stops at the first other outcome. */
  function Loop(body: ReadResult -> (seq<Output>, Outcome), input: seq<ReadResult>): (seq<Output>, Outcome)
  {
    if input == [] then ([], Pending)
    else
      var step := body(input[0]);
      if step.1 != Pending then step
      else
        var rest := Loop(body, input[1..]);
        (step.0 + rest.0, rest.1)
  }

  /** The menu loop, as a function of the lines read:
      the events printed after the banner and how it ends. */
  function Session(input: seq<ReadResult>): (seq<Output>, Outcome)
  {
    Loop(Step, input)
  }

  lemma StepLine(text: string, c: Command)
    requires c == Parse(Trim(text))
    ensures c.Quit? ==> Step(Line(text)) == ([Prompt, Farewell], Quitted)
    ensures !c.Quit? ==> Step(Line(text)) == ([Prompt] + Respond(c), Pending)
  {
  }

  /** The `loop` statement: run the body on each read in turn, appending
      what it prints, until it ends with an outcome other than `Pending`. */
  method RunLoop(body: ReadResult -> (seq<Output>, Outcome), input: seq<ReadResult>)
    returns (printed: seq<Output>, outcome: Outcome)
    ensures (printed, outcome) == Loop(body, input)
  {
    printed := [];
    outcome := Pending;
    var i := 0;
    while i < |input|
      invariant 0 <= i <= |input|
      invariant Loop(body, input[..i]) == (printed, Pending)
      decreases |input| - i
    {
      var step := body(input[i]);
      printed := printed + step.0;
      if step.1 != Pending {
        outcome := step.1;
        LoopEndsAt(body, input, i);
        return;
      }
      LoopGoesOn(body, input, i);
      i := i + 1;
    }
    assert input[..i] == input;
  }

  /** `main`: the banner, then the read-and-dispatch loop with `Step` as
      its body. */
  method MenuLoop(input: seq<ReadResult>) returns (outputs: seq<Output>, outcome: Outcome)
    ensures outputs == [Banner] + Session(input).0
    ensures outcome == Session(input).1
  {
    outputs := [Banner];
    var printed;
    printed, outcome := RunLoop(Step, input);
    outputs := outputs + printed;
  }

  // ---------------------------------------------------------------------------
  // Properties of the loop

  /** A read that keeps the loop going: a line whose token is not a quit. */
  predicate Continues(r: ReadResult)
  {
    r.Line? && !Parse(Trim(r.text)).Quit?
  }

  /** A read that ends the loop normally: a line whose token is "q" or "Q". */
  predicate QuitsOn(r: ReadResult)
  {
    r.Line? && Parse(Trim(r.text)).Quit?
  }

  /** The body panics on a failed read, quits on a quit token and goes round
      again on anything else; it always prompts first, and it prints the
      separator exactly for an action token. */
  lemma StepOutcome(r: ReadResult)
    ensures Step(r).1 == Pending <==> Continues(r)
    ensures Step(r).1 == Quitted <==> QuitsOn(r)
    ensures Step(r).1 == Panicked <==> r.Failed?
    ensures Step(r).0 != [] && Step(r).0[0] == Prompt
    ensures Separator in Step(r).0 <==> r.Line? && Parse(Trim(r.text)).Run?
  {
    if Continues(r) {
      var c := Parse(Trim(r.text));
      RespondSeparator(c);
      assert Step(r).0 == [Prompt] + Respond(c);
    }
  }

  /** The loop goes on exactly while every body so far went on. */
  lemma {:induction false} LoopPending(body: ReadResult -> (seq<Output>, Outcome), input: seq<ReadResult>)
    ensures Loop(body, input).1 == Pending <==>
              forall k :: 0 <= k < |input| ==> body(input[k]).1 == Pending
  {
    if input != [] {
      LoopPending(body, input[1..]);
      assert forall k :: 0 <= k < |input[1..]| ==> input[1..][k] == input[k + 1];
    }
  }

  /** The loop ends with outcome `o` exactly when some body ends with `o`
      and every body before it went on. */
  lemma {:induction false} LoopEnds(body: ReadResult -> (seq<Output>, Outcome), input: seq<ReadResult>, o: Outcome)
    requires o != Pending
    ensures Loop(body, input).1 == o <==>
              exists k :: 0 <= k < |input| && body(input[k]).1 == o
                && forall j :: 0 <= j < k ==> body(input[j]).1 == Pending
  {
    if input != [] {
      LoopEnds(body, input[1..], o);
      var tail := input[1..];
      if body(input[0]).1 == Pending {
        if Loop(body, input).1 == o {
          var k :| 0 <= k < |tail| && body(tail[k]).1 == o
            && forall j :: 0 <= j < k ==> body(tail[j]).1 == Pending;
          assert input[k + 1] == tail[k];
          assert forall j :: 0 <= j < k + 1 ==> body(input[j]).1 == Pending by {
            forall j | 0 <= j < k + 1 ensures body(input[j]).1 == Pending {
              if j > 0 {
                assert input[j] == tail[j - 1];
              }
            }
          }
        }
        if exists k :: 0 <= k < |input| && body(input[k]).1 == o
            && forall j :: 0 <= j < k ==> body(input[j]).1 == Pending
        {
          var k :| 0 <= k < |input| && body(input[k]).1 == o
            && forall j :: 0 <= j < k ==> body(input[j]).1 == Pending;
          assert k > 0;
          assert tail[k - 1] == input[k];
          assert forall j :: 0 <= j < k - 1 ==> body(tail[j]).1 == Pending by {
            forall j | 0 <= j < k - 1 ensures body(tail[j]).1 == Pending {
              assert tail[j] == input[j + 1];
            }
          }
        }
      } else {
        assert body(input[0]).1 == o ==> 0 < |input|;
      }
    }
  }

  /** Once the loop has ended, later input is never read. */
  lemma {:induction false} LoopStops(body: ReadResult -> (seq<Output>, Outcome), input: seq<ReadResult>, more: seq<ReadResult>)
    requires Loop(body, input).1 != Pending
    ensures Loop(body, input + more) == Loop(body, input)
  {
    assert (input + more)[0] == input[0];
    if body(input[0]).1 == Pending {
      assert (input + more)[1..] == input[1..] + more;
      LoopStops(body, input[1..], more);
    }
  }

  /** While it goes on, the loop answers each read on its own: the loop over
      two stretches of input prints what the two loops print, joined. */
  lemma {:induction false} LoopConcat(body: ReadResult -> (seq<Output>, Outcome), input: seq<ReadResult>, more: seq<ReadResult>)
    requires Loop(body, input).1 == Pending
    ensures Loop(body, input + more).0 == Loop(body, input).0 + Loop(body, more).0
    ensures Loop(body, input + more).1 == Loop(body, more).1
  {
    if input == [] {
      assert input + more == more;
    } else {
      assert (input + more)[0] == input[0];
      assert (input + more)[1..] == input[1..] + more;
      LoopConcat(body, input[1..], more);
    }
  }

  /** The loop over the reads so far, extended by one more read. */
  lemma LoopSnoc(body: ReadResult -> (seq<Output>, Outcome), input: seq<ReadResult>, r: ReadResult)
    requires Loop(body, input).1 == Pending
    ensures Loop(body, input + [r]) == (Loop(body, input).0 + body(r).0, body(r).1)
  {
    LoopConcat(body, input, [r]);
    assert [r][1..] == [];
    assert body(r).0 + [] == body(r).0;
  }

  /** The loop ends at read `i` when every earlier read went on and that
      one does not. */
  lemma LoopEndsAt(body: ReadResult -> (seq<Output>, Outcome), input: seq<ReadResult>, i: nat)
    requires i < |input| && Loop(body, input[..i]).1 == Pending && body(input[i]).1 != Pending
    ensures Loop(body, input) == (Loop(body, input[..i]).0 + body(input[i]).0, body(input[i]).1)
  {
    LoopSnoc(body, input[..i], input[i]);
    assert input[..i + 1] == input[..i] + [input[i]];
    assert input == input[..i + 1] + input[i + 1..];
    LoopStops(body, input[..i + 1], input[i + 1..]);
  }

  /** The loop goes round once more at read `i`. */
  lemma LoopGoesOn(body: ReadResult -> (seq<Output>, Outcome), input: seq<ReadResult>, i: nat)
    requires i < |input| && Loop(body, input[..i]).1 == Pending && body(input[i]).1 == Pending
    ensures Loop(body, input[..i + 1]) == (Loop(body, input[..i]).0 + body(input[i]).0, Pending)
  {
    LoopSnoc(body, input[..i], input[i]);
    assert input[..i + 1] == input[..i] + [input[i]];
  }

  /** The menu is still waiting exactly when no read so far failed or quit. */
  lemma SessionPending(input: seq<ReadResult>)
    ensures Session(input).1 == Pending <==> forall k :: 0 <= k < |input| ==> Continues(input[k])
  {
    LoopPending(Step, input);
    forall k | 0 <= k < |input| ensures Step(input[k]).1 == Pending <==> Continues(input[k]) {
      StepOutcome(input[k]);
    }
  }

  /** The menu quits exactly when some read is "q" or "Q" after trimming and
      every read before it kept the loop going. */
  lemma SessionQuits(input: seq<ReadResult>)
    ensures Session(input).1 == Quitted <==>
              exists k :: 0 <= k < |input| && QuitsOn(input[k])
                && forall j :: 0 <= j < k ==> Continues(input[j])
  {
    LoopEnds(Step, input, Quitted);
    forall k | 0 <= k < |input|
      ensures (Step(input[k]).1 == Quitted <==> QuitsOn(input[k]))
           && (Step(input[k]).1 == Pending <==> Continues(input[k]))
    {
      StepOutcome(input[k]);
    }
  }

  /** The menu panics exactly when some read fails and every read before it
      kept the loop going. */
  lemma SessionPanics(input: seq<ReadResult>)
    ensures Session(input).1 == Panicked <==>
              exists k :: 0 <= k < |input| && input[k].Failed?
                && forall j :: 0 <= j < k ==> Continues(input[j])
  {
    LoopEnds(Step, input, Panicked);
    forall k | 0 <= k < |input|
      ensures (Step(input[k]).1 == Panicked <==> input[k].Failed?)
           && (Step(input[k]).1 == Pending <==> Continues(input[k]))
    {
      StepOutcome(input[k]);
    }
  }

  /** A menu key surrounded by whitespace, such as the line break that
      `read_line` keeps, selects the same command. */
  lemma TrimmedKey(pre: string, key: string, post: string)
    requires AllWhitespace(pre) && AllWhitespace(post)
    requires key in {"0", "1", "2", "3", "4", "5", "6", "7", "8", "9", "q", "Q"}
    ensures Parse(Trim(pre + key + post)) == Parse(key)
  {
    TrimPadded(pre, key, post);
  }

  /** At end of input `read_line` succeeds with an empty line: the loop
      reports an invalid choice and prompts again instead of stopping. */
  lemma EndOfInputContinues(rest: seq<ReadResult>)
    ensures Session([Line("")] + rest).0 == [Prompt, Diagnostic] + Session(rest).0
    ensures Session([Line("")] + rest).1 == Session(rest).1
  {
    assert ([Line("")] + rest)[1..] == rest;
    assert Trim("") == "";
  }

  /** Any number of end-of-input reads leaves the loop running. */
  lemma {:induction false} EndOfInputNeverQuits(n: nat)
    ensures Session(seq(n, _ => Line(""))).1 == Pending
  {
    if n > 0 {
      var s := seq(n, _ => Line(""));
      assert s == [Line("")] + seq(n - 1, _ => Line(""));
      EndOfInputNeverQuits(n - 1);
      EndOfInputContinues(seq(n - 1, _ => Line("")));
    }
  }

  /** The body on some typical lines, the line break included. */
  lemma StepTopicExample()
    ensures Step(Line(" 3\n")) == ([Prompt, Action(StructsEnums), Separator], Pending)
  {
    TrimmedKey(" ", "3", "\n");
    assert " " + "3" + "\n" == " 3\n";
    StepLine(" 3\n", Run([StructsEnums]));
    assert Actions([StructsEnums]) == [Action(StructsEnums)];
    assert [Prompt] + Respond(Run([StructsEnums])) == [Prompt, Action(StructsEnums), Separator];
  }

  lemma StepInvalidExample()
    ensures Step(Line("x\n")) == ([Prompt, Diagnostic], Pending)
  {
    TrimPadded("", "x", "\n");
    assert "" + "x" + "\n" == "x\n";
    StepLine("x\n", Invalid);
    assert [Prompt] + Respond(Invalid) == [Prompt, Diagnostic];
  }

  lemma StepQuitExample()
    ensures Step(Line("Q\n")) == ([Prompt, Farewell], Quitted)
  {
    TrimmedKey("", "Q", "\n");
    assert "" + "Q" + "\n" == "Q\n";
    StepLine("Q\n", Quit);
  }

  lemma StepRunAllExample()
    ensures Step(Line("0\n")) == ([Prompt] + Actions(AllTopics) + [Separator], Pending)
  {
    TrimmedKey("", "0", "\n");
    assert "" + "0" + "\n" == "0\n";
    StepLine("0\n", Run(AllTopics));
    assert [Prompt] + Respond(Run(AllTopics)) == [Prompt] + Actions(AllTopics) + [Separator];
  }

  /** A sample session: one topic, a bad choice, then quit; whatever
      follows the quit is never read. */
  lemma SessionExample(rest: seq<ReadResult>)
    ensures Session([Line(" 3\n"), Line("x\n"), Line("Q\n")] + rest)
         == ([Prompt, Action(StructsEnums), Separator,
              Prompt, Diagnostic,
              Prompt, Farewell], Quitted)
  {
    StepTopicExample();
    StepInvalidExample();
    StepQuitExample();
    LoopThree(Step, Line(" 3\n"), Line("x\n"), Line("Q\n"), rest);
    assert [Prompt, Action(StructsEnums), Separator] + [Prompt, Diagnostic] + [Prompt, Farewell]
        == [Prompt, Action(StructsEnums), Separator, Prompt, Diagnostic, Prompt, Farewell];
  }

  /** Two reads that go on and a third that ends the loop: whatever follows
      is never read. */
  lemma LoopThree(body: ReadResult -> (seq<Output>, Outcome),
                  a: ReadResult, b: ReadResult, c: ReadResult, rest: seq<ReadResult>)
    requires body(a).1 == Pending && body(b).1 == Pending && body(c).1 != Pending
    ensures Loop(body, [a, b, c] + rest) == (body(a).0 + body(b).0 + body(c).0, body(c).1)
  {
    var input := [a, b, c] + rest;
    assert input[0] == a && input[1..] == [b, c] + rest;
    assert ([b, c] + rest)[0] == b && ([b, c] + rest)[1..] == [c] + rest;
    assert ([c] + rest)[0] == c;
    assert Loop(body, [c] + rest) == body(c);
    assert Loop(body, [b, c] + rest) == (body(b).0 + body(c).0, body(c).1);
    assert body(a).0 + (body(b).0 + body(c).0) == body(a).0 + body(b).0 + body(c).0;
  }

  /** "0" runs every module in order, then the separator; a failed read
      after it ends the program with a panic. */
  lemma RunAllExample()
    ensures Session([Line("0\n"), Failed]).0
         == [Prompt] + Actions(AllTopics) + [Separator, Prompt]
    ensures Session([Line("0\n"), Failed]).1 == Panicked
  {
    StepRunAllExample();
    assert [Line("0\n"), Failed][1..] == [Failed];
  }
}
