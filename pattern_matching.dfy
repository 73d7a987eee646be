/** The pattern-matching samples: both `value_in_cents`, `plus_one`, the
    `while let` stack drain, the setting update, match guards, `@` bindings
    and the range and struct classifiers. */
module PatternMatching {
  import opened Ints
  import opened Wrappers
  import opened Seqs
  import opened Collections

  // ---------------------------------------------------------------------------
  // Coins

  datatype Coin = Penny | Nickel | Dime | Quarter

  /** `value_in_cents` of the basic match. */
  function ValueInCents(coin: Coin): (cents: uint32)
    ensures cents in {1, 5, 10, 25}
  {
    match coin
    case Penny => 1
    case Nickel => 5
    case Dime => 10
    case Quarter => 25
  }

  /** The coin worth `cents`, if any. */
  function CoinOfCents(cents: uint32): (coin: Option<Coin>)
  {
    if cents == 1 then Some(Coin.Penny)
    else if cents == 5 then Some(Coin.Nickel)
    else if cents == 10 then Some(Coin.Dime)
    else if cents == 25 then Some(Coin.Quarter)
    else None
  }

  /** A coin is determined by its value: `CoinOfCents` inverts `ValueInCents`. */
  lemma CoinOfCentsInverts(coin: Coin, cents: uint32)
    ensures CoinOfCents(ValueInCents(coin)) == Some(coin)
    ensures CoinOfCents(cents).Some? ==> ValueInCents(CoinOfCents(cents).value) == cents
    ensures CoinOfCents(cents).None? <==> cents !in {1, 5, 10, 25}
  {
  }

  datatype UsState = Alabama | Alaska | California

  datatype StateCoin = Penny | Nickel | Dime | Quarter(state: UsState)

  /** `value_in_cents` of the binding sample. */
  function StateCoinValue(coin: StateCoin): (cents: uint32)
  {
    match coin
    case Penny => 1
    case Nickel => 5
    case Dime => 10
    case Quarter(_) => 25
  }

  function Plain(coin: StateCoin): Coin
  {
    match coin
    case Penny => Coin.Penny
    case Nickel => Coin.Nickel
    case Dime => Coin.Dime
    case Quarter(_) => Coin.Quarter
  }

  /** Both `value_in_cents` agree, so a quarter is 25 cents from any state. */
  lemma StateCoinValueAgrees(coin: StateCoin, s: UsState, t: UsState)
    ensures StateCoinValue(coin) == ValueInCents(Plain(coin))
    ensures StateCoinValue(StateCoin.Quarter(s)) == StateCoinValue(StateCoin.Quarter(t)) == 25
  {
  }

  // ---------------------------------------------------------------------------
  // plus_one

  /** `plus_one`; `i + 1` panics on `i32` overflow. */
  function PlusOne(x: Option<int32>): (r: Option<int32>)
    requires x.Some? ==> x.value as int < INT32_MAX
    ensures r.Some? <==> x.Some?
    ensures r.Some? ==> r.value as int == x.value as int + 1
  {
    match x
    case None => None
    case Some(i) => Some(i + 1)
  }

  lemma PlusOneExamples()
    ensures PlusOne(Some(5)) == Some(6) && PlusOne(None) == None
  {
  }

  // ---------------------------------------------------------------------------
  // while let Some(top) = stack.pop()

  /** Pops until `pop` returns `None`: the items come out last-in first-out
      and the stack ends empty. */
  method PopAll(stack: Vector) returns (popped: seq<int32>)
    modifies stack
    ensures popped == Reverse(old(stack.elements))
    ensures stack.elements == []
  {
    popped := [];
    var top := stack.Pop();
    if top.Some? {
      assert old(stack.elements) == stack.elements + [top.value];
      ReverseSnoc(stack.elements, top.value);
    }
    while top.Some?
      invariant top.None? ==> stack.elements == []
      invariant popped + (if top.Some? then [top.value] else []) + Reverse(stack.elements)
        == Reverse(old(stack.elements))
      decreases |stack.elements|, top.Some?
    {
      popped := popped + [top.value];
      ghost var before := stack.elements;
      top := stack.Pop();
      if top.Some? {
        assert before == stack.elements + [top.value];
        ReverseSnoc(stack.elements, top.value);
      }
    }
  }

  /** Pushing 1, 2, 3 and draining yields 3, 2, 1. */
  method WhileLetDemo() returns (popped: seq<int32>, left: seq<int32>)
    ensures popped == [3, 2, 1] && left == []
  {
    var stack := new Vector.FromSeq([]);
    stack.Push(1);
    stack.Push(2);
    stack.Push(3);
    popped := PopAll(stack);
    left := stack.elements;
    var pushed: seq<int32> := [1, 2, 3];
    assert pushed == [1, 2] + [3] && [1, 2] == [1] + [2] && [1] == [] + [1];
    ReverseSnoc([1, 2], 3);
    ReverseSnoc([1], 2);
    ReverseSnoc([], 1);
  }

  // ---------------------------------------------------------------------------
  // Setting update: `match (setting, new) { (Some(_), Some(_)) => .., _ => setting = new }`

  function UpdateSetting(setting: Option<int32>, newSetting: Option<int32>): (r: Option<int32>)
    ensures setting.Some? && newSetting.Some? ==> r == setting
    ensures setting.None? || newSetting.None? ==> r == newSetting
  {
    match (setting, newSetting)
    case (Some(_), Some(_)) => setting
    case _ => newSetting
  }

  /** The update never overwrites a present value with another one, and
      applying it twice is applying it once. */
  lemma UpdateSettingLaws(setting: Option<int32>, newSetting: Option<int32>)
    ensures UpdateSetting(UpdateSetting(setting, newSetting), newSetting) == UpdateSetting(setting, newSetting)
    ensures setting.Some? ==> UpdateSetting(setting, newSetting) in {setting, None}
    ensures UpdateSetting(setting, newSetting).Some? ==>
      UpdateSetting(setting, newSetting) == setting || setting.None?
  {
  }

  lemma UpdateSettingExample()
    ensures UpdateSetting(Some(5), Some(10)) == Some(5)
    ensures UpdateSetting(None, Some(10)) == Some(10)
    ensures UpdateSetting(Some(5), None) == None
  {
  }

  // ---------------------------------------------------------------------------
  // Match guards

  datatype ParityArm = EvenArm(x: int32) | OddArm(x: int32) | NoArm

  /** `Some(x) if x % 2 == 0 => .., Some(x) => .., None => ()` */
  function ParityGuard(num: Option<int32>): (arm: ParityArm)
    ensures num.None? <==> arm.NoArm?
    ensures arm.EvenArm? <==> num.Some? && num.value % 2 == 0
    ensures !arm.NoArm? ==> arm.x == num.value
  {
    match num
    case Some(x) => if x % 2 == 0 then EvenArm(x) else OddArm(x)
    case None => NoArm
  }

  /** `4 | 5 | 6 if y => "yes", _ => "no"`: the guard covers all three
      alternatives. */
  function AlternationGuard(x: int32, y: bool): (r: string)
    ensures r == "yes" <==> (x == 4 || x == 5 || x == 6) && y
    ensures r == "yes" || r == "no"
  {
    if (x == 4 || x == 5 || x == 6) && y then "yes" else "no"
  }

  lemma GuardExamples()
    ensures ParityGuard(Some(4)) == EvenArm(4)
    ensures AlternationGuard(4, false) == "no"
  {
  }

  // ---------------------------------------------------------------------------
  // `@` bindings

  datatype IdArm = BoundInRange(idVariable: int32) | OtherRange | OtherId(id: int32)

  /** `id_variable @ 3..=7`, then `10..=12`, then any `id`, tried in order. */
  function ClassifyId(id: int32): (arm: IdArm)
    ensures arm.BoundInRange? <==> 3 <= id <= 7
    ensures arm.OtherRange? <==> 10 <= id <= 12
    ensures arm.BoundInRange? ==> arm.idVariable == id
    ensures arm.OtherId? ==> arm.id == id
  {
    if 3 <= id <= 7 then BoundInRange(id)
    else if 10 <= id <= 12 then OtherRange
    else OtherId(id)
  }

  lemma ClassifyIdExample()
    ensures ClassifyId(5) == BoundInRange(5)
    ensures ClassifyId(11) == OtherRange && ClassifyId(8) == OtherId(8)
  {
  }

  // ---------------------------------------------------------------------------
  // Struct and range classifiers

  datatype Point = Point(x: int32, y: int32)

  datatype Placement = OnXAxis(x: int32) | OnYAxis(y: int32) | Elsewhere(x: int32, y: int32)

  /** `Point { x, y: 0 }`, then `Point { x: 0, y }`, then `Point { x, y }`. */
  function Place(p: Point): (r: Placement)
    ensures r.OnXAxis? <==> p.y == 0
    ensures r.OnYAxis? <==> p.y != 0 && p.x == 0
    ensures r == OnXAxis(p.x) || r == OnYAxis(p.y) || r == Elsewhere(p.x, p.y)
  {
    match p
    case Point(x, 0) => OnXAxis(x)
    case Point(0, y) => OnYAxis(y)
    case Point(x, y) => Elsewhere(x, y)
  }

  /** The origin takes the first arm; `Point { x: 0, y: 7 }` is on the y axis. */
  lemma PlaceExamples()
    ensures Place(Point(0, 0)) == OnXAxis(0)
    ensures Place(Point(0, 7)) == OnYAxis(7)
  {
  }

  /** `1..=5 => "one through five", _ => "something else"` */
  function OneThroughFive(x: int32): (r: bool)
    ensures r <==> 1 <= x <= 5
  {
    match x
    case 1 => true
    case 2 => true
    case 3 => true
    case 4 => true
    case 5 => true
    case _ => false
  }

  datatype LetterRange = EarlyLetter | LateLetter | NotALetter

  /** `'a'..='j'`, then `'k'..='z'`, then anything. */
  function ClassifyLetter(c: char): (r: LetterRange)
    ensures r.EarlyLetter? <==> 'a' <= c <= 'j'
    ensures r.LateLetter? <==> 'k' <= c <= 'z'
  {
    if 'a' <= c <= 'j' then EarlyLetter
    else if 'k' <= c <= 'z' then LateLetter
    else NotALetter
  }

  datatype DiceAction = GetHat | LoseHat | MoveBy(spaces: int32)

  /** `3 => .., 7 => .., other => ..` */
  function Dice(roll: int32): (r: DiceAction)
    ensures r.GetHat? <==> roll == 3
    ensures r.LoseHat? <==> roll == 7
    ensures r.MoveBy? ==> r.spaces == roll
  {
    match roll
    case 3 => GetHat
    case 7 => LoseHat
    case other => MoveBy(other)
  }

  lemma ClassifierExamples()
    ensures OneThroughFive(5) && ClassifyLetter('c') == EarlyLetter && Dice(9) == MoveBy(9)
  {
  }
}
