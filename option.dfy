/** The enums chapter: coin values, with and without the state of a quarter,
    and `plus_one` on an `Option<i32>`. */
module OptionDemo {
  import opened RustStd

  datatype Coin = Penny | Nickel | Dime | Quarter

  /** `value_in_cents`. */
  function ValueInCents(coin: Coin): (v: u32)
    ensures v == 1 || v == 5 || v == 10 || v == 25
    ensures coin == Penny <==> v == 1
    ensures coin == Nickel <==> v == 5
    ensures coin == Dime <==> v == 10
    ensures coin == Quarter <==> v == 25
  {
    match coin
    case Penny => 1
    case Nickel => 5
    case Dime => 10
    case Quarter => 25
  }

  /** Different coins are worth different amounts. */
  lemma ValueInCentsInjective(a: Coin, b: Coin)
    requires ValueInCents(a) == ValueInCents(b)
    ensures a == b
  {
  }

  datatype UsState = Alabama | Alaska

  datatype Coins = PennyOf | NickelOf | DimeOf | QuarterOf(state: UsState)

  /** `value_in_cents_1`; the quarter arm also prints its state. */
  function ValueInCents1(coin: Coins): (v: u32)
    ensures coin.QuarterOf? ==> v == 25
  {
    match coin
    case PennyOf => 1
    case NickelOf => 5
    case DimeOf => 10
    case QuarterOf(_) => 25
  }

  /** The coin without its state. */
  function Plain(coin: Coins): Coin
  {
    match coin
    case PennyOf => Penny
    case NickelOf => Nickel
    case DimeOf => Dime
    case QuarterOf(_) => Quarter
  }

  /** Both valuations agree: the state of a quarter does not change its value. */
  lemma ValuationsAgree(coin: Coins)
    ensures ValueInCents1(coin) == ValueInCents(Plain(coin))
  {
  }

  /** demo_1 and demo_2: a penny is worth 1, an Alabama quarter 25. */
  lemma CoinDemos()
    ensures ValueInCents(Penny) == 1 && ValueInCents1(QuarterOf(Alabama)) == 25
  {
  }

  /** `plus_one`: `None` stays `None`; the increment must not overflow. */
  function PlusOne(x: Option<i32>): (r: Option<i32>)
    requires x.Some? ==> x.value < I32_MAX
    ensures r.None? <==> x.None?
    ensures r.Some? ==> r.value - 1 == x.value
  {
    match x
    case None => None
    case Some(i) => Some(i + 1)
  }

  /** demo_3: `plus_one(Some(5))` and `plus_one(None)`. */
  lemma PlusOneDemo()
    ensures PlusOne(Some(5)) == Some(6) && PlusOne(None) == None
  {
  }
}
