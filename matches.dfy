/** The pattern-matching chapter: the `if let` chain that picks a background
    colour, the `while let` loop that drains a stack, and the pattern forms
    of demo_4 (literals, alternatives, ranges, guards and `@` bindings). The
    printed lines are represented by which arm runs and what it binds. */
module Matches {
  import opened RustStd
  import opened Text

  // ---------------------------------------------------------------------
  // demo_1

  datatype Background = Favorite(color: string) | Green | Purple | Orange | Blue

  /** The `if let` / `else if` / `else if let` / `else` chain. */
  function ChooseBackground(favoriteColor: Option<string>, isTuesday: bool, age: Result<u8, ParseIntError>): (b: Background)
    ensures favoriteColor.Some? <==> b.Favorite?
    ensures b.Favorite? ==> b.color == favoriteColor.value
    ensures b == Green <==> favoriteColor.None? && isTuesday
    ensures b == Purple <==> favoriteColor.None? && !isTuesday && age.Ok? && age.value > 30
    ensures b == Orange <==> favoriteColor.None? && !isTuesday && age.Ok? && age.value <= 30
    ensures b == Blue <==> favoriteColor.None? && !isTuesday && age.Err?
  {
    match favoriteColor {
      case Some(color) => Favorite(color)
      case None =>
        if isTuesday then Green
        else match age {
          case Ok(a) => if a > 30 then Purple else Orange
          case Err(_) => Blue
        }
    }
  }

  /** Why `str::parse::<u8>` failed. */
  datatype ParseIntError = Empty | InvalidDigit | PosOverflow

  predicate AllDigits(s: string)
  {
    forall i :: 0 <= i < |s| ==> '0' <= s[i] <= '9'
  }

  /** The digits `str::parse::<u8>` reads: a single leading '+' is dropped. */
  function Digits(s: string): string
  {
    if s != [] && s[0] == '+' then s[1..] else s
  }

  /** Length of the longest prefix of `d` made of decimal digits. */
  function DigitRun(d: string): (k: nat)
    ensures k <= |d|
    ensures forall j :: 0 <= j < k ==> '0' <= d[j] <= '9'
    ensures k < |d| ==> !('0' <= d[k] <= '9')
  {
    if d == [] || !('0' <= d[0] <= '9') then 0 else 1 + DigitRun(d[1..])
  }

  /** The digit loop of `u8::from_str_radix`: `acc` is the value of the
      digits before position `i`. Each step rejects a non-digit first, then
      multiplies by ten and adds the digit, failing once that leaves the byte
      range. */
  function ScanDigits(d: string, i: nat, acc: u8): Result<u8, ParseIntError>
    requires i <= |d|
    decreases |d| - i
  {
    if i == |d| then Ok(acc)
    else if !('0' <= d[i] <= '9') then Err(InvalidDigit)
    else if acc * 10 + (d[i] as int - '0' as int) > U8_MAX then Err(PosOverflow)
    else ScanDigits(d, i + 1, acc * 10 + (d[i] as int - '0' as int))
  }

  /** `str::parse::<u8>`: empty text is `Empty`; an optional '+' is dropped,
      and nothing left is `InvalidDigit`; otherwise the digits are read left to
      right, and whichever comes first wins: a value past 255 (`PosOverflow`)
      or a character that is not a digit (`InvalidDigit`). */
  function ParseU8(s: string): (r: Result<u8, ParseIntError>)
    ensures r == Err(Empty) <==> s == []
    ensures r.Ok? <==> s != [] && Digits(s) != [] && AllDigits(Digits(s)) && ParseNat(Digits(s)) <= U8_MAX
    ensures r.Ok? ==> AllDigits(Digits(s)) && r.value == ParseNat(Digits(s))
    ensures r == Err(PosOverflow) <==> s != [] && ParseNat(Digits(s)[..DigitRun(Digits(s))]) > U8_MAX
    ensures r == Err(InvalidDigit) <==>
      s != [] && (Digits(s) == [] || (DigitRun(Digits(s)) < |Digits(s)| && ParseNat(Digits(s)[..DigitRun(Digits(s))]) <= U8_MAX))
  {
    if s == [] then Err(Empty)
    else
      var d := Digits(s);
      if d == [] then Err(InvalidDigit)
      else
        ScanDigitsResult(d, 0, 0);
        assert AllDigits(d) <==> DigitRun(d) == |d|;
        assert d[..|d|] == d;
        ScanDigits(d, 0, 0)
  }

  /** The scan's verdict depends only on the longest run of leading digits:
      past 255 is an overflow, otherwise a character after the run is an
      invalid digit, otherwise the run's value is the result. */
  lemma {:induction false} ScanDigitsResult(d: string, i: nat, acc: u8)
    requires i <= |d|
    requires forall j :: 0 <= j < i ==> '0' <= d[j] <= '9'
    requires acc == ParseNat(d[..i])
    ensures i <= DigitRun(d)
    ensures ScanDigits(d, i, acc) ==
      if ParseNat(d[..DigitRun(d)]) > U8_MAX then Err(PosOverflow)
      else if DigitRun(d) < |d| then Err(InvalidDigit)
      else Ok(ParseNat(d[..DigitRun(d)]))
    decreases |d| - i
  {
    var k := DigitRun(d);
    if i < |d| && '0' <= d[i] <= '9' {
      var n := acc * 10 + (d[i] as int - '0' as int);
      ParseNatStep(d, i);
      if n > U8_MAX {
        PrefixValueGrows(d, i + 1, k);
      } else {
        ScanDigitsResult(d, i + 1, n);
      }
    }
  }

  /** One more digit: ten times the value so far, plus that digit. */
  lemma ParseNatStep(d: string, i: nat)
    requires i < |d|
    requires forall j :: 0 <= j <= i ==> '0' <= d[j] <= '9'
    ensures ParseNat(d[..i + 1]) == ParseNat(d[..i]) * 10 + (d[i] as int - '0' as int)
  {
    assert d[..i + 1][..i] == d[..i];
  }

  /** Reading more leading digits never gives a smaller value. */
  lemma {:induction false} PrefixValueGrows(d: string, a: nat, b: nat)
    requires a <= b <= |d|
    requires forall j :: 0 <= j < b ==> '0' <= d[j] <= '9'
    ensures ParseNat(d[..a]) <= ParseNat(d[..b])
    decreases b - a
  {
    if a < b {
      PrefixValueGrows(d, a, b - 1);
      assert d[..b][..b - 1] == d[..b - 1];
    }
  }

  /** Digits read back as the number they show, for the byte range. */
  lemma ParseU8Show(n: u8)
    ensures ParseU8(ShowNat(n)) == Ok(n)
  {
    var s := ShowNat(n);
    assert Digits(s) == s;
    ParseShowNat(n);
  }

  /** demo_1 with its inputs: the favourite colour "Yellow" wins, even though
      "34" parses to an age above 30. */
  lemma BackgroundDemo()
    ensures ParseU8("34") == Ok(34)
    ensures ChooseBackground(Some("Yellow"), false, ParseU8("34")) == Favorite("Yellow")
  {
    assert ShowNat(34) == "34";
    ParseU8Show(34);
  }

  /** Which error wins: an overflow met before a stray character, a stray
      character met before any overflow, and a lone sign. */
  lemma ParseU8Errors()
    ensures ParseU8("999a") == Err(PosOverflow)
    ensures ParseU8("25a") == Err(InvalidDigit)
    ensures ParseU8("+") == Err(InvalidDigit)
  {
    assert ScanDigits("999a", 2, 99) == Err(PosOverflow);
    assert ScanDigits("999a", 0, 0) == ScanDigits("999a", 1, 9) == ScanDigits("999a", 2, 99);
    assert ScanDigits("25a", 2, 25) == Err(InvalidDigit);
    assert ScanDigits("25a", 0, 0) == ScanDigits("25a", 1, 2) == ScanDigits("25a", 2, 25);
  }

  // ---------------------------------------------------------------------
  // demo_2

  function Reversed(s: seq<int>): (r: seq<int>)
    ensures |r| == |s|
  {
    if s == [] then [] else Reversed(s[1..]) + [s[0]]
  }

  /** The k-th element of the reversal is the k-th from the end. */
  lemma {:induction false} ReversedAt(s: seq<int>, k: nat)
    requires k < |s|
    ensures Reversed(s)[k] == s[|s| - 1 - k]
  {
    if k < |s| - 1 {
      ReversedAt(s[1..], k);
    }
  }

  /** Reversal taken from the back: the last element leads. */
  lemma {:induction false} ReversedSnoc(s: seq<int>, x: int)
    ensures Reversed(s + [x]) == [x] + Reversed(s)
  {
    if s != [] {
      assert (s + [x])[1..] == s[1..] + [x];
      ReversedSnoc(s[1..], x);
    } else {
      assert s + [x] == [x];
    }
  }

  /** The `while let Some(top) = stack.pop()` loop: what it prints, and the
      stack it leaves. */
  method DrainStack(stack0: seq<int>) returns (printed: seq<int>, stack: seq<int>)
    ensures printed == Reversed(stack0)
    ensures stack == []
  {
    stack := stack0;
    printed := [];
    while stack != []
      invariant printed + Reversed(stack) == Reversed(stack0)
      decreases |stack|
    {
      var top := stack[|stack| - 1];
      var rest := stack[..|stack| - 1];
      assert stack == rest + [top];
      ReversedSnoc(rest, top);
      assert printed + [top] + Reversed(rest) == printed + Reversed(stack);
      printed := printed + [top];
      stack := rest;
    }
    assert printed + [] == printed;
  }

  /** demo_2: push 1, 2, 3, then drain: 3, 2, 1 are printed. */
  method DrainDemo() returns (printed: seq<int>, stack: seq<int>)
    ensures printed == [3, 2, 1] && stack == []
  {
    stack := [];
    stack := stack + [1];
    stack := stack + [2];
    stack := stack + [3];
    printed, stack := DrainStack(stack);
    ReversedAt([1, 2, 3], 0);
    ReversedAt([1, 2, 3], 1);
    ReversedAt([1, 2, 3], 2);
  }

  // ---------------------------------------------------------------------
  // demo_4

  /** `Some(50)`, then `Some(y)` binding a new `y`, then `_`. */
  datatype NamedArm = Got50 | Matched(y: int) | DefaultCase

  function MatchNamed(x: Option<i32>): (a: NamedArm)
    ensures a == Got50 <==> x == Some(50)
    ensures a.Matched? <==> x.Some? && x.value != 50
    ensures a.Matched? ==> a.y == x.value
    ensures a == DefaultCase <==> x.None?
  {
    match x {
      case Some(50) => Got50
      case Some(y) => Matched(y)
      case _ => DefaultCase
    }
  }

  /** `Some(5)` passes over `Some(50)` and binds the inner `y` to 5; the
      outer `y`, declared as 10, is untouched by the match. */
  function NamedVariableDemo(): (r: (NamedArm, int))
  {
    var x := Some(5);
    var y := 10;
    (MatchNamed(x), y)
  }

  lemma NamedVariableDemoResult()
    ensures NamedVariableDemo() == (Matched(5), 10)
  {
  }

  /** `1 | 2`, then `3`, then `_`. */
  datatype SmallArm = OneOrTwo | Three | Anything

  function MatchSmall(x: i32): (a: SmallArm)
    ensures a == OneOrTwo <==> x == 1 || x == 2
    ensures a == Three <==> x == 3
  {
    match x {
      case 1 => OneOrTwo
      case 2 => OneOrTwo
      case 3 => Three
      case _ => Anything
    }
  }

  /** `1..=5`, then `_`: whether the "one through five" arm runs. */
  function MatchRange(x: i32): (inRange: bool)
    ensures inRange <==> 1 <= x && x <= 5
  {
    1 <= x <= 5
  }

  /** `'a'..='j'`, then `'k'..='z'`, then `_`. */
  datatype LetterArm = EarlyLetter | LateLetter | OtherChar

  function MatchLetter(c: char): (a: LetterArm)
    ensures a == EarlyLetter <==> 'a' <= c && c <= 'j'
    ensures a == LateLetter <==> 'k' <= c && c <= 'z'
    ensures a == OtherChar <==> !('a' <= c && c <= 'z')
  {
    if 'a' <= c <= 'j' then EarlyLetter
    else if 'k' <= c <= 'z' then LateLetter
    else OtherChar
  }

  /** `Some(x) if x < 5`, then `Some(x)`, then `None`. */
  datatype GuardArm = LessThanFive(x: int) | Other(x: int) | NoNumber

  function MatchGuard(num: Option<i32>): (a: GuardArm)
    ensures a.LessThanFive? <==> num.Some? && num.value < 5
    ensures a.Other? <==> num.Some? && num.value >= 5
    ensures num.Some? ==> a.x == num.value
    ensures a == NoNumber <==> num.None?
  {
    match num {
      case Some(x) => if x < 5 then LessThanFive(x) else Other(x)
      case None => NoNumber
    }
  }

  /** `Message::Hello { id }` with `id_variable @ 3..=7`, then
      `id_variable @ 10..=12`, then `{ id }`. */
  datatype Message = Hello(id: i32)

  datatype IdArm = Range3To7(idVariable: int) | Range10To12(idVariable: int) | OtherId(id: int)

  function MatchId(msg: Message): (a: IdArm)
    ensures a.Range3To7? <==> 3 <= msg.id && msg.id <= 7
    ensures a.Range10To12? <==> 10 <= msg.id && msg.id <= 12
    ensures a.OtherId? <==> !(3 <= msg.id && msg.id <= 7) && !(10 <= msg.id && msg.id <= 12)
    ensures a.Range3To7? || a.Range10To12? ==> a.idVariable == msg.id
    ensures a.OtherId? ==> a.id == msg.id
  {
    var Hello(id) := msg;
    if 3 <= id <= 7 then Range3To7(id)
    else if 10 <= id <= 12 then Range10To12(id)
    else OtherId(id)
  }

  datatype Point = Point(x: i32, y: i32)

  /** demo_4's values: 1 is "one or two", 5 is in `1..=5`, 'c' is an early
      letter, `Point { x: 0, y: 7 }` destructures to 0 and 7, the origin's
      `Point { x, .. }` binds x to 0, `Some(4)` takes the guarded arm and id 11
      the `10..=12` arm. */
  lemma PatternDemo()
    ensures MatchSmall(1) == OneOrTwo
    ensures MatchRange(5)
    ensures MatchLetter('c') == EarlyLetter
    ensures var Point(a, b) := Point(0, 7); a == 0 && b == 7
    ensures var Point(x, _) := Point(0, 0); x == 0
    ensures MatchGuard(Some(4)) == LessThanFive(4)
    ensures MatchId(Hello(11)) == Range10To12(11)
  {
  }
}
