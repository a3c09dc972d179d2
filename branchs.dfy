/** The `if` expressions of the control-flow chapter, chiefly demo_2's
    divisibility report, which tests 4, then 3, then 2 with Rust's `%`. */
module Branchs {
  import opened RustStd

  const By4 := "the number is divisible by 4!"
  const By3 := "the number is divisible by 3!"
  const By2 := "the number is divisible by 2!"
  /** The last message exactly as the program prints it. */
  const ByNoneAsWritten := "the number is divisible by 4, 3, or 2!"
  /** The last message as it was evidently meant. */
  const ByNone := "the number is not divisible by 4, 3, or 2!"

  /** The report chain with a chosen final message. */
  function Report(x: i32, last: string): (msg: string)
  {
    if TruncRem(x, 4) == 0 then By4
    else if TruncRem(x, 3) == 0 then By3
    else if TruncRem(x, 2) == 0 then By2
    else last
  }

  /** `demo_2` as written: the first divisor that divides `x` wins. */
  function Demo2AsWritten(x: i32): (msg: string)
    ensures msg == By4 <==> x % 4 == 0
    ensures msg == By3 <==> x % 4 != 0 && x % 3 == 0
    ensures msg == By2 <==> x % 4 != 0 && x % 3 != 0 && x % 2 == 0
    ensures msg == ByNoneAsWritten <==> x % 4 != 0 && x % 3 != 0 && x % 2 != 0
  {
    TruncRemZero(x, 4);
    TruncRemZero(x, 3);
    TruncRemZero(x, 2);
    Report(x, ByNoneAsWritten)
  }

  /** The final message claims divisibility for a number none of 4, 3 and 2
      divides; 1 is one. */
  lemma Demo2AsWrittenMisreports()
    ensures Demo2AsWritten(1) == ByNoneAsWritten
    ensures 1 % 4 != 0 && 1 % 3 != 0 && 1 % 2 != 0
  {
  }

  /** `demo_2` with the final message negated. */
  function Demo2(x: i32): (msg: string)
    ensures msg == By4 <==> x % 4 == 0
    ensures msg == By3 <==> x % 4 != 0 && x % 3 == 0
    ensures msg == By2 <==> x % 4 != 0 && x % 3 != 0 && x % 2 == 0
    ensures msg == ByNone <==> x % 4 != 0 && x % 3 != 0 && x % 2 != 0
  {
    TruncRemZero(x, 4);
    TruncRemZero(x, 3);
    TruncRemZero(x, 2);
    Report(x, ByNone)
  }

  /** Every message of the corrected report is true of `x`; a multiple of 12
      is reported as divisible by 4 although 3 and 2 divide it too. */
  lemma Demo2Truthful(x: i32)
    ensures Demo2(x) == By4 ==> x % 4 == 0
    ensures Demo2(x) == By3 ==> x % 3 == 0
    ensures Demo2(x) == By2 ==> x % 2 == 0
    ensures Demo2(x) == ByNone ==> x % 4 != 0 && x % 3 != 0 && x % 2 != 0
    ensures Demo2(12) == By4 && Demo2(-9) == By3 && Demo2(-10) == By2
  {
  }

  /** `demo_1`: whether `x == 3`. */
  function Demo1(x: i32): (msg: string)
    ensures msg == "number was three!" <==> x == 3
  {
    if x == 3 then "number was three!" else "number wasn't three!"
  }

  /** `demo_3`: `if condition { 10 } else { 11 }`. */
  function Demo3(condition: bool): (x: i32)
    ensures x == 10 <==> condition
    ensures x == 10 || x == 11
  {
    if condition then 10 else 11
  }

  /** demo_1 runs with 3 and demo_3 with `true`. */
  lemma BranchDemos()
    ensures Demo1(3) == "number was three!" && Demo3(true) == 10
  {
  }
}
