/** The loops of the control-flow chapter: `loop` with a value-carrying
    `break`, a `while` countdown, and `for` over an array and a range,
    forwards and reversed. Each method returns what the loop prints. */
module LoopStructure {

  /** `demo_1`: counts `index` up from 0 and breaks with `index * 2` at 100. */
  method LoopWithBreak() returns (x: int, index: int)
    ensures x == 200 && index == 100
  {
    index := 0;
    while true
      invariant 0 <= index <= 100
      decreases 100 - index
    {
      if index == 100 {
        x := index * 2;
        return;
      }
      index := index + 1;
    }
  }

  /** `demo_2`, from any start: prints start, start - 1, ..., 1 and leaves
      `index` at 0. */
  method Countdown(start: nat) returns (printed: seq<int>, index: int)
    ensures |printed| == start
    ensures forall k :: 0 <= k < start ==> printed[k] == start - k
    ensures index == 0
  {
    index := start;
    printed := [];
    while index > 0
      invariant 0 <= index <= start
      invariant |printed| == start - index
      invariant forall k :: 0 <= k < |printed| ==> printed[k] == start - k
    {
      printed := printed + [index];
      index := index - 1;
    }
  }

  /** `demo_2` itself starts at 10. */
  method CountdownDemo() returns (printed: seq<int>, index: int)
    ensures printed == [10, 9, 8, 7, 6, 5, 4, 3, 2, 1] && index == 0
  {
    printed, index := Countdown(10);
  }

  /** `for number in arr.iter()`: the elements in order. */
  method ArrayLoop(arr: array<int>) returns (printed: seq<int>)
    ensures printed == arr[..]
  {
    printed := [];
    for i := 0 to arr.Length
      invariant printed == arr[..i]
    {
      printed := printed + [arr[i]];
    }
  }

  /** `for number in (lo..hi)`: lo up to hi - 1. */
  method RangeLoop(lo: int, hi: int) returns (printed: seq<int>)
    requires lo <= hi
    ensures |printed| == hi - lo
    ensures forall k :: 0 <= k < |printed| ==> printed[k] == lo + k
  {
    printed := [];
    var number := lo;
    while number < hi
      invariant lo <= number <= hi
      invariant |printed| == number - lo
      invariant forall k :: 0 <= k < |printed| ==> printed[k] == lo + k
    {
      printed := printed + [number];
      number := number + 1;
    }
  }

  /** `for number in (lo..hi).rev()`: hi - 1 down to lo. */
  method RevRangeLoop(lo: int, hi: int) returns (printed: seq<int>)
    requires lo <= hi
    ensures |printed| == hi - lo
    ensures forall k :: 0 <= k < |printed| ==> printed[k] == hi - 1 - k
  {
    printed := [];
    var number := hi;
    while number > lo
      invariant lo <= number <= hi
      invariant |printed| == hi - number
      invariant forall k :: 0 <= k < |printed| ==> printed[k] == hi - 1 - k
    {
      number := number - 1;
      printed := printed + [number];
    }
  }

  /** `demo_3`: the array `[1, 2, 3, 4, 5]`, then `1..10`, then `(1..10).rev()`. */
  method ForDemo() returns (fromArray: seq<int>, forwards: seq<int>, backwards: seq<int>)
    ensures fromArray == [1, 2, 3, 4, 5]
    ensures forwards == [1, 2, 3, 4, 5, 6, 7, 8, 9]
    ensures backwards == [9, 8, 7, 6, 5, 4, 3, 2, 1]
  {
    var arr := new int[5] [1, 2, 3, 4, 5];
    fromArray := ArrayLoop(arr);
    forwards := RangeLoop(1, 10);
    backwards := RevRangeLoop(1, 10);
  }
}
