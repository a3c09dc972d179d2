/** The advanced-functions chapter: function pointers passed to `do_twice`
    and to `map`, tuple-variant constructors used as functions, and a boxed
    closure returned from a function. */
module AdvancedFunction {
  import opened RustStd
  import opened Text

  /** `add_one`, which must not overflow. */
  function AddOne(x: i32): (r: i32)
    requires x < I32_MAX
    ensures r > x && r - x == 1
  {
    x + 1
  }

  /** `do_twice`: `f(arg) + f(arg)`; `f` must accept `arg` and the sum fit. */
  function DoTwice(f: i32 --> i32, arg: i32): (r: i32)
    requires f.requires(arg)
    requires I32_MIN <= 2 * f(arg) <= I32_MAX
    ensures r == 2 * f(arg)
  {
    f(arg) + f(arg)
  }

  /** demo_1: `do_twice(add_one, 5)`. */
  lemma DoTwiceDemo()
    ensures DoTwice(AddOne, 5) == 12
  {
  }

  /** `iter().map(|i| i.to_string()).collect()` and, the same thing,
      `map(ToString::to_string)`. */
  function MapToString(v: seq<i32>): (r: seq<string>)
    ensures |r| == |v|
    ensures forall i :: 0 <= i < |v| ==> r[i] == ShowInt(v[i])
  {
    if v == [] then [] else [ShowInt(v[0])] + MapToString(v[1..])
  }

  /** The strings can be read back as the list they came from. */
  lemma MapToStringReadBack(v: seq<i32>)
    ensures forall i :: 0 <= i < |v| ==> ParseInt(MapToString(v)[i]) == v[i]
  {
    forall i | 0 <= i < |v|
      ensures ParseInt(MapToString(v)[i]) == v[i]
    {
      ParseShowInt(v[i]);
    }
  }

  /** demo_1: `[1, 2, 3]` becomes `["1", "2", "3"]`. */
  lemma MapToStringDemo()
    ensures MapToString([1, 2, 3]) == ["1", "2", "3"]
  {
    assert ShowInt(1) == "1" && ShowInt(2) == "2" && ShowInt(3) == "3";
  }

  datatype Status = Value(n: u32) | Stop

  /** `(0u32..n).map(Status::Value).collect()`. */
  function StatusRange(n: nat): (r: seq<Status>)
    requires n <= U32_MAX + 1
    ensures |r| == n
    ensures forall i :: 0 <= i < n ==> r[i] == Value(i)
  {
    if n == 0 then [] else StatusRange(n - 1) + [Value(n - 1)]
  }

  /** demo_1's `0u32..20`: Value(0) first, Value(19) last, no `Stop`. */
  lemma StatusRangeDemo()
    ensures |StatusRange(20)| == 20
    ensures StatusRange(20)[0] == Value(0) && StatusRange(20)[19] == Value(19)
    ensures forall i :: 0 <= i < 20 ==> !StatusRange(20)[i].Stop?
  {
  }

  /** `returns_closure`: the boxed `|x| x + 1`. */
  function ReturnsClosure(): (f: i32 --> i32)
    ensures forall x: i32 :: x < I32_MAX ==> f.requires(x) && f(x) == x + 1
  {
    (x: i32) requires x < I32_MAX => (x + 1) as i32
  }

  /** The returned closure adds one. */
  lemma ReturnsClosureAddsOne(x: i32)
    requires x < I32_MAX
    ensures ReturnsClosure().requires(x) && ReturnsClosure()(x) == x + 1
  {
  }
}
