/** The memoising `Cacher` of the closures chapter and the workout planner
    that drives it. The expensive closure prints, sleeps two seconds and
    returns its argument; only the returned value is modelled, and a ghost
    counter records how often the closure runs. */
module Closure {
  import opened RustStd

  class Cacher {
    const calculation: u32 -> u32
    var value: Option<u32>
    /** How many times `calculation` has been run. */
    ghost var calls: nat
    /** The argument of that run, once there has been one. */
    ghost var firstArg: u32

    /** The closure has run once exactly when a value is cached, and the
        cached value is what it returned for the first argument. */
    ghost predicate Valid()
      reads this
    {
      && calls == (if value.Some? then 1 else 0)
      && (value.Some? ==> value.value == calculation(firstArg))
    }

    /** `Cacher::new`: nothing cached yet. */
    constructor (calculation: u32 -> u32)
      ensures Valid() && this.calculation == calculation && value == None && calls == 0
    {
      this.calculation := calculation;
      value := None;
      calls := 0;
      firstArg := 0;
    }

    /** `Cacher::value`: the cached value when there is one, whatever the
        argument; otherwise computes, stores and returns `calculation(arg)`. */
    method Value(arg: u32) returns (r: u32)
      requires Valid()
      modifies this`value, this`calls, this`firstArg
      ensures Valid() && calls <= 1
      ensures old(value).Some? ==> r == old(value).value && value == old(value) && calls == old(calls) && firstArg == old(firstArg)
      ensures old(value).None? ==> r == calculation(arg) && value == Some(r) && calls == old(calls) + 1 && firstArg == arg
    {
      match value {
        case Some(v) =>
          r := v;
        case None =>
          r := calculation(arg);
          value := Some(r);
          calls := calls + 1;
          firstArg := arg;
      }
    }
  }

  /** The commented-out test `call_with_different_values`: the second call
      returns the first result, so its `assert_eq!(v2, 2)` would fail. */
  method CallWithDifferentValues() returns (v1: u32, v2: u32)
    ensures v1 == 1 && v2 == 1 && v2 != 2
  {
    var c := new Cacher(a => a);
    v1 := c.Value(1);
    v2 := c.Value(2);
  }

  /** What `generate_workout` prints. */
  datatype Workout =
    | Exercises(pushups: u32, situps: u32)
    | TakeBreak
    | RunFor(minutes: u32)

  /** The closure `generate_workout` hands to its Cacher. */
  function Expensive(num: u32): (r: u32)
    ensures r == num
  {
    num
  }

  /** `generate_workout`: the plan, and how many times the expensive closure
      ran. Two calls below intensity 25 compute once; a break computes nothing. */
  method GenerateWorkout(intensity: u32, randomNumber: u32) returns (w: Workout, ghost computations: nat)
    ensures intensity < 25 ==> w == Exercises(intensity, intensity)
    ensures intensity >= 25 && randomNumber == 3 ==> w == TakeBreak
    ensures intensity >= 25 && randomNumber != 3 ==> w == RunFor(intensity)
    ensures computations == if intensity >= 25 && randomNumber == 3 then 0 else 1
  {
    var expensiveResult := new Cacher(Expensive);
    if intensity < 25 {
      var pushups := expensiveResult.Value(intensity);
      var situps := expensiveResult.Value(intensity);
      w := Exercises(pushups, situps);
    } else if randomNumber == 3 {
      w := TakeBreak;
    } else {
      var minutes := expensiveResult.Value(intensity);
      w := RunFor(minutes);
    }
    computations := expensiveResult.calls;
  }

  /** demo_1: intensity 10, random number 7. */
  method WorkoutDemo() returns (w: Workout)
    ensures w == Exercises(10, 10)
  {
    ghost var n;
    w, n := GenerateWorkout(10, 7);
  }
}
