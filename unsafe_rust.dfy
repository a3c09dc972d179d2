/** The unsafe-Rust chapter: writing through a raw pointer, the hand-written
    `split_at_mut`, and the mutable global `COUNTER`. */
module UnsafeRust {
  import opened RustStd

  /** The place `num` that both raw pointers of demo_1 point to. */
  class Cell {
    var value: i32

    constructor (value: i32)
      ensures this.value == value
    {
      this.value := value;
    }
  }

  /** demo_1: `r1` and `r2` alias `num`; reading `*r1` gives 5, and after
      `*r2 = 10` both read 10. */
  method RawPointerDemo() returns (r1Before: i32, r2After: i32, r1After: i32)
    ensures r1Before == 5 && r2After == 10 && r1After == 10
  {
    var num := new Cell(5);
    var r1 := num;
    var r2 := num;
    r1Before := r1.value;
    r2.value := 10;
    r2After := r2.value;
    r1After := r1.value;
  }

  /** The message of the failing `assert!(mid <= len)`. */
  const SplitPanic := "assertion failed: mid <= len"

  /** `split_at_mut`: the slice before `mid` and the slice from `mid` on; a
      `mid` beyond the end panics, which is the `Err` here. */
  function SplitAtMut(slice: seq<i32>, mid: usize): (r: Result<(seq<i32>, seq<i32>), string>)
    ensures r.Err? <==> mid > |slice|
    ensures r.Err? ==> r.error == SplitPanic
    ensures r.Ok? ==> |r.value.0| == mid && |r.value.1| == |slice| - mid
    ensures r.Ok? ==> r.value.0 + r.value.1 == slice
  {
    if mid <= |slice| then Ok((slice[..mid], slice[mid..])) else Err(SplitPanic)
  }

  /** The halves are exactly the pieces of the slice, element for element. */
  lemma SplitAtMutElements(slice: seq<i32>, mid: usize)
    requires mid <= |slice|
    ensures forall i :: 0 <= i < mid ==> SplitAtMut(slice, mid).value.0[i] == slice[i]
    ensures forall i :: mid <= i < |slice| ==> SplitAtMut(slice, mid).value.1[i - mid] == slice[i]
  {
    var (a, b) := SplitAtMut(slice, mid).value;
    assert a + b == slice;
    forall i | mid <= i < |slice|
      ensures b[i - mid] == slice[i]
    {
      assert (a + b)[i] == b[i - mid];
    }
  }

  /** demo_2: `[1, 2, 3, 4, 5, 6]` split at 3. */
  lemma SplitAtMutDemo()
    ensures SplitAtMut([1, 2, 3, 4, 5, 6], 3) == Ok(([1, 2, 3], [4, 5, 6]))
  {
    assert [1, 2, 3, 4, 5, 6][..3] == [1, 2, 3];
    assert [1, 2, 3, 4, 5, 6][3..] == [4, 5, 6];
  }

  /** The program's globals: `static mut COUNTER: u32 = 0`. */
  class Statics {
    var counter: u32

    constructor ()
      ensures counter == 0
    {
      counter := 0;
    }

    /** `add_to_count`: `COUNTER += inc`, which must not overflow. */
    method AddToCount(inc: u32)
      requires counter + inc <= U32_MAX
      modifies this
      ensures counter == old(counter) + inc
    {
      counter := counter + inc;
    }
  }

  /** demo_4: starting from 0, `add_to_count(3)` leaves 3. */
  method CounterDemo() returns (counter: u32)
    ensures counter == 3
  {
    var statics := new Statics();
    statics.AddToCount(3);
    counter := statics.counter;
  }
}
