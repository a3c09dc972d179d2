/** The advanced-traits chapter: operator overloading through `Add` (points,
    and millimetres plus metres), the `Display` renderings of a point and of
    the `Wrapper` newtype, the framed `outline_print` of the `OutlinePrint`
    supertrait, and `Deref` on `Wrapper`. */
module AdvancedTrait {
  import opened RustStd
  import opened Text

  // ---------------------------------------------------------------------
  // Add

  datatype Point = Point(x: i32, y: i32)

  /** Both component sums stay in the `i32` range, so `+` does not panic. */
  predicate CanAdd(a: Point, b: Point)
  {
    I32_MIN <= a.x + b.x <= I32_MAX && I32_MIN <= a.y + b.y <= I32_MAX
  }

  /** `impl Add for Point`: component-wise sum. */
  function PointAdd(a: Point, b: Point): (r: Point)
    requires CanAdd(a, b)
    ensures r.x == a.x + b.x && r.y == a.y + b.y
  {
    Point(a.x + b.x, a.y + b.y)
  }

  lemma PointAddCommutative(a: Point, b: Point)
    requires CanAdd(a, b)
    ensures CanAdd(b, a) && PointAdd(a, b) == PointAdd(b, a)
  {
  }

  /** The origin adds nothing. */
  lemma PointAddOrigin(a: Point)
    ensures CanAdd(a, Point(0, 0)) && PointAdd(a, Point(0, 0)) == a
  {
  }

  /** demo_1's assertion: (1, 0) + (2, 3) == (3, 3). */
  lemma PointAddDemo()
    ensures PointAdd(Point(1, 0), Point(2, 3)) == Point(3, 3)
  {
  }

  datatype Millimeters = Millimeters(mm: u32)
  datatype Meters = Meters(m: u32)

  /** `other.0 * 1000` and the sum must both fit in a `u32`. */
  predicate CanAddMeters(a: Millimeters, b: Meters)
  {
    b.m * 1000 <= U32_MAX && a.mm + b.m * 1000 <= U32_MAX
  }

  /** `impl Add<Meters> for Millimeters`: the metres converted to millimetres. */
  function AddMeters(a: Millimeters, b: Meters): (r: Millimeters)
    requires CanAddMeters(a, b)
    ensures r.mm == a.mm + 1000 * b.m
  {
    Millimeters(a.mm + b.m * 1000)
  }

  /** Adding two lengths in metres, one after the other, is adding their sum. */
  lemma AddMetersTwice(a: Millimeters, b1: Meters, b2: Meters)
    requires CanAddMeters(a, b1) && CanAddMeters(AddMeters(a, b1), b2)
    ensures b1.m + b2.m <= U32_MAX && CanAddMeters(a, Meters(b1.m + b2.m))
    ensures AddMeters(AddMeters(a, b1), b2) == AddMeters(a, Meters(b1.m + b2.m))
  {
  }

  /** demo_1: 1001000 mm + 1 m. */
  lemma AddMetersDemo()
    ensures AddMeters(Millimeters(1001000), Meters(1)) == Millimeters(1002000)
  {
  }

  // ---------------------------------------------------------------------
  // Display

  /** `impl fmt::Display for Point`: `"({}, {})"`. */
  function PointDisplay(p: Point): (s: string)
    ensures |s| >= 6 && s[0] == '(' && s[|s| - 1] == ')'
  {
    "(" + ShowInt(p.x) + ", " + ShowInt(p.y) + ")"
  }

  /** No comma in `a`. */
  predicate CommaFree(a: string)
  {
    forall k :: 0 <= k < |a| ==> a[k] != ','
  }

  /** The first comma of the rendering ends the first coordinate, so the
      rendering can be cut back into its two numbers. */
  lemma SplitAtFirstComma(a1: string, b1: string, a2: string, b2: string)
    requires CommaFree(a1) && CommaFree(a2)
    requires "(" + a1 + ", " + b1 + ")" == "(" + a2 + ", " + b2 + ")"
    ensures a1 == a2 && b1 == b2
  {
    var s := "(" + a1 + ", " + b1 + ")";
    assert s[|a1| + 1] == ',' && s[|a2| + 1] == ',';
    assert forall k :: 1 <= k < |a1| + 1 ==> s[k] == a1[k - 1];
    assert forall k :: 1 <= k < |a2| + 1 ==> s[k] == a2[k - 1];
    assert |a1| == |a2|;
    assert a1 == s[1..|a1| + 1] == a2;
    assert b1 == s[|a1| + 3..|s| - 1] == b2;
  }

  /** Different points render differently. */
  lemma PointDisplayInjective(p: Point, q: Point)
    requires PointDisplay(p) == PointDisplay(q)
    ensures p == q
  {
    ShowIntPlain(p.x);
    ShowIntPlain(q.x);
    SplitAtFirstComma(ShowInt(p.x), ShowInt(p.y), ShowInt(q.x), ShowInt(q.y));
    ShowIntInjective(p.x, q.x);
    ShowIntInjective(p.y, q.y);
  }

  /** demo_3's point renders as "(1, 2)". */
  lemma PointDisplayDemo()
    ensures PointDisplay(Point(1, 2)) == "(1, 2)"
  {
    assert ShowInt(1) == "1" && ShowInt(2) == "2";
  }

  /** `struct Wrapper(Vec<String>)`. */
  datatype Wrapper = Wrapper(items: seq<string>)

  /** `impl fmt::Display for Wrapper`: `"[{}]"` around the items joined by ", ". */
  function WrapperDisplay(w: Wrapper): (s: string)
    ensures |s| >= 2 && s[0] == '[' && s[|s| - 1] == ']'
    ensures s[1..|s| - 1] == Join(w.items, ", ")
  {
    "[" + Join(w.items, ", ") + "]"
  }

  /** Total length of a list of strings. */
  function TotalLength(parts: seq<string>): nat
  {
    if parts == [] then 0 else |parts[0]| + TotalLength(parts[1..])
  }

  /** Joining adds one separator between each pair of neighbours. */
  lemma {:induction false} JoinLength(parts: seq<string>, sep: string)
    requires parts != []
    ensures |Join(parts, sep)| == TotalLength(parts) + (|parts| - 1) * |sep|
  {
    if |parts| > 1 {
      JoinLength(parts[1..], sep);
    }
  }

  /** demo_4: the wrapped "hello" and "world". */
  lemma WrapperDisplayDemo()
    ensures WrapperDisplay(Wrapper(["hello", "world"])) == "[hello, world]"
  {
    assert ["hello", "world"][1..] == ["world"];
  }

  /** `Deref for Wrapper`: the inner vector itself. */
  function Deref(w: Wrapper): (v: seq<string>)
    ensures Wrapper(v) == w
  {
    w.items
  }

  /** `iter().enumerate()`: each element paired with its index. */
  function Enumerate<T>(v: seq<T>): (r: seq<(nat, T)>)
    ensures |r| == |v|
    ensures forall i :: 0 <= i < |v| ==> r[i] == (i, v[i])
  {
    if v == [] then [] else Enumerate(v[..|v| - 1]) + [(|v| - 1, v[|v| - 1])]
  }

  /** demo_4's loop through `Deref`: word0 is hello, word1 is world. */
  lemma EnumerateDemo()
    ensures Enumerate(Deref(Wrapper(["hello", "world"]))) == [(0, "hello"), (1, "world")]
  {
  }

  // ---------------------------------------------------------------------
  // OutlinePrint

  /** `outline_print`: the five printed lines framing `output` with
      asterisks, sized by its byte length. */
  function OutlineLines(output: string): (lines: seq<string>)
    ensures |lines| == 5
    ensures lines[2] == "* " + output + " *"
    ensures lines[0] == lines[4] && lines[1] == lines[3]
  {
    var len := Utf8Len(output);
    var border := Repeat('*', len + 4);
    var blank := "*" + Repeat(' ', len + 2) + "*";
    [border, blank, "* " + output + " *", blank, border]
  }

  /** Every line of the frame is four bytes longer than the output. */
  lemma OutlineWidths(output: string)
    ensures forall i :: 0 <= i < 5 ==> Utf8Len(OutlineLines(output)[i]) == Utf8Len(output) + 4
  {
    var len := Utf8Len(output);
    RepeatAsciiLen('*', len + 4);
    BlankWidth(len);
    MiddleWidth(output);
  }

  lemma BlankWidth(len: nat)
    ensures Utf8Len("*" + Repeat(' ', len + 2) + "*") == len + 4
  {
    RepeatAsciiLen(' ', len + 2);
    Utf8LenAppend("*", Repeat(' ', len + 2));
    Utf8LenAppend("*" + Repeat(' ', len + 2), "*");
    assert Utf8Len("*") == 1;
  }

  lemma MiddleWidth(output: string)
    ensures Utf8Len("* " + output + " *") == Utf8Len(output) + 4
  {
    Utf8LenAppend("* ", output);
    Utf8LenAppend("* " + output, " *");
    assert Utf8Len("* ") == 2 && Utf8Len(" *") == 2;
  }

  /** The border is all asterisks; the blank lines are asterisks at both
      ends and spaces between. */
  lemma OutlineShape(output: string)
    ensures forall k :: 0 <= k < |OutlineLines(output)[0]| ==> OutlineLines(output)[0][k] == '*'
    ensures var b := OutlineLines(output)[1];
      |b| >= 2 && b[0] == '*' && b[|b| - 1] == '*' && forall k :: 1 <= k < |b| - 1 ==> b[k] == ' '
  {
  }
}
