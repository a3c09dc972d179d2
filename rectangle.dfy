/** The `Rectangle` struct of the structs chapter: its area, whether one
    rectangle fits inside another, and the square constructor. */
module Rectangle {
  import opened RustStd

  datatype Rectangle = Rectangle(width: u32, height: u32)

  /** `width * height` fits in a `u32`, so `area` does not panic. */
  predicate AreaFits(r: Rectangle)
  {
    r.width * r.height <= U32_MAX
  }

  /** `area` — the free function of demo_1 and the method of demo_2 compute
      the same product, so one definition serves both. */
  function Area(r: Rectangle): (a: u32)
    requires AreaFits(r)
    ensures a == r.width * r.height
  {
    r.width * r.height
  }

  /** `can_hold`: no narrower and no lower than `other`. */
  function CanHold(self: Rectangle, other: Rectangle): (b: bool)
    ensures b <==> self.width >= other.width && self.height >= other.height
  {
    self.width >= other.width && self.height >= other.height
  }

  /** Every rectangle holds itself. */
  lemma CanHoldReflexive(r: Rectangle)
    ensures CanHold(r, r)
  {
  }

  /** What a rectangle holds, a bigger one holds too. */
  lemma CanHoldTransitive(a: Rectangle, b: Rectangle, c: Rectangle)
    requires CanHold(a, b) && CanHold(b, c)
    ensures CanHold(a, c)
  {
  }

  /** Two rectangles that hold each other are equal. */
  lemma CanHoldAntisymmetric(a: Rectangle, b: Rectangle)
    requires CanHold(a, b) && CanHold(b, a)
    ensures a == b
  {
  }

  /** A rectangle that holds another has at least its area. */
  lemma CanHoldArea(a: Rectangle, b: Rectangle)
    requires CanHold(a, b) && AreaFits(a)
    ensures AreaFits(b) && Area(a) >= Area(b)
  {
    MulMonotone(a.width, a.height, b.width, b.height);
  }

  lemma MulMonotone(w1: nat, h1: nat, w2: nat, h2: nat)
    requires w1 >= w2 && h1 >= h2
    ensures w1 * h1 >= w2 * h2
  {
    assert w1 * h1 - w2 * h1 == (w1 - w2) * h1;
    assert w2 * h1 - w2 * h2 == w2 * (h1 - h2);
  }

  /** `Rectangle::square`. */
  function Square(size: u32): (r: Rectangle)
    ensures r.width == size && r.height == size
  {
    Rectangle(size, size)
  }

  lemma SquareArea(size: u32)
    requires size * size <= U32_MAX
    ensures AreaFits(Square(size)) && Area(Square(size)) == size * size
  {
  }

  /** demo_1 to demo_4: 30 by 50 has area 1500, holds 10 by 30 but not 40 by
      50; the square of 30 has area 900. */
  lemma RectangleDemos()
    ensures Area(Rectangle(30, 50)) == 1500
    ensures CanHold(Rectangle(30, 50), Rectangle(10, 30))
    ensures !CanHold(Rectangle(30, 50), Rectangle(40, 50))
    ensures Square(30) == Rectangle(30, 30) && Area(Square(30)) == 900
  {
  }
}
