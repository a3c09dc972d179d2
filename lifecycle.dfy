/** The lifetimes chapter: `longest` of two strings, the insert-if-absent
    `get_default` on a hash map, `ImportantExcerpt::level` and the
    reborrowing `Point::move_to`. Lifetimes themselves have no run-time
    meaning and are not modelled. */
module Lifecycle {
  import opened RustStd
  import opened Text

  /** `longest`: `x` when it has more UTF-8 bytes than `y`, otherwise `y`. */
  function Longest(x: string, y: string): (r: string)
    ensures Utf8Len(x) > Utf8Len(y) ==> r == x
    ensures Utf8Len(x) <= Utf8Len(y) ==> r == y
    ensures Utf8Len(r) >= Utf8Len(x) && Utf8Len(r) >= Utf8Len(y)
    ensures Utf8Len(r) == Utf8Len(x) || Utf8Len(r) == Utf8Len(y)
  {
    if Utf8Len(x) > Utf8Len(y) then x else y
  }

  /** The length of the answer does not depend on the order of the
      arguments, although on a tie the answer itself does. */
  lemma LongestLengthSymmetric(x: string, y: string)
    ensures Utf8Len(Longest(x, y)) == Utf8Len(Longest(y, x))
    ensures Utf8Len(x) == Utf8Len(y) ==> Longest(x, y) == y && Longest(y, x) == x
  {
  }

  datatype ImportantExcerpt = ImportantExcerpt(part: string)

  /** `ImportantExcerpt::level`. */
  function Level(e: ImportantExcerpt): (r: i32)
    ensures r == 3
  {
    3
  }

  /** The level does not look at the excerpt. */
  lemma LevelConstant(e1: ImportantExcerpt, e2: ImportantExcerpt)
    ensures Level(e1) == Level(e2)
  {
  }

  /** What `get_default` leaves behind and the value its reference points
      to: the stored value when `key` is present, otherwise `def` (the
      `V::default()` of the source), newly inserted. */
  function InsertDefault<K(==, !new), V>(m: map<K, V>, key: K, def: V): (r: (map<K, V>, V))
    ensures key in r.0 && r.0[key] == r.1
    ensures key in m ==> r.0 == m && r.1 == m[key]
    ensures key !in m ==> r.1 == def
    ensures forall k :: k != key ==> (k in r.0 <==> k in m)
    ensures forall k :: k != key && k in m ==> r.0[k] == m[k]
  {
    if key in m then (m, m[key]) else (m[key := def], def)
  }

  /** The map gains at most one key. */
  lemma InsertDefaultGrowth<K(!new), V>(m: map<K, V>, key: K, def: V)
    ensures |InsertDefault(m, key, def).0.Keys| == |m.Keys| + (if key in m then 0 else 1)
  {
    if key !in m {
      assert InsertDefault(m, key, def).0.Keys == m.Keys + {key};
    }
  }

  /** A second call with the same key finds what the first left. */
  lemma InsertDefaultIdempotent<K(!new), V>(m: map<K, V>, key: K, def: V, def2: V)
    ensures var (m1, v1) := InsertDefault(m, key, def);
            InsertDefault(m1, key, def2) == (m1, v1)
  {
  }

  /** A `HashMap<K, V>` that `get_default` borrows mutably. */
  class HashMap<K(==, !new), V> {
    var entries: map<K, V>

    constructor (entries: map<K, V>)
      ensures this.entries == entries
    {
      this.entries := entries;
    }

    /** `get_default`: looks `key` up and inserts `def` when it is missing.
        The value is returned, not a reference into the map. */
    method GetDefault(key: K, def: V) returns (v: V)
      modifies this
      ensures (entries, v) == InsertDefault(old(entries), key, def)
    {
      if key in entries {
        v := entries[key];
      } else {
        entries := entries[key := def];
        v := entries[key];
      }
    }
  }

  /** demo_5's `Point`. */
  class Point {
    var x: i32
    var y: i32

    constructor (x: i32, y: i32)
      ensures this.x == x && this.y == y
    {
      this.x := x;
      this.y := y;
    }

    /** `move_to`: sets both coordinates. */
    method MoveTo(x: i32, y: i32)
      modifies this
      ensures this.x == x && this.y == y
    {
      this.x := x;
      this.y := y;
    }
  }

  /** demo_5: the point moved through the reborrowed reference. */
  method ReborrowDemo() returns (x: i32, y: i32)
    ensures x == 10 && y == 10
  {
    var p := new Point(0, 0);
    var r := p;
    r.MoveTo(10, 10);
    x, y := p.x, p.y;
  }
}
