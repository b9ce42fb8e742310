/** Row-major placement shared by array2d and static_array2d: cell (x, y) of a grid
    `width` cells wide lives `y * width + x` elements after the first one. */
module Layout {

  /** The element offset of cell (x, y). */
  function Offset(width: nat, x: nat, y: nat): nat
  {
    y * width + x
  }

  /** Slot i exists in a buffer of n elements. */
  predicate InBuffer(i: int, n: nat)
  {
    0 <= i < n
  }

  /** The slots 0 .. n-1 of a buffer of n elements. The explicit bound is what
      shows the set finite; `InBuffer` gives the membership test a term to
      match on. */
  function Slots(n: nat): set<int>
  {
    set i: int | 0 <= i < n && InBuffer(i, n)
  }

  /** Quotient and remainder are unique: the basis of decoding an offset. */
  lemma DivModUnique(n: int, width: int, q: int, r: int)
    requires 0 < width && 0 <= r < width && n == q * width + r
    ensures n / width == q && n % width == r
  {
    var q', r' := n / width, n % width;
    if q' < q {
      MulDistributes(q - q', q', width);
      MulAtLeast(q - q', width);
    } else if q' > q {
      MulDistributes(q' - q, q, width);
      MulAtLeast(q' - q, width);
    }
  }

  lemma MulDistributes(d: int, b: int, width: int)
    ensures (d + b) * width == d * width + b * width
  {
  }

  lemma {:induction false} MulAtLeast(d: int, width: int)
    requires d >= 1 && width > 0
    ensures d * width >= width
  {
    if d > 1 {
      MulAtLeast(d - 1, width);
      MulDistributes(d - 1, 1, width);
    }
  }

  /** A valid cell lies inside the buffer of width * height elements. */
  lemma OffsetInBounds(width: nat, height: nat, x: nat, y: nat)
    requires x < width && y < height
    ensures Offset(width, x, y) < width * height
  {
    assert y * width + width == (y + 1) * width;
    assert (y + 1) * width <= height * width;
  }

  /** The offset gives back its cell: row by division, column by remainder. */
  lemma OffsetDecode(width: nat, x: nat, y: nat)
    requires x < width
    ensures Offset(width, x, y) / width == y && Offset(width, x, y) % width == x
  {
    DivModUnique(Offset(width, x, y), width, y, x);
  }

  /** Distinct cells never share a slot. */
  lemma OffsetInjective(width: nat, x1: nat, y1: nat, x2: nat, y2: nat)
    requires x1 < width && x2 < width
    requires Offset(width, x1, y1) == Offset(width, x2, y2)
    ensures x1 == x2 && y1 == y2
  {
    OffsetDecode(width, x1, y1);
    OffsetDecode(width, x2, y2);
  }

  /** Every slot of the buffer is the offset of exactly the cell its remainder and
      quotient name, so the cells tile the buffer. */
  lemma OffsetCovers(width: nat, height: nat, p: int)
    requires 0 <= p < width * height
    ensures width > 0 && p % width < width && p / width < height
    ensures Offset(width, p % width, p / width) == p
  {
  }

  /** Writing one cell changes that cell and no other. */
  lemma UpdateCell<T>(width: nat, height: nat, s: seq<T>, x: nat, y: nat, v: T, i: nat, j: nat)
    requires |s| == width * height
    requires x < width && y < height && i < width && j < height
    ensures Offset(width, x, y) < |s| && Offset(width, i, j) < |s|
    ensures s[Offset(width, x, y) := v][Offset(width, i, j)]
            == if i == x && j == y then v else s[Offset(width, i, j)]
  {
    OffsetInBounds(width, height, x, y);
    OffsetInBounds(width, height, i, j);
    if Offset(width, x, y) == Offset(width, i, j) {
      OffsetInjective(width, x, y, i, j);
    }
  }

  /** Two prefixes of slots agree only when they have the same length. */
  lemma SlotsEqualIff(m: nat, n: nat)
    ensures Slots(m) == Slots(n) <==> m == n
  {
    if m < n {
      assert m in Slots(n) && m !in Slots(m);
    } else if n < m {
      assert n in Slots(m) && n !in Slots(n);
    }
  }
}
