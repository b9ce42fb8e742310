/** static_array2d: a 2D array whose width and height are the template arguments
    `Width` and `Height`, holding its elements inline, row by row. */
module StaticArray2D {
  import opened Constness
  import Layout
  import LinearIterator
  import StaticColumnIterator
  import Emplacer
  import Copying

  class StaticArray2D<T(0)> {
    /** `Width` and `Height` (also the static members `width` and `height`). */
    const W: nat
    const H: nat
    /** `m_data`, the inline buffer, of which W * H elements are in use. */
    const data: array<T>
    /** The slots of `data` that hold a constructed element. */
    ghost var live: set<int>

    /** A buffer of W * H elements, each one constructed. */
    ghost predicate Valid()
      reads this
    {
      data.Length == W * H && live == Layout.Slots(W * H)
    }

    /** `static_array2d()`: every element default-constructed. */
    constructor (w: nat, h: nat)
      ensures Valid() && fresh(data)
      ensures W == w && H == h
    {
      W, H := w, h;
      data := new T[w * h];
      live := Layout.Slots(w * h);
    }

    /** The copy constructor: default-constructs its own elements, then
        `std::copy(o.begin(), o.end(), begin())`. */
    constructor Copy(o: StaticArray2D<T>)
      requires o.Valid()
      ensures Valid() && fresh(data)
      ensures W == o.W && H == o.H
      ensures data[..] == o.data[..]
    {
      W, H := o.W, o.H;
      data := new T[o.W * o.H];
      live := Layout.Slots(o.W * o.H);
      new;
      var _ := Copying.CopyRange(o.data, o.Begin(ReadOnly), o.End(ReadOnly), data, Begin(Mutable));
    }

    /** Copy assignment between arrays of one type (same Width and Height):
        `std::copy(o.begin(), o.end(), begin())`, so afterwards every one of the
        W * H elements equals `o`'s. The copy must not run into its own source
        range, so `o` is another array. */
    method CopyAssign(o: StaticArray2D<T>)
      requires Valid() && o.Valid() && o.W == W && o.H == H
      requires o.data != data
      modifies data
      ensures Valid()
      ensures data[..] == o.data[..]
    {
      var _ := Copying.CopyRange(o.data, o.Begin(ReadOnly), o.End(ReadOnly), data, Begin(Mutable));
    }

    /** `index(x, y)`: the slot the returned reference designates, the one whose
        row is y and whose column is x. */
    function Index(x: nat, y: nat): (slot: nat)
      requires x < W && y < H
      ensures slot < W * H
      ensures slot / W == y && slot % W == x
    {
      Layout.OffsetInBounds(W, H, x, y);
      Layout.OffsetDecode(W, x, y);
      Layout.Offset(W, x, y)
    }

    /** `operator()(x, y)`: the same slot as `index(x, y)`. */
    function Call(x: nat, y: nat): (slot: nat)
      requires x < W && y < H
      ensures slot == Index(x, y)
    {
      Layout.Offset(W, x, y)
    }

    /** `begin()` (`begin() const` when `access` is ReadOnly): where row 0 begins. */
    function Begin(access: Access): (it: LinearIterator.Iter)
      ensures it == RowBegin(access, 0)
    {
      LinearIterator.Iter(access, 0)
    }

    /** `end()`: W * H steps past `begin()`. */
    function End(access: Access): (it: LinearIterator.Iter)
      ensures it == LinearIterator.Plus(Begin(access), W * H)
    {
      LinearIterator.Iter(access, W * H)
    }

    /** `row_begin(y)`: the cursor at the first cell of row y. */
    function RowBegin(access: Access, y: nat): (it: LinearIterator.Iter)
      ensures it.access == access
      ensures y < H && W > 0 ==> it.pos == Index(0, y)
    {
      LinearIterator.Iter(access, y * W)
    }

    /** `row_end(y)`: W steps past `row_begin(y)`, which is where row y + 1 begins. */
    function RowEnd(access: Access, y: nat): (it: LinearIterator.Iter)
      ensures it == LinearIterator.Plus(RowBegin(access, y), W)
      ensures it == RowBegin(access, y + 1)
    {
      LinearIterator.Iter(access, y * W + W)
    }

    /** `column_begin(x)`: the cursor at the top cell of column x. */
    function ColumnBegin(access: Access, x: nat): (it: StaticColumnIterator.Iter)
      ensures it.access == access
      ensures x < W && H > 0 ==> it.pos == Index(x, 0)
    {
      StaticColumnIterator.Iter(access, x)
    }

    /** `column_end(x)`: H rows below `column_begin(x)`. */
    function ColumnEnd(access: Access, x: nat): (it: StaticColumnIterator.Iter)
      ensures it == StaticColumnIterator.Plus(ColumnBegin(access, x), H, W)
    {
      StaticColumnIterator.Iter(access, H * W + x)
    }

    /** The slot of (x, y) is `begin() + y * Width + x`. */
    lemma IndexIsBeginPlusOffset(access: Access, x: nat, y: nat)
      requires x < W && y < H
      ensures Index(x, y) == Call(x, y) == LinearIterator.Plus(Begin(access), y * W + x).pos
    {
    }

    /** Stepping through row y from `row_begin(y)` designates index(0, y) ..
        index(W - 1, y) in order and reaches `row_end(y)` after W steps. */
    lemma RowTraversal(access: Access, y: nat)
      requires y < H
      ensures |LinearIterator.Visit(RowBegin(access, y), W)| == W
      ensures forall x :: 0 <= x < W ==>
                LinearIterator.Visit(RowBegin(access, y), W)[x] == Index(x, y)
      ensures LinearIterator.Advance(RowBegin(access, y), W) == RowEnd(access, y)
    {
      var first := RowBegin(access, y);
      LinearIterator.VisitLength(first, W);
      forall x | 0 <= x < W
        ensures LinearIterator.Visit(first, W)[x] == Index(x, y)
      {
        LinearIterator.VisitAt(first, W, x);
      }
      LinearIterator.AdvanceIsPlus(first, W);
    }

    /** Row 0 starts at `begin()` and the last row ends at `end()`. */
    lemma RowsTileRange(access: Access)
      ensures RowBegin(access, 0) == Begin(access)
      ensures H > 0 ==> RowEnd(access, H - 1) == End(access)
    {
      if H > 0 {
        assert (H - 1) * W + W == W * H;
      }
    }

    /** Stepping down column x from `column_begin(x)` designates index(x, 0) ..
        index(x, H - 1) in order, and reaches `column_end(x)` after exactly H
        steps and not before. */
    lemma ColumnTraversal(access: Access, x: nat)
      requires x < W
      ensures |StaticColumnIterator.Visit(ColumnBegin(access, x), H, W)| == H
      ensures forall k :: 0 <= k < H ==>
                StaticColumnIterator.Visit(ColumnBegin(access, x), H, W)[k] == Index(x, k)
      ensures StaticColumnIterator.Advance(ColumnBegin(access, x), H, W) == ColumnEnd(access, x)
      ensures forall k :: 0 <= k < H ==>
                StaticColumnIterator.NotEqual(StaticColumnIterator.Advance(ColumnBegin(access, x), k, W),
                                              ColumnEnd(access, x))
    {
      var first := ColumnBegin(access, x);
      StaticColumnIterator.VisitLength(first, H, W);
      forall k | 0 <= k < H
        ensures StaticColumnIterator.Visit(first, H, W)[k] == Index(x, k)
      {
        StaticColumnIterator.VisitAt(first, H, k, W);
      }
      StaticColumnIterator.AdvanceIsPlus(first, H, W);
      forall k | 0 <= k < H
        ensures StaticColumnIterator.NotEqual(StaticColumnIterator.Advance(first, k, W),
                                              ColumnEnd(access, x))
      {
        StaticColumnIterator.AdvanceStrictlyIncreasing(first, k, H, W);
      }
    }

    /** Stepping from `begin()` designates every slot once, in order, and reaches
        `end()` after W * H steps. */
    lemma FullTraversal(access: Access)
      ensures |LinearIterator.Visit(Begin(access), W * H)| == W * H
      ensures forall p :: 0 <= p < W * H ==> LinearIterator.Visit(Begin(access), W * H)[p] == p
      ensures LinearIterator.Advance(Begin(access), W * H) == End(access)
    {
      var first := Begin(access);
      LinearIterator.VisitLength(first, W * H);
      forall p | 0 <= p < W * H
        ensures LinearIterator.Visit(first, W * H)[p] == p
      {
        LinearIterator.VisitAt(first, W * H, p);
      }
      LinearIterator.AdvanceIsPlus(first, W * H);
    }

    /** Every slot of the buffer is the slot of one cell: the one whose column is
        the slot's remainder by the width and whose row is its quotient. */
    lemma SlotIsCell(p: int)
      requires 0 <= p < W * H
      ensures W > 0 && p % W < W && p / W < H && Index(p % W, p / W) == p
    {
      Layout.OffsetCovers(W, H, p);
    }

    /** `emplace(x, y, args...)`: cell (x, y) holds `v`, every other cell is
        unchanged, and the result is a cursor at (x, y). */
    method EmplaceAt(policy: Emplacer.Policy, x: nat, y: nat, v: T) returns (it: LinearIterator.Iter)
      requires Valid() && x < W && y < H
      modifies data
      ensures Valid()
      ensures it == LinearIterator.Iter(Mutable, Index(x, y))
      ensures data[..] == old(data[..])[Index(x, y) := v]
      ensures forall i, j :: 0 <= i < W && 0 <= j < H ==>
                data[Index(i, j)] == if i == x && j == y then v else old(data[Index(i, j)])
    {
      ghost var before := data[..];
      var at;
      ghost var mid, live';
      at, mid, live' := Emplacer.Emplace(policy, data, Index(x, y), v, live);
      // The slot held a live element, so the live set is the one `Valid()` names.
      assert live' == live;
      it := LinearIterator.Iter(Mutable, at);
      forall i, j | 0 <= i < W && 0 <= j < H
        ensures data[Index(i, j)] == if i == x && j == y then v else before[Index(i, j)]
      {
        Layout.UpdateCell(W, H, before, x, y, v, i, j);
      }
    }

    /** `emplace(iterator, args...)`: the slot under the cursor holds `v`, every
        other slot is unchanged, and the result is the same cursor. */
    method EmplaceIter(policy: Emplacer.Policy, pos: LinearIterator.Iter, v: T)
      returns (it: LinearIterator.Iter)
      requires Valid() && pos.access == Mutable && 0 <= pos.pos < data.Length
      modifies data
      ensures Valid() && it == pos
      ensures data[..] == old(data[..])[pos.pos := v]
    {
      var at;
      ghost var mid, live';
      at, mid, live' := Emplacer.Emplace(policy, data, pos.pos, v, live);
      // The slot held a live element, so the live set is the one `Valid()` names.
      assert live' == live;
      it := LinearIterator.Iter(Mutable, at);
    }

    /** `emplace(column_iterator, args...)`: the slot under the cursor holds `v`,
        every other slot is unchanged, and the result is the same cursor. */
    method EmplaceColumn(policy: Emplacer.Policy, pos: StaticColumnIterator.Iter, v: T)
      returns (it: StaticColumnIterator.Iter)
      requires Valid() && pos.access == Mutable && 0 <= pos.pos < data.Length
      modifies data
      ensures Valid() && it == pos
      ensures data[..] == old(data[..])[pos.pos := v]
    {
      var at;
      ghost var mid, live';
      at, mid, live' := Emplacer.Emplace(policy, data, pos.pos, v, live);
      // The slot held a live element, so the live set is the one `Valid()` names.
      assert live' == live;
      it := StaticColumnIterator.Iter(Mutable, at);
    }
  }
}
