/** array2d: a 2D array whose width and height are run-time values, owning one
    heap buffer of width * height elements laid out row by row. */
module Array2D {
  import opened Constness
  import Layout
  import LinearIterator
  import ColumnIterator
  import Emplacer
  import Copying

  class Array2D<T(0)> {
    var width: nat
    var height: nat
    /** `m_data`; null once the buffer has been moved out. */
    var data: array?<T>
    /** The slots of `data` that hold a constructed element. */
    ghost var live: set<int>

    /** An owning array: a buffer of exactly width * height elements, each one
        constructed. */
    ghost predicate Valid()
      reads this
    {
      data != null && data.Length == width * height && live == Layout.Slots(width * height)
    }

    /** The state a move leaves behind: no buffer, nothing to release. */
    predicate MovedFrom()
      reads this
      ensures MovedFrom() ==> !Valid()
    {
      data == null
    }

    /** `array2d(width, height)`: a fresh buffer with every slot default-constructed. */
    constructor (w: nat, h: nat)
      ensures Valid() && fresh(data)
      ensures width == w && height == h
    {
      width, height := w, h;
      data := new T[w * h];
      live := Layout.Slots(w * h);
    }

    /** The move constructor: takes over the buffer and the dimensions and leaves
        `o` without a buffer. */
    constructor Move(o: Array2D<T>)
      requires o.Valid()
      modifies o
      ensures Valid()
      ensures width == old(o.width) && height == old(o.height)
      ensures data == old(o.data) && data[..] == old(o.data[..]) && live == old(o.live)
      ensures o.MovedFrom() && o.width == old(o.width) && o.height == old(o.height)
    {
      width, height, data, live := o.width, o.height, o.data, o.live;
      new;
      o.data := null;
    }

    /** The copy constructor: a buffer of its own, each slot copy-constructed from
        the matching slot of `o`. */
    constructor Copy(o: Array2D<T>)
      requires o.Valid()
      ensures Valid() && fresh(data)
      ensures width == o.width && height == o.height
      ensures data[..] == o.data[..]
    {
      width, height := o.width, o.height;
      data := new T[o.width * o.height];
      live := {};
      new;
      Copying.CopyN(o.data, width * height, data);
      live := Layout.Slots(width * height);
    }

    /** Copy assignment with the count it evidently intends, the source's size:
        afterwards the array equals `o` and owns a buffer of its own. */
    method CopyAssign(o: Array2D<T>)
      requires o.Valid() && o != this
      modifies this
      ensures Valid() && fresh(data)
      ensures width == o.width && height == o.height
      ensures data[..] == o.data[..]
    {
      var buf := new T[o.width * o.height];
      Copying.CopyN(o.data, o.width * o.height, buf);
      data := buf;
      width, height := o.width, o.height;
      live := Layout.Slots(width * height);
    }

    /** Copy assignment as written: the new buffer is sized for `o`, but the count
        of elements copied is this array's width * height from before the
        assignment. Only that many slots are constructed, so the result is a valid
        array exactly when the two sizes agree. */
    method CopyAssignAsWritten(o: Array2D<T>)
      requires o.Valid() && o != this
      requires width * height <= o.width * o.height
      modifies this
      ensures data != null && fresh(data) && data.Length == o.width * o.height
      ensures width == o.width && height == o.height
      ensures data[..old(width * height)] == o.data[..old(width * height)]
      ensures live == Layout.Slots(old(width * height))
      ensures Valid() <==> old(width * height) == o.width * o.height
    {
      var buf := new T[o.width * o.height];
      var count := width * height;
      Copying.CopyN(o.data, count, buf);
      data := buf;
      width, height := o.width, o.height;
      live := Layout.Slots(count);
      Layout.SlotsEqualIff(count, width * height);
    }

    /** Move assignment: takes over `o`'s buffer and dimensions and leaves `o`
        without a buffer. Moving an array into itself leaves it without one too. */
    method MoveAssign(o: Array2D<T>)
      requires o.Valid()
      modifies this, o
      ensures o.MovedFrom()
      ensures width == old(o.width) && height == old(o.height)
      ensures o != this ==> Valid() && data == old(o.data) && data[..] == old(o.data[..])
      ensures o != this ==> o.width == old(o.width) && o.height == old(o.height)
      ensures o == this ==> MovedFrom()
    {
      data := o.data;
      live := o.live;
      o.data := null;
      width := o.width;
      height := o.height;
    }

    /** `index(x, y)`: the slot the returned reference designates, the one whose
        row is y and whose column is x. */
    function Index(x: nat, y: nat): (slot: nat)
      reads this
      requires x < width && y < height
      ensures slot < width * height
      ensures slot / width == y && slot % width == x
    {
      Layout.OffsetInBounds(width, height, x, y);
      Layout.OffsetDecode(width, x, y);
      Layout.Offset(width, x, y)
    }

    /** `operator()(x, y)`: the same slot as `index(x, y)`. */
    function Call(x: nat, y: nat): (slot: nat)
      reads this
      requires x < width && y < height
      ensures slot == Index(x, y)
    {
      Layout.Offset(width, x, y)
    }

    /** `begin()` (`begin() const` when `access` is ReadOnly): where row 0 begins. */
    function Begin(access: Access): (it: LinearIterator.Iter)
      reads this
      ensures it == RowBegin(access, 0)
    {
      LinearIterator.Iter(access, 0)
    }

    /** `end()`: width * height steps past `begin()`. */
    function End(access: Access): (it: LinearIterator.Iter)
      reads this
      ensures it == LinearIterator.Plus(Begin(access), width * height)
    {
      LinearIterator.Iter(access, width * height)
    }

    /** `row_begin(y)`: the cursor at the first cell of row y. */
    function RowBegin(access: Access, y: nat): (it: LinearIterator.Iter)
      reads this
      ensures it.access == access
      ensures y < height && width > 0 ==> it.pos == Index(0, y)
    {
      LinearIterator.Iter(access, y * width)
    }

    /** `row_end(y)`: width steps past `row_begin(y)`, which is where row y + 1 begins. */
    function RowEnd(access: Access, y: nat): (it: LinearIterator.Iter)
      reads this
      ensures it == LinearIterator.Plus(RowBegin(access, y), width)
      ensures it == RowBegin(access, y + 1)
    {
      LinearIterator.Iter(access, y * width + width)
    }

    /** `column_begin(x)`: a cursor at the top cell of column x that steps by the width. */
    function ColumnBegin(access: Access, x: nat): (it: ColumnIterator.Iter)
      reads this
      ensures it.access == access && it.stride == width
      ensures x < width && height > 0 ==> it.pos == Index(x, 0)
    {
      ColumnIterator.Iter(access, x, width)
    }

    /** `column_end(x)`: height strides below `column_begin(x)`. */
    function ColumnEnd(access: Access, x: nat): (it: ColumnIterator.Iter)
      reads this
      ensures it == ColumnIterator.Plus(ColumnBegin(access, x), height)
    {
      ColumnIterator.Iter(access, height * width + x, width)
    }

    /** The slot of (x, y) is `begin() + y * width + x`. */
    lemma IndexIsBeginPlusOffset(access: Access, x: nat, y: nat)
      requires x < width && y < height
      ensures Index(x, y) == Call(x, y) == LinearIterator.Plus(Begin(access), y * width + x).pos
    {
    }

    /** Stepping through row y from `row_begin(y)` designates index(0, y) ..
        index(width - 1, y) in order and reaches `row_end(y)` after width steps. */
    lemma RowTraversal(access: Access, y: nat)
      requires y < height
      ensures |LinearIterator.Visit(RowBegin(access, y), width)| == width
      ensures forall x :: 0 <= x < width ==>
                LinearIterator.Visit(RowBegin(access, y), width)[x] == Index(x, y)
      ensures LinearIterator.Advance(RowBegin(access, y), width) == RowEnd(access, y)
    {
      var first := RowBegin(access, y);
      LinearIterator.VisitLength(first, width);
      forall x | 0 <= x < width
        ensures LinearIterator.Visit(first, width)[x] == Index(x, y)
      {
        LinearIterator.VisitAt(first, width, x);
      }
      LinearIterator.AdvanceIsPlus(first, width);
    }

    /** The rows tile the whole traversal: row 0 starts at `begin()` and the last
        row ends at `end()`. */
    lemma RowsTileRange(access: Access)
      ensures RowBegin(access, 0) == Begin(access)
      ensures height > 0 ==> RowEnd(access, height - 1) == End(access)
    {
      if height > 0 {
        assert (height - 1) * width + width == width * height;
      }
    }

    /** Stepping down column x from `column_begin(x)` designates index(x, 0) ..
        index(x, height - 1) in order, and reaches `column_end(x)` after exactly
        height steps and not before. */
    lemma ColumnTraversal(access: Access, x: nat)
      requires x < width
      ensures |ColumnIterator.Visit(ColumnBegin(access, x), height)| == height
      ensures forall k :: 0 <= k < height ==>
                ColumnIterator.Visit(ColumnBegin(access, x), height)[k] == Index(x, k)
      ensures ColumnIterator.Advance(ColumnBegin(access, x), height) == ColumnEnd(access, x)
      ensures forall k :: 0 <= k < height ==>
                ColumnIterator.NotEqual(ColumnIterator.Advance(ColumnBegin(access, x), k),
                                        ColumnEnd(access, x))
    {
      var first := ColumnBegin(access, x);
      ColumnIterator.VisitLength(first, height);
      forall k | 0 <= k < height
        ensures ColumnIterator.Visit(first, height)[k] == Index(x, k)
      {
        ColumnIterator.VisitAt(first, height, k);
      }
      ColumnIterator.AdvanceIsPlus(first, height);
      forall k | 0 <= k < height
        ensures ColumnIterator.NotEqual(ColumnIterator.Advance(first, k), ColumnEnd(access, x))
      {
        ColumnIterator.AdvanceStrictlyIncreasing(first, k, height);
      }
    }

    /** Stepping from `begin()` designates every slot once, in order, and reaches
        `end()` after width * height steps. */
    lemma FullTraversal(access: Access)
      ensures |LinearIterator.Visit(Begin(access), width * height)| == width * height
      ensures forall p :: 0 <= p < width * height ==> LinearIterator.Visit(Begin(access), width * height)[p] == p
      ensures LinearIterator.Advance(Begin(access), width * height) == End(access)
    {
      var first := Begin(access);
      LinearIterator.VisitLength(first, width * height);
      forall p | 0 <= p < width * height
        ensures LinearIterator.Visit(first, width * height)[p] == p
      {
        LinearIterator.VisitAt(first, width * height, p);
      }
      LinearIterator.AdvanceIsPlus(first, width * height);
    }

    /** Every slot of the buffer is the slot of one cell: the one whose column is
        the slot's remainder by the width and whose row is its quotient. */
    lemma SlotIsCell(p: int)
      requires 0 <= p < width * height
      ensures width > 0 && p % width < width && p / width < height && Index(p % width, p / width) == p
    {
      Layout.OffsetCovers(width, height, p);
    }

    /** `emplace(x, y, args...)`: cell (x, y) holds `v`, every other cell is
        unchanged, and the result is a cursor at (x, y). */
    method EmplaceAt(policy: Emplacer.Policy, x: nat, y: nat, v: T) returns (it: LinearIterator.Iter)
      requires Valid() && x < width && y < height
      modifies data
      ensures Valid()
      ensures it == LinearIterator.Iter(Mutable, Index(x, y))
      ensures data[..] == old(data[..])[Index(x, y) := v]
      ensures forall i, j :: 0 <= i < width && 0 <= j < height ==>
                data[Index(i, j)] == if i == x && j == y then v else old(data[Index(i, j)])
    {
      ghost var before := data[..];
      var at;
      ghost var mid, live';
      at, mid, live' := Emplacer.Emplace(policy, data, Index(x, y), v, live);
      // The slot held a live element, so the live set is the one `Valid()` names.
      assert live' == live;
      it := LinearIterator.Iter(Mutable, at);
      forall i, j | 0 <= i < width && 0 <= j < height
        ensures data[Index(i, j)] == if i == x && j == y then v else before[Index(i, j)]
      {
        Layout.UpdateCell(width, height, before, x, y, v, i, j);
      }
    }

    /** `emplace(iterator, args...)`: the slot under the cursor holds `v`, every
        other slot is unchanged, and the result is the same cursor. */
    method EmplaceIter(policy: Emplacer.Policy, pos: LinearIterator.Iter, v: T)
      returns (it: LinearIterator.Iter)
      requires Valid() && pos.access == Mutable && 0 <= pos.pos < data.Length
      modifies data
      ensures Valid() && it == pos
      ensures data[..] == old(data[..])[pos.pos := v]
    {
      var at;
      ghost var mid, live';
      at, mid, live' := Emplacer.Emplace(policy, data, pos.pos, v, live);
      // The slot held a live element, so the live set is the one `Valid()` names.
      assert live' == live;
      it := LinearIterator.Iter(Mutable, at);
    }

    /** `emplace(column_iterator, args...)`: the slot under the cursor holds `v`,
        every other slot is unchanged, and the result is a column cursor there. */
    method EmplaceColumn(policy: Emplacer.Policy, pos: ColumnIterator.Iter, v: T)
      returns (it: ColumnIterator.Iter)
      requires Valid() && pos.access == Mutable && 0 <= pos.pos < data.Length
      modifies data
      ensures Valid() && it == ColumnIterator.Iter(Mutable, pos.pos, width)
      ensures data[..] == old(data[..])[pos.pos := v]
    {
      var at;
      ghost var mid, live';
      at, mid, live' := Emplacer.Emplace(policy, data, pos.pos, v, live);
      // The slot held a live element, so the live set is the one `Valid()` names.
      assert live' == live;
      it := ColumnIterator.Iter(Mutable, at, width);
    }
  }

  /** Copy-assigning a 2 x 2 array into a 1 x 1 one, as written: the new buffer
      has four slots but only slot 0 is copy-constructed, so the result is not a
      valid array. */
  method CopyAssignAsWrittenCounterexample() returns (a: Array2D<int>)
    ensures fresh(a) && a.width == 2 && a.height == 2
    ensures a.live == {0} && 1 !in a.live && !a.Valid()
  {
    a := new Array2D<int>(1, 1);
    var o := new Array2D<int>(2, 2);
    a.CopyAssignAsWritten(o);
    assert 0 in Layout.Slots(1);
    assert forall i :: i in Layout.Slots(1) ==> i == 0;
  }
}
