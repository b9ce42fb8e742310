/** Client code that uses only the contracts of the two array classes: the
    traversals of a filled 3 x 2 array, a rebuilt cell of a 2 x 2 static array,
    and what copying and moving leave behind. */
module Scenarios {
  import opened Constness
  import LinearIterator
  import ColumnIterator
  import Emplacer
  import Array2D
  import StaticArray2D

  /** A 3 x 2 array filled with 1 .. 6 row by row through `emplace(x, y, v)`. */
  method FillThreeByTwo() returns (a: Array2D.Array2D<int>)
    ensures fresh(a) && a.Valid() && a.width == 3 && a.height == 2
    ensures a.data[..] == [1, 2, 3, 4, 5, 6]
  {
    a := new Array2D.Array2D<int>(3, 2);
    var it := a.EmplaceAt(Emplacer.Trivial, 0, 0, 1);
    it := a.EmplaceAt(Emplacer.Trivial, 1, 0, 2);
    it := a.EmplaceAt(Emplacer.Trivial, 2, 0, 3);
    assert a.data[..3] == [1, 2, 3];
    it := a.EmplaceAt(Emplacer.Trivial, 0, 1, 4);
    it := a.EmplaceAt(Emplacer.Trivial, 1, 1, 5);
    it := a.EmplaceAt(Emplacer.Trivial, 2, 1, 6);
  }

  /** The filled 3 x 2 array: row 0 reads 1, 2, 3, row 1 reads 4, 5, 6, column 1
      reads 2, 5, and the whole array reads 1 .. 6. */
  method ThreeByTwo()
  {
    var a := FillThreeByTwo();
    ReadRows(a);
    ReadColumn(a);
    ReadAll(a);
  }

  /** Rows 0 and 1 of the filled array, each walked from `row_begin(y)`. */
  method ReadRows(a: Array2D.Array2D<int>)
    requires a.Valid() && a.width == 3 && a.height == 2
    requires a.data[..] == [1, 2, 3, 4, 5, 6]
  {
    ReadRowFrom(a, 0, a.RowBegin(Mutable, 0));
    ReadRowFrom(a, 1, a.RowBegin(Mutable, 1));
  }

  /** Three `++` steps from the start of row y designate slots 3y .. 3y + 2,
      which hold 3y + 1 .. 3y + 3. */
  method ReadRowFrom(a: Array2D.Array2D<int>, y: nat, first: LinearIterator.Iter)
    requires a.Valid() && a.width == 3 && a.height == 2 && y < 2
    requires a.data[..] == [1, 2, 3, 4, 5, 6]
    requires first.pos == 3 * y
  {
    var row := LinearIterator.Visit(first, 3);
    forall x | 0 <= x < 3
      ensures row[x] == 3 * y + x && a.data[row[x]] == 3 * y + x + 1
    {
      LinearIterator.VisitAt(first, 3, x);
    }
  }

  /** Column 1 of the filled array, walked from `column_begin(1)`. */
  method ReadColumn(a: Array2D.Array2D<int>)
    requires a.Valid() && a.width == 3 && a.height == 2
    requires a.data[..] == [1, 2, 3, 4, 5, 6]
  {
    ReadColumnFrom(a, a.ColumnBegin(Mutable, 1));
  }

  /** Two `++` steps from slot 1 with stride 3 designate slots 1 and 4, which
      hold 2 and 5. */
  method ReadColumnFrom(a: Array2D.Array2D<int>, first: ColumnIterator.Iter)
    requires a.Valid() && a.width == 3 && a.height == 2
    requires a.data[..] == [1, 2, 3, 4, 5, 6]
    requires first.pos == 1 && first.stride == 3
  {
    var column := ColumnIterator.Visit(first, 2);
    forall k | 0 <= k < 2
      ensures column[k] == 1 + 3 * k && a.data[column[k]] == 2 + 3 * k
    {
      ColumnIterator.VisitAt(first, 2, k);
    }
  }

  /** The whole array, walked from `begin()`, reads 1 .. 6. */
  method ReadAll(a: Array2D.Array2D<int>)
    requires a.Valid() && a.width == 3 && a.height == 2
    requires a.data[..] == [1, 2, 3, 4, 5, 6]
  {
    var first := a.Begin(Mutable);
    var all := LinearIterator.Visit(first, 6);
    forall p | 0 <= p < 6
      ensures all[p] == p && a.data[all[p]] == p + 1
    {
      LinearIterator.VisitAt(first, 6, p);
    }
  }

  /** Rebuilding cell (1, 1) of a 2 x 2 static array with 9 changes that cell and
      leaves the three others as they were. */
  method StaticTwoByTwo()
  {
    var s := new StaticArray2D.StaticArray2D<int>(2, 2);
    var before := s.data[..];
    var it := s.EmplaceAt(Emplacer.Trivial, 1, 1, 9);
    assert s.data[s.Index(1, 1)] == 9;
    assert s.data[s.Index(0, 0)] == before[0];
    assert s.data[s.Index(1, 0)] == before[1];
    assert s.data[s.Index(0, 1)] == before[2];
  }

  /** A copy has the source's shape and elements; writing to the copy leaves the
      source as it was. */
  method CopyIsIndependent(a: Array2D.Array2D<int>, v: int)
    requires a.Valid() && a.width > 0 && a.height > 0
  {
    var b := new Array2D.Array2D<int>.Copy(a);
    assert b.width == a.width && b.height == a.height && b.data[..] == a.data[..];
    var it := b.EmplaceAt(Emplacer.NonTrivial, 0, 0, v);
    assert b.data[b.Index(0, 0)] == v;
    assert a.data[..] == old(a.data[..]);
  }

  /** Moving hands the very buffer to the new array, with its elements, and
      leaves the source without one. */
  method MoveTransfersBuffer(a: Array2D.Array2D<int>)
    requires a.Valid()
    modifies a
  {
    ghost var buffer, contents := a.data, a.data[..];
    var b := new Array2D.Array2D<int>.Move(a);
    assert b.data == buffer && b.data[..] == contents;
    assert a.MovedFrom();
  }
}
