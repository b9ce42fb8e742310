/** array2d_column_iterator: a random-access cursor that walks down one column of
    an array2d. Every step moves it by a stride fixed when it is made (the array's
    width). */
module ColumnIterator {
  import opened Constness

  /** `pos` is the distance, in elements, from the first element of the buffer
      (`_m_pos`); `stride` is `_m_width`. */
  datatype Iter = Iter(access: Access, pos: int, stride: nat)

  /** The non-const to const converting constructor: position and stride are copied. */
  function AsConst(it: Iter): (r: Iter)
    ensures r.access == ReadOnly && Equal(r, it) && r.stride == it.stride
  {
    Iter(ReadOnly, it.pos, it.stride)
  }

  /** `it + n`: the same kind of cursor with the same stride, n strides on. It
      moves forward exactly when n and the stride are positive, and stays put
      exactly when n or the stride is zero. */
  function Plus(it: Iter, n: int): (r: Iter)
    ensures r.access == it.access && r.stride == it.stride && r.pos == it.pos + n * it.stride
    ensures Less(it, r) <==> n > 0 && it.stride > 0
    ensures Equal(it, r) <==> n == 0 || it.stride == 0
  {
    it.(pos := it.pos + n * it.stride)
  }

  /** `it - n`: the same jump as `it + (-n)`, n strides back. */
  function Minus(it: Iter, n: int): (r: Iter)
    ensures r == Plus(it, -n)
    ensures Greater(it, r) <==> n > 0 && it.stride > 0
  {
    it.(pos := it.pos - n * it.stride)
  }

  /** `*it`. */
  function Deref<T>(buf: seq<T>, it: Iter): (v: T)
    requires 0 <= it.pos < |buf|
    ensures v == buf[it.pos] && v == buf[AsConst(it).pos]
  {
    buf[it.pos]
  }

  /** `it[n]`: the element n strides away. */
  function Subscript<T>(buf: seq<T>, it: Iter, n: int): (v: T)
    requires 0 <= it.pos + n * it.stride < |buf|
    ensures v == Deref(buf, Plus(it, n))
  {
    buf[it.pos + n * it.stride]
  }

  /** The six comparison operators, mixed const/non-const ones included: all of
      them look at the position alone. `<` is the base relation; the others are
      stated in terms of it. No cursor is before itself. */
  predicate Less(a: Iter, b: Iter)
    ensures Less(a, b) ==> a != b
  {
    a.pos < b.pos
  }

  predicate Greater(a: Iter, b: Iter)
    ensures Greater(a, b) <==> Less(b, a)
  {
    a.pos > b.pos
  }

  /** `==`: neither cursor is before the other. The stride plays no part. */
  predicate Equal(a: Iter, b: Iter)
    ensures Equal(a, b) <==> !Less(a, b) && !Less(b, a)
  {
    a.pos == b.pos
  }

  predicate NotEqual(a: Iter, b: Iter)
    ensures NotEqual(a, b) <==> !Equal(a, b)
  {
    a.pos != b.pos
  }

  /** `<=` is written `!(a > b)`. */
  predicate LessEq(a: Iter, b: Iter)
    ensures LessEq(a, b) <==> Less(a, b) || Equal(a, b)
  {
    !(a.pos > b.pos)
  }

  /** `>=` is written `!(a < b)`. */
  predicate GreaterEq(a: Iter, b: Iter)
    ensures GreaterEq(a, b) <==> Greater(a, b) || Equal(a, b)
  {
    !(a.pos < b.pos)
  }

  /** Prefix `++it`. */
  method Increment(it: Iter) returns (r: Iter)
    ensures r == Plus(it, 1)
  {
    r := it.(pos := it.pos + it.stride);
  }

  /** Postfix `it++`: the moved cursor and the copy taken before the move. */
  method PostIncrement(it: Iter) returns (r: Iter, was: Iter)
    ensures r == Plus(it, 1) && was == it
  {
    was := it;
    r := it.(pos := it.pos + it.stride);
  }

  /** Prefix `--it`. */
  method Decrement(it: Iter) returns (r: Iter)
    ensures r == Minus(it, 1)
  {
    r := it.(pos := it.pos - it.stride);
  }

  /** Postfix `it--`. */
  method PostDecrement(it: Iter) returns (r: Iter, was: Iter)
    ensures r == Minus(it, 1) && was == it
  {
    was := it;
    r := it.(pos := it.pos - it.stride);
  }

  /** `it += n`. */
  method AddAssign(it: Iter, n: int) returns (r: Iter)
    ensures r == Plus(it, n)
  {
    r := it.(pos := it.pos + n * it.stride);
  }

  /** `it -= n`. */
  method SubAssign(it: Iter, n: int) returns (r: Iter)
    ensures r == Minus(it, n)
  {
    r := it.(pos := it.pos - n * it.stride);
  }

  /** The cursor after k successive `++`. */
  function Advance(it: Iter, k: nat): Iter
    decreases k
  {
    if k == 0 then it else Advance(Plus(it, 1), k - 1)
  }

  /** The cursor after k successive `--`. */
  function Retreat(it: Iter, k: nat): Iter
    decreases k
  {
    if k == 0 then it else Retreat(Minus(it, 1), k - 1)
  }

  /** The slots `*it` designates while the cursor is stepped k times with `++`. */
  function Visit(it: Iter, k: nat): seq<int>
    decreases k
  {
    if k == 0 then [] else [it.pos] + Visit(Plus(it, 1), k - 1)
  }

  /** Jumping by k strides is the same as stepping k times. */
  lemma {:induction false} AdvanceIsPlus(it: Iter, k: nat)
    ensures Advance(it, k) == Plus(it, k)
    decreases k
  {
    if k > 0 {
      AdvanceIsPlus(Plus(it, 1), k - 1);
      assert (k - 1) * it.stride + it.stride == k * it.stride;
    }
  }

  /** Jumping back by k strides is the same as stepping back k times. */
  lemma {:induction false} RetreatIsMinus(it: Iter, k: nat)
    ensures Retreat(it, k) == Minus(it, k)
    decreases k
  {
    if k > 0 {
      RetreatIsMinus(Minus(it, 1), k - 1);
      assert (k - 1) * it.stride + it.stride == k * it.stride;
    }
  }

  /** `(it + n) - n == it` and `(it - n) + n == it`; `it - n` is `it + (-n)`. */
  lemma PlusMinusInverse(it: Iter, n: int)
    ensures Minus(Plus(it, n), n) == it && Plus(Minus(it, n), n) == it
    ensures Minus(it, n) == Plus(it, -n)
  {
  }

  /** Two jumps compose into one. */
  lemma PlusCompose(it: Iter, m: int, n: int)
    ensures Plus(Plus(it, m), n) == Plus(it, m + n)
  {
    assert m * it.stride + n * it.stride == (m + n) * it.stride;
  }

  /** A walk of k steps yields k slots. */
  lemma {:induction false} VisitLength(it: Iter, k: nat)
    ensures |Visit(it, k)| == k
    decreases k
  {
    if k > 0 {
      VisitLength(Plus(it, 1), k - 1);
    }
  }

  /** The i-th slot visited is `it + i`, i strides from the start. */
  lemma {:induction false} VisitAt(it: Iter, k: nat, i: nat)
    requires i < k
    ensures |Visit(it, k)| == k && Visit(it, k)[i] == it.pos + i * it.stride
    decreases k
  {
    VisitLength(it, k);
    if i > 0 {
      VisitAt(Plus(it, 1), k - 1, i - 1);
      assert it.stride + (i - 1) * it.stride == i * it.stride;
    }
  }

  /** With a positive stride the cursor never returns to a slot: k steps reach a
      given cursor for at most one k. */
  lemma AdvanceStrictlyIncreasing(it: Iter, j: nat, k: nat)
    requires it.stride > 0 && j < k
    ensures Less(Advance(it, j), Advance(it, k))
  {
    AdvanceIsPlus(it, j);
    AdvanceIsPlus(it, k);
    assert k * it.stride == j * it.stride + (k - j) * it.stride;
    assert (k - j) * it.stride > 0;
  }

  /** Cursors at one position compare equal whatever their strides: no cross-width
      check is made. */
  lemma EqualIgnoresStride(a: Iter, b: Iter)
    requires a.pos == b.pos
    ensures Equal(a, b) && !NotEqual(a, b) && LessEq(a, b) && GreaterEq(a, b)
  {
  }

  /** The operators form a total order on positions. */
  lemma ComparisonsTotalOrder(a: Iter, b: Iter, c: Iter)
    ensures LessEq(a, b) <==> Less(a, b) || Equal(a, b)
    ensures GreaterEq(a, b) <==> Greater(a, b) || Equal(a, b)
    ensures NotEqual(a, b) <==> !Equal(a, b)
    ensures Less(a, b) <==> Greater(b, a)
    ensures (Less(a, b) && !Equal(a, b) && !Greater(a, b))
         || (!Less(a, b) && Equal(a, b) && !Greater(a, b))
         || (!Less(a, b) && !Equal(a, b) && Greater(a, b))
    ensures Less(a, b) && Less(b, c) ==> Less(a, c)
    ensures LessEq(a, b) && LessEq(b, a) ==> Equal(a, b)
  {
  }

  /** Converting either operand to const changes no comparison. */
  lemma MixedComparisonsAgree(a: Iter, b: Iter)
    ensures Equal(a, b) == Equal(AsConst(a), b) == Equal(a, AsConst(b))
    ensures NotEqual(a, b) == NotEqual(AsConst(a), b) == NotEqual(a, AsConst(b))
    ensures Less(a, b) == Less(AsConst(a), b) == Less(a, AsConst(b))
    ensures Greater(a, b) == Greater(AsConst(a), b) == Greater(a, AsConst(b))
    ensures LessEq(a, b) == LessEq(AsConst(a), b) == LessEq(a, AsConst(b))
    ensures GreaterEq(a, b) == GreaterEq(AsConst(a), b) == GreaterEq(a, AsConst(b))
  {
  }
}
