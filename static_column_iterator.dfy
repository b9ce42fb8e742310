/** static_array2d_column_iterator: the column cursor of static_array2d. Its stride
    is the template argument `Width`, so no stride is stored in the cursor; every
    operation here takes that compile-time width as `width`. */
module StaticColumnIterator {
  import opened Constness

  /** `pos` is the distance, in elements, from the first element of the buffer. */
  datatype Iter = Iter(access: Access, pos: int)

  /** The non-const to const converting constructor: the position is copied. */
  function AsConst(it: Iter): (r: Iter)
    ensures r.access == ReadOnly && Equal(r, it)
  {
    Iter(ReadOnly, it.pos)
  }

  /** `it + n`: the same kind of cursor, n rows further down. It moves forward
      exactly when n and the width are positive, and stays put exactly when n or
      the width is zero. */
  function Plus(it: Iter, n: int, width: nat): (r: Iter)
    ensures r.access == it.access && r.pos == it.pos + n * width
    ensures Less(it, r) <==> n > 0 && width > 0
    ensures Equal(it, r) <==> n == 0 || width == 0
  {
    it.(pos := it.pos + n * width)
  }

  /** `it - n`: the same jump as `it + (-n)`, n rows further up. */
  function Minus(it: Iter, n: int, width: nat): (r: Iter)
    ensures r == Plus(it, -n, width)
    ensures Greater(it, r) <==> n > 0 && width > 0
  {
    it.(pos := it.pos - n * width)
  }

  /** `*it`. */
  function Deref<T>(buf: seq<T>, it: Iter): (v: T)
    requires 0 <= it.pos < |buf|
    ensures v == buf[it.pos] && v == buf[AsConst(it).pos]
  {
    buf[it.pos]
  }

  /** `it[n]`. */
  function Subscript<T>(buf: seq<T>, it: Iter, n: int, width: nat): (v: T)
    requires 0 <= it.pos + n * width < |buf|
    ensures v == Deref(buf, Plus(it, n, width))
  {
    buf[it.pos + n * width]
  }

  /** The six comparison operators, mixed const/non-const ones included: all of
      them look at the position alone. `<` is the base relation; the others are
      stated in terms of it. No cursor is before itself. */
  predicate Less(a: Iter, b: Iter)
    ensures Less(a, b) ==> a != b
  {
    a.pos < b.pos
  }

  predicate Greater(a: Iter, b: Iter)
    ensures Greater(a, b) <==> Less(b, a)
  {
    a.pos > b.pos
  }

  /** `==`: neither cursor is before the other. */
  predicate Equal(a: Iter, b: Iter)
    ensures Equal(a, b) <==> !Less(a, b) && !Less(b, a)
  {
    a.pos == b.pos
  }

  predicate NotEqual(a: Iter, b: Iter)
    ensures NotEqual(a, b) <==> !Equal(a, b)
  {
    a.pos != b.pos
  }

  /** `<=` is written `!(a > b)`. */
  predicate LessEq(a: Iter, b: Iter)
    ensures LessEq(a, b) <==> Less(a, b) || Equal(a, b)
  {
    !(a.pos > b.pos)
  }

  /** `>=` is written `!(a < b)`. */
  predicate GreaterEq(a: Iter, b: Iter)
    ensures GreaterEq(a, b) <==> Greater(a, b) || Equal(a, b)
  {
    !(a.pos < b.pos)
  }

  /** Prefix `++it`. */
  method Increment(it: Iter, width: nat) returns (r: Iter)
    ensures r == Plus(it, 1, width)
  {
    r := it.(pos := it.pos + width);
  }

  /** Postfix `it++`: the moved cursor and the copy taken before the move. */
  method PostIncrement(it: Iter, width: nat) returns (r: Iter, was: Iter)
    ensures r == Plus(it, 1, width) && was == it
  {
    was := it;
    r := it.(pos := it.pos + width);
  }

  /** Prefix `--it`. */
  method Decrement(it: Iter, width: nat) returns (r: Iter)
    ensures r == Minus(it, 1, width)
  {
    r := it.(pos := it.pos - width);
  }

  /** Postfix `it--`. */
  method PostDecrement(it: Iter, width: nat) returns (r: Iter, was: Iter)
    ensures r == Minus(it, 1, width) && was == it
  {
    was := it;
    r := it.(pos := it.pos - width);
  }

  /** `it += n`. */
  method AddAssign(it: Iter, n: int, width: nat) returns (r: Iter)
    ensures r == Plus(it, n, width)
  {
    r := it.(pos := it.pos + n * width);
  }

  /** `it -= n`. */
  method SubAssign(it: Iter, n: int, width: nat) returns (r: Iter)
    ensures r == Minus(it, n, width)
  {
    r := it.(pos := it.pos - n * width);
  }

  /** The cursor after k successive `++`. */
  function Advance(it: Iter, k: nat, width: nat): Iter
    decreases k
  {
    if k == 0 then it else Advance(Plus(it, 1, width), k - 1, width)
  }

  /** The cursor after k successive `--`. */
  function Retreat(it: Iter, k: nat, width: nat): Iter
    decreases k
  {
    if k == 0 then it else Retreat(Minus(it, 1, width), k - 1, width)
  }

  /** The slots `*it` designates while the cursor is stepped k times with `++`. */
  function Visit(it: Iter, k: nat, width: nat): seq<int>
    decreases k
  {
    if k == 0 then [] else [it.pos] + Visit(Plus(it, 1, width), k - 1, width)
  }

  /** Jumping by k rows is the same as stepping k times. */
  lemma {:induction false} AdvanceIsPlus(it: Iter, k: nat, width: nat)
    ensures Advance(it, k, width) == Plus(it, k, width)
    decreases k
  {
    if k > 0 {
      AdvanceIsPlus(Plus(it, 1, width), k - 1, width);
      assert (k - 1) * width + width == k * width;
    }
  }

  /** Jumping back by k rows is the same as stepping back k times. */
  lemma {:induction false} RetreatIsMinus(it: Iter, k: nat, width: nat)
    ensures Retreat(it, k, width) == Minus(it, k, width)
    decreases k
  {
    if k > 0 {
      RetreatIsMinus(Minus(it, 1, width), k - 1, width);
      assert (k - 1) * width + width == k * width;
    }
  }

  /** `(it + n) - n == it` and `(it - n) + n == it`; `it - n` is `it + (-n)`. */
  lemma PlusMinusInverse(it: Iter, n: int, width: nat)
    ensures Minus(Plus(it, n, width), n, width) == it
    ensures Plus(Minus(it, n, width), n, width) == it
    ensures Minus(it, n, width) == Plus(it, -n, width)
  {
  }

  /** Two jumps compose into one. */
  lemma PlusCompose(it: Iter, m: int, n: int, width: nat)
    ensures Plus(Plus(it, m, width), n, width) == Plus(it, m + n, width)
  {
    assert m * width + n * width == (m + n) * width;
  }

  /** A walk of k steps yields k slots. */
  lemma {:induction false} VisitLength(it: Iter, k: nat, width: nat)
    ensures |Visit(it, k, width)| == k
    decreases k
  {
    if k > 0 {
      VisitLength(Plus(it, 1, width), k - 1, width);
    }
  }

  /** The i-th slot visited is i rows below the start. */
  lemma {:induction false} VisitAt(it: Iter, k: nat, i: nat, width: nat)
    requires i < k
    ensures |Visit(it, k, width)| == k && Visit(it, k, width)[i] == it.pos + i * width
    decreases k
  {
    VisitLength(it, k, width);
    if i > 0 {
      VisitAt(Plus(it, 1, width), k - 1, i - 1, width);
      assert width + (i - 1) * width == i * width;
    }
  }

  /** With a positive width the cursor never returns to a slot. */
  lemma AdvanceStrictlyIncreasing(it: Iter, j: nat, k: nat, width: nat)
    requires width > 0 && j < k
    ensures Less(Advance(it, j, width), Advance(it, k, width))
  {
    AdvanceIsPlus(it, j, width);
    AdvanceIsPlus(it, k, width);
    assert k * width == j * width + (k - j) * width;
    assert (k - j) * width > 0;
  }

  /** The operators form a total order on positions. */
  lemma ComparisonsTotalOrder(a: Iter, b: Iter, c: Iter)
    ensures LessEq(a, b) <==> Less(a, b) || Equal(a, b)
    ensures GreaterEq(a, b) <==> Greater(a, b) || Equal(a, b)
    ensures NotEqual(a, b) <==> !Equal(a, b)
    ensures Less(a, b) <==> Greater(b, a)
    ensures (Less(a, b) && !Equal(a, b) && !Greater(a, b))
         || (!Less(a, b) && Equal(a, b) && !Greater(a, b))
         || (!Less(a, b) && !Equal(a, b) && Greater(a, b))
    ensures Less(a, b) && Less(b, c) ==> Less(a, c)
    ensures LessEq(a, b) && LessEq(b, a) ==> Equal(a, b)
  {
  }

  /** Converting either operand to const changes no comparison. */
  lemma MixedComparisonsAgree(a: Iter, b: Iter)
    ensures Equal(a, b) == Equal(AsConst(a), b) == Equal(a, AsConst(b))
    ensures NotEqual(a, b) == NotEqual(AsConst(a), b) == NotEqual(a, AsConst(b))
    ensures Less(a, b) == Less(AsConst(a), b) == Less(a, AsConst(b))
    ensures Greater(a, b) == Greater(AsConst(a), b) == Greater(a, AsConst(b))
    ensures LessEq(a, b) == LessEq(AsConst(a), b) == LessEq(a, AsConst(b))
    ensures GreaterEq(a, b) == GreaterEq(AsConst(a), b) == GreaterEq(a, AsConst(b))
  {
  }
}
