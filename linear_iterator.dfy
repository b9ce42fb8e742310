/** array2d_iterator: a random-access cursor over one contiguous buffer. It walks
    the whole array in row-major order and, unchanged, serves as the row iterator
    of both array kinds. */
module LinearIterator {
  import opened Constness

  /** `pos` is the cursor's distance, in elements, from the first element of the
      buffer it points into (the pointer `_m_pos`). */
  datatype Iter = Iter(access: Access, pos: int)

  /** The non-const to const converting constructor: the position is copied. */
  function AsConst(it: Iter): (r: Iter)
    ensures r.access == ReadOnly && Equal(r, it)
  {
    Iter(ReadOnly, it.pos)
  }

  /** `it + n`: the same kind of cursor, n elements on; it moves forward exactly
      when n is positive and stays put exactly when n is zero. */
  function Plus(it: Iter, n: int): (r: Iter)
    ensures r.access == it.access && r.pos == it.pos + n
    ensures Less(it, r) <==> n > 0
    ensures Equal(it, r) <==> n == 0
  {
    it.(pos := it.pos + n)
  }

  /** `it - n`: the same jump as `it + (-n)`. */
  function Minus(it: Iter, n: int): (r: Iter)
    ensures r == Plus(it, -n)
    ensures Greater(it, r) <==> n > 0
  {
    it.(pos := it.pos - n)
  }

  /** `*it`, read from the buffer the cursor points into. */
  function Deref<T>(buf: seq<T>, it: Iter): (v: T)
    requires 0 <= it.pos < |buf|
    ensures v == buf[it.pos] && v == buf[AsConst(it).pos]
  {
    buf[it.pos]
  }

  /** `it[n]`. */
  function Subscript<T>(buf: seq<T>, it: Iter, n: int): (v: T)
    requires 0 <= it.pos + n < |buf|
    ensures v == Deref(buf, Plus(it, n))
  {
    buf[it.pos + n]
  }

  /** The six comparison operators, mixed const/non-const ones included: all of
      them look at the position alone. `<` is the base relation; the others are
      stated in terms of it. No cursor is before itself. */
  predicate Less(a: Iter, b: Iter)
    ensures Less(a, b) ==> a != b
  {
    a.pos < b.pos
  }

  predicate Greater(a: Iter, b: Iter)
    ensures Greater(a, b) <==> Less(b, a)
  {
    a.pos > b.pos
  }

  /** `==`: neither cursor is before the other. */
  predicate Equal(a: Iter, b: Iter)
    ensures Equal(a, b) <==> !Less(a, b) && !Less(b, a)
  {
    a.pos == b.pos
  }

  predicate NotEqual(a: Iter, b: Iter)
    ensures NotEqual(a, b) <==> !Equal(a, b)
  {
    a.pos != b.pos
  }

  /** `<=` is written `!(a > b)`. */
  predicate LessEq(a: Iter, b: Iter)
    ensures LessEq(a, b) <==> Less(a, b) || Equal(a, b)
  {
    !(a.pos > b.pos)
  }

  /** `>=` is written `!(a < b)`. */
  predicate GreaterEq(a: Iter, b: Iter)
    ensures GreaterEq(a, b) <==> Greater(a, b) || Equal(a, b)
  {
    !(a.pos < b.pos)
  }

  /** Prefix `++it`: the cursor after the call. */
  method Increment(it: Iter) returns (r: Iter)
    ensures r == Plus(it, 1)
  {
    r := it.(pos := it.pos + 1);
  }

  /** Postfix `it++`: the moved cursor and the value the expression yields. */
  method PostIncrement(it: Iter) returns (r: Iter, was: Iter)
    ensures r == Plus(it, 1) && was == it
  {
    was := it;
    r := it.(pos := it.pos + 1);
  }

  /** Prefix `--it`. */
  method Decrement(it: Iter) returns (r: Iter)
    ensures r == Minus(it, 1)
  {
    r := it.(pos := it.pos - 1);
  }

  /** Postfix `it--`. */
  method PostDecrement(it: Iter) returns (r: Iter, was: Iter)
    ensures r == Minus(it, 1) && was == it
  {
    was := it;
    r := it.(pos := it.pos - 1);
  }

  /** `it += n`. */
  method AddAssign(it: Iter, n: int) returns (r: Iter)
    ensures r == Plus(it, n)
  {
    r := it.(pos := it.pos + n);
  }

  /** `it -= n`. */
  method SubAssign(it: Iter, n: int) returns (r: Iter)
    ensures r == Minus(it, n)
  {
    r := it.(pos := it.pos - n);
  }

  /** The cursor after k successive `++`. */
  function Advance(it: Iter, k: nat): Iter
    decreases k
  {
    if k == 0 then it else Advance(Plus(it, 1), k - 1)
  }

  /** The cursor after k successive `--`. */
  function Retreat(it: Iter, k: nat): Iter
    decreases k
  {
    if k == 0 then it else Retreat(Minus(it, 1), k - 1)
  }

  /** The slots `*it` designates while the cursor is stepped k times with `++`. */
  function Visit(it: Iter, k: nat): seq<int>
    decreases k
  {
    if k == 0 then [] else [it.pos] + Visit(Plus(it, 1), k - 1)
  }

  /** Jumping by n is the same as stepping n times. */
  lemma {:induction false} AdvanceIsPlus(it: Iter, k: nat)
    ensures Advance(it, k) == Plus(it, k)
    decreases k
  {
    if k > 0 {
      AdvanceIsPlus(Plus(it, 1), k - 1);
    }
  }

  /** Jumping back by n is the same as stepping back n times. */
  lemma {:induction false} RetreatIsMinus(it: Iter, k: nat)
    ensures Retreat(it, k) == Minus(it, k)
    decreases k
  {
    if k > 0 {
      RetreatIsMinus(Minus(it, 1), k - 1);
    }
  }

  /** `(it + n) - n == it` and `(it - n) + n == it`; `it - n` is `it + (-n)`. */
  lemma PlusMinusInverse(it: Iter, n: int)
    ensures Minus(Plus(it, n), n) == it && Plus(Minus(it, n), n) == it
    ensures Minus(it, n) == Plus(it, -n)
  {
  }

  /** Two jumps compose into one. */
  lemma PlusCompose(it: Iter, m: int, n: int)
    ensures Plus(Plus(it, m), n) == Plus(it, m + n)
  {
  }

  /** The i-th slot visited is `it + i`: a walk of k steps covers the k consecutive
      slots from the cursor on. */
  lemma {:induction false} VisitAt(it: Iter, k: nat, i: nat)
    requires i < k
    ensures |Visit(it, k)| == k && Visit(it, k)[i] == Plus(it, i).pos
    decreases k
  {
    VisitLength(it, k);
    if i > 0 {
      VisitAt(Plus(it, 1), k - 1, i - 1);
    }
  }

  /** A walk of k steps yields k slots. */
  lemma {:induction false} VisitLength(it: Iter, k: nat)
    ensures |Visit(it, k)| == k
    decreases k
  {
    if k > 0 {
      VisitLength(Plus(it, 1), k - 1);
    }
  }

  /** The operators form a total order on positions: `<=` is `<` or `==`, `>=` is
      `>` or `==`, `!=` negates `==`, exactly one of `<`, `==`, `>` holds, and `<`
      is transitive. */
  lemma ComparisonsTotalOrder(a: Iter, b: Iter, c: Iter)
    ensures LessEq(a, b) <==> Less(a, b) || Equal(a, b)
    ensures GreaterEq(a, b) <==> Greater(a, b) || Equal(a, b)
    ensures NotEqual(a, b) <==> !Equal(a, b)
    ensures Less(a, b) <==> Greater(b, a)
    ensures (Less(a, b) && !Equal(a, b) && !Greater(a, b))
         || (!Less(a, b) && Equal(a, b) && !Greater(a, b))
         || (!Less(a, b) && !Equal(a, b) && Greater(a, b))
    ensures Less(a, b) && Less(b, c) ==> Less(a, c)
    ensures LessEq(a, b) && LessEq(b, a) ==> Equal(a, b)
  {
  }

  /** A mutable cursor compared with a const one gives what the two const cursors
      give: the conversion does not change any comparison. */
  lemma MixedComparisonsAgree(a: Iter, b: Iter)
    ensures Equal(a, b) == Equal(AsConst(a), b) == Equal(a, AsConst(b))
    ensures NotEqual(a, b) == NotEqual(AsConst(a), b) == NotEqual(a, AsConst(b))
    ensures Less(a, b) == Less(AsConst(a), b) == Less(a, AsConst(b))
    ensures Greater(a, b) == Greater(AsConst(a), b) == Greater(a, AsConst(b))
    ensures LessEq(a, b) == LessEq(AsConst(a), b) == LessEq(a, AsConst(b))
    ensures GreaterEq(a, b) == GreaterEq(AsConst(a), b) == GreaterEq(a, AsConst(b))
  {
  }
}
