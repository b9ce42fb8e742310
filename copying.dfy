/** The two element-copying loops the arrays run: `std::uninitialized_copy_n`
    (array2d's copy constructor and copy assignment) and `std::copy` over linear
    iterators (static_array2d's copy constructor and copy assignment). */
module Copying {
  import LinearIterator

  /** Copies the first n elements of `src` into the first n slots of `dst`. */
  method CopyN<T>(src: array<T>, n: nat, dst: array<T>)
    requires n <= src.Length && n <= dst.Length
    requires src != dst
    modifies dst
    ensures dst[..n] == src[..n]
    ensures dst[n..] == old(dst[n..])
  {
    var i := 0;
    while i < n
      invariant 0 <= i <= n
      invariant dst[..i] == src[..i]
      invariant dst[i..] == old(dst[i..])
    {
      dst[i] := src[i];
      i := i + 1;
    }
  }

  /** Copies the range [first, last) of `src` to the slots of `dst` starting at
      `out`, stepping both cursors with `++`, and returns the cursor after the
      last slot written. The destination may not start inside the source range,
      which for two distinct buffers it cannot. */
  method CopyRange<T>(src: array<T>, first: LinearIterator.Iter, last: LinearIterator.Iter,
                      dst: array<T>, out: LinearIterator.Iter)
    returns (outEnd: LinearIterator.Iter)
    requires 0 <= first.pos <= last.pos <= src.Length
    requires 0 <= out.pos && out.pos + (last.pos - first.pos) <= dst.Length
    requires src != dst
    modifies dst
    ensures outEnd == LinearIterator.Plus(out, last.pos - first.pos)
    ensures dst[..] == old(dst[..out.pos]) + src[first.pos..last.pos] + old(dst[outEnd.pos..])
  {
    var it, d := first, out;
    while LinearIterator.NotEqual(it, last)
      invariant first.pos <= it.pos <= last.pos
      invariant d == LinearIterator.Plus(out, it.pos - first.pos)
      invariant dst[..] == old(dst[..out.pos]) + src[first.pos..it.pos] + old(dst[d.pos..])
      decreases last.pos - it.pos
    {
      dst[d.pos] := LinearIterator.Deref(src[..], it);
      assert src[first.pos..it.pos + 1] == src[first.pos..it.pos] + [src[it.pos]];
      it := LinearIterator.Increment(it);
      d := LinearIterator.Increment(d);
    }
    outEnd := d;
  }
}
