/** emplacer: rebuilds the element in one slot of a buffer and hands back the
    slot. Which specialisation runs is chosen at compile time by whether the
    element type is trivially destructible. */
module Emplacer {

  /** `emplacer<Iter, true>` (Trivial: construct over the old bits) or
      `emplacer<Iter, false>` (NonTrivial: destroy the old object first). */
  datatype Policy = Trivial | NonTrivial

  /** `emplace(pos, args...)`: the slot ends up holding `v`, every other slot is
      untouched, and the result designates the slot. `live` is the set of slots
      that hold a constructed object; the NonTrivial policy runs the destructor
      of the object at `pos`, so that object must be live. `mid` is the live set
      between the two steps: the destroy step removes `pos` from it, the
      Trivial policy skips that step. Either way the slot holds exactly one live
      object afterwards: rebuilding a live slot leaves the live objects as they
      were, and constructing into a dead one adds one. */
  method Emplace<T>(policy: Policy, buf: array<T>, pos: int, v: T, ghost live: set<int>)
    returns (at: int, ghost mid: set<int>, ghost live': set<int>)
    requires 0 <= pos < buf.Length
    requires policy == NonTrivial ==> pos in live
    modifies buf
    ensures at == pos
    ensures buf[..] == old(buf[..])[pos := v]
    ensures policy == NonTrivial ==> mid == live - {pos}
    ensures policy == Trivial ==> mid == live
    ensures live' == mid + {pos} && live' == live + {pos}
    ensures pos in live ==> live' == live
    ensures pos !in live ==> |live'| == |live| + 1
  {
    mid := live;
    if policy == NonTrivial {
      mid := mid - {pos};
    }
    buf[pos] := v;
    live' := mid + {pos};
    at := pos;
  }
}
