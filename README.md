# array2d in Dafny

This is a model of `array2d.hpp`, a header-only C++ library of two-dimensional
arrays stored row by row in one contiguous buffer. It has two owners:

- `array2d<T>` owns a heap buffer and takes its width and height at run time.
- `static_array2d<T, Width, Height>` holds its buffer inline and fixes its
  dimensions at compile time.

Three cursor kinds walk the buffer:

- `array2d_iterator` is the linear cursor. It is also the row cursor of both
  arrays.
- `array2d_column_iterator` steps down a column, with a stride stored at run
  time.
- `static_array2d_column_iterator` steps down a column by the template argument
  `Width`.

The `emplacer` rebuilds the element in one slot. Its non-trivial specialisation
destroys the old element first.

How the model is laid out:

- **Cursors are values.** A cursor is a datatype with `pos`, its distance in
  elements from the start of the buffer. `access` records whether it is the
  const or the non-const flavour. The runtime column cursor also has a
  `stride`. The pure operators (`+`, `-`, `[]`, `*` and the six comparisons)
  are functions. The operators that update `_m_pos` in place (`++`, `--`, `+=`,
  `-=`) are `modifies`-free methods that return the updated cursor.
- **Walks are specified by functions.** `Advance` and `Retreat` give the cursor
  after k steps. `Visit` gives the k slots the cursor designates along the way.
  The traversal lemmas are stated with these functions.
- **Arrays are classes.** Each array class holds an `array<T>`. Copying runs as
  loops in `Copying`. A ghost set `live` records which slots hold a constructed
  element. `Valid()` says the buffer has width * height slots and that all of
  them are live.
- **Accessors return slots.** `index(x, y)` and `operator()(x, y)` return
  references, so the model returns the slot the reference designates. The
  element is `data[slot]`.
- **Modules:**
  - `Constness` holds the const/non-const flag.
  - `Layout` holds the row-major offset arithmetic.
  - `LinearIterator`, `ColumnIterator` and `StaticColumnIterator` hold the cursors.
  - `Emplacer`, `Copying`, `Array2D` and `StaticArray2D` hold the rest.
  - `Scenarios` holds a few concrete uses of the API.

## Model

| member | source | states |
|---|---|---|
| Layout.OffsetInBounds | array2d.hpp:476-477 | a cell with x < width and y < height lies at an offset inside the width * height buffer |
| Layout.OffsetDecode | array2d.hpp:476-477 | the offset y * width + x gives back its row by division and its column by remainder |
| Layout.OffsetInjective | array2d.hpp:476-477 | two distinct cells never share a slot |
| Layout.OffsetCovers | array2d.hpp:454-455 | every slot below width * height is the offset of the cell named by its remainder and quotient |
| Layout.UpdateCell | array2d.hpp:490-491 | writing the slot of one cell changes that cell and no other |
| Layout.SlotsEqualIff | array2d.hpp:430-431 | the first m slots and the first n slots are the same set exactly when m == n |
| Layout.DivModUnique | array2d.hpp:476-477 | quotient and remainder by a positive width are unique, which is what decoding an offset relies on |
| LinearIterator.Plus | array2d.hpp:81-82 | `it + n` keeps the access and moves the position by n; the result is after `it` exactly when n > 0 and equal to it exactly when n == 0 |
| LinearIterator.Minus | array2d.hpp:84-85 | `it - n` is the jump `it + (-n)`; the result is before `it` exactly when n > 0 |
| LinearIterator.Deref | array2d.hpp:66 | `*it` reads the element at the cursor's position, the same one its const conversion reads |
| LinearIterator.Less | array2d.hpp:95-96 | `<` compares positions alone, so no cursor is before itself |
| LinearIterator.Greater | array2d.hpp:97-98 | `a > b` holds exactly when `b < a` |
| LinearIterator.Equal | array2d.hpp:90-91 | `==` holds exactly when neither cursor is before the other |
| LinearIterator.NotEqual | array2d.hpp:92-93 | `!=` is the negation of `==` |
| LinearIterator.LessEq | array2d.hpp:100-101 | `<=`, written as `!(a > b)`, holds exactly when `a < b` or `a == b` |
| LinearIterator.GreaterEq | array2d.hpp:102-103 | `>=`, written as `!(a < b)`, holds exactly when `a > b` or `a == b` |
| LinearIterator.AsConst | array2d.hpp:57-64 | the non-const to const conversion yields a const cursor equal to the original |
| LinearIterator.Subscript | array2d.hpp:87-88 | `it[n]` reads the element `*(it + n)` |
| LinearIterator.Increment | array2d.hpp:69 | `++it` moves the cursor to `it + 1` |
| LinearIterator.PostIncrement | array2d.hpp:70 | `it++` moves the cursor to `it + 1` and yields the cursor from before the move |
| LinearIterator.Decrement | array2d.hpp:72 | `--it` moves the cursor to `it - 1` |
| LinearIterator.PostDecrement | array2d.hpp:73 | `it--` moves the cursor to `it - 1` and yields the cursor from before the move |
| LinearIterator.AddAssign | array2d.hpp:75-76 | `it += n` leaves the cursor at `it + n` |
| LinearIterator.SubAssign | array2d.hpp:78-79 | `it -= n` leaves the cursor at `it - n` |
| LinearIterator.AdvanceIsPlus | array2d.hpp:69-82 | n successive `++` reach the same cursor as `it + n` |
| LinearIterator.RetreatIsMinus | array2d.hpp:72-85 | n successive `--` reach the same cursor as `it - n` |
| LinearIterator.PlusMinusInverse | array2d.hpp:81-85 | `(it + n) - n == it`, `(it - n) + n == it`, and `it - n` is `it + (-n)` |
| LinearIterator.PlusCompose | array2d.hpp:81-82 | `(it + m) + n == it + (m + n)` |
| LinearIterator.VisitAt | array2d.hpp:66-69 | the i-th slot designated while stepping with `++` is `it + i` |
| LinearIterator.VisitLength | array2d.hpp:66-69 | a walk of k steps designates k slots |
| LinearIterator.ComparisonsTotalOrder | array2d.hpp:90-103 | `<=` is `<` or `==`, `>=` is `>` or `==`, `!=` negates `==`, exactly one of `<`, `==`, `>` holds, `<` is transitive, and `<=` both ways is `==` |
| LinearIterator.MixedComparisonsAgree | array2d.hpp:190-221 | comparing a non-const cursor with a const one, in either order, gives the same answer as the same-flavour comparison |
| ColumnIterator.Plus | array2d.hpp:163-164 | `it + n` keeps the access and the stride and moves the position by n strides; it moves forward exactly when n and the stride are positive and stays put exactly when either is zero |
| ColumnIterator.Minus | array2d.hpp:166-167 | `it - n` is the jump `it + (-n)`; the result is before `it` exactly when n and the stride are positive |
| ColumnIterator.Deref | array2d.hpp:132 | `*it` reads the element at the cursor's position, the same one its const conversion reads |
| ColumnIterator.Less | array2d.hpp:177-178 | `<` compares positions alone, so no cursor is before itself |
| ColumnIterator.Greater | array2d.hpp:179-180 | `a > b` holds exactly when `b < a` |
| ColumnIterator.Equal | array2d.hpp:172-173 | `==` holds exactly when neither cursor is before the other (the stride plays no part) |
| ColumnIterator.NotEqual | array2d.hpp:174-175 | `!=` is the negation of `==` |
| ColumnIterator.LessEq | array2d.hpp:182-183 | `<=`, written as `!(a > b)`, holds exactly when `a < b` or `a == b` |
| ColumnIterator.GreaterEq | array2d.hpp:185-186 | `>=`, written as `!(a < b)`, holds exactly when `a > b` or `a == b` |
| ColumnIterator.AsConst | array2d.hpp:123-130 | the const conversion keeps position and stride and yields a const cursor |
| ColumnIterator.Subscript | array2d.hpp:169-170 | `it[n]` reads the element `*(it + n)`, n strides further on |
| ColumnIterator.Increment | array2d.hpp:135 | `++it` moves down one stride |
| ColumnIterator.PostIncrement | array2d.hpp:136-141 | `it++` moves down one stride and yields the cursor from before the move |
| ColumnIterator.Decrement | array2d.hpp:143 | `--it` moves up one stride |
| ColumnIterator.PostDecrement | array2d.hpp:144-149 | `it--` moves up one stride and yields the cursor from before the move |
| ColumnIterator.AddAssign | array2d.hpp:151-155 | `it += n` leaves the cursor at `it + n`, n strides on |
| ColumnIterator.SubAssign | array2d.hpp:157-161 | `it -= n` leaves the cursor at `it - n` |
| ColumnIterator.AdvanceIsPlus | array2d.hpp:135-164 | n successive `++` reach the same cursor as `it + n` |
| ColumnIterator.RetreatIsMinus | array2d.hpp:143-167 | n successive `--` reach the same cursor as `it - n` |
| ColumnIterator.PlusMinusInverse | array2d.hpp:163-167 | `(it + n) - n == it`, `(it - n) + n == it`, and `it - n` is `it + (-n)` |
| ColumnIterator.PlusCompose | array2d.hpp:163-164 | two jumps compose into one jump of the summed distance |
| ColumnIterator.VisitAt | array2d.hpp:132-135 | the i-th slot designated while stepping is the start plus i strides |
| ColumnIterator.VisitLength | array2d.hpp:132-135 | a walk of k steps designates k slots |
| ColumnIterator.AdvanceStrictlyIncreasing | array2d.hpp:135 | with a positive stride, more steps give a strictly later cursor |
| ColumnIterator.EqualIgnoresStride | array2d.hpp:172-175 | cursors at one position compare equal whatever their strides |
| ColumnIterator.ComparisonsTotalOrder | array2d.hpp:172-186 | the six comparisons form a total order on positions, `<=` being `!(>)` and `>=` being `!(<)` |
| ColumnIterator.MixedComparisonsAgree | array2d.hpp:190-222 | mixed const/non-const comparisons agree with the same-flavour ones |
| StaticColumnIterator.Plus | array2d.hpp:283-284 | `it + n` keeps the access and moves the position by n * Width; it moves forward exactly when n and Width are positive and stays put exactly when either is zero |
| StaticColumnIterator.Minus | array2d.hpp:286-287 | `it - n` is the jump `it + (-n)`; the result is before `it` exactly when n and Width are positive |
| StaticColumnIterator.Deref | array2d.hpp:252 | `*it` reads the element at the cursor's position, the same one its const conversion reads |
| StaticColumnIterator.Less | array2d.hpp:297-298 | `<` compares positions alone, so no cursor is before itself |
| StaticColumnIterator.Greater | array2d.hpp:299-300 | `a > b` holds exactly when `b < a` |
| StaticColumnIterator.Equal | array2d.hpp:292-293 | `==` holds exactly when neither cursor is before the other |
| StaticColumnIterator.NotEqual | array2d.hpp:294-295 | `!=` is the negation of `==` |
| StaticColumnIterator.LessEq | array2d.hpp:302-303 | `<=`, written as `!(a > b)`, holds exactly when `a < b` or `a == b` |
| StaticColumnIterator.GreaterEq | array2d.hpp:305-306 | `>=`, written as `!(a < b)`, holds exactly when `a > b` or `a == b` |
| StaticColumnIterator.AsConst | array2d.hpp:243-250 | the const conversion keeps the position and yields a const cursor |
| StaticColumnIterator.Subscript | array2d.hpp:289-290 | `it[n]` reads the element n * Width slots on |
| StaticColumnIterator.Increment | array2d.hpp:255 | `++it` moves down by Width |
| StaticColumnIterator.PostIncrement | array2d.hpp:256-261 | `it++` moves down by Width and yields the cursor from before the move |
| StaticColumnIterator.Decrement | array2d.hpp:263 | `--it` moves up by Width |
| StaticColumnIterator.PostDecrement | array2d.hpp:264-269 | `it--` moves up by Width and yields the cursor from before the move |
| StaticColumnIterator.AddAssign | array2d.hpp:271-275 | `it += n` leaves the cursor at `it + n` |
| StaticColumnIterator.SubAssign | array2d.hpp:277-281 | `it -= n` leaves the cursor at `it - n` |
| StaticColumnIterator.AdvanceIsPlus | array2d.hpp:255-284 | n successive `++` reach the same cursor as `it + n` |
| StaticColumnIterator.RetreatIsMinus | array2d.hpp:263-287 | n successive `--` reach the same cursor as `it - n` |
| StaticColumnIterator.PlusMinusInverse | array2d.hpp:283-287 | `(it + n) - n == it`, `(it - n) + n == it`, and `it - n` is `it + (-n)` |
| StaticColumnIterator.PlusCompose | array2d.hpp:283-284 | two jumps compose into one |
| StaticColumnIterator.VisitAt | array2d.hpp:252-255 | the i-th slot designated while stepping is the start plus i * Width |
| StaticColumnIterator.VisitLength | array2d.hpp:252-255 | a walk of k steps designates k slots |
| StaticColumnIterator.AdvanceStrictlyIncreasing | array2d.hpp:255 | with Width > 0, more steps give a strictly later cursor |
| StaticColumnIterator.ComparisonsTotalOrder | array2d.hpp:292-306 | the six comparisons form a total order on positions |
| StaticColumnIterator.MixedComparisonsAgree | array2d.hpp:309-336 | mixed const/non-const comparisons agree with the same-flavour ones |
| Emplacer.Emplace | array2d.hpp:342-371 | the slot ends up holding the new value, every other slot is unchanged, and the result designates the slot; the non-trivial policy destroys the old object first, so it must have been live, and the live set between destroy and construct lacks the slot, while the trivial policy skips that step; afterwards the slot is live, rebuilding a live slot leaves the live objects exactly as they were, and constructing into a dead slot adds one |
| Copying.CopyN | array2d.hpp:425 | the first n slots of the destination equal the source's, and the rest are untouched |
| Copying.CopyRange | array2d.hpp:547 | copying [first, last) writes exactly that range at `out`, leaves the destination's other slots untouched, and returns `out` advanced by the range's length |
| Array2D.Array2D.constructor | array2d.hpp:405-410 | the array has the given dimensions and a fresh buffer of width * height constructed elements |
| Array2D.Array2D.Move | array2d.hpp:414-418 | the new array takes over the buffer, its contents and the dimensions, and the source is left without a buffer |
| Array2D.Array2D.Copy | array2d.hpp:420-426 | same dimensions, equal elements at every offset, and a fresh buffer distinct from the source's |
| Array2D.Array2D.MovedFrom | array2d.hpp:414-418 | an array whose buffer was moved out holds no buffer and is not a valid array |
| Array2D.Array2D.CopyAssignAsWritten | array2d.hpp:428-436 | only the destination's old width * height elements are copied and constructed, so the result is valid exactly when the old and new sizes agree |
| Array2D.CopyAssignAsWrittenCounterexample | array2d.hpp:428-436 | running the as-written copy assignment of a 2 x 2 array into a 1 x 1 one leaves a 2 x 2 array whose only constructed slot is 0, so it is not valid |
| Array2D.Array2D.CopyAssign | array2d.hpp:428-436 | afterwards the array has `o`'s dimensions and elements in a fresh buffer of its own |
| Array2D.Array2D.MoveAssign | array2d.hpp:438-446 | the destination takes the buffer and dimensions and the source is left without a buffer; moving into itself leaves the array without a buffer |
| Array2D.Array2D.Index | array2d.hpp:476-479 | the slot of (x, y) lies in the buffer, its quotient by the width is y and its remainder is x |
| Array2D.Array2D.Call | array2d.hpp:481-484 | `operator()(x, y)` designates the same slot as `index(x, y)` |
| Array2D.Array2D.Begin | array2d.hpp:451-452 | `begin()` is where row 0 begins |
| Array2D.Array2D.End | array2d.hpp:454-455 | `end()` is width * height steps past `begin()` |
| Array2D.Array2D.RowBegin | array2d.hpp:457-459 | `row_begin(y)` designates cell (0, y) |
| Array2D.Array2D.RowEnd | array2d.hpp:461-464 | `row_end(y)` is width steps past `row_begin(y)` and is where row y + 1 begins |
| Array2D.Array2D.ColumnBegin | array2d.hpp:466-469 | `column_begin(x)` designates cell (x, 0) and strides by the width |
| Array2D.Array2D.ColumnEnd | array2d.hpp:471-474 | `column_end(x)` is height strides below `column_begin(x)` |
| Array2D.Array2D.IndexIsBeginPlusOffset | array2d.hpp:476-484 | `index(x, y)` and `operator()(x, y)` both designate `begin() + y * width + x` |
| Array2D.Array2D.RowTraversal | array2d.hpp:457-464 | walking row y designates index(0, y) .. index(width - 1, y) in order and reaches `row_end(y)` after width steps |
| Array2D.Array2D.RowsTileRange | array2d.hpp:451-464 | row 0 begins at `begin()` and the last row ends at `end()` |
| Array2D.Array2D.ColumnTraversal | array2d.hpp:466-474 | walking column x designates index(x, 0) .. index(x, height - 1) in order and equals `column_end(x)` after exactly height steps and not before |
| Array2D.Array2D.FullTraversal | array2d.hpp:451-455 | walking from `begin()` designates every slot once, in order, and reaches `end()` after width * height steps |
| Array2D.Array2D.SlotIsCell | array2d.hpp:476-477 | every slot of the buffer is `index(x, y)` of the cell given by its remainder and quotient |
| Array2D.Array2D.EmplaceAt | array2d.hpp:486-492 | cell (x, y) holds the new value, every other cell is unchanged, and the result is a cursor at (x, y) |
| Array2D.Array2D.EmplaceIter | array2d.hpp:494-499 | the slot under the cursor holds the new value, every other slot is unchanged, and the result is the same cursor |
| Array2D.Array2D.EmplaceColumn | array2d.hpp:501-506 | the slot under the cursor holds the new value, every other slot is unchanged, and the result is a column cursor there |
| StaticArray2D.StaticArray2D.constructor | array2d.hpp:542 | a fresh buffer of W * H constructed elements |
| StaticArray2D.StaticArray2D.Copy | array2d.hpp:545-548 | same dimensions and all W * H elements equal to the source's, in a buffer of its own |
| StaticArray2D.StaticArray2D.CopyAssign | array2d.hpp:550-554 | all W * H elements equal the source's afterwards |
| StaticArray2D.StaticArray2D.Index | array2d.hpp:580-583 | the slot of (x, y) lies in the buffer, its quotient by Width is y and its remainder is x |
| StaticArray2D.StaticArray2D.Call | array2d.hpp:585-588 | `operator()(x, y)` designates the same slot as `index(x, y)` |
| StaticArray2D.StaticArray2D.Begin | array2d.hpp:556-557 | `begin()` is where row 0 begins |
| StaticArray2D.StaticArray2D.End | array2d.hpp:559-560 | `end()` is W * H steps past `begin()` |
| StaticArray2D.StaticArray2D.RowBegin | array2d.hpp:562-564 | `row_begin(y)` designates cell (0, y) |
| StaticArray2D.StaticArray2D.RowEnd | array2d.hpp:566-568 | `row_end(y)` is W steps past `row_begin(y)` and is where row y + 1 begins |
| StaticArray2D.StaticArray2D.ColumnBegin | array2d.hpp:570-573 | `column_begin(x)` designates cell (x, 0) |
| StaticArray2D.StaticArray2D.ColumnEnd | array2d.hpp:575-578 | `column_end(x)` is H rows below `column_begin(x)` |
| StaticArray2D.StaticArray2D.IndexIsBeginPlusOffset | array2d.hpp:580-588 | `index(x, y)` and `operator()(x, y)` both designate `begin() + y * Width + x` |
| StaticArray2D.StaticArray2D.RowTraversal | array2d.hpp:562-568 | walking row y designates index(0, y) .. index(W - 1, y) in order and reaches `row_end(y)` after W steps |
| StaticArray2D.StaticArray2D.RowsTileRange | array2d.hpp:556-568 | row 0 begins at `begin()` and the last row ends at `end()` |
| StaticArray2D.StaticArray2D.ColumnTraversal | array2d.hpp:570-578 | walking column x designates index(x, 0) .. index(x, H - 1) in order and equals `column_end(x)` after exactly H steps and not before |
| StaticArray2D.StaticArray2D.FullTraversal | array2d.hpp:556-560 | walking from `begin()` designates every slot once, in order, and reaches `end()` after W * H steps |
| StaticArray2D.StaticArray2D.SlotIsCell | array2d.hpp:580-581 | every slot of the buffer is `index(x, y)` of the cell given by its remainder and quotient |
| StaticArray2D.StaticArray2D.EmplaceAt | array2d.hpp:590-596 | cell (x, y) holds the new value, every other cell is unchanged, and the result is a cursor at (x, y) |
| StaticArray2D.StaticArray2D.EmplaceIter | array2d.hpp:598-603 | the slot under the cursor holds the new value, every other slot is unchanged, and the result is the same cursor |
| StaticArray2D.StaticArray2D.EmplaceColumn | array2d.hpp:605-610 | the slot under the cursor holds the new value, every other slot is unchanged, and the result is the same column cursor |
| Scenarios.FillThreeByTwo | array2d.hpp:486-492 | emplacing 1 .. 6 cell by cell into a fresh 3 x 2 array leaves the buffer holding 1 .. 6 in row-major order |

## Left out

- Object lifetime is not modelled as C++ memory:
  - placement `new` and the explicit destructor call in `emplacer` are modelled as a slot write plus the ghost `live` set;
  - `reinterpret_cast` over `new char[]` is left out;
  - `delete[]` in the destructor is left out, because Dafny has no deallocation;
  - the leaked buffers of both assignments cannot be stated for the same reason.
- Default-initialised elements: `new T[n]` and the inline `T m_data[...]` default-initialise, which leaves scalar elements indeterminate. The model leaves the initial contents unspecified and promises nothing about them.
- The trivially-destructible dispatch is a compile-time trait. `Emplacer.Policy` is passed in as a parameter instead.
- Moving from an array leaves its width and height in place. The model keeps them as well (`MovedFrom()` only says the buffer is null). The destructor of a moved-from array is not modelled.
- Array2D.Array2D.CopyAssign and Array2D.Array2D.CopyAssignAsWritten: both require `o != this`. Self-assignment replaces the buffer before reading from it, so it would copy from the fresh, unconstructed buffer.
- Array2D.Array2D.CopyAssignAsWritten: also requires the old size to be at most the new one. When the old size is larger, the source code reads past `o`'s buffer and writes past the new one, and that out-of-bounds access is not modelled.
- StaticArray2D.StaticArray2D.CopyAssign: requires the two buffers to differ. Self-assignment would make `std::copy` copy a range onto itself, which its contract rules out.
- StaticArray2D.StaticArray2D.constructor: the inline buffer has `Width * Height * sizeof(T)` elements (array2d.hpp:536-539), more than the arrays ever use. The model's buffer has the W * H elements that `end()` covers.
- StaticColumnIterator.PostIncrement: the source returns a reference to a local copy, which dangles (array2d.hpp:256-261). The model yields the old cursor by value, as the other postfix operators do.
- Array2D.Array2D.EmplaceColumn: as written, this overload does not compile when instantiated. The emplacer rebuilds its result as `Iter(pos)`, and `array2d_column_iterator` has no one-argument constructor. The model returns a column cursor at the slot with the array's width as its stride, which is evidently what was intended.
- Integer widths: `size_t` and `ptrdiff_t` arithmetic is unbounded here. The column cursor's `n * _m_width` is a signed by unsigned product that wraps for negative n in C++, and it is modelled as the mathematical product. An overflowing width * height is not modelled.
- Iterators: default-constructed cursors (a null position, a width of -1), `operator->`, and comparisons between cursors into different buffers have no meaning in a position-based model and are left out.
- Cursors into different buffers are not told apart: a cursor's `pos` is only meaningful relative to the buffer it is used with.
- `width()` and `height()` are the fields `width` and `height`. The static members `width` and `height` are the constants `W` and `H`; `size` is not modelled (see the StaticArray2D.StaticArray2D.constructor line).
- The array classes require `T(0)` because Dafny needs a default value to allocate a buffer. The C++ copy constructor of `array2d` does not default-construct.
- Bounds are never checked by the source. Accessors and emplace require valid coordinates or in-buffer cursors.

## Findings

| source | as written | input that shows it | evidently intended | confidence | as-written member | corrected member |
|---|---|---|---|---|---|---|
| array2d.hpp:428-436 | copy assignment copies `m_width * m_height` elements, using the destination's dimensions from before they are updated | a 1 x 1 array assigned from a 2 x 2 array: a four-slot buffer is allocated and only slot 0 is copy-constructed (`Array2D.CopyAssignAsWrittenCounterexample` runs the as-written assignment on exactly these arrays) | copy `o.m_width * o.m_height` elements, the size of the new buffer | not executed | Array2D.Array2D.CopyAssignAsWritten | Array2D.Array2D.CopyAssign |
