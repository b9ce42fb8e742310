/** Every iterator kind of array2d.hpp comes as a mutable and a const variant
    (the `Pointer`/`Reference` template arguments); the model keeps that as a tag. */
module Constness {
  /** `T*, T&` (Mutable) or `const T*, const T&` (ReadOnly). */
  datatype Access = Mutable | ReadOnly
}
