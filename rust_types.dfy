/** Value types from the Rust standard library that the coio core is written against. */
module RustTypes {

  /** `Option<T>` */
  datatype Option<T> = None | Some(value: T)

  /** `Result<T, E>`: the business-logic outcome a promise carries. */
  datatype Result<T, E> = Ok(value: T) | Err(error: E)

  /** `std::thread::Result<T>`: what a coroutine hands to its joiner. `Done(v)` is `Ok(v)`;
      `Panicked` is `Err(payload)`, a panic captured at the spawn boundary (its payload is not
      modelled). */
  datatype ThreadResult<T> = Done(value: T) | Panicked

  const U64_MAX: int := 0xFFFF_FFFF_FFFF_FFFF

  type u64 = x: int | 0 <= x <= U64_MAX
  /** `usize` on a 64-bit target. */
  type usize = x: int | 0 <= x <= U64_MAX
}
