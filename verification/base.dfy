/** Vocabulary shared by every module: the 32-bit id type, optionals and load errors. */
module Base {

  /** `entt::id_type`: the unsigned 32-bit integer underlying an entity handle. */
  newtype u32 = x: int | 0 <= x < 0x1_0000_0000

  /** `std::optional<T>`: absent, or present with a value. */
  datatype Option<+T> = None | Some(value: T)

  /** Why reading a snapshot back fails: the stream ends too early
      (`CorruptEncoding`), or the next item is not of the kind the declared
      type lists expect at that position (`SchemaMismatch`). */
  datatype Error = CorruptEncoding | SchemaMismatch

  /** The outcome of a decoder. */
  datatype Result<+R> = Ok(value: R) | Err(error: Error)
}
