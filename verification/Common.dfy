/** What a call that can fail gives back. */
module Results {

  datatype Result<+T, +E> = Ok(value: T) | Err(error: E)
}

/** What more than one part of the model speaks of. */
module Common {

  datatype Option<+T> = None | Some(value: T)

  /** A `usize` on the executor's 32-bit target, and a signed 64-bit integer's ends. */
  const USIZE_MAX: nat := 0xFFFF_FFFF
  const I64_MIN: int := -0x8000_0000_0000_0000
  const I64_MAX: int := 0x7FFF_FFFF_FFFF_FFFF

  datatype BinOp = Eq | Ne | Lt | Le | Gt | Ge | And | Or | Add | Sub | Mul | Div | Rem

  datatype UnOp = Neg | Not
}
