/** Types shared by the component models. */
module Common {
  datatype Option<+T> = None | Some(value: T)

  /** Bytes in a page (kernel/riscv.h). */
  const PGSIZE: nat := 4096

  type Byte = b: int | 0 <= b < 256

  function Min(a: nat, b: nat): nat { if a < b then a else b }

  function Max(a: nat, b: nat): nat { if a < b then b else a }
}
