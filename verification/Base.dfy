/** Machine integers, results and the row vocabulary every other module shares. */
module Base {

  type u8 = x: int | 0 <= x < 0x100
  type u16 = x: int | 0 <= x < 0x1_0000
  type u32 = x: int | 0 <= x < 0x1_0000_0000
  type u64 = x: int | 0 <= x < 0x1_0000_0000_0000_0000
  type i64 = x: int | -0x8000_0000_0000_0000 <= x < 0x8000_0000_0000_0000

  const U32_MAX: u32 := 0xFFFF_FFFF
  const U64_MAX: u64 := 0xFFFF_FFFF_FFFF_FFFF

  datatype Option<+T> = None | Some(value: T)

  datatype Result<+T, +E> = Ok(value: T) | Err(error: E) {
    predicate IsFailure() { Err? }

    function PropagateFailure<U>(): Result<U, E>
      requires Err?
    {
      Err(error)
    }

    function Extract(): T
      requires Ok?
    {
      value
    }
  }

  /** A vector is its components' bit patterns; the distance kernels stay abstract. */
  type Vec = seq<u32>

  /** A heap address: block number and offset within the block. */
  datatype Tid = Tid(block: u32, offset: u16)

  /** One filterable attribute. Floats are their IEEE 754 bit patterns, so NaN and -0.0 are values like any other. */
  datatype AttrValue = Int(v: i64) | Float(bits: u64) | Null

  type Attrs = seq<AttrValue>

  function Min(a: nat, b: nat): nat { if a <= b then a else b }
}
