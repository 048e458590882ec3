/** Machine integer widths and byte strings used at the host boundary.
    Dafny integers are unbounded, so every width the binding layer relies on
    is a subset type, and every `as` cast that can wrap is written out. */
module Base {

  datatype Option<+T> = None | Some(value: T)

  type byte = x: int | 0 <= x < 0x100
  type Bytes = seq<byte>

  type u32 = x: int | 0 <= x < 0x1_0000_0000
  type i32 = x: int | -0x8000_0000 <= x < 0x8000_0000
  type i64 = x: int | -0x8000_0000_0000_0000 <= x < 0x8000_0000_0000_0000
  type u64 = x: int | 0 <= x < 0x1_0000_0000_0000_0000

  /** Rust's `x as u32` on an `i32`: two's-complement reinterpretation. */
  function I32AsU32(x: i32): (r: u32)
    ensures x >= 0 ==> r == x
    ensures x < 0 ==> r == x + 0x1_0000_0000
  {
    if x >= 0 then x else x + 0x1_0000_0000
  }

  /** Rust's `x as c_int` on a `u32`: values from 2^31 on become negative. */
  function U32AsI32(x: u32): (r: i32)
    ensures I32AsU32(r) == x
  {
    if x < 0x8000_0000 then x else x - 0x1_0000_0000
  }

  /** Rust's `{:?}` on a string: the text between double quotes (escapes are not modelled). */
  function Quoted(s: string): (q: string)
    ensures |q| == |s| + 2 && q[1..|q| - 1] == s
  {
    "\"" + s + "\""
  }

  /** `s` ends with `suffix`. */
  predicate EndsWith<T(==)>(s: seq<T>, suffix: seq<T>) {
    |suffix| <= |s| && s[|s| - |suffix|..] == suffix
  }
}
