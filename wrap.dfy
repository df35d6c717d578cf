// Fixed-width unsigned arithmetic of the C/C++ sources: uint64 sample
// counters and uint16/uint32 fields wrap around silently.
module Wrap {

  const U16: nat := 0x1_0000
  const U32: nat := 0x1_0000_0000
  const U64: nat := 0x1_0000_0000_0000_0000

  type u16 = x: nat | x < U16
  type u32 = x: nat | x < U32
  type u64 = x: nat | x < U64

  /** `a + b` on uint64. */
  function Add64(a: u64, b: nat): (r: u64)
    ensures a + b < U64 ==> r == a + b
    ensures a + b >= U64 && b < U64 ==> r == a + b - U64
  {
    (a + b) % U64
  }

  /** `a - b` on uint64. */
  function Sub64(a: u64, b: u64): (r: u64)
    ensures a >= b ==> r == a - b
    ensures a < b ==> r == a - b + U64
  {
    (a - b) % U64
  }

  /** `a - b` on uint32. */
  function Sub32(a: u32, b: u32): (r: u32)
    ensures a >= b ==> r == a - b
    ensures a < b ==> r == a - b + U32
  {
    (a - b) % U32
  }

  /** `a + b` on uint32. */
  function Add32(a: u32, b: nat): (r: u32)
    ensures a + b < U32 ==> r == a + b
    ensures a + b >= U32 && b < U32 ==> r == a + b - U32
  {
    (a + b) % U32
  }

  /** `a + b` on uint16. */
  function Add16(a: u16, b: nat): (r: u16)
    ensures a + b < U16 ==> r == a + b
    ensures a + b >= U16 && b < U16 ==> r == a + b - U16
  {
    (a + b) % U16
  }

  /** Subtraction undoes addition on uint64. */
  lemma SubAdd64(a: u64, b: u64)
    ensures Sub64(Add64(a, b), b) == a
  {
  }

  /** Addition undoes subtraction on uint64. */
  lemma AddSub64(a: u64, b: u64)
    ensures Add64(Sub64(a, b), b) == a
  {
  }

  /** Incrementing a uint64 counter i times, then once more, is incrementing it i + 1 times. */
  lemma Add64Step(a: u64, i: nat)
    ensures Add64(Add64(a, i), 1) == Add64(a, i + 1)
  {
  }

  /** The remainder of q * size + r is r when r < size. */
  lemma ModUnique(z: nat, q: nat, r: nat, size: nat)
    requires size > 0 && r < size && z == q * size + r
    ensures z % size == r && z / size == q
  {
    var q2, r2 := z / size, z % size;
    assert (q2 - q) * size == r - r2;
    MulAtLeast(q2 - q, size);
    MulAtLeast(q - q2, size);
  }

  lemma MulAtLeast(a: int, b: nat)
    ensures a >= 1 ==> a * b >= b
  {}

  lemma MulMonotone(a: int, b: int, c: nat)
    ensures a <= b ==> a * c <= b * c
  {
    if a < b {
      MulAtLeast(b - a, c);
      assert (b - a) * c == b * c - a * c;
    }
  }
}
