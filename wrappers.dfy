/** Option and Result: the bridge reports failures by throwing, the Python
    checker by returning None; both become values here. */
module Wrappers {

  datatype Option<+T> = None | Some(value: T)

  datatype Result<+T, +E> = Ok(value: T) | Err(error: E) {
    predicate IsFailure() { Err? }

    function PropagateFailure<U>(): Result<U, E>
      requires Err?
    {
      Err(error)
    }

    function Extract(): T
      requires Ok?
    {
      value
    }
  }
}

/** Fixed-width integers of the C++ code: bytes, uint64 and int32 wrap-around. */
module Machine {

  newtype byte = x: int | 0 <= x < 256

  const UINT64_MODULUS: int := 0x1_0000_0000_0000_0000
  const INT64_MIN: int := -0x8000_0000_0000_0000

  predicate IsUint64(x: int) { 0 <= x < UINT64_MODULUS }

  /** Two's complement reading of x as a signed 64-bit value (C++20 conversion). */
  function WrapInt64(x: int): (r: int)
    ensures INT64_MIN <= r < -INT64_MIN
    ensures (r - x) % UINT64_MODULUS == 0
  {
    var m := x % UINT64_MODULUS;
    if m >= -INT64_MIN then m - UINT64_MODULUS else m
  }

  /** `static_cast<int>` of a 64-bit JSON integer: wraps to 32 bits. */
  function WrapInt32(x: int): (r: int)
    ensures -0x8000_0000 <= r < 0x8000_0000
    ensures (r - x) % 0x1_0000_0000 == 0
    ensures -0x8000_0000 <= x < 0x8000_0000 ==> r == x
  {
    var m := x % 0x1_0000_0000;
    if m >= 0x8000_0000 then m - 0x1_0000_0000 else m
  }

  /** `static_cast<uint64_t>` of a signed value. */
  function ToUint64(x: int): (r: int)
    ensures IsUint64(r)
    ensures (r - x) % UINT64_MODULUS == 0
  {
    x % UINT64_MODULUS
  }

  /** The little-endian value of the first eight bytes of a buffer
      (`*reinterpret_cast<const uint64_t*>` on a little-endian host). */
  function Le64(b: seq<byte>): (r: int)
    requires |b| >= 8
    ensures IsUint64(r)
  {
    (b[0] as int) + 0x100 * ((b[1] as int) + 0x100 * ((b[2] as int) + 0x100 * ((b[3] as int)
      + 0x100 * ((b[4] as int) + 0x100 * ((b[5] as int) + 0x100 * ((b[6] as int) + 0x100 * (b[7] as int)))))))
  }

  /** The eight little-endian bytes of a uint64 (what `memcpy(&epoch)` writes). */
  function Le64Bytes(x: int): (r: seq<byte>)
    requires IsUint64(x)
    ensures |r| == 8
  {
    var q1 := x / 0x100;
    var q2 := q1 / 0x100;
    var q3 := q2 / 0x100;
    var q4 := q3 / 0x100;
    var q5 := q4 / 0x100;
    var q6 := q5 / 0x100;
    var q7 := q6 / 0x100;
    [(x % 0x100) as byte, (q1 % 0x100) as byte, (q2 % 0x100) as byte, (q3 % 0x100) as byte,
     (q4 % 0x100) as byte, (q5 % 0x100) as byte, (q6 % 0x100) as byte, (q7 % 0x100) as byte]
  }

  lemma DivModByte(x: int)
    requires x >= 0
    ensures x == x % 0x100 + 0x100 * (x / 0x100) && x / 0x100 >= 0
  {
  }

  /** Reading back the eight bytes of a uint64 gives the uint64. */
  lemma Le64RoundTrip(x: int)
    requires IsUint64(x)
    ensures Le64(Le64Bytes(x)) == x
  {
    var q1 := x / 0x100;
    var q2 := q1 / 0x100;
    var q3 := q2 / 0x100;
    var q4 := q3 / 0x100;
    var q5 := q4 / 0x100;
    var q6 := q5 / 0x100;
    var q7 := q6 / 0x100;
    DivModByte(x);
    DivModByte(q1);
    DivModByte(q2);
    DivModByte(q3);
    DivModByte(q4);
    DivModByte(q5);
    DivModByte(q6);
    DivModByte(q7);
    assert q7 / 0x100 == 0 by {
      assert x == (((((((q7 / 0x100 * 0x100 + q7 % 0x100) * 0x100 + q6 % 0x100) * 0x100 + q5 % 0x100)
               * 0x100 + q4 % 0x100) * 0x100 + q3 % 0x100) * 0x100 + q2 % 0x100) * 0x100 + q1 % 0x100) * 0x100 + x % 0x100;
    }
  }

  function Min(a: int, b: int): int { if a <= b then a else b }
}
