/** Go's fixed-width integers, its truncating division and little-endian byte layout. */
module GoNumbers {
  type Byte = x: int | 0 <= x < 0x100
  type Uint16 = x: int | 0 <= x < 0x1_0000
  type Uint32 = x: int | 0 <= x < 0x1_0000_0000
  type Int16 = x: int | -0x8000 <= x < 0x8000

  function ToUint16(x: int): Uint16 {
    x % 0x1_0000
  }

  function ToUint32(x: int): Uint32 {
    x % 0x1_0000_0000
  }

  // int16(x): the low sixteen bits, read as two's complement.
  function ToInt16(x: int): Int16 {
    var low := x % 0x1_0000;
    if low < 0x8000 then low else low - 0x1_0000
  }

  function ToInt32(x: int): int {
    var low := x % 0x1_0000_0000;
    if low < 0x8000_0000 then low else low - 0x1_0000_0000
  }

  function ClampInt16(x: int): Int16 {
    if x > 32767 then 32767 else if x < -32768 then -32768 else x
  }

  function Min(a: int, b: int): int {
    if a < b then a else b
  }

  function Max(a: int, b: int): int {
    if a > b then a else b
  }

  // Go's `/` truncates toward zero; Dafny's is Euclidean.
  function TruncDiv(a: int, b: int): int
    requires b > 0
  {
    if a >= 0 then a / b else -((-a) / b)
  }

  function PutUint16(v: Uint16): seq<Byte> {
    [v % 0x100, v / 0x100]
  }

  function PutUint32(v: Uint32): seq<Byte> {
    [v % 0x100, v / 0x100 % 0x100, v / 0x1_0000 % 0x100, v / 0x100_0000]
  }

  function Uint16At(b: seq<Byte>, at: nat): Uint16
    requires at + 2 <= |b|
  {
    (b[at] as int) + 0x100 * (b[at + 1] as int)
  }

  function Uint32At(b: seq<Byte>, at: nat): Uint32
    requires at + 4 <= |b|
  {
    (b[at] as int) + 0x100 * (b[at + 1] as int)
    + 0x1_0000 * (b[at + 2] as int) + 0x100_0000 * (b[at + 3] as int)
  }

  /* Multiplication and division, as far as the solver needs help with them. */

  lemma MulMono(a: int, b: int, c: int)
    requires a <= b && 0 <= c
    ensures a * c <= b * c
  {
  }

  lemma RealProduct(x: real, y: real)
    requires x >= 0.0 && y >= 0.0
    ensures x * y >= 0.0
  {
  }

  lemma RealQuotient(x: real, y: real)
    requires x >= 0.0 && y > 0.0
    ensures x / y >= 0.0
  {
  }

  lemma QuotientSpec(a: int, d: int)
    requires d > 0
    ensures (a / d) * d <= a < (a / d) * d + d
  {
  }

  lemma FloorIs(a: int, i: int, d: int)
    requires d > 0 && i * d <= a < i * d + d
    ensures a / d == i
  {
    var q := a / d;
    QuotientSpec(a, d);
    if q < i {
      MulMono(q + 1, i, d);
    } else if q > i {
      MulMono(i + 1, q, d);
    }
  }

  lemma QuotientBounds(p: int, low: int, high: int, d: int)
    requires d > 0 && low * d <= p <= high * d
    ensures low <= p / d <= high
  {
    var q := p / d;
    QuotientSpec(p, d);
    if q > high {
      MulMono(high + 1, q, d);
    } else if q < low {
      MulMono(q + 1, low, d);
    }
  }

  // Linear interpolation with a truncating division never leaves the interval between its ends.
  lemma BetweenNeighbours(a: int, b: int, num: int, den: int)
    requires 0 <= num < den
    ensures Min(a, b) <= a + TruncDiv((b - a) * num, den) <= Max(a, b)
  {
    if b >= a {
      MulMono(num, den, b - a);
      MulMono(0, num, b - a);
      QuotientBounds((b - a) * num, 0, b - a, den);
    } else {
      MulMono(num, den, a - b);
      MulMono(0, num, a - b);
      assert (b - a) * num == -((a - b) * num);
      QuotientBounds((a - b) * num, 0, a - b, den);
    }
  }
}
