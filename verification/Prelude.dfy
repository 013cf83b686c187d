/** Shared vocabulary: optional values, machine integers and congruence modulo 2^64. */
module Prelude {
  datatype Option<+T> = None | Some(value: T)

  type byte = b: int | 0 <= b < 256

  const TWO_63: int := 0x8000_0000_0000_0000
  const TWO_64: int := 0x1_0000_0000_0000_0000

  type uint64 = n: int | 0 <= n < 0x1_0000_0000_0000_0000
  type int64 = n: int | -0x8000_0000_0000_0000 <= n < 0x8000_0000_0000_0000

  /** Go's conversion to uint64, and the value of any uint64 sum or product. */
  function ToUint64(x: int): (r: uint64)
    ensures Congruent(r, x)
    ensures 0 <= x < TWO_64 ==> r == x
  {
    x % TWO_64
  }

  /** Go's conversion to int64, and the value of any int64 sum or difference. */
  function ToInt64(x: int): (r: int64)
    ensures Congruent(r, x)
    ensures -TWO_63 <= x < TWO_63 ==> r == x
  {
    var m := x % TWO_64;
    if m < TWO_63 then m else m - TWO_64
  }

  /** Equality modulo 2^64: what two's complement arithmetic preserves. */
  predicate Congruent(x: int, y: int) {
    x % TWO_64 == y % TWO_64
  }

  lemma {:induction false} CongruentTransitive(x: int, y: int, z: int)
    requires Congruent(x, y) && Congruent(y, z)
    ensures Congruent(x, z)
  {
  }

  lemma {:induction false} CongruentSum(x: int, y: int, x': int, y': int)
    requires Congruent(x, x') && Congruent(y, y')
    ensures Congruent(x + y, x' + y') && Congruent(x - y, x' - y')
  {
    var i, j := x / TWO_64 - x' / TWO_64, y / TWO_64 - y' / TWO_64;
    assert x == x' + i * TWO_64 && y == y' + j * TWO_64;
    Shifted(x' + y', i + j);
    Shifted(x' - y', i - j);
  }

  lemma {:induction false} Shifted(x: int, i: int)
    ensures Congruent(x + i * TWO_64, x)
  {
    var m := x % TWO_64;
    assert x + i * TWO_64 == (x / TWO_64 + i) * TWO_64 + m;
  }

  /** Adding to a wrapped counter wraps the true sum. */
  lemma {:induction false} WrappedSum(x: int, y: int)
    ensures ToUint64(ToUint64(x) + y) == ToUint64(x + y)
  {
    var q := x / TWO_64;
    assert x + y == (ToUint64(x) + y) + q * TWO_64;
    Shifted(ToUint64(x) + y, q);
  }

  lemma {:induction false} CongruentTotals(x: int, y: int, sum: int, x': int, y': int, sum': int)
    requires Congruent(x, x') && Congruent(y, y') && sum == x + y && sum' == x' + y'
    ensures Congruent(sum, sum')
  {
    CongruentSum(x, y, x', y');
  }

  lemma {:induction false} CongruentNegation(x: int, y: int)
    requires Congruent(x, y)
    ensures Congruent(-x, -y)
  {
    CongruentSum(0, x, 0, y);
  }

  /** A residue class has one representative in each machine type. */
  lemma {:induction false} CongruentIsEqual(x: int, y: int)
    requires Congruent(x, y)
    ensures ToUint64(x) == ToUint64(y) && ToInt64(x) == ToInt64(y)
  {
  }

  /** int64 <-> uint64 conversions lose nothing. */
  lemma {:induction false} ReinterpretRoundTrip(x: int)
    ensures ToInt64(ToUint64(x)) == ToInt64(x)
    ensures ToUint64(ToInt64(x)) == ToUint64(x)
  {
    CongruentIsEqual(ToUint64(x), x);
    CongruentIsEqual(ToInt64(x), x);
  }
}
