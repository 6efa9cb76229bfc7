/** Java's fixed-width integers: `int` and `long` as ranges of the unbounded
    integers, and the two's-complement wrap-around of 32-bit arithmetic. */
module JavaInts {

  const TWO_32: int := 0x1_0000_0000

  newtype int32 = x: int | InInt32(x)

  newtype int64 = x: int | -0x8000_0000_0000_0000 <= x < 0x8000_0000_0000_0000

  predicate InInt32(x: int) {
    -0x8000_0000 <= x < 0x8000_0000
  }

  /** The `int` a Java expression of exact value `x` evaluates to: the unique value
      of the 32-bit range congruent to `x` modulo 2^32. */
  function Wrap32(x: int): (r: int32)
    ensures (r as int - x) % TWO_32 == 0
    ensures InInt32(x) ==> r as int == x
  {
    var m := x % TWO_32;
    if m < 0x8000_0000 then m as int32 else (m - TWO_32) as int32
  }

  /** Two values of the 32-bit range that agree modulo 2^32 are equal. */
  lemma CongruentInRange(a: int, b: int)
    requires InInt32(a)
    requires (a - b) % TWO_32 == 0
    ensures InInt32(b) ==> a == b
  {
    var k := (a - b) / TWO_32;
    assert a - b == k * TWO_32;
  }

  /** Congruence modulo 2^32 survives multiplication by any factor. */
  lemma CongruentTimes(a: int, b: int, c: int)
    requires (a - b) % TWO_32 == 0
    ensures (a * c - b * c) % TWO_32 == 0
  {
    var k := (a - b) / TWO_32;
    assert a - b == k * TWO_32;
    calc {
      a * c - b * c;
      (a - b) * c;
      (k * TWO_32) * c;
      (k * c) * TWO_32;
    }
  }

  /** The sum of two multiples of 2^32 is one. */
  lemma CongruentSum(x: int, y: int)
    requires x % TWO_32 == 0 && y % TWO_32 == 0
    ensures (x + y) % TWO_32 == 0
  {
    var i, j := x / TWO_32, y / TWO_32;
    assert x + y == (i + j) * TWO_32;
  }

  /** Wrapping a factor before multiplying and wrapping the product agrees with the
      exact product modulo 2^32. */
  lemma WrapProduct(a: int, b: int)
    ensures (Wrap32(Wrap32(a) as int * b) as int - a * b) % TWO_32 == 0
  {
    var d := Wrap32(a) as int;
    var db := d * b;
    var ab := a * b;
    var r := Wrap32(db) as int;
    CongruentTimes(d, a, b);
    assert (db - ab) % TWO_32 == 0;
    CongruentSum(r - db, db - ab);
  }
}
