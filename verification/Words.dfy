/** Go's fixed-width integers: int64 addition wraps, and a conversion to int16 keeps the low sixteen bits. */
module Words {

  const TWO_63 := 0x8000_0000_0000_0000
  const TWO_64 := 0x1_0000_0000_0000_0000

  type Int64 = x: int | -TWO_63 <= x < TWO_63

  function Wrap64(x: int): (r: Int64)
    ensures -TWO_63 <= x < TWO_63 <==> r == x
  {
    (x + TWO_63) % TWO_64 - TWO_63
  }

  /** Wrapping early or late makes no difference to a sum. */
  lemma WrapAdd(a: int, b: int)
    ensures Wrap64(Wrap64(a) + b) == Wrap64(a + b)
  {
    var q := (a + TWO_63) / TWO_64;
    assert Wrap64(a) == a - q * TWO_64;
    ModShift(a + b + TWO_63, -q);
  }

  lemma ModShift(x: int, q: int)
    ensures (x + q * TWO_64) % TWO_64 == x % TWO_64
  {
    var d := x / TWO_64;
    assert x + q * TWO_64 == (d + q) * TWO_64 + x % TWO_64;
  }

  const MAX_SMALLINT := 32767

  function Int16(x: int): (r: int)
    ensures -MAX_SMALLINT - 1 <= r <= MAX_SMALLINT
    ensures -MAX_SMALLINT - 1 <= x <= MAX_SMALLINT <==> r == x
  {
    (x + 0x8000) % 0x1_0000 - 0x8000
  }

  predicate IsSmallint(x: int) {
    -MAX_SMALLINT - 1 <= x <= MAX_SMALLINT
  }
}
