/** Go's `int64`: arithmetic wraps modulo 2^64 into the two's-complement range. */
module Int64 {
  const TWO_63: int := 0x8000_0000_0000_0000
  const TWO_64: int := 0x1_0000_0000_0000_0000

  predicate InRange(x: int) { -TWO_63 <= x < TWO_63 }

  /** The int64 that represents `x`: the unique value in range congruent to `x` modulo 2^64. */
  function Wrap(x: int): (r: int)
    ensures InRange(r)
    ensures (x - r) % TWO_64 == 0
    ensures InRange(x) ==> r == x
  {
    (x + TWO_63) % TWO_64 - TWO_63
  }

  lemma ModShift(x: int, q: int)
    ensures (x + q * TWO_64) % TWO_64 == x % TWO_64
  {
  }

  /** Wrapping an accumulator after every addition equals wrapping once at the end. */
  lemma WrapAdd(a: int, b: int)
    ensures Wrap(Wrap(a) + b) == Wrap(a + b)
  {
    var q := (a + TWO_63) / TWO_64;
    assert Wrap(a) == a - q * TWO_64;
    ModShift(a + b + TWO_63, -q);
  }

  /** One more add keeps a running total equal to the wrapped exact sum. */
  lemma WrapStep(total: int, sum: int, x: int)
    requires total == Wrap(sum)
    ensures Wrap(total + x) == Wrap(sum + x)
  {
    WrapAdd(sum, x);
  }

  function Sum(s: seq<int>): int
  {
    if |s| == 0 then 0 else Sum(s[..|s| - 1]) + s[|s| - 1]
  }

  /** `var total int64; for _, x := range s { total += x }`. */
  method Accumulate(s: seq<int>) returns (total: int)
    ensures total == Wrap(Sum(s))
    ensures InRange(total)
  {
    total := 0;
    for i := 0 to |s|
      invariant total == Wrap(Sum(s[..i]))
    {
      assert s[..i + 1][..i] == s[..i];
      WrapAdd(Sum(s[..i]), s[i]);
      total := Wrap(total + s[i]);
    }
    assert s[..|s|] == s;
  }
}
