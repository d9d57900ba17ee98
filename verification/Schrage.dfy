/** The random numbers of queue_sim.c: the generator x -> 7^5 x mod (2^31 - 1), computed without
    overflow by Schrage's method, and the loop that draws until the number is usable. */
module Schrage {

  const A: int := 16807
  const M: int := 2147483647
  const Q: int := 127773
  const R: int := 2836

  /** Division in C truncates towards zero. */
  function CDiv(x: int, y: int): int
    requires y > 0
  {
    if x >= 0 then x / y else -((-x) / y)
  }

  function CMod(x: int, y: int): int
    requires y > 0
  {
    x - y * CDiv(x, y)
  }

  /** The next state. */
  function Step(x: int): int {
    var new1 := A * CMod(x, Q) - R * CDiv(x, Q);
    if new1 > 0 then new1 else new1 + M
  }

  predicate Is32Bit(x: int) {
    -0x8000_0000 <= x <= 0x7fff_ffff
  }

  lemma Division(x: int)
    requires Is32Bit(x)
    ensures x == Q * CDiv(x, Q) + CMod(x, Q)
    ensures -16807 <= CDiv(x, Q) <= 16807 && -Q < CMod(x, Q) < Q
    ensures (x >= 0 ==> CDiv(x, Q) >= 0 && CMod(x, Q) >= 0) && (x <= 0 ==> CDiv(x, Q) <= 0 && CMod(x, Q) <= 0)
  {
  }

  /** For every 32-bit state nothing on the way leaves the 32-bit range, so a 32-bit long suffices. */
  lemma NoOverflow(x: int)
    requires Is32Bit(x)
    ensures Is32Bit(A * CMod(x, Q)) && Is32Bit(R * CDiv(x, Q)) && Is32Bit(A * CMod(x, Q) - R * CDiv(x, Q))
    ensures 1 <= Step(x) <= M
  {
    Division(x);
  }

  lemma {:induction false} ModShift(y: int, k: int)
    ensures (y + M * k) % M == y % M
  {
  }

  /** The step is multiplication by 7^5 modulo 2^31 - 1. */
  lemma StepIsMultiplication(x: int)
    requires Is32Bit(x)
    ensures Step(x) % M == (A * x) % M
  {
    Division(x);
    var d := CDiv(x, Q);
    assert A * CMod(x, Q) - R * d == A * x - M * d;
    ModShift(A * x, -d);
    ModShift(A * x, 1 - d);
  }

  // ------------------------------------------------------------------ all states

  /** 16807 has an inverse modulo 2^31 - 1. */
  const INVERSE: int := 1407677000

  lemma Undo(x: int)
    ensures (INVERSE * (A * x)) % M == x % M
  {
    assert INVERSE * A == 1 + M * 11017;
    assert INVERSE * (A * x) == x + M * (11017 * x);
    ModShift(x, 11017 * x);
  }

  lemma ModTimes(c: int, y: int, z: int)
    requires y % M == z % M
    ensures (c * y) % M == (c * z) % M
  {
    var k := y / M - z / M;
    assert y == z + M * k;
    assert c * y == c * z + M * (c * k);
    ModShift(c * z, c * k);
  }

  /** Different states, modulo 2^31 - 1, have different successors. */
  lemma StepIsInjective(x: int, y: int)
    requires Is32Bit(x) && Is32Bit(y) && Step(x) == Step(y)
    ensures x % M == y % M
  {
    StepIsMultiplication(x);
    StepIsMultiplication(y);
    ModTimes(INVERSE, A * x, A * y);
    Undo(x);
    Undo(y);
  }

  /** The state becomes 2^31 - 1, of which the random number is 1, exactly from a multiple of it. */
  lemma StuckExactlyWhen(x: int)
    requires Is32Bit(x)
    ensures Step(x) == M <==> x % M == 0
  {
    NoOverflow(x);
    StepIsMultiplication(x);
    if x % M == 0 {
      ModTimes(A, x, 0);
    }
    if Step(x) == M {
      ModTimes(INVERSE, A * x, 0);
      Undo(x);
    }
  }

  function Steps(n: nat, x: int): int {
    if n == 0 then x else Step(Steps(n - 1, x))
  }

  /** 7^(5n) modulo 2^31 - 1. */
  function Power(n: nat): int {
    if n == 0 then 1 else (A * Power(n - 1)) % M
  }

  lemma ModMod(y: int)
    ensures (y % M) % M == y % M && 0 <= y % M < M
  {
  }

  lemma TimesPower(before: int, p: int, x: int)
    requires before % M == (p * x) % M
    ensures (A * before) % M == (((A * p) % M) * x) % M
  {
    ModTimes(A, before, p * x);
    var ap := A * p;
    assert A * (p * x) == ap * x;
    ModMod(ap);
    ModTimes(x, ap, ap % M);
    assert x * ap == ap * x && x * (ap % M) == (ap % M) * x;
  }

  /** From a state that is not a multiple of 2^31 - 1 the generator stays between 1 and 2^31 - 2 for
      ever, and computes the powers of 7^5. */
  lemma {:induction false} GeneratesPowers(n: nat, x: int)
    requires Is32Bit(x) && x % M != 0
    ensures Steps(n, x) % M == (Power(n) * x) % M && Steps(n, x) % M != 0 && Is32Bit(Steps(n, x))
    ensures n > 0 ==> 1 <= Steps(n, x) < M
  {
    if n == 0 {
      assert Power(0) * x == x;
    } else {
      var before, p := Steps(n - 1, x), Power(n - 1);
      GeneratesPowers(n - 1, x);
      OneMore(before);
      TimesPower(before, p, x);
      assert Power(n) == (A * p) % M && Steps(n, x) == Step(before);
    }
  }

  lemma OneMore(before: int)
    requires Is32Bit(before) && before % M != 0
    ensures Step(before) % M == (A * before) % M && 1 <= Step(before) < M && Step(before) % M != 0
              && Is32Bit(Step(before))
  {
    StepIsMultiplication(before);
    StuckExactlyWhen(before);
    NoOverflow(before);
  }

  /** From any other state it is stuck: every random number is 1. */
  lemma {:induction false} StuckForever(n: nat, x: int)
    requires Is32Bit(x) && x % M == 0 && n > 0
    ensures Steps(n, x) == M
  {
    if n == 1 {
      assert Steps(0, x) == x;
      StuckExactlyWhen(x);
    } else {
      StuckForever(n - 1, x);
      StuckExactlyWhen(M);
    }
  }

  lemma {:induction false} PowerSum(a: nat, b: nat)
    ensures Power(a + b) == (Power(b) * Power(a)) % M && 0 <= Power(a) < M
  {
    if a == 0 {
      PowerIsReduced(b);
    } else {
      PowerSum(a - 1, b);
      var p, pb := Power(a - 1), Power(b);
      assert pb * p == p * pb;
      ModMod(pb * p);
      TimesPower(Power(a + b - 1), p, pb);
      assert Power(a + b) == (A * Power(a + b - 1)) % M && Power(a) == (A * p) % M;
      assert Power(a) * pb == pb * Power(a);
    }
  }

  lemma PowerIsReduced(n: nat)
    ensures 0 <= Power(n) < M
  {
  }

  /** The same by squaring. */
  function FastPower(n: nat): int {
    if n == 0 then 1
    else
      var half := FastPower(n / 2);
      var square := (half * half) % M;
      if n % 2 == 0 then square else (A * square) % M
  }

  lemma {:induction false} FastPowerIsPower(n: nat)
    ensures FastPower(n) == Power(n)
  {
    if n > 0 {
      var half := n / 2;
      FastPowerIsPower(half);
      PowerSum(half, half);
      assert n % 2 == 1 ==> Power(n) == (A * Power(n - 1)) % M && n - 1 == half + half;
    }
  }

  lemma SameRemainder(y: int, z: int)
    requires 0 <= y < M && 0 <= z < M && y % M == (z * 1) % M
    ensures y == z
  {
  }

  /** The n-th number of a generator that is seeded with 1, computed in a few steps. */
  lemma NthNumber(n: nat)
    requires n > 0
    ensures Steps(n, 1) == FastPower(n)
  {
    GeneratesPowers(n, 1);
    FastPowerIsPower(n);
    PowerIsReduced(n);
    SameRemainder(Steps(n, 1), Power(n));
  }

  predicate PowerIs(n: nat, v: int) {
    FastPower(n) == v
  }

  lemma Even(n: nat, v: int, w: int)
    requires n > 0 && PowerIs(n, v) && w == v * v % M
    ensures PowerIs(n + n, w)
  {
    assert (n + n) / 2 == n && (n + n) % 2 == 0;
  }

  lemma Odd(n: nat, v: int, w: int, next: int)
    requires n > 0 && PowerIs(n, v) && w == v * v % M && next == A * w % M
    ensures PowerIs(n + n + 1, next)
  {
    assert (n + n + 1) / 2 == n && (n + n + 1) % 2 == 1;
  }

  lemma TenThousandthPower()
    ensures PowerIs(10000, 1043618065)
  {
    Even(1, 16807, 282475249);
    Even(2, 282475249, 984943658);
    Odd(4, 984943658, 1457850878, 1458777923);
    Odd(9, 1458777923, 16531729, 823378840);
    Odd(19, 823378840, 1624379149, 2128236579);
    Even(39, 2128236579, 107554536);
    Even(78, 107554536, 1351345223);
    Even(156, 1351345223, 1129841133);
    Odd(312, 1129841133, 73536496, 1124791247);
    Even(625, 1124791247, 1903958413);
    Even(1250, 1903958413, 566390040);
    Even(2500, 566390040, 1069865427);
    Even(5000, 1069865427, 1043618065);
  }

  /** The value that the source gives as a check: seeded with 1, the 10000th number is 1043618065. */
  lemma TenThousandth()
    ensures Steps(10000, 1) == 1043618065
  {
    TenThousandthPower();
    NthNumber(10000);
  }

  // ------------------------------------------------------------------ the generator

  class Generator {
    var x: int

    /** A static variable: 0 until it is seeded. */
    constructor ()
      ensures x == 0
    {
      x := 0;
    }

    /** rand_val. */
    method RandVal(seed: int) returns (z: real)
      requires Is32Bit(seed) && Is32Bit(x)
      modifies this
      ensures x == Step(if seed != 0 then seed else old(x)) && 1 <= x <= M && z == x as real / M as real
      ensures 0.0 < z <= 1.0 && (z == 1.0 <==> x == M)
    {
      if seed != 0 {
        x := seed;
      }
      NoOverflow(x);
      var xDivQ := CDiv(x, Q);
      var xModQ := CMod(x, Q);
      var xNew := A * xModQ - R * xDivQ;
      if xNew > 0 {
        x := xNew;
      } else {
        x := xNew + M;
      }
      z := x as real / M as real;
    }

    /** The loop of exponential: if it ends it ends after one turn, and it ends unless the generator
        is stuck. */
    method Draw() returns (z: real)
      requires Is32Bit(x) && x % M != 0
      modifies this
      ensures x == Step(old(x)) && 1 <= x < M && 0.0 < z < 1.0
    {
      StuckExactlyWhen(x);
      z := 0.0;
      var again := true;
      while again
        invariant if again then x == old(x) else x == Step(old(x)) && 1 <= x < M && 0.0 < z < 1.0
        decreases again
      {
        z := RandVal(0);
        again := z == 0.0 || z == 1.0;
      }
    }
  }
}
