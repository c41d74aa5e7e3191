// The generator behind the scrambler: what it draws and picks, its full period, which indices
// it can pick at all, and the order of a small file worked out.
module ScrambleSeeds {
  import opened Scrambler

  // ---------------------------------------------------------------- one step

  // The linear congruence, modulo 2^15.
  lemma NextSeedIs(seed: nat, next: nat)
    ensures NextSeed(seed) == next <==> next < 0x8000 && (2109 * seed + 9273 - next) % 0x8000 == 0
  {
  }

  lemma DrawIs(seed: nat, x: nat)
    ensures Draw(seed) == x <==> x < 0x10000 && (seed + 0xC000 - x) % 0x10000 == 0
  {
  }

  // The pick is the draw scaled down: j is picked when the draw lies in the j-th of i equal
  // parts of its range.
  lemma PickScales(seed: nat, i: nat, j: nat)
    requires i < 0x10000
    ensures Pick(seed, i) == j <==> 0x10000 * j <= Draw(seed) * i < 0x10000 * (j + 1)
  {
    hide Draw;
    PickBelow(seed, i);
    var p := Draw(seed) * i;
    assert Pick(seed, i) == p / 0x10000;
  }

  // Seeds have 15 bits, so only the first and the last quarter of the range is ever drawn:
  // these are all the indices that can be picked.
  lemma PicksReached(i: nat, j: nat)
    requires j < i < 0x10000
    ensures (exists seed :: 0 <= seed < 0x8000 && Pick(seed, i) == j)
            <==> 0x10000 * j <= 0x3FFF * i || 0xC000 * i < 0x10000 * (j + 1)
  {
    hide Draw, Pick, Ceiling;
    if 0x10000 * j <= 0x3FFF * i {
      var x := Ceiling(0x10000 * j, i);
      CeilingBelow(0x10000 * j, i, 0x3FFF);
      DrawIs(x + 0x4000, x);
      PickAt(x + 0x4000, i, j, x);
    } else if 0xC000 * i < 0x10000 * (j + 1) {
      var y := Ceiling(0x10000 * j, i);
      var x := if y < 0xC000 then 0xC000 else y;
      CeilingBelow(0x10000 * j, i, 0xFFFF);
      DrawIs(x - 0xC000, x);
      InPart(x, y, i, j);
      PickAt(x - 0xC000, i, j, x);
    } else {
      forall seed | 0 <= seed < 0x8000 ensures Pick(seed, i) != j {
        PickScales(seed, i, j);
        DrawsQuarters(seed);
        OutOfReach(Draw(seed), i, j);
      }
    }
  }

  // The least x with x * i >= p.
  function Ceiling(p: nat, i: nat): (x: nat)
    requires i > 0
    ensures p <= x * i < p + i
  {
    var q := (p + i - 1) / i;
    assert q * i <= p + i - 1 < q * i + i;
    q
  }

  lemma CeilingBelow(p: nat, i: nat, x: nat)
    requires i > 0 && p <= x * i
    ensures Ceiling(p, i) <= x
  {
    var k := x + 1 - Ceiling(p, i);
    assert k * i == x * i + i - Ceiling(p, i) * i;
    Sign(k, i);
  }

  lemma Sign(k: int, d: int)
    requires d > 0
    ensures k >= 1 ==> k * d >= d
    ensures k <= -1 ==> k * d <= -d
    ensures k == 0 ==> k * d == 0
  {
  }

  lemma PickAt(seed: nat, i: nat, j: nat, x: nat)
    requires j < i < 0x10000 && seed < 0x8000 && Draw(seed) == x && 0x10000 * j <= x * i < 0x10000 * (j + 1)
    ensures exists seed :: 0 <= seed < 0x8000 && Pick(seed, i) == j
  {
    PickScales(seed, i, j);
    assert Pick(seed, i) == j;
  }

  lemma DrawsQuarters(seed: nat)
    requires seed < 0x8000
    ensures Draw(seed) <= 0x3FFF || 0xC000 <= Draw(seed) <= 0xFFFF
  {
  }

  lemma InPart(x: nat, y: nat, i: nat, j: nat)
    requires j < i < 0x10000 && 0x10000 * j <= y * i < 0x10000 * j + i && 0xC000 * i < 0x10000 * (j + 1)
    requires x == if y < 0xC000 then 0xC000 else y
    ensures 0x10000 * j <= x * i < 0x10000 * (j + 1)
  {
    if y < 0xC000 {
      assert (0xC000 - y) * i >= 0;
    }
  }

  lemma OutOfReach(x: nat, i: nat, j: nat)
    requires x <= 0x3FFF || x >= 0xC000
    requires 0x10000 * j > 0x3FFF * i && 0xC000 * i >= 0x10000 * (j + 1)
    ensures !(0x10000 * j <= x * i < 0x10000 * (j + 1))
  {
    if x <= 0x3FFF {
      assert x * i <= 0x3FFF * i;
    } else {
      assert x * i >= 0xC000 * i;
    }
  }

  // ---------------------------------------------------------------- the period

  function Iterate(seed: nat, n: nat): nat
    decreases n
  {
    if n == 0 then seed else NextSeed(Iterate(seed, n - 1))
  }

  // The sum of the first n powers of the factor.
  function Geo(n: nat): nat
    decreases n
  {
    if n == 0 then 0 else 2109 * Geo(n - 1) + 1
  }

  predicate Divides(d: nat, x: int)
    requires d > 0
  {
    x % d == 0
  }

  function Pow2(k: nat): (p: nat)
    ensures p > 0
    decreases k
  {
    if k == 0 then 1 else 2 * Pow2(k - 1)
  }

  lemma Distribute(x: int, y: int)
    ensures (2109 * x + 1) * y == 2109 * (x * y) + y
    ensures y * (2109 * x + 1) == 2109 * (y * x) + y
  {
  }

  lemma Doubled(g: int)
    ensures g + (2108 * g + 1) * g == 2 * (g * (1054 * g + 1))
  {
  }

  // n steps, in one formula.
  lemma {:induction false} IterateIs(seed: nat, n: nat)
    ensures Divides(0x8000, seed + Geo(n) * (2108 * seed + 9273) - Iterate(seed, n))
    decreases n
  {
    hide NextSeed;
    if n > 0 {
      IterateIs(seed, n - 1);
      var c, x, g := 2108 * seed + 9273, Iterate(seed, n - 1), Geo(n - 1);
      var k := (seed + g * c - x) / 0x8000;
      assert seed + g * c - x == 0x8000 * k;
      NextSeedIs(x, Iterate(seed, n));
      var l := (2109 * x + 9273 - Iterate(seed, n)) / 0x8000;
      Distribute(g, c);
      assert 2109 * x + 9273 - Iterate(seed, n) == 0x8000 * l;
      Multiple(2109 * k + l);
    }
  }

  lemma Multiple(k: int)
    ensures Divides(0x8000, 0x8000 * k)
  {
  }

  lemma {:induction false} GeoAdds(a: nat, b: nat)
    ensures Geo(a + b) == Geo(a) + (2108 * Geo(a) + 1) * Geo(b)
    decreases b
  {
    if b > 0 {
      GeoAdds(a, b - 1);
      assert a + b - 1 == a + (b - 1);
      Distribute(Geo(b - 1), 2108 * Geo(a) + 1);
    }
  }

  lemma {:induction false} GeoParity(n: nat)
    ensures Geo(n) % 2 == n % 2
    decreases n
  {
    if n > 0 {
      GeoParity(n - 1);
      var g := Geo(n - 1);
      assert Geo(n) == 2 * (1054 * g) + (g + 1);
    }
  }

  lemma HalfDivides(k: nat, x: int)
    ensures Divides(Pow2(k + 1), 2 * x) <==> Divides(Pow2(k), x)
  {
    var p := Pow2(k);
    var q, r := x / p, x % p;
    assert x == p * q + r;
    assert 2 * x == (2 * p) * q + 2 * r;
    Remainder(2 * p, q, 2 * r);
  }

  lemma Remainder(d: nat, q: int, r: int)
    requires 0 <= r < d
    ensures (d * q + r) % d == r
  {
    var x := d * q + r;
    var k := x / d - q;
    assert x == d * (x / d) + x % d;
    assert k * d == d * (x / d) - d * q;
    Sign(k, d);
  }

  lemma EvenDivides(k: nat, x: int)
    requires k > 0 && Divides(Pow2(k), x)
    ensures x % 2 == 0
  {
    var p := Pow2(k - 1);
    assert x == (2 * p) * (x / (2 * p));
    assert x == 2 * (p * (x / (2 * p)));
  }

  lemma OddDivides(k: nat, x: int)
    requires k > 0 && x % 2 == 1
    ensures !Divides(Pow2(k), x)
  {
    if Divides(Pow2(k), x) {
      EvenDivides(k, x);
    }
  }

  lemma OneDivides(x: int)
    ensures Divides(Pow2(0), x)
  {
  }

  // An odd factor does not matter.
  lemma {:induction false} OddFactor(k: nat, x: int, o: int)
    requires o % 2 == 1
    ensures Divides(Pow2(k), x * o) <==> Divides(Pow2(k), x)
    decreases k
  {
    if k > 0 {
      if x % 2 == 0 {
        var y := x / 2;
        OddFactor(k - 1, y, o);
        HalfDivides(k - 1, y);
        HalfDivides(k - 1, y * o);
        assert x * o == 2 * (y * o);
      } else {
        OddProduct(x, o);
        OddDivides(k, x);
        OddDivides(k, x * o);
      }
    } else {
      OneDivides(x);
      OneDivides(x * o);
    }
  }

  lemma OddProduct(x: int, y: int)
    requires x % 2 == 1 && y % 2 == 1
    ensures (x * y) % 2 == 1
  {
    var a, b := x / 2, y / 2;
    assert x == 2 * a + 1 && y == 2 * b + 1;
    Multiplied(a, b);
    var k := 2 * (a * b) + a + b;
    assert x * y == 2 * k + 1;
  }

  lemma Multiplied(a: int, b: int)
    ensures (2 * a + 1) * (2 * b + 1) == 2 * (2 * (a * b) + a + b) + 1
  {
  }

  // A power of two divides the sum exactly when it divides the number of its terms.
  lemma {:induction false} GeoDivides(k: nat, n: nat)
    ensures Divides(Pow2(k), Geo(n)) <==> Divides(Pow2(k), n)
    decreases k
  {
    hide Geo, Divides;
    if k == 0 {
      OneDivides(n);
      OneDivides(Geo(n));
    } else if n % 2 == 1 {
      GeoParity(n);
      OddDivides(k, n);
      OddDivides(k, Geo(n));
    } else {
      var m := n / 2;
      var g, o := Geo(m), 1054 * Geo(m) + 1;
      GeoAdds(m, m);
      Doubled(g);
      HalfDivides(k - 1, g * o);
      assert o == 2 * (527 * g) + 1;
      OddFactor(k - 1, g, o);
      GeoDivides(k - 1, m);
      HalfDivides(k - 1, m);
    }
  }

  // The generator comes back to a seed after every 2^15 steps, and no earlier: it goes
  // through all of them.
  lemma FullPeriod(seed: nat, n: nat)
    requires seed < 0x8000
    ensures Iterate(seed, n) == seed <==> n % 0x8000 == 0
  {
    hide Iterate, Geo, Divides;
    var c := 2108 * seed + 9273;
    IterateIs(seed, n);
    IterateBelow(seed, n);
    SameModulo(seed, Geo(n) * c, Iterate(seed, n));
    Fifteen(n);
    Fifteen(Geo(n) * c);
    assert c == 2 * (1054 * seed + 4636) + 1;
    OddFactor(15, Geo(n), c);
    GeoDivides(15, n);
  }

  lemma IterateBelow(seed: nat, n: nat)
    requires seed < 0x8000
    ensures Iterate(seed, n) < 0x8000
  {
  }

  lemma Fifteen(x: int)
    ensures Divides(Pow2(15), x) <==> x % 0x8000 == 0
    ensures Divides(0x8000, x) <==> x % 0x8000 == 0
  {
    assert Pow2(5) == 32 && Pow2(10) == 1024 && Pow2(15) == 0x8000;
  }

  lemma SameModulo(a: nat, d: int, x: nat)
    requires a < 0x8000 && x < 0x8000 && Divides(0x8000, a + d - x)
    ensures x == a <==> Divides(0x8000, d)
  {
  }

  lemma {:induction false} IterateAdds(seed: nat, a: nat, b: nat)
    ensures Iterate(seed, a + b) == Iterate(Iterate(seed, a), b)
    decreases b
  {
    if b > 0 {
      IterateAdds(seed, a, b - 1);
      assert a + b - 1 == a + (b - 1);
    }
  }

  // So 2^15 steps in a row give as many different seeds.
  lemma AllDifferent(seed: nat, i: nat, j: nat)
    requires seed < 0x8000 && i < j < i + 0x8000
    ensures Iterate(seed, i) != Iterate(seed, j)
  {
    IterateAdds(seed, i, j - i);
    FullPeriod(Iterate(seed, i), j - i);
  }

  // ---------------------------------------------------------------- a small file

  // What the generator gives from 256 on, and the swaps it makes.
  lemma Draws()
    ensures NextSeed(256) == 24889 && NextSeed(24889) == 5838 && NextSeed(5838) == 847 && NextSeed(847) == 26124
    ensures NextSeed(26124) == 21781 && NextSeed(21781) == 4666 && NextSeed(4666) == 19467 && NextSeed(19467) == 6872
    ensures Pick(24889, 7) == 0 && Pick(5838, 6) == 5 && Pick(847, 5) == 3 && Pick(26124, 4) == 0
    ensures Pick(21781, 3) == 0 && Pick(4666, 2) == 1 && Pick(19467, 1) == 0 && Pick(6872, 0) == 0
  {
  }

  lemma Swaps()
    ensures Identity(8) == [0, 1, 2, 3, 4, 5, 6, 7]
    ensures Swap([0, 1, 2, 3, 4, 5, 6, 7], 7, 0) == [7, 1, 2, 3, 4, 5, 6, 0]
    ensures Swap([7, 1, 2, 3, 4, 5, 6, 0], 6, 5) == [7, 1, 2, 3, 4, 6, 5, 0]
    ensures Swap([7, 1, 2, 3, 4, 6, 5, 0], 5, 3) == [7, 1, 2, 6, 4, 3, 5, 0]
    ensures Swap([7, 1, 2, 6, 4, 3, 5, 0], 4, 0) == [4, 1, 2, 6, 7, 3, 5, 0]
    ensures Swap([4, 1, 2, 6, 7, 3, 5, 0], 3, 0) == [6, 1, 2, 4, 7, 3, 5, 0]
    ensures Swap([6, 1, 2, 4, 7, 3, 5, 0], 2, 1) == [6, 2, 1, 4, 7, 3, 5, 0]
    ensures Swap([6, 2, 1, 4, 7, 3, 5, 0], 1, 0) == [2, 6, 1, 4, 7, 3, 5, 0]
    ensures Swap([2, 6, 1, 4, 7, 3, 5, 0], 0, 0) == [2, 6, 1, 4, 7, 3, 5, 0]
  {
  }

  // The table of eight chunks of a file of 256 bytes.
  lemma EightChunks()
    ensures Table(8, 256) == [2, 6, 1, 4, 7, 3, 5, 0]
  {
    hide NextSeed, Draw, Pick, Swap, Identity, Shuffle;
    Draws();
    Swaps();
    ShuffleFirst([0, 1, 2, 3, 4, 5, 6, 7], 8, 256);
    ShuffleFirst([7, 1, 2, 3, 4, 5, 6, 0], 7, 24889);
    ShuffleFirst([7, 1, 2, 3, 4, 6, 5, 0], 6, 5838);
    ShuffleFirst([7, 1, 2, 6, 4, 3, 5, 0], 5, 847);
    ShuffleFirst([4, 1, 2, 6, 7, 3, 5, 0], 4, 26124);
    ShuffleFirst([6, 1, 2, 4, 7, 3, 5, 0], 3, 21781);
    ShuffleFirst([6, 2, 1, 4, 7, 3, 5, 0], 2, 4666);
    ShuffleFirst([2, 6, 1, 4, 7, 3, 5, 0], 1, 19467);
    ShuffleNone([2, 6, 1, 4, 7, 3, 5, 0], 6872);
  }

  // Blocks of more than n chunks do not fit.
  lemma {:induction false} TooLarge(length: nat, n: nat, k: nat, seed: nat)
    requires length < 2 * CHUNKSIZE * n && n * Pow2(k) <= 0x10000
    ensures Positions(length, n * Pow2(k), seed, 0) == Positions(length, n, seed, 0)
    decreases k
  {
    hide Positions, Pow2;
    Halved(n, k);
    if k > 0 {
      var m := n * Pow2(k - 1);
      TooLarge(length, n, k - 1, seed);
      assert n * Pow2(k) / 2 == m;
      assert length < CHUNKSIZE * (2 * m);
      Fits(length, 2 * m, seed);
    }
  }

  lemma Halved(n: nat, k: nat)
    requires n > 0
    ensures k == 0 ==> n * Pow2(k) == n
    ensures k > 0 ==> n * Pow2(k) == 2 * (n * Pow2(k - 1)) && n * Pow2(k - 1) >= n
  {
    if k > 0 {
      Sign(Pow2(k - 1), n);
      Twice(n, Pow2(k - 1));
    }
  }

  lemma Twice(x: nat, y: nat)
    ensures x * (2 * y) == 2 * (x * y) && y * x == x * y
  {
  }

  lemma Fits(length: nat, n: nat, seed: nat)
    requires n <= 0x10000
    ensures 0 < n && length < CHUNKSIZE * n ==> Positions(length, n, seed, 0) == Positions(length, n / 2, seed, 0)
    ensures 0 < n && length == CHUNKSIZE * n ==> Positions(length, n, seed, 0) == BlockPositions(Table(n, seed), 0)
  {
    hide Table, SeedAfter, BlockPositions;
    assert |Positions(0, n, SeedAfter(n, seed), CHUNKSIZE * n)| == 0;
  }

  // The blocks of a file of 256 bytes: none that is larger, and one of eight chunks.
  lemma OneBlock()
    ensures FilePositions(256) == BlockPositions(Table(8, 256), 0)
  {
    hide Table, BlockPositions, Positions;
    assert Pow2(13) == 0x2000 by {
      assert Pow2(6) == 64;
    }
    TooLarge(256, 8, 13, 256);
    Fits(256, 8, 256);
  }

  // In the scrambled file its chunks come in this order.
  lemma SmallFile(p: nat)
    requires p < 256
    ensures FilePositions(256)[p] == CHUNKSIZE * [0, 5, 3, 7, 4, 1, 6, 2][p / CHUNKSIZE] + p % CHUNKSIZE
  {
    hide Table, FilePositions;
    OneBlock();
    EightChunks();
  }
}
