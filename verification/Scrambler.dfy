// The boot-binary scrambler: what it does to the positions of the bytes, why its shuffle is
// a single cycle over the chunks of a block, and why the two directions undo each other.
module Scrambler {

  type byte = bv8

  const MAXBLOCK := 2048 * 1024
  const CHUNKSIZE := 32

  // ---------------------------------------------------------------- the generator

  function NextSeed(seed: nat): (r: nat)
    ensures r < 0x8000
  {
    (seed * 2109 + 9273) % 0x8000
  }

  function Draw(seed: nat): (r: nat)
    ensures r < 0x10000
  {
    (seed + 0xC000) % 0x10000
  }

  // The product is a 32-bit unsigned one.
  function Pick(seed: nat, i: nat): nat {
    Draw(seed) * i % 0x1_0000_0000 / 0x10000
  }

  // The product never wraps around, so that the index picked lies strictly below.
  lemma PickBelow(seed: nat, i: nat)
    requires i < 0x10000
    ensures Draw(seed) * i < 0x1_0000_0000
    ensures i == 0 ==> Pick(seed, i) == 0
    ensures i > 0 ==> Pick(seed, i) < i
  {
    hide Draw;
    ProductBelow(Draw(seed), i);
    HighHalf(Draw(seed) * i, i);
  }

  lemma ProductBelow(x: nat, i: nat)
    requires x < 0x10000
    ensures x * i <= 0xFFFF * i
  {
  }

  lemma HighHalf(p: nat, i: nat)
    requires i < 0x10000 && p <= 0xFFFF * i
    ensures p < 0x1_0000_0000
    ensures i == 0 ==> p % 0x1_0000_0000 / 0x10000 == 0
    ensures i > 0 ==> p % 0x1_0000_0000 / 0x10000 < i
  {
  }

  // ---------------------------------------------------------------- the table of one block

  function Identity(n: nat): (t: seq<nat>)
    ensures |t| == n && forall k :: 0 <= k < n ==> t[k] == k
  {
    seq(n, k => k)
  }

  function Swap(t: seq<nat>, i: nat, j: nat): (r: seq<nat>)
    requires i < |t| && j < |t|
    ensures |r| == |t|
    ensures forall k :: 0 <= k < |t| ==> r[k] == if k == i then t[j] else if k == j then t[i] else t[k]
  {
    t[i := t[j]][j := t[i]]
  }

  // The shuffle with its first m entries still to be visited, from the last one down.
  function Shuffle(t: seq<nat>, m: nat, seed: nat): (r: (seq<nat>, nat))
    requires m <= |t| <= 0x10000
    ensures |r.0| == |t|
    decreases m
  {
    if m == 0 then (t, seed)
    else
      var seed1 := NextSeed(seed);
      PickBelow(seed1, m - 1);
      Shuffle(Swap(t, m - 1, Pick(seed1, m - 1)), m - 1, seed1)
  }

  function Table(n: nat, seed: nat): (t: seq<nat>)
    requires n <= 0x10000
    ensures |t| == n
  {
    Shuffle(Identity(n), n, seed).0
  }

  ghost predicate Holds(t: seq<nat>, v: nat) {
    exists k :: 0 <= k < |t| && t[k] == v
  }

  ghost predicate Permutation(t: seq<nat>, n: nat) {
    && |t| == n
    && (forall k :: 0 <= k < n ==> t[k] < n)
    && (forall i, j :: 0 <= i < j < n ==> t[i] != t[j])
    && (forall v :: 0 <= v < n ==> Holds(t, v))
  }

  lemma SwapKeepsPermutation(t: seq<nat>, i: nat, j: nat)
    requires Permutation(t, |t|) && i < |t| && j < |t|
    ensures Permutation(Swap(t, i, j), |t|)
  {
    var r := Swap(t, i, j);
    forall v | 0 <= v < |t| ensures Holds(r, v) {
      assert Holds(t, v);
      var k :| 0 <= k < |t| && t[k] == v;
      assert r[if k == i then j else if k == j then i else k] == v;
    }
  }

  lemma {:induction false} ShuffleKeepsPermutation(t: seq<nat>, m: nat, seed: nat)
    requires m <= |t| <= 0x10000 && Permutation(t, |t|)
    ensures Permutation(Shuffle(t, m, seed).0, |t|)
    decreases m
  {
    if m > 0 {
      var seed1 := NextSeed(seed);
      PickBelow(seed1, m - 1);
      var j := Pick(seed1, m - 1);
      SwapKeepsPermutation(t, m - 1, j);
      ShuffleKeepsPermutation(Swap(t, m - 1, j), m - 1, seed1);
    }
  }

  lemma TableIsPermutation(n: nat, seed: nat)
    requires n <= 0x10000
    ensures Permutation(Table(n, seed), n)
  {
    forall v | 0 <= v < n ensures Holds(Identity(n), v) {
      assert Identity(n)[v] == v;
    }
    ShuffleKeepsPermutation(Identity(n), n, seed);
  }

  // An entry once visited is never changed again.
  lemma {:induction false} VisitedIsFinal(t: seq<nat>, m: nat, seed: nat, k: nat)
    requires m <= k < |t| <= 0x10000
    ensures Shuffle(t, m, seed).0[k] == t[k]
    decreases m
  {
    if m > 0 {
      var seed1 := NextSeed(seed);
      PickBelow(seed1, m - 1);
      VisitedIsFinal(Swap(t, m - 1, Pick(seed1, m - 1)), m - 1, seed1, k);
    }
  }

  // ---------------------------------------------------------------- a single cycle

  // c lists every index below n once, each followed by the entry it holds, round and round.
  ghost predicate SingleCycle(t: seq<nat>, c: seq<nat>, n: nat) {
    && |t| == n && |c| == n
    && (forall i :: 0 <= i < n ==> c[i] < n)
    && (forall i, j :: 0 <= i < j < n ==> c[i] != c[j])
    && (forall v :: 0 <= v < n ==> Holds(c, v))
    && (forall i {:trigger t[c[i]]} :: 0 <= i < n ==> t[c[i]] == c[if i + 1 == n then 0 else i + 1])
  }

  lemma ShuffleNone(t: seq<nat>, seed: nat)
    requires |t| <= 0x10000
    ensures Shuffle(t, 0, seed) == (t, seed)
  {
  }

  lemma ShuffleFirst(t: seq<nat>, m: nat, seed: nat)
    requires 0 < m <= |t| <= 0x10000
    ensures var seed1 := NextSeed(seed);
            var j := Pick(seed1, m - 1);
            j < |t| && Shuffle(t, m, seed) == Shuffle(Swap(t, m - 1, j), m - 1, seed1)
  {
    PickBelow(NextSeed(seed), m - 1);
  }

  // The swaps act on positions: what they do to any table is what they do to the identity.
  lemma {:induction false} ShuffleActsOnPositions(t: seq<nat>, m: nat, seed: nat, k: nat)
    requires m <= |t| <= 0x10000 && k < |t|
    ensures var u := Shuffle(Identity(|t|), m, seed).0;
            u[k] < |t| && Shuffle(t, m, seed).0[k] == t[u[k]]
    decreases m
  {
    hide NextSeed, Pick, Shuffle;
    if m == 0 {
      ShuffleNone(t, seed);
      ShuffleNone(Identity(|t|), seed);
    } else {
      var n, seed1, j := |t|, NextSeed(seed), Pick(NextSeed(seed), m - 1);
      ShuffleFirst(t, m, seed);
      ShuffleFirst(Identity(n), m, seed);
      ShuffleActsOnPositions(Swap(t, m - 1, j), m - 1, seed1, k);
      ShuffleActsOnPositions(Swap(Identity(n), m - 1, j), m - 1, seed1, k);
    }
  }

  // Entries at and above m play no part in shuffling those below.
  lemma {:induction false} ShufflePrefix(t: seq<nat>, x: nat, m: nat, seed: nat)
    requires m <= |t| && |t| + 1 <= 0x10000
    ensures Shuffle(t + [x], m, seed).0 == Shuffle(t, m, seed).0 + [x]
    decreases m
  {
    if m > 0 {
      var seed1 := NextSeed(seed);
      PickBelow(seed1, m - 1);
      var j := Pick(seed1, m - 1);
      assert Swap(t + [x], m - 1, j) == Swap(t, m - 1, j) + [x];
      ShufflePrefix(Swap(t, m - 1, j), x, m - 1, seed1);
    }
  }

  // One more entry: the table on n + 1 entries is the one on n, with entry n let in just
  // before the index picked for it.
  lemma TableStep(n: nat, seed: nat, k: nat)
    requires 0 < n < 0x10000 && k <= n
    ensures var seed1 := NextSeed(seed);
            var j, u := Pick(seed1, n), Table(n, seed1);
            && j < n
            && Table(n + 1, seed)[k]
               == if k == n then j else if u[k] == j then n else u[k]
  {
    var seed1 := NextSeed(seed);
    PickBelow(seed1, n);
    var j, id := Pick(seed1, n), Identity(n + 1);
    var t := Swap(id, n, j);
    assert id == Identity(n) + [n];
    ShufflePrefix(Identity(n), n, n, seed1);
    TableIsPermutation(n, seed1);
    ShuffleActsOnPositions(t, n, seed1, k);
  }

  // Sattolo's algorithm: the chunks of a block are moved round in one cycle, so that none of
  // two or more stays where it is.
  lemma {:induction false} TableIsOneCycle(n: nat, seed: nat) returns (c: seq<nat>)
    requires 0 < n <= 0x10000
    ensures SingleCycle(Table(n, seed), c, n)
    decreases n
  {
    if n == 1 {
      c := [0];
      TableIsPermutation(1, seed);
      assert Holds(c, 0) by { assert c[0] == 0; }
    } else {
      var seed1 := NextSeed(seed);
      PickBelow(seed1, n - 1);
      var j := Pick(seed1, n - 1);
      var d := TableIsOneCycle(n - 1, seed1);
      assert Holds(d, j);
      var p :| 0 <= p < n - 1 && d[p] == j;
      c := InsertIntoCycle(Table(n - 1, seed1), d, p, Table(n, seed), seed);
    }
  }

  // c is d with n let in at position p.
  ghost predicate LetIn(c: seq<nat>, d: seq<nat>, p: nat, n: nat) {
    && p < |d| == n && |c| == n + 1
    && forall i {:trigger c[i]} :: 0 <= i <= n ==> c[i] == if i < p then d[i] else if i == p then n else d[i - 1]
  }

  lemma LetInListsAll(c: seq<nat>, d: seq<nat>, p: nat, n: nat)
    requires LetIn(c, d, p, n) && forall v :: 0 <= v < n ==> Holds(d, v)
    ensures forall v :: 0 <= v <= n ==> Holds(c, v)
  {
    forall v | 0 <= v <= n ensures Holds(c, v) {
      if v < n {
        assert Holds(d, v);
        var i :| 0 <= i < n && d[i] == v;
        assert c[if i < p then i else i + 1] == v;
      } else {
        assert c[p] == n;
      }
    }
  }

  lemma LetInFollows(c: seq<nat>, d: seq<nat>, p: nat, n: nat, u: seq<nat>, t: seq<nat>, i: nat)
    requires LetIn(c, d, p, n) && SingleCycle(u, d, n) && |t| == n + 1 && i <= n
    requires forall k :: 0 <= k <= n ==> t[k] == if k == n then d[p] else if u[k] == d[p] then n else u[k]
    ensures t[c[i]] == c[if i == n then 0 else i + 1]
  {
  }

  lemma InsertIntoCycle(u: seq<nat>, d: seq<nat>, p: nat, t: seq<nat>, seed: nat) returns (c: seq<nat>)
    requires 0 < |u| < 0x10000 && SingleCycle(u, d, |u|) && p < |u|
    requires u == Table(|u|, NextSeed(seed)) && d[p] == Pick(NextSeed(seed), |u|) && t == Table(|u| + 1, seed)
    ensures SingleCycle(t, c, |u| + 1)
  {
    hide Table, Holds;
    var n := |u|;
    c := seq(n + 1, i requires 0 <= i <= n => if i < p then d[i] else if i == p then n else d[i - 1]);
    forall k | 0 <= k <= n ensures t[k] == if k == n then d[p] else if u[k] == d[p] then n else u[k] {
      TableStep(n, seed, k);
    }
    LetInListsAll(c, d, p, n);
    forall i | 0 <= i <= n ensures t[c[i]] == c[if i == n then 0 else i + 1] {
      LetInFollows(c, d, p, n, u, t, i);
    }
  }

  lemma NoFixedChunk(n: nat, seed: nat, k: nat)
    requires 2 <= n <= 0x10000 && k < n
    ensures Table(n, seed)[k] != k
  {
    var c := TableIsOneCycle(n, seed);
    assert Holds(c, k);
    var i :| 0 <= i < n && c[i] == k;
    assert c[if i + 1 == n then 0 else i + 1] != c[i];
  }

  // ---------------------------------------------------------------- positions of bytes

  // For each byte of a scrambled block, the position it is taken from: whole chunks, in the
  // order of the table read from its end.
  function BlockPositions(t: seq<nat>, base: nat): (m: seq<nat>)
    ensures |m| == CHUNKSIZE * |t|
  {
    seq(CHUNKSIZE * |t|, p requires 0 <= p < CHUNKSIZE * |t| =>
      base + CHUNKSIZE * t[|t| - 1 - p / CHUNKSIZE] + p % CHUNKSIZE)
  }

  function SeedAfter(n: nat, seed: nat): nat
    requires n <= 0x10000
  {
    Shuffle(Identity(n), n, seed).1
  }

  // The same for a whole file: blocks of n chunks as long as they fit, then of half as many,
  // and the bytes that make no whole chunk where they are.
  function Positions(length: nat, n: nat, seed: nat, base: nat): (m: seq<nat>)
    requires n <= 0x10000
    ensures |m| == length
    decreases length, n
  {
    if n == 0 then seq(length, p requires 0 <= p < length => base + p)
    else if length >= CHUNKSIZE * n then
      BlockPositions(Table(n, seed), base)
      + Positions(length - CHUNKSIZE * n, n, SeedAfter(n, seed), base + CHUNKSIZE * n)
    else Positions(length, n / 2, seed, base)
  }

  function FilePositions(length: nat): (m: seq<nat>)
    ensures |m| == length
  {
    Positions(length, MAXBLOCK / CHUNKSIZE, length % 0x10000, 0)
  }

  // m takes the positions from base on, length of them, each exactly once.
  ghost predicate Onto(m: seq<nat>, base: nat, length: nat) {
    && |m| == length
    && (forall p :: 0 <= p < length ==> base <= m[p] < base + length)
    && (forall p, q :: 0 <= p < q < length ==> m[p] != m[q])
    && (forall v :: base <= v < base + length ==> Holds(m, v))
  }

  lemma BlockOnto(t: seq<nat>, base: nat)
    requires Permutation(t, |t|)
    ensures Onto(BlockPositions(t, base), base, CHUNKSIZE * |t|)
  {
    var n, m := |t|, BlockPositions(t, base);
    forall p, q | 0 <= p < q < |m| ensures m[p] != m[q] {
      var i, j := n - 1 - p / CHUNKSIZE, n - 1 - q / CHUNKSIZE;
      if i != j {
        assert t[i] != t[j];
      }
    }
    forall v | base <= v < base + |m| ensures Holds(m, v) {
      var c, r := (v - base) / CHUNKSIZE, (v - base) % CHUNKSIZE;
      assert Holds(t, c);
      var k :| 0 <= k < n && t[k] == c;
      var p := CHUNKSIZE * (n - 1 - k) + r;
      assert p / CHUNKSIZE == n - 1 - k && p % CHUNKSIZE == r;
      assert m[p] == v;
    }
  }

  lemma OntoJoin(a: seq<nat>, b: seq<nat>, base: nat, length: nat)
    requires |a| <= length && Onto(a, base, |a|) && Onto(b, base + |a|, length - |a|)
    ensures Onto(a + b, base, length)
  {
    var m := a + b;
    forall v | base <= v < base + length ensures Holds(m, v) {
      if v < base + |a| {
        assert Holds(a, v);
        var k :| 0 <= k < |a| && a[k] == v;
        assert m[k] == v;
      } else {
        assert Holds(b, v);
        var k :| 0 <= k < |b| && b[k] == v;
        assert m[|a| + k] == v;
      }
    }
  }

  // The blocks tile the file: every byte has exactly one place.
  lemma {:induction false} PositionsOnto(length: nat, n: nat, seed: nat, base: nat)
    requires n <= 0x10000
    ensures Onto(Positions(length, n, seed, base), base, length)
    decreases length, n
  {
    if n == 0 {
      var m := Positions(length, n, seed, base);
      forall v | base <= v < base + length ensures Holds(m, v) {
        assert m[v - base] == v;
      }
    } else if length >= CHUNKSIZE * n {
      TableIsPermutation(n, seed);
      BlockOnto(Table(n, seed), base);
      PositionsOnto(length - CHUNKSIZE * n, n, SeedAfter(n, seed), base + CHUNKSIZE * n);
      OntoJoin(BlockPositions(Table(n, seed), base),
               Positions(length - CHUNKSIZE * n, n, SeedAfter(n, seed), base + CHUNKSIZE * n), base, length);
    } else {
      PositionsOnto(length, n / 2, seed, base);
    }
  }

  // ---------------------------------------------------------------- the two directions

  // What scrambling makes of a file, and what unscrambling does.
  ghost predicate Scrambles(src: seq<byte>, dest: seq<byte>) {
    |dest| == |src| && forall p :: 0 <= p < |src| ==> Takes(FilePositions(|src|), src, dest, p)
  }

  ghost predicate Unscrambles(src: seq<byte>, dest: seq<byte>) {
    |dest| == |src| && forall p :: 0 <= p < |src| ==> Takes(FilePositions(|src|), dest, src, p)
  }

  // The byte at p of the scrambled file is the one at m[p] of the plain one.
  predicate Takes(m: seq<nat>, plain: seq<byte>, scrambled: seq<byte>, p: nat) {
    p < |m| && p < |scrambled| && m[p] < |plain| && scrambled[p] == plain[m[p]]
  }

  // Scrambling a file and unscrambling the result gives the file, whatever its length.
  lemma UnscrambleAfterScramble(plain: seq<byte>, scrambled: seq<byte>, back: seq<byte>)
    requires Scrambles(plain, scrambled) && Unscrambles(scrambled, back)
    ensures back == plain
  {
    var m := FilePositions(|plain|);
    PositionsOnto(|plain|, MAXBLOCK / CHUNKSIZE, |plain| % 0x10000, 0);
    forall v | 0 <= v < |plain| ensures back[v] == plain[v] {
      assert Holds(m, v);
      var p :| 0 <= p < |m| && m[p] == v;
      assert Takes(m, plain, scrambled, p) && Takes(m, back, scrambled, p);
    }
  }

  // And the other way round.
  lemma ScrambleAfterUnscramble(scrambled: seq<byte>, plain: seq<byte>, again: seq<byte>)
    requires Unscrambles(scrambled, plain) && Scrambles(plain, again)
    ensures again == scrambled
  {
    var m := FilePositions(|plain|);
    forall p | 0 <= p < |plain| ensures again[p] == scrambled[p] {
      assert Takes(m, plain, scrambled, p) && Takes(m, plain, again, p);
    }
  }

  lemma {:induction false} TailFrom(chunks: nat, tail: nat, n: nat, seed: nat, base: nat, p: nat)
    requires n <= 0x10000 && p < tail < CHUNKSIZE
    ensures Positions(CHUNKSIZE * chunks + tail, n, seed, base)[CHUNKSIZE * chunks + p] == base + CHUNKSIZE * chunks + p
    decreases chunks, n
  {
    hide Table, Shuffle, SeedAfter, BlockPositions;
    var length := CHUNKSIZE * chunks + tail;
    if n > 0 && length >= CHUNKSIZE * n {
      TailFrom(chunks - n, tail, n, SeedAfter(n, seed), base + CHUNKSIZE * n, p);
      assert length - CHUNKSIZE * n == CHUNKSIZE * (chunks - n) + tail;
    } else if n > 0 {
      TailFrom(chunks, tail, n / 2, seed, base, p);
    } else {
      assert chunks >= 0;
    }
  }

  // The bytes after the last whole chunk are copied where they are.
  lemma TailStays(length: nat, p: nat)
    requires length - length % CHUNKSIZE <= p < length
    ensures FilePositions(length)[p] == p
  {
    var chunks, tail := length / CHUNKSIZE, length % CHUNKSIZE;
    TailFrom(chunks, tail, MAXBLOCK / CHUNKSIZE, length % 0x10000, 0, p - CHUNKSIZE * chunks);
  }

  // ---------------------------------------------------------------- the loops

  method Copy(dest: array<byte>, d: nat, src: array<byte>, s: nat, count: nat)
    requires dest != src && d + count <= dest.Length && s + count <= src.Length
    modifies dest
    ensures dest[d..d + count] == src[s..s + count]
    ensures Outside(old(dest[..]), dest[..], d, d + count)
  {
    forall k | d <= k < d + count {
      dest[k] := src[s + (k - d)];
    }
  }

  ghost predicate HalvedFrom(blocksize: nat, n: nat) {
    n <= 0x10000 && if n == 0 then blocksize < CHUNKSIZE else blocksize == CHUNKSIZE * n && PowerOfTwo(n)
  }

  ghost predicate PowerOfTwo(n: nat) {
    n == 1 || (n > 1 && n % 2 == 0 && PowerOfTwo(n / 2))
  }

  method InitTable(table: array<nat>, nchunks: nat)
    requires nchunks <= table.Length
    modifies table
    ensures table[..nchunks] == Identity(nchunks)
  {
    for i := 0 to nchunks
      invariant forall k :: 0 <= k < i ==> table[k] == k
    {
      table[i] := i;
    }
  }

  // One step of the shuffle, the same in both directions.
  method ShuffleStep(table: array<nat>, ghost nchunks: nat, i: nat, seed: nat) returns (seed': nat)
    requires i < nchunks <= table.Length && nchunks <= 0x10000
    modifies table
    ensures seed' == NextSeed(seed)
    ensures Shuffle(table[..nchunks], i, seed') == Shuffle(old(table[..nchunks]), i + 1, seed)
    ensures Shuffle(table[..nchunks], i, seed').0[i] == table[i]
  {
    seed' := NextSeed(seed);
    PickBelow(seed', i);
    var j := Pick(seed', i);
    var tmp := table[i];
    table[i] := table[j];
    table[j] := tmp;
    assert table[..nchunks] == Swap(old(table[..nchunks]), i, j);
    VisitedIsFinal(table[..nchunks], i, seed', i);
  }

  // The inner loop of bootprogram_scramble: one block.
  method ScrambleBlock(dest: array<byte>, src: array<byte>, table: array<nat>, base: nat, nchunks: nat, seed: nat)
    returns (seed': nat)
    requires dest != src && table as object != dest && table as object != src && 0 < nchunks <= table.Length && nchunks <= 0x10000
    requires base + CHUNKSIZE * nchunks <= src.Length && base + CHUNKSIZE * nchunks <= dest.Length
    modifies dest, table
    ensures seed' == SeedAfter(nchunks, seed)
    ensures Placed(BlockPositions(Table(nchunks, seed), base), src[..], dest[..], base, CHUNKSIZE * nchunks)
    ensures Outside(old(dest[..]), dest[..], base, base + CHUNKSIZE * nchunks)
  {
    hide Shuffle, BlockPositions, Identity, Holds, Placed;
    InitTable(table, nchunks);
    ghost var t, m := Table(nchunks, seed), BlockPositions(Table(nchunks, seed), base);
    TableIsPermutation(nchunks, seed);
    var i, d := nchunks - 1, base;
    seed' := seed;
    NothingPlaced(m, src[..], dest[..], base);
    while i != -1
      invariant -1 <= i < nchunks && d == base + CHUNKSIZE * (nchunks - 1 - i)
      invariant Shuffle(table[..nchunks], i + 1, seed') == Shuffle(Identity(nchunks), nchunks, seed)
      invariant Placed(m, src[..], dest[..], base, CHUNKSIZE * (nchunks - 1 - i))
      invariant Outside(old(dest[..]), dest[..], base, d)
      decreases i
    {
      seed' := ShuffleStep(table, nchunks, i, seed');
      assert t[i] == table[i];
      ghost var before := dest[..];
      ghost var s := base + CHUNKSIZE * table[i];
      Copy(dest, d, src, base + CHUNKSIZE * table[i], CHUNKSIZE);
      assert dest[..][d..d + CHUNKSIZE] == dest[d..d + CHUNKSIZE];
      assert src[..][s..s + CHUNKSIZE] == src[s..s + CHUNKSIZE];
      ChunkTaken(m, t, src[..], before, dest[..], base, i);
      d := d + CHUNKSIZE;
      i := i - 1;
    }
    ShuffleNone(table[..nchunks], seed');
  }

  // The first count bytes from base on are those at the positions m says.
  ghost predicate Placed(m: seq<nat>, plain: seq<byte>, scrambled: seq<byte>, base: nat, count: nat) {
    && count <= |m| && base + count <= |scrambled|
    && forall p :: 0 <= p < count ==> m[p] < |plain| && scrambled[base + p] == plain[m[p]]
  }

  lemma NothingPlaced(m: seq<nat>, plain: seq<byte>, scrambled: seq<byte>, base: nat)
    requires base <= |scrambled|
    ensures Placed(m, plain, scrambled, base, 0)
  {
  }

  ghost predicate Outside(before: seq<byte>, after: seq<byte>, lo: nat, hi: nat) {
    |after| == |before| && forall k :: 0 <= k < |before| && (k < lo || k >= hi) ==> after[k] == before[k]
  }

  lemma ChunkTaken(m: seq<nat>, t: seq<nat>, src: seq<byte>, before: seq<byte>, after: seq<byte>, base: nat, i: nat)
    requires i < |t| && m == BlockPositions(t, base) && t[i] < |t|
    requires base + CHUNKSIZE * |t| <= |src| && base + CHUNKSIZE * |t| <= |before| == |after|
    requires Placed(m, src, before, base, CHUNKSIZE * (|t| - 1 - i))
    requires var d, s := base + CHUNKSIZE * (|t| - 1 - i), base + CHUNKSIZE * t[i];
             after[d..d + CHUNKSIZE] == src[s..s + CHUNKSIZE] && Outside(before, after, d, d + CHUNKSIZE)
    ensures Placed(m, src, after, base, CHUNKSIZE * (|t| - i))
  {
  }

  // The inner loop of bootprogram_unscramble.
  method UnscrambleBlock(dest: array<byte>, src: array<byte>, table: array<nat>, base: nat, nchunks: nat, seed: nat)
    returns (seed': nat)
    requires dest != src && table as object != dest && table as object != src
    requires 0 < nchunks <= table.Length && nchunks <= 0x10000
    requires base + CHUNKSIZE * nchunks <= src.Length && base + CHUNKSIZE * nchunks <= dest.Length
    modifies dest, table
    ensures seed' == SeedAfter(nchunks, seed)
    ensures Placed(BlockPositions(Table(nchunks, seed), base), dest[..], src[..], base, CHUNKSIZE * nchunks)
    ensures Outside(old(dest[..]), dest[..], base, base + CHUNKSIZE * nchunks)
  {
    hide Shuffle, BlockPositions, Identity, Holds, Placed;
    InitTable(table, nchunks);
    ghost var t, m := Table(nchunks, seed), BlockPositions(Table(nchunks, seed), base);
    TableIsPermutation(nchunks, seed);
    var i, s := nchunks - 1, base;
    seed' := seed;
    NothingPlaced(m, dest[..], src[..], base);
    while i != -1
      invariant -1 <= i < nchunks && s == base + CHUNKSIZE * (nchunks - 1 - i)
      invariant Shuffle(table[..nchunks], i + 1, seed') == Shuffle(Identity(nchunks), nchunks, seed)
      invariant Placed(m, dest[..], src[..], base, CHUNKSIZE * (nchunks - 1 - i))
      invariant Outside(old(dest[..]), dest[..], base, base + CHUNKSIZE * nchunks)
      decreases i
    {
      seed' := ShuffleStep(table, nchunks, i, seed');
      assert t[i] == table[i];
      ghost var before, d := dest[..], base + CHUNKSIZE * table[i];
      Copy(dest, base + CHUNKSIZE * table[i], src, s, CHUNKSIZE);
      assert dest[..][d..d + CHUNKSIZE] == dest[d..d + CHUNKSIZE];
      assert src[..][s..s + CHUNKSIZE] == src[s..s + CHUNKSIZE];
      ChunkPut(m, t, src[..], before, dest[..], base, i);
      s := s + CHUNKSIZE;
      i := i - 1;
    }
    ShuffleNone(table[..nchunks], seed');
  }

  lemma ChunkPut(m: seq<nat>, t: seq<nat>, src: seq<byte>, before: seq<byte>, after: seq<byte>, base: nat, i: nat)
    requires i < |t| && m == BlockPositions(t, base) && Permutation(t, |t|)
    requires base + CHUNKSIZE * |t| <= |src| && base + CHUNKSIZE * |t| <= |before| == |after|
    requires Placed(m, before, src, base, CHUNKSIZE * (|t| - 1 - i))
    requires var d, s := base + CHUNKSIZE * t[i], base + CHUNKSIZE * (|t| - 1 - i);
             after[d..d + CHUNKSIZE] == src[s..s + CHUNKSIZE] && Outside(before, after, d, d + CHUNKSIZE)
    ensures Placed(m, after, src, base, CHUNKSIZE * (|t| - i))
  {
    var c := CHUNKSIZE * (|t| - 1 - i);
    forall p | 0 <= p < c + CHUNKSIZE ensures m[p] < |after| && src[base + p] == after[m[p]] {
      var q := p / CHUNKSIZE;
      assert t[|t| - 1 - q] < |t|;
      if p >= c {
        var r := p - c;
        assert q == |t| - 1 - i && p % CHUNKSIZE == r;
        assert after[base + CHUNKSIZE * t[i]..base + CHUNKSIZE * t[i] + CHUNKSIZE][r] == src[base + c..base + c + CHUNKSIZE][r];
      } else {
        assert q < |t| - 1 - i && t[|t| - 1 - q] != t[i];
        assert after[m[p]] == before[m[p]];
      }
    }
  }

  // A block more in place, in a file scrambled up to its start.
  lemma BlockScrambled(all: seq<nat>, done: seq<nat>, m: seq<nat>, src: seq<byte>, before: seq<byte>, after: seq<byte>)
    requires done + m <= all && Placed(all, src, before, 0, |done|)
    requires Outside(before, after, |done|, |done| + |m|) && Placed(m, src, after, |done|, |m|)
    ensures Placed(all, src, after, 0, |done| + |m|)
  {
  }

  lemma BlockUnscrambled(all: seq<nat>, done: seq<nat>, m: seq<nat>, src: seq<byte>, before: seq<byte>, after: seq<byte>)
    requires done + m <= all && Placed(all, before, src, 0, |done|)
    requires forall p :: 0 <= p < |done| ==> done[p] < |done|
    requires Outside(before, after, |done|, |done| + |m|) && Placed(m, after, src, |done|, |m|)
    ensures Placed(all, after, src, 0, |done| + |m|)
  {
  }

  // The blocks still to do, and those done, make up the whole file.
  ghost predicate Progress(all: seq<nat>, done: seq<nat>, length: nat, blocksize: nat, n: nat, seed: nat) {
    && HalvedFrom(blocksize, n) && |all| == |done| + length
    && all == done + Positions(length, n, seed, |done|)
    && forall p :: 0 <= p < |done| ==> done[p] < |done|
  }

  lemma BlockDone(all: seq<nat>, done: seq<nat>, length: nat, blocksize: nat, n: nat, seed: nat)
    requires Progress(all, done, length, blocksize, n, seed) && CHUNKSIZE <= blocksize <= length
    ensures n == blocksize / CHUNKSIZE > 0 && CHUNKSIZE * n == blocksize
    ensures var m := BlockPositions(Table(n, seed), |done|);
            && |m| == blocksize && done + m <= all
            && Progress(all, done + m, length - blocksize, blocksize, n, SeedAfter(n, seed))
  {
    var m := BlockPositions(Table(n, seed), |done|);
    var rest := Positions(length - blocksize, n, SeedAfter(n, seed), |done| + blocksize);
    TableIsPermutation(n, seed);
    BlockOnto(Table(n, seed), |done|);
    assert done + (m + rest) == done + m + rest;
    forall p | 0 <= p < |done + m| ensures (done + m)[p] < |done + m| {
      if p >= |done| {
        assert (done + m)[p] == m[p - |done|];
      }
    }
  }

  lemma SizeHalved(all: seq<nat>, done: seq<nat>, length: nat, blocksize: nat, n: nat, seed: nat)
    requires Progress(all, done, length, blocksize, n, seed) && CHUNKSIZE <= blocksize && length < blocksize
    ensures Progress(all, done, length, blocksize / 2, n / 2, seed)
  {
  }

  // Only the bytes that make no whole chunk are left: they stay where they are.
  lemma TailScrambled(all: seq<nat>, done: seq<nat>, length: nat, blocksize: nat, n: nat, seed: nat)
    requires Progress(all, done, length, blocksize, n, seed) && blocksize < CHUNKSIZE
    ensures forall p :: |done| <= p < |all| ==> all[p] == p
  {
  }

  lemma Start(length: nat)
    ensures Progress(FilePositions(length), [], length, MAXBLOCK, MAXBLOCK / CHUNKSIZE, length % 0x10000)
  {
    hide Positions;
    assert FilePositions(length) == [] + FilePositions(length);
    assert PowerOfTwo(8);
    assert PowerOfTwo(64);
    assert PowerOfTwo(512);
    assert PowerOfTwo(4096);
    assert PowerOfTwo(32768);
    assert PowerOfTwo(65536);
  }

  // bootprogram_scramble
  method Scramble(dest: array<byte>, src: array<byte>, length: nat)
    requires dest != src && length <= dest.Length && length <= src.Length
    modifies dest
    ensures Scrambles(src[..length], dest[..length])
    ensures Outside(old(dest[..]), dest[..], 0, length)
  {
    hide Positions, BlockPositions, Shuffle, PowerOfTwo, HalvedFrom;
    var table := new nat[MAXBLOCK / CHUNKSIZE];
    var seed: nat, s: nat, left: nat, blocksize: nat := length % 0x10000, 0, length, MAXBLOCK;
    ghost var all, done, n: nat := FilePositions(length), [], MAXBLOCK / CHUNKSIZE;
    Start(length);
    while blocksize >= CHUNKSIZE
      invariant s == |done| && s + left == length && Progress(all, done, left, blocksize, n, seed)
      invariant Placed(all, src[..], dest[..], 0, s) && Outside(old(dest[..]), dest[..], 0, s)
      decreases blocksize
    {
      while left >= blocksize
        invariant s == |done| && s + left == length && Progress(all, done, left, blocksize, n, seed)
        invariant Placed(all, src[..], dest[..], 0, s) && Outside(old(dest[..]), dest[..], 0, s)
        decreases left
      {
        BlockDone(all, done, left, blocksize, n, seed);
        ghost var m, before := BlockPositions(Table(n, seed), |done|), dest[..];
        seed := ScrambleBlock(dest, src, table, s, blocksize / CHUNKSIZE, seed);
        BlockScrambled(all, done, m, src[..], before, dest[..]);
        done := done + m;
        left := left - blocksize;
        s := s + blocksize;
      }
      SizeHalved(all, done, left, blocksize, n, seed);
      blocksize, n := blocksize / 2, n / 2;
    }
    TailScrambled(all, done, left, blocksize, n, seed);
    ghost var before := dest[..];
    if left != 0 {
      Copy(dest, s, src, s, left);
    }
    TailPlaced(all, src[..], before, dest[..], s, length);
    assert FilePositions(|src[..length]|) == all;
  }

  lemma TailPlaced(all: seq<nat>, src: seq<byte>, before: seq<byte>, after: seq<byte>, s: nat, length: nat)
    requires |all| == length <= |src| && length <= |before| == |after| && s <= length && all == FilePositions(length)
    requires Placed(all, src, before, 0, s) && Outside(before, after, s, length)
    requires after[s..length] == src[s..length] && forall p :: s <= p < length ==> all[p] == p
    ensures Scrambles(src[..length], after[..length])
  {
    PositionsOnto(length, MAXBLOCK / CHUNKSIZE, length % 0x10000, 0);
    hide Positions;
    forall p | 0 <= p < length ensures Takes(all, src[..length], after[..length], p) {
      if p >= s {
        assert after[s..length][p - s] == src[s..length][p - s];
      } else {
        assert after[0 + p] == before[0 + p] == src[all[p]];
      }
    }
  }

  // bootprogram_unscramble
  method Unscramble(dest: array<byte>, src: array<byte>, length: nat)
    requires dest != src && length <= dest.Length && length <= src.Length
    modifies dest
    ensures Unscrambles(src[..length], dest[..length])
    ensures Outside(old(dest[..]), dest[..], 0, length)
  {
    hide Positions, BlockPositions, Shuffle, PowerOfTwo, HalvedFrom;
    var table := new nat[MAXBLOCK / CHUNKSIZE];
    var seed: nat, s: nat, left: nat, blocksize: nat := length % 0x10000, 0, length, MAXBLOCK;
    ghost var all, done, n: nat := FilePositions(length), [], MAXBLOCK / CHUNKSIZE;
    Start(length);
    while blocksize >= CHUNKSIZE
      invariant s == |done| && s + left == length && Progress(all, done, left, blocksize, n, seed)
      invariant Placed(all, dest[..], src[..], 0, s) && Outside(old(dest[..]), dest[..], 0, s)
      decreases blocksize
    {
      while left >= blocksize
        invariant s == |done| && s + left == length && Progress(all, done, left, blocksize, n, seed)
        invariant Placed(all, dest[..], src[..], 0, s) && Outside(old(dest[..]), dest[..], 0, s)
        decreases left
      {
        BlockDone(all, done, left, blocksize, n, seed);
        ghost var m, before := BlockPositions(Table(n, seed), |done|), dest[..];
        seed := UnscrambleBlock(dest, src, table, s, blocksize / CHUNKSIZE, seed);
        BlockUnscrambled(all, done, m, src[..], before, dest[..]);
        done := done + m;
        left := left - blocksize;
        s := s + blocksize;
      }
      SizeHalved(all, done, left, blocksize, n, seed);
      blocksize, n := blocksize / 2, n / 2;
    }
    TailScrambled(all, done, left, blocksize, n, seed);
    ghost var before := dest[..];
    if left != 0 {
      Copy(dest, s, src, s, left);
    }
    TailPut(all, src[..], before, dest[..], s, length);
    assert FilePositions(|src[..length]|) == all;
  }

  lemma TailPut(all: seq<nat>, src: seq<byte>, before: seq<byte>, after: seq<byte>, s: nat, length: nat)
    requires |all| == length <= |src| && length <= |before| == |after| && s <= length && all == FilePositions(length)
    requires Placed(all, before, src, 0, s) && Outside(before, after, s, length)
    requires forall p :: 0 <= p < s ==> all[p] < s
    requires after[s..length] == src[s..length] && forall p :: s <= p < length ==> all[p] == p
    ensures Unscrambles(src[..length], after[..length])
  {
  }
}
