// Load and store multiple on sound RAM and scratch RAM: which bytes they touch, which register
// goes where, and the pairs of addressing modes that undo each other.
module ArmBlockTransfer {

  type byte = x: int | 0 <= x < 0x100
  type word = x: int | 0 <= x < 0x1_0000_0000

  // Sound RAM lies at the bottom of the address space, scratch RAM further up.
  const RAM_SIZE := 0x20_0000
  const SCRATCH := 0x80_3000
  const MEMORY_END := 0x80_5000

  // Address arithmetic is that of unsigned 32-bit words.
  function Wrap(x: int): word
    requires -0x1_0000_0000 <= x < 0x2_0000_0000
  {
    if x < 0 then x + 0x1_0000_0000 else if x < 0x1_0000_0000 then x else x - 0x1_0000_0000
  }

  // ---------------------------------------------------------------- memory

  function ReadLong(ram: seq<byte>, addr: nat): word
    requires addr + 4 <= |ram|
  {
    var b0: int, b1: int, b2: int, b3: int := ram[addr], ram[addr + 1], ram[addr + 2], ram[addr + 3];
    b0 + 0x100 * b1 + 0x1_0000 * b2 + 0x100_0000 * b3
  }

  function WriteLong(ram: seq<byte>, addr: nat, value: word): (r: seq<byte>)
    requires addr + 4 <= |ram|
    ensures |r| == |ram|
  {
    ram[addr := value % 0x100][addr + 1 := value / 0x100 % 0x100]
       [addr + 2 := value / 0x1_0000 % 0x100][addr + 3 := value / 0x100_0000]
  }

  // Words lie in memory with their lowest byte first.
  lemma LowestByteFirst(ram: seq<byte>, addr: nat, value: word)
    requires addr + 4 <= |ram|
    ensures var r := WriteLong(ram, addr, value);
            r[addr] as int + 0x100 * r[addr + 1] as int + 0x1_0000 * r[addr + 2] as int + 0x100_0000 * r[addr + 3] as int == value
  {
    FourBytes(value);
  }

  lemma ReadWritten(ram: seq<byte>, addr: nat, value: word)
    requires addr + 4 <= |ram|
    ensures ReadLong(WriteLong(ram, addr, value), addr) == value
    ensures forall a: nat :: a < |ram| && (a < addr || a >= addr + 4) ==> WriteLong(ram, addr, value)[a] == ram[a]
  {
    FourBytes(value);
  }

  lemma FourBytes(v: word)
    ensures v % 0x100 + 0x100 * (v / 0x100 % 0x100) + 0x1_0000 * (v / 0x1_0000 % 0x100) + 0x100_0000 * (v / 0x100_0000) == v
    ensures v / 0x100_0000 < 0x100
  {
    var a: int := v;
    var b, c, d := a / 0x100, a / 0x1_0000, a / 0x100_0000;
    assert a == 0x100 * b + a % 0x100;
    assert c == b / 0x100 && b == 0x100 * c + b % 0x100;
    assert d == c / 0x100 && c == 0x100 * d + c % 0x100;
  }

  // ---------------------------------------------------------------- register lists

  // The register list of an instruction, as one flag per register.
  predicate List(list: seq<bool>) {
    |list| == 16
  }

  // How many registers below the k-th are listed.
  function Count(list: seq<bool>, k: nat): (n: nat)
    requires k <= |list|
    ensures n <= k
  {
    if k == 0 then 0 else Count(list, k - 1) + if list[k - 1] then 1 else 0
  }

  // Registers keep their order: a lower one listed has a lower place.
  lemma {:induction false} CountOrder(list: seq<bool>, i: nat, j: nat)
    requires i <= j <= |list|
    ensures Count(list, i) <= Count(list, j)
    ensures i < j && list[i] ==> Count(list, i) < Count(list, j)
    decreases j
  {
    if i < j {
      CountOrder(list, i, j - 1);
    }
  }

  // The values of the listed registers below k, in the order of the registers.
  function Listed(list: seq<bool>, values: seq<word>, k: nat): (s: seq<word>)
    requires k <= |list| && k <= |values|
    ensures |s| == Count(list, k)
  {
    if k == 0 then []
    else if list[k - 1] then Listed(list, values, k - 1) + [values[k - 1]]
    else Listed(list, values, k - 1)
  }

  lemma {:induction false} ListedAt(list: seq<bool>, values: seq<word>, k: nat, i: nat)
    requires i < k <= |list| && k <= |values| && list[i]
    ensures Count(list, i) < Count(list, k) && Listed(list, values, k)[Count(list, i)] == values[i]
    decreases k
  {
    if i < k - 1 {
      ListedAt(list, values, k - 1, i);
    }
  }

  // ---------------------------------------------------------------- addressing modes

  datatype Mode = DecrementAfter | IncrementAfter | DecrementBefore | IncrementBefore

  predicate Ascending(m: Mode) {
    m.IncrementAfter? || m.IncrementBefore?
  }

  // The lowest address of the block, for n registers, and what is written back to the base.
  function Start(m: Mode, base: word, n: nat): word
    requires n <= 16
  {
    match m
    case DecrementAfter => Wrap(base - 4 * n + 4)
    case IncrementAfter => base
    case DecrementBefore => Wrap(base - 4 * n)
    case IncrementBefore => Wrap(base + 4)
  }

  function After(m: Mode, base: word, n: nat): word
    requires n <= 16
  {
    if Ascending(m) then Wrap(base + 4 * n) else Wrap(base - 4 * n)
  }

  predicate InRam(start: word, n: nat) {
    start + 4 * n <= RAM_SIZE || (SCRATCH <= start && start + 4 * n <= MEMORY_END)
  }

  // The mode that takes back what this one has put away.
  function Undo(m: Mode): Mode {
    match m
    case DecrementBefore => IncrementAfter
    case IncrementAfter => DecrementBefore
    case DecrementAfter => IncrementBefore
    case IncrementBefore => DecrementAfter
  }

  // The address of the k-th register listed, lowest first, and what the base becomes.
  lemma Addresses(m: Mode, base: word, n: nat, k: nat)
    requires k < n <= 16 && InRam(Start(m, base, n), n)
    ensures Start(m, base, n) + 4 * k == (match m
                                          case IncrementAfter => base + 4 * k
                                          case IncrementBefore => base + 4 * k + 4
                                          case DecrementAfter => base as int - 4 * (n - k) + 4
                                          case DecrementBefore => base as int - 4 * (n - k)) % 0x1_0000_0000
    ensures After(m, base, n) == (if Ascending(m) then base + 4 * n else base as int - 4 * n) % 0x1_0000_0000
  {
    WrapIs(base - 4 * n);
    WrapIs(base - 4 * n + 4);
    WrapIs(base + 4 * n);
    WrapIs(base + 4);
    WrapIs(base + 4 * k);
    WrapIs(base + 4 * k + 4);
    WrapIs(base - 4 * (n - k) + 4);
    WrapIs(base - 4 * (n - k));
  }

  lemma WrapIs(x: int)
    requires -0x1_0000_0000 <= x < 0x2_0000_0000
    ensures Wrap(x) == x % 0x1_0000_0000
  {
  }

  lemma UndoMeets(m: Mode, base: word, n: nat)
    requires n <= 16
    ensures Start(Undo(m), After(m, base, n), n) == Start(m, base, n)
    ensures After(Undo(m), After(m, base, n), n) == base
  {
  }

  // ---------------------------------------------------------------- what the instructions do

  // The words from lo to hi of a block are in memory, and nothing outside of them changed.
  ghost predicate Block(before: seq<byte>, after: seq<byte>, start: nat, words: seq<word>, lo: nat, hi: nat) {
    && lo <= hi <= |words| && |after| == |before| && start + 4 * |words| <= |before|
    && (forall k :: lo <= k < hi ==> ReadLong(after, start + 4 * k) == words[k])
    && (forall a: nat :: a < |before| && (a < start + 4 * lo || a >= start + 4 * hi) ==> after[a] == before[a])
  }

  // The operand of r15 is eight bytes on.
  function Values(r: seq<word>): (v: seq<word>)
    requires |r| == 16
    ensures |v| == 16
  {
    r[15 := Wrap(r[15] as int + 8)]
  }

  // A store: exactly four bytes for each register listed, from the lowest register up.
  ghost predicate Stores(m: Mode, list: seq<bool>, base: word, r: seq<word>, before: seq<byte>, after: seq<byte>)
    requires List(list) && |r| == 16
  {
    var n := Count(list, 16);
    Block(before, after, Start(m, base, n), Listed(list, Values(r), 16), 0, n)
  }

  // A load, without the write-back.
  function Loaded(m: Mode, list: seq<bool>, base: word, r: seq<word>, ram: seq<byte>): (s: seq<word>)
    requires List(list) && |r| == 16 && InRam(Start(m, base, Count(list, 16)), Count(list, 16)) && |ram| == MEMORY_END
    ensures |s| == 16
  {
    seq(16, i requires 0 <= i < 16 =>
      CountOrder(list, i, 16);
      if list[i] then ReadLong(ram, Start(m, base, Count(list, 16)) + 4 * Count(list, i)) else r[i])
  }

  lemma SameLong(ram: seq<byte>, ram': seq<byte>, start: word, n: nat, k: nat)
    requires |ram| == |ram'| == MEMORY_END && InRam(start, n) && k < n
    requires forall a :: start <= a < start + 4 * n ==> ram'[a] == ram[a]
    ensures ReadLong(ram', start + 4 * k) == ReadLong(ram, start + 4 * k)
  {
    var a := start + 4 * k;
    assert ram'[a] == ram[a] && ram'[a + 1] == ram[a + 1] && ram'[a + 2] == ram[a + 2] && ram'[a + 3] == ram[a + 3];
  }

  // Loading by the mode that undoes the store, from the base it has left, gives back every
  // register listed and the base, whatever has become of the listed registers in between,
  // as long as nobody has written to the block.
  lemma StoreThenLoad(m: Mode, list: seq<bool>, rn: nat, r: seq<word>, before: seq<byte>, after: seq<byte>,
                      r': seq<word>, ram: seq<byte>)
    requires List(list) && |r| == |r'| == 16 && rn < 15 && !list[rn] && !list[15]
    requires |before| == |ram| == MEMORY_END && InRam(Start(m, r[rn], Count(list, 16)), Count(list, 16))
    requires Stores(m, list, r[rn], r, before, after)
    requires r'[rn] == After(m, r[rn], Count(list, 16))
    requires var start := Start(m, r[rn], Count(list, 16));
             forall a :: start <= a < start + 4 * Count(list, 16) ==> ram[a] == after[a]
    ensures var n := Count(list, 16);
            && InRam(Start(Undo(m), r'[rn], n), n)
            && After(Undo(m), r'[rn], n) == r[rn]
            && forall i :: 0 <= i < 16 ==>
                 Loaded(Undo(m), list, r'[rn], r', ram)[i] == if list[i] then r[i] else r'[i]
  {
    hide Wrap, Start, After, Undo, Values, Count, Listed, ReadLong;
    var n := Count(list, 16);
    UndoMeets(m, r[rn], n);
    var start := Start(m, r[rn], n);
    CountOrder(list, 15, 16);
    forall i | 0 <= i < 16
      ensures Loaded(Undo(m), list, r'[rn], r', ram)[i] == if list[i] then r[i] else r'[i]
    {
      if list[i] {
        ListedAt(list, Values(r), 16, i);
        ValueOf(r, i);
        CountOrder(list, i, 16);
        SameLong(after, ram, start, Count(list, 16), Count(list, i));
      }
    }
  }

  // The two instructions one after the other, both with write-back: whatever has become of the
  // other registers in between, the base comes back to what it was, and so does every register
  // listed.
  lemma PushThenPop(m: Mode, list: seq<bool>, rn: nat, r: seq<word>, before: seq<byte>, after: seq<byte>,
                    r': seq<word>, ram: seq<byte>)
    requires List(list) && |r| == |r'| == 16 && rn < 15 && !list[rn] && !list[15]
    requires |before| == |ram| == MEMORY_END && InRam(Start(m, Base(r, rn), Count(list, 16)), Count(list, 16))
    requires Stores(m, list, Base(r, rn), r, before, after)
    requires r'[rn] == WrittenBack(r, rn, true, After(m, Base(r, rn), Count(list, 16)))[rn]
    requires var start := Start(m, Base(r, rn), Count(list, 16));
             forall a :: start <= a < start + 4 * Count(list, 16) ==> ram[a] == after[a]
    ensures var n, u := Count(list, 16), Undo(m);
            && InRam(Start(u, Base(r', rn), n), n)
            && var q := WrittenBack(Loaded(u, list, Base(r', rn), r', ram), rn, true, After(u, Base(r', rn), n));
               forall i :: 0 <= i < 16 ==> q[i] == if i == rn || list[i] then r[i] else r'[i]
  {
    hide Start, After, Undo, Stores, Loaded, Count;
    WrapNone(r[rn]);
    WrapNone(r'[rn]);
    StoreThenLoad(m, list, rn, r, before, after, r', ram);
  }

  // One more word in place, at either end of those already there.
  lemma BlockGrows(before: seq<byte>, now: seq<byte>, start: nat, words: seq<word>, lo: nat, hi: nat, k: nat)
    requires Block(before, now, start, words, lo, hi) && k < |words| && (k == hi || k + 1 == lo)
    ensures Block(before, WriteLong(now, start + 4 * k, words[k]), start, words,
                  if k == hi then lo else k, if k == hi then hi + 1 else hi)
  {
    var after := WriteLong(now, start + 4 * k, words[k]);
    ReadWritten(now, start + 4 * k, words[k]);
    forall j | lo <= j < hi ensures ReadLong(after, start + 4 * j) == words[j] {
      assert ReadLong(now, start + 4 * j) == words[j];
      OtherWord(now, start + 4 * k, words[k], start + 4 * j);
    }
  }

  lemma OtherWord(ram: seq<byte>, addr: nat, value: word, a: nat)
    requires addr + 4 <= |ram| && a + 4 <= |ram| && (a + 4 <= addr || addr + 4 <= a)
    ensures ReadLong(WriteLong(ram, addr, value), a) == ReadLong(ram, a)
  {
  }

  lemma WrapNone(x: word)
    ensures Wrap(x) == x
  {
  }

  // ---------------------------------------------------------------- the loops

  class Core {
    const r: array<word>
    // By address; what lies between the two RAMs is never touched.
    const ram: array<byte>

    ghost predicate Valid()
    {
      r.Length == 16 && ram.Length == MEMORY_END && r as object != ram
    }

    constructor ()
      ensures Valid() && fresh(r) && fresh(ram)
    {
      r := new word[16](_ => 0);
      ram := new byte[MEMORY_END](_ => 0);
    }

    // arm_write_long, in sound RAM and scratch RAM.
    method Write(addr: word, value: word)
      requires Valid() && InRam(addr, 1)
      modifies ram
      ensures ram[..] == WriteLong(old(ram[..]), addr, value)
    {
      ram[addr] := value % 0x100;
      ram[addr + 1] := value / 0x100 % 0x100;
      ram[addr + 2] := value / 0x1_0000 % 0x100;
      ram[addr + 3] := value / 0x100_0000;
    }

    // arm_read_long
    method Read(addr: word) returns (value: word)
      requires Valid() && InRam(addr, 1)
      ensures value == ReadLong(ram[..], addr)
    {
      var b0: int, b1: int, b2: int, b3: int := ram[addr], ram[addr + 1], ram[addr + 2], ram[addr + 3];
      value := b0 + 0x100 * b1 + 0x1_0000 * b2 + 0x100_0000 * b3;
    }

    // One register of an ascending store: the k-th word of the block joins those below it.
    method PutUp(before: bool, operand: word, value: word,
                 ghost base: word, ghost was: seq<byte>, ghost words: seq<word>, ghost k: nat) returns (next: word)
      requires Valid() && k < |words| <= 16 && value == words[k] && InRam(Start(Up(before), base, |words|), |words|)
      requires operand == Wrap(base + 4 * k) && Block(was, ram[..], Start(Up(before), base, |words|), words, 0, k)
      modifies ram
      ensures next == Wrap(base + 4 * (k + 1)) && Block(was, ram[..], Start(Up(before), base, |words|), words, 0, k + 1)
    {
      hide Block, WriteLong;
      BlockGrows(was, ram[..], Start(Up(before), base, |words|), words, 0, k, k);
      next := operand;
      if before {
        next := Wrap(next + 4);
      }
      Write(next, value);
      if !before {
        next := Wrap(next + 4);
      }
    }

    // And of a descending one: it joins those above it.
    method PutDown(before: bool, operand: word, value: word,
                   ghost base: word, ghost was: seq<byte>, ghost words: seq<word>, ghost k: nat) returns (next: word)
      requires Valid() && k < |words| <= 16 && value == words[k] && InRam(Start(Down(before), base, |words|), |words|)
      requires operand == Wrap(base - 4 * (|words| - 1 - k))
      requires Block(was, ram[..], Start(Down(before), base, |words|), words, k + 1, |words|)
      modifies ram
      ensures next == Wrap(base - 4 * (|words| - k))
      ensures Block(was, ram[..], Start(Down(before), base, |words|), words, k, |words|)
    {
      hide Block, WriteLong;
      BlockGrows(was, ram[..], Start(Down(before), base, |words|), words, k + 1, |words|, k);
      next := operand;
      if before {
        next := Wrap(next - 4);
      }
      Write(next, value);
      if !before {
        next := Wrap(next - 4);
      }
    }

    // One register of an ascending load, the k-th of n.
    method GetUp(before: bool, operand: word, ghost base: word, ghost n: nat, ghost k: nat) returns (value: word, next: word)
      requires Valid() && k < n <= 16 && InRam(Start(Up(before), base, n), n) && operand == Wrap(base + 4 * k)
      ensures value == ReadLong(ram[..], Start(Up(before), base, n) + 4 * k) && next == Wrap(base + 4 * (k + 1))
    {
      hide ReadLong;
      next := operand;
      if before {
        next := Wrap(next + 4);
      }
      value := Read(next);
      if !before {
        next := Wrap(next + 4);
      }
    }

    // And of a descending one.
    method GetDown(before: bool, operand: word, ghost base: word, ghost n: nat, ghost k: nat) returns (value: word, next: word)
      requires Valid() && k < n <= 16 && InRam(Start(Down(before), base, n), n) && operand == Wrap(base - 4 * (n - 1 - k))
      ensures value == ReadLong(ram[..], Start(Down(before), base, n) + 4 * k) && next == Wrap(base - 4 * (n - k))
    {
      hide ReadLong;
      next := operand;
      if before {
        next := Wrap(next - 4);
      }
      value := Read(next);
      if !before {
        next := Wrap(next - 4);
      }
    }

    // STMIA and STMIB: from r0 up, with r15 last and eight bytes on.
    method StoreUp(before: bool, list: seq<bool>, base: word) returns (operand: word)
      requires Valid() && List(list) && InRam(Start(Up(before), base, Count(list, 16)), Count(list, 16))
      modifies ram
      ensures Stores(Up(before), list, base, r[..], old(ram[..]), ram[..])
      ensures operand == After(Up(before), base, Count(list, 16))
    {
      hide Block, Listed, Values, Count, Wrap, Start, InRam;
      WrapNone(base);
      operand := base;
      ghost var n, was, regs := Count(list, 16), ram[..], r[..];
      ghost var start, words := Start(Up(before), base, n), Listed(list, Values(r[..]), 16);
      NothingYet(was, start, words, list);
      CountSteps(list);
      for i := 0 to 15
        invariant r[..] == regs && Block(was, ram[..], start, words, 0, Count(list, i))
        invariant operand == Wrap(base + 4 * Count(list, i))
      {
        CountOrder(list, i + 1, 16);
        if list[i] {
          ListedAt(list, Values(regs), 16, i);
          ValueOf(regs, i);
          operand := PutUp(before, operand, r[i], base, was, words, Count(list, i));
        }
      }
      if list[15] {
        ListedAt(list, Values(regs), 16, 15);
        ValueOf(regs, 15);
        operand := PutUp(before, operand, Wrap(r[15] as int + 8), base, was, words, Count(list, 15));
      }
    }

    // STMDA and STMDB: r15 first, then from r14 down.
    method StoreDown(before: bool, list: seq<bool>, base: word) returns (operand: word)
      requires Valid() && List(list) && InRam(Start(Down(before), base, Count(list, 16)), Count(list, 16))
      modifies ram
      ensures Stores(Down(before), list, base, r[..], old(ram[..]), ram[..])
      ensures operand == After(Down(before), base, Count(list, 16))
    {
      hide Block, Listed, Values, Count, Wrap, Start, InRam;
      WrapNone(base);
      operand := base;
      ghost var n, was, regs := Count(list, 16), ram[..], r[..];
      ghost var start, words := Start(Down(before), base, n), Listed(list, Values(r[..]), 16);
      NothingYet(was, start, words, list);
      CountSteps(list);
      CountOrder(list, 15, 16);
      if list[15] {
        ListedAt(list, Values(regs), 16, 15);
        ValueOf(regs, 15);
        operand := PutDown(before, operand, Wrap(r[15] as int + 8), base, was, words, Count(list, 15));
      }
      for i := 15 downto 0
        invariant r[..] == regs && Block(was, ram[..], start, words, Count(list, i), n)
        invariant operand == Wrap(base - 4 * (n - Count(list, i))) && Count(list, i) <= n
      {
        CountOrder(list, i, 16);
        if list[i] {
          ListedAt(list, Values(regs), 16, i);
          ValueOf(regs, i);
          operand := PutDown(before, operand, r[i], base, was, words, Count(list, i));
        }
      }
    }

    // LDMIA and LDMIB
    method LoadUp(before: bool, list: seq<bool>, base: word) returns (operand: word)
      requires Valid() && List(list) && InRam(Start(Up(before), base, Count(list, 16)), Count(list, 16))
      modifies r
      ensures r[..] == Loaded(Up(before), list, base, old(r[..]), ram[..])
      ensures operand == After(Up(before), base, Count(list, 16))
    {
      hide ReadLong, Count, Wrap, Start, InRam;
      WrapNone(base);
      operand := base;
      ghost var n, was, memory := Count(list, 16), r[..], ram[..];
      ghost var loaded := Loaded(Up(before), list, base, was, memory);
      CountSteps(list);
      for i := 0 to 16
        invariant ram[..] == memory && operand == Wrap(base + 4 * Count(list, i))
        invariant forall k :: 0 <= k < i ==> r[k] == loaded[k]
        invariant forall k :: i <= k < 16 ==> r[k] == was[k]
      {
        CountOrder(list, i + 1, 16);
        if list[i] {
          r[i], operand := GetUp(before, operand, base, n, Count(list, i));
        }
      }
    }

    // LDMDA and LDMDB
    method LoadDown(before: bool, list: seq<bool>, base: word) returns (operand: word)
      requires Valid() && List(list) && InRam(Start(Down(before), base, Count(list, 16)), Count(list, 16))
      modifies r
      ensures r[..] == Loaded(Down(before), list, base, old(r[..]), ram[..])
      ensures operand == After(Down(before), base, Count(list, 16))
    {
      hide ReadLong, Count, Wrap, Start, InRam;
      WrapNone(base);
      operand := base;
      ghost var n, was, memory := Count(list, 16), r[..], ram[..];
      ghost var loaded := Loaded(Down(before), list, base, was, memory);
      CountSteps(list);
      for i := 16 downto 0
        invariant ram[..] == memory && operand == Wrap(base - 4 * (n - Count(list, i))) && Count(list, i) <= n
        invariant forall k :: 0 <= k < i ==> r[k] == was[k]
        invariant forall k :: i <= k < 16 ==> r[k] == loaded[k]
      {
        CountOrder(list, i, 16);
        CountOrder(list, i + 1, 16);
        if list[i] {
          r[i], operand := GetDown(before, operand, base, n, Count(list, i));
        }
      }
    }

    // The store-multiple instructions without the user-bank forms.
    method StoreMultiple(m: Mode, list: seq<bool>, rn: nat, writeBack: bool)
      requires Valid() && List(list) && rn < 16
      requires InRam(Start(m, Base(r[..], rn), Count(list, 16)), Count(list, 16))
      modifies r, ram
      ensures Stores(m, list, Base(old(r[..]), rn), old(r[..]), old(ram[..]), ram[..])
      ensures r[..] == WrittenBack(old(r[..]), rn, writeBack, After(m, Base(old(r[..]), rn), Count(list, 16)))
    {
      hide Block, Listed, Count, Stores;
      ghost var was := r[..];
      var operand := Wrap(r[rn] as int + if rn == 15 then 4 else 0);
      match m {
        case DecrementAfter => operand := StoreDown(false, list, operand);
        case IncrementAfter => operand := StoreUp(false, list, operand);
        case DecrementBefore => operand := StoreDown(true, list, operand);
        case IncrementBefore => operand := StoreUp(true, list, operand);
      }
      assert r[..] == was;
      if writeBack {
        r[rn] := operand;
      }
    }

    // The load-multiple instructions without the user-bank forms. The write-back comes last,
    // over whatever has been loaded into the base.
    method LoadMultiple(m: Mode, list: seq<bool>, rn: nat, writeBack: bool)
      requires Valid() && List(list) && rn < 16
      requires InRam(Start(m, Base(r[..], rn), Count(list, 16)), Count(list, 16))
      modifies r
      ensures r[..] == WrittenBack(Loaded(m, list, Base(old(r[..]), rn), old(r[..]), ram[..]), rn, writeBack,
                                   After(m, Base(old(r[..]), rn), Count(list, 16)))
    {
      hide Count, Loaded;
      var operand := Wrap(r[rn] as int + if rn == 15 then 4 else 0);
      match m {
        case DecrementAfter => operand := LoadDown(false, list, operand);
        case IncrementAfter => operand := LoadUp(false, list, operand);
        case DecrementBefore => operand := LoadDown(true, list, operand);
        case IncrementBefore => operand := LoadUp(true, list, operand);
      }
      if writeBack {
        r[rn] := operand;
      }
    }
  }

  // The base address: r15 as a base reads four bytes on.
  function Base(r: seq<word>, rn: nat): word
    requires |r| == 16 && rn < 16
  {
    Wrap(r[rn] as int + if rn == 15 then 4 else 0)
  }

  // r15 as a base is read four bytes on, any other register as it is.
  lemma BaseIs(r: seq<word>, rn: nat)
    requires |r| == 16 && rn < 16
    ensures rn < 15 ==> Base(r, rn) == r[rn]
    ensures rn == 15 ==> Base(r, rn) == (r[15] as int + 4) % 0x1_0000_0000
  {
  }

  function WrittenBack(r: seq<word>, rn: nat, writeBack: bool, operand: word): seq<word>
    requires |r| == 16 && rn < 16
  {
    if writeBack then r[rn := operand] else r
  }

  function Up(before: bool): Mode {
    if before then IncrementBefore else IncrementAfter
  }

  function Down(before: bool): Mode {
    if before then DecrementBefore else DecrementAfter
  }

  lemma NothingYet(ram: seq<byte>, start: word, words: seq<word>, list: seq<bool>)
    requires List(list) && |words| == Count(list, 16) && InRam(start, |words|) && |ram| == MEMORY_END
    ensures Block(ram, ram, start, words, 0, 0) && Block(ram, ram, start, words, |words|, |words|)
  {
  }

  lemma CountSteps(list: seq<bool>)
    ensures Count(list, 0) == 0
    ensures forall i :: 0 <= i < |list| ==> Count(list, i + 1) == Count(list, i) + if list[i] then 1 else 0
  {
  }

  lemma ValueOf(r: seq<word>, i: nat)
    requires |r| == 16 && i < 16
    ensures Values(r)[i] == if i == 15 then Wrap(r[15] as int + 8) else r[i]
  {
  }
}
