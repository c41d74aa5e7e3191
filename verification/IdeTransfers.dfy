// What whole runs of register accesses keep, and what whole transfers deliver: the interrupt
// of the drive as the multiplexer sees it, DMA reads in pieces, and DMA against PIO.
module IdeTransfers {
  import opened Asic
  import opened IdeDevice

  // ---------------------------------------------------------------- runs

  datatype Access =
    | StatusRead
    | DataRead
    | DataWrite(lo: byte, hi: byte)
    | ControlWrite(control: bv8)
    | CommandWrite(command: byte)
    | FeatureWrite(feature: bv8)
    | DmaRead(length: nat)
    | Elsewhere(op: Operation)

  // Whatever else happens to the multiplexer: other events, and the guest's own writes.
  predicate Foreign(op: Operation) {
    Proper(op) && op != Raise(EVENT_IDE) && op != Clear(EVENT_IDE)
  }

  predicate Allowed(access: Access) {
    access.Elsewhere? ==> Foreign(access.op)
  }

  // One access. The register writes that come too early, while the drive is busy, are
  // ignored.
  function Perform(d: Device, access: Access, drive: Drive): (r: Device)
    requires Good(d) && Sane(drive) && Allowed(access)
    ensures Good(r)
  {
    match access
    case StatusRead => ReadStatus(d)
    case DataRead => ReadData(d, drive).0
    case DataWrite(lo, hi) => WriteData(d, lo, hi, drive)
    case ControlWrite(control) => WriteControl(d, control)
    case CommandWrite(command) => if d.regs.CanWrite() || command == CMD_NOP then WriteCommand(d, command) else d
    case FeatureWrite(feature) => if d.regs.CanWrite() then d.(regs := d.regs.(feature := feature)) else d
    case DmaRead(length) => ReadDma(d, drive, length).0
    case Elsewhere(op) =>
      ForeignKeepsMirror(d.pending, op);
      d.(pending := After(d.pending, op))
  }

  lemma ForeignKeepsMirror(pending: Words, op: Operation)
    requires Foreign(op) && Cascaded(pending)
    ensures Pending(After(pending, op), EVENT_IDE) <==> Pending(pending, EVENT_IDE)
    ensures Cascaded(After(pending, op))
  {
    match op {
      case Raise(event) =>
        RaisedEvents(pending, event, EVENT_IDE);
        RaisedKeepsCascades(pending, event);
      case Clear(event) =>
        ClearedEvents(pending, event, EVENT_IDE);
        ClearedKeepsCascades(pending, event);
      case Guest(register, value) =>
        Acknowledged0Keeps(pending, value);
        Acknowledged2Keeps(pending, value);
    }
  }

  function Run(d: Device, accesses: seq<Access>, drive: Drive): (r: Device)
    requires Good(d) && Sane(drive) && forall i :: 0 <= i < |accesses| ==> Allowed(accesses[i])
    ensures Good(r)
    decreases |accesses|
  {
    if accesses == [] then d else Run(Perform(d, accesses[0], drive), accesses[1..], drive)
  }

  // Over any sequence of register accesses and foreign events, the event of the drive is
  // pending exactly when its interrupt request is up and let through, and a transfer never
  // leaves the buffer.
  lemma {:induction false} InterruptMirrored(d: Device, accesses: seq<Access>, drive: Drive)
    requires Good(d) && Sane(drive) && forall i :: 0 <= i < |accesses| ==> Allowed(accesses[i])
    ensures var r := Run(d, accesses, drive);
            (Pending(r.pending, EVENT_IDE) <==> r.regs.intrq && r.regs.IrqEnabled()) && Bounded(r)
    decreases |accesses|
  {
    if accesses != [] {
      InterruptMirrored(Perform(d, accesses[0], drive), accesses[1..], drive);
    }
  }

  // ---------------------------------------------------------------- DMA in pieces

  // What has been read, followed by a read of b bytes more.
  function Then(read: (Device, seq<byte>), drive: Drive, b: nat): (Device, seq<byte>)
    requires Good(read.0) && Sane(drive)
  {
    var (d, rest) := ReadDma(read.0, drive, b);
    (d, read.1 + rest)
  }

  // Reading a bytes and then b is reading a + b: the same bytes, and the same device with
  // the same interrupt state afterwards.
  lemma {:induction false} DmaAdds(d: Device, drive: Drive, a: nat, b: nat)
    requires Good(d) && Sane(drive)
    ensures ReadDma(d, drive, a + b) == Then(ReadDma(d, drive, a), drive, b)
    decreases d.regs.left, a, d.regs.state == State.DmaRead
  {
    hide Good, Sane, ReadDma, Then, DmaDone;
    if a == 0 || d.regs.state != State.DmaRead {
      NothingRead(d, drive, a, b);
    } else {
      Range(d);
      var remaining := d.regs.length - d.regs.offset;
      if a < remaining {
        WithinSector(d, drive, a, b);
      } else if d.regs.left == 0 {
        LastSector(d, drive, a, b);
      } else {
        var next := ReadNextSector(Advance(d, remaining), drive);
        DmaAdds(next, drive, a - remaining, b);
        PastSector(d, drive, a, b, next);
      }
    }
  }

  lemma Range(d: Device)
    requires Good(d) && d.regs.state == State.DmaRead
    ensures 0 <= d.regs.offset <= d.regs.length <= |d.buffer|
  {
  }

  lemma NothingRead(d: Device, drive: Drive, a: nat, b: nat)
    requires Good(d) && Sane(drive) && (a == 0 || d.regs.state != State.DmaRead)
    ensures ReadDma(d, drive, a + b) == Then(ReadDma(d, drive, a), drive, b)
  {
    hide Good, Sane, ReadNextSector, Advance, DmaDone;
    Joined([], [], ReadDma(d, drive, b).1);
  }

  lemma Joined(x: seq<byte>, y: seq<byte>, z: seq<byte>)
    ensures [] + z == z && x + [] == x && x + (y + z) == x + y + z
  {
  }

  lemma LastSector(d: Device, drive: Drive, a: nat, b: nat)
    requires Good(d) && Sane(drive) && d.regs.state == State.DmaRead && d.regs.left == 0
    requires d.regs.length - d.regs.offset <= a && a > 0
    ensures ReadDma(d, drive, a + b) == Then(ReadDma(d, drive, a), drive, b)
  {
    hide Good, Sane, ReadNextSector, Advance;
    var (d1, x) := ReadDma(d, drive, a);
    assert d1.regs.state == Idle;
    Joined(x, [], []);
  }

  lemma PastSector(d: Device, drive: Drive, a: nat, b: nat, next: Device)
    requires Good(d) && Sane(drive) && d.regs.state == State.DmaRead && d.regs.left > 0
    requires d.regs.length - d.regs.offset <= a && a > 0
    requires next == ReadNextSector(Advance(d, d.regs.length - d.regs.offset), drive)
    requires var c := a - (d.regs.length - d.regs.offset);
             ReadDma(next, drive, c + b) == Then(ReadDma(next, drive, c), drive, b)
    ensures ReadDma(d, drive, a + b) == Then(ReadDma(d, drive, a), drive, b)
  {
    hide Good, Sane, ReadNextSector, ReadDma, Advance, DmaDone;
    Range(d);
    DmaRound(d, drive, a);
    DmaRound(d, drive, a + b);
    var n := d.regs.length - d.regs.offset;
    var (d1, x) := ReadDma(next, drive, a - n);
    assert a + b - n == a - n + b;
    Joined(d.buffer[d.regs.offset..d.regs.length], x, ReadDma(d1, drive, b).1);
  }

  // One round of the transfer loop.
  lemma DmaRound(d: Device, drive: Drive, n: nat)
    requires Good(d) && Sane(drive) && d.regs.state == State.DmaRead && n > 0
    ensures var m := d.regs.length - d.regs.offset;
            && 0 <= m
            && (n < m ==> ReadDma(d, drive, n) == (Advance(d, n), d.buffer[d.regs.offset..d.regs.offset + n]))
            && (n >= m && d.regs.left == 0 ==>
                  ReadDma(d, drive, n) == (DmaDone(Advance(d, m)), d.buffer[d.regs.offset..d.regs.length]))
            && (n >= m && d.regs.left > 0 ==>
                  ReadDma(d, drive, n)
                  == Prefixed(d.buffer[d.regs.offset..d.regs.length],
                              ReadDma(ReadNextSector(Advance(d, m), drive), drive, n - m)))
  {
    hide Sane, Mirrored, Cascaded, ReadNextSector, DmaDone;
  }

  lemma NoMore(d: Device, drive: Drive)
    requires Good(d) && Sane(drive)
    ensures ReadDma(d, drive, 0) == (d, [])
  {
  }

  function Prefixed(data: seq<byte>, read: (Device, seq<byte>)): (Device, seq<byte>) {
    (read.0, data + read.1)
  }

  lemma AdvanceAdds(d: Device, a: nat, b: nat)
    requires Good(d) && d.regs.state == State.DmaRead && d.regs.offset + a + b <= d.regs.length
    ensures var d1 := Advance(d, a);
            && d1.regs.state == State.DmaRead && d1.buffer == d.buffer && d1.regs.left == d.regs.left
            && d1.regs.offset == d.regs.offset + a && d1.regs.length == d.regs.length
            && Advance(d1, b) == Advance(d, a + b)
    ensures var o := d.regs.offset;
            d.buffer[o..o + a] + d.buffer[o + a..o + a + b] == d.buffer[o..o + a + b]
  {
  }

  lemma WithinSector(d: Device, drive: Drive, a: nat, b: nat)
    requires Good(d) && Sane(drive) && d.regs.state == State.DmaRead
    requires 0 < a < d.regs.length - d.regs.offset
    ensures ReadDma(d, drive, a + b) == Then(ReadDma(d, drive, a), drive, b)
  {
    hide Good, Sane, ReadNextSector, ReadDma, Advance, DmaDone;
    Range(d);
    var o, n := d.regs.offset, d.regs.length - d.regs.offset;
    var d1, x := Advance(d, a), d.buffer[d.regs.offset..d.regs.offset + a];
    DmaRound(d, drive, a);
    AdvanceAdds(d, a, 0);
    if b == 0 {
      NoMore(d1, drive);
      Joined(x, [], []);
    } else {
      DmaRound(d, drive, a + b);
      DmaRound(d1, drive, b);
      AdvanceAdds(d, a, if a + b < n then b else n - a);
      if a + b >= n && d.regs.left > 0 {
        Joined(x, d.buffer[o + a..d.regs.length],
               ReadDma(ReadNextSector(Advance(d, n), drive), drive, a + b - n).1);
      }
    }
  }

  // ---------------------------------------------------------------- what a command delivers

  // The sectors still to come, up to the first that cannot be read.
  function Coming(drive: Drive, lba: u32, mode: u32, left: u32): seq<seq<byte>>
    decreases left
  {
    if left == 0 then []
    else
      match drive.sector(lba, mode)
      case Failure(_) => []
      case Sector(data) => [data] + Coming(drive, Next(lba), mode, left - 1)
  }

  function Flat(sectors: seq<seq<byte>>): seq<byte>
    decreases |sectors|
  {
    if sectors == [] then [] else sectors[0] + Flat(sectors[1..])
  }

  function ComingFor(d: Device, drive: Drive): seq<seq<byte>> {
    Coming(drive, d.regs.lba, d.regs.readMode, d.regs.left)
  }

  function Take(s: seq<byte>, n: nat): seq<byte> {
    if n <= |s| then s[..n] else s
  }

  lemma TakeJoin(s: seq<byte>, t: seq<byte>, n: nat)
    ensures Take(s + t, n) == if n < |s| then s[..n] else s + Take(t, n - |s|)
  {
  }

  lemma TakeAll(s: seq<byte>, n: nat)
    ensures n >= |s| ==> Take(s, n) == s && s + [] == s
    ensures Take(s, 0) == []
  {
  }

  lemma NothingComes(d: Device, drive: Drive)
    requires d.regs.left == 0
    ensures ComingFor(d, drive) == []
  {
  }

  // What the next sector brings, when the device goes on the way it was going.
  lemma NextSectorBrings(d: Device, drive: Drive)
    requires Good(d) && Sane(drive) && d.regs.left > 0
    ensures var r := ReadNextSector(d, drive);
            match drive.sector(d.regs.lba, d.regs.readMode)
            case Failure(_) => ComingFor(d, drive) == [] && r.regs.state == Idle
            case Sector(data) =>
              && ComingFor(d, drive) == [data] + ComingFor(r, drive)
              && r.regs.state == (if d.regs.UsesDma() then State.DmaRead else State.PioRead)
              && r.regs.feature == d.regs.feature
              && r.regs.offset == 0 && r.regs.length == |data| <= |r.buffer| && r.buffer[..|data|] == data
  {
  }

  // A DMA read brings the rest of this sector and then those to come, as far as asked.
  lemma {:induction false} DmaDelivers(d: Device, drive: Drive, n: nat)
    requires Good(d) && Sane(drive) && d.regs.state == State.DmaRead && d.regs.UsesDma()
    requires 0 <= d.regs.offset <= d.regs.length <= |d.buffer|
    ensures ReadDma(d, drive, n).1
            == Take(d.buffer[d.regs.offset..d.regs.length] + Flat(ComingFor(d, drive)), n)
    decreases d.regs.left, n
  {
    hide Good, Sane, ReadDma, DmaDone, Flat, Take, ReadNextSector, Coming;
    var m := d.regs.length - d.regs.offset;
    var data := d.buffer[d.regs.offset..d.regs.length];
    TakeJoin(data, Flat(ComingFor(d, drive)), n);
    if n == 0 {
      NoMore(d, drive);
      TakeAll(data + Flat(ComingFor(d, drive)), 0);
    } else {
      DmaRound(d, drive, n);
      var d1 := Advance(d, m);
      FlatOf([], []);
      TakeAll(data, n);
      if n >= m && d.regs.left == 0 {
        NothingComes(d, drive);
        TakeAll([], n - m);
      }
      if n >= m && d.regs.left > 0 {
        var next := ReadNextSector(d1, drive);
        NextSectorBrings(d1, drive);
        if next.regs.state == State.DmaRead {
          var sector := next.buffer[..next.regs.length];
          FlatOf(sector, ComingFor(next, drive));
          DmaDelivers(next, drive, n - m);
          assert next.buffer[next.regs.offset..next.regs.length] == sector;
          assert Flat(ComingFor(d, drive)) == sector + Flat(ComingFor(next, drive));
        } else {
          IdleReads(next, drive, n - m);
          assert Flat(ComingFor(d, drive)) == [];
          TakeAll([], n - m);
        }
      }
    }
  }

  lemma IdleReads(d: Device, drive: Drive, n: nat)
    requires Good(d) && Sane(drive) && d.regs.state != State.DmaRead
    ensures ReadDma(d, drive, n) == (d, [])
  {
  }

  lemma FlatOf(data: seq<byte>, rest: seq<seq<byte>>)
    ensures Flat([]) == [] && Flat([data] + rest) == data + Flat(rest)
  {
  }

  // ---------------------------------------------------------------- the same by PIO

  function Bytes(word: u16): seq<byte> {
    [word % 0x100, word / 0x100]
  }

  // Reading the data register until the drive has nothing more to give.
  function Drain(d: Device, drive: Drive): (r: (Device, seq<byte>))
    requires Good(d) && Sane(drive)
    ensures Good(r.0) && r.0.regs.state != State.PioRead
    decreases d.regs.left, if d.regs.state == State.PioRead then 1 + d.regs.length - d.regs.offset else 0
  {
    if d.regs.state != State.PioRead then (d, [])
    else
      var (d1, word) := ReadData(d, drive);
      var (d2, rest) := Drain(d1, drive);
      (d2, Bytes(word) + rest)
  }

  lemma IdleDrains(d: Device, drive: Drive)
    requires Good(d) && Sane(drive)
    ensures d.regs.state != State.PioRead ==> Drain(d, drive) == (d, [])
  {
  }

  lemma DrainRound(d: Device, drive: Drive)
    requires Good(d) && Sane(drive) && d.regs.state == State.PioRead
    ensures var (d1, word) := ReadData(d, drive);
            Drain(d, drive) == (Drain(d1, drive).0, Bytes(word) + Drain(d1, drive).1)
  {
    hide Good, Sane, ReadData, Bytes;
  }

  // One word of a sector; after the last one, whatever the next sector brings.
  lemma PioRound(d: Device, drive: Drive)
    requires Good(d) && Sane(drive) && d.regs.state == State.PioRead && !d.regs.UsesDma()
    ensures var (d1, word) := ReadData(d, drive);
            var o := d.regs.offset;
            && 0 <= o && o + 1 < |d.buffer| && (o < d.regs.length || o == d.regs.length == 0)
            && d.regs.length <= |d.buffer| && o % 2 == 0
            && Good(d1) && Bytes(word) == [d.buffer[o], d.buffer[o + 1]]
            && (o + 2 < d.regs.length ==> d1 == d.(regs := d.regs.(offset := o + 2)))
            && (o + 2 >= d.regs.length && d.regs.left == 0 ==> d1.regs.state == Idle)
            && (o + 2 >= d.regs.length && d.regs.left > 0 ==>
                  match drive.sector(d.regs.lba, d.regs.readMode)
                  case Failure(_) => d1.regs.state == Idle && ComingFor(d, drive) == []
                  case Sector(data) =>
                    && ComingFor(d, drive) == [data] + ComingFor(d1, drive)
                    && d1.regs.left < d.regs.left
                    && d1.regs.state == State.PioRead && !d1.regs.UsesDma()
                    && d1.regs.offset == 0 && d1.regs.length == |data| <= |d1.buffer| && d1.buffer[..|data|] == data)
  {
    hide Sane, Mirrored, Cascaded, Raised, ReadNextSector, Coming;
    if d.regs.offset + 2 >= d.regs.length && d.regs.left > 0 {
      NextSectorBrings(PioDone(d), drive);
    }
  }

  // The bytes a sector of this size takes up when it is read by words.
  function Padded(size: int): nat
    requires size >= 0
  {
    if size == 0 then 2 else size + size % 2
  }

  lemma PaddedSteps(size: int)
    requires size >= 0
    ensures Padded(size) == if size > 2 then 2 + Padded(size - 2) else 2
  {
  }

  function PaddedSize(sectors: seq<seq<byte>>): nat
    decreases |sectors|
  {
    if sectors == [] then 0 else Padded(|sectors[0]|) + PaddedSize(sectors[1..])
  }

  predicate EvenSectors(sectors: seq<seq<byte>>)
    decreases |sectors|
  {
    sectors == [] || (|sectors[0]| > 0 && |sectors[0]| % 2 == 0 && EvenSectors(sectors[1..]))
  }

  lemma {:induction false} PaddedOnlyWhenUneven(sectors: seq<seq<byte>>)
    ensures |Flat(sectors)| <= PaddedSize(sectors)
    ensures |Flat(sectors)| == PaddedSize(sectors) <==> EvenSectors(sectors)
    decreases |sectors|
  {
    if sectors != [] {
      PaddedOnlyWhenUneven(sectors[1..]);
    }
  }

  lemma SizesOf(data: seq<byte>, rest: seq<seq<byte>>)
    ensures PaddedSize([]) == 0 && PaddedSize([data] + rest) == Padded(|data|) + PaddedSize(rest)
    ensures EvenSectors([]) && (EvenSectors([data] + rest) <==> |data| > 0 && |data| % 2 == 0 && EvenSectors(rest))
  {
  }

  lemma {:induction false} DrainCounts(d: Device, drive: Drive)
    requires Good(d) && Sane(drive) && d.regs.state == State.PioRead && !d.regs.UsesDma()
    requires d.regs.offset <= d.regs.length
    ensures |Drain(d, drive).1| == Padded(d.regs.length - d.regs.offset) + PaddedSize(ComingFor(d, drive))
    decreases d.regs.left, 1 + d.regs.length - d.regs.offset
  {
    hide Good, Sane, ReadData, Drain, PaddedSize, Flat, Padded, Coming;
    DrainRound(d, drive);
    PaddedSteps(d.regs.length - d.regs.offset);
    PioRound(d, drive);
    if d.regs.left == 0 {
      NothingComes(d, drive);
    }
    var d1 := ReadData(d, drive).0;
    SizesOf([], []);
    IdleDrains(d1, drive);
    if d1.regs.state == State.PioRead {
      DrainCounts(d1, drive);
      SizesOf(d1.buffer[..d1.regs.length], ComingFor(d1, drive));
    }
  }

  // The last word of a sector of an even size, and what comes after it.
  lemma SectorEnds(d: Device, drive: Drive)
    requires Good(d) && Sane(drive) && d.regs.state == State.PioRead && !d.regs.UsesDma()
    requires d.regs.offset + 2 >= d.regs.length && EvenSectors(ComingFor(d, drive))
    ensures var d1 := ReadData(d, drive).0;
            if d1.regs.state == State.PioRead then
              && 0 == d1.regs.offset < d1.regs.length <= |d1.buffer| && d1.regs.length % 2 == 0
              && d1.regs.left < d.regs.left && !d1.regs.UsesDma() && EvenSectors(ComingFor(d1, drive))
              && Flat(ComingFor(d, drive)) == d1.buffer[d1.regs.offset..d1.regs.length] + Flat(ComingFor(d1, drive))
            else Flat(ComingFor(d, drive)) == []
  {
    hide Good, Sane, ReadData, EvenSectors, Flat, Coming;
    PioRound(d, drive);
    FlatOf([], []);
    if d.regs.left == 0 {
      NothingComes(d, drive);
    }
    var d1 := ReadData(d, drive).0;
    if d1.regs.state == State.PioRead {
      SizesOf(d1.buffer[..d1.regs.length], ComingFor(d1, drive));
      FlatOf(d1.buffer[..d1.regs.length], ComingFor(d1, drive));
    }
  }

  lemma WordsJoin(buffer: seq<byte>, o: nat, n: nat, coming: seq<byte>)
    requires o + 2 <= n <= |buffer|
    ensures [buffer[o], buffer[o + 1]] + (buffer[o + 2..n] + coming) == buffer[o..n] + coming
  {
  }

  lemma {:induction false} DrainDelivers(d: Device, drive: Drive)
    requires Good(d) && Sane(drive) && d.regs.state == State.PioRead && !d.regs.UsesDma()
    requires 0 <= d.regs.offset < d.regs.length <= |d.buffer| && (d.regs.length - d.regs.offset) % 2 == 0
    requires EvenSectors(ComingFor(d, drive))
    ensures Drain(d, drive).1 == d.buffer[d.regs.offset..d.regs.length] + Flat(ComingFor(d, drive))
    decreases d.regs.left, 1 + d.regs.length - d.regs.offset
  {
    hide Good, Sane, ReadData, Drain, Bytes, EvenSectors, Flat, Coming;
    PioRound(d, drive);
    DrainRound(d, drive);
    WordsJoin(d.buffer, d.regs.offset, d.regs.length, Flat(ComingFor(d, drive)));
    var d1 := ReadData(d, drive).0;
    if d.regs.offset + 2 >= d.regs.length {
      SectorEnds(d, drive);
      IdleDrains(d1, drive);
    }
    if d1.regs.state == State.PioRead {
      DrainDelivers(d1, drive);
    }
  }

  // The same device with another command remembered.
  function Remembered(d: Device, command: byte): (r: Device)
    requires Good(d)
    ensures Good(r)
  {
    d.(regs := d.regs.(lastCommand := command))
  }

  lemma CommandedDma(d: Device, drive: Drive, command: byte, n: nat)
    requires Good(d) && Sane(drive) && d.regs.left > 0 && d.regs.UsesDma() && n >= |Flat(ComingFor(d, drive))|
    ensures ReadDma(Remembered(ReadNextSector(d, drive), command), drive, n).1 == Flat(ComingFor(d, drive))
  {
    NextSectorBrings(d, drive);
    var r := Remembered(ReadNextSector(d, drive), command);
    FlatOf([], []);
    if r.regs.state == State.DmaRead {
      Range(r);
      FlatOf(r.buffer[..r.regs.length], ComingFor(r, drive));
      DmaDelivers(r, drive, n);
    } else {
      IdleReads(r, drive, n);
    }
  }

  lemma CommandedPio(d: Device, drive: Drive, command: byte)
    requires Good(d) && Sane(drive) && d.regs.left > 0 && !d.regs.UsesDma()
    ensures var r, sectors := Remembered(ReadNextSector(d, drive), command), ComingFor(d, drive);
            && |Drain(r, drive).1| == PaddedSize(sectors)
            && (EvenSectors(sectors) ==> Drain(r, drive).1 == Flat(sectors))
  {
    hide Good, Sane, ReadNextSector, ReadData, Drain, EvenSectors, Flat, PaddedSize, Coming;
    NextSectorBrings(d, drive);
    var r, sectors := Remembered(ReadNextSector(d, drive), command), ComingFor(d, drive);
    IdleDrains(r, drive);
    SizesOf([], []);
    FlatOf([], []);
    if r.regs.state == State.PioRead {
      PioRound(r, drive);
      var data := r.buffer[..r.regs.length];
      SizesOf(data, ComingFor(r, drive));
      FlatOf(data, ComingFor(r, drive));
      DrainCounts(r, drive);
      if EvenSectors(sectors) {
        DrainDelivers(r, drive);
        assert r.buffer[0..r.regs.length] == data;
      }
    }
  }
}
