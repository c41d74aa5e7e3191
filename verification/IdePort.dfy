// The IDE port as it is kept: one set of registers, one data buffer in place, and the
// interrupt multiplexer it shares with the rest of the machine.
module IdePort {
  import opened Asic
  import opened IdeDevice
  import opened IdeTransfers

  // Memory with these bytes copied to the address.
  function Store(memory: seq<byte>, addr: nat, data: seq<byte>): seq<byte>
    requires addr + |data| <= |memory|
  {
    memory[..addr] + data + memory[addr + |data|..]
  }

  lemma StoreAdds(memory: seq<byte>, addr: nat, x: seq<byte>, y: seq<byte>)
    requires addr + |x| + |y| <= |memory|
    ensures Store(Store(memory, addr, x), addr + |x|, y) == Store(memory, addr, x + y)
  {
  }

  lemma StoreNothing(memory: seq<byte>, addr: nat)
    requires addr <= |memory|
    ensures Store(memory, addr, []) == memory
  {
  }

  // A sector more leaves one less to read, or ends the transfer.
  lemma NextSectorLeft(d: Device, drive: Drive)
    requires Good(d) && Sane(drive) && d.regs.left > 0
    ensures var r := ReadNextSector(d, drive);
            r.regs.left < d.regs.left || (r.regs.left == d.regs.left && r.regs.state == Idle)
  {
  }

  lemma NothingMore(d: Device, drive: Drive, n: nat)
    requires Good(d) && Sane(drive) && (n == 0 || d.regs.state != State.DmaRead)
    ensures ReadDma(d, drive, n) == (d, [])
  {
  }

  class Port {
    var regs: Registers
    const buffer: array<byte>
    const asic: Multiplexer
    const drive: Drive

    ghost function Value(): Device
      reads this, buffer, asic
    {
      Device(regs, buffer[..], asic.pending)
    }

    ghost predicate Valid()
      reads this, buffer, asic
    {
      buffer.Length == MAX_SECTOR_SIZE && Sane(drive) && asic.LinesRight() && Good(Value())
    }

    // ide_init, on a multiplexer where the event of the drive is not pending.
    constructor (asic: Multiplexer, drive: Drive)
      requires asic.Valid() && !Pending(asic.pending, EVENT_IDE) && Sane(drive)
      ensures Valid() && this.asic == asic && this.drive == drive && fresh(buffer) && regs == PowerOn
    {
      regs := PowerOn;
      buffer := new byte[MAX_SECTOR_SIZE](_ => 0);
      this.asic := asic;
      this.drive := drive;
    }

    // A drive interrupt that is up, let through and selected reaches the CPU.
    lemma InterruptReachesCpu()
      requires Valid() && regs.intrq && regs.IrqEnabled()
      ensures asic.maskA.w1 & 1 != 0 ==> asic.irq13
      ensures asic.maskB.w1 & 1 != 0 ==> asic.irq11
      ensures asic.maskC.w1 & 1 != 0 ==> asic.irq9
    {
    }

    // ide_raise_interrupt
    method RaiseInterrupt()
      requires Valid()
      modifies `regs, asic`pending, asic`irq13, asic`irq11, asic`irq9
      ensures Valid() && Value() == IdeDevice.RaiseInterrupt(old(Value()))
      ensures regs == old(regs).(intrq := true) && buffer[..] == old(buffer[..])
      ensures Pending(asic.pending, EVENT_IDE) <==> regs.IrqEnabled()
    {
      hide Good, Sane, Raised;
      ghost var after := IdeDevice.RaiseInterrupt(Value());
      if !regs.intrq {
        regs := regs.(intrq := true);
        if regs.IrqEnabled() {
          asic.RaiseEvent(EVENT_IDE);
        }
      }
    }

    // ide_clear_interrupt
    method ClearInterrupt()
      requires Valid()
      modifies `regs, asic`pending, asic`irq13, asic`irq11, asic`irq9
      ensures Valid() && Value() == IdeDevice.ClearInterrupt(old(Value()))
      ensures regs == old(regs).(intrq := false) && buffer[..] == old(buffer[..])
      ensures !Pending(asic.pending, EVENT_IDE)
    {
      hide Good, Sane, Cleared;
      ghost var after := IdeDevice.ClearInterrupt(Value());
      if regs.intrq {
        regs := regs.(intrq := false);
        if regs.IrqEnabled() {
          asic.ClearEvent(EVENT_IDE);
        }
      }
    }

    // ide_write_control
    method WriteControl(value: bv8)
      requires Valid()
      modifies `regs, asic`pending, asic`irq13, asic`irq11, asic`irq9
      ensures Valid() && Value() == IdeDevice.WriteControl(old(Value()), value)
    {
      hide Good, Sane, Cleared, Raised;
      ghost var after := IdeDevice.WriteControl(Value(), value);
      if regs.IrqEnabled() {
        if value & 0x02 != 0 && regs.intrq {
          asic.ClearEvent(EVENT_IDE);
        }
      } else {
        if value & 0x02 == 0 && regs.intrq {
          asic.RaiseEvent(EVENT_IDE);
        }
      }
      regs := regs.(control := value);
    }

    // ide_read_status
    method ReadStatus() returns (status: bv8)
      requires Valid()
      modifies `regs, asic`pending, asic`irq13, asic`irq11, asic`irq9
      ensures Valid() && Value() == IdeDevice.ReadStatus(old(Value())) && status == old(regs).status
      ensures regs.intrq <==> old(regs).intrq && status & STATUS_BSY != 0
    {
      hide Good, Sane;
      ghost var after := IdeDevice.ReadStatus(Value());
      if regs.status & STATUS_BSY == 0 {
        ClearInterrupt();
      }
      status := regs.status;
    }

    // The first half of ide_set_packet_result.
    method SetSense(code: u16)
      requires Valid()
      modifies `regs
      ensures Valid() && Value() == Sensed(old(Value()), code)
    {
      hide Mirrored, Cascaded, Sane;
      ghost var was, after := Value(), Sensed(Value(), code);
      regs := regs.(sense := regs.sense[0 := 0xF0][2 := code % 0x100][8 := code / 0x100]);
      regs := regs.(error := code % 0x10 * 0x10, count := 3);
    }

    // ide_set_packet_result
    method SetPacketResult(code: u16)
      requires Valid()
      modifies `regs, asic`pending, asic`irq13, asic`irq11, asic`irq9
      ensures Valid() && Value() == IdeDevice.SetPacketResult(old(Value()), code)
    {
      hide Mirrored, Cascaded, Sane, IdeDevice.RaiseInterrupt, Sensed;
      ghost var after := IdeDevice.SetPacketResult(Value(), code);
      SetSense(code);
      ghost var was := Value();
      if code != ERR_OK {
        regs := regs.(status := 0x51, state := Idle);
        StillGood(was, Value());
        RaiseInterrupt();
      } else {
        regs := regs.(status := Off(regs.status, STATUS_BSY | STATUS_CHK));
      }
    }

    // ide_start_command_packet_write
    method StartCommand()
      requires Valid()
      modifies `regs
      ensures Valid() && Value() == IdeDevice.StartCommand(old(Value()))
    {
      hide Mirrored, Cascaded, Sane;
      ghost var after := IdeDevice.StartCommand(Value());
      regs := regs.(state := CmdWrite, status := 0x58, error := (regs.feature & 0x03) as int);
      regs := regs.(count := COUNT_CD, offset := 0, length := 12);
    }

    // ide_start_read
    method StartRead(length: nat, dma: bool)
      requires Valid() && length <= MAX_SECTOR_SIZE
      modifies `regs, asic`pending, asic`irq13, asic`irq11, asic`irq9
      ensures Valid() && Value() == IdeDevice.StartRead(old(Value()), length, dma)
    {
      hide Mirrored, Cascaded, Sane, IdeDevice.RaiseInterrupt;
      ghost var was, after := Value(), IdeDevice.StartRead(Value(), length, dma);
      regs := regs.(count := COUNT_IO, length := length, offset := 0);
      if dma {
        regs := regs.(state := State.DmaRead, status := 0xD0);
      } else {
        regs := regs.(state := PioRead, status := 0x58, lba1 := length % 0x100, lba2 := length / 0x100);
        StillGood(was, Value());
        RaiseInterrupt();
      }
    }

    // ide_start_write
    method StartWrite(length: nat, dma: bool)
      requires Valid() && length <= MAX_SECTOR_SIZE
      modifies `regs, asic`pending, asic`irq13, asic`irq11, asic`irq9
      ensures Valid() && Value() == IdeDevice.StartWrite(old(Value()), length, dma)
    {
      hide Mirrored, Cascaded, Sane, IdeDevice.RaiseInterrupt;
      ghost var was, after := Value(), IdeDevice.StartWrite(Value(), length, dma);
      regs := regs.(count := 0, length := length, offset := 0);
      if dma {
        regs := regs.(state := DmaWrite, status := 0xD0);
      } else {
        regs := regs.(state := PioWrite, status := 0x58, lba1 := length % 0x100, lba2 := length / 0x100);
        StillGood(was, Value());
        RaiseInterrupt();
      }
    }

    // What the code copies to the start of the data buffer.
    method FillBuffer(data: seq<byte>)
      requires Valid() && |data| <= MAX_SECTOR_SIZE
      modifies buffer
      ensures Valid() && Value() == old(Value()).(buffer := Fill(old(buffer[..]), data))
    {
      hide Mirrored, Cascaded, Sane;
      ghost var was := Value();
      forall i | 0 <= i < |data| {
        buffer[i] := data[i];
      }
      assert buffer[..] == Fill(was.buffer, data);
      StillGood(was, Value());
    }

    // ide_read_next_sector
    method ReadNextSector()
      requires Valid()
      modifies `regs, buffer, asic`pending, asic`irq13, asic`irq11, asic`irq9
      ensures Valid() && Value() == IdeDevice.ReadNextSector(old(Value()), drive)
    {
      hide Mirrored, Cascaded, IdeDevice.SetPacketResult, IdeDevice.StartRead, Fill;
      ghost var after := IdeDevice.ReadNextSector(Value(), drive);
      var read := drive.sector(regs.lba, regs.readMode);
      assert SaneRead(read);
      match read {
        case Failure(code) =>
          var lba := regs.lba;
          SetPacketResult(code);
          regs := regs.(sense := regs.sense[5 := lba / 0x1_0000 % 0x100][6 := lba / 0x100 % 0x100][7 := lba % 0x100]);
        case Sector(data) =>
          FillBuffer(data);
          ghost var was := Value();
          regs := regs.(lba := Next(regs.lba), left := Previous(regs.left));
          StillGood(was, Value());
          StartRead(|data|, regs.UsesDma());
      }
    }

    // The end of a word transfer.
    method FinishPio()
      requires Valid()
      modifies `regs, asic`pending, asic`irq13, asic`irq11, asic`irq9
      ensures Valid() && Value() == PioDone(old(Value()))
    {
      hide Mirrored, Cascaded, Sane, IdeDevice.RaiseInterrupt, Off;
      ghost var was, after := Value(), PioDone(Value());
      regs := regs.(state := Idle, status := Off(regs.status, STATUS_DRQ), offset := -1, count := 3);
      StillGood(was, Value());
      RaiseInterrupt();
    }

    // ide_read_data_pio
    method ReadDataPio() returns (word: u16)
      requires Valid()
      modifies `regs, buffer, asic`pending, asic`irq13, asic`irq11, asic`irq9
      ensures Valid() && (Value(), word) == ReadData(old(Value()), drive)
    {
      hide Mirrored, Cascaded, Sane, IdeDevice.ReadNextSector, PioDone;
      ghost var was, after := Value(), ReadData(Value(), drive).0;
      if regs.state == PioRead {
        word := Word(buffer[regs.offset], buffer[regs.offset + 1]);
        if regs.offset + 2 >= regs.length {
          FinishPio();
          if regs.left > 0 {
            ReadNextSector();
          }
        } else {
          regs := regs.(offset := regs.offset + 2);
        }
      } else {
        word := 0xFFFF;
      }
    }

    // The end of a DMA read.
    method FinishDma()
      requires Valid()
      modifies `regs, asic`pending, asic`irq13, asic`irq11, asic`irq9
      ensures Valid() && Value() == DmaDone(old(Value()))
      ensures regs.state == Idle && regs.left == old(regs).left
    {
      hide Mirrored, Cascaded, Sane;
      ghost var was, after := Value(), DmaDone(Value());
      regs := regs.(offset := -1, state := Idle, status := 0x50, count := 3);
      StillGood(was, Value());
      RaiseInterrupt();
    }

    // Moves the next n bytes of the buffer to memory.
    method Transfer(memory: array<byte>, addr: nat, n: nat)
      requires Valid() && memory != buffer && addr + n <= memory.Length
      requires regs.state == State.DmaRead && regs.offset + n <= regs.length
      modifies `regs, memory
      ensures Valid() && Value() == Advance(old(Value()), n)
      ensures 0 <= old(regs.offset) <= old(regs.offset) + n <= |Value().buffer|
      ensures memory[..] == Store(old(memory[..]), addr, Value().buffer[old(regs.offset)..old(regs.offset) + n])
    {
      hide Mirrored, Cascaded, Sane;
      ghost var after := Advance(Value(), n);
      ghost var data, before := buffer[regs.offset..regs.offset + n], memory[..];
      forall i | addr <= i < addr + n {
        memory[i] := buffer[regs.offset + (i - addr)];
      }
      assert memory[..] == Store(before, addr, data);
      regs := regs.(offset := regs.offset + n);
      assert Value() == after && Value().buffer[old(regs.offset)..old(regs.offset) + n] == data;
    }

    // One round of the loop of ide_read_data_dma.
    method TransferRound(memory: array<byte>, addr: nat, length: nat) returns (n: nat, ghost data: seq<byte>)
      requires Valid() && memory != buffer && addr + length <= memory.Length
      requires length > 0 && regs.state == State.DmaRead
      modifies `regs, buffer, memory, asic`pending, asic`irq13, asic`irq11, asic`irq9
      ensures Valid() && n == |data| <= length
      ensures ReadDma(old(Value()), drive, length) == Prefixed(data, ReadDma(Value(), drive, length - n))
      ensures memory[..] == Store(old(memory[..]), addr, data)
      ensures regs.left < old(regs.left) || (regs.left == old(regs.left) && (n > 0 || regs.state == Idle))
    {
      hide Good, Sane, ReadDma, Advance, DmaDone, IdeDevice.ReadNextSector, Store, Multiplexer.LinesRight;
      ghost var was := Value();
      DmaRound(was, drive, length);
      Range(was);
      var remaining := regs.length - regs.offset;
      n := length;
      if n > remaining {
        n := remaining;
      }
      data := was.buffer[was.regs.offset..was.regs.offset + n];
      AdvanceAdds(was, n, 0);
      Transfer(memory, addr, n);
      if regs.offset >= regs.length {
        if regs.left > 0 {
          NextSectorLeft(Value(), drive);
          ReadNextSector();
        } else {
          FinishDma();
          IdleReads(Value(), drive, length - n);
          Joined(data, [], []);
        }
      } else {
        NoMore(Value(), drive);
        Joined(data, [], []);
      }
    }

    // ide_read_data_dma, into plain memory: the bytes moved and how many they are.
    method ReadDataDma(memory: array<byte>, addr: nat, length: nat) returns (count: nat)
      requires Valid() && memory != buffer && addr + length <= memory.Length
      modifies `regs, buffer, memory, asic`pending, asic`irq13, asic`irq11, asic`irq9
      ensures Valid() && Value() == ReadDma(old(Value()), drive, length).0
      ensures count == |ReadDma(old(Value()), drive, length).1|
      ensures memory[..] == Store(old(memory[..]), addr, ReadDma(old(Value()), drive, length).1)
    {
      hide Good, Sane, ReadDma, Store, Multiplexer.LinesRight;
      count := 0;
      ghost var whole, done: seq<byte> := ReadDma(Value(), drive, length), [];
      Joined([], [], whole.1);
      StoreNothing(memory[..], addr);
      while count < length && regs.state == State.DmaRead
        invariant Valid() && count == |done| <= length
        invariant whole == Prefixed(done, ReadDma(Value(), drive, length - count))
        invariant memory[..] == Store(old(memory[..]), addr, done)
        decreases regs.left, length - count, regs.state == State.DmaRead
      {
        var n, data := TransferRound(memory, addr + count, length - count);
        StoreAdds(old(memory[..]), addr, done, data);
        Joined(done, data, ReadDma(Value(), drive, length - count - n).1);
        done := done + data;
        count := count + n;
      }
      assert Valid();
      NothingMore(Value(), drive, length - count);
      Joined(done, [], []);
    }

    // ide_start_packet_read
    method StartPacketRead(length: nat, sectors: u32)
      requires Valid() && length <= MAX_SECTOR_SIZE
      modifies `regs, asic`pending, asic`irq13, asic`irq11, asic`irq9
      ensures Valid() && Value() == IdeDevice.StartPacketRead(old(Value()), length, sectors)
    {
      hide Mirrored, Cascaded, Sane, IdeDevice.SetPacketResult, IdeDevice.StartRead;
      ghost var was, after := Value(), IdeDevice.StartPacketRead(Value(), length, sectors);
      regs := regs.(left := sectors);
      StillGood(was, Value());
      SetPacketResult(ERR_OK);
      StartRead(length, regs.UsesDma());
    }

    // ide_start_packet_write
    method StartPacketWrite(length: nat, sectors: u32)
      requires Valid() && length <= MAX_SECTOR_SIZE
      modifies `regs, asic`pending, asic`irq13, asic`irq11, asic`irq9
      ensures Valid() && Value() == IdeDevice.StartPacketWrite(old(Value()), length, sectors)
    {
      hide Mirrored, Cascaded, Sane, IdeDevice.SetPacketResult, IdeDevice.StartWrite;
      ghost var was, after := Value(), IdeDevice.StartPacketWrite(Value(), length, sectors);
      regs := regs.(left := sectors);
      StillGood(was, Value());
      SetPacketResult(ERR_OK);
      StartWrite(length, regs.UsesDma());
    }

    // Puts an answer in the buffer and lets the host read it.
    method Reply(data: seq<byte>)
      requires Valid() && |data| <= MAX_SECTOR_SIZE
      modifies `regs, buffer, asic`pending, asic`irq13, asic`irq11, asic`irq9
      ensures Valid() && Value() == Replied(old(Value()), data)
    {
      hide Mirrored, Cascaded, Sane, IdeDevice.StartPacketRead, Fill;
      ghost var after := Replied(Value(), data);
      FillBuffer(data);
      StartPacketRead(|data|, 0);
    }

    method Acknowledge(code: u16)
      requires Valid()
      modifies `regs, asic`pending, asic`irq13, asic`irq11, asic`irq9
      ensures Valid() && Value() == Acknowledged(old(Value()), code)
    {
      hide Good, Sane, IdeDevice.SetPacketResult, IdeDevice.RaiseInterrupt;
      ghost var after := Acknowledged(Value(), code);
      SetPacketResult(code);
      RaiseInterrupt();
      assert Value() == after;
    }


    // ide_set_error
    method SetError(code: u16)
      requires Valid()
      modifies `regs
      ensures Valid() && Value() == IdeDevice.SetError(old(Value()), code)
    {
      hide Mirrored, Cascaded, Sane;
      ghost var after := IdeDevice.SetError(Value(), code);
      regs := regs.(status := 0x51, error := code % 0x100);
    }




    method AnswerHost(answer: Answer)
      requires Valid() && SaneAnswer(answer)
      modifies `regs, buffer, asic`pending, asic`irq13, asic`irq11, asic`irq9
      ensures Valid() && Value() == GiveAnswer(old(Value()), answer)
    {
      hide Good, Sane, IdeDevice.SetPacketResult, IdeDevice.SetError, Replied;
      ghost var after := GiveAnswer(Value(), answer);
      match answer {
        case Report(data) => Reply(data);
        case Refusal(code) => SetPacketResult(code);
        case BadField => SetError(ERR_BADFIELD);
        case Silence =>
      }
      assert Value() == after;
    }
    // The commands of ide_packet_command that leave their first byte to be remembered.
    method CarryOut(cmd: seq<byte>)
      requires Valid() && |cmd| == 12 && cmd == buffer[..12]
      modifies `regs, buffer, asic`pending, asic`irq13, asic`irq11, asic`irq9
      ensures Valid() && Value() == PacketBody(old(Value()), drive)
    {
      hide Mirrored, Cascaded, Acknowledged, IdeDevice.SetError, Replied, IdeDevice.StartPacketWrite, IdeDevice.ReadNextSector, GiveAnswer;
      ghost var was, after := Value(), PacketBody(Value(), drive);
      assert was.buffer[..12] == cmd;
      if cmd[0] == PKT_TEST_READY {
        Acknowledge(ERR_OK);
        regs := regs.(status := 0x50);
      } else if cmd[0] == PKT_MODE_SENSE {
        if cmd[2] >= GDROM_MODE_LENGTH {
          SetError(ERR_BADFIELD);
        } else {
          Reply(regs.mode[cmd[2]..cmd[2] + ModeLength(cmd[2], cmd[4])]);
        }
      } else if cmd[0] == PKT_MODE_SELECT {
        if cmd[2] >= GDROM_MODE_LENGTH {
          SetError(ERR_BADFIELD);
        } else {
          regs := regs.(lba := cmd[2]);
          StillGood(was, Value());
          StartPacketWrite(ModeLength(cmd[2], cmd[4]), 0);
        }
      } else if cmd[0] == PKT_SENSE {
        Reply(regs.sense[..if cmd[4] > GDROM_SENSE_LENGTH then GDROM_SENSE_LENGTH else cmd[4]]);
      } else if cmd[0] == PKT_READ_SECTOR {
        regs := regs.(lba := Wide(cmd[2], cmd[3], cmd[4]), left := Wide(cmd[8], cmd[9], cmd[10]), readMode := cmd[1]);
        StillGood(was, Value());
        ReadNextSector();
      } else if cmd[0] == PKT_PLAY_AUDIO {
        Acknowledge(drive.play(cmd));
        regs := regs.(status := 0x50);
      } else if cmd[0] == PKT_SPIN_UP {
        Acknowledge(ERR_OK);
      } else {
        assert SaneAnswer(drive.answer(cmd, regs));
        AnswerHost(drive.answer(cmd, regs));
      }
      assert Value() == after;
    }

    // ide_packet_command, on the packet in the data buffer.
    method PacketCommand()
      requires Valid()
      modifies `regs, buffer, asic`pending, asic`irq13, asic`irq11, asic`irq9
      ensures Valid() && Value() == IdeDevice.PacketCommand(old(Value()), drive)
    {
      hide Mirrored, Cascaded, Sane, IdeDevice.SetPacketResult, PacketBody;
      ghost var after := IdeDevice.PacketCommand(Value(), drive);
      var command := buffer[0];
      if command != PKT_SENSE && regs.wasReset {
        SetPacketResult(ERR_RESET);
        regs := regs.(wasReset := false);
      } else if NeedsDisc(command) && !drive.disc {
        SetPacketResult(ERR_NODISC);
      } else if !Known(command) {
        SetPacketResult(ERR_BADCMD);
      } else {
        CarryOut(buffer[..12]);
        regs := regs.(lastCommand := buffer[0]);
      }
      assert Value() == after;
    }

    // ide_write_buffer, on the data buffer.
    method StoreMode()
      requires Valid() && 0 <= regs.length <= MAX_SECTOR_SIZE
      modifies `regs
      ensures Valid() && Value() == WriteBuffer(old(Value()))
    {
      hide Mirrored, Cascaded, Sane;
      ghost var after := WriteBuffer(Value());
      if regs.lastCommand == PKT_MODE_SELECT {
        if regs.lba < 10 {
          var n := regs.length;
          if regs.lba + regs.length > 10 {
            n := 10 - regs.lba;
          }
          assert buffer[..n] == buffer[..][..n];
          regs := regs.(mode := regs.mode[..regs.lba] + buffer[..n] + regs.mode[regs.lba + n..]);
        }
      }
      assert Value() == after;
    }

    // ide_write_data_pio
    method WriteDataPio(lo: byte, hi: byte)
      requires Valid()
      modifies `regs, buffer, asic`pending, asic`irq13, asic`irq11, asic`irq9
      ensures Valid() && Value() == WriteData(old(Value()), lo, hi, drive)
    {
      hide Mirrored, Cascaded, Sane, IdeDevice.PacketCommand, PioDone, WriteBuffer, Off;
      ghost var was, after := Value(), WriteData(Value(), lo, hi, drive);
      if regs.state == CmdWrite || regs.state == PioWrite {
        buffer[regs.offset] := lo;
        buffer[regs.offset + 1] := hi;
        assert Value() == StoreWord(was, lo, hi);
        if regs.offset + 2 >= regs.length {
          if regs.state == CmdWrite {
            regs := regs.(state := Busy, status := Off(regs.status, STATUS_DRQ) | STATUS_BSY, offset := -1);
            assert Value() == PacketReceived(StoreWord(was, lo, hi));
            PacketCommand();
          } else {
            FinishPio();
            LengthKept(StoreWord(was, lo, hi));
            StoreMode();
          }
        } else {
          regs := regs.(offset := regs.offset + 2);
        }
      }
      assert Value() == after;
    }

    // ide_reset
    method Reset()
      requires Valid()
      modifies `regs, asic`pending, asic`irq13, asic`irq11, asic`irq9
      ensures Valid() && Value() == IdeDevice.Reset(old(Value()))
    {
      hide Mirrored, Cascaded, Sane, IdeDevice.ClearInterrupt;
      ghost var after := IdeDevice.Reset(Value());
      ClearInterrupt();
      regs := PowerOn.(control := regs.control, command := regs.command, lastCommand := regs.lastCommand);
      assert Value() == after;
    }

    // ide_write_command
    method WriteCommand(value: byte)
      requires Valid()
      modifies `regs, asic`pending, asic`irq13, asic`irq11, asic`irq9
      ensures Valid() && Value() == IdeDevice.WriteCommand(old(Value()), value)
    {
      hide Mirrored, Cascaded, Sane, IdeDevice.ClearInterrupt, IdeDevice.RaiseInterrupt, IdeDevice.Reset, IdeDevice.StartCommand;
      ghost var after := IdeDevice.WriteCommand(Value(), value);
      ClearInterrupt();
      ghost var was := Value();
      regs := regs.(command := value);
      StillGood(was, Value());
      if value == CMD_NOP {
        regs := regs.(state := Idle, status := 0x51, error := 0x04, offset := -1);
        StillGood(was, Value());
        RaiseInterrupt();
      } else if value == CMD_RESET_DEVICE {
        Reset();
      } else if value == CMD_PACKET {
        StartCommand();
      } else if value == CMD_SET_FEATURE {
        regs := regs.(status := 0x50, error := 0x00, lba1 := 0x00, lba2 := 0x00);
        StillGood(was, Value());
        RaiseInterrupt();
      }
      assert Value() == after;
    }
  }

  lemma LengthKept(d: Device)
    requires Good(d)
    ensures PioDone(d).regs.length == d.regs.length
  {
  }
}
