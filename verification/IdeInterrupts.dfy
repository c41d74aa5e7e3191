// When the drive asks for an interrupt and when it takes it back, and what the host finds in
// the registers then.
module IdeInterrupts {
  import opened Asic
  import opened IdeDevice
  import T = IdeTransfers
  import P = IdePackets

  // ---------------------------------------------------------------- the request

  // Raising and clearing the request touches no event of another device.
  lemma OtherEventsStay(d: Device, event: bv8)
    requires Good(d) && Source(event) && event != EVENT_IDE
    ensures Pending(RaiseInterrupt(d).pending, event) <==> Pending(d.pending, event)
    ensures Pending(ClearInterrupt(d).pending, event) <==> Pending(d.pending, event)
  {
    hide Pending, Raised, Cleared, Good;
    RaisedEvents(d.pending, EVENT_IDE, event);
    ClearedEvents(d.pending, EVENT_IDE, event);
  }

  // A drive that has asked for an interrupt asks the multiplexer too, if it may.
  predicate Asks(d: Device) {
    d.regs.intrq && (d.regs.IrqEnabled() ==> Pending(d.pending, EVENT_IDE))
  }

  lemma AskingReachesLine(d: Device, mask: Words)
    requires Asks(d) && d.regs.IrqEnabled() && mask.w1 & 1 != 0
    ensures Selected(d.pending, mask)
  {
  }

  lemma RequestAsks(d: Device)
    requires Good(d)
    ensures d.regs.intrq ==> Asks(d)
  {
  }

  // Reading the status takes the request back unless the drive is busy, and with it the event.
  lemma StatusTakesBack(d: Device)
    requires Good(d)
    ensures d.regs.CanWrite() ==> !ReadStatus(d).regs.intrq && !Pending(ReadStatus(d).pending, EVENT_IDE)
    ensures !d.regs.CanWrite() ==> ReadStatus(d) == d
  {
  }

  // ---------------------------------------------------------------- commands

  // The host sees the drive ready, without data and without an error, when an operation is over.
  predicate Done(d: Device) {
    Asks(d) && d.regs.state == Idle && d.regs.status == 0x50 && d.regs.count == 3 && d.regs.offset == -1
  }

  // A word for the host is in the buffer, and the byte count in the address registers.
  predicate Offers(d: Device, size: nat) {
    && Asks(d) && d.regs.state == PioRead && d.regs.status == 0x58 && d.regs.count == COUNT_IO
    && d.regs.lba1 + 0x100 * d.regs.lba2 as int == size
  }

  // An operation has ended in this error.
  predicate Fails(d: Device, code: u16) {
    && Asks(d) && d.regs.state == Idle && d.regs.status == 0x51 && d.regs.count == 3
    && d.regs.error as int == code % 0x10 * 0x10
    && |d.regs.sense| == GDROM_SENSE_LENGTH && d.regs.sense[0] == 0xF0
    && Word(d.regs.sense[2], d.regs.sense[8]) == code
  }

  lemma ResultRegisters(d: Device, code: u16)
    requires Good(d) && code != ERR_OK
    ensures |d.regs.sense| == GDROM_SENSE_LENGTH
    ensures SetPacketResult(d, code).regs
            == d.regs.(sense := d.regs.sense[0 := 0xF0][2 := code % 0x100][8 := code / 0x100], error := code % 0x10 * 0x10,
                       count := 3, status := 0x51, state := Idle, intrq := true)
  {
    hide Mirrored, Cascaded, RaiseInterrupt;
  }

  lemma SenseOf(sense: seq<byte>, code: u16)
    requires |sense| == GDROM_SENSE_LENGTH
    ensures var s := sense[0 := 0xF0][2 := code % 0x100][8 := code / 0x100];
            |s| == GDROM_SENSE_LENGTH && s[0] == 0xF0 && Word(s[2], s[8]) == code
  {
    Halves(code);
    Updated(sense, code % 0x100, code / 0x100);
  }

  lemma Halves(code: u16)
    ensures Word(code % 0x100, code / 0x100) == code
  {
    var lo, hi := code as int % 0x100, code as int / 0x100;
    assert code as int == 0x100 * hi + lo;
  }

  lemma Updated(sense: seq<byte>, lo: byte, hi: byte)
    requires |sense| == GDROM_SENSE_LENGTH
    ensures var s := sense[0 := 0xF0][2 := lo][8 := hi];
            |s| == GDROM_SENSE_LENGTH && s[0] == 0xF0 && s[2] == lo && s[8] == hi
  {
  }

  lemma ResultFails(d: Device, code: u16)
    requires Good(d) && code != ERR_OK
    ensures Fails(SetPacketResult(d, code), code)
    ensures var r := SetPacketResult(d, code); r.regs.mode == d.regs.mode && r.regs.wasReset == d.regs.wasReset
  {
    hide Mirrored, Cascaded, Word, SetPacketResult;
    ResultRegisters(d, code);
    SenseOf(d.regs.sense, code);
    RequestAsks(SetPacketResult(d, code));
  }

  lemma ReadStarts(d: Device, length: nat, dma: bool)
    requires Good(d) && length <= MAX_SECTOR_SIZE
    ensures var r := StartRead(d, length, dma);
            if dma then r.regs.state == DmaRead && r.regs.status == 0xD0 && r.regs.count == COUNT_IO && r.regs.intrq == d.regs.intrq
            else Offers(r, length)
  {
    hide Mirrored, Cascaded;
    RequestAsks(StartRead(d, length, dma));
  }

  // The NOP command aborts and SET FEATURE is answered at once.
  lemma Commands(d: Device)
    requires Good(d)
    ensures var r := WriteCommand(d, CMD_NOP);
            Asks(r) && r.regs.state == Idle && r.regs.status == 0x51 && r.regs.error == 0x04 && r.regs.offset == -1
    ensures var r := WriteCommand(d, CMD_SET_FEATURE);
            && Asks(r) && r.regs.state == d.regs.state && r.regs.status == 0x50 && r.regs.error == 0
            && r.regs.lba1 == 0 && r.regs.lba2 == 0
  {
    hide Mirrored, Cascaded, Reset, StartCommand;
    RequestAsks(WriteCommand(d, CMD_NOP));
    RequestAsks(WriteCommand(d, CMD_SET_FEATURE));
  }

  // PACKET takes the request back and waits for twelve bytes; RESET does too, and leaves the
  // signature of a packet device.
  lemma PacketWanted(d: Device)
    requires Good(d)
    ensures var r := WriteCommand(d, CMD_PACKET);
            && !r.regs.intrq && r.regs.state == CmdWrite && r.regs.status == 0x58 && r.regs.count == COUNT_CD
            && r.regs.length == 12 && r.regs.error == (d.regs.feature & 0x03) as int
  {
    hide Mirrored, Cascaded, Reset;
  }

  lemma ResetSigns(d: Device)
    requires Good(d)
    ensures var r := WriteCommand(d, CMD_RESET_DEVICE);
            && !r.regs.intrq && r.regs.state == Idle && r.regs.wasReset && r.regs.control == d.regs.control
            && r.regs.lba1 == 0x14 && r.regs.lba2 == 0xEB && r.regs.count == 1 && r.regs.error == 1
            && r.regs.mode == DefaultMode && forall i :: 0 <= i < |r.regs.sense| ==> r.regs.sense[i] == 0
  {
    hide Mirrored, Cascaded, StartCommand;
  }

  // The command itself is kept, and one that the drive does not know does nothing more than
  // take the interrupt back.
  lemma CommandKept(d: Device, value: byte)
    requires Good(d)
    ensures value != CMD_RESET_DEVICE ==> WriteCommand(d, value).regs.command == value
    ensures value !in {CMD_NOP, CMD_RESET_DEVICE, CMD_PACKET, CMD_SET_FEATURE} ==>
              WriteCommand(d, value).regs == d.regs.(intrq := false, command := value)
  {
    hide Mirrored, Cascaded;
  }

  // Data wanted from the host: by words with an interrupt and the byte count, or by DMA.
  lemma WriteStarts(d: Device, length: nat, dma: bool)
    requires Good(d) && length <= MAX_SECTOR_SIZE
    ensures var r := StartWrite(d, length, dma);
            && r.regs.count == 0 && r.regs.length == length && r.regs.offset == 0
            && if dma then r.regs.state == DmaWrite && r.regs.status == 0xD0 && r.regs.intrq == d.regs.intrq
               else Asks(r) && r.regs.state == PioWrite && r.regs.status == 0x58
                    && r.regs.lba1 + 0x100 * r.regs.lba2 as int == length
    ensures StartPacketWrite(d, length, 0).regs.left == 0
  {
    hide Mirrored, Cascaded;
    RequestAsks(StartWrite(d, length, dma));
  }

  // A drive that has taken a packet is busy with it.
  lemma ReceivedBusy(d: Device, feature: bv8, packet: seq<byte>)
    requires Good(d) && |packet| == 12
    ensures var r := P.Received(d, feature, packet); r.regs.status == 0xD0 && r.regs.state == Busy && r.regs.offset == -1
  {
    hide Mirrored, Cascaded, P.Spliced;
    P.OpenedFor(d, feature, packet);
  }

  // TEST READY and SPIN UP only interrupt; PLAY AUDIO also tells what came of it.
  lemma Acknowledgements(d: Device, drive: Drive)
    requires Good(d) && Sane(drive) && d.regs.status == 0xD0
    ensures var r, command := PacketBody(d, drive), d.buffer[0];
            && (command in {PKT_TEST_READY, PKT_SPIN_UP} ==> Asks(r) && r.regs.status == 0x50 && r.regs.error == 0)
            && (command == PKT_PLAY_AUDIO ==>
                  var code := drive.play(d.buffer[..12]);
                  Asks(r) && r.regs.status == 0x50 && r.regs.error as int == code % 0x10 * 0x10)
  {
    hide Mirrored, Cascaded, Replied, SelectMode, ReadSectors, GiveAnswer, SetError;
    assert d.buffer[..12][0] == d.buffer[0];
    Acknowledges(d, ERR_OK);
    Acknowledges(d, drive.play(d.buffer[..12]));
  }

  lemma Acknowledges(d: Device, code: u16)
    requires Good(d) && d.regs.status == 0xD0
    ensures var r := Acknowledged(d, code);
            && Asks(r) && Asks(Ready(r)) && (code == ERR_OK ==> r.regs.status == 0x50)
            && r.regs.error as int == Ready(r).regs.error as int == code % 0x10 * 0x10
            && Ready(r).regs.status == 0x50
  {
    hide Mirrored, Cascaded;
    RequestAsks(Acknowledged(d, code));
    RequestAsks(Ready(Acknowledged(d, code)));
  }

  // Commands that report something give the answer, refuse, or find a wrong field; and so do
  // those on the mode table, from a place that is not in it.
  lemma Reports(d: Device, drive: Drive)
    requires Good(d) && Sane(drive)
    ensures var r, command := PacketBody(d, drive), d.buffer[0];
            && (command in {PKT_MODE_SENSE, PKT_MODE_SELECT} && d.buffer[2] as int >= GDROM_MODE_LENGTH ==> WrongField(d, r))
            && (command in {PKT_DRIVE_STATUS, PKT_READ_TOC, PKT_SESSION_INFO, PKT_STATUS, PKT_71} ==>
                  match drive.answer(d.buffer[..12], d.regs)
                  case Report(data) => |data| <= MAX_SECTOR_SIZE && r == Replied(d, data)
                  case Refusal(code) => Fails(r, code)
                  case BadField => WrongField(d, r)
                  case Silence => r == d)
  {
    hide Mirrored, Cascaded, Replied, SelectMode, ReadSectors, SetPacketResult, Acknowledged, Fails;
    var cmd := d.buffer[..12];
    assert cmd[0] == d.buffer[0] && cmd[2] == d.buffer[2];
    assert SaneAnswer(drive.answer(cmd, d.regs));
    if drive.answer(cmd, d.regs).Refusal? {
      ResultFails(d, drive.answer(cmd, d.regs).code);
    }
  }

  // Only the status and the error tell of a wrong field: there is no interrupt.
  predicate WrongField(d: Device, r: Device) {
    r == d.(regs := d.regs.(status := 0x51, error := 0x05))
  }

  lemma NextIs(x: u32)
    ensures Next(x) as int == (x + 1) % 0x1_0000_0000
    ensures Previous(x) as int == (x as int - 1) % 0x1_0000_0000
  {
  }

  // Through the registers: the status read is the one above, and what is written to feature
  // and command while the drive is busy is ignored, but for the NOP that aborts.
  lemma RegisterAccess(d: Device, drive: Drive, feature: bv8, command: byte)
    requires Good(d) && Sane(drive)
    ensures T.Perform(d, T.StatusRead, drive) == ReadStatus(d)
    ensures var r := T.Perform(d, T.FeatureWrite(feature), drive);
            r == if d.regs.CanWrite() then d.(regs := d.regs.(feature := feature)) else d
    ensures var r := T.Perform(d, T.CommandWrite(command), drive);
            r == if d.regs.CanWrite() || command == CMD_NOP then WriteCommand(d, command) else d
  {
    hide Good, Sane, WriteCommand, ReadStatus;
  }

  // A packet is refused before it is looked at closer: after a reset, unless it is SENSE;
  // without a disc, if it needs one; and if nobody knows the command.
  lemma Refusals(d: Device, drive: Drive)
    requires Good(d) && Sane(drive)
    ensures var r, command := PacketCommand(d, drive), d.buffer[0];
            && (d.regs.wasReset && command != PKT_SENSE ==> Fails(r, ERR_RESET) && !r.regs.wasReset)
            && (!d.regs.wasReset && NeedsDisc(command) && !drive.disc ==> Fails(r, ERR_NODISC))
            && (!d.regs.wasReset && !Known(command) ==> Fails(r, ERR_BADCMD))
  {
    hide Mirrored, Cascaded, SetPacketResult, PacketBody, Sane, Fails;
    ResultFails(d, ERR_RESET);
    ResultFails(d, ERR_NODISC);
    ResultFails(d, ERR_BADCMD);
    FailsUnlessReset(SetPacketResult(d, ERR_RESET), ERR_RESET);
  }

  lemma FailsUnlessReset(d: Device, code: u16)
    requires Fails(d, code)
    ensures Fails(d.(regs := d.regs.(wasReset := false)), code)
  {
  }

  // ---------------------------------------------------------------- transfers

  lemma LocatedFails(d: Device, code: u16, lba: u32)
    requires Good(d) && Fails(d, code)
    ensures Fails(Located(d, lba), code)
  {
    hide Mirrored, Cascaded;
  }

  // A sector is offered to the host, with an interrupt unless it goes by DMA, or it fails.
  lemma SectorOffered(d: Device, drive: Drive)
    requires Good(d) && Sane(drive)
    ensures var r := ReadNextSector(d, drive);
            match drive.sector(d.regs.lba, d.regs.readMode)
            case Failure(code) => Fails(r, code)
            case Sector(data) =>
              if d.regs.UsesDma() then r.regs.state == DmaRead && r.regs.status == 0xD0 && r.regs.intrq == d.regs.intrq
              else Offers(r, |data|)
  {
    hide Mirrored, Cascaded, SetPacketResult, StartRead, Located, Fails, Offers;
    assert SaneRead(drive.sector(d.regs.lba, d.regs.readMode));
    match drive.sector(d.regs.lba, d.regs.readMode) {
      case Failure(code) =>
        ResultFails(d, code);
        LocatedFails(SetPacketResult(d, code), code, d.regs.lba);
      case Sector(data) =>
        var regs := d.regs.(lba := Next(d.regs.lba), left := Previous(d.regs.left));
        var d1 := d.(regs := regs, buffer := Fill(d.buffer, data));
        StillGood(d, d1);
        ReadStarts(d1, |data|, regs.UsesDma());
    }
  }

  // After the last word of a sector, or the last byte of a DMA transfer, the drive is done.
  lemma LastWordDone(d: Device)
    requires Good(d) && d.regs.status == 0x58
    ensures Done(PioDone(d))
  {
    hide Mirrored, Cascaded;
    RequestAsks(PioDone(d));
  }

  lemma LastByteDone(d: Device)
    requires Good(d)
    ensures Done(DmaDone(d))
  {
    hide Mirrored, Cascaded;
    RequestAsks(DmaDone(d));
  }

  // How a transfer ends: in order, or in the first sector that cannot be read.
  predicate Ends(d: Device, trouble: P.Trouble) {
    match trouble
    case NoTrouble => Done(d)
    case Trouble(_, code) => Fails(d, code)
  }

  lemma {:induction false} DrainEnds(d: Device, drive: Drive)
    requires Good(d) && Sane(drive) && d.regs.state == PioRead && !d.regs.UsesDma() && d.regs.status == 0x58
    requires d.regs.offset <= d.regs.length
    ensures Ends(T.Drain(d, drive).0, P.TroubleFor(d, drive))
    decreases d.regs.left, d.regs.length - d.regs.offset
  {
    hide Good, Sane, ReadData, ReadNextSector, T.Drain, T.Bytes, T.Coming, P.FirstTrouble, P.Tells, PioDone, Done, Fails;
    T.PioRound(d, drive);
    T.DrainRound(d, drive);
    var d1 := ReadData(d, drive).0;
    if d.regs.offset + 2 < d.regs.length {
      DrainEnds(d1, drive);
    } else {
      LastWordDone(d);
      LastWordIs(d, drive);
      if d.regs.left > 0 {
        P.LastWord(d, drive);
        P.TroubleNext(PioDone(d), drive);
        SectorOffered(PioDone(d), drive);
      } else {
        P.NoneLeft(d, drive);
      }
      if d1.regs.state == PioRead {
        DrainEnds(d1, drive);
      } else {
        T.IdleDrains(d1, drive);
      }
    }
  }

  lemma LastWordIs(d: Device, drive: Drive)
    requires Good(d) && Sane(drive) && d.regs.state == PioRead && d.regs.offset + 2 >= d.regs.length
    ensures d.regs.left == 0 ==> ReadData(d, drive).0 == PioDone(d)
    ensures PioDone(d).regs.UsesDma() == d.regs.UsesDma()
  {
  }

  lemma {:induction false} DmaEnds(d: Device, drive: Drive, n: nat)
    requires Good(d) && Sane(drive) && d.regs.state == DmaRead && d.regs.UsesDma()
    requires n > |T.Flat(T.ComingFor(d, drive))| + d.regs.length - d.regs.offset
    ensures Ends(ReadDma(d, drive, n).0, P.TroubleFor(d, drive))
    decreases d.regs.left
  {
    hide Good, Sane, ReadDma, ReadNextSector, DmaDone, T.Flat, T.Coming, P.FirstTrouble, P.Tells, Done, Fails;
    T.Range(d);
    T.DmaRound(d, drive, n);
    var m := d.regs.length - d.regs.offset;
    var d1 := Advance(d, m);
    LastByteDone(d1);
    if d.regs.left == 0 {
      P.NoneLeft(d, drive);
    } else {
      var next := ReadNextSector(d1, drive);
      P.TroubleNext(d1, drive);
      T.NextSectorBrings(d1, drive);
      SectorOffered(d1, drive);
      if next.regs.state == DmaRead {
        T.FlatOf(next.buffer[..next.regs.length], T.ComingFor(next, drive));
        DmaEnds(next, drive, n - m);
      } else {
        T.IdleReads(next, drive, n - m);
      }
    }
  }

  lemma RememberedEnds(d: Device, command: byte, trouble: P.Trouble)
    requires Good(d)
    ensures Ends(T.Remembered(d, command), trouble) <==> Ends(d, trouble)
  {
  }

  // A READ SECTOR packet interrupts the host with the first sector when it is to be read by
  // words, or with the error.
  lemma ReadInterrupts(d: Device, packet: seq<byte>, drive: Drive)
    requires P.Attentive(d) && Sane(drive) && drive.disc && P.ReadSector(packet)
    ensures var r := P.Send(d, 0, packet, drive);
            match drive.sector(P.FirstSector(packet), packet[1])
            case Failure(code) => Fails(r, code)
            case Sector(data) => Offers(r, |data|)
  {
    hide Good, Sane, ReadNextSector, P.Send, P.Aimed;
    P.ReadSectorSent(d, 0, packet, drive);
    SectorOffered(P.Aimed(d, 0, packet), drive);
  }

  // However it transfers, and however many sectors it is for: when all that comes has been
  // fetched, the drive has asked for an interrupt, with the registers telling that it is done
  // or what has failed. The next status read takes the request back.
  lemma TransferInterrupts(d: Device, feature: bv8, packet: seq<byte>, drive: Drive, n: nat)
    requires P.Attentive(d) && Sane(drive) && drive.disc && P.ReadSector(packet) && P.SectorCount(packet) > 0
    requires n > |T.Flat(P.Asked(drive, packet))|
    ensures var r := P.Fetched(P.Send(d, feature, packet, drive), drive, n).0;
            && Ends(r, P.FirstTrouble(drive, P.FirstSector(packet), packet[1], P.SectorCount(packet)))
            && Asks(r) && !ReadStatus(r).regs.intrq && !Pending(ReadStatus(r).pending, EVENT_IDE)
  {
    hide Good, Sane, ReadNextSector, ReadDma, T.Drain, T.Flat, T.Coming, P.FirstTrouble, P.Send, P.Aimed, Done, Fails, Offers;
    P.ReadSectorSent(d, feature, packet, drive);
    var aimed := P.Aimed(d, feature, packet);
    var next := ReadNextSector(aimed, drive);
    SentEnds(aimed, next.buffer[0], drive, n);
    var r := P.Fetched(P.Send(d, feature, packet, drive), drive, n).0;
    EndsAsks(r, P.TroubleFor(aimed, drive));
    StatusTakesBack(r);
  }

  lemma EndsAsks(d: Device, trouble: P.Trouble)
    requires Ends(d, trouble)
    ensures Asks(d) && d.regs.CanWrite()
  {
  }

  lemma SentEnds(d: Device, command: byte, drive: Drive, n: nat)
    requires Good(d) && Sane(drive) && d.regs.left > 0 && n > |T.Flat(T.ComingFor(d, drive))|
    ensures Ends(P.Fetched(T.Remembered(ReadNextSector(d, drive), command), drive, n).0, P.TroubleFor(d, drive))
  {
    hide Good, Sane, ReadNextSector, ReadDma, T.Drain, T.Flat, T.Coming, P.FirstTrouble, P.Tells, Done, Fails;
    P.TroubleNext(d, drive);
    T.NextSectorBrings(d, drive);
    SectorOffered(d, drive);
    var r := T.Remembered(ReadNextSector(d, drive), command);
    RememberedEnds(ReadNextSector(d, drive), command, P.TroubleFor(d, drive));
    if r.regs.state == DmaRead {
      T.FlatOf(r.buffer[..r.regs.length], T.ComingFor(r, drive));
      DmaEnds(r, drive, n);
    } else if r.regs.state == PioRead {
      DrainEnds(r, drive);
    } else {
      T.IdleDrains(r, drive);
    }
  }
}
