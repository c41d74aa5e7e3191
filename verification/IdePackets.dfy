// Packet commands from the register writes that send them to the data that comes back: READ
// SECTOR by DMA and by PIO, the mode table written and read, and what the drive remembers of
// a sector it could not read.
module IdePackets {
  import Asic
  import opened IdeDevice
  import opened IdeTransfers

  // ---------------------------------------------------------------- sending

  // Bytes written to the data register, two at a time.
  function Words(data: seq<byte>): (accesses: seq<Access>)
    requires |data| % 2 == 0
    ensures forall i :: 0 <= i < |accesses| ==> Allowed(accesses[i])
    decreases |data|
  {
    if data == [] then [] else [DataWrite(data[0], data[1])] + Words(data[2..])
  }

  predicate Writing(d: Device) {
    d.regs.state == CmdWrite || d.regs.state == PioWrite
  }

  function Spliced(buffer: seq<byte>, o: nat, data: seq<byte>): seq<byte>
    requires o + |data| <= |buffer|
  {
    buffer[..o] + data + buffer[o + |data|..]
  }

  function Stored(d: Device, data: seq<byte>): (r: Device)
    requires Good(d) && Writing(d) && d.regs.offset + |data| <= |d.buffer|
    ensures Good(r)
  {
    d.(buffer := Spliced(d.buffer, d.regs.offset, data))
  }

  // What the last word of a packet or of the data of a command sets off.
  function Ended(d: Device, drive: Drive): (r: Device)
    requires Good(d) && Sane(drive) && Writing(d)
    ensures Good(r)
  {
    if d.regs.state == CmdWrite then PacketCommand(PacketReceived(d), drive) else WriteBuffer(PioDone(d))
  }

  lemma EndedAnywhere(d: Device, offset: int, drive: Drive)
    requires Good(d) && Sane(drive) && Writing(d)
    requires Good(d.(regs := d.regs.(offset := offset)))
    ensures Ended(d.(regs := d.regs.(offset := offset)), drive) == Ended(d, drive)
  {
    hide PacketCommand, WriteBuffer, RaiseInterrupt, Off;
  }

  lemma WordStored(d: Device, lo: byte, hi: byte, drive: Drive)
    requires Good(d) && Sane(drive) && Writing(d)
    ensures d.regs.offset + 2 <= |d.buffer|
    ensures var s := Stored(d, [lo, hi]);
            WriteData(d, lo, hi, drive) ==
              if d.regs.offset + 2 < d.regs.length then s.(regs := s.regs.(offset := s.regs.offset + 2)) else Ended(s, drive)
  {
    hide PacketCommand, WriteBuffer, PioDone, PacketReceived;
    assert StoreWord(d, lo, hi).buffer == Stored(d, [lo, hi]).buffer;
  }

  // The device is ready for as many bytes as there are, in words.
  predicate Awaits(d: Device, data: seq<byte>) {
    Good(d) && Writing(d) && 0 <= d.regs.offset <= d.regs.length && |data| == Padded(d.regs.length - d.regs.offset)
  }

  lemma Fits(d: Device, data: seq<byte>)
    requires Awaits(d, data)
    ensures d.regs.offset + |data| <= |d.buffer| && |data| >= 2 && |data| % 2 == 0
    ensures |data| > 2 <==> d.regs.offset + 2 < d.regs.length
  {
  }

  lemma SpliceJoins(buffer: seq<byte>, o: nat, x: seq<byte>, y: seq<byte>)
    requires o + |x| + |y| <= |buffer|
    ensures Spliced(Spliced(buffer, o, x), o + |x|, y) == Spliced(buffer, o, x + y)
  {
  }

  lemma StoredNext(d: Device, data: seq<byte>)
    requires Awaits(d, data) && |data| > 2 && d.regs.offset + |data| <= |d.buffer|
    ensures var s := Stored(d, data[..2]);
            var next := s.(regs := s.regs.(offset := s.regs.offset + 2));
            var whole := Stored(d, data);
            && Awaits(next, data[2..]) && next.regs.offset + |data| - 2 <= |next.buffer| && Writing(whole)
            && Stored(next, data[2..]) == whole.(regs := whole.regs.(offset := d.regs.offset + 2))
            && Good(whole.(regs := whole.regs.(offset := d.regs.offset + 2)))
  {
    hide Mirrored, Asic.Cascaded, Spliced;
    var s, o := Stored(d, data[..2]), d.regs.offset;
    StillGood(d, s.(regs := s.regs.(offset := o + 2)));
    assert data[..2] + data[2..] == data;
    SpliceJoins(d.buffer, o, data[..2], data[2..]);
  }

  // As many words as the drive waits for end up in its buffer one after another.
  lemma {:induction false} WordsStored(d: Device, data: seq<byte>, drive: Drive)
    requires Awaits(d, data) && Sane(drive)
    ensures d.regs.offset + |data| <= |d.buffer| && |data| % 2 == 0
    ensures Run(d, Words(data), drive) == Ended(Stored(d, data), drive)
    decreases |data|
  {
    hide Good, Sane, Ended, WriteData, Stored, Padded;
    Fits(d, data);
    assert data[..2] == [data[0], data[1]];
    WordStored(d, data[0], data[1], drive);
    OneMore(d, data, drive);
    if |data| > 2 {
      StoredNext(d, data);
      var s := Stored(d, data[..2]);
      WordsStored(s.(regs := s.regs.(offset := s.regs.offset + 2)), data[2..], drive);
      EndedAnywhere(Stored(d, data), d.regs.offset + 2, drive);
    }
  }

  lemma OneMore(d: Device, data: seq<byte>, drive: Drive)
    requires Good(d) && Sane(drive) && |data| >= 2 && |data| % 2 == 0
    ensures Run(d, Words(data), drive) == Run(WriteData(d, data[0], data[1], drive), Words(data[2..]), drive)
    ensures |data| == 2 ==> Run(d, Words(data), drive) == WriteData(d, data[0], data[1], drive) && data == [data[0], data[1]]
  {
    hide Good, Sane, WriteData, Run, Perform;
    WordWritten(d, data[0], data[1], drive);
    OneAccess(d, DataWrite(data[0], data[1]), Words(data[2..]), drive);
    NoAccess(WriteData(d, data[0], data[1], drive), drive);
  }

  lemma OneAccess(d: Device, access: Access, rest: seq<Access>, drive: Drive)
    requires Good(d) && Sane(drive) && Allowed(access) && forall i :: 0 <= i < |rest| ==> Allowed(rest[i])
    ensures Run(d, [access] + rest, drive) == Run(Perform(d, access, drive), rest, drive)
  {
    hide Good, Sane, Perform;
    assert ([access] + rest)[1..] == rest;
  }

  lemma WordWritten(d: Device, lo: byte, hi: byte, drive: Drive)
    requires Good(d) && Sane(drive)
    ensures Perform(d, DataWrite(lo, hi), drive) == WriteData(d, lo, hi, drive)
  {
    hide Good, Sane, WriteData;
  }

  lemma NoAccess(d: Device, drive: Drive)
    requires Good(d) && Sane(drive)
    ensures Run(d, [], drive) == d
  {
  }

  // The host sets the feature register, gives the PACKET command and sends twelve bytes.
  function Send(d: Device, feature: bv8, packet: seq<byte>, drive: Drive): (r: Device)
    requires Good(d) && Sane(drive) && |packet| == 12
    ensures Good(r)
  {
    Run(d, [FeatureWrite(feature), CommandWrite(CMD_PACKET)] + Words(packet), drive)
  }

  // The device when the packet has come in.
  function Opened(d: Device, feature: bv8): (r: Device)
    requires Good(d)
    ensures Good(r)
  {
    WriteCommand(d.(regs := d.regs.(feature := feature)), CMD_PACKET)
  }

  function Received(d: Device, feature: bv8, packet: seq<byte>): (r: Device)
    requires Good(d) && |packet| == 12
    ensures Good(r)
  {
    OpenedFor(d, feature, packet);
    PacketReceived(Stored(Opened(d, feature), packet))
  }

  lemma OpenedFor(d: Device, feature: bv8, packet: seq<byte>)
    requires Good(d) && |packet| == 12
    ensures var r := Opened(d, feature);
            && Awaits(r, packet) && r.regs.state == CmdWrite && r.regs.offset == 0 && 12 <= |r.buffer|
            && r.regs.feature == feature && r.regs.wasReset == d.regs.wasReset
            && r.regs.sense == d.regs.sense && r.regs.mode == d.regs.mode
  {
    hide Mirrored, Asic.Cascaded;
  }

  // What the drive finds when it looks at the packet.
  lemma ReceivedIs(d: Device, feature: bv8, packet: seq<byte>)
    requires Good(d) && |packet| == 12
    ensures var r := Received(d, feature, packet);
            && r.regs.feature == feature && r.regs.wasReset == d.regs.wasReset
            && r.regs.sense == d.regs.sense && r.regs.mode == d.regs.mode
            && 12 <= |r.buffer| && r.buffer[..12] == packet && r.buffer[0] == packet[0]
  {
    hide Good, Opened, Off;
    OpenedFor(d, feature, packet);
    var r := Stored(Opened(d, feature), packet);
    assert r.buffer[..12] == packet;
    assert r.buffer[0] == r.buffer[..12][0];
  }

  // A packet sent to a drive that is not busy gets through to the command it holds.
  lemma PacketGetsThrough(d: Device, feature: bv8, packet: seq<byte>, drive: Drive)
    requires Good(d) && Sane(drive) && d.regs.CanWrite() && |packet| == 12
    ensures Send(d, feature, packet, drive) == PacketCommand(Received(d, feature, packet), drive)
  {
    hide Good, Sane, WriteCommand, Run, PacketCommand, PacketReceived, Stored, Words;
    var words := Words(packet);
    var d1 := d.(regs := d.regs.(feature := feature));
    FeatureTaken(d, feature, drive);
    OneAccess(d, FeatureWrite(feature), [CommandWrite(CMD_PACKET)] + words, drive);
    OneAccess(d1, CommandWrite(CMD_PACKET), words, drive);
    assert [FeatureWrite(feature), CommandWrite(CMD_PACKET)] + words
           == [FeatureWrite(feature)] + ([CommandWrite(CMD_PACKET)] + words);
    OpenedFor(d, feature, packet);
    WordsStored(Opened(d, feature), packet, drive);
    StoredState(Opened(d, feature), packet);
  }

  lemma FeatureTaken(d: Device, feature: bv8, drive: Drive)
    requires Good(d) && Sane(drive) && d.regs.CanWrite()
    ensures Good(d.(regs := d.regs.(feature := feature)))
    ensures Perform(d, FeatureWrite(feature), drive) == d.(regs := d.regs.(feature := feature))
  {
  }

  lemma StoredState(d: Device, data: seq<byte>)
    requires Good(d) && Writing(d) && d.regs.offset + |data| <= |d.buffer|
    ensures Stored(d, data).regs.state == d.regs.state
  {
  }

  // ---------------------------------------------------------------- READ SECTOR

  // The drive takes commands and has not been reset since the last one.
  predicate Attentive(d: Device) {
    Good(d) && d.regs.CanWrite() && !d.regs.wasReset
  }

  predicate ReadSector(packet: seq<byte>) {
    |packet| == 12 && packet[0] == PKT_READ_SECTOR
  }

  // What the packet asks for: the first sector, how many, and how they are to be read.
  function FirstSector(packet: seq<byte>): u32
    requires |packet| == 12
  {
    Wide(packet[2], packet[3], packet[4])
  }

  function SectorCount(packet: seq<byte>): u32
    requires |packet| == 12
  {
    Wide(packet[8], packet[9], packet[10])
  }

  function Asked(drive: Drive, packet: seq<byte>): seq<seq<byte>>
    requires |packet| == 12
  {
    Coming(drive, FirstSector(packet), packet[1], SectorCount(packet))
  }

  // The device with what the packet asks for in its registers.
  function Aimed(d: Device, feature: bv8, packet: seq<byte>): (r: Device)
    requires Good(d) && |packet| == 12
    ensures Good(r)
    ensures r.regs.lba == FirstSector(packet) && r.regs.readMode == packet[1] && r.regs.left == SectorCount(packet)
    ensures r.regs.feature == feature
  {
    ReceivedIs(d, feature, packet);
    var r := Received(d, feature, packet);
    r.(regs := r.regs.(lba := FirstSector(packet), left := SectorCount(packet), readMode := packet[1]))
  }

  lemma ReadSectorSent(d: Device, feature: bv8, packet: seq<byte>, drive: Drive)
    requires Attentive(d) && Sane(drive) && drive.disc && ReadSector(packet)
    ensures var next := ReadNextSector(Aimed(d, feature, packet), drive);
            |next.buffer| > 0 && Send(d, feature, packet, drive) == Remembered(next, next.buffer[0])
  {
    hide Sane, Mirrored, Asic.Cascaded, ReadNextSector, Received, WriteCommand, Send;
    PacketGetsThrough(d, feature, packet, drive);
    ReceivedIs(d, feature, packet);
  }

  // A READ SECTOR packet brings the sectors it asks for, up to the first that cannot be read,
  // when the drive transfers by DMA. When it does not, reading the data register to the end
  // brings the same bytes exactly if every one of those sectors has an even, non-zero number
  // of them.
  lemma PioLikeDma(d: Device, packet: seq<byte>, drive: Drive, n: nat)
    requires Attentive(d) && Sane(drive) && drive.disc && ReadSector(packet) && SectorCount(packet) > 0
    requires n >= |Flat(Asked(drive, packet))|
    ensures var sectors := Asked(drive, packet);
            && ReadDma(Send(d, FEAT_DMA, packet, drive), drive, n).1 == Flat(sectors)
            && (Drain(Send(d, 0, packet, drive), drive).1 == Flat(sectors) <==> EvenSectors(sectors))
  {
    hide Good, Sane, ReadDma, Drain, ReadNextSector, Flat, EvenSectors, PaddedSize, Coming, Send, Aimed, Remembered;
    var sectors := Asked(drive, packet);
    ReadSectorSent(d, FEAT_DMA, packet, drive);
    ReadSectorSent(d, 0, packet, drive);
    var byDma, byPio := Aimed(d, FEAT_DMA, packet), Aimed(d, 0, packet);
    CommandedDma(byDma, drive, ReadNextSector(byDma, drive).buffer[0], n);
    CommandedPio(byPio, drive, ReadNextSector(byPio, drive).buffer[0]);
    PaddedOnlyWhenUneven(sectors);
  }

  // Of a sector with one byte, reading the data register gives two.
  lemma OddSector(d: Device, packet: seq<byte>, drive: Drive, x: byte)
    requires Attentive(d) && Sane(drive) && drive.disc && ReadSector(packet) && SectorCount(packet) == 1
    requires drive.sector(FirstSector(packet), packet[1]) == Sector([x])
    ensures ReadDma(Send(d, FEAT_DMA, packet, drive), drive, 1).1 == [x]
    ensures Drain(Send(d, 0, packet, drive), drive).1 != [x]
  {
    hide Good, Sane, Attentive, ReadDma, Drain, Send, Flat, EvenSectors;
    NoMoreSectors(drive, Next(FirstSector(packet)), packet[1]);
    assert Asked(drive, packet) == [[x]];
    FlatOf([x], []);
    SizesOf([x], []);
    assert [[x]] == [[x]] + [] && [x] + [] == [x];
    PioLikeDma(d, packet, drive, 1);
  }

  lemma NoMoreSectors(drive: Drive, lba: u32, mode: u32)
    ensures Coming(drive, lba, mode, 0) == []
  {
  }

  // ---------------------------------------------------------------- answers from registers

  // With no more sectors to come, the data register gives what is left in the buffer, with a
  // byte behind it when that is an odd number.
  lemma {:induction false} DrainOne(d: Device, drive: Drive)
    requires Good(d) && Sane(drive) && d.regs.state == State.PioRead && !d.regs.UsesDma() && d.regs.left == 0
    requires 0 <= d.regs.offset <= d.regs.length <= |d.buffer|
    ensures var (r, data) := Drain(d, drive);
            var n := d.regs.length - d.regs.offset;
            |data| == Padded(n) && n <= |data| && data[..n] == d.buffer[d.regs.offset..d.regs.length]
    decreases d.regs.length - d.regs.offset
  {
    hide Good, Sane, ReadData, Drain, Bytes;
    PioRound(d, drive);
    DrainRound(d, drive);
    var o, n := d.regs.offset, d.regs.length;
    var d1 := ReadData(d, drive).0;
    if o + 2 < n {
      DrainOne(d1, drive);
      WordPrefix(d.buffer, o, n, Drain(d1, drive).1);
    } else {
      IdleDrains(d1, drive);
    }
  }

  lemma WordPrefix(buffer: seq<byte>, o: nat, n: nat, data: seq<byte>)
    requires o + 2 <= n <= |buffer| && n - o - 2 <= |data| && data[..n - o - 2] == buffer[o + 2..n]
    ensures ([buffer[o], buffer[o + 1]] + data)[..n - o] == buffer[o..n]
  {
    assert ([buffer[o], buffer[o + 1]] + data)[..n - o] == [buffer[o], buffer[o + 1]] + data[..n - o - 2];
  }

  // The device afterwards, and what comes back: by DMA as many bytes as asked for, or all
  // there are by PIO.
  function Fetched(d: Device, drive: Drive, n: nat): (r: (Device, seq<byte>))
    requires Good(d) && Sane(drive)
    ensures Good(r.0)
  {
    if d.regs.state == State.DmaRead then ReadDma(d, drive, n) else Drain(d, drive)
  }

  // Data the drive answers with comes back as it is.
  lemma ReplyComesBack(d: Device, data: seq<byte>, command: byte, drive: Drive, n: nat)
    requires Good(d) && Sane(drive) && |data| <= n && |data| <= MAX_SECTOR_SIZE
    ensures var back := Fetched(Remembered(Replied(d, data), command), drive, n).1;
            |data| <= |back| && back[..|data|] == data
  {
    hide Sane, Mirrored, Asic.Cascaded, ReadDma, Drain, Off;
    var r := Remembered(Replied(d, data), command);
    assert r.buffer[0..|data|] == data;
    if d.regs.UsesDma() {
      DmaDelivers(r, drive, n);
      NothingComes(r, drive);
      FlatOf([], []);
      TakeAll(data, n);
    } else {
      DrainOne(r, drive);
    }
  }

  // ---------------------------------------------------------------- SENSE

  predicate Sense(packet: seq<byte>) {
    |packet| == 12 && packet[0] == PKT_SENSE && packet[4] >= GDROM_SENSE_LENGTH
  }

  // The sense bytes and the registers tell of this error, for this sector.
  predicate Tells(d: Device, code: u16, lba: u32) {
    && |d.regs.sense| == GDROM_SENSE_LENGTH && d.regs.CanWrite() && d.regs.state == Idle
    && TellsOf(d.regs.sense, code, lba)
  }

  predicate TellsOf(sense: seq<byte>, code: u16, lba: u32) {
    && |sense| >= 9 && sense[0] == 0xF0 && Word(sense[2], sense[8]) == code
    && Wide(sense[5], sense[6], sense[7]) == lba % 0x100_0000
  }

  lemma SenseSent(d: Device, feature: bv8, packet: seq<byte>, drive: Drive, n: nat)
    requires Good(d) && d.regs.CanWrite() && Sane(drive) && Sense(packet) && n >= GDROM_SENSE_LENGTH
    ensures var back := Fetched(Send(d, feature, packet, drive), drive, n).1;
            GDROM_SENSE_LENGTH <= |back| && back[..GDROM_SENSE_LENGTH] == d.regs.sense
  {
    hide Sane, Mirrored, Asic.Cascaded, Replied, Received, WriteCommand, Send, Fetched;
    PacketGetsThrough(d, feature, packet, drive);
    ReceivedIs(d, feature, packet);
    var r := Received(d, feature, packet);
    assert d.regs.sense[..GDROM_SENSE_LENGTH] == d.regs.sense;
    ReplyComesBack(r, d.regs.sense, Replied(r, d.regs.sense).buffer[0], drive, n);
  }

  lemma BytesOf(code: u16, lba: u32)
    ensures Word(code % 0x100, code / 0x100) == code
    ensures Wide(lba / 0x1_0000 % 0x100, lba / 0x100 % 0x100, lba % 0x100) == lba % 0x100_0000
  {
    var a: int := lba;
    var b, c, d := a / 0x100, a / 0x1_0000, a / 0x100_0000;
    assert a == 0x100 * b + a % 0x100;
    assert b == 0x100 * c + b % 0x100;
    assert c == 0x100 * d + c % 0x100;
    assert a == 0x100_0000 * d + a % 0x100_0000;
  }

  lemma ResultRefuses(d: Device, code: u16)
    requires Good(d) && code != ERR_OK
    ensures var r := SetPacketResult(d, code);
            && r.regs.CanWrite() && r.regs.state == Idle
            && r.regs.sense == d.regs.sense[0 := 0xF0][2 := code % 0x100][8 := code / 0x100]
  {
    hide Mirrored, Asic.Cascaded;
  }

  // A sector that cannot be read leaves its error and its number in the sense bytes.
  lemma FailureTold(d: Device, drive: Drive, code: u16)
    requires Good(d) && Sane(drive) && drive.sector(d.regs.lba, d.regs.readMode) == Failure(code)
    ensures Tells(ReadNextSector(d, drive), code, d.regs.lba)
  {
    hide Mirrored, Asic.Cascaded, SetPacketResult, Word, Wide;
    assert SaneRead(drive.sector(d.regs.lba, d.regs.readMode));
    ResultRefuses(d, code);
    BytesOf(code, d.regs.lba);
  }

  // The first of the sectors asked for that cannot be read, if there is one.
  datatype Trouble = NoTrouble | Trouble(lba: u32, code: u16)

  function FirstTrouble(drive: Drive, lba: u32, mode: u32, left: u32): Trouble
    decreases left
  {
    if left == 0 then NoTrouble
    else
      match drive.sector(lba, mode)
      case Failure(code) => Trouble(lba, code)
      case Sector(_) => FirstTrouble(drive, Next(lba), mode, left - 1)
  }

  function TroubleFor(d: Device, drive: Drive): Trouble {
    FirstTrouble(drive, d.regs.lba, d.regs.readMode, d.regs.left)
  }

  // Reading the next sector runs into trouble, or leaves it for later.
  lemma TroubleNext(d: Device, drive: Drive)
    requires Good(d) && Sane(drive) && d.regs.left > 0
    ensures var r := ReadNextSector(d, drive);
            match drive.sector(d.regs.lba, d.regs.readMode)
            case Failure(code) => TroubleFor(d, drive) == Trouble(d.regs.lba, code) && Tells(r, code, d.regs.lba)
            case Sector(_) => TroubleFor(d, drive) == TroubleFor(r, drive) && r.regs.left < d.regs.left
  {
    hide Tells, Mirrored, Asic.Cascaded, SetPacketResult;
    match drive.sector(d.regs.lba, d.regs.readMode) {
      case Failure(code) => FailureTold(d, drive, code);
      case Sector(_) =>
    }
  }

  lemma {:induction false} DmaTells(d: Device, drive: Drive, n: nat)
    requires Good(d) && Sane(drive) && d.regs.state == State.DmaRead && d.regs.UsesDma()
    requires n > |Flat(ComingFor(d, drive))| + d.regs.length - d.regs.offset
    requires TroubleFor(d, drive).Trouble?
    ensures Tells(ReadDma(d, drive, n).0, TroubleFor(d, drive).code, TroubleFor(d, drive).lba)
    decreases d.regs.left
  {
    hide Good, Sane, Tells, ReadDma, ReadNextSector, DmaDone, Flat, Coming, FirstTrouble;
    Range(d);
    NoneLeft(d, drive);
    DmaRound(d, drive, n);
    var m := d.regs.length - d.regs.offset;
    var d1 := Advance(d, m);
    var next := ReadNextSector(d1, drive);
    TroubleNext(d1, drive);
    NextSectorBrings(d1, drive);
    if next.regs.state == State.DmaRead {
      FlatOf(next.buffer[..next.regs.length], ComingFor(next, drive));
      DmaTells(next, drive, n - m);
    } else {
      IdleReads(next, drive, n - m);
    }
  }

  lemma NoneLeft(d: Device, drive: Drive)
    ensures d.regs.left == 0 ==> TroubleFor(d, drive) == NoTrouble
  {
  }

  lemma LastWord(d: Device, drive: Drive)
    requires Good(d) && Sane(drive) && d.regs.state == State.PioRead && d.regs.offset + 2 >= d.regs.length && d.regs.left > 0
    ensures var d1 := PioDone(d);
            && ReadData(d, drive).0 == ReadNextSector(d1, drive)
            && d1.regs.lba == d.regs.lba && d1.regs.readMode == d.regs.readMode && d1.regs.left == d.regs.left
  {
    hide Sane, Mirrored, Asic.Cascaded, ReadNextSector, Off;
  }

  lemma {:induction false} DrainTells(d: Device, drive: Drive)
    requires Good(d) && Sane(drive) && d.regs.state == State.PioRead && !d.regs.UsesDma()
    requires d.regs.offset <= d.regs.length && TroubleFor(d, drive).Trouble?
    ensures Tells(Drain(d, drive).0, TroubleFor(d, drive).code, TroubleFor(d, drive).lba)
    decreases d.regs.left, d.regs.length - d.regs.offset
  {
    hide Good, Sane, Tells, ReadData, ReadNextSector, Coming, FirstTrouble, PioDone;
    NoneLeft(d, drive);
    PioRound(d, drive);
    var d1 := ReadData(d, drive).0;
    if d.regs.offset + 2 < d.regs.length {
      DrainTells(d1, drive);
    } else {
      LastWord(d, drive);
      TroubleNext(PioDone(d), drive);
      if d1.regs.state == State.PioRead {
        DrainTells(d1, drive);
      } else {
        IdleDrains(d1, drive);
      }
    }
  }

  lemma TransferTells(d: Device, command: byte, drive: Drive, n: nat)
    requires Good(d) && Sane(drive) && d.regs.left > 0 && n > |Flat(ComingFor(d, drive))|
    requires TroubleFor(d, drive).Trouble?
    ensures Tells(Fetched(Remembered(ReadNextSector(d, drive), command), drive, n).0,
                  TroubleFor(d, drive).code, TroubleFor(d, drive).lba)
  {
    hide Good, Sane, ReadDma, Drain, ReadNextSector, Flat, Coming, FirstTrouble, TellsOf;
    TroubleNext(d, drive);
    NextSectorBrings(d, drive);
    var r := Remembered(ReadNextSector(d, drive), command);
    if r.regs.state == State.DmaRead {
      FlatOf(r.buffer[..r.regs.length], ComingFor(r, drive));
      DmaTells(r, drive, n);
    } else if r.regs.state == State.PioRead {
      DrainTells(r, drive);
    } else {
      IdleDrains(r, drive);
    }
  }

  // When a READ SECTOR packet has run into a sector that cannot be read, however it
  // transfers, SENSE brings back the error of that sector and its number.
  lemma FailureComesBack(d: Device, feature: bv8, packet: seq<byte>, feature': bv8, sense: seq<byte>, drive: Drive, n: nat)
    requires Attentive(d) && Sane(drive) && drive.disc && ReadSector(packet) && SectorCount(packet) > 0 && Sense(sense)
    requires n > |Flat(Asked(drive, packet))|
    requires FirstTrouble(drive, FirstSector(packet), packet[1], SectorCount(packet)).Trouble?
    ensures var trouble := FirstTrouble(drive, FirstSector(packet), packet[1], SectorCount(packet));
            var after := Fetched(Send(d, feature, packet, drive), drive, n).0;
            TellsOf(Fetched(Send(after, feature', sense, drive), drive, n + GDROM_SENSE_LENGTH).1, trouble.code, trouble.lba)
  {
    hide Good, Sane, Fetched, ReadNextSector, Flat, Coming, FirstTrouble, TellsOf, Send, Aimed, Remembered;
    ReadSectorSent(d, feature, packet, drive);
    var aimed := Aimed(d, feature, packet);
    TransferTells(aimed, ReadNextSector(aimed, drive).buffer[0], drive, n);
    var after := Fetched(Send(d, feature, packet, drive), drive, n).0;
    SenseSent(after, feature', sense, drive, n + GDROM_SENSE_LENGTH);
    TellsPrefix(Fetched(Send(after, feature', sense, drive), drive, n + GDROM_SENSE_LENGTH).1, TroubleFor(aimed, drive));
  }

  lemma TellsPrefix(back: seq<byte>, trouble: Trouble)
    requires |back| >= GDROM_SENSE_LENGTH && trouble.Trouble?
    ensures TellsOf(back, trouble.code, trouble.lba) <==> TellsOf(back[..GDROM_SENSE_LENGTH], trouble.code, trouble.lba)
  {
  }

  // ---------------------------------------------------------------- the mode table

  // MODE SELECT or MODE SENSE from a place inside the table.
  predicate Mode(packet: seq<byte>, command: byte) {
    |packet| == 12 && packet[0] == command && packet[2] < GDROM_MODE_LENGTH
  }

  function Covered(packet: seq<byte>): nat
    requires |packet| == 12 && packet[2] < GDROM_MODE_LENGTH
  {
    ModeLength(packet[2], packet[4])
  }

  // MODE SELECT, and the data it asks for.
  function WriteMode(d: Device, packet: seq<byte>, data: seq<byte>, drive: Drive): (r: Device)
    requires Good(d) && Sane(drive) && |packet| == 12 && |data| % 2 == 0
    ensures Good(r)
  {
    Run(Send(d, 0, packet, drive), Words(data), drive)
  }

  // A table with these bytes from a place on, but only in its first ten.
  function Changed(mode: seq<byte>, first: nat, data: seq<byte>): (r: seq<byte>)
    requires |mode| == GDROM_MODE_LENGTH && first + |data| <= GDROM_MODE_LENGTH
    ensures |r| == GDROM_MODE_LENGTH
    ensures forall i :: 0 <= i < |r| ==> r[i] == if first <= i < 10 && i < first + |data| then data[i - first] else mode[i]
  {
    seq(GDROM_MODE_LENGTH, i requires 0 <= i < GDROM_MODE_LENGTH =>
      if first <= i < 10 && i < first + |data| then data[i - first] else mode[i])
  }

  // The drive waits for data for its mode table.
  predicate ModeOpen(d: Device, first: nat, n: nat) {
    && Good(d) && d.regs.state == PioWrite && d.regs.offset == 0 && d.regs.length == n
    && first + n <= GDROM_MODE_LENGTH && d.regs.lba == first
    && d.regs.lastCommand == PKT_MODE_SELECT && d.regs.status == 0x58 && !d.regs.wasReset && d.regs.left == 0
  }

  lemma ModeOpened(d: Device, packet: seq<byte>, drive: Drive)
    requires Attentive(d) && Sane(drive) && Mode(packet, PKT_MODE_SELECT)
    ensures var r := Send(d, 0, packet, drive); ModeOpen(r, packet[2], Covered(packet)) && r.regs.mode == d.regs.mode
  {
    hide Sane, Mirrored, Asic.Cascaded, Received, WriteCommand, Send;
    PacketGetsThrough(d, 0, packet, drive);
    ReceivedIs(d, 0, packet);
  }

  lemma ModeChanged(mode: seq<byte>, first: nat, buffer: seq<byte>, data: seq<byte>)
    requires |mode| == GDROM_MODE_LENGTH && first + |data| <= GDROM_MODE_LENGTH && |data| <= |buffer| && buffer[..|data|] == data
    ensures first >= 10 ==> Changed(mode, first, data) == mode
    ensures first < 10 ==>
              var k := if first + |data| > 10 then 10 - first else |data|;
              Changed(mode, first, data) == mode[..first] + buffer[..k] + mode[first + k..]
  {
    var k := if first + |data| > 10 then 10 - first else |data|;
    if first < 10 {
      assert buffer[..k] == data[..k];
    }
  }

  lemma ModeDone(d: Device, first: nat, n: nat)
    requires ModeOpen(d, first, n)
    ensures var r := PioDone(d);
            && r.buffer == d.buffer && r.regs.CanWrite() && !r.regs.wasReset && r.regs.mode == d.regs.mode
            && r.regs.lastCommand == PKT_MODE_SELECT && r.regs.lba == first && r.regs.length == n
  {
    hide Mirrored, Asic.Cascaded;
  }

  lemma ModeStored(d: Device, first: nat, n: nat, data: seq<byte>, drive: Drive)
    requires ModeOpen(d, first, n) && Sane(drive) && n <= |data| <= |d.buffer|
    ensures var r := Ended(Stored(d, data), drive);
            Attentive(r) && r.regs.mode == Changed(d.regs.mode, first, data[..n])
  {
    hide Sane, Mirrored, Asic.Cascaded, PioDone, Changed;
    var s := Stored(d, data);
    assert s.buffer[..n] == data[..n];
    ModeDone(s, first, n);
    ModeChanged(d.regs.mode, first, s.buffer, data[..n]);
  }

  lemma ModeSelected(d: Device, packet: seq<byte>, data: seq<byte>, drive: Drive)
    requires Attentive(d) && Sane(drive) && Mode(packet, PKT_MODE_SELECT) && |data| == Padded(Covered(packet))
    ensures Covered(packet) <= |data| && |data| % 2 == 0
    ensures var r := WriteMode(d, packet, data, drive);
            Attentive(r) && r.regs.mode == Changed(d.regs.mode, packet[2], data[..Covered(packet)])
  {
    hide Sane, Mirrored, Asic.Cascaded, Send, Run, Ended, Stored, Changed;
    var ready := Send(d, 0, packet, drive);
    ModeOpened(d, packet, drive);
    WordsStored(ready, data, drive);
    ModeStored(ready, packet[2], Covered(packet), data, drive);
  }

  lemma ModeSensed(d: Device, feature: bv8, packet: seq<byte>, drive: Drive, n: nat)
    requires Attentive(d) && Sane(drive) && Mode(packet, PKT_MODE_SENSE) && n >= Covered(packet)
    ensures var back := Fetched(Send(d, feature, packet, drive), drive, n).1;
            Covered(packet) <= |back| && back[..Covered(packet)] == d.regs.mode[packet[2]..packet[2] + Covered(packet)]
  {
    hide Sane, Mirrored, Asic.Cascaded, Replied, Received, WriteCommand, Send, Fetched;
    PacketGetsThrough(d, feature, packet, drive);
    ReceivedIs(d, feature, packet);
    var r := Received(d, feature, packet);
    var data := d.regs.mode[packet[2]..packet[2] + Covered(packet)];
    ReplyComesBack(r, data, Replied(r, data).buffer[0], drive, n);
  }

  // What MODE SELECT has written to the first ten bytes of the table, MODE SENSE brings back,
  // and all the others as they were.
  lemma ModeRoundTrip(d: Device, select: seq<byte>, data: seq<byte>, feature: bv8, sense: seq<byte>, drive: Drive, n: nat)
    requires Attentive(d) && Sane(drive) && Mode(select, PKT_MODE_SELECT) && |data| == Padded(Covered(select))
    requires Mode(sense, PKT_MODE_SENSE) && n >= Covered(sense)
    ensures Covered(select) <= |data| && |data| % 2 == 0
    ensures var back := Fetched(Send(WriteMode(d, select, data, drive), feature, sense, drive), drive, n).1;
            && Covered(sense) <= |back|
            && forall i: nat :: i < Covered(sense) ==>
                 var place := sense[2] as int + i;
                 back[i] == if select[2] <= place < 10 && place < select[2] as int + Covered(select)
                            then data[place - select[2]] else d.regs.mode[place]
  {
    hide Sane, Good, Send, WriteMode, Fetched;
    ModeSelected(d, select, data, drive);
    var r := WriteMode(d, select, data, drive);
    ModeSensed(r, feature, sense, drive, n);
    var back := Fetched(Send(r, feature, sense, drive), drive, n).1;
    forall i: nat | i < Covered(sense) ensures back[i] == r.regs.mode[sense[2] as int + i] {
      assert back[i] == back[..Covered(sense)][i];
    }
  }
}
