// The GD-ROM drive behind its IDE registers, as a value: what each register access does to
// the registers, the data buffer and the pending events, and what a transfer delivers.
module IdeDevice {
  import opened Asic

  const EVENT_IDE: bv8 := 32

  const MAX_SECTOR_SIZE := 2352
  const GDROM_SENSE_LENGTH := 10
  const GDROM_MODE_LENGTH := 32

  const STATUS_BSY: bv8 := 0x80
  const STATUS_DRQ: bv8 := 0x08
  const STATUS_CHK: bv8 := 0x01
  const FEAT_DMA: bv8 := 0x01

  const COUNT_CD := 0x01
  const COUNT_IO := 0x02

  const CMD_NOP := 0x00
  const CMD_RESET_DEVICE := 0x08
  const CMD_PACKET := 0xA0
  const CMD_SET_FEATURE := 0xEF

  const PKT_TEST_READY := 0x00
  const PKT_DRIVE_STATUS := 0x10
  const PKT_MODE_SENSE := 0x11
  const PKT_MODE_SELECT := 0x12
  const PKT_SENSE := 0x13
  const PKT_READ_TOC := 0x14
  const PKT_SESSION_INFO := 0x15
  const PKT_PLAY_AUDIO := 0x20
  const PKT_READ_SECTOR := 0x30
  const PKT_STATUS := 0x40
  const PKT_SPIN_UP := 0x70
  const PKT_71 := 0x71

  const ERR_OK := 0x0000
  const ERR_NODISC := 0x3A02
  const ERR_BADCMD := 0x2005
  const ERR_BADFIELD := 0x2405
  const ERR_RESET := 0x2906

  type byte = x: int | 0 <= x < 0x100
  type u16 = x: int | 0 <= x < 0x1_0000
  type u32 = x: int | 0 <= x < 0x1_0000_0000

  // What the disc gives for a sector: at most a whole audio sector of bytes, or a code.
  datatype Read = Sector(data: seq<byte>) | Failure(code: u16)

  // What the drive answers to the packet commands that only report something, given the
  // packet and the registers at the time.
  datatype Answer = Report(data: seq<byte>) | Refusal(code: u16) | BadField | Silence

  datatype Drive = Drive(disc: bool, sector: (u32, u32) -> Read, answer: (seq<byte>, Registers) -> Answer, play: seq<byte> -> u16)

  ghost predicate Sane(drive: Drive) {
    && (forall lba: u32, mode: u32 :: SaneRead(drive.sector(lba, mode)))
    && (forall cmd: seq<byte>, regs: Registers :: SaneAnswer(drive.answer(cmd, regs)))
  }

  predicate SaneRead(r: Read) {
    match r
    case Sector(data) => |data| <= MAX_SECTOR_SIZE
    case Failure(code) => code != ERR_OK
  }

  predicate SaneAnswer(a: Answer) {
    match a
    case Report(data) => |data| <= MAX_SECTOR_SIZE
    case Refusal(code) => code != ERR_OK
    case _ => true
  }

  datatype State = Idle | CmdWrite | PioRead | PioWrite | DmaRead | DmaWrite | Busy

  datatype Registers = Registers(
    status: bv8, control: bv8, error: byte, feature: bv8, count: byte,
    lba0: byte, lba1: byte, lba2: byte, device: byte, command: byte,
    intrq: bool, wasReset: bool, state: State, lastCommand: byte,
    sense: seq<byte>, mode: seq<byte>,
    offset: int, length: int,
    lastTrack: byte, lba: u32, readMode: u32, left: u32)
  {
    predicate IrqEnabled() {
      control & 0x02 == 0
    }

    predicate UsesDma() {
      feature & FEAT_DMA != 0
    }

    predicate CanWrite() {
      status & STATUS_BSY == 0
    }
  }

  // pending holds the words of the interrupt multiplexer.
  datatype Device = Device(regs: Registers, buffer: seq<byte>, pending: Words)

  function Off(status: bv8, bits: bv8): bv8 {
    status & !bits
  }

  // ---------------------------------------------------------------- invariants

  // The offset stays inside the buffer while data is moving, and inside what is being moved.
  predicate Bounded(d: Device) {
    && |d.buffer| == MAX_SECTOR_SIZE
    && |d.regs.sense| == GDROM_SENSE_LENGTH && |d.regs.mode| == GDROM_MODE_LENGTH
    && match d.regs.state
       case CmdWrite => 0 <= d.regs.offset < d.regs.length == 12 && d.regs.offset % 2 == 0
       case PioRead => Moving(d.regs) && d.regs.offset % 2 == 0
       case PioWrite => Moving(d.regs) && d.regs.offset % 2 == 0
       case DmaRead => 0 <= d.regs.offset <= d.regs.length <= MAX_SECTOR_SIZE
       case _ => true
  }

  predicate Moving(r: Registers) {
    0 <= r.offset <= r.length <= MAX_SECTOR_SIZE && (r.offset < r.length || r.length == 0)
  }

  // The event of the drive is pending in the multiplexer exactly when the interrupt request
  // is up and the control register lets it through.
  predicate Mirrored(d: Device) {
    Pending(d.pending, EVENT_IDE) <==> d.regs.intrq && d.regs.IrqEnabled()
  }

  predicate Good(d: Device) {
    Bounded(d) && Mirrored(d) && Cascaded(d.pending)
  }

  lemma RaisedMirror(pending: Words)
    requires Cascaded(pending)
    ensures Pending(Raised(pending, EVENT_IDE), EVENT_IDE) && Cascaded(Raised(pending, EVENT_IDE))
  {
  }

  lemma ClearedMirror(pending: Words)
    requires Cascaded(pending)
    ensures !Pending(Cleared(pending, EVENT_IDE), EVENT_IDE) && Cascaded(Cleared(pending, EVENT_IDE))
  {
  }

  // What the mirror and the bounds depend on has not changed, or has stayed in bounds.
  lemma StillGood(d: Device, r: Device)
    requires Good(d) && Bounded(r) && r.pending == d.pending
    requires r.regs.intrq == d.regs.intrq && r.regs.control == d.regs.control
    ensures Good(r)
  {
  }

  // ---------------------------------------------------------------- interrupt request

  function RaiseInterrupt(d: Device): (r: Device)
    requires Good(d)
    ensures Good(r) && r.regs == d.regs.(intrq := true) && r.buffer == d.buffer
    ensures Pending(r.pending, EVENT_IDE) <==> d.regs.IrqEnabled()
  {
    RaisedMirror(d.pending);
    if d.regs.intrq then d
    else d.(regs := d.regs.(intrq := true),
            pending := if d.regs.IrqEnabled() then Raised(d.pending, EVENT_IDE) else d.pending)
  }

  function ClearInterrupt(d: Device): (r: Device)
    requires Good(d)
    ensures Good(r) && r.regs == d.regs.(intrq := false) && r.buffer == d.buffer
    ensures !Pending(r.pending, EVENT_IDE)
  {
    ClearedMirror(d.pending);
    if !d.regs.intrq then d
    else d.(regs := d.regs.(intrq := false),
            pending := if d.regs.IrqEnabled() then Cleared(d.pending, EVENT_IDE) else d.pending)
  }

  function WriteControl(d: Device, value: bv8): (r: Device)
    requires Good(d)
    ensures Good(r) && r.regs == d.regs.(control := value) && r.buffer == d.buffer
  {
    RaisedMirror(d.pending);
    ClearedMirror(d.pending);
    var pending :=
      if d.regs.IrqEnabled() then
        if value & 0x02 != 0 && d.regs.intrq then Cleared(d.pending, EVENT_IDE) else d.pending
      else
        if value & 0x02 == 0 && d.regs.intrq then Raised(d.pending, EVENT_IDE) else d.pending;
    d.(regs := d.regs.(control := value), pending := pending)
  }

  function ReadStatus(d: Device): (r: Device)
    requires Good(d)
    ensures Good(r) && r.regs.status == d.regs.status && r.buffer == d.buffer
    ensures r.regs.intrq <==> d.regs.intrq && d.regs.status & STATUS_BSY != 0
  {
    if d.regs.status & STATUS_BSY == 0 then ClearInterrupt(d) else d
  }

  // ---------------------------------------------------------------- state transitions

  // The sense bytes and the error register as a packet command leaves them.
  function Sensed(d: Device, code: u16): (r: Device)
    requires Good(d)
    ensures Good(r)
  {
    d.(regs := d.regs.(sense := d.regs.sense[0 := 0xF0][2 := code % 0x100][8 := code / 0x100],
                       error := code % 0x10 * 0x10, count := 3))
  }

  function SetPacketResult(d: Device, code: u16): (r: Device)
    requires Good(d)
    ensures Good(r)
    ensures r.buffer == d.buffer && r.regs.left == d.regs.left
  {
    var d1 := Sensed(d, code);
    if code != ERR_OK then RaiseInterrupt(d1.(regs := d1.regs.(status := 0x51, state := Idle)))
    else d1.(regs := d1.regs.(status := Off(d1.regs.status, STATUS_BSY | STATUS_CHK)))
  }

  function StartCommand(d: Device): (r: Device)
    requires Good(d)
    ensures Good(r)
  {
    d.(regs := d.regs.(state := CmdWrite, status := 0x58, error := (d.regs.feature & 0x03) as int,
                       count := COUNT_CD, offset := 0, length := 12))
  }

  function StartRead(d: Device, length: nat, dma: bool): (r: Device)
    requires Good(d) && length <= MAX_SECTOR_SIZE
    ensures Good(r)
    ensures r.buffer == d.buffer && r.regs.left == d.regs.left
    ensures r.regs.offset == 0 && r.regs.length == length && r.regs.state == if dma then DmaRead else PioRead
  {
    var regs := d.regs.(count := COUNT_IO, length := length, offset := 0);
    if dma then d.(regs := regs.(state := DmaRead, status := 0xD0))
    else RaiseInterrupt(d.(regs := regs.(state := PioRead, status := 0x58, lba1 := length % 0x100, lba2 := length / 0x100)))
  }

  function StartWrite(d: Device, length: nat, dma: bool): (r: Device)
    requires Good(d) && length <= MAX_SECTOR_SIZE
    ensures Good(r)
  {
    var regs := d.regs.(count := 0, length := length, offset := 0);
    if dma then d.(regs := regs.(state := DmaWrite, status := 0xD0))
    else RaiseInterrupt(d.(regs := regs.(state := PioWrite, status := 0x58, lba1 := length % 0x100, lba2 := length / 0x100)))
  }

  function StartPacketRead(d: Device, length: nat, sectors: u32): (r: Device)
    requires Good(d) && length <= MAX_SECTOR_SIZE
    ensures Good(r)
  {
    var d1 := SetPacketResult(d.(regs := d.regs.(left := sectors)), ERR_OK);
    StartRead(d1, length, d1.regs.UsesDma())
  }

  function StartPacketWrite(d: Device, length: nat, sectors: u32): (r: Device)
    requires Good(d) && length <= MAX_SECTOR_SIZE
    ensures Good(r)
  {
    var d1 := SetPacketResult(d.(regs := d.regs.(left := sectors)), ERR_OK);
    StartWrite(d1, length, d1.regs.UsesDma())
  }

  function Fill(buffer: seq<byte>, data: seq<byte>): (r: seq<byte>)
    requires |data| <= |buffer|
    ensures |r| == |buffer| && r[..|data|] == data
  {
    data + buffer[|data|..]
  }

  function Next(x: u32): u32 {
    if x == 0xFFFF_FFFF then 0 else x + 1
  }

  function Previous(x: u32): u32 {
    if x == 0 then 0xFFFF_FFFF else x - 1
  }

  // The sense bytes that tell the address of a sector.
  function Located(d: Device, lba: u32): (r: Device)
    requires Good(d)
    ensures Good(r) && r.regs.left == d.regs.left && r.regs.state == d.regs.state
  {
    d.(regs := d.regs.(sense := d.regs.sense[5 := lba / 0x1_0000 % 0x100][6 := lba / 0x100 % 0x100][7 := lba % 0x100]))
  }

  function ReadNextSector(d: Device, drive: Drive): (r: Device)
    requires Good(d) && Sane(drive)
    ensures Good(r)
    ensures d.regs.left > 0 && r.regs.state == Idle ==> r.regs.left == d.regs.left
    ensures d.regs.left > 0 && r.regs.state != Idle ==> r.regs.left == d.regs.left - 1
  {
    var read := drive.sector(d.regs.lba, d.regs.readMode);
    assert SaneRead(read);
    match read
    case Failure(code) =>
      Located(SetPacketResult(d, code), d.regs.lba)
    case Sector(data) =>
      var regs := d.regs.(lba := Next(d.regs.lba), left := Previous(d.regs.left));
      StartRead(d.(regs := regs, buffer := Fill(d.buffer, data)), |data|, regs.UsesDma())
  }

  // ---------------------------------------------------------------- data register and DMA

  function Word(lo: byte, hi: byte): u16 {
    lo + 0x100 * hi
  }

  // A word has been read or written to the end of what was being moved.
  function PioDone(d: Device): (r: Device)
    requires Good(d)
    ensures Good(r) && r.regs.left == d.regs.left
  {
    RaiseInterrupt(d.(regs := d.regs.(state := Idle, status := Off(d.regs.status, STATUS_DRQ), offset := -1, count := 3)))
  }

  function ReadData(d: Device, drive: Drive): (r: (Device, u16))
    requires Good(d) && Sane(drive)
    ensures Good(r.0)
  {
    if d.regs.state != PioRead then (d, 0xFFFF)
    else
      var word := Word(d.buffer[d.regs.offset], d.buffer[d.regs.offset + 1]);
      var offset := d.regs.offset + 2;
      if offset < d.regs.length then (d.(regs := d.regs.(offset := offset)), word)
      else
        var d1 := PioDone(d);
        (if d1.regs.left > 0 then ReadNextSector(d1, drive) else d1, word)
  }

  function DmaDone(d: Device): (r: Device)
    requires Good(d)
    ensures Good(r)
  {
    RaiseInterrupt(d.(regs := d.regs.(offset := -1, state := Idle, status := 0x50, count := 3)))
  }

  function Advance(d: Device, n: nat): (r: Device)
    requires Good(d) && d.regs.state == DmaRead && d.regs.offset + n <= d.regs.length
    ensures Good(r)
  {
    d.(regs := d.regs.(offset := d.regs.offset + n))
  }

  // A DMA read of length bytes: the device afterwards, and the bytes that went to memory.
  function ReadDma(d: Device, drive: Drive, length: nat): (r: (Device, seq<byte>))
    requires Good(d) && Sane(drive)
    ensures Good(r.0) && |r.1| <= length
    decreases d.regs.left, length, d.regs.state == DmaRead
  {
    if length == 0 || d.regs.state != DmaRead then (d, [])
    else
      var remaining := d.regs.length - d.regs.offset;
      var n := if length < remaining then length else remaining;
      var data := d.buffer[d.regs.offset..d.regs.offset + n];
      var d1 := Advance(d, n);
      if length < remaining then (d1, data)
      else if d.regs.left > 0 then
        var (d2, rest) := ReadDma(ReadNextSector(d1, drive), drive, length - n);
        (d2, data + rest)
      else (DmaDone(d1), data)
  }

  // ---------------------------------------------------------------- commands

  function Wide(a: byte, b: byte, c: byte): u32 {
    a * 0x1_0000 + b * 0x100 + c
  }

  const DefaultMode: seq<byte> := [
    0x00, 0x00, 0x00, 0x00, 0x00, 0xb4, 0x19, 0x00, 0x00, 0x08,
    0x53, 0x45, 0x20, 0x20, 0x20, 0x20, 0x20, 0x20,
    0x52, 0x65, 0x76, 0x20, 0x36, 0x2e, 0x34, 0x32, 0x39, 0x39, 0x30, 0x33, 0x31, 0x36]

  // The registers after ide_init.
  const PowerOn := Registers(
    0x00, 0, 0x01, 0, 0x01, 0x81, 0x14, 0xeb, 0x00, 0x00, false, true, Idle, 0,
    [0, 0, 0, 0, 0, 0, 0, 0, 0, 0], DefaultMode, -1, -1, 1, 150, 0x28, 0)

  // A reset leaves the control register, the last commands and the buffer as they are.
  function Reset(d: Device): (r: Device)
    requires Good(d)
    ensures Good(r)
  {
    var d1 := ClearInterrupt(d);
    d1.(regs := PowerOn.(control := d1.regs.control, command := d1.regs.command, lastCommand := d1.regs.lastCommand))
  }

  // The part of the mode table a command asks for, cut off at its end.
  function ModeLength(first: byte, length: byte): nat
    requires first < GDROM_MODE_LENGTH
  {
    if first + length > GDROM_MODE_LENGTH then GDROM_MODE_LENGTH - first else length
  }

  function SetError(d: Device, code: u16): (r: Device)
    requires Good(d)
    ensures Good(r)
  {
    d.(regs := d.regs.(status := 0x51, error := code % 0x100))
  }

  function Replied(d: Device, data: seq<byte>): (r: Device)
    requires Good(d) && |data| <= MAX_SECTOR_SIZE
    ensures Good(r)
  {
    StartPacketRead(d.(buffer := Fill(d.buffer, data)), |data|, 0)
  }

  // A command answered without data, with the interrupt in any case.
  function Acknowledged(d: Device, code: u16): (r: Device)
    requires Good(d)
    ensures Good(r)
  {
    RaiseInterrupt(SetPacketResult(d, code))
  }

  function Ready(d: Device): (r: Device)
    requires Good(d)
    ensures Good(r)
  {
    d.(regs := d.regs.(status := 0x50))
  }

  // MODE SELECT: the table from here on is to be written.
  function SelectMode(d: Device, first: byte, length: byte): (r: Device)
    requires Good(d) && first < GDROM_MODE_LENGTH
    ensures Good(r)
  {
    StartPacketWrite(d.(regs := d.regs.(lba := first)), ModeLength(first, length), 0)
  }

  // READ SECTOR
  function ReadSectors(d: Device, lba: u32, count: u32, mode: u32, drive: Drive): (r: Device)
    requires Good(d) && Sane(drive)
    ensures Good(r)
  {
    ReadNextSector(d.(regs := d.regs.(lba := lba, left := count, readMode := mode)), drive)
  }

  function GiveAnswer(d: Device, answer: Answer): (r: Device)
    requires Good(d) && SaneAnswer(answer)
    ensures Good(r)
  {
    match answer
    case Report(data) => Replied(d, data)
    case Refusal(code) => SetPacketResult(d, code)
    case BadField => SetError(d, ERR_BADFIELD)
    case Silence => d
  }

  predicate NeedsDisc(command: byte) {
    command in {PKT_TEST_READY, PKT_READ_SECTOR, PKT_SPIN_UP, PKT_STATUS, PKT_71}
  }

  // The commands that carry on to the end, where the command is remembered.
  function PacketBody(d: Device, drive: Drive): (r: Device)
    requires Good(d) && Sane(drive)
    ensures Good(r)
  {
    var cmd := d.buffer[..12];
    if cmd[0] == PKT_TEST_READY then Ready(Acknowledged(d, ERR_OK))
    else if cmd[0] == PKT_MODE_SENSE then
      if cmd[2] >= GDROM_MODE_LENGTH then SetError(d, ERR_BADFIELD)
      else Replied(d, d.regs.mode[cmd[2]..cmd[2] + ModeLength(cmd[2], cmd[4])])
    else if cmd[0] == PKT_MODE_SELECT then
      if cmd[2] >= GDROM_MODE_LENGTH then SetError(d, ERR_BADFIELD)
      else SelectMode(d, cmd[2], cmd[4])
    else if cmd[0] == PKT_SENSE then
      Replied(d, d.regs.sense[..if cmd[4] > GDROM_SENSE_LENGTH then GDROM_SENSE_LENGTH else cmd[4]])
    else if cmd[0] == PKT_READ_SECTOR then
      ReadSectors(d, Wide(cmd[2], cmd[3], cmd[4]), Wide(cmd[8], cmd[9], cmd[10]), cmd[1], drive)
    else if cmd[0] == PKT_PLAY_AUDIO then Ready(Acknowledged(d, drive.play(cmd)))
    else if cmd[0] == PKT_SPIN_UP then Acknowledged(d, ERR_OK)
    else
      assert SaneAnswer(drive.answer(cmd, d.regs));
      GiveAnswer(d, drive.answer(cmd, d.regs))
  }

  predicate Known(command: byte) {
    command in {PKT_TEST_READY, PKT_DRIVE_STATUS, PKT_MODE_SENSE, PKT_MODE_SELECT, PKT_SENSE, PKT_READ_TOC,
                PKT_SESSION_INFO, PKT_PLAY_AUDIO, PKT_READ_SECTOR, PKT_STATUS, PKT_SPIN_UP, PKT_71}
  }

  // The packet is still in the data buffer when the command has been carried out, unless the
  // command has put its data there: what is remembered is then the first byte of that.
  function PacketCommand(d: Device, drive: Drive): (r: Device)
    requires Good(d) && Sane(drive)
    ensures Good(r)
  {
    var command := d.buffer[0];
    if command != PKT_SENSE && d.regs.wasReset then
      var d1 := SetPacketResult(d, ERR_RESET);
      d1.(regs := d1.regs.(wasReset := false))
    else if NeedsDisc(command) && !drive.disc then SetPacketResult(d, ERR_NODISC)
    else if !Known(command) then SetPacketResult(d, ERR_BADCMD)
    else
      var d1 := PacketBody(d, drive);
      d1.(regs := d1.regs.(lastCommand := d1.buffer[0]))
  }

  // What the host sends with MODE SELECT replaces part of the first ten bytes of the table.
  function WriteBuffer(d: Device): (r: Device)
    requires Good(d) && 0 <= d.regs.length <= MAX_SECTOR_SIZE
    ensures Good(r)
  {
    if d.regs.lastCommand == PKT_MODE_SELECT && d.regs.lba < 10 then
      var n := if d.regs.lba + d.regs.length > 10 then 10 - d.regs.lba else d.regs.length;
      d.(regs := d.regs.(mode := d.regs.mode[..d.regs.lba] + d.buffer[..n] + d.regs.mode[d.regs.lba + n..]))
    else d
  }

  function StoreWord(d: Device, lo: byte, hi: byte): (r: Device)
    requires Good(d) && (d.regs.state == CmdWrite || d.regs.state == PioWrite)
    ensures Good(r)
  {
    d.(buffer := d.buffer[d.regs.offset := lo][d.regs.offset + 1 := hi])
  }

  function PacketReceived(d: Device): (r: Device)
    requires Good(d)
    ensures Good(r)
  {
    d.(regs := d.regs.(state := Busy, status := (Off(d.regs.status, STATUS_DRQ)) | STATUS_BSY, offset := -1))
  }

  function WriteData(d: Device, lo: byte, hi: byte, drive: Drive): (r: Device)
    requires Good(d) && Sane(drive)
    ensures Good(r)
  {
    if d.regs.state != CmdWrite && d.regs.state != PioWrite then d
    else
      var d1 := StoreWord(d, lo, hi);
      if d.regs.offset + 2 < d.regs.length then d1.(regs := d.regs.(offset := d.regs.offset + 2))
      else if d.regs.state == CmdWrite then PacketCommand(PacketReceived(d1), drive)
      else WriteBuffer(PioDone(d1))
  }

  function WriteCommand(d: Device, value: byte): (r: Device)
    requires Good(d)
    ensures Good(r)
  {
    var d0 := ClearInterrupt(d);
    var d1 := d0.(regs := d0.regs.(command := value));
    if value == CMD_NOP then
      RaiseInterrupt(d1.(regs := d1.regs.(state := Idle, status := 0x51, error := 0x04, offset := -1)))
    else if value == CMD_RESET_DEVICE then Reset(d1)
    else if value == CMD_PACKET then StartCommand(d1)
    else if value == CMD_SET_FEATURE then
      RaiseInterrupt(d1.(regs := d1.regs.(status := 0x50, error := 0x00, lba1 := 0x00, lba2 := 0x00)))
    else d1
  }
}
