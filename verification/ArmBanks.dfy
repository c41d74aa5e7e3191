// The banked registers of the ARM7 core: one set of active registers and a save area per
// bank, against an architecture where every bank has its own registers all the time.
module ArmBanks {

  // Status words are taken apart by their bits; the other registers hold plain numbers.
  type word = bv32
  type reg = x: int | 0 <= x < 0x1_0000_0000

  const CPSR_N: word := 0x8000_0000
  const CPSR_Z: word := 0x4000_0000
  const CPSR_C: word := 0x2000_0000
  const CPSR_V: word := 0x1000_0000
  const CPSR_I: word := 0x80
  const CPSR_F: word := 0x40
  const CPSR_T: word := 0x20
  const CPSR_MODE: word := 0x1F
  const CPSR_COMPACT_MASK: word := 0x0FFF_FFDF

  const MODE_USER: word := 0x10
  const MODE_FIQ: word := 0x11
  const MODE_IRQ: word := 0x12
  const MODE_SVC: word := 0x13
  const MODE_ABT: word := 0x17
  const MODE_UND: word := 0x1B
  const MODE_SYS: word := 0x1F

  const SET_CPSR_CONTROL: word := 0x0001_0000
  const SET_CPSR_FLAGS: word := 0x0008_0000

  // The banks of the architecture; user and system mode share one.
  datatype Bank = User | Svc | Abt | Und | Irq | Fiq | Reserved

  function ModeOf(psr: word): word {
    psr & CPSR_MODE
  }

  function BankOf(mode: word): Bank {
    if mode == MODE_USER || mode == MODE_SYS then User
    else if mode == MODE_SVC then Svc
    else if mode == MODE_ABT then Abt
    else if mode == MODE_UND then Und
    else if mode == MODE_IRQ then Irq
    else if mode == MODE_FIQ then Fiq
    else Reserved
  }

  datatype Exception = ResetExc | Undefined | Software | PrefetchAbort | DataAbort | Interrupt | FastInterrupt

  function ModeFor(e: Exception): word {
    match e
    case ResetExc => MODE_SVC
    case Undefined => MODE_UND
    case Software => MODE_SVC
    case PrefetchAbort => MODE_ABT
    case DataAbort => MODE_ABT
    case Interrupt => MODE_IRQ
    case FastInterrupt => MODE_FIQ
  }

  function Vector(e: Exception): reg {
    match e
    case ResetExc => 0x00
    case Undefined => 0x04
    case Software => 0x08
    case PrefetchAbort => 0x0C
    case DataAbort => 0x10
    case Interrupt => 0x18
    case FastInterrupt => 0x1C
  }

  // ---------------------------------------------------------------- status words

  datatype Flags = Flags(n: bool, z: bool, c: bool, v: bool, t: bool)

  function Bit(on: bool, mask: word): word {
    if on then mask else 0
  }

  predicate Has(x: word, mask: word) {
    x & mask != 0
  }

  function Keep(x: word, mask: word): word {
    x & mask
  }

  function Join(x: word, n: word, z: word, c: word, v: word, t: word): word {
    x | (n | z | c | v | t)
  }

  // The status register as the guest sees it: the flags are kept apart from the rest.
  function StatusWord(cpsr: word, f: Flags): word {
    Join(Keep(cpsr, CPSR_COMPACT_MASK),
         Bit(f.n, CPSR_N), Bit(f.z, CPSR_Z), Bit(f.c, CPSR_C), Bit(f.v, CPSR_V), Bit(f.t, CPSR_T))
  }

  function FlagsOf(psr: word): Flags {
    Flags(Has(psr, CPSR_N), Has(psr, CPSR_Z), Has(psr, CPSR_C), Has(psr, CPSR_V), Has(psr, CPSR_T))
  }

  // What the code makes of the status word on entry.
  function RaisedStatus(psr: word, mode: word): word {
    var status := (psr & 0xFFFF_FF00) | mode | CPSR_I;
    if mode == MODE_FIQ then status | CPSR_F else status
  }

  lemma PsrKeepsMode(cpsr: word, f: Flags)
    ensures ModeOf(StatusWord(cpsr, f)) == ModeOf(cpsr)
    ensures StatusWord(StatusWord(cpsr, f), f) == StatusWord(cpsr, f)
  {
  }

  // Taking a status word apart and putting it together gives the same word.
  lemma PsrOfFlags(psr: word)
    ensures StatusWord(psr, FlagsOf(psr)) == psr
  {
    hide Bit, Has, Keep, Join;
    SingleBits(psr);
    Recombined(psr);
  }

  lemma SingleBits(psr: word)
    ensures Bit(Has(psr, CPSR_N), CPSR_N) == Keep(psr, CPSR_N)
    ensures Bit(Has(psr, CPSR_Z), CPSR_Z) == Keep(psr, CPSR_Z)
    ensures Bit(Has(psr, CPSR_C), CPSR_C) == Keep(psr, CPSR_C)
    ensures Bit(Has(psr, CPSR_V), CPSR_V) == Keep(psr, CPSR_V)
    ensures Bit(Has(psr, CPSR_T), CPSR_T) == Keep(psr, CPSR_T)
  {
  }

  lemma Recombined(x: word)
    ensures Join(Keep(x, CPSR_COMPACT_MASK),
                 Keep(x, CPSR_N), Keep(x, CPSR_Z), Keep(x, CPSR_C), Keep(x, CPSR_V), Keep(x, CPSR_T)) == x
  {
  }

  lemma RaisedMode(psr: word, e: Exception)
    ensures ModeOf(RaisedStatus(psr, ModeFor(e))) == ModeFor(e)
  {
  }

  // What the architecture makes of it (section A2.6 of ARM DDI 0100E): T is cleared, I set,
  // and F left alone but for fast interrupts and reset, which set it.
  function ArchitectedStatus(psr: word, e: Exception): word {
    var status := (psr & 0xFFFF_FF40) | ModeFor(e) | CPSR_I;
    if e.FastInterrupt? || e.ResetExc? then status | CPSR_F else status
  }

  // F has the value on entry that the architecture gives it. The code never sets it for an
  // exception of the reset kind, which it raises by arm_reset instead.
  predicate FastKept(psr: word, e: Exception) {
    e.FastInterrupt? || (!e.ResetExc? && !Has(psr, CPSR_F))
  }

  lemma EntryStatus(psr: word, e: Exception)
    ensures RaisedStatus(psr, ModeFor(e)) == ArchitectedStatus(psr, e) <==> FastKept(psr, e)
  {
  }

  // ---------------------------------------------------------------- the architecture

  datatype High = High(r8: reg, r9: reg, r10: reg, r11: reg, r12: reg)
  datatype Banked = Banked(r13: reg, r14: reg, spsr: word)

  // One copy of every register. Fast interrupts have their own r8 to r12; the user bank has
  // no saved status word.
  datatype Registers = Registers(
    low: seq<reg>, high: High, fiqHigh: High, pc: reg,
    user: Banked, svc: Banked, abt: Banked, und: Banked, irq: Banked, fiq: Banked)
  {
    function At(b: Bank): Banked {
      match b
      case User => user
      case Svc => svc
      case Abt => abt
      case Und => und
      case Irq => irq
      case Fiq => fiq
      case Reserved => Banked(0, 0, 0)
    }

    function Put(b: Bank, x: Banked): Registers {
      match b
      case User => this.(user := x)
      case Svc => this.(svc := x)
      case Abt => this.(abt := x)
      case Und => this.(und := x)
      case Irq => this.(irq := x)
      case Fiq => this.(fiq := x)
      case Reserved => this
    }

    // The registers a program running in the bank can name, but for r15.
    function Visible(b: Bank): (seq<reg>, High, reg, reg) {
      (low, if b == Fiq then fiqHigh else high, At(b).r13, At(b).r14)
    }
  }

  datatype Machine = Machine(regs: Registers, status: word, flags: Flags)
  {
    function Bank(): Bank {
      BankOf(ModeOf(status))
    }

    function Psr(): word {
      StatusWord(status, flags)
    }
  }

  // Where the link register points on entry to a handler.
  function LinkAddress(pc: reg): reg {
    (pc as int + 4) % 0x1_0000_0000
  }

  function Raise(m: Machine, e: Exception): Machine {
    var b := BankOf(ModeFor(e));
    Machine(m.regs.Put(b, Banked(m.regs.At(b).r13, LinkAddress(m.regs.pc), m.Psr())).(pc := Vector(e)),
            RaisedStatus(m.Psr(), ModeFor(e)), m.flags)
  }

  // The guest finds the status word of the architecture on entry to a handler if and only if
  // the interrupted program ran with T clear, and with F clear unless a fast interrupt sets it.
  lemma EntryAsArchitected(m: Machine, e: Exception)
    ensures Raise(m, e).Psr() == ArchitectedStatus(m.Psr(), e) <==> !m.flags.t && FastKept(m.Psr(), e)
  {
    hide StatusWord, RaisedStatus, ArchitectedStatus, FastKept, Raise, ModeFor, InThumb;
    PsrKeepsMode(m.status, m.flags);
    RaisedPsr(m, e);
    EntryWord(m.Psr(), e, m.flags);
    EntryStatus(m.Psr(), e);
    ThumbCleared(m.Psr(), e);
  }

  function InThumb(psr: word): word {
    psr | CPSR_T
  }

  lemma RaisedPsr(m: Machine, e: Exception)
    ensures Raise(m, e).Psr() == StatusWord(RaisedStatus(m.Psr(), ModeFor(e)), m.flags)
  {
    hide StatusWord, RaisedStatus, ModeOf;
  }

  lemma EntryWord(psr: word, e: Exception, f: Flags)
    requires StatusWord(psr, f) == psr
    ensures StatusWord(RaisedStatus(psr, ModeFor(e)), f)
            == if f.t then InThumb(RaisedStatus(psr, ModeFor(e))) else RaisedStatus(psr, ModeFor(e))
  {
  }

  lemma ThumbCleared(psr: word, e: Exception)
    ensures InThumb(RaisedStatus(psr, ModeFor(e))) != ArchitectedStatus(psr, e)
  {
  }

  // A software interrupt out of a program that has masked fast interrupts lets them in again,
  // and one out of Thumb code enters its handler in Thumb state.
  lemma EntryDiffers(m: Machine)
    ensures m.status == MODE_SYS | CPSR_F && m.flags == Flags(false, false, false, false, false) ==>
              Raise(m, Software).Psr() == 0x93 && ArchitectedStatus(m.Psr(), Software) == 0xD3
    ensures m.status == MODE_SYS && m.flags == Flags(false, false, false, false, true) ==>
              Raise(m, Software).Psr() == 0xB3 && ArchitectedStatus(m.Psr(), Software) == 0x93
  {
  }

  // Returning gives the saved status word back, flags and all.
  function Restore(m: Machine): Machine {
    var psr := m.regs.At(m.Bank()).spsr;
    m.(status := psr, flags := FlagsOf(psr))
  }

  // Where each exception goes, and in which mode (section A2.6 of ARM DDI 0100E).
  lemma Entries(m: Machine)
    ensures Raise(m, Undefined).regs.pc == 0x04 && Raise(m, Undefined).Bank() == Und
    ensures Raise(m, Software).regs.pc == 0x08 && Raise(m, Software).Bank() == Svc
    ensures Raise(m, PrefetchAbort).regs.pc == 0x0C && Raise(m, PrefetchAbort).Bank() == Abt
    ensures Raise(m, DataAbort).regs.pc == 0x10 && Raise(m, DataAbort).Bank() == Abt
    ensures Raise(m, Interrupt).regs.pc == 0x18 && Raise(m, Interrupt).Bank() == Irq
    ensures Raise(m, FastInterrupt).regs.pc == 0x1C && Raise(m, FastInterrupt).Bank() == Fiq
  {
    hide StatusWord, RaisedStatus, ModeOf;
    forall e: Exception ensures ModeOf(Raise(m, e).status) == ModeFor(e) {
      RaisedMode(m.Psr(), e);
    }
  }

  // What a handler may do to the machine between being entered and returning: anything to
  // the registers of its own bank but the saved status word, to r15, to the flags and to the
  // bits that mask interrupts.
  datatype Work = Work(r13: reg, r14: reg, high: High, pc: reg, flags: Flags, irqMasked: bool, fiqMasked: bool)

  function Masked(status: word, irq: bool, fiq: bool): word {
    (status & 0xFFFF_FF3F) | Bit(irq, CPSR_I) | Bit(fiq, CPSR_F)
  }

  lemma MaskedMode(status: word, irq: bool, fiq: bool)
    ensures ModeOf(Masked(status, irq, fiq)) == ModeOf(status)
  {
  }

  function Handle(m: Machine, work: Work): Machine {
    var b := m.Bank();
    var regs := m.regs.Put(b, Banked(work.r13, work.r14, m.regs.At(b).spsr)).(pc := work.pc);
    m.(regs := if b == Fiq then regs.(fiqHigh := work.high) else regs,
       status := Masked(m.status, work.irqMasked, work.fiqMasked), flags := work.flags)
  }

  function BeforeLink(r14: reg): reg {
    (r14 as int - 4) % 0x1_0000_0000
  }

  lemma RaisedLink(m: Machine, e: Exception)
    ensures Raise(m, e).regs.At(Raise(m, e).Bank()).r14 == LinkAddress(m.regs.pc)
  {
    hide StatusWord, RaisedStatus, ModeOf, LinkAddress;
    RaisedMode(m.Psr(), e);
  }

  lemma LinkBack(pc: reg)
    ensures BeforeLink(LinkAddress(pc)) == pc
  {
  }

  // A handler that returns to its link register less four resumes the program where it was.
  lemma ReturnResumes(m: Machine, e: Exception, work: Work)
    requires work.pc == BeforeLink(Raise(m, e).regs.At(Raise(m, e).Bank()).r14)
    ensures Restore(Handle(Raise(m, e), work)).regs.pc == m.regs.pc
  {
    hide Raise, StatusWord, FlagsOf, ModeOf, Masked, LinkAddress, Registers.At, Registers.Put;
    RaisedLink(m, e);
    LinkBack(m.regs.pc);
    HandledPc(Raise(m, e), work);
  }

  lemma HandledPc(m: Machine, work: Work)
    ensures Restore(Handle(m, work)).regs.pc == work.pc
  {
    hide StatusWord, FlagsOf, ModeOf, Masked;
  }

  // An exception, the work of its handler up to the next one, and its work after that.
  datatype Frame = Frame(exception: Exception, before: Work, after: Work)

  function Nested(m: Machine, frames: seq<Frame>): Machine
    decreases |frames|
  {
    if frames == [] then m
    else
      var entered := Handle(Raise(m, frames[0].exception), frames[0].before);
      Restore(Handle(Nested(entered, frames[1..]), frames[0].after))
  }

  function Target(f: Frame): Bank {
    BankOf(ModeFor(f.exception))
  }

  predicate Targets(frames: seq<Frame>, b: Bank) {
    exists i :: 0 <= i < |frames| && Target(frames[i]) == b
  }

  predicate DistinctBanks(frames: seq<Frame>) {
    forall i, j :: 0 <= i < j < |frames| ==> Target(frames[i]) != Target(frames[j])
  }

  // Everything but r15 and the banks in use is as it was.
  ghost predicate Restored(m: Machine, r: Machine, frames: seq<Frame>) {
    && r.Psr() == m.Psr() && r.Bank() == m.Bank()
    && r.regs.low == m.regs.low && r.regs.high == m.regs.high
    && (!Targets(frames, Fiq) ==> r.regs.fiqHigh == m.regs.fiqHigh)
    && (forall b: Bank :: !Targets(frames, b) ==> r.regs.At(b) == m.regs.At(b))
  }

  lemma TargetsSplit(frames: seq<Frame>, b: Bank)
    requires frames != []
    ensures Targets(frames, b) <==> b == Target(frames[0]) || Targets(frames[1..], b)
  {
  }

  // Exceptions nested into pairwise distinct banks, each undone before the one it
  // interrupted, give back every register of the banks they do not use, and the status word.
  lemma {:induction false} NestedExceptions(m: Machine, frames: seq<Frame>)
    requires DistinctBanks(frames)
    ensures Restored(m, Nested(m, frames), frames)
    decreases |frames|
  {
    hide StatusWord, ModeOf, FlagsOf, Raise, Handle, Restore, Target;
    if frames != [] {
      var f, rest := frames[0], frames[1..];
      var b := Target(f);
      var entered := Handle(Raise(m, f.exception), f.before);
      EnteredBank(m, f);
      assert !Targets(rest, b) by {
        forall i | 0 <= i < |rest| ensures Target(rest[i]) != b {
          assert rest[i] == frames[i + 1];
        }
      }
      NestedExceptions(entered, rest);
      var inner := Nested(entered, rest);
      PsrOfFlags(m.Psr());
      PsrKeepsMode(m.status, m.flags);
      forall x: Bank ensures Targets(frames, x) <==> x == b || Targets(rest, x) {
        TargetsSplit(frames, x);
      }
      NestedStep(m, f, rest, inner);
    }
  }

  lemma EnteredBank(m: Machine, f: Frame)
    ensures Handle(Raise(m, f.exception), f.before).Bank() == Target(f) != Reserved
  {
    hide StatusWord, RaisedStatus, ModeOf, Masked;
    RaisedMode(m.Psr(), f.exception);
    MaskedMode(RaisedStatus(m.Psr(), ModeFor(f.exception)), f.before.irqMasked, f.before.fiqMasked);
  }

  lemma NestedStep(m: Machine, f: Frame, rest: seq<Frame>, inner: Machine)
    requires var entered := Handle(Raise(m, f.exception), f.before);
             Restored(entered, inner, rest) && !Targets(rest, Target(f)) && entered.Bank() == Target(f) != Reserved
    requires ModeOf(m.Psr()) == ModeOf(m.status) && StatusWord(m.Psr(), FlagsOf(m.Psr())) == m.Psr()
    ensures var r := Restore(Handle(inner, f.after));
            && r.Psr() == m.Psr() && r.Bank() == m.Bank()
            && r.regs.low == m.regs.low && r.regs.high == m.regs.high
            && (Target(f) != Fiq && !Targets(rest, Fiq) ==> r.regs.fiqHigh == m.regs.fiqHigh)
            && forall b: Bank :: b != Target(f) && !Targets(rest, b) ==> r.regs.At(b) == m.regs.At(b)
  {
    hide StatusWord, ModeOf, FlagsOf, Targets, BankOf, Raise, Handle, Registers.At;
    var raised := Raise(m, f.exception);
    RaiseKeeps(m, f.exception);
    HandleKeeps(raised, f.before);
    HandleKeeps(inner, f.after);
  }

  // Nothing but r15 and the registers of one bank has changed.
  ghost predicate OthersKept(r: Registers, s: Registers, b: Bank) {
    && s.low == r.low && s.high == r.high && (b != Fiq ==> s.fiqHigh == r.fiqHigh)
    && forall x: Bank :: x != b ==> s.At(x) == r.At(x)
  }

  lemma RaiseKeeps(m: Machine, e: Exception)
    ensures var b := BankOf(ModeFor(e));
            OthersKept(m.regs, Raise(m, e).regs, b) && Raise(m, e).regs.At(b).spsr == m.Psr() && b != Reserved
    ensures Raise(m, e).Bank() == BankOf(ModeFor(e))
  {
    hide StatusWord, RaisedStatus, ModeOf;
    RaisedMode(m.Psr(), e);
  }

  lemma HandleKeeps(m: Machine, work: Work)
    ensures var r := Handle(m, work);
            && OthersKept(m.regs, r.regs, m.Bank()) && r.Bank() == m.Bank()
            && r.regs.At(m.Bank()).spsr == m.regs.At(m.Bank()).spsr
  {
    hide ModeOf, Masked;
    MaskedMode(m.status, work.irqMasked, work.fiqMasked);
  }

  // So the program that was interrupted finds every register it can name, but for r15, and
  // its status word as they were, unless an exception has used its own bank.
  lemma InterruptedProgram(m: Machine, frames: seq<Frame>)
    requires DistinctBanks(frames) && !Targets(frames, m.Bank())
    ensures var r := Nested(m, frames);
            r.regs.Visible(m.Bank()) == m.regs.Visible(m.Bank()) && r.Psr() == m.Psr()
  {
    NestedExceptions(m, frames);
  }

  function WithControl(status: word, value: word): word {
    (status & 0xFFFF_FF00) | (value & 0xFF)
  }

  // Writing the status register: the control byte only in a privileged mode.
  function SetStatus(m: Machine, value: word, fields: word): Machine {
    Merged(m, value, ModeOf(m.status) != MODE_USER && Has(fields, SET_CPSR_CONTROL), Has(fields, SET_CPSR_FLAGS))
  }

  function Merged(m: Machine, value: word, control: bool, flags: bool): Machine {
    var f := if control then m.flags.(t := Has(value, CPSR_T)) else m.flags;
    m.(status := if control then WithControl(m.status, value) else m.status,
       flags := if flags then FlagsOf(value).(t := f.t) else f)
  }

  lemma JoinParts(x: word, n: word, z: word, c: word, v: word, t: word)
    requires n & 0x7FFF_FFFF == 0 && z & 0xBFFF_FFFF == 0 && c & 0xDFFF_FFFF == 0 && v & 0xEFFF_FFFF == 0 && t & 0xFFFF_FFDF == 0
    ensures Join(Keep(x, CPSR_COMPACT_MASK), n, z, c, v, t) & 0xFF == (x & 0xDF) | t
    ensures Join(Keep(x, CPSR_COMPACT_MASK), n, z, c, v, t) & 0x0FFF_FF00 == x & 0x0FFF_FF00
    ensures Join(Keep(x, CPSR_COMPACT_MASK), n, z, c, v, t) & 0xF000_0000 == n | z | c | v
  {
  }

  lemma BitParts(on: bool)
    ensures Bit(on, CPSR_N) & 0x7FFF_FFFF == 0 && Bit(on, CPSR_Z) & 0xBFFF_FFFF == 0 && Bit(on, CPSR_C) & 0xDFFF_FFFF == 0
    ensures Bit(on, CPSR_V) & 0xEFFF_FFFF == 0 && Bit(on, CPSR_T) & 0xFFFF_FFDF == 0
  {
  }

  // The three parts of a status word: control byte, flags, and what is left alone.
  function Low(psr: word): word {
    psr & 0xFF
  }

  function Top(psr: word): word {
    psr & 0xF000_0000
  }

  function Middle(psr: word): word {
    psr & 0x0FFF_FF00
  }

  function LowWith(psr: word, t: bool): word {
    (psr & 0xDF) | Bit(t, CPSR_T)
  }

  function TopOf(f: Flags): word {
    Bit(f.n, CPSR_N) | Bit(f.z, CPSR_Z) | Bit(f.c, CPSR_C) | Bit(f.v, CPSR_V)
  }

  lemma StatusParts(cpsr: word, f: Flags)
    ensures Low(StatusWord(cpsr, f)) == LowWith(cpsr, f.t)
    ensures Middle(StatusWord(cpsr, f)) == Middle(cpsr)
    ensures Top(StatusWord(cpsr, f)) == TopOf(f)
  {
    hide Bit, Join, Keep;
    BitParts(f.n);
    BitParts(f.z);
    BitParts(f.c);
    BitParts(f.v);
    BitParts(f.t);
    JoinParts(cpsr, Bit(f.n, CPSR_N), Bit(f.z, CPSR_Z), Bit(f.c, CPSR_C), Bit(f.v, CPSR_V), Bit(f.t, CPSR_T));
  }

  lemma ControlParts(status: word, value: word)
    ensures LowWith(WithControl(status, value), Has(value, CPSR_T)) == Low(value)
    ensures Middle(WithControl(status, value)) == Middle(status)
  {
  }

  lemma FlagParts(value: word, t: bool)
    ensures TopOf(FlagsOf(value).(t := t)) == Top(value)
  {
  }

  lemma FlagsApart(f: Flags, t: bool)
    ensures TopOf(f.(t := t)) == TopOf(f)
  {
  }

  // The guest sees the low byte of the value when it may write it and asks for it, the flags
  // when it asks for those, and otherwise its old status word.
  lemma StatusWritten(m: Machine, value: word, fields: word)
    ensures var r := SetStatus(m, value, fields);
            var control := ModeOf(m.status) != MODE_USER && Has(fields, SET_CPSR_CONTROL);
            && r.regs == m.regs
            && Low(r.Psr()) == Low(if control then value else m.Psr())
            && Top(r.Psr()) == Top(if Has(fields, SET_CPSR_FLAGS) then value else m.Psr())
            && Middle(r.Psr()) == Middle(m.Psr())
  {
    hide Merged, Has, ModeOf, Low, Top, Middle;
    var control := ModeOf(m.status) != MODE_USER && Has(fields, SET_CPSR_CONTROL);
    MergedParts(m, value, control, Has(fields, SET_CPSR_FLAGS));
  }

  lemma MergedParts(m: Machine, value: word, control: bool, flags: bool)
    ensures var r := Merged(m, value, control, flags);
            && r.regs == m.regs
            && Low(r.Psr()) == Low(if control then value else m.Psr())
            && Top(r.Psr()) == Top(if flags then value else m.Psr())
            && Middle(r.Psr()) == Middle(m.Psr())
  {
    hide StatusWord, Has, WithControl, Low, Top, Middle, LowWith, TopOf, FlagsOf;
    var r := Merged(m, value, control, flags);
    StatusParts(m.status, m.flags);
    StatusParts(r.status, r.flags);
    ControlParts(m.status, value);
    FlagParts(value, r.flags.t);
    FlagsApart(m.flags, r.flags.t);
  }

  lemma ControlMode(status: word, value: word)
    ensures ModeOf(WithControl(status, value)) == ModeOf(value)
  {
  }

  // ---------------------------------------------------------------- the core

  class Core {
    var r: seq<reg>
    var cpsr: word
    var spsr: word
    // The save areas: the registers of a bank while another one is active.
    var userR: seq<reg>
    var svcR: Banked
    var abtR: Banked
    var undR: Banked
    var irqR: Banked
    var fiqR: seq<reg>
    var fiqSpsr: word
    var flags: Flags

    ghost predicate Valid()
      reads `r, `userR, `fiqR
    {
      |r| == 16 && |userR| == 7 && |fiqR| == 7
    }

    // The registers of the architecture, when the active ones are those of this bank.
    ghost function RegistersIn(active: Bank): Registers
      requires Valid()
      reads `r, `spsr, `userR, `svcR, `abtR, `undR, `irqR, `fiqR, `fiqSpsr
    {
      var current := Banked(r[13], r[14], spsr);
      Registers(
        r[..8],
        if active == Fiq then High(userR[0], userR[1], userR[2], userR[3], userR[4]) else High(r[8], r[9], r[10], r[11], r[12]),
        if active == Fiq then High(r[8], r[9], r[10], r[11], r[12]) else High(fiqR[0], fiqR[1], fiqR[2], fiqR[3], fiqR[4]),
        r[15],
        if active == User then current.(spsr := 0) else Banked(userR[5], userR[6], 0),
        if active == Svc then current else svcR,
        if active == Abt then current else abtR,
        if active == Und then current else undR,
        if active == Irq then current else irqR,
        if active == Fiq then current else Banked(fiqR[5], fiqR[6], fiqSpsr))
    }

    ghost function Abstract(): Machine
      requires Valid()
      reads this
    {
      Machine(RegistersIn(BankOf(ModeOf(cpsr))), cpsr, flags)
    }

    // arm_reset
    constructor ()
      ensures Valid() && Abstract().Bank() == Svc && r[15] == 0
      ensures forall psr: word :: cpsr & 0xFF == ArchitectedStatus(psr, ResetExc) & 0xFF
    {
      r := seq(16, _ => 0);
      userR, fiqR, fiqSpsr := seq(7, _ => 0), seq(7, _ => 0), 0;
      svcR, abtR, undR, irqR := Banked(0, 0, 0), Banked(0, 0, 0), Banked(0, 0, 0), Banked(0, 0, 0);
      cpsr := MODE_SVC | CPSR_I | CPSR_F;
      spsr := 0;
      flags := Flags(false, false, false, false, false);
    }

    // arm_get_cpsr
    method GetCpsr() returns (value: word)
      requires Valid()
      modifies `cpsr
      ensures Valid() && value == cpsr == old(Abstract()).Psr()
      ensures Abstract() == old(Abstract()).(status := value)
    {
      hide Join, Keep, ModeOf;
      PsrKeepsMode(cpsr, flags);
      cpsr := StatusWord(cpsr, flags);
      value := cpsr;
    }

    // The first switch of arm_set_mode: the active registers go to the area of their bank.
    // With no bank active, all but r0 to r12 and r15 is in the areas.
    method SaveBank(bank: Bank)
      requires Valid() && bank != Reserved
      modifies `r, `userR, `svcR, `abtR, `undR, `irqR, `fiqR, `fiqSpsr
      ensures Valid() && RegistersIn(Reserved) == old(RegistersIn(bank))
    {
      match bank {
        case User =>
          userR := userR[5 := r[13]][6 := r[14]];
        case Svc =>
          svcR := Banked(r[13], r[14], spsr);
        case Abt =>
          abtR := Banked(r[13], r[14], spsr);
        case Und =>
          undR := Banked(r[13], r[14], spsr);
        case Irq =>
          irqR := Banked(r[13], r[14], spsr);
        case Fiq =>
          SaveFiq();
      }
    }

    method SaveFiq()
      requires Valid()
      modifies `r, `fiqR, `fiqSpsr
      ensures Valid() && RegistersIn(Reserved) == old(RegistersIn(Fiq))
    {
      fiqR := [r[8], r[9], r[10], r[11], r[12], r[13], r[14]];
      fiqSpsr := spsr;
      r := r[8 := userR[0]][9 := userR[1]][10 := userR[2]][11 := userR[3]][12 := userR[4]];
    }

    // The second: those of the bank to be entered come out of its area.
    method LoadBank(bank: Bank)
      requires Valid() && bank != Reserved
      modifies `r, `spsr, `userR
      ensures Valid() && RegistersIn(bank) == old(RegistersIn(Reserved))
    {
      match bank {
        case User =>
          r := r[13 := userR[5]][14 := userR[6]];
        case Svc =>
          r := r[13 := svcR.r13][14 := svcR.r14];
          spsr := svcR.spsr;
        case Abt =>
          r := r[13 := abtR.r13][14 := abtR.r14];
          spsr := abtR.spsr;
        case Und =>
          r := r[13 := undR.r13][14 := undR.r14];
          spsr := undR.spsr;
        case Irq =>
          r := r[13 := irqR.r13][14 := irqR.r14];
          spsr := irqR.spsr;
        case Fiq =>
          LoadFiq();
      }
    }

    method LoadFiq()
      requires Valid()
      modifies `r, `spsr, `userR
      ensures Valid() && RegistersIn(Fiq) == old(RegistersIn(Reserved))
    {
      userR := [r[8], r[9], r[10], r[11], r[12], userR[5], userR[6]];
      r := r[8 := fiqR[0]][9 := fiqR[1]][10 := fiqR[2]][11 := fiqR[3]][12 := fiqR[4]];
      r := r[13 := fiqR[5]][14 := fiqR[6]];
      spsr := fiqSpsr;
    }

    // arm_set_mode. It does not set the mode bits itself; once they are set, no register of
    // any bank has changed, whichever two of the seven modes it is between.
    method SetMode(target: word)
      requires Valid()
      modifies `r, `spsr, `userR, `svcR, `abtR, `undR, `irqR, `fiqR, `fiqSpsr
      ensures Valid()
      ensures BankOf(ModeOf(cpsr)) != Reserved && BankOf(target) != Reserved ==>
                RegistersIn(BankOf(target)) == old(RegistersIn(BankOf(ModeOf(cpsr))))
    {
      hide ModeOf, RegistersIn;
      var current := ModeOf(cpsr);
      if current == target {
        return;
      }
      if BankOf(current) != Reserved {
        SaveBank(BankOf(current));
      }
      if BankOf(target) != Reserved {
        LoadBank(BankOf(target));
      }
    }

    // What arm_raise_exception does to the registers once the mode has been set.
    method EnterHandler(bank: Bank, saved: word, vector: reg)
      requires Valid() && bank !in {User, Reserved}
      modifies `r, `spsr
      ensures Valid()
      ensures var was := old(RegistersIn(bank));
              RegistersIn(bank) == was.Put(bank, Banked(was.At(bank).r13, LinkAddress(was.pc), saved)).(pc := vector)
    {
      hide LinkAddress;
      spsr := saved;
      r := r[14 := LinkAddress(r[15])];
      r := r[15 := vector];
      assert r[..8] == old(r[..8]);
      match bank {
        case Svc =>
        case Abt =>
        case Und =>
        case Irq =>
        case Fiq =>
      }
    }

    // arm_raise_exception
    method RaiseException(e: Exception)
      requires Valid()
      modifies this
      ensures Valid()
      ensures old(Abstract()).Bank() != Reserved ==> Abstract() == Raise(old(Abstract()), e)
    {
      hide LinkAddress, ModeOf, StatusWord, RaisedStatus, RegistersIn, Registers.Put, Registers.At;
      var mode := ModeFor(e);
      PsrKeepsMode(cpsr, flags);
      var saved := GetCpsr();
      SetMode(mode);
      EnterHandler(BankOf(mode), saved, Vector(e));
      RaisedMode(saved, e);
      cpsr := RaisedStatus(saved, mode);
    }

    lemma SpsrInArea()
      requires Valid()
      ensures var b := BankOf(ModeOf(cpsr)); b !in {User, Reserved} ==> RegistersIn(b).At(b).spsr == spsr
    {
    }

    // arm_restore_cpsr, in a mode that has a saved status word, which names one of the seven.
    method RestoreCpsr()
      requires Valid()
      modifies this
      ensures Valid()
      ensures old(Abstract()).Bank() !in {User, Reserved} && BankOf(ModeOf(old(spsr))) != Reserved ==>
                Abstract() == Restore(old(Abstract()))
    {
      hide ModeOf, FlagsOf, RegistersIn, Registers.At;
      SpsrInArea();
      var saved := spsr;
      SetMode(ModeOf(saved));
      cpsr := saved;
      flags := FlagsOf(saved);
    }

    // arm_set_cpsr
    method SetCpsr(value: word, fields: word)
      requires Valid()
      modifies this
      ensures Valid()
      ensures old(Abstract()).Bank() != Reserved && BankOf(ModeOf(value)) != Reserved ==>
                Abstract() == SetStatus(old(Abstract()), value, fields)
    {
      hide ModeOf, Has, WithControl, RegistersIn;
      if ModeOf(cpsr) != MODE_USER {
        if Has(fields, SET_CPSR_CONTROL) {
          SetMode(ModeOf(value));
          flags := flags.(t := Has(value, CPSR_T));
          ControlMode(cpsr, value);
          cpsr := WithControl(cpsr, value);
        }
      }
      if Has(fields, SET_CPSR_FLAGS) {
        flags := FlagsOf(value).(t := flags.t);
      }
    }
  }
}
