// The interrupt multiplexer: three words of pending events, three masks of three words, and
// three interrupt lines to the CPU that are kept step by step instead of recomputed.
module Asic {

  const EVENT_CASCADE1: bv8 := 30
  const EVENT_CASCADE2: bv8 := 31
  const EVENTS: bv8 := 96

  // The number of a word.
  type Index = i: bv8 | i < 3

  datatype Words = Words(w0: bv32, w1: bv32, w2: bv32) {
    function At(i: bv8): bv32 {
      if i == 0 then w0 else if i == 1 then w1 else w2
    }

    function Put(i: bv8, word: bv32): Words {
      if i == 0 then this.(w0 := word) else if i == 1 then this.(w1 := word) else this.(w2 := word)
    }
  }

  const NoWords := Words(0, 0, 0)

  // The operations on one word.
  predicate Meets(x: bv32, mask: bv32) {
    x & mask != 0
  }

  function With(x: bv32, bits: bv32): bv32 {
    x | bits
  }

  function Sans(x: bv32, bits: bv32): bv32 {
    x & !bits
  }

  function WordOf(event: bv8): bv8 {
    (event & 0x60) >> 5
  }

  function Bit(event: bv8): bv32 {
    (1 as bv32) << (event & 0x1F)
  }

  // The event is pending.
  predicate Pending(pending: Words, event: bv8) {
    Meets(pending.At(WordOf(event)), Bit(event))
  }

  // Some pending event is selected by the mask.
  predicate Selected(pending: Words, mask: Words) {
    Meets(pending.w0, mask.w0) || Meets(pending.w1, mask.w1) || Meets(pending.w2, mask.w2)
  }

  // The cascade bits of the first word say whether the other two hold anything.
  predicate Cascaded(pending: Words) {
    && (Meets(pending.w0, 0x4000_0000) <==> pending.w1 != 0)
    && (Meets(pending.w0, 0x8000_0000) <==> pending.w2 != 0)
  }

  function SetBit(pending: Words, event: bv8): Words {
    pending.Put(WordOf(event), With(pending.At(WordOf(event)), Bit(event)))
  }

  function Raised(pending: Words, event: bv8): Words {
    var p := SetBit(pending, event);
    if event >= 64 then SetBit(p, EVENT_CASCADE2)
    else if event >= 32 then SetBit(p, EVENT_CASCADE1)
    else p
  }

  function Cleared(pending: Words, event: bv8): Words {
    var word := Sans(pending.At(WordOf(event)), Bit(event));
    var p := pending.Put(WordOf(event), word);
    if word == 0 && event >= 64 then p.(w0 := Sans(p.w0, 0x8000_0000))
    else if word == 0 && event >= 32 then p.(w0 := Sans(p.w0, 0x4000_0000))
    else p
  }

  // What the guest does by writing to the pending registers: the events written with a one
  // are acknowledged, except for the cascade bits and for the second word.
  function Acknowledged0(pending: Words, value: bv32): Words {
    pending.(w0 := Sans(pending.w0, value & 0x3FFF_FFFF))
  }

  function Acknowledged2(pending: Words, value: bv32): Words {
    var word := Sans(pending.w2, value);
    var p := pending.(w2 := word);
    if word == 0 then p.(w0 := Sans(p.w0, 0x8000_0000)) else p
  }

  // Not a cascade bit: those are not raised or cleared by themselves.
  predicate Source(event: bv8) {
    event < EVENTS && event != EVENT_CASCADE1 && event != EVENT_CASCADE2
  }

  // ---------------------------------------------------------------- single events

  // Two events share a bit when they have the same place in their words.
  lemma BitsMeet(event: bv8, other: bv8)
    ensures Meets(Bit(event), Bit(other)) <==> event & 0x1F == other & 0x1F
  {
  }

  lemma SameEvent(event: bv8, other: bv8)
    ensures event & 0x7F == other & 0x7F <==> WordOf(event) == WordOf(other) && event & 0x1F == other & 0x1F
    ensures event < EVENTS ==> WordOf(event) < 3 && event & 0x7F == event
  {
  }

  lemma MeetsKept(x: bv32, y: bv32, mask: bv32)
    requires Meets(x, mask)
    ensures Meets(With(x, y), mask) && Meets(With(y, x), mask)
  {
  }

  lemma MeetsNeither(x: bv32, y: bv32, mask: bv32)
    requires !Meets(x, mask) && !Meets(y, mask)
    ensures !Meets(With(x, y), mask)
  {
  }

  lemma WithMeets(x: bv32, y: bv32, mask: bv32)
    ensures Meets(With(x, y), mask) <==> Meets(x, mask) || Meets(y, mask)
  {
    hide Meets, With;
    if Meets(x, mask) {
      MeetsKept(x, y, mask);
    } else if Meets(y, mask) {
      MeetsKept(y, x, mask);
    } else {
      MeetsNeither(x, y, mask);
    }
  }

  lemma SansOwn(x: bv32, bits: bv32)
    ensures !Meets(Sans(x, bits), bits)
  {
  }

  lemma SansMeets(x: bv32, event: bv8, other: bv8)
    ensures Meets(Sans(x, Bit(event)), Bit(other)) <==> event & 0x1F != other & 0x1F && Meets(x, Bit(other))
  {
    hide Meets, Sans;
    BitsMeet(event, other);
    SansOwn(x, Bit(other));
    if event & 0x1F != other & 0x1F {
      SansKeepsBit(x, Bit(event), Bit(other));
    }
  }

  lemma SetBitEvents(pending: Words, event: bv8, other: bv8)
    requires event < EVENTS && other < EVENTS
    ensures Pending(SetBit(pending, event), other) <==> other == event || Pending(pending, other)
  {
    hide Bit, Meets, With, WordOf;
    SameEvent(event, other);
    SameEvent(other, event);
    BitsMeet(event, other);
    WithMeets(pending.At(WordOf(event)), Bit(event), Bit(other));
  }

  // Raising an event makes it and its cascade bit pending, and touches no other event.
  lemma RaisedEvents(pending: Words, event: bv8, other: bv8)
    requires event < EVENTS && other < EVENTS
    ensures Pending(Raised(pending, event), other)
            <==> other == event || Pending(pending, other)
                 || (other == EVENT_CASCADE2 && event >= 64) || (other == EVENT_CASCADE1 && 32 <= event < 64)
  {
    hide Pending, SetBit;
    SetBitEvents(pending, event, other);
    SetBitEvents(SetBit(pending, event), EVENT_CASCADE2, other);
    SetBitEvents(SetBit(pending, event), EVENT_CASCADE1, other);
  }

  // Clearing it takes it away, and no other source.
  lemma ClearedEvents(pending: Words, event: bv8, other: bv8)
    requires event < EVENTS && Source(other)
    ensures Pending(Cleared(pending, event), other) <==> other != event && Pending(pending, other)
  {
    hide Bit, Meets, Sans, WordOf;
    SameEvent(event, other);
    SameEvent(other, event);
    SansMeets(pending.At(WordOf(event)), event, other);
    var w0 := pending.Put(WordOf(event), Sans(pending.At(WordOf(event)), Bit(event))).w0;
    CascadeApart(w0, other);
  }

  // A cascade bit has its place to itself in the first word.
  lemma CascadeApart(w0: bv32, other: bv8)
    requires Source(other)
    ensures WordOf(other) == 0 ==> (Meets(Sans(w0, 0x8000_0000), Bit(other)) <==> Meets(w0, Bit(other)))
    ensures WordOf(other) == 0 ==> (Meets(Sans(w0, 0x4000_0000), Bit(other)) <==> Meets(w0, Bit(other)))
  {
  }

  // The cascade bits stay right exactly when nobody raises or clears one of them by itself
  // against what its word says.
  lemma RaisedKeepsCascades(pending: Words, event: bv8)
    requires event < EVENTS && Cascaded(pending)
    ensures Cascaded(Raised(pending, event))
            <==> (event == EVENT_CASCADE1 ==> pending.w1 != 0) && (event == EVENT_CASCADE2 ==> pending.w2 != 0)
  {
  }

  lemma ClearedKeepsCascades(pending: Words, event: bv8)
    requires event < EVENTS && Cascaded(pending)
    ensures Cascaded(Cleared(pending, event))
            <==> (event == EVENT_CASCADE1 ==> pending.w1 == 0) && (event == EVENT_CASCADE2 ==> pending.w2 == 0)
  {
  }

  // ---------------------------------------------------------------- the registers

  class Multiplexer {
    var pending: Words
    var maskA: Words
    var maskB: Words
    var maskC: Words
    // The interrupt lines to the CPU.
    var irq13: bool
    var irq11: bool
    var irq9: bool

    // Each line is up exactly when a pending event is selected for it.
    ghost predicate LinesRight()
      reads this
    {
      && (irq13 <==> Selected(pending, maskA))
      && (irq11 <==> Selected(pending, maskB))
      && (irq9 <==> Selected(pending, maskC))
    }

    ghost predicate Valid()
      reads this
    {
      LinesRight() && Cascaded(pending)
    }

    constructor ()
      ensures Valid() && pending == NoWords
    {
      pending, maskA, maskB, maskC := NoWords, NoWords, NoWords, NoWords;
      irq13, irq11, irq9 := false, false, false;
    }

    // asic_event. It looks only at the word it has set a bit in, and calls itself for the
    // cascade bit.
    method RaiseEvent(event: bv8)
      requires LinesRight() && event < EVENTS
      modifies `pending, `irq13, `irq11, `irq9
      ensures LinesRight() && pending == Raised(old(pending), event)
      decreases event >= 32
    {
      hide Bit, WordOf, Selected, Meets, With;
      var i := WordOf(event);
      var result := With(pending.At(i), Bit(event));
      pending := pending.Put(i, result);
      if Meets(result, maskA.At(i)) {
        irq13 := true;
      }
      if Meets(result, maskB.At(i)) {
        irq11 := true;
      }
      if Meets(result, maskC.At(i)) {
        irq9 := true;
      }
      BitSet(old(pending), event, maskA);
      BitSet(old(pending), event, maskB);
      BitSet(old(pending), event, maskC);
      if event >= 64 {
        RaiseEvent(EVENT_CASCADE2);
      } else if event >= 32 {
        RaiseEvent(EVENT_CASCADE1);
      }
    }

    // asic_clear_event
    method ClearEvent(event: bv8)
      requires LinesRight() && event < EVENTS
      modifies `pending, `irq13, `irq11, `irq9
      ensures LinesRight() && pending == Cleared(old(pending), event)
    {
      hide Bit, WordOf, Selected, Meets, Sans, Below;
      var i := WordOf(event);
      var result := Sans(pending.At(i), Bit(event));
      pending := pending.Put(i, result);
      if result == 0 {
        if event >= 64 {
          pending := pending.(w0 := Sans(pending.w0, 0x8000_0000));
        } else if event >= 32 {
          pending := pending.(w0 := Sans(pending.w0, 0x4000_0000));
        }
      }
      ClearedBelow(old(pending), event);
      CheckCleared(old(pending));
    }

    // asic_check_cleared_events: lets go of the lines nothing is selected for any more. It
    // is enough after pending bits have gone, and only then.
    method CheckCleared(ghost before: Words)
      requires irq13 <==> Selected(before, maskA)
      requires irq11 <==> Selected(before, maskB)
      requires irq9 <==> Selected(before, maskC)
      requires Below(pending, before)
      modifies `irq13, `irq11, `irq9
      ensures LinesRight()
    {
      hide Selected, Combined, Below;
      BelowSelects(pending, before, maskA);
      BelowSelects(pending, before, maskB);
      BelowSelects(pending, before, maskC);
      if Combined(pending, maskA) == 0 {
        irq13 := false;
      }
      if Combined(pending, maskB) == 0 {
        irq11 := false;
      }
      if Combined(pending, maskC) == 0 {
        irq9 := false;
      }
    }

    // asic_event_mask_changed
    method MaskChanged()
      modifies `irq13, `irq11, `irq9
      ensures LinesRight()
    {
      hide Selected, Combined;
      CombinedSelects(pending, maskA);
      CombinedSelects(pending, maskB);
      CombinedSelects(pending, maskC);
      irq13 := Combined(pending, maskA) != 0;
      irq11 := Combined(pending, maskB) != 0;
      irq9 := Combined(pending, maskC) != 0;
    }

    // The guest writes to the first pending register: its top two bits cannot be cleared.
    method Acknowledge0(value: bv32)
      requires Valid()
      modifies `pending, `irq13, `irq11, `irq9
      ensures Valid() && pending == Acknowledged0(old(pending), value)
    {
      hide Cascaded, Below, Selected, Meets, Sans;
      Acknowledged0Keeps(pending, value);
      pending := pending.(w0 := Sans(pending.w0, value & 0x3FFF_FFFF));
      CheckCleared(old(pending));
    }

    // The guest writes to the third one: the cascade bit goes with the last event.
    method Acknowledge2(value: bv32)
      requires Valid()
      modifies `pending, `irq13, `irq11, `irq9
      ensures Valid() && pending == Acknowledged2(old(pending), value)
    {
      hide Cascaded, Below, Selected, Meets, Sans;
      Acknowledged2Keeps(pending, value);
      var word := Sans(pending.w2, value);
      pending := pending.(w2 := word);
      if word == 0 {
        pending := pending.(w0 := Sans(pending.w0, 0x8000_0000));
      }
      CheckCleared(old(pending));
    }

    // The pending and mask registers as the guest writes them.
    method Write(register: Register, value: bv32)
      requires Valid()
      modifies this
      ensures Valid() && pending == Written(old(pending), register, value)
      ensures maskA == if register.MaskA? then old(maskA).Put(register.word, value) else old(maskA)
      ensures maskB == if register.MaskB? then old(maskB).Put(register.word, value) else old(maskB)
      ensures maskC == if register.MaskC? then old(maskC).Put(register.word, value) else old(maskC)
    {
      hide Cascaded, Selected, Meets, Sans;
      match register {
        case Pending1 =>
        case Pending0 => Acknowledge0(value);
        case Pending2 => Acknowledge2(value);
        case MaskA(word) =>
          maskA := maskA.Put(word, value);
          MaskChanged();
        case MaskB(word) =>
          maskB := maskB.Put(word, value);
          MaskChanged();
        case MaskC(word) =>
          maskC := maskC.Put(word, value);
          MaskChanged();
      }
    }

    // Anything that can happen to the multiplexer.
    method Perform(op: Operation)
      requires Valid() && Proper(op)
      modifies this
      ensures Valid() && pending == After(old(pending), op)
    {
      match op {
        case Raise(event) =>
          RaisedKeepsCascades(pending, event);
          RaiseEvent(event);
        case Clear(event) =>
          ClearedKeepsCascades(pending, event);
          ClearEvent(event);
        case Guest(register, value) =>
          Write(register, value);
      }
    }
  }

  datatype Register =
    | Pending0 | Pending1 | Pending2
    | MaskA(word: Index) | MaskB(word: Index) | MaskC(word: Index)

  datatype Operation = Raise(event: bv8) | Clear(event: bv8) | Guest(register: Register, value: bv32)

  predicate Proper(op: Operation) {
    match op
    case Raise(event) => Source(event)
    case Clear(event) => Source(event)
    case Guest(_, _) => true
  }

  function Written(pending: Words, register: Register, value: bv32): Words {
    match register
    case Pending0 => Acknowledged0(pending, value)
    case Pending2 => Acknowledged2(pending, value)
    case _ => pending
  }

  function After(pending: Words, op: Operation): Words {
    match op
    case Raise(event) => Raised(pending, event)
    case Clear(event) => Cleared(pending, event)
    case Guest(register, value) => Written(pending, register, value)
  }

  // The three masked words put together, as the code does it.
  function Combined(pending: Words, mask: Words): bv32 {
    Or3(Masked(pending.w0, mask.w0), Masked(pending.w1, mask.w1), Masked(pending.w2, mask.w2))
  }

  function Masked(x: bv32, mask: bv32): bv32 {
    x & mask
  }

  function Or3(x: bv32, y: bv32, z: bv32): bv32 {
    x | y | z
  }

  lemma Or3Zero(x: bv32, y: bv32, z: bv32)
    ensures Or3(x, y, z) == 0 <==> x == 0 && y == 0 && z == 0
  {
  }

  lemma MaskedMeets(x: bv32, mask: bv32)
    ensures Masked(x, mask) != 0 <==> Meets(x, mask)
  {
  }

  lemma CombinedSelects(pending: Words, mask: Words)
    ensures Combined(pending, mask) != 0 <==> Selected(pending, mask)
  {
    hide Or3, Masked, Meets;
    MaskedMeets(pending.w0, mask.w0);
    MaskedMeets(pending.w1, mask.w1);
    MaskedMeets(pending.w2, mask.w2);
    Or3Zero(Masked(pending.w0, mask.w0), Masked(pending.w1, mask.w1), Masked(pending.w2, mask.w2));
  }

  // Nothing is pending in p that is not in q.
  predicate Below(p: Words, q: Words) {
    Within(p.w0, q.w0) && Within(p.w1, q.w1) && Within(p.w2, q.w2)
  }

  predicate Within(x: bv32, y: bv32) {
    x & y == x
  }

  lemma SansWithin(x: bv32, y: bv32)
    ensures Within(Sans(x, y), x) && Within(x, x)
  {
  }

  lemma WithinMasked(x: bv32, y: bv32, m: bv32)
    requires Within(x, y)
    ensures Meets(x, m) ==> Meets(y, m)
  {
  }

  lemma WithinTransitive(x: bv32, y: bv32, z: bv32)
    requires Within(x, y) && Within(y, z)
    ensures Within(x, z)
  {
  }

  lemma OrMasked(x: bv32, y: bv32, m: bv32)
    ensures Meets(x, m) ==> Meets(With(x, y), m)
  {
  }

  lemma BelowSelects(p: Words, q: Words, mask: Words)
    requires Below(p, q)
    ensures Selected(p, mask) ==> Selected(q, mask)
    ensures Combined(p, mask) != 0 <==> Selected(p, mask)
  {
    hide Within, Meets, Combined;
    WithinMasked(p.w0, q.w0, mask.w0);
    WithinMasked(p.w1, q.w1, mask.w1);
    WithinMasked(p.w2, q.w2, mask.w2);
    CombinedSelects(p, mask);
  }

  lemma ClearedBelow(pending: Words, event: bv8)
    ensures Below(Cleared(pending, event), pending)
  {
    hide Bit, WordOf, Within, Sans;
    var i := WordOf(event);
    var word := Sans(pending.At(i), Bit(event));
    var p := pending.Put(i, word);
    SansWithin(pending.At(i), Bit(event));
    SansWithin(pending.w0, 0);
    SansWithin(pending.w1, 0);
    SansWithin(pending.w2, 0);
    SansWithin(p.w0, 0x8000_0000);
    SansWithin(p.w0, 0x4000_0000);
    WithinTransitive(Sans(p.w0, 0x8000_0000), p.w0, pending.w0);
    WithinTransitive(Sans(p.w0, 0x4000_0000), p.w0, pending.w0);
  }

  // Acknowledging bits other than a cascade bit leaves it, and leaves nothing new.
  lemma SansKeepsBit(x: bv32, y: bv32, bit: bv32)
    requires !Meets(y, bit)
    ensures Meets(Sans(x, y), bit) <==> Meets(x, bit)
  {
    hide Meets, Sans, Masked;
    SansMasked(x, y, bit);
    MaskedMeets(x, bit);
    MaskedMeets(Sans(x, y), bit);
  }

  lemma SansMasked(x: bv32, y: bv32, mask: bv32)
    requires !Meets(y, mask)
    ensures Masked(Sans(x, y), mask) == Masked(x, mask)
  {
  }

  lemma CascadeBits()
    ensures !Meets(0x8000_0000, 0x4000_0000)
    ensures forall x :: !Meets(Sans(x, 0x8000_0000), 0x8000_0000)
  {
  }

  lemma TopBitsKept(value: bv32)
    ensures !Meets(value & 0x3FFF_FFFF, 0x8000_0000) && !Meets(value & 0x3FFF_FFFF, 0x4000_0000)
  {
  }

  lemma Acknowledged0Keeps(pending: Words, value: bv32)
    requires Cascaded(pending)
    ensures Below(Acknowledged0(pending, value), pending) && Cascaded(Acknowledged0(pending, value))
  {
    hide Meets, Sans, Within;
    TopBitsKept(value);
    SansKeepsBit(pending.w0, value & 0x3FFF_FFFF, 0x8000_0000);
    SansKeepsBit(pending.w0, value & 0x3FFF_FFFF, 0x4000_0000);
    SansWithin(pending.w0, value & 0x3FFF_FFFF);
    SansWithin(pending.w1, 0);
    SansWithin(pending.w2, 0);
  }

  lemma Acknowledged2Keeps(pending: Words, value: bv32)
    requires Cascaded(pending)
    ensures Below(Acknowledged2(pending, value), pending) && Cascaded(Acknowledged2(pending, value))
  {
    hide Meets, Sans, Within;
    CascadeBits();
    SansKeepsBit(pending.w0, 0x8000_0000, 0x4000_0000);
    SansWithin(pending.w0, 0x8000_0000);
    SansWithin(pending.w1, 0);
    SansWithin(pending.w2, value);
    SansZero(pending.w2, value);
  }

  lemma SansZero(x: bv32, y: bv32)
    ensures x == 0 ==> Sans(x, y) == 0
  {
  }

  lemma BitSet(pending: Words, event: bv8, mask: Words)
    ensures var i := WordOf(event);
            var result := With(pending.At(i), Bit(event));
            Selected(pending.Put(i, result), mask) <==> Selected(pending, mask) || Meets(result, mask.At(i))
  {
    hide Bit, WordOf, Meets, With;
    var i := WordOf(event);
    OrMasked(pending.At(i), Bit(event), mask.At(i));
  }

  // ---------------------------------------------------------------- whole runs

  function Run(pending: Words, ops: seq<Operation>): Words
    decreases |ops|
  {
    if ops == [] then pending else Run(After(pending, ops[0]), ops[1..])
  }

  // Guest acknowledgement reaches neither the second word nor the cascade bits: once raised,
  // an event of the second word stays pending, and with it its cascade bit, over any run
  // that does not clear it.
  lemma {:induction false} SecondWordStays(pending: Words, ops: seq<Operation>, event: bv8)
    requires 32 <= event < 64 && Cascaded(pending) && Pending(pending, event)
    requires forall i :: 0 <= i < |ops| ==> Proper(ops[i]) && ops[i] != Clear(event)
    ensures Cascaded(Run(pending, ops)) && Pending(Run(pending, ops), event)
    ensures Pending(Run(pending, ops), EVENT_CASCADE1)
    decreases |ops|
  {
    if ops == [] {
      BitInWord(pending, event);
    } else {
      StepKeepsSecond(pending, ops[0], event);
      SecondWordStays(After(pending, ops[0]), ops[1..], event);
    }
  }

  lemma BitInWord(pending: Words, event: bv8)
    requires 32 <= event < 64 && Pending(pending, event)
    ensures pending.w1 != 0
  {
  }

  lemma StepKeepsSecond(pending: Words, op: Operation, event: bv8)
    requires 32 <= event < 64 && Cascaded(pending) && Pending(pending, event)
    requires Proper(op) && op != Clear(event)
    ensures Cascaded(After(pending, op)) && Pending(After(pending, op), event)
  {
    match op {
      case Raise(e) =>
        RaisedKeepsCascades(pending, e);
        RaisedEvents(pending, e, event);
      case Clear(e) =>
        ClearedKeepsCascades(pending, e);
        ClearedEvents(pending, e, event);
      case Guest(register, value) =>
        Acknowledged0Keeps(pending, value);
        Acknowledged2Keeps(pending, value);
    }
  }
}
