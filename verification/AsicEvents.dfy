// The interrupt multiplexer event by event: where an event sits in the pending words, what
// each operation does to it, and what whole runs leave pending.
module AsicEvents {
  import opened Asic

  // ---------------------------------------------------------------- places

  // The event with this number is bit number & 31 of word number >> 5.
  lemma EventPlace(pending: Words, event: bv8)
    requires event < EVENTS
    ensures Pending(pending, event) <==> (pending.At(event >> 5) >> (event & 0x1F)) & 1 == 1
  {
  }

  predicate Set(x: bv32, place: bv8) {
    (x >> (place & 0x1F)) & 1 == 1
  }

  lemma BitAt(x: bv32, event: bv8)
    ensures Meets(x, Bit(event)) <==> Set(x, event)
  {
  }

  lemma SansSet(x: bv32, bits: bv32, place: bv8)
    ensures Set(Sans(x, bits), place) <==> Set(x, place) && !Set(bits, place)
  {
  }

  lemma SansBit(x: bv32, bits: bv32, event: bv8)
    ensures Meets(Sans(x, bits), Bit(event)) <==> Meets(x, Bit(event)) && !Meets(bits, Bit(event))
  {
    hide Meets, Bit, Sans, Set;
    BitAt(x, event);
    BitAt(bits, event);
    BitAt(Sans(x, bits), event);
    SansSet(x, bits, event);
  }

  lemma LowSet(value: bv32, place: bv8)
    requires place < 32
    ensures Set(value & 0x3FFF_FFFF, place) <==> place < 30 && Set(value, place)
    ensures Set(0x8000_0000, place) <==> place == 31
  {
  }

  lemma LowBits(value: bv32, event: bv8)
    requires event < 32
    ensures Meets(value & 0x3FFF_FFFF, Bit(event)) <==> event < 30 && Meets(value, Bit(event))
  {
    hide Meets, Bit, Set;
    LowSet(value, event);
    BitAt(value & 0x3FFF_FFFF, event);
    BitAt(value, event);
  }

  lemma TopBit(x: bv32, event: bv8)
    requires event < 32
    ensures Meets(Sans(x, 0x8000_0000), Bit(event)) <==> event != 31 && Meets(x, Bit(event))
  {
    hide Meets, Bit, Sans, Set;
    SansBit(x, 0x8000_0000, event);
    LowSet(x, event);
    BitAt(0x8000_0000, event);
  }

  lemma WordIs(event: bv8)
    requires event < EVENTS
    ensures WordOf(event) == if event < 32 then 0 else if event < 64 then 1 else 2
  {
  }

  // ---------------------------------------------------------------- what the guest writes

  // A write to the first pending register takes away the events of the first word written
  // with a one, but for the cascade bits, and no other.
  lemma AcknowledgedFirst(pending: Words, value: bv32, event: bv8)
    requires event < EVENTS
    ensures Pending(Acknowledged0(pending, value), event)
            <==> Pending(pending, event) && !(event < 30 && Meets(value, Bit(event)))
  {
    hide Meets, Sans, Bit, WordOf;
    WordIs(event);
    SansBit(pending.w0, value & 0x3FFF_FFFF, event);
    if event < 32 {
      LowBits(value, event);
    }
  }

  // A write to the third one takes away those of the third word; the cascade bit goes when
  // none is left.
  lemma AcknowledgedThird(pending: Words, value: bv32, event: bv8)
    requires event < EVENTS
    ensures var r := Acknowledged2(pending, value);
            Pending(r, event)
            <==> Pending(pending, event) && !(event >= 64 && Meets(value, Bit(event))) && !(event == EVENT_CASCADE2 && r.w2 == 0)
  {
    hide Meets, Sans, Bit, WordOf;
    WordIs(event);
    SansBit(pending.w2, value, event);
    if event < 32 {
      TopBit(pending.w0, event);
    }
  }

  // A write to the second one does nothing.
  lemma AcknowledgedSecond(pending: Words, value: bv32)
    ensures Written(pending, Pending1, value) == pending
  {
  }

  // ---------------------------------------------------------------- selection

  lemma SomeBit(x: bv32)
    ensures x != 0 ==> exists event: bv8 :: event < 32 && Meets(x, Bit(event))
  {
    if x != 0 {
      var event := LowestBit(x);
      LowestBitIn(x);
    }
  }

  // The place of the lowest bit, halving the word.
  function LowestBit(x: bv32): bv8 {
    var a: bv8 := if x & 0xFFFF == 0 then 16 else 0;
    var b: bv8 := if (x >> a) & 0xFF == 0 then a + 8 else a;
    var c: bv8 := if (x >> b) & 0xF == 0 then b + 4 else b;
    var d: bv8 := if (x >> c) & 0x3 == 0 then c + 2 else c;
    if (x >> d) & 0x1 == 0 then d + 1 else d
  }

  lemma LowestBitIn(x: bv32)
    requires x != 0
    ensures LowestBit(x) < 32 && Meets(x, Bit(LowestBit(x)))
  {
  }

  lemma BitOfBoth(x: bv32, mask: bv32, event: bv8)
    ensures Meets(x & mask, Bit(event)) <==> Meets(x, Bit(event)) && Meets(mask, Bit(event))
  {
  }

  lemma SharedBit(x: bv32, mask: bv32)
    ensures Meets(x, mask) <==> exists event: bv8 :: event < 32 && Meets(x, Bit(event)) && Meets(mask, Bit(event))
  {
    hide Bit;
    SomeBit(x & mask);
    forall event: bv8 ensures Meets(x & mask, Bit(event)) <==> Meets(x, Bit(event)) && Meets(mask, Bit(event)) {
      BitOfBoth(x, mask, event);
    }
    if event: bv8 :| event < 32 && Meets(x & mask, Bit(event)) {
      NotZero(x & mask, Bit(event));
    }
  }

  lemma NotZero(x: bv32, mask: bv32)
    ensures Meets(x, mask) ==> x != 0
  {
  }

  // A mask selects what is pending if and only if it has the bit of some pending event.
  lemma SelectedEvents(pending: Words, mask: Words)
    ensures Selected(pending, mask)
            <==> exists event: bv8 :: event < EVENTS && Pending(pending, event) && Pending(mask, event)
  {
    hide Meets, Bit, WordOf;
    SharedBit(pending.w0, mask.w0);
    SharedBit(pending.w1, mask.w1);
    SharedBit(pending.w2, mask.w2);
    forall event: bv8 | event < EVENTS ensures WordOf(event) == if event < 32 then 0 else if event < 64 then 1 else 2 {
      WordIs(event);
    }
    if event: bv8 :| event < EVENTS && Pending(pending, event) && Pending(mask, event) {
      InWord(event);
    } else {
      forall event: bv8 | event < 32
        ensures !(Meets(pending.w0, Bit(event)) && Meets(mask.w0, Bit(event)))
        ensures !(Meets(pending.w1, Bit(event)) && Meets(mask.w1, Bit(event)))
        ensures !(Meets(pending.w2, Bit(event)) && Meets(mask.w2, Bit(event)))
      {
        InWords(event);
        assert !(Pending(pending, event) && Pending(mask, event));
        assert !(Pending(pending, event + 32) && Pending(mask, event + 32));
        assert !(Pending(pending, event + 64) && Pending(mask, event + 64));
      }
    }
  }

  lemma InWord(event: bv8)
    ensures Bit(event) == Bit(event & 0x1F) && event & 0x1F < 32
  {
  }

  lemma InWords(event: bv8)
    requires event < 32
    ensures event + 32 < EVENTS && event + 64 < EVENTS
    ensures WordOf(event) == 0 && WordOf(event + 32) == 1 && WordOf(event + 64) == 2
    ensures Bit(event + 32) == Bit(event) && Bit(event + 64) == Bit(event)
  {
  }

  // ---------------------------------------------------------------- whole runs

  // What an operation does to one source.
  function Still(event: bv8, was: bool, op: Operation): bool {
    match op
    case Raise(e) => was || e == event
    case Clear(e) => was && e != event
    case Guest(Pending0, value) => was && !(event < 32 && Meets(value, Bit(event)))
    case Guest(Pending2, value) => was && !(event >= 64 && Meets(value, Bit(event)))
    case Guest(_, _) => was
  }

  function History(event: bv8, was: bool, ops: seq<Operation>): bool
    decreases |ops|
  {
    if ops == [] then was else History(event, Still(event, was, ops[0]), ops[1..])
  }

  lemma OperationEvents(pending: Words, op: Operation, event: bv8)
    requires Proper(op) && Source(event) && Cascaded(pending)
    ensures Pending(After(pending, op), event) <==> Still(event, Pending(pending, event), op)
    ensures Cascaded(After(pending, op))
  {
    hide Pending, Meets, Cascaded, Raised, Cleared, Acknowledged0, Acknowledged2, Bit;
    match op {
      case Raise(e) =>
        RaisedEvents(pending, e, event);
        RaisedKeepsCascades(pending, e);
      case Clear(e) =>
        ClearedEvents(pending, e, event);
        ClearedKeepsCascades(pending, e);
      case Guest(register, value) =>
        Acknowledged0Keeps(pending, value);
        Acknowledged2Keeps(pending, value);
        AcknowledgedFirst(pending, value, event);
        AcknowledgedThird(pending, value, event);
    }
  }

  // Whatever happens to the others: a source is pending after a run if and only if it was or
  // has been raised, and has not been cleared or acknowledged since.
  lemma {:induction false} EveryEventTracked(pending: Words, ops: seq<Operation>, event: bv8)
    requires Source(event) && Cascaded(pending) && forall i :: 0 <= i < |ops| ==> Proper(ops[i])
    ensures Pending(Run(pending, ops), event) <==> History(event, Pending(pending, event), ops)
    decreases |ops|
  {
    hide Pending, Cascaded, After, Still;
    if ops != [] {
      OperationEvents(pending, ops[0], event);
      EveryEventTracked(After(pending, ops[0]), ops[1..], event);
    }
  }
}
