// The inter-thread message queue: a 64-slot ring guarded by one mutex and three
// condition variables, with one producer thread and one re-entrant consumer thread.
//
// The ring is a class over an array; the protocol around it is a transition system
// whose steps are the statements of the queue functions, one thread at a time.

module MessageRing {
  const LENGTH := 64

  datatype Message = Message(callback: nat, data: nat)
  datatype Entry = Entry(message: Message, synchronous: bool)

  // The value of the ring: its slots and the two indices.
  datatype Ring = Ring(slots: seq<Entry>, head: nat, tail: nat) {

    predicate Valid() {
      |slots| == LENGTH && head < LENGTH && tail < LENGTH
    }

    predicate Empty() {
      head == tail
    }

    predicate Full() {
      head == tail + 1 || (head == 0 && tail == LENGTH - 1)
    }

    // The queued entries, oldest first.
    function Contents(): (s: seq<Entry>)
      requires Valid()
    {
      if head <= tail then slots[head..tail] else slots[head..] + slots[..tail]
    }

    function Put(e: Entry): Ring
      requires Valid()
    {
      Ring(slots[tail := e], head, if tail + 1 == LENGTH then 0 else tail + 1)
    }

    function Drop(): Ring
      requires Valid()
    {
      Ring(slots, if head + 1 == LENGTH then 0 else head + 1, tail)
    }

    lemma Occupancy()
      requires Valid()
      ensures |Contents()| < LENGTH
      ensures Empty() <==> Contents() == []
      ensures Full() <==> |Contents()| == LENGTH - 1
    {
    }

    // Queueing on a full ring would make it look empty, losing all it holds.
    lemma PutAppends(e: Entry)
      requires Valid()
      ensures Put(e).Valid()
      ensures !Full() <==> Put(e).Contents() == Contents() + [e]
    {
    }

    lemma DropRemovesOldest()
      requires Valid() && !Empty()
      ensures Drop().Valid() && !Drop().Full()
      ensures Contents() == [slots[head]] + Drop().Contents()
    {
    }
  }

  class MessageQueue {
    const slots: array<Entry>
    var head: nat
    var tail: nat

    ghost predicate Valid()
      reads this
    {
      slots.Length == LENGTH && head < LENGTH && tail < LENGTH
    }

    ghost function Abs(): Ring
      reads this, slots
      requires Valid()
    {
      Ring(slots[..], head, tail)
    }

    constructor (filler: Entry)
      ensures Valid() && fresh(slots)
      ensures Abs().Contents() == []
    {
      slots := new Entry[LENGTH](_ => filler);
      head, tail := 0, 0;
    }

    predicate IsEmpty()
      reads this
    {
      head == tail
    }

    predicate IsFull()
      reads this
    {
      head == tail + 1 || (head == 0 && tail == LENGTH - 1)
    }

    // The caller's side of the assertion at the top of the enqueue function.
    method Enqueue(e: Entry)
      requires Valid() && !IsFull()
      modifies this`tail, slots
      ensures Valid() && Abs() == old(Abs()).Put(e)
      ensures Abs().Contents() == old(Abs().Contents()) + [e]
    {
      ghost var was := Abs();
      slots[tail] := e;
      tail := tail + 1;
      if tail == LENGTH {
        tail := 0;
      }
      assert Abs().slots == was.slots[was.tail := e];
      was.PutAppends(e);
    }

    // The first half of one turn of the processing loop.
    method Dequeue() returns (e: Entry, wasFull: bool)
      requires Valid() && !IsEmpty()
      modifies this`head
      ensures Valid() && Abs() == old(Abs()).Drop()
      ensures old(Abs().Contents()) == [e] + Abs().Contents()
      ensures wasFull <==> |old(Abs().Contents())| == LENGTH - 1
    {
      ghost var was := Abs();
      wasFull := IsFull();
      e := slots[head];
      head := head + 1;
      if head == LENGTH {
        head := 0;
      }
      was.DropRemovesOldest();
      was.Occupancy();
    }
  }
}
