// The queue functions as a transition system: one step per statement that touches
// shared state, over every interleaving of one producer and one consumer thread.
module QueueProtocol {
  import opened MessageRing

  datatype Call = Post(message: Message) | Send(message: Message)

  // Where the producer thread stands in tqueue_post_message or tqueue_send_message.
  datatype Producer =
    | Idle
    | Locking(call: Call)               // about to take the mutex
    | Testing(call: Call)               // holds it, about to test for a full ring
    | FullWait(call: Call)              // waits on producer_full_wait, mutex released
    | FullWoken(call: Call)             // signalled, has to take the mutex again
    | Queueing(call: Call)              // holds the mutex, about to enqueue
    | Signalling(call: Call)            // holds it, about to signal consumer_wait
    | Unlocking                         // holds it, about to leave a post
    | SyncWait(call: Call, id: nat)     // waits on producer_sync_wait, mutex released
    | SyncWoken(call: Call, id: nat)    // signalled, has to take the mutex again
    | Reading(call: Call, id: nat)      // holds it, about to read last_result
    | Returning(call: Call, id: nat, result: int)  // holds it, about to leave a send
  {
    predicate HoldsMutex() {
      Testing? || Queueing? || Signalling? || Unlocking? || Reading? || Returning?
    }

    predicate Blocked() {
      FullWait? || SyncWait?
    }
  }

  // A message taken from the ring; id is its position in the order of enqueueing.
  datatype Frame = Frame(id: nat, entry: Entry)

  // Where the consumer thread stands. While it is Outside it runs client code, or the
  // callback on top of the stack, which may process the queue again.
  datatype Consumer =
    | Outside
    | LockingAll | LockingWait          // about to take the mutex
    | TestingAll | TestingWait          // holds it, about to test for an empty ring
    | Waiting                           // waits on consumer_wait, mutex released
    | Woken                             // signalled, has to take the mutex again
    | Looping                           // holds it, at the test of the processing loop
    | WakingProducer(frame: Frame)      // took an entry from a full ring, about to signal
    | Calling(frame: Frame)             // about to release the mutex and call back
    | Relocking(frame: Frame, result: int)  // callback over, about to take the mutex
    | Finishing(frame: Frame, result: int)  // holds it, about to publish the result
    | Leaving                           // holds it, about to release it
  {
    predicate HoldsMutex() {
      TestingAll? || TestingWait? || Looping? || WakingProducer? || Calling? || Finishing? || Leaving?
    }

    predicate HasFrame() {
      WakingProducer? || Calling? || Relocking? || Finishing?
    }
  }

  datatype Owner = Nobody | ByProducer | ByConsumer

  // What a send of this message, enqueued at position id, returned.
  datatype Reply = Reply(message: Message, id: nat, result: int)

  datatype State = State(
    ring: Ring,
    mutex: Owner,
    lastResult: int,
    producer: Producer,
    consumer: Consumer,
    stack: seq<Frame>,        // callbacks in progress, outermost first
    assertFailed: bool,       // the not-full assertion of tqueue_enqueue
    // history
    enqueued: seq<Entry>,
    taken: nat,
    started: seq<Entry>,      // callbacks in the order they were called
    results: map<nat, int>,   // what each finished callback returned
    replies: seq<Reply>)      // what each finished send returned

  datatype Action =
    | ProducerCall(call: Call)
    | ProducerStep
    | ProcessAll
    | ProcessWait
    | ConsumerStep
    | CallbackReturn(result: int)

  function Initial(filler: Entry): State {
    State(Ring(seq(LENGTH, _ => filler), 0, 0), Nobody, -1, Idle, Outside, [],
          false, [], 0, [], map[], [])
  }

  // Taking the mutex is the only statement that can be blocked by the other thread;
  // a thread in a condition wait has no statement of its own.
  predicate Enabled(s: State, a: Action) {
    match a
    case ProducerCall(_) => s.producer.Idle?
    case ProducerStep =>
      if s.producer.Locking? || s.producer.FullWoken? || s.producer.SyncWoken? then s.mutex.Nobody?
      else !s.producer.Idle? && !s.producer.Blocked()
    case ProcessAll => s.consumer.Outside?
    case ProcessWait => s.consumer.Outside?
    case ConsumerStep =>
      if s.consumer.LockingAll? || s.consumer.LockingWait? || s.consumer.Woken? || s.consumer.Relocking?
      then s.mutex.Nobody?
      else !s.consumer.Outside? && !s.consumer.Waiting?
    case CallbackReturn(_) => s.consumer.Outside? && s.stack != []
  }

  function Step(s: State, a: Action): (t: State)
    requires s.ring.Valid() && Enabled(s, a)
    ensures t.ring.Valid()
  {
    match a
    case ProducerCall(call) => s.(producer := Locking(call))
    case ProducerStep => StepProducer(s)
    case ProcessAll => s.(consumer := LockingAll)
    case ProcessWait => s.(consumer := LockingWait)
    case ConsumerStep => StepConsumer(s)
    case CallbackReturn(result) =>
      var frame := s.stack[|s.stack| - 1];
      s.(consumer := Relocking(frame, result),
         stack := s.stack[..|s.stack| - 1],
         results := s.results[frame.id := result])
  }

  function StepProducer(s: State): (t: State)
    requires s.ring.Valid() && Enabled(s, ProducerStep)
    ensures t.ring.Valid()
  {
    match s.producer
    case Locking(call) => s.(producer := Testing(call), mutex := ByProducer)
    case Testing(call) =>
      if s.ring.Full() then s.(producer := FullWait(call), mutex := Nobody)
      else s.(producer := Queueing(call))
    case FullWoken(call) => s.(producer := Queueing(call), mutex := ByProducer)
    case Queueing(call) =>
      var e := Entry(call.message, call.Send?);
      if s.ring.Full() then s.(assertFailed := true)
      else s.(producer := Signalling(call), ring := s.ring.Put(e), enqueued := s.enqueued + [e])
    case Signalling(call) =>
      var s1 := s.(consumer := if s.consumer.Waiting? then Woken else s.consumer);
      if call.Send? then s1.(producer := SyncWait(call, if s.enqueued == [] then 0 else |s.enqueued| - 1), mutex := Nobody)
      else s1.(producer := Unlocking)
    case Unlocking => s.(producer := Idle, mutex := Nobody)
    case SyncWoken(call, id) => s.(producer := Reading(call, id), mutex := ByProducer)
    case Reading(call, id) => s.(producer := Returning(call, id, s.lastResult))
    case Returning(call, id, result) =>
      s.(producer := Idle, mutex := Nobody, replies := s.replies + [Reply(call.message, id, result)])
  }

  function StepConsumer(s: State): (t: State)
    requires s.ring.Valid() && Enabled(s, ConsumerStep)
    ensures t.ring.Valid()
  {
    match s.consumer
    case LockingAll => s.(consumer := TestingAll, mutex := ByConsumer)
    case LockingWait => s.(consumer := TestingWait, mutex := ByConsumer)
    case TestingAll => s.(consumer := if s.ring.Empty() then Leaving else Looping)
    case TestingWait =>
      if s.ring.Empty() then s.(consumer := Waiting, mutex := Nobody)
      else s.(consumer := Looping)
    case Woken => s.(consumer := Looping, mutex := ByConsumer)
    case Looping =>
      if s.ring.Empty() then s.(consumer := Leaving)
      else
        var frame := Frame(s.taken, s.ring.slots[s.ring.head]);
        s.(consumer := if s.ring.Full() then WakingProducer(frame) else Calling(frame),
           ring := s.ring.Drop(), taken := s.taken + 1)
    case WakingProducer(frame) =>
      s.(consumer := Calling(frame),
         producer := if s.producer.FullWait? then FullWoken(s.producer.call) else s.producer)
    case Calling(frame) =>
      s.(consumer := Outside, mutex := Nobody, stack := s.stack + [frame], started := s.started + [frame.entry])
    case Relocking(frame, result) => s.(consumer := Finishing(frame, result), mutex := ByConsumer)
    case Finishing(frame, result) =>
      if frame.entry.synchronous then
        s.(consumer := Looping, lastResult := result,
           producer := if s.producer.SyncWait? then SyncWoken(s.producer.call, s.producer.id) else s.producer)
      else s.(consumer := Looping)
    case Leaving => s.(consumer := Outside, mutex := Nobody)
  }

  // ---------------------------------------------------------------- invariants

  ghost predicate RingOk(s: State) {
    && s.ring.Valid()
    && !s.assertFailed
    && s.taken <= |s.enqueued|
    && s.ring.Contents() == s.enqueued[s.taken..]
    && (s.producer.Queueing? || s.producer.FullWoken? ==> !s.ring.Full())
    && (s.producer.Signalling? ==> !s.ring.Empty())
    && (s.consumer.WakingProducer? || s.consumer.Calling? ==> !s.ring.Full())
  }

  ghost predicate MutexOk(s: State) {
    && (s.mutex.ByProducer? <==> s.producer.HoldsMutex())
    && (s.mutex.ByConsumer? <==> s.consumer.HoldsMutex())
  }

  ghost predicate FrameOk(s: State, f: Frame) {
    f.id < s.taken <= |s.enqueued| && f.entry == s.enqueued[f.id]
  }

  // Every message taken from the ring is the callee of at most one frame; frames deeper
  // in the stack hold older messages; only finished callbacks have a result.
  ghost predicate FramesOk(s: State) {
    && s.taken <= |s.enqueued|
    && (forall i :: 0 <= i < |s.stack| ==> FrameOk(s, s.stack[i]) && s.stack[i].id !in s.results)
    && (forall i, j :: 0 <= i < j < |s.stack| ==> s.stack[i].id < s.stack[j].id)
    && (forall k :: k in s.results ==> k < s.taken)
    && (s.consumer.HasFrame() ==>
          && FrameOk(s, s.consumer.frame)
          && (forall i :: 0 <= i < |s.stack| ==> s.stack[i].id < s.consumer.frame.id))
    && (s.consumer.WakingProducer? || s.consumer.Calling? ==>
          s.consumer.frame.id == s.taken - 1 && s.consumer.frame.id !in s.results)
    && (s.consumer.Relocking? || s.consumer.Finishing? ==>
          s.consumer.frame.id in s.results && s.results[s.consumer.frame.id] == s.consumer.result)
  }

  // How many of the messages taken have had their callback called.
  function StartedCount(s: State): int {
    if s.consumer.WakingProducer? || s.consumer.Calling? then s.taken - 1 else s.taken
  }

  ghost predicate OrderOk(s: State) {
    && 0 <= StartedCount(s) <= |s.enqueued|
    && s.started == s.enqueued[..StartedCount(s)]
  }

  // A message is live from being enqueued until the consumer has dealt with its result.
  ghost predicate Live(s: State, k: nat) {
    || s.taken <= k < |s.enqueued|
    || (exists i :: 0 <= i < |s.stack| && s.stack[i].id == k)
    || (s.consumer.HasFrame() && s.consumer.frame.id == k)
  }

  ghost predicate AwaitsReply(s: State, k: nat) {
    && k == |s.enqueued| - 1
    && ((s.producer.SyncWait? && s.producer.id == k) || (s.producer.Signalling? && s.producer.call.Send?))
  }

  // At most one synchronous message is live: the last one enqueued, whose sender waits.
  ghost predicate SyncOk(s: State) {
    && s.taken <= |s.enqueued|
    && (forall k :: s.taken <= k < |s.enqueued| && s.enqueued[k].synchronous ==> AwaitsReply(s, k))
    && (forall i :: 0 <= i < |s.stack| && s.stack[i].entry.synchronous ==> AwaitsReply(s, s.stack[i].id))
    && (s.consumer.HasFrame() && s.consumer.frame.entry.synchronous ==> AwaitsReply(s, s.consumer.frame.id))
  }

  // A sender that waits has its message last in the queue and not yet dealt with.
  ghost predicate SenderOk(s: State) {
    && (s.producer.Signalling? ==>
          && s.taken < |s.enqueued|
          && s.enqueued[|s.enqueued| - 1] == Entry(s.producer.call.message, s.producer.call.Send?))
    && (s.producer.SyncWait? ==>
          && s.producer.id == |s.enqueued| - 1
          && s.enqueued[s.producer.id] == Entry(s.producer.call.message, true)
          && Live(s, s.producer.id))
  }

  ghost predicate RepliesOk(s: State) {
    && (s.producer.SyncWoken? || s.producer.Reading? ==> GoodReply(s, Reply(s.producer.call.message, s.producer.id, s.lastResult)))
    && (s.producer.Returning? ==> GoodReply(s, Reply(s.producer.call.message, s.producer.id, s.producer.result)))
    && (forall i :: 0 <= i < |s.replies| ==> GoodReply(s, s.replies[i]))
  }

  // The reply names the message its send enqueued and carries what its own callback returned.
  ghost predicate GoodReply(s: State, r: Reply) {
    && r.id < |s.enqueued|
    && s.enqueued[r.id] == Entry(r.message, true)
    && r.id in s.results && s.results[r.id] == r.result
  }

  // No wakeup is ever lost.
  ghost predicate WakeupsOk(s: State) {
    && (s.producer.FullWait? ==> s.ring.Valid() && (s.ring.Full() || s.consumer.WakingProducer?))
    && (s.consumer.Waiting? ==> s.ring.Valid() && (s.ring.Empty() || s.producer.Signalling?))
    && (s.consumer.Woken? ==> s.ring.Valid() && !s.ring.Empty())
    && (s.consumer.Leaving? ==> s.ring.Empty())
  }

  ghost predicate Inv(s: State) {
    RingOk(s) && MutexOk(s) && FramesOk(s) && OrderOk(s) && SyncOk(s) && SenderOk(s) && RepliesOk(s) && WakeupsOk(s)
  }

  lemma InitialInv(filler: Entry)
    ensures Inv(Initial(filler))
  {
  }

  // The producer's steps, one part of the invariant at a time.

  lemma ProducerKeepsRing(s: State)
    requires RingOk(s) && MutexOk(s) && WakeupsOk(s) && Enabled(s, ProducerStep)
    ensures RingOk(StepProducer(s)) && WakeupsOk(StepProducer(s))
  {
    s.ring.Occupancy();
    if s.producer.Queueing? {
      var e := Entry(s.producer.call.message, s.producer.call.Send?);
      s.ring.PutAppends(e);
      assert (s.enqueued + [e])[s.taken..] == s.enqueued[s.taken..] + [e];
    }
  }

  lemma ProducerKeepsFrames(s: State)
    requires RingOk(s) && MutexOk(s) && FramesOk(s) && OrderOk(s) && Enabled(s, ProducerStep)
    ensures MutexOk(StepProducer(s)) && FramesOk(StepProducer(s)) && OrderOk(StepProducer(s))
  {
    var t := StepProducer(s);
    assert s.enqueued <= t.enqueued;
    assert t.stack == s.stack && t.taken == s.taken && t.results == s.results;
    assert t.consumer == s.consumer || (s.consumer.Waiting? && t.consumer.Woken?);
  }

  lemma ProducerKeepsSync(s: State)
    requires RingOk(s) && FramesOk(s) && SyncOk(s) && SenderOk(s) && Enabled(s, ProducerStep)
    ensures SyncOk(StepProducer(s)) && SenderOk(StepProducer(s))
  {
    var t := StepProducer(s);
    assert t.stack == s.stack && t.taken == s.taken;
    assert t.consumer == s.consumer || (s.consumer.Waiting? && t.consumer.Woken?);
    if s.producer.Signalling? {
      assert t.enqueued == s.enqueued;
    } else if s.producer.Queueing? {
      assert forall i :: 0 <= i < |s.stack| ==> !s.stack[i].entry.synchronous;
    } else {
      assert t.enqueued == s.enqueued;
    }
  }

  lemma ProducerKeepsReplies(s: State)
    requires RingOk(s) && RepliesOk(s) && Enabled(s, ProducerStep)
    ensures RepliesOk(StepProducer(s))
  {
  }

  // The consumer's steps.

  lemma TakingKeepsRing(s: State)
    requires RingOk(s) && MutexOk(s) && WakeupsOk(s) && Enabled(s, ConsumerStep) && s.consumer.Looping?
    ensures RingOk(StepConsumer(s)) && WakeupsOk(StepConsumer(s))
  {
    hide Ring.Contents, Ring.Drop, Ring.Full;
    s.ring.Occupancy();
    if !s.ring.Empty() {
      s.ring.DropRemovesOldest();
      assert s.enqueued[s.taken + 1..] == s.enqueued[s.taken..][1..];
    }
  }

  lemma OtherwiseKeepsRing(s: State)
    requires RingOk(s) && MutexOk(s) && WakeupsOk(s) && Enabled(s, ConsumerStep) && !s.consumer.Looping?
    ensures RingOk(StepConsumer(s)) && WakeupsOk(StepConsumer(s))
  {
    hide Ring.Contents;
    var t := StepConsumer(s);
    assert t.ring == s.ring && t.enqueued == s.enqueued && t.taken == s.taken && t.assertFailed == s.assertFailed;
  }

  lemma ConsumerKeepsRing(s: State)
    requires RingOk(s) && MutexOk(s) && WakeupsOk(s) && Enabled(s, ConsumerStep)
    ensures RingOk(StepConsumer(s)) && WakeupsOk(StepConsumer(s))
  {
    hide RingOk, MutexOk, WakeupsOk, StepConsumer;
    if s.consumer.Looping? {
      TakingKeepsRing(s);
    } else {
      OtherwiseKeepsRing(s);
    }
  }

  // The entry taken is the oldest one not taken before.
  lemma TakenEntry(s: State)
    requires RingOk(s) && !s.ring.Empty()
    ensures s.taken < |s.enqueued| && s.ring.slots[s.ring.head] == s.enqueued[s.taken]
  {
  }

  lemma ConsumerKeepsMutex(s: State)
    requires s.ring.Valid() && MutexOk(s) && Enabled(s, ConsumerStep)
    ensures MutexOk(StepConsumer(s))
  {
  }

  lemma TakingKeepsFrames(s: State)
    requires RingOk(s) && FramesOk(s) && Enabled(s, ConsumerStep) && s.consumer.Looping?
    ensures FramesOk(StepConsumer(s))
  {
    if !s.ring.Empty() {
      TakenEntry(s);
    }
  }

  lemma CallingKeepsFrames(s: State)
    requires RingOk(s) && FramesOk(s) && Enabled(s, ConsumerStep) && s.consumer.Calling?
    ensures FramesOk(StepConsumer(s))
  {
    var t := StepConsumer(s);
    assert t.stack[|s.stack|] == s.consumer.frame;
    assert forall i :: 0 <= i < |s.stack| ==> t.stack[i] == s.stack[i];
  }

  lemma OtherwiseKeepsFrames(s: State)
    requires RingOk(s) && FramesOk(s) && Enabled(s, ConsumerStep) && !s.consumer.Looping? && !s.consumer.Calling?
    ensures FramesOk(StepConsumer(s))
  {
    var t := StepConsumer(s);
    assert t.stack == s.stack && t.taken == s.taken && t.enqueued == s.enqueued && t.results == s.results;
  }

  lemma ConsumerKeepsFrames(s: State)
    requires RingOk(s) && FramesOk(s) && Enabled(s, ConsumerStep)
    ensures FramesOk(StepConsumer(s))
  {
    hide RingOk, FramesOk, SyncOk, StepConsumer;
    if s.consumer.Looping? {
      TakingKeepsFrames(s);
    } else if s.consumer.Calling? {
      CallingKeepsFrames(s);
    } else {
      OtherwiseKeepsFrames(s);
    }
  }

  lemma ConsumerKeepsOrder(s: State)
    requires RingOk(s) && FramesOk(s) && OrderOk(s) && Enabled(s, ConsumerStep)
    ensures OrderOk(StepConsumer(s))
  {
    if s.consumer.Looping? && !s.ring.Empty() {
      TakenEntry(s);
    }
  }

  lemma TakingKeepsSync(s: State)
    requires RingOk(s) && FramesOk(s) && SyncOk(s) && Enabled(s, ConsumerStep) && s.consumer.Looping?
    ensures SyncOk(StepConsumer(s))
  {
    if !s.ring.Empty() {
      TakenEntry(s);
    }
  }

  lemma CallingKeepsSync(s: State)
    requires RingOk(s) && FramesOk(s) && SyncOk(s) && Enabled(s, ConsumerStep) && s.consumer.Calling?
    ensures SyncOk(StepConsumer(s))
  {
    var t := StepConsumer(s);
    assert t.stack[|s.stack|] == s.consumer.frame;
    assert forall i :: 0 <= i < |s.stack| ==> t.stack[i] == s.stack[i];
  }

  lemma OtherwiseKeepsSync(s: State)
    requires RingOk(s) && FramesOk(s) && SyncOk(s) && Enabled(s, ConsumerStep) && !s.consumer.Looping? && !s.consumer.Calling?
    ensures SyncOk(StepConsumer(s))
  {
    var t := StepConsumer(s);
    assert t.stack == s.stack && t.taken == s.taken && t.enqueued == s.enqueued && t.results == s.results;
  }

  lemma ConsumerKeepsSync(s: State)
    requires RingOk(s) && FramesOk(s) && SyncOk(s) && Enabled(s, ConsumerStep)
    ensures SyncOk(StepConsumer(s))
  {
    hide RingOk, FramesOk, SyncOk, StepConsumer;
    if s.consumer.Looping? {
      TakingKeepsSync(s);
    } else if s.consumer.Calling? {
      CallingKeepsSync(s);
    } else {
      OtherwiseKeepsSync(s);
    }
  }

  // The message of a waiting sender stays live until its result is published.
  lemma TakingKeepsSender(s: State)
    requires RingOk(s) && MutexOk(s) && FramesOk(s) && SyncOk(s) && SenderOk(s) && Enabled(s, ConsumerStep) && s.consumer.Looping?
    ensures SenderOk(StepConsumer(s))
  {
    var t := StepConsumer(s);
    if s.producer.SyncWait? {
      if !s.ring.Empty() {
        TakenEntry(s);
      }
      assert Live(t, s.producer.id);
    }
  }

  lemma CallingKeepsSender(s: State)
    requires RingOk(s) && MutexOk(s) && FramesOk(s) && SyncOk(s) && SenderOk(s) && Enabled(s, ConsumerStep) && s.consumer.Calling?
    ensures SenderOk(StepConsumer(s))
  {
    var t := StepConsumer(s);
    if s.producer.SyncWait? {
      assert t.stack[|s.stack|] == s.consumer.frame;
      assert forall i :: 0 <= i < |s.stack| ==> t.stack[i] == s.stack[i];
      assert Live(t, s.producer.id);
    }
  }

  lemma OtherwiseKeepsSender(s: State)
    requires RingOk(s) && MutexOk(s) && FramesOk(s) && SyncOk(s) && SenderOk(s) && Enabled(s, ConsumerStep) && !s.consumer.Looping? && !s.consumer.Calling?
    ensures SenderOk(StepConsumer(s))
  {
    var t := StepConsumer(s);
    assert t.stack == s.stack && t.taken == s.taken && t.enqueued == s.enqueued;
    if s.producer.SyncWait? && t.producer.SyncWait? {
      assert s.consumer.Finishing? ==> s.consumer.frame.id != s.producer.id;
      assert Live(t, s.producer.id);
    }
  }

  lemma ConsumerKeepsSender(s: State)
    requires RingOk(s) && MutexOk(s) && FramesOk(s) && SyncOk(s) && SenderOk(s) && Enabled(s, ConsumerStep)
    ensures SenderOk(StepConsumer(s))
  {
    hide RingOk, MutexOk, FramesOk, SyncOk, SenderOk, StepConsumer;
    if s.consumer.Looping? {
      TakingKeepsSender(s);
    } else if s.consumer.Calling? {
      CallingKeepsSender(s);
    } else {
      OtherwiseKeepsSender(s);
    }
  }

  lemma FinishingKeepsReplies(s: State)
    requires RingOk(s) && FramesOk(s) && SyncOk(s) && SenderOk(s) && RepliesOk(s) && Enabled(s, ConsumerStep) && s.consumer.Finishing?
    ensures RepliesOk(StepConsumer(s))
  {
    if s.consumer.frame.entry.synchronous {
      assert AwaitsReply(s, s.consumer.frame.id);
    }
  }

  lemma OtherwiseKeepsReplies(s: State)
    requires RingOk(s) && RepliesOk(s) && Enabled(s, ConsumerStep) && !s.consumer.Finishing?
    ensures RepliesOk(StepConsumer(s))
  {
    var t := StepConsumer(s);
    assert t.results == s.results && t.enqueued == s.enqueued && t.replies == s.replies && t.lastResult == s.lastResult;
  }

  lemma ConsumerKeepsReplies(s: State)
    requires RingOk(s) && FramesOk(s) && SyncOk(s) && SenderOk(s) && RepliesOk(s) && Enabled(s, ConsumerStep)
    ensures RepliesOk(StepConsumer(s))
  {
    hide RingOk, FramesOk, SyncOk, SenderOk, RepliesOk, StepConsumer;
    if s.consumer.Finishing? {
      FinishingKeepsReplies(s);
    } else {
      OtherwiseKeepsReplies(s);
    }
  }

  lemma CallbackReturnKeepsFrames(s: State, result: int)
    requires RingOk(s) && FramesOk(s) && OrderOk(s) && Enabled(s, CallbackReturn(result))
    ensures FramesOk(Step(s, CallbackReturn(result))) && OrderOk(Step(s, CallbackReturn(result)))
  {
  }

  lemma CallbackReturnKeepsSync(s: State, result: int)
    requires RingOk(s) && FramesOk(s) && SyncOk(s) && SenderOk(s) && RepliesOk(s) && Enabled(s, CallbackReturn(result))
    ensures var t := Step(s, CallbackReturn(result)); SyncOk(t) && SenderOk(t) && RepliesOk(t)
  {
    var t := Step(s, CallbackReturn(result));
    assert forall i :: 0 <= i < |s.stack| - 1 ==> t.stack[i] == s.stack[i];
  }

  lemma ProducerCallKeepsInv(s: State, call: Call)
    requires Inv(s) && Enabled(s, ProducerCall(call))
    ensures Inv(Step(s, ProducerCall(call)))
  {
  }

  lemma EnteringKeepsRing(s: State, c: Consumer)
    requires RingOk(s) && MutexOk(s) && OrderOk(s) && WakeupsOk(s) && s.consumer.Outside? && (c == LockingAll || c == LockingWait)
    ensures var t := s.(consumer := c); RingOk(t) && MutexOk(t) && OrderOk(t) && WakeupsOk(t)
  {
  }

  lemma EnteringKeepsFrames(s: State, c: Consumer)
    requires FramesOk(s) && SyncOk(s) && s.consumer.Outside? && (c == LockingAll || c == LockingWait)
    ensures var t := s.(consumer := c); FramesOk(t) && SyncOk(t)
  {
  }

  lemma EnteringKeepsSender(s: State, c: Consumer)
    requires SenderOk(s) && RepliesOk(s) && s.consumer.Outside? && (c == LockingAll || c == LockingWait)
    ensures var t := s.(consumer := c); SenderOk(t) && RepliesOk(t)
  {
  }

  lemma ProcessCallKeepsInv(s: State, a: Action)
    requires Inv(s) && Enabled(s, a) && (a.ProcessAll? || a.ProcessWait?)
    ensures Inv(Step(s, a))
  {
    hide RingOk, MutexOk, FramesOk, OrderOk, SyncOk, SenderOk, RepliesOk, WakeupsOk;
    var c := if a.ProcessAll? then LockingAll else LockingWait;
    EnteringKeepsRing(s, c);
    EnteringKeepsFrames(s, c);
    EnteringKeepsSender(s, c);
  }

  lemma ProducerKeepsInv(s: State)
    requires Inv(s) && Enabled(s, ProducerStep)
    ensures Inv(StepProducer(s))
  {
    ProducerKeepsRing(s);
    ProducerKeepsFrames(s);
    ProducerKeepsSync(s);
    ProducerKeepsReplies(s);
  }

  lemma ConsumerKeepsInv(s: State)
    requires Inv(s) && Enabled(s, ConsumerStep)
    ensures Inv(StepConsumer(s))
  {
    ConsumerKeepsRing(s);
    ConsumerKeepsMutex(s);
    ConsumerKeepsFrames(s);
    ConsumerKeepsOrder(s);
    ConsumerKeepsSync(s);
    ConsumerKeepsSender(s);
    ConsumerKeepsReplies(s);
  }

  lemma StepKeepsInv(s: State, a: Action)
    requires Inv(s) && Enabled(s, a)
    ensures Inv(Step(s, a))
  {
    match a
    case ProducerStep => ProducerKeepsInv(s);
    case ConsumerStep => ConsumerKeepsInv(s);
    case CallbackReturn(result) =>
      CallbackReturnKeepsFrames(s, result);
      CallbackReturnKeepsSync(s, result);
    case ProducerCall(call) => ProducerCallKeepsInv(s, call);
    case _ => ProcessCallKeepsInv(s, a);
  }

  // ---------------------------------------------------------------- whole runs

  ghost predicate Legal(s: State, run: seq<Action>)
    requires s.ring.Valid()
    decreases |run|
  {
    run == [] || (Enabled(s, run[0]) && Legal(Step(s, run[0]), run[1..]))
  }

  function After(s: State, run: seq<Action>): (t: State)
    requires s.ring.Valid() && Legal(s, run)
    ensures t.ring.Valid()
    decreases |run|
  {
    if run == [] then s else After(Step(s, run[0]), run[1..])
  }

  ghost predicate Reachable(filler: Entry, t: State) {
    exists run :: Legal(Initial(filler), run) && After(Initial(filler), run) == t
  }

  lemma {:induction false} RunKeepsInv(s: State, run: seq<Action>)
    requires Inv(s) && Legal(s, run)
    ensures Inv(After(s, run))
    decreases |run|
  {
    if run != [] {
      StepKeepsInv(s, run[0]);
      RunKeepsInv(Step(s, run[0]), run[1..]);
    }
  }

  lemma ReachableInv(filler: Entry, t: State)
    requires Reachable(filler, t)
    ensures Inv(t)
  {
    var run :| Legal(Initial(filler), run) && After(Initial(filler), run) == t;
    InitialInv(filler);
    RunKeepsInv(Initial(filler), run);
  }

  // The entry taken from the ring whose callback is about to be called.
  function InHand(s: State): seq<Entry> {
    if s.consumer.WakingProducer? || s.consumer.Calling? then [s.consumer.frame.entry] else []
  }

  // Callbacks are called in the order of enqueueing, each exactly once, and nothing is lost:
  // every message is called, about to be called, or still in the ring. The assertion of
  // tqueue_enqueue never fails and one slot always stays free.
  lemma FirstInFirstOut(filler: Entry, t: State)
    requires Reachable(filler, t)
    ensures !t.assertFailed && (t.producer.Queueing? ==> !t.ring.Full())
    ensures t.ring.Valid() && |t.ring.Contents()| < LENGTH
    ensures t.enqueued == t.started + InHand(t) + t.ring.Contents()
  {
    ReachableInv(filler, t);
    t.ring.Occupancy();
    if InHand(t) != [] {
      assert t.enqueued[..t.taken] == t.enqueued[..t.taken - 1] + [t.enqueued[t.taken - 1]];
    }
    assert t.enqueued == t.enqueued[..t.taken] + t.enqueued[t.taken..];
  }

  // ---------------------------------------------------------------- calls and messages

  function EntryOf(call: Call): Entry {
    Entry(call.message, call.Send?)
  }

  // The messages that the calls of a run bring, in order.
  function CallsOf(run: seq<Action>): seq<Entry>
    decreases |run|
  {
    if run == [] then []
    else (match run[0] case ProducerCall(call) => [EntryOf(call)] case _ => []) + CallsOf(run[1..])
  }

  // The message of a call that has not come to queue it yet.
  function Underway(s: State): seq<Entry> {
    if s.producer.Locking? || s.producer.Testing? || s.producer.FullWait? || s.producer.FullWoken? || s.producer.Queueing?
    then [EntryOf(s.producer.call)] else []
  }

  lemma StepKeepsCalls(s: State, a: Action)
    requires RingOk(s) && Enabled(s, a)
    ensures var t := Step(s, a); t.enqueued + Underway(t) == s.enqueued + Underway(s) + CallsOf([a])
  {
    assert [a][1..] == [];
    assert CallsOf([]) == [];
    match a {
      case ProducerStep => ProducerKeepsCalls(s);
      case ConsumerStep => ConsumerKeepsCalls(s);
      case _ =>
    }
  }

  lemma ProducerKeepsCalls(s: State)
    requires RingOk(s) && Enabled(s, ProducerStep)
    ensures StepProducer(s).enqueued + Underway(StepProducer(s)) == s.enqueued + Underway(s)
  {
  }

  lemma ConsumerKeepsCalls(s: State)
    requires RingOk(s) && Enabled(s, ConsumerStep)
    ensures StepConsumer(s).enqueued == s.enqueued && Underway(StepConsumer(s)) == Underway(s)
  {
  }

  lemma Associates<T>(x: seq<T>, y: seq<T>, z: seq<T>)
    ensures x + y + z == x + (y + z)
    ensures x + [] == x
  {
  }

  lemma CallsOfFirst(run: seq<Action>)
    ensures if run == [] then CallsOf(run) == [] else CallsOf(run) == CallsOf([run[0]]) + CallsOf(run[1..])
  {
    if run != [] {
      assert [run[0]][1..] == [] && CallsOf([]) == [];
    }
  }

  lemma {:induction false} RunKeepsCalls(s: State, run: seq<Action>)
    requires Inv(s) && Legal(s, run)
    ensures After(s, run).enqueued + Underway(After(s, run)) == s.enqueued + Underway(s) + CallsOf(run)
    decreases |run|
  {
    hide FramesOk, OrderOk, SyncOk, SenderOk, RepliesOk, WakeupsOk, Step, Underway, CallsOf;
    CallsOfFirst(run);
    if run != [] {
      StepKeepsInv(s, run[0]);
      StepKeepsCalls(s, run[0]);
      RunKeepsCalls(Step(s, run[0]), run[1..]);
      Associates(s.enqueued + Underway(s), CallsOf([run[0]]), CallsOf(run[1..]));
    }
  }

  // The messages of all calls made, in order and each marked as what it is: called back,
  // about to be, in the ring, or on their way into it. So a call that has returned has
  // queued its message, and the message is not lost.
  lemma EveryCallQueued(filler: Entry, run: seq<Action>)
    requires Legal(Initial(filler), run)
    ensures var t := After(Initial(filler), run);
            && t.ring.Valid()
            && CallsOf(run) == t.started + InHand(t) + t.ring.Contents() + Underway(t)
            && (t.producer.Idle? ==> Underway(t) == [])
  {
    var t := After(Initial(filler), run);
    InitialInv(filler);
    RunKeepsCalls(Initial(filler), run);
    assert Reachable(filler, t);
    FirstInFirstOut(filler, t);
    assert CallsOf(run) == [] + [] + CallsOf(run);
  }

  // Every send has returned what the callback of its own message returned.
  lemma SendReturnsOwnResult(filler: Entry, t: State, r: Reply)
    requires Reachable(filler, t) && r in t.replies
    ensures r.id < |t.started| && t.started[r.id] == Entry(r.message, true)
    ensures r.id in t.results && r.result == t.results[r.id]
  {
    ReachableInv(filler, t);
    assert GoodReply(t, r);
  }

  // The messages sent synchronously in a run, in order.
  function SendsOf(run: seq<Action>): seq<Message>
    decreases |run|
  {
    if run == [] then []
    else
      (match run[0]
       case ProducerCall(call) => if call.Send? then [call.message] else []
       case _ => []) + SendsOf(run[1..])
  }

  function Answered(replies: seq<Reply>): (messages: seq<Message>)
    ensures |messages| == |replies|
  {
    seq(|replies|, i requires 0 <= i < |replies| => replies[i].message)
  }

  // The send that has not returned.
  function Unanswered(s: State): seq<Message> {
    if s.producer.Idle? || s.producer.Unlocking? || s.producer.call.Post? then [] else [s.producer.call.message]
  }

  lemma StepKeepsSends(s: State, a: Action)
    requires RingOk(s) && ProducerOk(s) && Enabled(s, a)
    ensures var t := Step(s, a);
            ProducerOk(t) && Answered(t.replies) + Unanswered(t) == Answered(s.replies) + Unanswered(s) + SendsOf([a])
  {
    assert [a][1..] == [] && SendsOf([]) == [];
    match a {
      case ProducerStep => ProducerKeepsSends(s);
      case ConsumerStep => ConsumerKeepsSends(s);
      case _ =>
    }
  }

  // Only sends wait for a result, and posts alone leave without one.
  predicate ProducerOk(s: State) {
    s.producer.SyncWait? || s.producer.SyncWoken? || s.producer.Reading? || s.producer.Returning? ==> s.producer.call.Send?
  }

  lemma ProducerKeepsSends(s: State)
    requires RingOk(s) && ProducerOk(s) && Enabled(s, ProducerStep)
    ensures var t := StepProducer(s);
            ProducerOk(t) && Answered(t.replies) + Unanswered(t) == Answered(s.replies) + Unanswered(s)
  {
    var t := StepProducer(s);
    if s.producer.Returning? {
      assert Answered(t.replies) == Answered(s.replies) + [s.producer.call.message];
    } else {
      assert t.replies == s.replies;
    }
  }

  lemma ConsumerKeepsSends(s: State)
    requires RingOk(s) && ProducerOk(s) && Enabled(s, ConsumerStep)
    ensures var t := StepConsumer(s);
            ProducerOk(t) && t.replies == s.replies && Unanswered(t) == Unanswered(s)
  {
  }

  lemma SendsOfFirst(run: seq<Action>)
    ensures if run == [] then SendsOf(run) == [] else SendsOf(run) == SendsOf([run[0]]) + SendsOf(run[1..])
  {
    if run != [] {
      assert [run[0]][1..] == [] && SendsOf([]) == [];
    }
  }

  lemma {:induction false} RunKeepsSends(s: State, run: seq<Action>)
    requires Inv(s) && ProducerOk(s) && Legal(s, run)
    ensures Answered(After(s, run).replies) + Unanswered(After(s, run)) == Answered(s.replies) + Unanswered(s) + SendsOf(run)
    decreases |run|
  {
    hide FramesOk, OrderOk, SyncOk, SenderOk, RepliesOk, WakeupsOk, Step, Unanswered, SendsOf, Answered;
    SendsOfFirst(run);
    if run != [] {
      StepKeepsInv(s, run[0]);
      StepKeepsSends(s, run[0]);
      RunKeepsSends(Step(s, run[0]), run[1..]);
      Associates(Answered(s.replies) + Unanswered(s), SendsOf([run[0]]), SendsOf(run[1..]));
    }
  }

  // Every send of a run has its reply, in order, but for the one that has not returned.
  lemma EverySendAnswered(filler: Entry, run: seq<Action>)
    requires Legal(Initial(filler), run)
    ensures var t := After(Initial(filler), run); SendsOf(run) == Answered(t.replies) + Unanswered(t)
  {
    InitialInv(filler);
    RunKeepsSends(Initial(filler), run);
    assert SendsOf(run) == [] + [] + SendsOf(run);
  }

  lemma StepResults(s: State, a: Action)
    requires s.ring.Valid() && Enabled(s, a)
    ensures var t := Step(s, a);
            && (forall k :: k in t.results && k !in s.results ==> a == CallbackReturn(t.results[k]))
            && (forall k :: k in s.results ==> k in t.results)
            && (forall k :: k in s.results && t.results[k] != s.results[k] ==> a == CallbackReturn(t.results[k]))
  {
  }

  lemma {:induction false} ResultsStay(s: State, run: seq<Action>, k: nat)
    requires s.ring.Valid() && Legal(s, run) && k in s.results
    ensures k in After(s, run).results
    ensures After(s, run).results[k] == s.results[k] || CallbackReturn(After(s, run).results[k]) in run
    decreases |run|
  {
    if run != [] {
      StepResults(s, run[0]);
      ResultsStay(Step(s, run[0]), run[1..], k);
    }
  }

  // A result is what some callback has returned.
  lemma {:induction false} ResultsReturned(s: State, run: seq<Action>, k: nat)
    requires s.ring.Valid() && Legal(s, run) && k in After(s, run).results && k !in s.results
    ensures CallbackReturn(After(s, run).results[k]) in run
    decreases |run|
  {
    var t := Step(s, run[0]);
    StepResults(s, run[0]);
    if k in t.results {
      ResultsStay(t, run[1..], k);
    } else {
      ResultsReturned(t, run[1..], k);
    }
  }

  // ---------------------------------------------------------------- blocking

  ghost predicate OnStack(s: State, id: nat) {
    exists i :: 0 <= i < |s.stack| && s.stack[i].id == id
  }

  // The consumer waits for a message inside the callback of the very message whose sender
  // waits for the result, or inside a callback that one caused.
  ghost predicate WaitsForEachOther(s: State) {
    s.consumer.Waiting? && s.producer.SyncWait? && OnStack(s, s.producer.id)
  }

  lemma BothBlocked(filler: Entry, t: State)
    requires Reachable(filler, t)
    ensures t.producer.Blocked() && t.consumer.Waiting? <==> WaitsForEachOther(t)
  {
    ReachableInv(filler, t);
    BothWait(t);
  }

  lemma BothWait(t: State)
    requires Inv(t)
    ensures t.producer.Blocked() && t.consumer.Waiting? <==> WaitsForEachOther(t)
  {
    t.ring.Occupancy();
  }

  // In every reachable state but those, a blocked producer leaves the consumer a step to
  // take or a turn to take it, a waiting consumer leaves one to the producer, and some
  // thread can go on. The mutex is never held by a thread that cannot.
  lemma NeverDeadlocks(filler: Entry, t: State)
    requires Reachable(filler, t)
    ensures t.producer.Blocked() && !t.consumer.Outside? && !Enabled(t, ConsumerStep) <==> WaitsForEachOther(t)
    ensures t.consumer.Waiting? && !t.producer.Idle? && !Enabled(t, ProducerStep) <==> WaitsForEachOther(t)
    ensures (forall a :: !Enabled(t, a)) <==> WaitsForEachOther(t)
    ensures (t.mutex.ByProducer? ==> Enabled(t, ProducerStep)) && (t.mutex.ByConsumer? ==> Enabled(t, ConsumerStep))
  {
    hide RingOk, FramesOk, OrderOk, SyncOk, SenderOk, RepliesOk, WakeupsOk, OnStack;
    ReachableInv(filler, t);
    BothWait(t);
    SomethingEnabled(t);
  }

  lemma SomethingEnabled(t: State)
    requires MutexOk(t)
    ensures (forall a :: !Enabled(t, a)) <==> t.producer.Blocked() && t.consumer.Waiting?
  {
    if forall a :: !Enabled(t, a) {
      assert !Enabled(t, ProcessAll) && !Enabled(t, ConsumerStep) && !Enabled(t, ProducerStep);
      assert !Enabled(t, ProducerCall(Post(Message(0, 0))));
    }
  }

  // Client code keeps to this rule when no callback calls tqueue_process_wait.
  ghost predicate NoNestedWaits(s: State, run: seq<Action>)
    requires s.ring.Valid() && Legal(s, run)
    decreases |run|
  {
    run == [] || ((run[0].ProcessWait? ==> s.stack == []) && NoNestedWaits(Step(s, run[0]), run[1..]))
  }

  ghost predicate WaitsOutermost(s: State) {
    s.consumer.LockingWait? || s.consumer.TestingWait? || s.consumer.Waiting? || s.consumer.Woken? ==> s.stack == []
  }

  lemma ProducerKeepsOutermost(s: State)
    requires s.ring.Valid() && Enabled(s, ProducerStep) && WaitsOutermost(s)
    ensures WaitsOutermost(StepProducer(s))
  {
  }

  lemma ConsumerKeepsOutermost(s: State)
    requires s.ring.Valid() && Enabled(s, ConsumerStep) && WaitsOutermost(s)
    ensures WaitsOutermost(StepConsumer(s))
  {
  }

  lemma StepKeepsWaitsOutermost(s: State, a: Action)
    requires s.ring.Valid() && Enabled(s, a) && WaitsOutermost(s) && (a.ProcessWait? ==> s.stack == [])
    ensures WaitsOutermost(Step(s, a))
  {
    hide StepProducer, StepConsumer;
    match a
    case ProducerStep => ProducerKeepsOutermost(s);
    case ConsumerStep => ConsumerKeepsOutermost(s);
    case _ =>
  }

  lemma {:induction false} RunKeepsWaitsOutermost(s: State, run: seq<Action>)
    requires s.ring.Valid() && Legal(s, run) && NoNestedWaits(s, run) && WaitsOutermost(s)
    ensures WaitsOutermost(After(s, run))
    decreases |run|
  {
    if run != [] {
      StepKeepsWaitsOutermost(s, run[0]);
      RunKeepsWaitsOutermost(Step(s, run[0]), run[1..]);
    }
  }

  // Under that rule the queue never deadlocks.
  lemma OutermostWaitsAreSafe(filler: Entry, run: seq<Action>)
    requires Legal(Initial(filler), run) && NoNestedWaits(Initial(filler), run)
    ensures var t := After(Initial(filler), run); !WaitsForEachOther(t) && exists a :: Enabled(t, a)
  {
    var t := After(Initial(filler), run);
    RunKeepsWaitsOutermost(Initial(filler), run);
    NeverDeadlocks(filler, t);
  }

  // A call leaves with the ring empty: everything queued has been taken.
  lemma LeavesNothing(filler: Entry, t: State)
    requires Reachable(filler, t) && t.consumer.Leaving?
    ensures t.ring.Valid() && t.ring.Contents() == [] && t.taken == |t.enqueued| && t.started == t.enqueued
  {
    ReachableInv(filler, t);
    t.ring.Occupancy();
    assert t.enqueued[t.taken..] == [];
  }

  lemma StepWaitsOnlyWhenAsked(s: State, a: Action)
    requires s.ring.Valid() && Enabled(s, a) && !a.ProcessWait? && !InWait(s) && !s.consumer.Woken?
    ensures !InWait(Step(s, a)) && !Step(s, a).consumer.Woken?
  {
  }

  // Nobody waits for a message who has not called tqueue_process_wait.
  lemma {:induction false} WaitsOnlyWhenAsked(s: State, run: seq<Action>)
    requires s.ring.Valid() && Legal(s, run) && !InWait(s) && !s.consumer.Woken? && ProcessWait !in run
    ensures !InWait(After(s, run)) && !After(s, run).consumer.Woken?
    decreases |run|
  {
    hide InWait, Step;
    if run != [] {
      StepWaitsOnlyWhenAsked(s, run[0]);
      WaitsOnlyWhenAsked(Step(s, run[0]), run[1..]);
    }
  }

  // A call of tqueue_process_wait is before its first message, or has taken one.
  ghost predicate WaitTakes(s: State, before: nat) {
    || s.taken > before
    || InWait(s)
    || (s.ring.Valid() && !s.ring.Empty() && (s.consumer.Woken? || s.consumer.Looping?))
  }

  lemma StepKeepsWaitTakes(s: State, a: Action, before: nat)
    requires Inv(s) && Enabled(s, a) && WaitTakes(s, before) && s.taken >= before
    ensures WaitTakes(Step(s, a), before) && Step(s, a).taken >= before
  {
    s.ring.Occupancy();
    if a.ProducerStep? && s.producer.Queueing? {
      s.ring.PutAppends(EntryOf(s.producer.call));
      s.ring.Put(EntryOf(s.producer.call)).Occupancy();
    }
  }

  lemma {:induction false} RunKeepsWaitTakes(s: State, run: seq<Action>, before: nat)
    requires Inv(s) && Legal(s, run) && WaitTakes(s, before) && s.taken >= before
    ensures WaitTakes(After(s, run), before)
    decreases |run|
  {
    hide FramesOk, OrderOk, SyncOk, SenderOk, RepliesOk, WakeupsOk, WaitTakes, Step;
    if run != [] {
      StepKeepsInv(s, run[0]);
      StepKeepsWaitTakes(s, run[0], before);
      RunKeepsWaitTakes(Step(s, run[0]), run[1..], before);
    }
  }

  // It does not leave before it has.
  lemma WaitProcesses(filler: Entry, s: State, run: seq<Action>)
    requires Reachable(filler, s) && s.ring.Valid() && Enabled(s, ProcessWait) && Legal(Step(s, ProcessWait), run)
    ensures var t := After(Step(s, ProcessWait), run); t.consumer.Leaving? || t.consumer.Outside? ==> t.taken > s.taken
  {
    hide Inv, Reachable;
    ReachableInv(filler, s);
    StepKeepsInv(s, ProcessWait);
    RunKeepsWaitTakes(Step(s, ProcessWait), run, s.taken);
  }

  // When an outermost processing call leaves, no producer is left blocked.
  lemma LeavingUnblocks(filler: Entry, t: State)
    requires Reachable(filler, t) && t.consumer.Leaving? && t.stack == []
    ensures !t.producer.Blocked()
  {
    ReachableInv(filler, t);
    LeavingEmpty(t);
  }

  lemma LeavingEmpty(t: State)
    requires Inv(t) && t.consumer.Leaving? && t.stack == []
    ensures !t.producer.Blocked()
  {
    t.ring.Occupancy();
  }

  function Rank(c: Consumer): nat {
    match c
    case Outside => 0
    case Leaving => 1
    case Looping => 2
    case Waiting => 2
    case Woken => 3
    case TestingAll => 3
    case TestingWait => 3
    case LockingAll => 4
    case LockingWait => 4
    case Finishing(_, _) => 3
    case Relocking(_, _) => 4
    case Calling(_) => 6
    case WakingProducer(_) => 7
  }

  // What the consumer has left to do.
  function Work(s: State): nat
    requires s.ring.Valid()
  {
    6 * |s.ring.Contents()| + 5 * |s.stack| + Rank(s.consumer)
  }

  // How far the producer is from the end of its call.
  function Distance(p: Producer): nat {
    match p
    case Idle => 0
    case Returning(_, _, _) => 1
    case Reading(_, _) => 2
    case SyncWoken(_, _) => 3
    case SyncWait(_, _) => 3
    case Unlocking => 3
    case Signalling(_) => 4
    case Queueing(_) => 5
    case FullWoken(_) => 6
    case FullWait(_) => 6
    case Testing(_) => 7
    case Locking(_) => 8
  }

  // Every step of its own brings it nearer, and nothing else takes it away again.
  lemma ProducerAdvances(s: State, a: Action)
    requires RingOk(s) && Enabled(s, a) && !a.ProducerCall?
    ensures var t := Step(s, a);
            Distance(t.producer) + (if a.ProducerStep? then 1 else 0) <= Distance(s.producer)
  {
    match a
    case ProducerStep => StepNearer(s);
    case ConsumerStep => StepNoFarther(s);
    case _ =>
  }

  lemma StepNearer(s: State)
    requires RingOk(s) && Enabled(s, ProducerStep)
    ensures Distance(StepProducer(s).producer) < Distance(s.producer)
  {
  }

  lemma StepNoFarther(s: State)
    requires RingOk(s) && Enabled(s, ConsumerStep)
    ensures Distance(StepConsumer(s).producer) <= Distance(s.producer)
  {
  }

  function ProducerSteps(run: seq<Action>): nat
    decreases |run|
  {
    if run == [] then 0 else (if run[0].ProducerStep? then 1 else 0) + ProducerSteps(run[1..])
  }

  function CallsMade(run: seq<Action>): nat
    decreases |run|
  {
    if run == [] then 0 else (if run[0].ProducerCall? then 1 else 0) + CallsMade(run[1..])
  }

  // So a call returns after at most eight steps of the producer.
  lemma {:induction false} CallsEnd(s: State, run: seq<Action>)
    requires Inv(s) && Legal(s, run)
    ensures ProducerSteps(run) + Distance(After(s, run).producer) <= Distance(s.producer) + 8 * CallsMade(run)
    decreases |run|
  {
    hide FramesOk, OrderOk, SyncOk, SenderOk, RepliesOk, WakeupsOk, MutexOk, StepProducer, StepConsumer, Distance;
    if run != [] {
      StepKeepsInv(s, run[0]);
      if run[0].ProducerCall? {
        FromIdle(run[0].call);
      } else {
        ProducerAdvances(s, run[0]);
      }
      CallsEnd(Step(s, run[0]), run[1..]);
    }
  }

  lemma FromIdle(call: Call)
    ensures Distance(Locking(call)) == 8 && Distance(Idle) == 0
  {
  }

  lemma StepTakes(s: State)
    requires s.ring.Valid() && Enabled(s, ConsumerStep) && !(s.consumer.Looping? && !s.ring.Empty())
    ensures var t := StepConsumer(s); t.ring == s.ring && 5 * |t.stack| + Rank(t.consumer) < 5 * |s.stack| + Rank(s.consumer)
  {
  }

  lemma TakingTakes(s: State)
    requires s.ring.Valid() && s.consumer.Looping? && !s.ring.Empty()
    ensures var t := StepConsumer(s);
            t.ring == s.ring.Drop() && |t.stack| == |s.stack| && Rank(t.consumer) <= 7 && Rank(s.consumer) == 2
  {
  }

  // Every step of the consumer and every callback that returns uses up some of it.
  lemma WorkDecreases(s: State, a: Action)
    requires s.ring.Valid() && Enabled(s, a) && (a.ConsumerStep? || a.CallbackReturn?)
    ensures Work(Step(s, a)) < Work(s)
  {
    hide StepConsumer, Rank;
    if a.ConsumerStep? && s.consumer.Looping? && !s.ring.Empty() {
      TakingTakes(s);
      s.ring.DropRemovesOldest();
    } else if a.ConsumerStep? {
      StepTakes(s);
    } else {
      RankOutside(s.stack[|s.stack| - 1], a.result);
    }
  }

  lemma RankOutside(frame: Frame, result: int)
    ensures Rank(Outside) == 0 && Rank(Relocking(frame, result)) == 4
  {
  }

  // The consumer goes on by itself, its callbacks returning.
  predicate AloneStep(a: Action) {
    a.ConsumerStep? || a.CallbackReturn?
  }

  // So however it goes on by itself, it comes to rest; and once it leaves an outermost
  // processing call, no producer is blocked.
  lemma {:induction false} ProcessingEnds(s: State, run: seq<Action>)
    requires s.ring.Valid() && Legal(s, run) && forall i :: 0 <= i < |run| ==> AloneStep(run[i])
    ensures |run| + Work(After(s, run)) <= Work(s)
    decreases |run|
  {
    hide Work, Step;
    if run != [] {
      WorkDecreases(s, run[0]);
      ProcessingEnds(Step(s, run[0]), run[1..]);
    }
  }

  lemma ProcessingUnblocks(filler: Entry, s: State, run: seq<Action>)
    requires Reachable(filler, s) && s.ring.Valid() && Legal(s, run)
    requires forall i :: 0 <= i < |run| ==> AloneStep(run[i])
    ensures |run| <= Work(s)
    ensures var t := After(s, run); t.consumer.Leaving? && t.stack == [] ==> !t.producer.Blocked()
  {
    hide Work, Reachable, Inv;
    ProcessingEnds(s, run);
    ReachableInv(filler, s);
    RunKeepsInv(s, run);
    var t := After(s, run);
    if t.consumer.Leaving? && t.stack == [] {
      LeavingEmpty(t);
    }
  }

  // By itself it always can go on, until it waits or is back outside all callbacks, or the
  // producer holds the mutex.
  lemma AloneCanGoOn(s: State)
    requires MutexOk(s) && !s.consumer.Waiting? && !(s.consumer.Outside? && s.stack == [])
    ensures s.mutex.ByProducer? || exists a :: AloneStep(a) && Enabled(s, a)
  {
    if s.consumer.Outside? {
      assert Enabled(s, CallbackReturn(0)) && AloneStep(CallbackReturn(0));
    } else if !s.mutex.ByProducer? {
      assert Enabled(s, ConsumerStep) && AloneStep(ConsumerStep);
    }
  }

  lemma Then(filler: Entry, s: State, a: Action) returns (t: State)
    requires Reachable(filler, s) && s.ring.Valid() && Enabled(s, a)
    ensures t == Step(s, a) && Reachable(filler, t)
  {
    t := Step(s, a);
    var run :| Legal(Initial(filler), run) && After(Initial(filler), run) == s;
    Extend(Initial(filler), run, a);
  }

  lemma {:induction false} Extend(s: State, run: seq<Action>, a: Action)
    requires s.ring.Valid() && Legal(s, run) && Enabled(After(s, run), a)
    ensures Legal(s, run + [a]) && After(s, run + [a]) == Step(After(s, run), a)
    decreases |run|
  {
    if run == [] {
      assert run + [a] == [a];
    } else {
      Extend(Step(s, run[0]), run[1..], a);
      assert (run + [a])[1..] == run[1..] + [a];
    }
  }

  // ---------------------------------------------------------------- nested waits

  // This call of tqueue_process_wait has not yet found a message.
  predicate InWait(s: State) {
    s.consumer.LockingWait? || s.consumer.TestingWait? || s.consumer.Waiting?
  }

  ghost predicate AllInWait(s: State, run: seq<Action>)
    requires s.ring.Valid() && Legal(s, run)
    decreases |run|
  {
    InWait(s) && (run == [] || AllInWait(Step(s, run[0]), run[1..]))
  }

  ghost predicate SenderOnStack(s: State) {
    s.producer.SyncWait? && OnStack(s, s.producer.id)
  }

  // A message queued meanwhile is none of those whose callbacks are in progress.
  lemma WaitKeepsSenderOff(s: State, a: Action)
    requires Inv(s) && Enabled(s, a) && InWait(s) && InWait(Step(s, a))
    ensures SenderOnStack(Step(s, a)) <==> SenderOnStack(s)
  {
  }

  lemma {:induction false} WaitKeepsSender(s: State, run: seq<Action>)
    requires Inv(s) && Legal(s, run) && AllInWait(s, run)
    ensures SenderOnStack(After(s, run)) <==> SenderOnStack(s)
    decreases |run|
  {
    if run != [] {
      StepKeepsInv(s, run[0]);
      WaitKeepsSenderOff(s, run[0]);
      WaitKeepsSender(Step(s, run[0]), run[1..]);
    }
  }

  // A call of tqueue_process_wait can end in a deadlock before it finds a message if and
  // only if it is made inside the callback of a message whose sender waits, or inside one
  // that this one caused: the message is the last one, and its sender cannot queue another.
  lemma NestedWaitDeadlocks(filler: Entry, s: State)
    requires Reachable(filler, s) && s.ring.Valid() && Enabled(s, ProcessWait)
    ensures (exists run :: WaitStuck(Step(s, ProcessWait), run)) <==> s.producer.SyncWait? && OnStack(s, s.producer.id)
  {
    hide Inv, Reachable, OnStack;
    ReachableInv(filler, s);
    StepKeepsInv(s, ProcessWait);
    var s1 := Step(s, ProcessWait);
    forall run | WaitStuck(s1, run) ensures SenderOnStack(s1) {
      RunKeepsInv(s1, run);
      WaitKeepsSender(s1, run);
      StuckSender(After(s1, run));
    }
    if SenderOnStack(s1) {
      NoneLeft(s1);
      WaitStuckAt(s1);
    }
    OnSameStack(s, s1);
  }

  // The call has come to a state in which neither thread can go on.
  ghost predicate WaitStuck(s: State, run: seq<Action>) {
    s.ring.Valid() && Legal(s, run) && AllInWait(s, run) && forall a :: !Enabled(After(s, run), a)
  }

  lemma OnSameStack(s: State, t: State)
    requires t.producer == s.producer && t.stack == s.stack
    ensures SenderOnStack(t) <==> SenderOnStack(s)
  {
  }

  lemma StuckSender(t: State)
    requires Inv(t) && forall a :: !Enabled(t, a)
    ensures SenderOnStack(t)
  {
    SomethingEnabled(t);
    BothWait(t);
  }

  lemma NoneLeft(s: State)
    requires Inv(s) && SenderOnStack(s) && s.consumer.LockingWait?
    ensures s.ring.Valid() && s.ring.Empty() && s.mutex.Nobody?
  {
    s.ring.Occupancy();
  }

  lemma WaitStuckAt(s: State)
    requires s.ring.Valid() && s.ring.Empty() && s.mutex.Nobody? && s.consumer.LockingWait? && s.producer.SyncWait?
    ensures WaitStuck(s, [ConsumerStep, ConsumerStep])
  {
    var t := Step(s, ConsumerStep);
    var u := Step(t, ConsumerStep);
    assert [ConsumerStep, ConsumerStep][1..] == [ConsumerStep] && [ConsumerStep][1..] == [];
    assert Legal(u, []) && AllInWait(u, []) && After(u, []) == u;
    assert AllInWait(t, [ConsumerStep]) && After(t, [ConsumerStep]) == u;
    assert forall a :: !Enabled(u, a);
  }

  // And it does come to that: a message is sent, and its callback calls tqueue_process_wait.
  lemma DeadlockReached(filler: Entry, message: Message)
    ensures exists t :: Reachable(filler, t) && forall a :: !Enabled(t, a)
  {
    hide Reachable;
    var s := Sent(filler, message);
    s := Then(filler, s, ProcessAll);
    s := Then(filler, s, ConsumerStep);
    s := Then(filler, s, ConsumerStep);
    s := Then(filler, s, ConsumerStep);
    s := Then(filler, s, ConsumerStep);
    assert s.consumer.Outside? && s.stack == [Frame(0, Entry(message, true))];
    s := Then(filler, s, ProcessWait);
    s := Then(filler, s, ConsumerStep);
    s := Then(filler, s, ConsumerStep);
    assert forall a :: !Enabled(s, a);
  }

  lemma Sent(filler: Entry, message: Message) returns (s: State)
    ensures Reachable(filler, s) && s.ring.Valid() && s.mutex.Nobody? && s.consumer.Outside?
    ensures s.stack == [] && s.taken == 0 && s.ring.head == 0 && s.ring.tail == 1
    ensures s.ring.slots[0] == Entry(message, true) && s.producer == SyncWait(Send(message), 0)
  {
    hide Reachable;
    InitialReachable(filler);
    s := Then(filler, Initial(filler), ProducerCall(Send(message)));
    s := Then(filler, s, ProducerStep);
    s := Then(filler, s, ProducerStep);
    s := Then(filler, s, ProducerStep);
    s := Then(filler, s, ProducerStep);
  }

  lemma InitialReachable(filler: Entry)
    ensures Reachable(filler, Initial(filler))
  {
    assert Legal(Initial(filler), []) && After(Initial(filler), []) == Initial(filler);
  }
}
