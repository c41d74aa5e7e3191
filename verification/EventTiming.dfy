// When the timer queue fires: no event early, none late by more than one slice, all of them
// in the order of their deadlines, over one call and over whole runs.
module EventTiming {
  import opened EventSchedule

  // A short event is due no earlier than asked, and late by less than one slice. A long
  // event has exactly the time asked for still ahead of it: the start of the slice, the
  // countdown to the next scan and the two counters add up to it.
  predicate ShortInTime(e: Event, slice: int)
    requires e.Short?
  {
    e.asked <= e.at < e.asked + slice
  }

  predicate LongInTime(e: Event, clock: int, remaining: int)
    requires e.Long?
  {
    e.asked == clock + remaining + (e.seconds - 1) * LONG_SCAN_PERIOD + e.nanosecs
  }

  ghost predicate ShortsInTime(s: seq<Event>, slice: int)
    requires AllShort(s)
  {
    forall i :: 0 <= i < |s| ==> ShortInTime(s[i], slice)
  }

  ghost predicate LongsInTime(s: seq<Event>, clock: int, remaining: int)
    requires AllLong(s)
  {
    forall i :: 0 <= i < |s| ==> LongInTime(s[i], clock, remaining)
  }

  ghost predicate TimeOk(q: Queue, slice: int)
    requires Typed(q)
  {
    ShortsInTime(q.short, slice) && LongsInTime(q.long, q.clock, q.remaining)
  }

  lemma RemoveKeepsTime(q: Queue, id: nat, slice: int)
    requires Typed(q) && TimeOk(q, slice)
    ensures TimeOk(Remove(q, id), slice)
  {
    if Has(q.short, id) {
      forall i | 0 <= i < |Without(q.short, id)| ensures ShortInTime(Without(q.short, id)[i], slice) {
        WithoutAt(q.short, id, i);
      }
    } else if Has(q.long, id) {
      forall i | 0 <= i < |Without(q.long, id)| ensures LongInTime(Without(q.long, id)[i], q.clock, q.remaining) {
        WithoutAt(q.long, id, i);
      }
    }
  }

  lemma InsertKeepsTime(s: seq<Event>, e: Event, slice: int)
    requires AllShort(s) && e.Short? && ShortInTime(e, slice)
    requires ShortsInTime(s, slice)
    ensures ShortsInTime(Insert(s, e), slice)
  {
  }

  lemma AddShortKeepsTime(q: Queue, id: nat, nanosecs: u32, asked: int, slice: int)
    requires Typed(q) && TimeOk(q, slice)
    ensures TimeOk(AddShort(q, id, nanosecs, asked), slice) <==> asked <= q.clock + nanosecs < asked + slice
  {
    RemoveKeepsTime(q, id, slice);
    var s, e := Remove(q, id).short, Short(id, q.clock + nanosecs, q.stamps, asked);
    if asked <= q.clock + nanosecs < asked + slice {
      InsertKeepsTime(s, e, slice);
    } else {
      InsertAt(s, e, Position(s, e.at));
      assert !ShortInTime(Insert(s, e)[Position(s, e.at)], slice);
    }
  }

  lemma AddLongKeepsTime(q: Queue, id: nat, seconds: u32, nanosecs: u32, asked: int, slice: int)
    requires Typed(q) && TimeOk(q, slice) && seconds > 0
    ensures TimeOk(AddLong(q, id, seconds, nanosecs, asked), slice)
            <==> asked == q.clock + q.remaining + (seconds - 1) * LONG_SCAN_PERIOD + nanosecs
  {
    RemoveKeepsTime(q, id, slice);
    var r := AddLong(q, id, seconds, nanosecs, asked);
    assert r.long[0] == Long(id, seconds, nanosecs, asked);
    assert forall i :: 0 < i < |r.long| ==> r.long[i] == Remove(q, id).long[i - 1];
  }

  // Cancelling keeps every event on time. Scheduling does exactly when the unsigned sum in
  // the node has not wrapped around.
  lemma PerformKeepsTime(q: Queue, cycle: u32, c: Command, slice: int)
    requires Typed(q) && TimeOk(q, slice) && slice > 0
    ensures TimeOk(Perform(q, cycle, c), slice)
            <==> (c.Near() || c.Far() ==> Deadline(q.remaining, cycle, c) < 0x1_0000_0000)
  {
    var nanosecs := Wrap(Deadline(q.remaining, cycle, c));
    var asked := Asked(q.clock, cycle, c);
    if c.Near() {
      AddShortKeepsTime(q, c.id, nanosecs, asked, slice);
    } else if c.Far() {
      AddLongKeepsTime(q, c.id, c.seconds, nanosecs, asked, slice);
    } else {
      RemoveKeepsTime(q, c.id, slice);
    }
  }

  // One that has is due at once instead of after four seconds.
  lemma WrappedDeadline(id: nat, slice: int)
    requires id < MAX_EVENT_ID && slice > 0
    ensures var q := Perform(Empty, 5, Schedule(id, 0xFFFF_FFFB));
            TimeOk(Empty, slice) && !TimeOk(q, slice) && q.short == [Short(id, 0, 0, 0x1_0000_0000)]
  {
    PerformKeepsTime(Empty, 5, Schedule(id, 0xFFFF_FFFB), slice);
  }

  lemma {:induction false} PerformAllKeepsTime(q: Queue, cycle: u32, cs: seq<Command>, slice: int)
    requires Typed(q) && TimeOk(q, slice) && slice > 0
    requires AllInTime(q.remaining, cycle, cs)
    ensures TimeOk(PerformAll(q, cycle, cs), slice)
    decreases |cs|
  {
    if cs != [] {
      PerformKeepsTime(q, cycle, cs[0], slice);
      PerformFrame(q, cycle, cs[0]);
      PerformAllKeepsTime(Perform(q, cycle, cs[0]), cycle, cs[1..], slice);
    }
  }

  // A scan takes one second off every long event exactly once, so that the time ahead of
  // it stays the same; one that runs out is late by the delay of the scan and no more.
  lemma {:induction false} ScanKeepsTime(short: seq<Event>, kept: seq<Event>, rest: seq<Event>,
                                         clock: int, remaining: int, stamps: nat, slice: int)
    requires AllShort(short) && AllLong(kept) && AllLong(rest)
    requires LONG_SCAN_PERIOD - slice < remaining <= LONG_SCAN_PERIOD
    requires ShortsInTime(short, slice)
    requires LongsInTime(kept, clock, remaining) && LongsInTime(rest, clock, remaining - LONG_SCAN_PERIOD)
    ensures ShortsInTime(Demote(short, rest, clock, stamps).0, slice)
    ensures LongsInTime(Age(kept, rest), clock, remaining)
    decreases |rest|
  {
    if rest != [] {
      assert LongInTime(rest[0], clock, remaining - LONG_SCAN_PERIOD);
      if rest[0].seconds == 1 {
        var e := Demoted(rest[0], clock, stamps);
        InsertKeepsTime(short, e, slice);
        ScanKeepsTime(Insert(short, e), kept, rest[1..], clock, remaining, stamps + 1, slice);
      } else {
        ScanKeepsTime(short, kept + [Aged(rest[0])], rest[1..], clock, remaining, stamps, slice);
      }
    }
  }

  lemma RunSliceKeepsTime(q: Queue, nanosecs: Duration, slice: int)
    requires WellFormed(q) && TimeOk(q, slice) && nanosecs <= slice <= LONG_SCAN_PERIOD
    ensures TimeOk(RunSlice(q, nanosecs), slice)
  {
    var clock, remaining := q.clock + nanosecs, q.remaining - nanosecs;
    forall i | 0 <= i < |q.long| ensures LongInTime(q.long[i], clock, remaining) {
      assert LongInTime(q.long[i], q.clock, q.remaining);
    }
    if remaining <= 0 {
      ScanKeepsTime(q.short, [], q.long, clock, remaining + LONG_SCAN_PERIOD, q.stamps, slice);
    }
  }

  // ---------------------------------------------------------------- firing

  predicate ScriptInTime(remaining: Countdown, cycle: u32, script: seq<seq<Command>>) {
    forall k :: 0 <= k < |script| ==> AllInTime(remaining, cycle, script[k])
  }

  ghost predicate AllAfter(s: seq<Event>, e: Event)
    requires AllShort(s) && e.Short?
  {
    forall i :: 0 <= i < |s| ==> Before(e, s[i])
  }

  ghost predicate FiredInOrder(log: seq<Fired>, now: int, slice: int) {
    && (forall i :: 0 <= i < |log| ==>
          && log[i].time == now && log[i].event.Short?
          && log[i].event.at <= now && ShortInTime(log[i].event, slice))
    && (forall i, j :: 0 <= i < j < |log| ==> Before(log[i].event, log[j].event))
  }

  lemma RemoveKeepsAfter(q: Queue, id: nat, e: Event)
    requires Typed(q) && e.Short? && AllAfter(q.short, e)
    ensures AllAfter(Remove(q, id).short, e)
  {
    if Has(q.short, id) {
      forall i | 0 <= i < |Without(q.short, id)| ensures Before(e, Without(q.short, id)[i]) {
        WithoutAt(q.short, id, i);
      }
    }
  }

  lemma AddShortKeepsAfter(q: Queue, id: nat, nanosecs: u32, asked: int, e: Event)
    requires Typed(q) && e.Short? && AllAfter(q.short, e) && e.stamp < q.stamps && e.at <= q.clock + nanosecs
    ensures AllAfter(AddShort(q, id, nanosecs, asked).short, e)
  {
    RemoveKeepsAfter(q, id, e);
    var s := Remove(q, id).short;
    var n := Short(id, q.clock + nanosecs, q.stamps, asked);
    forall i | 0 <= i < |Insert(s, n)| ensures Before(e, Insert(s, n)[i]) {
      InsertAt(s, n, i);
    }
  }

  lemma PerformKeepsAfter(q: Queue, cycle: u32, c: Command, e: Event)
    requires Typed(q) && InTime(q.remaining, cycle, c)
    requires e.Short? && e.stamp < q.stamps && e.at <= q.clock + cycle && AllAfter(q.short, e)
    ensures AllAfter(Perform(q, cycle, c).short, e)
  {
    if c.Near() {
      AddShortKeepsAfter(q, c.id, Wrap(Deadline(q.remaining, cycle, c)), Asked(q.clock, cycle, c), e);
    } else {
      RemoveKeepsAfter(q, c.id, e);
    }
  }

  lemma {:induction false} PerformAllKeepsAfter(q: Queue, cycle: u32, cs: seq<Command>, e: Event)
    requires Typed(q) && AllInTime(q.remaining, cycle, cs)
    requires e.Short? && e.stamp < q.stamps && e.at <= q.clock + cycle && AllAfter(q.short, e)
    ensures AllAfter(PerformAll(q, cycle, cs).short, e)
    decreases |cs|
  {
    if cs != [] {
      PerformFrame(q, cycle, cs[0]);
      PerformKeepsAfter(q, cycle, cs[0], e);
      PerformAllKeepsAfter(Perform(q, cycle, cs[0]), cycle, cs[1..], e);
    }
  }

  // Firing one event: its callback runs on a queue without it.
  function FireHead(q: Queue, cycle: u32, script: seq<seq<Command>>): (r: Queue)
    requires Typed(q) && q.short != []
    ensures Typed(r)
  {
    var popped := q.(short := q.short[1..]);
    if script == [] then popped else PerformAll(popped, cycle, script[0])
  }

  function Later(script: seq<seq<Command>>): (r: seq<seq<Command>>)
    ensures |r| == if script == [] then 0 else |script| - 1
  {
    if script == [] then [] else script[1..]
  }

  lemma ExecuteUnfolds(q: Queue, cycle: u32, script: seq<seq<Command>>)
    requires Typed(q) && HeadDue(q, cycle)
    ensures var (r, log) := Execute(FireHead(q, cycle, script), cycle, Later(script));
            Execute(q, cycle, script) == (r, [Fired(q.short[0], q.clock + cycle)] + log)
  {
  }

  lemma LogUnfolds(q: Queue, cycle: u32, script: seq<seq<Command>>)
    requires Typed(q) && HeadDue(q, cycle)
    ensures Execute(q, cycle, script).1
            == [Fired(q.short[0], q.clock + cycle)] + Execute(FireHead(q, cycle, script), cycle, Later(script)).1
  {
  }

  lemma PopKeepsTime(q: Queue, slice: int)
    requires WellFormed(q) && TimeOk(q, slice) && q.short != []
    ensures TimeOk(q.(short := q.short[1..]), slice)
    ensures AllAfter(q.short[1..], q.short[0]) && q.short[0].stamp < q.stamps
  {
  }

  // Without wrap-around the node holds the sum itself.
  lemma InTimeExact(remaining: Countdown, cycle: u32, c: Command)
    requires InTime(remaining, cycle, c)
    ensures Sound(remaining, cycle, c)
    ensures Wrap(Deadline(remaining, cycle, c)) == Deadline(remaining, cycle, c)
  {
  }

  lemma InTimeIsSound(remaining: Countdown, cycle: u32, cs: seq<Command>)
    requires AllInTime(remaining, cycle, cs)
    ensures AllSound(remaining, cycle, cs)
  {
  }

  lemma FireHeadKeeps(q: Queue, cycle: u32, script: seq<seq<Command>>, slice: int)
    requires WellFormed(q) && TimeOk(q, slice) && HeadDue(q, cycle) && slice > 0
    requires ScriptInTime(q.remaining, cycle, script)
    ensures var r := FireHead(q, cycle, script);
            && WellFormed(r) && TimeOk(r, slice)
            && r.clock == q.clock && r.remaining == q.remaining && r.stamps >= q.stamps
            && AllAfter(r.short, q.short[0])
    ensures ScriptInTime(q.remaining, cycle, Later(script))
  {
    var popped := q.(short := q.short[1..]);
    PopKeeps(q);
    PopKeepsTime(q, slice);
    if script != [] {
      var cs := script[0];
      assert AllInTime(q.remaining, cycle, cs);
      InTimeIsSound(q.remaining, cycle, cs);
      PerformAllFrame(popped, cycle, cs);
      PerformAllKeeps(popped, cycle, cs);
      PerformAllKeepsTime(popped, cycle, cs, slice);
      PerformAllKeepsAfter(popped, cycle, cs, q.short[0]);
    }
  }

  // Whatever comes before every short event comes before everything fired from now on.
  lemma {:induction false} FiredAfter(q: Queue, cycle: u32, script: seq<seq<Command>>, e: Event)
    requires Typed(q) && ScriptInTime(q.remaining, cycle, script)
    requires e.Short? && e.stamp < q.stamps && e.at <= q.clock + cycle && AllAfter(q.short, e)
    ensures forall i :: 0 <= i < |Execute(q, cycle, script).1| ==>
              Execute(q, cycle, script).1[i].event.Short? && Before(e, Execute(q, cycle, script).1[i].event)
    decreases |script|, |q.short|
  {
    if HeadDue(q, cycle) {
      var popped := q.(short := q.short[1..]);
      assert AllAfter(popped.short, e);
      assert Before(e, q.short[0]);
      if script != [] {
        assert AllInTime(q.remaining, cycle, script[0]);
        PerformAllFrame(popped, cycle, script[0]);
        PerformAllKeepsAfter(popped, cycle, script[0], e);
      }
      FiredAfter(FireHead(q, cycle, script), cycle, Later(script), e);
      ExecuteUnfolds(q, cycle, script);
    }
  }

  predicate ScriptSound(remaining: Countdown, cycle: u32, script: seq<seq<Command>>) {
    forall k :: 0 <= k < |script| ==> AllSound(remaining, cycle, script[k])
  }

  // The rest of a call of event_execute that has already fired some events.
  function Continued(log: seq<Fired>, rest: (Queue, seq<Fired>)): (Queue, seq<Fired>) {
    (rest.0, log + rest.1)
  }

  lemma ExecuteStep(q: Queue, cycle: u32, script: seq<seq<Command>>, log: seq<Fired>)
    requires Typed(q) && HeadDue(q, cycle)
    ensures q.short != []
    ensures Continued(log, Execute(q, cycle, script))
            == Continued(log + [Fired(q.short[0], q.clock + cycle)],
                         Execute(FireHead(q, cycle, script), cycle, Later(script)))
  {
    LogUnfolds(q, cycle, script);
    ExecuteUnfolds(q, cycle, script);
    var later := Execute(FireHead(q, cycle, script), cycle, Later(script)).1;
    assert log + ([Fired(q.short[0], q.clock + cycle)] + later) == log + [Fired(q.short[0], q.clock + cycle)] + later;
  }

  lemma NothingDue(q: Queue, cycle: u32, script: seq<seq<Command>>, log: seq<Fired>)
    requires Typed(q) && !HeadDue(q, cycle)
    ensures Continued(log, Execute(q, cycle, script)) == (q, log)
  {
    assert log + [] == log;
  }

  lemma NothingFired(rest: (Queue, seq<Fired>))
    ensures Continued([], rest) == rest
  {
    assert [] + rest.1 == rest.1;
  }

  // One call of event_execute, whatever its callbacks schedule and cancel: events fire in
  // the order of their deadlines, equal ones in the order they were enqueued, none before
  // the time asked for, and every event left on the short list is due strictly later.
  lemma {:induction false} FiringOrder(q: Queue, cycle: u32, script: seq<seq<Command>>, slice: int)
    requires WellFormed(q) && TimeOk(q, slice) && slice > 0
    requires ScriptInTime(q.remaining, cycle, script)
    ensures var (r, log) := Execute(q, cycle, script);
            && WellFormed(r) && TimeOk(r, slice)
            && r.clock == q.clock && r.remaining == q.remaining
            && (forall i :: 0 <= i < |r.short| ==> r.short[i].at > q.clock + cycle)
            && FiredInOrder(log, q.clock + cycle, slice)
    decreases |script|, |q.short|
  {
    if HeadDue(q, cycle) {
      FireHeadKeeps(q, cycle, script, slice);
      var q1 := FireHead(q, cycle, script);
      FiringOrder(q1, cycle, Later(script), slice);
      assert ShortOk(q.short[0], q.clock, q.stamps);
      FiredAfter(q1, cycle, Later(script), q.short[0]);
      ExecuteUnfolds(q, cycle, script);
    } else {
      assert Execute(q, cycle, script) == (q, []);
      forall i | 0 <= i < |q.short| ensures q.short[i].at > q.clock + cycle {
        assert i == 0 || Before(q.short[0], q.short[i]);
      }
    }
  }

  // The commands of the first n callbacks name the event.
  ghost predicate Touched(script: seq<seq<Command>>, n: nat, id: nat) {
    exists k, i :: 0 <= k < n && k < |script| && 0 <= i < |script[k]| && script[k][i].id == id
  }

  lemma {:induction false} PerformAllKeepsEvent(q: Queue, cycle: u32, cs: seq<Command>, e: Event)
    requires Typed(q) && e in q.short && forall i :: 0 <= i < |cs| ==> cs[i].id != e.id
    ensures e in PerformAll(q, cycle, cs).short
    decreases |cs|
  {
    if cs != [] {
      PerformKeepsEvent(q, cycle, cs[0], e);
      PerformAllKeepsEvent(Perform(q, cycle, cs[0]), cycle, cs[1..], e);
    }
  }

  lemma InsertHas(s: seq<Event>, n: Event, e: Event)
    requires AllShort(s) && n.Short? && e in s
    ensures e in Insert(s, n)
  {
  }

  lemma WithoutHas(s: seq<Event>, id: nat, e: Event)
    requires Has(s, id) && e in s && e.id != id
    ensures e in Without(s, id)
  {
  }

  lemma PerformKeepsEvent(q: Queue, cycle: u32, c: Command, e: Event)
    requires Typed(q) && e in q.short && c.id != e.id
    ensures e in Perform(q, cycle, c).short
  {
    if Has(q.short, c.id) {
      WithoutHas(q.short, c.id, e);
    }
    var s := Remove(q, c.id).short;
    assert e in s;
    if c.Near() {
      var n := Short(c.id, q.clock + Wrap(Deadline(q.remaining, cycle, c)), q.stamps, Asked(q.clock, cycle, c));
      InsertHas(s, n, e);
      assert Perform(q, cycle, c).short == Insert(s, n);
    } else {
      assert Perform(q, cycle, c).short == s;
    }
  }

  ghost predicate FiredOrTouched(log: seq<Fired>, script: seq<seq<Command>>, f: Fired) {
    f in log || Touched(script, |log|, f.event.id)
  }

  lemma FiredOrTouchedFirst(first: Fired, log: seq<Fired>, script: seq<seq<Command>>, f: Fired)
    requires f == first || Touched(script, 1, f.event.id)
    ensures FiredOrTouched([first] + log, script, f)
  {
  }

  lemma FiredOrTouchedLater(first: Fired, log: seq<Fired>, script: seq<seq<Command>>, f: Fired)
    requires FiredOrTouched(log, Later(script), f)
    ensures FiredOrTouched([first] + log, script, f)
  {
  }

  // A due event stays queued, and due, while an event before it fires.
  lemma FireHeadKeepsEvent(q: Queue, cycle: u32, script: seq<seq<Command>>, e: Event)
    requires WellFormed(q) && ScriptSound(q.remaining, cycle, script) && HeadDue(q, cycle)
    requires e in q.short && e != q.short[0] && !Touched(script, 1, e.id)
    ensures var r := FireHead(q, cycle, script);
            WellFormed(r) && e in r.short && r.clock == q.clock && r.remaining == q.remaining
    ensures ScriptSound(q.remaining, cycle, Later(script))
  {
    var popped := q.(short := q.short[1..]);
    PopKeeps(q);
    assert e in popped.short;
    if script != [] {
      var cs := script[0];
      assert AllSound(q.remaining, cycle, cs);
      PerformAllFrame(popped, cycle, cs);
      PerformAllKeeps(popped, cycle, cs);
      forall i | 0 <= i < |cs| ensures cs[i].id != e.id {
        assert script[0][i].id == cs[i].id;
      }
      PerformAllKeepsEvent(popped, cycle, cs, e);
    }
  }

  lemma HeadDueFirst(q: Queue, cycle: u32, e: Event)
    requires WellFormed(q) && e in q.short && e.at <= q.clock + cycle
    ensures HeadDue(q, cycle)
  {
  }

  // Every event due when event_execute is called is fired by it, unless a callback fired
  // before it has cancelled or rescheduled it.
  lemma {:induction false} DueEventsFire(q: Queue, cycle: u32, script: seq<seq<Command>>, e: Event)
    requires WellFormed(q) && ScriptSound(q.remaining, cycle, script)
    requires e in q.short && e.at <= q.clock + cycle
    ensures FiredOrTouched(Execute(q, cycle, script).1, script, Fired(e, q.clock + cycle))
    decreases |script|, |q.short|
  {
    HeadDueFirst(q, cycle, e);
    var first := Fired(q.short[0], q.clock + cycle);
    var f := Fired(e, q.clock + cycle);
    var q1 := FireHead(q, cycle, script);
    var log := Execute(q1, cycle, Later(script)).1;
    if e != q.short[0] && !Touched(script, 1, e.id) {
      FireHeadKeepsEvent(q, cycle, script, e);
      DueEventsFire(q1, cycle, Later(script), e);
      FiredOrTouchedLater(first, log, script, f);
    } else {
      FiredOrTouchedFirst(first, log, script, f);
    }
    LogUnfolds(q, cycle, script);
  }

  // The command does not make an event due at once.
  predicate Delays(remaining: Countdown, cycle: u32, c: Command) {
    Sound(remaining, cycle, c) && (c.Near() ==> Wrap(Deadline(remaining, cycle, c)) > cycle)
  }

  predicate AllDelay(remaining: Countdown, cycle: u32, cs: seq<Command>) {
    forall i :: 0 <= i < |cs| ==> Delays(remaining, cycle, cs[i])
  }

  predicate ScriptDelays(remaining: Countdown, cycle: u32, script: seq<seq<Command>>) {
    forall k :: 0 <= k < |script| ==> AllDelay(remaining, cycle, script[k])
  }

  // The number of events due by this time, in a sorted list.
  function DueCount(q: Queue, cycle: u32): nat
    requires Typed(q)
  {
    Position(q.short, q.clock + cycle)
  }

  lemma RemoveDueCount(q: Queue, id: nat, cycle: u32)
    requires WellFormed(q)
    ensures DueCount(Remove(q, id), cycle) <= DueCount(q, cycle)
  {
    hide Position, Without, Ids, ShortsOk, LongsOk;
    var p := DueCount(q, cycle);
    var k := Find(q.short, id);
    if Has(q.short, id) && p < |q.short| {
      var r := Without(q.short, id);
      if k < p {
        WithoutAt(q.short, id, p - 1);
      } else if p < |r| {
        WithoutAt(q.short, id, p);
        assert k != p || Before(q.short[p], q.short[p + 1]);
      }
    }
  }

  lemma InsertLater(s: seq<Event>, e: Event, now: int)
    requires AllShort(s) && e.Short? && now < e.at
    ensures Position(Insert(s, e), now) == Position(s, now)
  {
  }

  lemma AddShortDueCount(q: Queue, id: nat, nanosecs: u32, asked: int, cycle: u32)
    requires Typed(q) && nanosecs > cycle
    ensures DueCount(AddShort(q, id, nanosecs, asked), cycle) == DueCount(Remove(q, id), cycle)
  {
    hide Position, Insert, Without, Find, AllShort, AllLong;
    InsertLater(Remove(q, id).short, Short(id, q.clock + nanosecs, q.stamps, asked), q.clock + cycle);
  }

  lemma PerformDueCount(q: Queue, cycle: u32, c: Command)
    requires WellFormed(q) && Delays(q.remaining, cycle, c)
    ensures DueCount(Perform(q, cycle, c), cycle) <= DueCount(q, cycle)
  {
    RemoveDueCount(q, c.id, cycle);
    if c.Near() {
      AddShortDueCount(q, c.id, Wrap(Deadline(q.remaining, cycle, c)), Asked(q.clock, cycle, c), cycle);
    }
  }

  lemma {:induction false} PerformAllDueCount(q: Queue, cycle: u32, cs: seq<Command>)
    requires WellFormed(q) && AllDelay(q.remaining, cycle, cs)
    ensures DueCount(PerformAll(q, cycle, cs), cycle) <= DueCount(q, cycle)
    decreases |cs|
  {
    if cs != [] {
      PerformKeeps(q, cycle, cs[0]);
      PerformFrame(q, cycle, cs[0]);
      PerformDueCount(q, cycle, cs[0]);
      PerformAllDueCount(Perform(q, cycle, cs[0]), cycle, cs[1..]);
    }
  }

  // When callbacks schedule only with a positive delay, event_execute fires no more events
  // than were due when it was called, however long their script goes on.
  lemma {:induction false} FiringEnds(q: Queue, cycle: u32, script: seq<seq<Command>>)
    requires WellFormed(q) && ScriptDelays(q.remaining, cycle, script)
    ensures |Execute(q, cycle, script).1| <= DueCount(q, cycle)
    decreases |script|, |q.short|
  {
    if HeadDue(q, cycle) {
      var popped := q.(short := q.short[1..]);
      PopKeeps(q);
      assert DueCount(popped, cycle) == DueCount(q, cycle) - 1;
      ExecuteUnfolds(q, cycle, script);
      if script != [] {
        var cs := script[0];
        assert AllDelay(q.remaining, cycle, cs);
        assert AllSound(q.remaining, cycle, cs);
        PerformAllFrame(popped, cycle, cs);
        PerformAllKeeps(popped, cycle, cs);
        PerformAllDueCount(popped, cycle, cs);
      }
      FiringEnds(FireHead(q, cycle, script), cycle, Later(script));
    }
  }

  // ---------------------------------------------------------------- whole runs

  datatype Operation =
    | Client(cycle: u32, command: Command)
    | Fire(cycle: u32, script: seq<seq<Command>>)
    | Slice(nanosecs: Duration)

  // No deadline wraps around and no slice is longer than the bound.
  predicate Timely(q: Queue, op: Operation, slice: int) {
    match op
    case Client(cycle, command) => InTime(q.remaining, cycle, command)
    case Fire(cycle, script) => ScriptInTime(q.remaining, cycle, script)
    case Slice(nanosecs) => nanosecs <= slice
  }

  function Apply(q: Queue, op: Operation): (r: (Queue, seq<Fired>))
    requires Typed(q)
    ensures Typed(r.0)
  {
    match op
    case Client(cycle, command) => (Perform(q, cycle, command), [])
    case Fire(cycle, script) => Execute(q, cycle, script)
    case Slice(nanosecs) => (RunSlice(q, nanosecs), [])
  }

  ghost predicate TimelyRun(q: Queue, ops: seq<Operation>, slice: int)
    requires Typed(q)
    decreases |ops|
  {
    ops == [] || (Timely(q, ops[0], slice) && TimelyRun(Apply(q, ops[0]).0, ops[1..], slice))
  }

  function Run(q: Queue, ops: seq<Operation>): (r: (Queue, seq<Fired>))
    requires Typed(q)
    ensures Typed(r.0)
    decreases |ops|
  {
    if ops == [] then (q, [])
    else
      var (q1, log) := Apply(q, ops[0]);
      var (q2, rest) := Run(q1, ops[1..]);
      (q2, log + rest)
  }

  predicate Punctual(f: Fired, slice: int) {
    f.event.Short? && f.event.asked <= f.event.at <= f.time && f.event.at < f.event.asked + slice
  }

  lemma FiringIsPunctual(q: Queue, cycle: u32, script: seq<seq<Command>>, slice: int)
    requires WellFormed(q) && TimeOk(q, slice) && slice > 0 && ScriptInTime(q.remaining, cycle, script)
    ensures var (r, log) := Execute(q, cycle, script);
            WellFormed(r) && TimeOk(r, slice) && forall f :: f in log ==> Punctual(f, slice)
  {
    FiringOrder(q, cycle, script, slice);
  }

  ghost predicate Good(q: Queue, slice: int) {
    WellFormed(q) && TimeOk(q, slice)
  }

  lemma ClientKeeps(q: Queue, cycle: u32, c: Command, slice: int)
    requires Good(q, slice) && slice > 0 && InTime(q.remaining, cycle, c)
    ensures Good(Apply(q, Client(cycle, c)).0, slice)
  {
    InTimeExact(q.remaining, cycle, c);
    PerformKeeps(q, cycle, c);
    PerformKeepsTime(q, cycle, c, slice);
    assert Apply(q, Client(cycle, c)).0 == Perform(q, cycle, c);
  }

  lemma SliceKeeps(q: Queue, nanosecs: Duration, slice: int)
    requires Good(q, slice) && nanosecs <= slice <= LONG_SCAN_PERIOD
    ensures Good(Apply(q, Slice(nanosecs)).0, slice)
  {
    RunSliceKeeps(q, nanosecs);
    RunSliceKeepsTime(q, nanosecs, slice);
  }

  lemma ApplyKeeps(q: Queue, op: Operation, slice: int)
    requires Good(q, slice) && 0 < slice <= LONG_SCAN_PERIOD && Timely(q, op, slice)
    ensures Good(Apply(q, op).0, slice)
    ensures forall f :: f in Apply(q, op).1 ==> Punctual(f, slice)
  {
    if op.Client? {
      ClientKeeps(q, op.cycle, op.command, slice);
    } else if op.Fire? {
      FiringIsPunctual(q, op.cycle, op.script, slice);
    } else {
      SliceKeeps(q, op.nanosecs, slice);
    }
  }

  // Over any run from the empty queue, no event fires before the absolute time its client
  // asked for, however many scans a long one has been through; and its deadline is late by
  // less than one slice, whatever the number of scans: the delay does not add up.
  lemma {:induction false} EveryEventPunctual(q: Queue, ops: seq<Operation>, slice: int)
    requires Good(q, slice) && 0 < slice <= LONG_SCAN_PERIOD && TimelyRun(q, ops, slice)
    ensures Good(Run(q, ops).0, slice)
    ensures forall f :: f in Run(q, ops).1 ==> Punctual(f, slice)
    decreases |ops|
  {
    if ops != [] {
      ApplyKeeps(q, ops[0], slice);
      EveryEventPunctual(Apply(q, ops[0]).0, ops[1..], slice);
    }
  }
}
