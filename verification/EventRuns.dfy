// What becomes of every event over a slice and over whole runs: time passes, nothing is lost,
// and what has been asked for fires.
module EventRuns {
  import opened EventSchedule
  import opened EventTiming

  predicate Queued(q: Queue, e: Event) {
    e in q.short || e in q.long
  }

  // ---------------------------------------------------------------- one slice

  // What a slice makes of an event: short events keep their deadlines; a scan takes a second
  // off a long one, which becomes a short one with its last.
  predicate Becomes(e: Event, f: Event, clock: int, scanned: bool) {
    if e.Short? || !scanned then f == e
    else if e.seconds != 1 then f.Long? && f == e.(seconds := f.seconds) && f.seconds == e.seconds - 1
    else f.Short? && f.id == e.id && f.at == clock + e.nanosecs && f.asked == e.asked
  }

  lemma InsertedIs(s: seq<Event>, n: Event, e: Event)
    requires AllShort(s) && n.Short?
    ensures e in Insert(s, n) <==> e == n || e in s
  {
    if e in Insert(s, n) {
      var i :| 0 <= i < |Insert(s, n)| && Insert(s, n)[i] == e;
      InsertAt(s, n, i);
    }
    if e in s {
      InsertHas(s, n, e);
    }
    InsertAt(s, n, Position(s, n.at));
  }

  lemma {:induction false} DemoteMoves(short: seq<Event>, long: seq<Event>, clock: int, stamps: nat)
    requires AllShort(short) && AllLong(long)
    ensures var r := Demote(short, long, clock, stamps).0;
            && (forall e :: e in short ==> e in r)
            && (forall e :: e in long && e.seconds == 1 ==> exists f :: f in r && Becomes(e, f, clock, true))
            && (forall f :: f in r ==> f in short || exists e :: e in long && e.seconds == 1 && Becomes(e, f, clock, true))
    decreases |long|
  {
    if long != [] {
      var first := long[0];
      if first.seconds == 1 {
        var n := Demoted(first, clock, stamps);
        var s := Insert(short, n);
        DemoteMoves(s, long[1..], clock, stamps + 1);
        forall e ensures e in s <==> e == n || e in short {
          InsertedIs(short, n, e);
        }
        assert Becomes(first, n, clock, true);
      } else {
        DemoteMoves(short, long[1..], clock, stamps);
      }
    }
  }

  lemma {:induction false} AgeMoves(kept: seq<Event>, rest: seq<Event>, clock: int)
    requires AllLong(kept) && AllLong(rest)
    ensures var r := Age(kept, rest);
            && (forall e :: e in kept ==> e in r)
            && (forall e :: e in rest && e.seconds != 1 ==> exists f :: f in r && Becomes(e, f, clock, true))
            && (forall f :: f in r ==> f in kept || exists e :: e in rest && e.seconds != 1 && Becomes(e, f, clock, true))
    decreases |rest|
  {
    if rest != [] {
      if rest[0].seconds == 1 {
        AgeMoves(kept, rest[1..], clock);
      } else {
        AgeMoves(kept + [Aged(rest[0])], rest[1..], clock);
        assert Becomes(rest[0], Aged(rest[0]), clock, true);
      }
    }
  }

  // A slice moves the clock on by its length and the countdown back by it, with one period
  // added exactly when that leaves nothing.
  lemma SlicePasses(q: Queue, nanosecs: Duration)
    requires Typed(q)
    ensures var r := RunSlice(q, nanosecs);
            && r.clock == q.clock + nanosecs
            && r.remaining == q.remaining - nanosecs + if q.remaining <= nanosecs then LONG_SCAN_PERIOD else 0
  {
  }

  // Every event is still there, as what the slice makes of it, and there is no other.
  lemma SliceMoves(q: Queue, nanosecs: Duration)
    requires Typed(q)
    ensures var r, scanned := RunSlice(q, nanosecs), q.remaining <= nanosecs;
            && (forall e :: Queued(q, e) ==> exists f :: Queued(r, f) && Becomes(e, f, r.clock, scanned))
            && (forall f :: Queued(r, f) ==> exists e :: Queued(q, e) && Becomes(e, f, r.clock, scanned))
            && (forall e :: e in q.short ==> e in r.short)
  {
    hide Demote, Age;
    var clock := q.clock + nanosecs;
    var r, scanned := RunSlice(q, nanosecs), q.remaining <= nanosecs;
    if scanned {
      DemoteMoves(q.short, q.long, clock, q.stamps);
      AgeMoves([], q.long, clock);
    }
    forall e | Queued(q, e) ensures exists f :: Queued(r, f) && Becomes(e, f, r.clock, scanned) {
      if e.Short? || !scanned {
        assert Queued(r, e) && Becomes(e, e, r.clock, scanned);
      }
    }
    forall f | Queued(r, f) ensures exists e :: Queued(q, e) && Becomes(e, f, r.clock, scanned) {
      if Queued(q, f) && (f.Short? || !scanned) {
        assert Becomes(f, f, r.clock, scanned);
      }
    }
  }

  // ---------------------------------------------------------------- nothing is lost

  lemma RemoveKeepsOthers(q: Queue, id: nat, e: Event)
    requires Typed(q) && Queued(q, e) && e.id != id
    ensures Queued(Remove(q, id), e)
  {
    if Has(q.short, id) {
      if e in q.short {
        WithoutHas(q.short, id, e);
      }
    } else if Has(q.long, id) && e in q.long {
      WithoutHas(q.long, id, e);
    }
  }

  // An operation leaves every other event as it is, and puts its own event where the time
  // asked for says.
  lemma PerformMoves(q: Queue, cycle: u32, c: Command)
    requires Typed(q)
    ensures var r := Perform(q, cycle, c);
            && (forall e :: Queued(q, e) && e.id != c.id ==> Queued(r, e))
            && (c.Near() || c.Far() ==> exists e :: Queued(r, e) && e.id == c.id && e.asked == Asked(q.clock, cycle, c))
  {
    var r, s := Perform(q, cycle, c), Remove(q, c.id);
    var nanosecs, asked := Wrap(Deadline(q.remaining, cycle, c)), Asked(q.clock, cycle, c);
    var n := if c.Near() then Short(c.id, q.clock + nanosecs, q.stamps, asked) else Long(c.id, if c.Far() then c.seconds else 1, nanosecs, asked);
    if c.Near() {
      InsertedIs(s.short, n, n);
      assert Queued(r, n);
    } else if c.Far() {
      assert r.long[0] == n;
      assert Queued(r, n);
    }
    forall e | Queued(q, e) && e.id != c.id ensures Queued(r, e) {
      RemoveKeepsOthers(q, c.id, e);
      if c.Near() {
        InsertedIs(s.short, n, e);
      } else if c.Far() && e in s.long {
        assert e in [n] + s.long;
      }
    }
  }

  // No command of these names the event.
  ghost predicate Unnamed(cs: seq<Command>, id: nat) {
    forall i :: 0 <= i < |cs| ==> cs[i].id != id
  }

  ghost predicate UnnamedIn(script: seq<seq<Command>>, id: nat) {
    forall k :: 0 <= k < |script| ==> Unnamed(script[k], id)
  }

  lemma {:induction false} PerformAllKeepsQueued(q: Queue, cycle: u32, cs: seq<Command>, e: Event)
    requires Typed(q) && Queued(q, e) && Unnamed(cs, e.id)
    ensures Queued(PerformAll(q, cycle, cs), e)
    decreases |cs|
  {
    hide Perform;
    if cs != [] {
      PerformMoves(q, cycle, cs[0]);
      PerformAllKeepsQueued(Perform(q, cycle, cs[0]), cycle, cs[1..], e);
    }
  }

  lemma {:induction false} ExecuteKeepsQueued(q: Queue, cycle: u32, script: seq<seq<Command>>, e: Event)
    requires Typed(q) && Queued(q, e) && UnnamedIn(script, e.id)
    ensures var (r, log) := Execute(q, cycle, script);
            Queued(r, e) || Fired(e, q.clock + cycle) in log
    decreases |script|, |q.short|
  {
    hide Execute, PerformAll;
    if HeadDue(q, cycle) {
      ExecuteUnfolds(q, cycle, script);
      var popped := q.(short := q.short[1..]);
      if e != q.short[0] {
        assert Queued(popped, e);
        if script != [] {
          PerformAllKeepsQueued(popped, cycle, script[0], e);
          PerformAllFrame(popped, cycle, script[0]);
        }
        HeadFires(q, cycle, script);
        ExecuteKeepsQueued(FireHead(q, cycle, script), cycle, Later(script), e);
      }
    } else {
      NothingExecuted(q, cycle, script);
    }
  }

  lemma HeadFires(q: Queue, cycle: u32, script: seq<seq<Command>>)
    requires Typed(q) && HeadDue(q, cycle)
    ensures FireHead(q, cycle, script).clock == q.clock
    ensures script == [] ==> |FireHead(q, cycle, script).short| == |q.short| - 1
  {
    if script != [] {
      PerformAllFrame(q.(short := q.short[1..]), cycle, script[0]);
    }
  }

  lemma NothingExecuted(q: Queue, cycle: u32, script: seq<seq<Command>>)
    requires Typed(q) && !HeadDue(q, cycle)
    ensures Execute(q, cycle, script) == (q, [])
  {
  }

  // ---------------------------------------------------------------- whole runs

  function Elapsed(ops: seq<Operation>): nat
    decreases |ops|
  {
    if ops == [] then 0
    else (match ops[0] case Slice(nanosecs) => nanosecs as nat case _ => 0) + Elapsed(ops[1..])
  }

  lemma {:induction false} ExecuteTimes(q: Queue, cycle: u32, script: seq<seq<Command>>)
    requires Typed(q)
    ensures var (r, log) := Execute(q, cycle, script);
            r.clock == q.clock && forall f :: f in log ==> f.time == q.clock + cycle
    decreases |script|, |q.short|
  {
    hide Execute, PerformAll;
    if HeadDue(q, cycle) {
      ExecuteUnfolds(q, cycle, script);
      HeadFires(q, cycle, script);
      ExecuteTimes(FireHead(q, cycle, script), cycle, Later(script));
    } else {
      NothingExecuted(q, cycle, script);
    }
  }

  lemma ApplyTimes(q: Queue, op: Operation)
    requires Typed(q)
    ensures var (r, log) := Apply(q, op);
            && r.clock == q.clock + Elapsed([op])
            && forall f :: f in log ==> op.Fire? && f.time == q.clock + op.cycle
  {
    assert [op][1..] == [] && Elapsed([]) == 0;
    match op {
      case Client(cycle, command) => PerformFrame(q, cycle, command);
      case Fire(cycle, script) => ExecuteTimes(q, cycle, script);
      case Slice(nanosecs) =>
    }
  }

  lemma ElapsedFirst(ops: seq<Operation>)
    ensures if ops == [] then Elapsed(ops) == 0 else Elapsed(ops) == Elapsed([ops[0]]) + Elapsed(ops[1..])
  {
    if ops != [] {
      assert [ops[0]][1..] == [] && Elapsed([]) == 0;
    }
  }

  // The event fired in the k-th operation, at the time of all the slices before it and its
  // own part of a slice.
  ghost predicate FiredIn(ops: seq<Operation>, k: nat, f: Fired, clock: int) {
    k < |ops| && ops[k].Fire? && f.time == clock + Elapsed(ops[..k]) + ops[k].cycle
  }

  // The clock is the sum of all slices, and every event fires at the time of its call.
  lemma {:induction false} TimePasses(q: Queue, ops: seq<Operation>)
    requires Typed(q)
    ensures var (r, log) := Run(q, ops);
            && r.clock == q.clock + Elapsed(ops)
            && forall f :: f in log ==> exists k: nat :: FiredIn(ops, k, f, q.clock)
    decreases |ops|
  {
    hide Apply, Elapsed;
    ElapsedFirst(ops);
    if ops != [] {
      var (q1, log1) := Apply(q, ops[0]);
      ApplyTimes(q, ops[0]);
      TimePasses(q1, ops[1..]);
      forall f | f in Run(q, ops).1 ensures exists k: nat :: FiredIn(ops, k, f, q.clock) {
        if f in log1 {
          ElapsedFirst([]);
          assert ops[..0] == [];
          assert FiredIn(ops, 0, f, q.clock);
        } else {
          var k: nat :| FiredIn(ops[1..], k, f, q1.clock);
          ElapsedFirst(ops[..k + 1]);
          assert ops[..k + 1][0] == ops[0] && ops[..k + 1][1..] == ops[1..][..k];
          assert FiredIn(ops, k + 1, f, q.clock);
        }
      }
    }
  }

  // Nobody names the event any more.
  ghost predicate LeftAlone(ops: seq<Operation>, id: nat) {
    forall k :: 0 <= k < |ops| ==>
      match ops[k]
      case Client(_, command) => command.id != id
      case Fire(_, script) => UnnamedIn(script, id)
      case Slice(_) => true
  }

  // The event, or what slices have made of it.
  predicate Is(e: Event, id: nat, asked: int) {
    e.id == id && e.asked == asked
  }

  ghost predicate Waits(q: Queue, id: nat, asked: int) {
    exists e :: Queued(q, e) && Is(e, id, asked)
  }

  ghost predicate HasFired(log: seq<Fired>, id: nat, asked: int) {
    exists f :: f in log && Is(f.event, id, asked)
  }

  lemma SliceKeepsWaiting(q: Queue, nanosecs: Duration, e: Event)
    requires Typed(q) && Queued(q, e)
    ensures Waits(RunSlice(q, nanosecs), e.id, e.asked)
  {
    hide RunSlice;
    SliceMoves(q, nanosecs);
    var r := RunSlice(q, nanosecs);
    var f :| Queued(r, f) && Becomes(e, f, r.clock, q.remaining <= nanosecs);
    assert Is(f, e.id, e.asked);
  }

  lemma ApplyKeepsWaiting(q: Queue, op: Operation, id: nat, asked: int)
    requires Typed(q) && Waits(q, id, asked) && LeftAlone([op], id)
    ensures Waits(Apply(q, op).0, id, asked) || HasFired(Apply(q, op).1, id, asked)
  {
    hide Perform, Execute, RunSlice;
    var e :| Queued(q, e) && Is(e, id, asked);
    assert [op][0] == op;
    match op {
      case Client(cycle, command) => PerformMoves(q, cycle, command);
      case Fire(cycle, script) =>
        ExecuteKeepsQueued(q, cycle, script, e);
        if Fired(e, q.clock + cycle) in Execute(q, cycle, script).1 {
          assert Is(Fired(e, q.clock + cycle).event, id, asked);
        }
      case Slice(nanosecs) =>
        SliceKeepsWaiting(q, nanosecs, e);
    }
  }

  // An event that nobody names any more stays queued until it fires.
  lemma {:induction false} NothingIsLost(q: Queue, ops: seq<Operation>, id: nat, asked: int)
    requires Typed(q) && Waits(q, id, asked) && LeftAlone(ops, id)
    ensures Waits(Run(q, ops).0, id, asked) || HasFired(Run(q, ops).1, id, asked)
    decreases |ops|
  {
    hide Apply, Waits;
    if ops != [] {
      var (q1, log1) := Apply(q, ops[0]);
      assert LeftAlone([ops[0]], id);
      ApplyKeepsWaiting(q, ops[0], id, asked);
      if Waits(q1, id, asked) {
        NothingIsLost(q1, ops[1..], id, asked);
      }
    }
  }

  // And it does fire: once the time asked for has passed by the length of a slice, the next
  // call of event_execute fires it, unless one before it has.
  lemma EveryEventFires(q: Queue, ops: seq<Operation>, cycle: u32, script: seq<seq<Command>>,
                        id: nat, asked: int, slice: int)
    requires Good(q, slice) && 0 < slice <= LONG_SCAN_PERIOD && TimelyRun(q, ops, slice)
    requires Waits(q, id, asked) && LeftAlone(ops, id) && UnnamedIn(script, id)
    requires var r := Run(q, ops).0;
             ScriptInTime(r.remaining, cycle, script) && asked + slice <= r.clock + cycle && cycle <= slice
    ensures HasFired(Run(q, ops).1 + Execute(Run(q, ops).0, cycle, script).1, id, asked)
  {
    hide Run, Execute, TimelyRun;
    EveryEventPunctual(q, ops, slice);
    NothingIsLost(q, ops, id, asked);
    var (r, log) := Run(q, ops);
    if !HasFired(log, id, asked) {
      var e :| Queued(r, e) && Is(e, id, asked);
      DueByThen(r, e, slice);
      ExecuteFires(r, cycle, script, e);
    }
  }

  lemma DueByThen(q: Queue, e: Event, slice: int)
    requires Good(q, slice) && Queued(q, e) && 0 < slice
    ensures if e in q.short then e.Short? && e.at < e.asked + slice else e.asked > q.clock
  {
    if e in q.short {
      var i :| 0 <= i < |q.short| && q.short[i] == e;
      assert ShortInTime(q.short[i], slice);
    } else {
      var i :| 0 <= i < |q.long| && q.long[i] == e;
      assert LongInTime(q.long[i], q.clock, q.remaining);
    }
  }

  lemma ExecuteFires(q: Queue, cycle: u32, script: seq<seq<Command>>, e: Event)
    requires WellFormed(q) && ScriptInTime(q.remaining, cycle, script) && UnnamedIn(script, e.id)
    requires e in q.short && e.at <= q.clock + cycle
    ensures Fired(e, q.clock + cycle) in Execute(q, cycle, script).1
  {
    hide Execute;
    forall k | 0 <= k < |script| ensures AllSound(q.remaining, cycle, script[k]) {
      assert AllInTime(q.remaining, cycle, script[k]);
      InTimeIsSound(q.remaining, cycle, script[k]);
    }
    DueEventsFire(q, cycle, script, e);
  }
}
