// The timer queue as it is kept: one node per event id, linked through next indices into a
// short list sorted by deadline and an unsorted long list.
module EventQueue {
  import opened EventSchedule
  import opened EventTiming
  import opened EventNodes
  import opened EventRuns

  // What a slice does to the nodes: those of short events come nearer by its length, down to
  // zero; those of long ones lose a second if there is a scan, and nothing else.
  ghost predicate SliceOlder(q: Queue, nanos: Duration, seconds: seq<u32>, nanosecs: seq<u32>, seconds': seq<u32>, nanosecs': seq<u32>)
  {
    && |seconds| == |nanosecs| == |seconds'| == |nanosecs'| == MAX_EVENT_ID
    && (forall id: nat :: id < MAX_EVENT_ID && Has(q.short, id) ==>
          nanosecs'[id] == Nearer(nanosecs[id], nanos) && seconds'[id] == seconds[id] == 0)
    && (forall id: nat :: id < MAX_EVENT_ID && Has(q.long, id) ==>
          nanosecs'[id] == nanosecs[id] && seconds'[id] == seconds[id] as int - if q.remaining <= nanos then 1 else 0)
  }

  lemma WrapIs(x: int)
    requires 0 <= x < 0x3_0000_0000
    ensures Wrap(x) == x % 0x1_0000_0000
  {
  }

  // What the node of a queued event holds.
  lemma NodeOf(q: Queue, seconds: seq<u32>, nanosecs: seq<u32>, e: Event)
    requires Nodes(seconds, nanosecs, q) && Queued(q, e)
    ensures |seconds| == |nanosecs| == MAX_EVENT_ID && e.id < MAX_EVENT_ID
    ensures e.Short? ==> seconds[e.id] == 0 && nanosecs[e.id] == Relative(e.at, q.clock)
    ensures e.Long? ==> seconds[e.id] == e.seconds && nanosecs[e.id] == e.nanosecs
  {
    if e in q.short {
      var i :| 0 <= i < |q.short| && q.short[i] == e;
    } else {
      var i :| 0 <= i < |q.long| && q.long[i] == e;
    }
  }

  lemma BecomesOne(q: Queue, nanos: Duration, e: Event) returns (f: Event)
    requires Typed(q) && Queued(q, e)
    ensures var r := RunSlice(q, nanos); Queued(r, f) && Becomes(e, f, r.clock, q.remaining <= nanos)
  {
    hide RunSlice;
    SliceMoves(q, nanos);
    var r := RunSlice(q, nanos);
    f :| Queued(r, f) && Becomes(e, f, r.clock, q.remaining <= nanos);
  }

  lemma ShortNodeOlder(q: Queue, nanos: Duration, seconds: seq<u32>, nanosecs: seq<u32>, seconds': seq<u32>, nanosecs': seq<u32>,
                       id: nat)
    requires Typed(q) && Nodes(seconds, nanosecs, q) && Nodes(seconds', nanosecs', RunSlice(q, nanos))
    requires id < MAX_EVENT_ID && Has(q.short, id)
    ensures nanosecs'[id] == Nearer(nanosecs[id], nanos) && seconds'[id] == seconds[id] == 0
  {
    hide RunSlice, ShortNodes, LongNodes, Marks;
    SlicePasses(q, nanos);
    var e := q.short[Find(q.short, id)];
    var f := BecomesOne(q, nanos, e);
    NodeOf(q, seconds, nanosecs, e);
    NodeOf(RunSlice(q, nanos), seconds', nanosecs', f);
  }

  lemma LongNodeOlder(q: Queue, nanos: Duration, seconds: seq<u32>, nanosecs: seq<u32>, seconds': seq<u32>, nanosecs': seq<u32>,
                      id: nat)
    requires Typed(q) && Nodes(seconds, nanosecs, q) && Nodes(seconds', nanosecs', RunSlice(q, nanos))
    requires id < MAX_EVENT_ID && Has(q.long, id)
    ensures nanosecs'[id] == nanosecs[id] && seconds'[id] == seconds[id] as int - if q.remaining <= nanos then 1 else 0
  {
    hide RunSlice, ShortNodes, LongNodes, Marks;
    SlicePasses(q, nanos);
    var e := q.long[Find(q.long, id)];
    var f := BecomesOne(q, nanos, e);
    NodeOf(q, seconds, nanosecs, e);
    NodeOf(RunSlice(q, nanos), seconds', nanosecs', f);
  }

  lemma SliceNodes(q: Queue, nanos: Duration, seconds: seq<u32>, nanosecs: seq<u32>, seconds': seq<u32>, nanosecs': seq<u32>)
    requires Typed(q) && Nodes(seconds, nanosecs, q) && Nodes(seconds', nanosecs', RunSlice(q, nanos))
    ensures SliceOlder(q, nanos, seconds, nanosecs, seconds', nanosecs')
  {
    hide RunSlice, Marks, ShortNodes, LongNodes;
    forall id: nat | id < MAX_EVENT_ID && Has(q.short, id)
      ensures nanosecs'[id] == Nearer(nanosecs[id], nanos) && seconds'[id] == seconds[id] == 0
    {
      ShortNodeOlder(q, nanos, seconds, nanosecs, seconds', nanosecs', id);
    }
    forall id: nat | id < MAX_EVENT_ID && Has(q.long, id)
      ensures nanosecs'[id] == nanosecs[id] && seconds'[id] == seconds[id] as int - if q.remaining <= nanos then 1 else 0
    {
      LongNodeOlder(q, nanos, seconds, nanosecs, seconds', nanosecs', id);
    }
  }

  class Queues {
    const seconds: array<u32>
    const nanosecs: array<u32>
    const next: array<int>
    var head: int
    var longHead: int
    var remaining: int
    // What the CPU has been told: whether an event is pending, and when the first one is due.
    // The time is not passed on while an interrupt is pending.
    var irqPending: bool
    var eventPending: bool
    var pendingAt: u32
    ghost var q: Queue

    ghost predicate Shape()
    {
      && seconds.Length == MAX_EVENT_ID && nanosecs.Length == MAX_EVENT_ID && next.Length == MAX_EVENT_ID
      && seconds != nanosecs
    }

    ghost predicate Valid()
      reads this, seconds, nanosecs, next
    {
      && Shape()
      && WellFormed(q)
      && remaining == q.remaining
      && Linked(next[..], head, longHead, q.short, q.long)
      && Nodes(seconds[..], nanosecs[..], q)
    }

    // The CPU knows whether and when the next event is due.
    ghost predicate CpuInformed()
      reads this, nanosecs
      requires Shape()
    {
      && (eventPending <==> head != NULL)
      && (head == NULL && !irqPending ==> pendingAt == NOT_SCHEDULED)
      && (head != NULL ==> 0 <= head < MAX_EVENT_ID && (!irqPending ==> pendingAt == nanosecs[head]))
    }

    // Tells the CPU about the first event.
    method UpdatePending()
      requires Shape() && NULL <= head < MAX_EVENT_ID
      modifies `eventPending, `pendingAt
      ensures CpuInformed()
      ensures old(Valid()) ==> Valid()
    {
      if head == NULL {
        if !irqPending {
          pendingAt := NOT_SCHEDULED;
        }
        eventPending := false;
      } else {
        if !irqPending {
          pendingAt := nanosecs[head];
        }
        eventPending := true;
      }
    }

    // event_enqueue: links a node into the short list, behind every node due no later.
    method Enqueue(e: nat, ghost s: seq<Event>, ghost t: seq<Event>, ghost event: Event, ghost clock: int)
      requires Shape() && e < MAX_EVENT_ID && Linked(next[..], head, longHead, s, t)
      requires AllShort(s) && InRange(s) && ShortNodes(seconds[..], nanosecs[..], s, clock)
      requires Distinct(s) && Disjoint(s, t) && Lacks(s, e) && Lacks(t, e)
      requires event.Short? && event.id == e && event.at == clock + nanosecs[e]
      modifies next, `head, `eventPending, `pendingAt
      ensures Linked(next[..], head, longHead, Insert(s, event), t)
      ensures old(CpuInformed()) ==> CpuInformed()
    {
      hide Insert, Position, Distinct, Disjoint, Lacks, ShortNodes, InRange;
      ghost var p := 0;
      ghost var ids := IdsOf(s);
      if head == NULL || nanosecs[e] < nanosecs[head] {
        PositionByNodes(s, seconds[..], nanosecs[..], clock, event, 0);
        LinkIntoShort(next[..], head, s, longHead, t, event);
        next[e] := head;
        head := e;
        UpdatePending();
      } else {
        var cur := head;
        var nxt := next[cur];
        p := 1;
        while nxt != NULL && nanosecs[e] >= nanosecs[nxt]
          invariant 1 <= p <= |s| && cur == ids[p - 1] && nxt == First(ids, p)
          invariant forall i :: 0 <= i < p ==> nanosecs[ids[i]] <= nanosecs[e]
          decreases |s| - p
        {
          cur := nxt;
          nxt := next[cur];
          p := p + 1;
        }
        PositionByNodes(s, seconds[..], nanosecs[..], clock, event, p);
        LinkIntoShort(next[..], head, s, longHead, t, event);
        next[e] := nxt;
        next[cur] := e;
      }
    }

    // event_dequeue
    method Dequeue(e: nat, ghost s: seq<Event>, ghost t: seq<Event>)
      requires Shape() && Linked(next[..], head, longHead, s, t)
      requires Distinct(s) && Disjoint(s, t) && Has(s, e)
      modifies next, `head, `eventPending, `pendingAt
      ensures Linked(next[..], head, longHead, Without(s, e), t)
      ensures old(CpuInformed()) || old(head) == e ==> CpuInformed()
    {
      hide Chain, Find, Has, Without, Distinct, Disjoint, IdsOf;
      ghost var k, ids := Find(s, e), IdsOf(s);
      FindAt(s, e, 0);
      ChainAt(next[..], head, ids, k);
      ChainAt(next[..], head, ids, if k == 0 then 0 else k - 1);
      ChainAt(next[..], head, ids, 0);
      LinkOutOfOne(next[..], head, s, longHead, t, e);
      ghost var after := LinkOut(next[..], ids, k);
      if head == e {
        head := next[head];
        UpdatePending();
      } else {
        var cur := head;
        var nxt := next[cur];
        ghost var i := 1;
        while nxt != NULL
          invariant 1 <= i <= k && cur == ids[i - 1] && nxt == ids[i]
          invariant next[..] == old(next[..])
          decreases k - i
          modifies next
        {
          ChainAt(next[..], head, ids, i);
          FindAt(s, e, i);
          if nxt == e {
            next[cur] := next[nxt];
            assert next[..] == after;
            break;
          }
          cur := nxt;
          nxt := next[cur];
          i := i + 1;
        }
      }
    }

    // event_dequeue_long
    method DequeueLong(e: nat, ghost s: seq<Event>, ghost t: seq<Event>)
      requires Shape() && Linked(next[..], head, longHead, s, t)
      requires Distinct(t) && Disjoint(t, s) && Has(t, e)
      modifies next, `longHead
      ensures Linked(next[..], head, longHead, s, Without(t, e))
    {
      hide Chain, Find, Has, Without, Distinct, Disjoint, IdsOf;
      ghost var k, ids := Find(t, e), IdsOf(t);
      FindAt(t, e, 0);
      ChainAt(next[..], longHead, ids, k);
      ChainAt(next[..], longHead, ids, if k == 0 then 0 else k - 1);
      ChainAt(next[..], longHead, ids, 0);
      LinkOutOfOne(next[..], longHead, t, head, s, e);
      ghost var after := LinkOut(next[..], ids, k);
      if longHead == e {
        longHead := next[longHead];
      } else {
        var cur := longHead;
        var nxt := next[cur];
        ghost var i := 1;
        while nxt != NULL
          invariant 1 <= i <= k && cur == ids[i - 1] && nxt == ids[i]
          invariant next[..] == old(next[..])
          decreases k - i
          modifies next
        {
          ChainAt(next[..], longHead, ids, i);
          FindAt(t, e, i);
          if nxt == e {
            next[cur] := next[nxt];
            assert next[..] == after;
            break;
          }
          cur := nxt;
          nxt := next[cur];
          i := i + 1;
        }
      }
    }

    constructor ()
      ensures Valid() && q == Empty && CpuInformed()
      ensures fresh(seconds) && fresh(nanosecs) && fresh(next)
    {
      seconds := new u32[MAX_EVENT_ID](_ => 0);
      nanosecs := new u32[MAX_EVENT_ID](_ => NOT_SCHEDULED);
      next := new int[MAX_EVENT_ID](_ => NULL);
      head, longHead, remaining := NULL, NULL, LONG_SCAN_PERIOD;
      irqPending, eventPending, pendingAt := false, false, NOT_SCHEDULED;
      q := Empty;
    }

    lemma HeadIsFirst()
      requires Valid()
      ensures head == if q.short == [] then NULL else q.short[0].id
    {
    }

    // event_cancel
    method CancelEvent(id: nat)
      requires Valid() && id < MAX_EVENT_ID
      modifies this, seconds, nanosecs, next
      ensures Valid() && q == Remove(old(q), id)
      ensures old(CpuInformed()) ==> CpuInformed()
      ensures nanosecs[id] == NOT_SCHEDULED
      ensures irqPending == old(irqPending)
    {
      hide Nodes, Linked, Without, Find, Sorted, ShortsOk, LongsOk, Has;
      ghost var was := q;
      HeadIsFirst();
      RemoveNodes(q, id, seconds[..], nanosecs[..]);
      if nanosecs[id] == NOT_SCHEDULED {
        NotScheduled(q, id, seconds[..], nanosecs[..]);
        return;
      }
      OnOneList(q, id, seconds[..], nanosecs[..]);
      nanosecs[id] := NOT_SCHEDULED;
      assert nanosecs[..] == old(nanosecs[..])[id := NOT_SCHEDULED];
      q := Remove(q, id);
      if seconds[id] != 0 {
        DequeueLong(id, was.short, was.long);
      } else {
        Dequeue(id, was.short, was.long);
      }
    }

    // What both ways of scheduling an event start with.
    method Unschedule(id: nat)
      requires Valid() && id < MAX_EVENT_ID
      modifies this, seconds, nanosecs, next
      ensures Valid() && q == Remove(old(q), id)
      ensures Lacks(q.short, id) && Lacks(q.long, id)
      ensures old(CpuInformed()) ==> CpuInformed()
    {
      RemoveKeeps(q, id);
      if nanosecs[id] != NOT_SCHEDULED {
        CancelEvent(id);
      } else {
        NotScheduled(q, id, seconds[..], nanosecs[..]);
      }
    }

    // event_schedule. The queue stays valid exactly when the deadline is not the value that
    // marks an event as not scheduled.
    method ScheduleEvent(id: nat, nanos: u32, cycle: u32)
      requires Valid() && id < MAX_EVENT_ID
      modifies this, seconds, nanosecs, next
      ensures q == Perform(old(q), cycle, Schedule(id, nanos))
      ensures Valid() <==> Sound(old(q).remaining, cycle, Schedule(id, nanos))
      ensures Valid() && old(CpuInformed()) ==> CpuInformed()
      ensures Shape() && seconds[id] == 0 && nanosecs[id] == (nanos + cycle) % 0x1_0000_0000
    {
      WrapIs(nanos + cycle);
      ghost var was, c := q, Schedule(id, nanos);
      ghost var event := Short(id, q.clock + Wrap(nanos + cycle), q.stamps, q.clock + cycle + nanos);
      NewShortPlace(q, cycle, c, event);
      PerformKeeps(q, cycle, c);
      hide *;
      var deadline := Wrap(nanos + cycle);
      Unschedule(id);
      AddShortEvent(id, deadline, event);
    }

    // The part of it that gives a cancelled event its new place.
    method AddShortEvent(id: nat, deadline: u32, ghost event: Event)
      requires Valid() && id < MAX_EVENT_ID && Lacks(q.short, id) && Lacks(q.long, id)
      requires event.Short? && event.id == id && event.at == q.clock + deadline
      modifies this, seconds, nanosecs, next
      ensures q == old(q).(short := Insert(old(q).short, event), stamps := old(q).stamps + 1)
      ensures Valid() <==> WellFormed(q) && deadline != NOT_SCHEDULED
      ensures old(q).clock == q.clock && old(q).remaining == q.remaining
      ensures old(CpuInformed()) ==> CpuInformed()
      ensures Shape() && seconds[id] == 0 && nanosecs[id] == deadline
    {
      ghost var was := q;
      ghost var ss, ns := seconds[..][id := 0], nanosecs[..][id := deadline];
      AddShortNodes(q, event, deadline, seconds[..], nanosecs[..]);
      seconds[id] := 0;
      nanosecs[id] := deadline;
      assert seconds[..] == ss && nanosecs[..] == ns;
      Enqueue(id, q.short, q.long, event, q.clock);
      q := q.(short := Insert(q.short, event), stamps := q.stamps + 1);
      assert seconds[..] == ss && nanosecs[..] == ns;
      if deadline == NOT_SCHEDULED {
        InsertAt(was.short, event, Position(was.short, event.at));
        assert !Lacks(q.short, id);
      }
    }

    // event_schedule_long
    method ScheduleLongEvent(id: nat, secs: u32, nanos: u32, cycle: u32)
      requires Valid() && id < MAX_EVENT_ID
      modifies this, seconds, nanosecs, next
      ensures q == Perform(old(q), cycle, ScheduleLong(id, secs, nanos))
      ensures Valid() <==> Sound(old(q).remaining, cycle, ScheduleLong(id, secs, nanos))
      ensures Valid() && old(CpuInformed()) ==> CpuInformed()
      ensures Shape() && seconds[id] == secs
      ensures nanosecs[id]
              == (nanos + cycle + if secs == 0 then 0 else LONG_SCAN_PERIOD - old(remaining)) % 0x1_0000_0000
    {
      WrapIs(nanos + cycle + if secs == 0 then 0 else LONG_SCAN_PERIOD - remaining);
      ghost var c := ScheduleLong(id, secs, nanos);
      PerformKeeps(q, cycle, c);
      if secs == 0 {
        assert Perform(q, cycle, c) == Perform(q, cycle, Schedule(id, nanos));
        assert Sound(q.remaining, cycle, c) <==> Sound(q.remaining, cycle, Schedule(id, nanos));
        hide *;
        ScheduleEvent(id, nanos, cycle);
      } else {
        var deadline := Wrap(nanos + cycle + (LONG_SCAN_PERIOD - remaining));
        ghost var event := Long(id, secs, deadline, Asked(q.clock, cycle, c));
        NewLongPlace(q, cycle, c, event);
        hide *;
        Unschedule(id);
        AddLongEvent(id, secs, deadline, event);
      }
    }

    // The part of it that gives a cancelled event its new place.
    method AddLongEvent(id: nat, secs: u32, deadline: u32, ghost event: Event)
      requires Valid() && id < MAX_EVENT_ID && Lacks(q.short, id) && Lacks(q.long, id)
      requires event.Long? && event.id == id && event.seconds == secs && event.nanosecs == deadline && secs > 0
      modifies this, seconds, nanosecs, next
      ensures q == old(q).(long := [event] + old(q).long)
      ensures Valid() <==> WellFormed(q) && deadline != NOT_SCHEDULED
      ensures old(CpuInformed()) ==> CpuInformed()
      ensures Shape() && seconds[id] == secs && nanosecs[id] == deadline
    {
      ghost var ss, ns := seconds[..][id := secs], nanosecs[..][id := deadline];
      if deadline != NOT_SCHEDULED {
        AddLongNodes(q, event, seconds[..], nanosecs[..]);
      }
      LinkLongHead(next[..], head, longHead, q, event);
      seconds[id] := secs;
      nanosecs[id] := deadline;
      next[id] := longHead;
      longHead := id;
      q := q.(long := [event] + q.long);
      assert seconds[..] == ss && nanosecs[..] == ns;
      assert q.long[0] == event;
    }

    // The callback of a fired event: any calls of the three operations above.
    method Callback(cycle: u32, commands: seq<Command>)
      requires Valid() && AllSound(q.remaining, cycle, commands)
      modifies this, seconds, nanosecs, next
      ensures Valid() && q == PerformAll(old(q), cycle, commands)
      decreases |commands|
    {
      if commands != [] {
        var c := commands[0];
        PerformFrame(q, cycle, c);
        ghost var was := q;
        match c {
          case Schedule(id, nanos) => ScheduleEvent(id, nanos, cycle);
          case ScheduleLong(id, secs, nanos) => ScheduleLongEvent(id, secs, nanos, cycle);
          case Cancel(id) => CancelEvent(id);
        }
        assert q == Perform(was, cycle, c);
        Callback(cycle, commands[1..]);
      }
    }

    // Takes the first event off the short list before its callback is called.
    method Pop() returns (event: nat)
      requires Valid() && head != NULL
      modifies this, nanosecs
      ensures Valid() && old(q).short != [] && event == old(q).short[0].id
      ensures q == old(q).(short := old(q).short[1..])
    {
      event := head;
      RemoveNodes(q, event, seconds[..], nanosecs[..]);
      LinkOutOfOne(next[..], head, q.short, longHead, q.long, event);
      assert Remove(q, event) == q.(short := q.short[1..]);
      hide WellFormed, Nodes;
      head := next[event];
      nanosecs[event] := NOT_SCHEDULED;
      q := Remove(q, event);
      assert nanosecs[..] == old(nanosecs[..])[event := NOT_SCHEDULED];
    }

    // One round of the loop of event_execute.
    method FireFirst(cycle: u32, script: seq<seq<Command>>)
      requires Valid() && q.short != [] && ScriptSound(q.remaining, cycle, script)
      modifies this, seconds, nanosecs, next
      ensures Valid() && q == FireHead(old(q), cycle, script)
      ensures q.remaining == old(q).remaining && ScriptSound(q.remaining, cycle, Later(script))
      ensures script == [] ==> |q.short| < |old(q).short|
    {
      PerformAllFrame(q.(short := q.short[1..]), cycle, if script == [] then [] else script[0]);
      var _ := Pop();
      if script != [] {
        Callback(cycle, script[0]);
      }
    }

    lemma ShortList(cycle: u32)
      requires Valid()
      ensures Typed(q) && Shape() && NULL <= head < MAX_EVENT_ID
      ensures nanosecs.Length == MAX_EVENT_ID && NULL == -1
      ensures head != NULL && nanosecs[head] <= cycle <==> HeadDue(q, cycle)
    {
    }

    // event_execute, and what it fires.
    method ExecuteDue(cycle: u32, script: seq<seq<Command>>) returns (ghost log: seq<Fired>)
      requires Valid() && ScriptSound(q.remaining, cycle, script)
      modifies this, seconds, nanosecs, next
      ensures Valid() && Shape() && CpuInformed()
      ensures (q, log) == Execute(old(q), cycle, script)
    {
      hide *;
      log := [];
      var todo := script;
      ShortList(cycle);
      NothingFired(Execute(q, cycle, script));
      while head != NULL && nanosecs[head] <= cycle
        invariant Valid() && Typed(q) && Shape() && NULL <= head < MAX_EVENT_ID
        invariant head != NULL && nanosecs[head] <= cycle <==> HeadDue(q, cycle)
        invariant q.remaining == old(q).remaining && ScriptSound(q.remaining, cycle, todo)
        invariant Execute(old(q), cycle, script) == Continued(log, Execute(q, cycle, todo))
        decreases |todo|, |q.short|
      {
        ghost var was := q;
        ExecuteStep(q, cycle, todo, log);
        FireFirst(cycle, todo);
        ShortList(cycle);
        log := log + [Fired(was.short[0], was.clock + cycle)];
        todo := Later(todo);
      }
      NothingDue(q, cycle, todo, log);
      UpdatePending();
    }

    // The first loop of event_run_slice: every short event comes nearer.
    method AdvanceShort(nanos: Duration)
      requires Valid()
      modifies this, nanosecs
      ensures Valid() && q == old(q).(clock := old(q).clock + nanos)
      ensures remaining == old(remaining)
    {
      hide WellFormed, Nodes, Chain, Advanced, Relative;
      ghost var ids, was, p := IdsOf(q.short), nanosecs[..], 0;
      ChainAt(next[..], head, ids, 0);
      AdvanceStart(next[..], head, was, ids, nanos);
      ShortIds(q);
      var event := head;
      while event != NULL
        invariant p <= |ids| && event == First(ids, p)
        invariant Advanced(was, nanosecs[..], ids, p, nanos)
        decreases |ids| - p
        modifies nanosecs
      {
        ChainAt(next[..], head, ids, p);
        AdvanceStep(was, nanosecs[..], ids, p, nanos);
        ghost var now := nanosecs[..][event := Nearer(nanosecs[event], nanos)];
        if nanosecs[event] <= nanos {
          nanosecs[event] := 0;
        } else {
          nanosecs[event] := nanosecs[event] - nanos;
        }
        assert nanosecs[..] == now;
        event := next[event];
        p := p + 1;
      }
      AdvanceNodes(q, seconds[..], was, nanosecs[..], nanos);
      q := q.(clock := q.clock + nanos);
    }

    lemma LongList(k: nat)
      requires Valid()
      ensures Typed(q) && Distinct(q.long) && longHead == First(IdsOf(q.long), 0)
      ensures longHead != NULL <==> q.long != []
      ensures longHead != NULL ==> longHead == q.long[0].id
      ensures 0 < k <= |q.long| ==>
                q.long[k - 1].id < next.Length && next[q.long[k - 1].id] == First(IdsOf(q.long), k)
      ensures k <= |q.long| ==> (First(IdsOf(q.long), k) != NULL <==> k < |q.long|)
      ensures k < |q.long| ==> First(IdsOf(q.long), k) == q.long[k].id
    {
    }

    // One step of the first loop of event_scan_long.
    method ScanHead() returns (moved: bool)
      requires Valid() && longHead != NULL
      modifies this, seconds, next
      ensures Valid() && old(q).long != [] && q == ScanStep(old(q), 0)
      ensures moved <==> old(q).long[0].seconds == 1
    {
      hide WellFormed, Nodes, AllShort, AllLong, ShortNodes, Insert, Without, ScanStep, Distinct, Disjoint, Lacks, Has, Linked;
      LongList(0);
      var event := longHead;
      ghost var r := ScanStep(q, 0);
      ScanStepNodes(q, 0, seconds[..], nanosecs[..]);
      ScanStepLinks(next[..], head, longHead, q, 0);
      ghost var ss := seconds[..][event := q.long[0].seconds - 1];
      seconds[event] := seconds[event] - 1;
      assert seconds[..] == ss;
      moved := seconds[event] == 0;
      if moved {
        longHead := next[event];
        Enqueue(event, q.short, Without(q.long, event), Demoted(q.long[0], q.clock, q.stamps), q.clock);
      }
      q := r;
    }

    // One step of the second loop of event_scan_long.
    method ScanNext(last: nat, cur: nat, ghost k: nat) returns (moved: bool)
      requires Valid() && 0 < k < |q.long| && last == q.long[k - 1].id && cur == q.long[k].id
      modifies this, seconds, next
      ensures Valid() && q == ScanStep(old(q), k)
      ensures moved <==> old(q).long[k].seconds == 1
    {
      hide WellFormed, Nodes, AllShort, AllLong, ShortNodes, Insert, Without, ScanStep, Distinct, Disjoint, Lacks, Has, Linked;
      LongList(k);
      ghost var r := ScanStep(q, k);
      ScanStepNodes(q, k, seconds[..], nanosecs[..]);
      ScanStepLinks(next[..], head, longHead, q, k);
      ghost var ss := seconds[..][cur := q.long[k].seconds - 1];
      ghost var links := next[..][last := next[cur]];
      seconds[cur] := seconds[cur] - 1;
      assert seconds[..] == ss;
      moved := seconds[cur] == 0;
      if moved {
        next[last] := next[cur];
        assert next[..] == links;
        Enqueue(cur, q.short, Without(q.long, cur), Demoted(q.long[k], q.clock, q.stamps), q.clock);
      }
      q := r;
    }

    // event_scan_long: every long event loses one second, and those that have none left
    // move to the short list.
    method ScanLong()
      requires Valid()
      modifies this, seconds, next
      ensures Valid() && Typed(old(q)) && q == Scan(old(q))
    {
      hide *;
      ghost var was := q;
      LongList(0);
      ScanFromEnds(q);
      while longHead != NULL
        invariant Valid() && Typed(q) && ScanFrom(q, 0) == Scan(was)
        decreases |q.long|
      {
        LongList(0);
        ScanStepEquation(q, 0);
        var moved := ScanHead();
        if !moved {
          break;
        }
      }
      ghost var k := 0;
      LongList(1);
      if longHead != NULL {
        var last := longHead;
        var cur := next[last];
        k := 1;
        while cur != NULL
          invariant Valid() && Typed(q) && 1 <= k <= |q.long| && ScanFrom(q, k) == Scan(was)
          invariant last == q.long[k - 1].id && cur == First(IdsOf(q.long), k)
          decreases |q.long| - k
        {
          LongList(k);
          ScanStepEquation(q, k);
          var moved := ScanNext(last, cur, k);
          if !moved {
            last := cur;
            k := k + 1;
          }
          LongList(k);
          cur := next[last];
        }
        LongList(k);
      }
      ScanFromEnds(q);
    }

    // event_run_slice
    method AdvanceSlice(nanos: Duration)
      requires Valid()
      modifies this, seconds, nanosecs, next
      ensures Valid() && CpuInformed()
      ensures q == RunSlice(old(q), nanos)
      ensures q.clock == old(q).clock + nanos
      ensures remaining == old(remaining) - nanos + if old(remaining) <= nanos then LONG_SCAN_PERIOD else 0
      ensures SliceOlder(old(q), nanos, old(seconds[..]), old(nanosecs[..]), seconds[..], nanosecs[..])
    {
      hide Linked, Scan, AllShort, AllLong, Distinct, Disjoint, InRange, Sorted, ShortsOk, LongsOk;
      hide ShortNodes, LongNodes, Marks, SliceOlder;
      SlicePasses(q, nanos);
      AdvanceShort(nanos);
      remaining := remaining - nanos;
      if remaining <= 0 {
        remaining := remaining + LONG_SCAN_PERIOD;
        q := q.(remaining := remaining);
        ScanLong();
      } else {
        q := q.(remaining := remaining);
      }
      SliceNodes(old(q), nanos, old(seconds[..]), old(nanosecs[..]), seconds[..], nanosecs[..]);
      ShortList(0);
      UpdatePending();
    }
  }
}
