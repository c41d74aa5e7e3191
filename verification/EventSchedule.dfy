// What the timer queue means: the value of its two lists against an absolute clock, what
// each operation does to that value, and when events fire over whole runs.
module EventSchedule {

  const NOT_SCHEDULED := 0xFFFF_FFFF
  const LONG_SCAN_PERIOD := 1_000_000_000
  const MAX_EVENT_ID := 128

  type u32 = x: int | 0 <= x < 0x1_0000_0000

  // The countdown to the next scan of the long list, and the length of a slice.
  type Countdown = x: int | 0 < x <= LONG_SCAN_PERIOD witness 1
  type Duration = x: int | 0 <= x <= LONG_SCAN_PERIOD

  // Unsigned 32-bit sums of up to three terms wrap around.
  function Wrap(x: int): u32
    requires 0 <= x < 0x3_0000_0000
  {
    if x < 0x1_0000_0000 then x else if x < 0x2_0000_0000 then x - 0x1_0000_0000 else x - 0x2_0000_0000
  }

  // An event of the short list: the absolute time it becomes due at, its place in the order
  // of enqueueing, and the absolute time the client asked for. An event of the long list
  // has the two counters kept in its node instead.
  datatype Event =
    | Short(id: nat, at: int, stamp: nat, asked: int)
    | Long(id: nat, seconds: nat, nanosecs: u32, asked: int)

  // clock is the absolute time at which the current slice started.
  datatype Queue = Queue(short: seq<Event>, long: seq<Event>, clock: int, remaining: Countdown, stamps: nat)

  datatype Command =
    | Schedule(id: nat, nanosecs: u32)
    | ScheduleLong(id: nat, seconds: u32, nanosecs: u32)
    | Cancel(id: nat)
  {
    // Puts the event on the short list.
    predicate Near() {
      Schedule? || (ScheduleLong? && seconds == 0)
    }

    predicate Far() {
      ScheduleLong? && seconds > 0
    }
  }

  datatype Fired = Fired(event: Event, time: int)

  const Empty := Queue([], [], 0, LONG_SCAN_PERIOD, 0)

  predicate AllShort(s: seq<Event>) {
    forall i :: 0 <= i < |s| ==> s[i].Short?
  }

  predicate AllLong(s: seq<Event>) {
    forall i :: 0 <= i < |s| ==> s[i].Long? && s[i].seconds > 0
  }

  // Position of the event, or the length when it is not in the list.
  function Find(s: seq<Event>, id: nat): (k: nat)
    ensures k <= |s|
    ensures k < |s| ==> s[k].id == id
    ensures forall i :: 0 <= i < k ==> s[i].id != id
  {
    if s == [] || s[0].id == id then 0 else 1 + Find(s[1..], id)
  }

  predicate Has(s: seq<Event>, id: nat) {
    Find(s, id) < |s|
  }

  function Without(s: seq<Event>, id: nat): (r: seq<Event>)
    requires Has(s, id)
    ensures |r| == |s| - 1
    ensures AllShort(s) ==> AllShort(r)
    ensures AllLong(s) ==> AllLong(r)
  {
    if s[0].id == id then s[1..] else [s[0]] + Without(s[1..], id)
  }

  // Where an event due at this time goes: behind everything due no later.
  function Position(s: seq<Event>, at: int): (p: nat)
    requires AllShort(s)
    ensures p <= |s|
    ensures forall k :: 0 <= k < p ==> s[k].at <= at
    ensures p < |s| ==> at < s[p].at
  {
    if s == [] || at < s[0].at then 0 else 1 + Position(s[1..], at)
  }

  function Insert(s: seq<Event>, e: Event): (r: seq<Event>)
    requires AllShort(s) && e.Short?
    ensures |r| == |s| + 1 && AllShort(r)
  {
    if s == [] || e.at < s[0].at then [e] + s else [s[0]] + Insert(s[1..], e)
  }

  predicate Typed(q: Queue) {
    AllShort(q.short) && AllLong(q.long)
  }

  function Remove(q: Queue, id: nat): (r: Queue)
    requires Typed(q)
    ensures Typed(r)
  {
    if Has(q.short, id) then q.(short := Without(q.short, id))
    else if Has(q.long, id) then q.(long := Without(q.long, id))
    else q
  }

  // nanosecs is the value put in the node, counted from the start of the slice.
  function AddShort(q: Queue, id: nat, nanosecs: u32, asked: int): (r: Queue)
    requires Typed(q)
    ensures Typed(r)
  {
    var q1 := Remove(q, id);
    q1.(short := Insert(q1.short, Short(id, q.clock + nanosecs, q.stamps, asked)), stamps := q.stamps + 1)
  }

  function AddLong(q: Queue, id: nat, seconds: u32, nanosecs: u32, asked: int): (r: Queue)
    requires Typed(q) && seconds > 0
    ensures Typed(r)
  {
    var q1 := Remove(q, id);
    q1.(long := [Long(id, seconds, nanosecs, asked)] + q1.long)
  }

  // The sum put in the node, before it is cut to 32 bits: the delay counted from the start
  // of the slice or, for a long event, from the last scan.
  function Deadline(remaining: Countdown, cycle: u32, c: Command): (r: int)
    ensures 0 <= r < 0x3_0000_0000
  {
    match c
    case Schedule(_, nanosecs) => nanosecs + cycle
    case ScheduleLong(_, seconds, nanosecs) =>
      if seconds == 0 then nanosecs + cycle else nanosecs + cycle + (LONG_SCAN_PERIOD - remaining)
    case Cancel(_) => 0
  }

  // The absolute time the client asked for.
  function Asked(clock: int, cycle: u32, c: Command): int {
    match c
    case Schedule(_, nanosecs) => clock + cycle + nanosecs
    case ScheduleLong(_, seconds, nanosecs) => clock + cycle + seconds * LONG_SCAN_PERIOD + nanosecs
    case Cancel(_) => 0
  }

  function Perform(q: Queue, cycle: u32, c: Command): (r: Queue)
    requires Typed(q)
    ensures Typed(r)
  {
    var nanosecs := Wrap(Deadline(q.remaining, cycle, c));
    var asked := Asked(q.clock, cycle, c);
    if c.Near() then AddShort(q, c.id, nanosecs, asked)
    else if c.Far() then AddLong(q, c.id, c.seconds, nanosecs, asked)
    else Remove(q, c.id)
  }

  function PerformAll(q: Queue, cycle: u32, cs: seq<Command>): (r: Queue)
    requires Typed(q)
    ensures Typed(r)
    decreases |cs|
  {
    if cs == [] then q else PerformAll(Perform(q, cycle, cs[0]), cycle, cs[1..])
  }

  // The events kept so far, followed by the others one second older, without those whose
  // last second has gone.
  function Age(kept: seq<Event>, rest: seq<Event>): (r: seq<Event>)
    requires AllLong(kept) && AllLong(rest)
    ensures AllLong(r)
    decreases |rest|
  {
    if rest == [] then kept
    else if rest[0].seconds == 1 then Age(kept, rest[1..])
    else Age(kept + [Aged(rest[0])], rest[1..])
  }

  function Aged(e: Event): Event
    requires e.Long? && e.seconds > 0
  {
    e.(seconds := e.seconds - 1)
  }

  function Demoted(e: Event, clock: int, stamps: nat): Event
    requires e.Long?
  {
    Short(e.id, clock + e.nanosecs, stamps, e.asked)
  }

  // The events of the long list whose last second has gone join the short list, in order.
  function Demote(short: seq<Event>, long: seq<Event>, clock: int, stamps: nat): (r: (seq<Event>, nat))
    requires AllShort(short) && AllLong(long)
    ensures AllShort(r.0)
    decreases |long|
  {
    if long == [] then (short, stamps)
    else if long[0].seconds == 1 then
      Demote(Insert(short, Demoted(long[0], clock, stamps)), long[1..], clock, stamps + 1)
    else Demote(short, long[1..], clock, stamps)
  }

  function Scan(q: Queue): (r: Queue)
    requires Typed(q)
    ensures Typed(r)
  {
    var (short, stamps) := Demote(q.short, q.long, q.clock, q.stamps);
    q.(short := short, long := Age([], q.long), stamps := stamps)
  }

  function RunSlice(q: Queue, nanosecs: Duration): (r: Queue)
    requires Typed(q)
    ensures Typed(r)
  {
    var clock, remaining := q.clock + nanosecs, q.remaining - nanosecs;
    if remaining <= 0 then Scan(q.(clock := clock, remaining := remaining + LONG_SCAN_PERIOD))
    else q.(clock := clock, remaining := remaining)
  }

  predicate HeadDue(q: Queue, cycle: u32)
    requires Typed(q)
  {
    q.short != [] && q.short[0].at <= q.clock + cycle
  }

  // Firing the due events. The callback of the k-th event fired performs the commands
  // script[k]; callbacks past the end of the script perform none.
  function Execute(q: Queue, cycle: u32, script: seq<seq<Command>>): (r: (Queue, seq<Fired>))
    requires Typed(q)
    ensures Typed(r.0)
    decreases |script|, |q.short|
  {
    if !HeadDue(q, cycle) then (q, [])
    else
      var popped := q.(short := q.short[1..]);
      var fired := Fired(q.short[0], q.clock + cycle);
      var (rest, log) :=
        if script == [] then Execute(popped, cycle, [])
        else Execute(PerformAll(popped, cycle, script[0]), cycle, script[1..]);
      (rest, [fired] + log)
  }

  // ---------------------------------------------------------------- invariants

  // The nanoseconds kept in a short node, counted from the start of the slice.
  function Relative(at: int, clock: int): int {
    if at <= clock then 0 else at - clock
  }

  predicate Before(a: Event, b: Event)
    requires a.Short? && b.Short?
  {
    a.at < b.at || (a.at == b.at && a.stamp < b.stamp)
  }

  ghost predicate Sorted(s: seq<Event>)
    requires AllShort(s)
  {
    forall i, j :: 0 <= i < j < |s| ==> Before(s[i], s[j])
  }

  ghost predicate Distinct(s: seq<Event>) {
    forall i, j :: 0 <= i < j < |s| ==> s[i].id != s[j].id
  }

  predicate InRange(s: seq<Event>) {
    forall i :: 0 <= i < |s| ==> s[i].id < MAX_EVENT_ID
  }

  predicate Lacks(s: seq<Event>, id: nat) {
    forall i :: 0 <= i < |s| ==> s[i].id != id
  }

  ghost predicate Disjoint(s: seq<Event>, t: seq<Event>) {
    forall i, j :: 0 <= i < |s| && 0 <= j < |t| ==> s[i].id != t[j].id
  }

  ghost predicate Ids(q: Queue) {
    && Distinct(q.short) && Distinct(q.long) && Disjoint(q.short, q.long)
    && InRange(q.short) && InRange(q.long)
  }

  predicate ShortOk(e: Event, clock: int, stamps: nat)
    requires e.Short?
  {
    e.stamp < stamps && Relative(e.at, clock) < NOT_SCHEDULED
  }

  ghost predicate ShortsOk(s: seq<Event>, clock: int, stamps: nat)
    requires AllShort(s)
  {
    forall i :: 0 <= i < |s| ==> ShortOk(s[i], clock, stamps)
  }

  ghost predicate LongsOk(s: seq<Event>)
    requires AllLong(s)
  {
    forall i :: 0 <= i < |s| ==> s[i].nanosecs < NOT_SCHEDULED
  }

  // No event is in two places, the short list is in firing order, and no node holds the
  // value that marks an event as not scheduled.
  ghost predicate WellFormed(q: Queue) {
    && Typed(q)
    && Ids(q)
    && Sorted(q.short)
    && ShortsOk(q.short, q.clock, q.stamps) && LongsOk(q.long)
  }

  // The deadline put in the node is not the value that marks an event as not scheduled.
  predicate Sound(remaining: Countdown, cycle: u32, c: Command) {
    c.id < MAX_EVENT_ID && Wrap(Deadline(remaining, cycle, c)) != NOT_SCHEDULED
  }

  // The deadline is below it, so the unsigned sum does not wrap around either.
  predicate InTime(remaining: Countdown, cycle: u32, c: Command) {
    c.id < MAX_EVENT_ID && Deadline(remaining, cycle, c) < NOT_SCHEDULED
  }

  predicate AllSound(remaining: Countdown, cycle: u32, cs: seq<Command>) {
    forall i :: 0 <= i < |cs| ==> Sound(remaining, cycle, cs[i])
  }

  predicate AllInTime(remaining: Countdown, cycle: u32, cs: seq<Command>) {
    forall i :: 0 <= i < |cs| ==> InTime(remaining, cycle, cs[i])
  }

  // Where each element of the list ends up when another is inserted.
  lemma {:induction false} InsertAt(s: seq<Event>, e: Event, i: int)
    requires AllShort(s) && e.Short? && 0 <= i <= |s|
    ensures var p := Position(s, e.at);
            Insert(s, e)[i] == if i < p then s[i] else if i == p then e else s[i - 1]
  {
    if s != [] && s[0].at <= e.at && i > 0 {
      InsertAt(s[1..], e, i - 1);
    }
  }

  lemma InsertKeepsSorted(s: seq<Event>, e: Event)
    requires AllShort(s) && e.Short? && Sorted(s)
    requires forall i :: 0 <= i < |s| ==> s[i].stamp < e.stamp
    ensures Sorted(Insert(s, e))
  {
    var p := Position(s, e.at);
    var r := Insert(s, e);
    forall i, j | 0 <= i < j < |r| ensures Before(r[i], r[j]) {
      InsertAt(s, e, i);
      InsertAt(s, e, j);
      if i == p {
        assert j - 1 == p || Before(s[p], s[j - 1]);
      }
    }
  }

  lemma InsertKeepsIds(s: seq<Event>, e: Event)
    requires AllShort(s) && e.Short?
    requires Distinct(s) && Lacks(s, e.id)
    ensures Distinct(Insert(s, e))
  {
    var r := Insert(s, e);
    forall i, j | 0 <= i < j < |r| ensures r[i].id != r[j].id {
      InsertAt(s, e, i);
      InsertAt(s, e, j);
    }
  }

  lemma {:induction false} WithoutAt(s: seq<Event>, id: nat, i: int)
    requires Has(s, id) && 0 <= i < |Without(s, id)|
    ensures var k := Find(s, id);
            Without(s, id)[i] == s[if i < k then i else i + 1]
  {
    if s[0].id != id && i > 0 {
      WithoutAt(s[1..], id, i - 1);
    }
  }

  lemma WithoutHasId(s: seq<Event>, id: nat, x: nat)
    requires Has(s, id) && x != id
    ensures Has(Without(s, id), x) <==> Has(s, x)
  {
  }

  lemma InsertHasId(s: seq<Event>, e: Event, x: nat)
    requires AllShort(s) && e.Short?
    ensures Has(Insert(s, e), x) <==> x == e.id || Has(s, x)
  {
  }

  lemma WithoutKeeps(s: seq<Event>, id: nat)
    requires Distinct(s) && InRange(s) && Has(s, id)
    ensures Distinct(Without(s, id)) && InRange(Without(s, id)) && Lacks(Without(s, id), id)
  {
    var r := Without(s, id);
    forall i | 0 <= i < |r| ensures r[i] == s[if i < Find(s, id) then i else i + 1] {
      WithoutAt(s, id, i);
    }
  }

  lemma WithoutKeepsShort(s: seq<Event>, id: nat, clock: int, stamps: nat)
    requires AllShort(s) && Sorted(s) && ShortsOk(s, clock, stamps) && Has(s, id)
    ensures Sorted(Without(s, id)) && ShortsOk(Without(s, id), clock, stamps)
  {
    var r := Without(s, id);
    forall i | 0 <= i < |r| ensures r[i] == s[if i < Find(s, id) then i else i + 1] {
      WithoutAt(s, id, i);
    }
  }

  lemma WithoutKeepsLong(s: seq<Event>, id: nat)
    requires AllLong(s) && LongsOk(s) && Has(s, id)
    ensures LongsOk(Without(s, id))
  {
  }

  lemma WithoutKeepsApart(s: seq<Event>, t: seq<Event>, id: nat)
    requires Disjoint(s, t)
    ensures Has(s, id) ==> Disjoint(Without(s, id), t) && Lacks(t, id)
    ensures Has(t, id) ==> Disjoint(s, Without(t, id)) && Lacks(s, id)
  {
    if Has(s, id) {
      forall i, j | 0 <= i < |Without(s, id)| && 0 <= j < |t| ensures Without(s, id)[i].id != t[j].id {
        WithoutAt(s, id, i);
      }
    }
    if Has(t, id) {
      forall i, j | 0 <= i < |s| && 0 <= j < |Without(t, id)| ensures s[i].id != Without(t, id)[j].id {
        WithoutAt(t, id, j);
      }
    }
  }

  lemma RemoveKeeps(q: Queue, id: nat)
    requires WellFormed(q)
    ensures WellFormed(Remove(q, id))
    ensures Lacks(Remove(q, id).short, id) && Lacks(Remove(q, id).long, id)
  {
    WithoutKeepsApart(q.short, q.long, id);
    if Has(q.short, id) {
      WithoutKeeps(q.short, id);
      WithoutKeepsShort(q.short, id, q.clock, q.stamps);
    } else if Has(q.long, id) {
      WithoutKeeps(q.long, id);
      WithoutKeepsLong(q.long, id);
    }
  }

  lemma InsertKeepsShortsOk(s: seq<Event>, e: Event, clock: int, stamps: nat)
    requires AllShort(s) && e.Short? && ShortsOk(s, clock, stamps) && e.stamp == stamps
    ensures ShortsOk(Insert(s, e), clock, stamps + 1) <==> Relative(e.at, clock) < NOT_SCHEDULED
  {
    var p := Position(s, e.at);
    InsertAt(s, e, p);
    forall i | 0 <= i <= |s| && i != p ensures ShortOk(Insert(s, e)[i], clock, stamps + 1) {
      InsertAt(s, e, i);
      assert ShortOk(s[if i < p then i else i - 1], clock, stamps);
    }
  }

  lemma InsertKeepsApart(s: seq<Event>, e: Event, t: seq<Event>)
    requires AllShort(s) && e.Short? && e.id < MAX_EVENT_ID && InRange(s) && Disjoint(s, t) && Lacks(t, e.id)
    ensures InRange(Insert(s, e)) && Disjoint(Insert(s, e), t)
  {
    forall i | 0 <= i <= |s| ensures Insert(s, e)[i].id < MAX_EVENT_ID && Lacks(t, Insert(s, e)[i].id) {
      InsertAt(s, e, i);
    }
  }

  lemma AddShortKeeps(q: Queue, id: nat, nanosecs: u32, asked: int)
    requires WellFormed(q) && id < MAX_EVENT_ID
    ensures WellFormed(AddShort(q, id, nanosecs, asked)) <==> nanosecs != NOT_SCHEDULED
  {
    hide Sorted, Distinct, Disjoint, InRange, LongsOk, Insert;
    RemoveKeeps(q, id);
    var s, e := Remove(q, id).short, Short(id, q.clock + nanosecs, q.stamps, asked);
    InsertKeepsSorted(s, e);
    InsertKeepsIds(s, e);
    InsertKeepsApart(s, e, Remove(q, id).long);
    InsertKeepsShortsOk(s, e, q.clock, q.stamps);
  }

  lemma AddLongKeeps(q: Queue, id: nat, seconds: u32, nanosecs: u32, asked: int)
    requires WellFormed(q) && id < MAX_EVENT_ID && seconds > 0
    ensures WellFormed(AddLong(q, id, seconds, nanosecs, asked)) <==> nanosecs != NOT_SCHEDULED
  {
    RemoveKeeps(q, id);
    var q1 := Remove(q, id);
    var r := AddLong(q, id, seconds, nanosecs, asked);
    assert forall i :: 0 < i < |r.long| ==> r.long[i] == q1.long[i - 1];
    forall i | 0 <= i < |r.short| ensures Lacks(r.long, r.short[i].id) {
      assert Lacks(q1.long, q1.short[i].id);
    }
    assert r.long[0].nanosecs == nanosecs;
  }

  // A command leaves the queue well formed exactly when its deadline is not the sentinel.
  lemma PerformKeeps(q: Queue, cycle: u32, c: Command)
    requires WellFormed(q) && c.id < MAX_EVENT_ID
    ensures WellFormed(Perform(q, cycle, c)) <==> Sound(q.remaining, cycle, c)
  {
    var nanosecs := Wrap(Deadline(q.remaining, cycle, c));
    var asked := Asked(q.clock, cycle, c);
    if c.Near() {
      AddShortKeeps(q, c.id, nanosecs, asked);
    } else if c.Far() {
      AddLongKeeps(q, c.id, c.seconds, nanosecs, asked);
    } else {
      RemoveKeeps(q, c.id);
    }
  }

  // It can be: in an empty queue, five nanoseconds into its first slice.
  lemma SentinelDeadline(id: nat)
    requires id < MAX_EVENT_ID
    ensures WellFormed(Empty) && !WellFormed(Perform(Empty, 5, Schedule(id, 0xFFFF_FFFA)))
  {
    PerformKeeps(Empty, 5, Schedule(id, 0xFFFF_FFFA));
  }

  // A scan that has reached position k of the long list, carried out to its end.
  function ScanFrom(q: Queue, k: nat): (r: Queue)
    requires Typed(q) && k <= |q.long|
    ensures Typed(r)
  {
    var (short, stamps) := Demote(q.short, q.long[k..], q.clock, q.stamps);
    q.(short := short, long := Age(q.long[..k], q.long[k..]), stamps := stamps)
  }

  // What the scan does to the event at position k: one second less, or off to the short list.
  function ScanStep(q: Queue, k: nat): (r: Queue)
    requires Typed(q) && k < |q.long|
    ensures Typed(r)
  {
    var e := q.long[k];
    if e.seconds == 1 && Has(q.long, e.id) then
      q.(short := Insert(q.short, Demoted(e, q.clock, q.stamps)), long := Without(q.long, e.id), stamps := q.stamps + 1)
    else q.(long := q.long[k := Aged(e)])
  }

  lemma RemoveAbsent(q: Queue, id: nat)
    requires Typed(q) && Lacks(q.short, id) && Lacks(q.long, id)
    ensures Remove(q, id) == q
  {
  }

  lemma FindDistinct(s: seq<Event>, k: nat)
    requires k < |s| && Distinct(s)
    ensures Find(s, s[k].id) == k && Has(s, s[k].id)
  {
  }

  lemma ScanStepKeeps(q: Queue, k: nat)
    requires WellFormed(q) && k < |q.long|
    ensures WellFormed(ScanStep(q, k))
  {
    var e := q.long[k];
    FindDistinct(q.long, k);
    if e.seconds == 1 {
      var r := Remove(q, e.id);
      RemoveKeeps(q, e.id);
      RemoveAbsent(r, e.id);
      AddShortKeeps(r, e.id, e.nanosecs, e.asked);
    }
  }

  // Whoever takes the steps one by one ends where the whole scan does.
  lemma ScanStepEquation(q: Queue, k: nat)
    requires Typed(q) && Distinct(q.long) && k < |q.long|
    ensures var r, k' := ScanStep(q, k), if q.long[k].seconds == 1 then k else k + 1;
            && k' <= |r.long| && ScanFrom(r, k') == ScanFrom(q, k)
            && |r.long| - k' == |q.long| - k - 1
            && (forall i :: 0 <= i < k' && (i < k || k' > k) ==> r.long[i].id == q.long[i].id)
  {
    hide Find, Has, Without, Insert, Distinct;
    var e, r := q.long[k], ScanStep(q, k);
    FindDistinct(q.long, k);
    assert q.long[k..][0] == e && q.long[k..][1..] == q.long[k + 1..];
    if e.seconds == 1 {
      WithoutSlices(q.long, k);
      forall i | 0 <= i < k ensures r.long[i] == q.long[i] {
        assert r.long[..k][i] == q.long[..k][i];
      }
    } else {
      assert r.long[..k + 1] == q.long[..k] + [Aged(e)];
      assert r.long[k + 1..] == q.long[k + 1..];
    }
  }

  lemma SlicesOf(r: seq<Event>, s: seq<Event>, k: nat)
    requires k < |s| == |r| + 1
    requires forall i {:trigger r[i]} :: 0 <= i < |r| ==> r[i] == if i < k then s[i] else s[i + 1]
    ensures r[..k] == s[..k] && r[k..] == s[k + 1..]
  {
  }

  lemma WithoutSlices(s: seq<Event>, k: nat)
    requires k < |s| && Distinct(s)
    ensures Has(s, s[k].id)
    ensures Without(s, s[k].id)[..k] == s[..k] && Without(s, s[k].id)[k..] == s[k + 1..]
  {
    FindDistinct(s, k);
    var r := Without(s, s[k].id);
    hide *;
    forall i {:trigger r[i]} | 0 <= i < |r| ensures r[i] == if i < k then s[i] else s[i + 1] {
      WithoutAt(s, s[k].id, i);
    }
    SlicesOf(r, s, k);
  }

  lemma ScanFromEnds(q: Queue)
    requires Typed(q)
    ensures ScanFrom(q, |q.long|) == q && ScanFrom(q, 0) == Scan(q)
  {
  }

  // One scan keeps the lists in order and apart.
  lemma {:induction false} ScanKeeps(q: Queue, k: nat)
    requires WellFormed(q) && k <= |q.long|
    ensures WellFormed(ScanFrom(q, k))
    decreases |q.long| - k
  {
    if k == |q.long| {
      ScanFromEnds(q);
    } else {
      ScanStepKeeps(q, k);
      ScanStepEquation(q, k);
      ScanKeeps(ScanStep(q, k), if q.long[k].seconds == 1 then k else k + 1);
    }
  }

  lemma RunSliceKeeps(q: Queue, nanosecs: Duration)
    requires WellFormed(q)
    ensures WellFormed(RunSlice(q, nanosecs))
  {
    var clock := q.clock + nanosecs;
    forall i | 0 <= i < |q.short| ensures ShortOk(q.short[i], clock, q.stamps) {
      assert ShortOk(q.short[i], q.clock, q.stamps);
    }
    var remaining := q.remaining - nanosecs;
    if remaining <= 0 {
      var q1 := q.(clock := clock, remaining := remaining + LONG_SCAN_PERIOD);
      ScanKeeps(q1, 0);
      ScanFromEnds(q1);
    }
  }

  lemma PopKeeps(q: Queue)
    requires WellFormed(q) && q.short != []
    ensures WellFormed(q.(short := q.short[1..]))
    ensures Lacks(q.short[1..], q.short[0].id) && Lacks(q.long, q.short[0].id)
  {
  }

  // No command touches the clock, the countdown or the stamps already given.
  lemma PerformFrame(q: Queue, cycle: u32, c: Command)
    requires Typed(q)
    ensures var r := Perform(q, cycle, c);
            r.clock == q.clock && r.remaining == q.remaining && r.stamps >= q.stamps
  {
  }

  lemma {:induction false} PerformAllFrame(q: Queue, cycle: u32, cs: seq<Command>)
    requires Typed(q)
    ensures var r := PerformAll(q, cycle, cs);
            r.clock == q.clock && r.remaining == q.remaining && r.stamps >= q.stamps
    decreases |cs|
  {
    if cs != [] {
      PerformFrame(q, cycle, cs[0]);
      PerformAllFrame(Perform(q, cycle, cs[0]), cycle, cs[1..]);
    }
  }

  lemma {:induction false} PerformAllKeeps(q: Queue, cycle: u32, cs: seq<Command>)
    requires WellFormed(q) && AllSound(q.remaining, cycle, cs)
    ensures WellFormed(PerformAll(q, cycle, cs))
    decreases |cs|
  {
    if cs != [] {
      PerformKeeps(q, cycle, cs[0]);
      PerformFrame(q, cycle, cs[0]);
      PerformAllKeeps(Perform(q, cycle, cs[0]), cycle, cs[1..]);
    }
  }
}
