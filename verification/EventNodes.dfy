// The nodes of the timer queue as values: how the links of a list spell out its events, what
// the counters of the nodes hold, and what one change to them does to both lists.
module EventNodes {
  import opened EventSchedule

  const NULL := -1

  // The list that starts at h runs through the nodes of s, in order, and ends there.
  ghost predicate Chain(links: seq<int>, h: int, s: seq<nat>) {
    && h == First(s, 0)
    && (forall i :: 0 <= i < |s| ==> s[i] < |links|)
    && (forall i {:trigger links[s[i]]} :: 0 <= i < |s| ==> links[s[i]] == First(s, i + 1))
  }

  // The node at position i, or the end of the list.
  function First(s: seq<nat>, i: nat): int {
    if i < |s| then s[i] else NULL
  }

  ghost predicate NoRepeats(s: seq<nat>) {
    forall i, j :: 0 <= i < j < |s| ==> s[i] != s[j]
  }

  lemma ChainAt(links: seq<int>, h: int, s: seq<nat>, i: nat)
    requires Chain(links, h, s)
    ensures h == First(s, 0)
    ensures i < |s| ==> s[i] < |links| && links[s[i]] == First(s, i + 1) < |links|
  {
  }

  function LinkIn(links: seq<int>, s: seq<nat>, e: nat, p: nat): seq<int>
    requires e < |links| && p <= |s| && (p > 0 ==> s[p - 1] < |links|)
  {
    var links1 := links[e := First(s, p)];
    if p == 0 then links1 else links1[s[p - 1] := e]
  }

  // r is s with e put in at position p.
  ghost predicate Spliced(r: seq<nat>, s: seq<nat>, e: nat, p: nat) {
    && p <= |s| && |r| == |s| + 1
    && forall i {:trigger r[i]} :: 0 <= i < |r| ==> r[i] == if i < p then s[i] else if i == p then e else s[i - 1]
  }

  lemma LinkInKeepsChain(links: seq<int>, h: int, s: seq<nat>, e: nat, p: nat, r: seq<nat>)
    requires Chain(links, h, s) && NoRepeats(s) && e < |links| && e !in s && Spliced(r, s, e, p)
    ensures Chain(LinkIn(links, s, e, p), if p == 0 then e else h, r)
  {
  }

  function LinkOut(links: seq<int>, s: seq<nat>, k: nat): seq<int>
    requires k < |s| && s[k] < |links| && (k > 0 ==> s[k - 1] < |links|)
  {
    if k == 0 then links else links[s[k - 1] := links[s[k]]]
  }

  // r is s without its element at position k.
  ghost predicate Cut(r: seq<nat>, s: seq<nat>, k: nat) {
    && k < |s| && |r| == |s| - 1
    && forall i {:trigger r[i]} :: 0 <= i < |r| ==> r[i] == if i < k then s[i] else s[i + 1]
  }

  lemma LinkOutKeepsChain(links: seq<int>, h: int, s: seq<nat>, k: nat, r: seq<nat>)
    requires Chain(links, h, s) && NoRepeats(s) && Cut(r, s, k)
    ensures Chain(LinkOut(links, s, k), if k == 0 then links[s[0]] else h, r)
  {
  }

  function IdsOf(s: seq<Event>): (ids: seq<nat>)
    ensures |ids| == |s| && forall i :: 0 <= i < |s| ==> ids[i] == s[i].id
  {
    seq(|s|, i requires 0 <= i < |s| => s[i].id)
  }

  // The nodes of a short list hold no seconds and the time left in the slice.
  ghost predicate ShortNodes(seconds: seq<u32>, nanosecs: seq<u32>, s: seq<Event>, clock: int)
    requires AllShort(s) && InRange(s) && |seconds| == |nanosecs| == MAX_EVENT_ID
  {
    forall i :: 0 <= i < |s| ==> seconds[s[i].id] == 0 && nanosecs[s[i].id] == Relative(s[i].at, clock)
  }

  ghost predicate LongNodes(seconds: seq<u32>, nanosecs: seq<u32>, s: seq<Event>)
    requires AllLong(s) && InRange(s) && |seconds| == |nanosecs| == MAX_EVENT_ID
  {
    forall i :: 0 <= i < |s| ==> seconds[s[i].id] == s[i].seconds && nanosecs[s[i].id] == s[i].nanosecs
  }

  // A node is marked as not scheduled exactly when it is on neither list.
  ghost predicate Marks(nanosecs: seq<u32>, s: seq<Event>, t: seq<Event>)
    requires |nanosecs| == MAX_EVENT_ID && InRange(s) && InRange(t)
  {
    && (forall i :: 0 <= i < |s| ==> nanosecs[s[i].id] != NOT_SCHEDULED)
    && (forall i :: 0 <= i < |t| ==> nanosecs[t[i].id] != NOT_SCHEDULED)
    && (forall id: nat :: id < MAX_EVENT_ID && Scheduled(nanosecs, id) ==> Has(s, id) || Has(t, id))
  }

  predicate Scheduled(nanosecs: seq<u32>, id: nat)
    requires id < |nanosecs|
  {
    nanosecs[id] != NOT_SCHEDULED
  }

  // Unlinking from one list, or linking into it, leaves the other one as it is.
  lemma ChainFrame(links: seq<int>, links': seq<int>, h: int, t: seq<nat>)
    requires Chain(links, h, t) && |links'| == |links|
    requires forall i :: 0 <= i < |t| ==> links'[t[i]] == links[t[i]]
    ensures Chain(links', h, t)
  {
  }

  lemma ShortIds(q: Queue)
    requires WellFormed(q)
    ensures NoRepeats(IdsOf(q.short))
  {
  }

  lemma NoRepeatsIds(s: seq<Event>)
    requires Distinct(s)
    ensures NoRepeats(IdsOf(s))
  {
  }

  lemma IdsInsert(s: seq<Event>, e: Event)
    requires AllShort(s) && e.Short?
    ensures Spliced(IdsOf(Insert(s, e)), IdsOf(s), e.id, Position(s, e.at))
  {
    var ids, r, p := IdsOf(s), IdsOf(Insert(s, e)), Position(s, e.at);
    forall i {:trigger r[i]} | 0 <= i < |r|
      ensures r[i] == if i < p then ids[i] else if i == p then e.id else ids[i - 1]
    {
      InsertAt(s, e, i);
    }
  }

  lemma IdsWithout(s: seq<Event>, id: nat)
    requires Has(s, id)
    ensures Cut(IdsOf(Without(s, id)), IdsOf(s), Find(s, id))
  {
    var ids, r, k := IdsOf(s), IdsOf(Without(s, id)), Find(s, id);
    forall i {:trigger r[i]} | 0 <= i < |r| ensures r[i] == if i < k then ids[i] else ids[i + 1] {
      WithoutAt(s, id, i);
    }
  }

  lemma FindAt(s: seq<Event>, id: nat, i: nat)
    requires Has(s, id)
    ensures Find(s, id) < |IdsOf(s)| && IdsOf(s)[Find(s, id)] == id
    ensures i < Find(s, id) ==> IdsOf(s)[i] != id
  {
  }

  lemma ApartIds(s: seq<Event>, t: seq<Event>)
    requires Disjoint(s, t)
    ensures forall i, j :: 0 <= i < |IdsOf(s)| && 0 <= j < |IdsOf(t)| ==> IdsOf(s)[i] != IdsOf(t)[j]
  {
  }

  lemma RemoveShortNodes(q: Queue, id: nat, seconds: seq<u32>, nanosecs: seq<u32>)
    requires id < MAX_EVENT_ID && Nodes(seconds, nanosecs, q) && Has(q.short, id)
    requires Lacks(Without(q.short, id), id) && Lacks(q.long, id)
    ensures Nodes(seconds, nanosecs[id := NOT_SCHEDULED], q.(short := Without(q.short, id)))
  {
    var r := Without(q.short, id);
    var ns := nanosecs[id := NOT_SCHEDULED];
    forall i | 0 <= i < |r| ensures r[i] in q.short && r[i].id != id {
      WithoutAt(q.short, id, i);
    }
    forall x: nat | x < MAX_EVENT_ID && Scheduled(ns, x) ensures Has(r, x) || Has(q.long, x) {
      assert Scheduled(nanosecs, x) && x != id;
      WithoutHasId(q.short, id, x);
    }
  }

  lemma RemoveLongNodes(q: Queue, id: nat, seconds: seq<u32>, nanosecs: seq<u32>)
    requires id < MAX_EVENT_ID && Nodes(seconds, nanosecs, q) && Has(q.long, id)
    requires Lacks(Without(q.long, id), id) && Lacks(q.short, id)
    ensures Nodes(seconds, nanosecs[id := NOT_SCHEDULED], q.(long := Without(q.long, id)))
  {
    var r := Without(q.long, id);
    var ns := nanosecs[id := NOT_SCHEDULED];
    forall i | 0 <= i < |r| ensures r[i] in q.long && r[i].id != id {
      WithoutAt(q.long, id, i);
    }
    forall x: nat | x < MAX_EVENT_ID && Scheduled(ns, x) ensures Has(q.short, x) || Has(r, x) {
      assert Scheduled(nanosecs, x) && x != id;
      WithoutHasId(q.long, id, x);
    }
  }

  lemma RemoveNoNodes(q: Queue, id: nat, seconds: seq<u32>, nanosecs: seq<u32>)
    requires id < MAX_EVENT_ID && Nodes(seconds, nanosecs, q) && Lacks(q.short, id) && Lacks(q.long, id)
    ensures Nodes(seconds, nanosecs[id := NOT_SCHEDULED], q)
  {
  }

  // What the nodes hold after one event has been unmarked and taken off its list.
  lemma RemoveNodes(q: Queue, id: nat, seconds: seq<u32>, nanosecs: seq<u32>)
    requires WellFormed(q) && id < MAX_EVENT_ID && Nodes(seconds, nanosecs, q)
    ensures WellFormed(Remove(q, id)) && Nodes(seconds, nanosecs[id := NOT_SCHEDULED], Remove(q, id))
    ensures Lacks(Remove(q, id).short, id) && Lacks(Remove(q, id).long, id)
  {
    hide Nodes, Sorted, ShortsOk, LongsOk, Distinct, InRange, Without, Disjoint;
    RemoveKeeps(q, id);
    if Has(q.short, id) {
      RemoveShortNodes(q, id, seconds, nanosecs);
    } else if Has(q.long, id) {
      RemoveLongNodes(q, id, seconds, nanosecs);
    } else {
      RemoveNoNodes(q, id, seconds, nanosecs);
    }
  }

  // The nodes hold what the value of the queue says.
  ghost predicate Nodes(seconds: seq<u32>, nanosecs: seq<u32>, q: Queue) {
    && |seconds| == |nanosecs| == MAX_EVENT_ID
    && Typed(q) && InRange(q.short) && InRange(q.long)
    && ShortNodes(seconds, nanosecs, q.short, q.clock)
    && LongNodes(seconds, nanosecs, q.long)
    && Marks(nanosecs, q.short, q.long)
  }

  // Both lists as linked: the ids of the events of each, in order.
  ghost predicate Linked(links: seq<int>, head: int, longHead: int, s: seq<Event>, t: seq<Event>) {
    Chain(links, head, IdsOf(s)) && Chain(links, longHead, IdsOf(t))
  }

  lemma LinkOutOfOne(links: seq<int>, h: int, s: seq<Event>, other: int, t: seq<Event>, id: nat)
    requires Chain(links, h, IdsOf(s)) && Chain(links, other, IdsOf(t))
    requires Distinct(s) && Disjoint(s, t) && Has(s, id)
    ensures var k := Find(s, id);
            var after := LinkOut(links, IdsOf(s), k);
            Chain(after, if k == 0 then links[id] else h, IdsOf(Without(s, id))) && Chain(after, other, IdsOf(t))
  {
    var k := Find(s, id);
    NoRepeatsIds(s);
    ApartIds(s, t);
    IdsWithout(s, id);
    LinkOutKeepsChain(links, h, IdsOf(s), k, IdsOf(Without(s, id)));
    ChainFrame(links, LinkOut(links, IdsOf(s), k), other, IdsOf(t));
  }

  lemma LinkIntoShort(links: seq<int>, h: int, s: seq<Event>, other: int, t: seq<Event>, e: Event)
    requires Linked(links, h, other, s, t)
    requires AllShort(s) && e.Short?
    requires Distinct(s) && Disjoint(s, t) && Lacks(s, e.id) && Lacks(t, e.id) && e.id < |links|
    ensures var p := Position(s, e.at);
            Linked(LinkIn(links, IdsOf(s), e.id, p), if p == 0 then e.id else h, other, Insert(s, e), t)
  {
    var p := Position(s, e.at);
    NoRepeatsIds(s);
    ApartIds(s, t);
    assert e.id !in IdsOf(s);
    IdsInsert(s, e);
    LinkInKeepsChain(links, h, IdsOf(s), e.id, p, IdsOf(Insert(s, e)));
    ChainFrame(links, LinkIn(links, IdsOf(s), e.id, p), other, IdsOf(t));
  }

  // The comparison of the nodes agrees with the order of the absolute deadlines.
  lemma PositionByNodes(s: seq<Event>, seconds: seq<u32>, nanosecs: seq<u32>, clock: int, event: Event, p: nat)
    requires AllShort(s) && InRange(s) && |seconds| == |nanosecs| == MAX_EVENT_ID
    requires ShortNodes(seconds, nanosecs, s, clock)
    requires event.Short? && event.id < MAX_EVENT_ID && event.at == clock + nanosecs[event.id]
    requires p <= |s| && forall i :: 0 <= i < p ==> nanosecs[s[i].id] <= nanosecs[event.id]
    requires p < |s| ==> nanosecs[event.id] < nanosecs[s[p].id]
    ensures p == Position(s, event.at)
  {
  }

  // A command puts the event it names in its new place once it is on no list.
  lemma NewShortPlace(q: Queue, cycle: u32, c: Command, event: Event)
    requires Typed(q) && c.Near()
    requires event == Short(c.id, q.clock + Wrap(Deadline(q.remaining, cycle, c)), q.stamps, Asked(q.clock, cycle, c))
    ensures var r := Remove(q, c.id);
            && r.clock == q.clock && r.stamps == q.stamps
            && Perform(q, cycle, c) == r.(short := Insert(r.short, event), stamps := r.stamps + 1)
  {
  }

  lemma NewLongPlace(q: Queue, cycle: u32, c: Command, event: Event)
    requires Typed(q) && c.Far()
    requires event == Long(c.id, c.seconds, Wrap(Deadline(q.remaining, cycle, c)), Asked(q.clock, cycle, c))
    ensures var r := Remove(q, c.id);
            Perform(q, cycle, c) == r.(long := [event] + r.long)
  {
  }

  lemma LinkLongHead(links: seq<int>, head: int, longHead: int, q: Queue, event: Event)
    requires Linked(links, head, longHead, q.short, q.long)
    requires Lacks(q.short, event.id) && Lacks(q.long, event.id) && event.id < |links|
    ensures Linked(links[event.id := longHead], head, event.id, q.short, [event] + q.long)
  {
  }

  // What the nodes hold after an event has been given a place on the short list.
  lemma AddShortNodes(q: Queue, event: Event, deadline: u32, seconds: seq<u32>, nanosecs: seq<u32>)
    requires Nodes(seconds, nanosecs, q)
    requires event.Short? && event.id < MAX_EVENT_ID && event.at == q.clock + deadline
    requires Lacks(q.short, event.id) && Lacks(q.long, event.id)
    ensures var ss, ns := seconds[event.id := 0], nanosecs[event.id := deadline];
            && ShortNodes(ss, ns, q.short, q.clock)
            && (deadline != NOT_SCHEDULED ==>
                  Nodes(ss, ns, q.(short := Insert(q.short, event), stamps := q.stamps + 1)))
  {
    var ss, ns := seconds[event.id := 0], nanosecs[event.id := deadline];
    var s := Insert(q.short, event);
    hide Insert;
    forall i | 0 <= i < |s| ensures s[i] == event || (s[i] in q.short && s[i].id != event.id) {
      InsertAt(q.short, event, i);
    }
    forall x: nat | x < MAX_EVENT_ID && Scheduled(ns, x) ensures Has(s, x) || Has(q.long, x) {
      InsertHasId(q.short, event, x);
      assert x == event.id || Scheduled(nanosecs, x);
    }
  }

  lemma AddLongNodes(q: Queue, event: Event, seconds: seq<u32>, nanosecs: seq<u32>)
    requires Nodes(seconds, nanosecs, q)
    requires event.Long? && 0 < event.seconds < 0x1_0000_0000 && event.id < MAX_EVENT_ID
    requires Lacks(q.short, event.id) && Lacks(q.long, event.id) && event.nanosecs != NOT_SCHEDULED
    ensures Nodes(seconds[event.id := event.seconds], nanosecs[event.id := event.nanosecs],
                  q.(long := [event] + q.long))
  {
  }

  // The seconds kept in a scheduled node tell which list it is on.
  lemma OnOneList(q: Queue, id: nat, seconds: seq<u32>, nanosecs: seq<u32>)
    requires WellFormed(q) && id < MAX_EVENT_ID && Nodes(seconds, nanosecs, q)
    requires nanosecs[id] != NOT_SCHEDULED
    ensures Disjoint(q.long, q.short)
    ensures seconds[id] != 0 ==> !Has(q.short, id) && Lacks(q.short, id) && Has(q.long, id)
    ensures seconds[id] == 0 ==> Has(q.short, id)
  {
  }

  lemma NotScheduled(q: Queue, id: nat, seconds: seq<u32>, nanosecs: seq<u32>)
    requires Nodes(seconds, nanosecs, q) && id < MAX_EVENT_ID && nanosecs[id] == NOT_SCHEDULED
    ensures Lacks(q.short, id) && Lacks(q.long, id) && Remove(q, id) == q
  {
  }

  // The time left in a node after a slice.
  function Nearer(nanosecs: u32, nanos: Duration): u32 {
    if nanosecs <= nanos then 0 else nanosecs - nanos
  }

  // The first n nodes of a list have come nearer by the length of the slice.
  ghost predicate Advanced(was: seq<u32>, now: seq<u32>, ids: seq<nat>, n: nat, nanos: Duration) {
    && |now| == |was| && n <= |ids|
    && (forall i :: 0 <= i < |ids| ==> ids[i] < |was|)
    && (forall i :: 0 <= i < n ==> now[ids[i]] == Nearer(was[ids[i]], nanos))
    && (forall id: nat {:trigger now[id]} :: id < |was| && id !in ids[..n] ==> now[id] == was[id])
  }

  lemma AdvanceStart(links: seq<int>, h: int, was: seq<u32>, ids: seq<nat>, nanos: Duration)
    requires Chain(links, h, ids) && |links| == |was|
    ensures Advanced(was, was, ids, 0, nanos)
  {
  }

  lemma AdvanceStep(was: seq<u32>, now: seq<u32>, ids: seq<nat>, n: nat, nanos: Duration)
    requires Advanced(was, now, ids, n, nanos) && n < |ids| && NoRepeats(ids)
    ensures ids[n] < |now| && now[ids[n]] == was[ids[n]]
    ensures Advanced(was, now[ids[n] := Nearer(now[ids[n]], nanos)], ids, n + 1, nanos)
  {
  }

  lemma AdvanceNodes(q: Queue, seconds: seq<u32>, was: seq<u32>, now: seq<u32>, nanos: Duration)
    requires WellFormed(q) && Nodes(seconds, was, q) && Advanced(was, now, IdsOf(q.short), |q.short|, nanos)
    ensures var r := q.(clock := q.clock + nanos); WellFormed(r) && Nodes(seconds, now, r)
  {
  }

  // What the nodes hold after one step of the scan: one second less, and nothing else.
  lemma ScanStepNodes(q: Queue, k: nat, seconds: seq<u32>, nanosecs: seq<u32>)
    requires WellFormed(q) && Nodes(seconds, nanosecs, q) && k < |q.long|
    ensures var e, r := q.long[k], ScanStep(q, k);
            && WellFormed(r) && e.seconds == seconds[e.id] > 0
            && Nodes(seconds[e.id := e.seconds - 1], nanosecs, r)
            && ShortNodes(seconds[e.id := e.seconds - 1], nanosecs, q.short, q.clock)
            && nanosecs[e.id] == e.nanosecs
    ensures var e, r := q.long[k], ScanStep(q, k);
            && e.Long? && e.id < MAX_EVENT_ID && r.clock == q.clock && r.remaining == q.remaining
            && (e.seconds == 1 ==>
                  r.short == Insert(q.short, Demoted(e, q.clock, q.stamps)) && r.long == Without(q.long, e.id))
  {
    var e, r := q.long[k], ScanStep(q, k);
    ScanStepKeeps(q, k);
    FindDistinct(q.long, k);
    if e.seconds == 1 {
      var r1 := Remove(q, e.id);
      RemoveNodes(q, e.id, seconds, nanosecs);
      AddShortNodes(r1, Demoted(e, q.clock, q.stamps), e.nanosecs, seconds, nanosecs[e.id := NOT_SCHEDULED]);
      assert nanosecs[e.id := NOT_SCHEDULED][e.id := e.nanosecs] == nanosecs;
    } else {
      AgeNodes(q, k, seconds, nanosecs);
    }
  }

  // The links once the event at position k has been taken off the long list.
  lemma ScanStepLinks(links: seq<int>, head: int, longHead: int, q: Queue, k: nat)
    requires WellFormed(q) && Linked(links, head, longHead, q.short, q.long) && k < |q.long|
    ensures var e := q.long[k];
            && e.id < |links| && (k > 0 ==> q.long[k - 1].id < |links|) && Has(q.long, e.id)
            && Linked(if k == 0 then links else links[q.long[k - 1].id := links[e.id]], head,
                      if k == 0 then links[e.id] else longHead, q.short, Without(q.long, e.id))
            && (k == 0 ==> longHead == e.id)
            && (e.seconds > 1 ==> Linked(links, head, longHead, ScanStep(q, k).short, ScanStep(q, k).long))
    ensures var e := q.long[k];
            && Lacks(q.short, e.id) && Lacks(Without(q.long, e.id), e.id)
            && Distinct(q.short) && Disjoint(q.short, Without(q.long, e.id)) && AllShort(q.short) && InRange(q.short)
  {
    var e := q.long[k];
    FindDistinct(q.long, k);
    ChainAt(links, longHead, IdsOf(q.long), k);
    ChainAt(links, longHead, IdsOf(q.long), if k == 0 then 0 else k - 1);
    LinkOutOfOne(links, longHead, q.long, head, q.short, e.id);
    WithoutKeeps(q.long, e.id);
    WithoutKeepsApart(q.short, q.long, e.id);
    if e.seconds > 1 {
      assert IdsOf(ScanStep(q, k).long) == IdsOf(q.long);
    }
  }

  lemma AgeNodes(q: Queue, k: nat, seconds: seq<u32>, nanosecs: seq<u32>)
    requires WellFormed(q) && Nodes(seconds, nanosecs, q) && k < |q.long| && q.long[k].seconds > 1
    ensures Nodes(seconds[q.long[k].id := q.long[k].seconds - 1], nanosecs, q.(long := q.long[k := Aged(q.long[k])]))
  {
    var t := q.long[k := Aged(q.long[k])];
    forall id: nat | id < MAX_EVENT_ID && Scheduled(nanosecs, id) ensures Has(q.short, id) || Has(t, id) {
      if Has(q.long, id) {
        assert t[Find(q.long, id)].id == id;
      }
    }
  }
}
