// How many samples the sound processor has produced after any number of time slices.
module SampleClock {

  const AICA_SAMPLE_RATE := 44100
  const SECOND := 1_000_000_000

  type Duration = x: int | 0 <= x <= SECOND

  // The samples due after this many nanoseconds.
  function Due(nanosecs: int): int {
    AICA_SAMPLE_RATE * nanosecs / SECOND
  }

  // timeOfDay counts the seconds that have rolled over.
  datatype Clock = Clock(samplesDone: int, nanosecsDone: int, timeOfDay: int)

  const Reset := Clock(0, 0, 0x5bfc8900)

  // One time slice: how long it is, whether the processor is out of reset, and how many
  // samples it can get through before it stops.
  datatype Slice = Slice(nanosecs: Duration, running: bool, able: nat)

  function Requested(c: Clock, s: Slice): int {
    Due(c.nanosecsDone + s.nanosecs) - c.samplesDone
  }

  // The samples produced in a slice.
  function Produced(c: Clock, s: Slice): int {
    if !s.running then 0
    else if Requested(c, s) <= s.able then Requested(c, s) else s.able
  }

  function Elapsed(s: Slice): int {
    if s.running then s.nanosecs else 0
  }

  function RollOver(c: Clock): Clock {
    if c.nanosecsDone > SECOND then
      Clock(c.samplesDone - AICA_SAMPLE_RATE, c.nanosecsDone - SECOND, c.timeOfDay + 1)
    else c
  }

  function RunSlice(c: Clock, s: Slice): Clock {
    RollOver(c.(samplesDone := c.samplesDone + Produced(c, s), nanosecsDone := c.nanosecsDone + Elapsed(s)))
  }

  // Never ahead of the time, which stays within one second.
  predicate Behind(c: Clock) {
    0 <= c.nanosecsDone <= SECOND && c.samplesDone <= Due(c.nanosecsDone)
  }

  predicate UpToDate(c: Clock) {
    0 <= c.nanosecsDone <= SECOND && c.samplesDone == Due(c.nanosecsDone)
  }

  // As many samples as are over by then at the sample rate.
  lemma DueIs(nanosecs: int, samples: int)
    ensures Due(nanosecs) == samples
            <==> SECOND * samples <= AICA_SAMPLE_RATE * nanosecs < SECOND * (samples + 1)
  {
  }

  // A whole second takes a whole number of samples: rolling over loses nothing.
  lemma DueShifts(nanosecs: int, seconds: int)
    ensures Due(nanosecs + SECOND * seconds) == Due(nanosecs) + AICA_SAMPLE_RATE * seconds
  {
  }

  // A slice asks for no negative number of samples, and catches up with every sample missed
  // before when the processor gets through it.
  lemma SliceCatchesUp(c: Clock, s: Slice)
    requires Behind(c)
    ensures Requested(c, s) >= 0 && Produced(c, s) >= 0
    ensures Behind(RunSlice(c, s))
    ensures s.running ==> (UpToDate(RunSlice(c, s)) <==> Requested(c, s) <= s.able)
    ensures !s.running ==> RunSlice(c, s) == c
  {
  }

  function Run(c: Clock, slices: seq<Slice>): Clock
    decreases |slices|
  {
    if slices == [] then c else Run(RunSlice(c, slices[0]), slices[1..])
  }

  function TotalProduced(c: Clock, slices: seq<Slice>): int
    decreases |slices|
  {
    if slices == [] then 0 else Produced(c, slices[0]) + TotalProduced(RunSlice(c, slices[0]), slices[1..])
  }

  function TotalElapsed(slices: seq<Slice>): int
    decreases |slices|
  {
    if slices == [] then 0 else Elapsed(slices[0]) + TotalElapsed(slices[1..])
  }

  // The seconds counted are those rolled over: nothing is lost between the counters.
  lemma {:induction false} CountersAddUp(c: Clock, slices: seq<Slice>)
    requires Behind(c)
    ensures var r := Run(c, slices);
            var k := r.timeOfDay - c.timeOfDay;
            && Behind(r) && k >= 0
            && r.nanosecsDone + SECOND * k == c.nanosecsDone + TotalElapsed(slices)
            && r.samplesDone + AICA_SAMPLE_RATE * k == c.samplesDone + TotalProduced(c, slices)
    decreases |slices|
  {
    if slices != [] {
      SliceCatchesUp(c, slices[0]);
      CountersAddUp(RunSlice(c, slices[0]), slices[1..]);
    }
  }

  // Over any run, never more samples than are due at the sample rate for the time the
  // processor has been running; and exactly as many whenever the counters agree, which is
  // so after every batch it has got through, whatever it has missed before.
  lemma NoDrift(slices: seq<Slice>)
    ensures TotalProduced(Reset, slices) <= Due(TotalElapsed(slices))
    ensures TotalProduced(Reset, slices) == Due(TotalElapsed(slices)) <==> UpToDate(Run(Reset, slices))
  {
    CountersAddUp(Reset, slices);
    var r := Run(Reset, slices);
    DueShifts(r.nanosecsDone, r.timeOfDay - Reset.timeOfDay);
  }

  // In figures: the clock is up to date exactly when the samples produced are those that are
  // over in the time it has been running.
  lemma TotalIs(slices: seq<Slice>)
    ensures var total, time := TotalProduced(Reset, slices), TotalElapsed(slices);
            UpToDate(Run(Reset, slices)) <==> SECOND * total <= AICA_SAMPLE_RATE * time < SECOND * (total + 1)
  {
    NoDrift(slices);
    DueIs(TotalElapsed(slices), TotalProduced(Reset, slices));
  }

  // The time of day has moved on by the seconds that are over, the last one not counted
  // before it has been passed.
  lemma SecondsCounted(slices: seq<Slice>)
    ensures var k, time := Run(Reset, slices).timeOfDay - Reset.timeOfDay, TotalElapsed(slices);
            if time == 0 then k == 0 else SECOND * k < time <= SECOND * (k + 1)
  {
    CountersAddUp(Reset, slices);
    SomeTimeLeft(Reset, slices);
  }

  lemma {:induction false} SomeTimeLeft(c: Clock, slices: seq<Slice>)
    requires Behind(c)
    ensures var r := Run(c, slices);
            if c.nanosecsDone + TotalElapsed(slices) == 0 then r.nanosecsDone == 0 && r.timeOfDay == c.timeOfDay
            else r.nanosecsDone > 0
    decreases |slices|
  {
    if slices != [] {
      SliceCatchesUp(c, slices[0]);
      TimeGoesOn(slices[1..]);
      SomeTimeLeft(RunSlice(c, slices[0]), slices[1..]);
    }
  }

  lemma {:induction false} TimeGoesOn(slices: seq<Slice>)
    ensures TotalElapsed(slices) >= 0
    decreases |slices|
  {
    if slices != [] {
      TimeGoesOn(slices[1..]);
    }
  }

  lemma {:induction false} RunAppend(c: Clock, slices: seq<Slice>, s: Slice)
    ensures Run(c, slices + [s]) == RunSlice(Run(c, slices), s)
    decreases |slices|
  {
    if slices == [] {
      assert ([] + [s])[1..] == [];
    } else {
      RunAppend(RunSlice(c, slices[0]), slices[1..], s);
      assert (slices + [s])[1..] == slices[1..] + [s];
    }
  }

  // The last batch decides: the total is exact if and only if it was run in full.
  lemma LastBatchDecides(slices: seq<Slice>, s: Slice)
    requires s.running
    ensures TotalProduced(Reset, slices + [s]) == Due(TotalElapsed(slices + [s]))
            <==> Requested(Run(Reset, slices), s) <= s.able
  {
    NoDrift(slices + [s]);
    RunAppend(Reset, slices, s);
    CountersAddUp(Reset, slices);
    SliceCatchesUp(Run(Reset, slices), s);
  }

  // A batch that the processor cannot get through leaves the total short.
  lemma ShortBatch()
    ensures TotalProduced(Reset, [Slice(SECOND, true, 44099)]) == 44099 < Due(TotalElapsed([Slice(SECOND, true, 44099)]))
  {
    var s := Slice(SECOND, true, 44099);
    assert Produced(Reset, s) == 44099;
    assert [s][1..] == [];
  }

  // ---------------------------------------------------------------- the counter

  // The counter of samples is unsigned: after a shortfall it holds a negative number modulo
  // 2^32. What is to do is handed to the processor as an unsigned number again, and what it
  // has done to the mixer as a signed one.
  const TWO_32 := 0x1_0000_0000

  function Word(x: int): (r: int)
    ensures 0 <= r < TWO_32
  {
    x % TWO_32
  }

  function Signed(x: int): int
    requires 0 <= x < TWO_32
  {
    if x < 0x8000_0000 then x else x - TWO_32
  }

  // What is to do comes out right if and only if it is less than 2^32.
  lemma WordDifference(a: int, b: int)
    requires 0 <= a - b
    ensures Word(a - Word(b)) == Word(a - b)
    ensures Word(a - Word(b)) == a - b <==> a - b < TWO_32
  {
  }

  lemma WordSum(a: int, b: int)
    ensures Word(Word(a) + b) == Word(a + b)
  {
  }

  // The same word read as a signed number.
  lemma SignedIs(x: int, y: int)
    requires 0 <= x < TWO_32
    ensures Signed(x) == y <==> -0x8000_0000 <= y < 0x8000_0000 && (x - y) % TWO_32 == 0
  {
  }

  lemma SignedSum(a: int, b: int)
    requires 0 <= b < TWO_32
    ensures Word(a + Signed(b)) == Word(a + b)
  {
  }

  // The samples the processor gets through in a slice, by the counter.
  function Ran(c: Clock, s: Slice): int {
    if !s.running then 0
    else if Word(Requested(c, s)) <= s.able then Word(Requested(c, s)) else s.able
  }

  function CountSlice(c: Clock, s: Slice): Clock {
    RollOver(c.(samplesDone := c.samplesDone + Ran(c, s), nanosecsDone := c.nanosecsDone + Elapsed(s)))
  }

  // The counter gives the slice as specified if and only if less than 2^32 samples are to
  // do, or the processor gets through no more of them than are left of that number.
  lemma CountedRight(c: Clock, s: Slice)
    requires Behind(c)
    ensures 0 <= Ran(c, s) <= Produced(c, s) && Behind(CountSlice(c, s))
    ensures CountSlice(c, s) == RunSlice(c, s)
            <==> !s.running || Requested(c, s) < TWO_32 || s.able <= Word(Requested(c, s))
  {
    SliceCatchesUp(c, s);
  }

  class Aica {
    var samplesDone: int
    var nanosecsDone: int
    var timeOfDay: int
    // The number of samples the counter stands for.
    ghost var done: int

    ghost function Value(): Clock
      reads this
    {
      Clock(done, nanosecsDone, timeOfDay)
    }

    ghost predicate Valid()
      reads this
    {
      samplesDone == Word(done) && Behind(Value())
    }

    // aica_reset
    constructor ()
      ensures Valid() && Value() == Reset && UpToDate(Value())
    {
      samplesDone, nanosecsDone, timeOfDay := 0, 0, 0x5bfc8900;
      done := 0;
    }

    // aica_run_slice: the number handed to the mixer. The processor stops after as many
    // samples as it is able to.
    method RunTimeSlice(nanosecs: Duration, running: bool, able: nat) returns (mixed: int)
      requires Valid()
      modifies this
      ensures Valid()
      ensures Value() == CountSlice(old(Value()), Slice(nanosecs, running, able))
      ensures mixed == Ran(old(Value()), Slice(nanosecs, running, able))
              <==> Ran(old(Value()), Slice(nanosecs, running, able)) < 0x8000_0000
    {
      hide Word, Due;
      CountedRight(Value(), Slice(nanosecs, running, able));
      mixed := 0;
      if running {
        var due := Due(nanosecsDone + nanosecs);
        WordDifference(due, done);
        var numSamples := Word(due - samplesDone);
        var ran := if numSamples <= able then numSamples else able;
        mixed := Signed(ran);
        SignedSum(samplesDone, ran);
        WordSum(done, ran);
        samplesDone := Word(samplesDone + mixed);
        done := done + ran;
        nanosecsDone := nanosecsDone + nanosecs;
      }
      if nanosecsDone > SECOND {
        WordSum(done, -AICA_SAMPLE_RATE);
        samplesDone := Word(samplesDone - AICA_SAMPLE_RATE);
        done := done - AICA_SAMPLE_RATE;
        nanosecsDone := nanosecsDone - SECOND;
        timeOfDay := timeOfDay + 1;
      }
    }
  }
}
