// The three output buffers between the mixer and the audio driver: which of them hold sound,
// in which order the driver gets it, and when that order breaks.
module AudioRing {

  const NUM_BUFFERS := 3

  // One output sample, already in the format of the driver.
  type Sample = int

  datatype Status = Empty | Writing | Full

  datatype Buffer = Buffer(status: Status, posn: nat, data: seq<Sample>)

  datatype Audio = Audio(buffers: seq<Buffer>, write: nat, read: nat)

  function Next(i: nat): nat {
    if i == NUM_BUFFERS - 1 then 0 else i + 1
  }

  // length is the number of samples a buffer takes.
  predicate Shape(a: Audio, length: nat) {
    && |a.buffers| == NUM_BUFFERS && a.write < NUM_BUFFERS && a.read < NUM_BUFFERS && length > 0
    && forall i :: 0 <= i < NUM_BUFFERS ==> |a.buffers[i].data| == length && a.buffers[i].posn <= length
  }

  predicate Has(a: Audio) {
    |a.buffers| == NUM_BUFFERS && a.write < NUM_BUFFERS && a.read < NUM_BUFFERS
  }

  predicate FullAt(a: Audio, i: nat)
    requires |a.buffers| == NUM_BUFFERS && i < NUM_BUFFERS
  {
    a.buffers[i].status == Full
  }

  // ---------------------------------------------------------------- what the calls do

  // audio_next_read_buffer: the buffer read so far is empty again.
  function NextRead(a: Audio): (r: Audio)
    requires Has(a)
    ensures Has(r)
  {
    if !FullAt(a, a.read) then a
    else
      var emptied := a.buffers[a.read := a.buffers[a.read].(status := Empty, posn := 0)];
      var next := Next(a.read);
      Audio(if emptied[next].status == Full then emptied[next := emptied[next].(posn := 0)] else emptied, a.write, next)
  }

  // What it hands to the driver's past.
  function Emptied(a: Audio): seq<Sample>
    requires Has(a)
  {
    if FullAt(a, a.read) then a.buffers[a.read].data else []
  }

  function Filled(a: Audio): (r: Audio)
    requires Has(a)
    ensures Has(r)
  {
    a.(buffers := a.buffers[a.write := a.buffers[a.write].(status := Full)])
  }

  // The writer goes on to the next buffer, unless that is full.
  function Advance(a: Audio): (r: (Audio, bool))
    requires Has(a)
    ensures Has(r.0)
  {
    var next := Next(a.write);
    if FullAt(a, next) then (a, false)
    else (Audio(a.buffers[next := a.buffers[next].(status := Writing)], next, a.read), true)
  }

  // audio_next_write_buffer. The answer is that of the driver's process_buffer, which is
  // asked only when the buffer just filled is the one to be read; the flag tells whether
  // there is a buffer to go on with.
  function NextWrite(a: Audio, answer: bool): (r: (Audio, bool))
    requires Has(a)
    ensures Has(r.0)
  {
    Advance(if a.read == a.write && answer then NextRead(Filled(a)) else Filled(a))
  }

  function EmptiedByWrite(a: Audio, answer: bool): seq<Sample>
    requires Has(a)
  {
    if a.read == a.write && answer then a.buffers[a.write].data else []
  }

  function Put(a: Audio, x: Sample): (r: Audio)
    requires Has(a) && a.buffers[a.write].posn < |a.buffers[a.write].data|
    ensures Has(r)
  {
    var b := a.buffers[a.write];
    a.(buffers := a.buffers[a.write := b.(data := b.data[b.posn := x], posn := b.posn + 1)])
  }

  // ---------------------------------------------------------------- the order

  // k buffers are full, one after another from the one to be read; the writer is at the
  // next one, or still at the last of them when it has found no other.
  predicate Run(a: Audio, k: nat)
    requires Has(a) && k <= NUM_BUFFERS
  {
    var i0, i1, i2 := a.read, Next(a.read), Next(Next(a.read));
    && (FullAt(a, i0) <==> k >= 1) && (FullAt(a, i1) <==> k >= 2) && (FullAt(a, i2) <==> k >= 3)
    && (if FullAt(a, a.write) then a.write == if k == 1 then i0 else if k == 2 then i1 else i2
        else a.write == if k == 0 then i0 else if k == 1 then i1 else i2)
  }

  // Buffers that are neither full nor being written to start from their first sample.
  predicate Rewound(a: Audio)
    requires Has(a)
  {
    forall i :: 0 <= i < NUM_BUFFERS && i != a.write && !FullAt(a, i) ==> a.buffers[i].posn == 0
  }

  // What every run keeps. The buffer being written to may have just been filled up.
  predicate Tidy(a: Audio, length: nat) {
    Shape(a, length) && Rewound(a)
  }

  predicate Usable(a: Audio, length: nat) {
    Tidy(a, length) && (FullAt(a, a.write) || a.buffers[a.write].posn < length)
  }

  // What is kept as long as the driver does not overtake the writer.
  predicate InOrder(a: Audio)
    requires Has(a)
  {
    Run(a, 0) || Run(a, 1) || Run(a, 2) || Run(a, 3)
  }

  predicate Good(a: Audio, length: nat) {
    Usable(a, length) && InOrder(a)
  }

  // The samples in the ring, in the order they are to be played.
  function Stream(a: Audio): seq<Sample>
    requires Has(a)
  {
    var i0, i1, i2 := a.read, Next(a.read), Next(Next(a.read));
    DataAt(a, i0) + DataAt(a, i1) + DataAt(a, i2) + Current(a)
  }

  // What is in the buffer being written to.
  function Current(a: Audio): seq<Sample>
    requires Has(a)
  {
    if FullAt(a, a.write) then [] else Partial(a.buffers[a.write])
  }

  function DataAt(a: Audio, i: nat): seq<Sample>
    requires Has(a) && i < NUM_BUFFERS
  {
    if FullAt(a, i) then a.buffers[i].data else []
  }

  function Partial(b: Buffer): seq<Sample> {
    if b.posn <= |b.data| then b.data[..b.posn] else []
  }

  lemma NoSamples(s: seq<Sample>)
    ensures s + [] == s && [] + s == s
  {
  }

  // Both hold the same samples, as often, and in the same order if that is asked for.
  ghost predicate Same(ordered: bool, s: seq<Sample>, t: seq<Sample>) {
    multiset(s) == multiset(t) && (ordered ==> s == t)
  }

  // What is taken in two steps, when y goes in before the second one.
  lemma SameJoin(o: bool, o': bool, taken: seq<Sample>, taken': seq<Sample>,
                 s0: seq<Sample>, s1: seq<Sample>, s2: seq<Sample>, y: seq<Sample>)
    requires Same(o, taken + s1, s0) && Same(o', taken' + s2, s1 + y) && (o ==> o')
    ensures Same(o, taken + taken' + s2, s0 + y)
  {
    Joined(taken, taken', s2);
    Joined(taken, s1, y);
  }

  lemma PutKeeps(a: Audio, x: Sample, length: nat)
    requires Usable(a, length) && !FullAt(a, a.write)
    ensures var r := Put(a, x);
            && Tidy(r, length) && !FullAt(r, r.write) && r.write == a.write
            && r.buffers[r.write].posn == a.buffers[a.write].posn + 1 <= length == |r.buffers[r.write].data|
            && (if r.buffers[r.write].posn < length then Usable(r, length) else Closing(r, length))
            && (InOrder(a) ==> InOrder(r))
  {
  }

  lemma PutData(a: Audio, x: Sample)
    requires Has(a) && !FullAt(a, a.write) && a.buffers[a.write].posn < |a.buffers[a.write].data|
    ensures Put(a, x).read == a.read && Current(Put(a, x)) == Current(a) + [x]
    ensures forall i :: 0 <= i < NUM_BUFFERS ==> DataAt(Put(a, x), i) == DataAt(a, i)
  {
  }

  // A sample put in is the last of the stream.
  lemma PutAppends(a: Audio, x: Sample, length: nat)
    requires Usable(a, length) && !FullAt(a, a.write)
    ensures Tidy(Put(a, x), length) && !FullAt(Put(a, x), a.write) && Put(a, x).write == a.write
    ensures Stream(Put(a, x)) == Stream(a) + [x]
    ensures InOrder(a) ==> InOrder(Put(a, x))
  {
    hide Rewound, Run, InOrder, Put, Current, DataAt;
    PutKeeps(a, x, length);
    PutData(a, x);
    var i0, i1, i2 := a.read, Next(a.read), Next(Next(a.read));
    Joined(DataAt(a, i0) + DataAt(a, i1) + DataAt(a, i2), Current(a), [x]);
  }

  lemma ReadKeeps(a: Audio, length: nat)
    requires Usable(a, length)
    ensures Usable(NextRead(a), length)
    ensures NextRead(a).write == a.write && (FullAt(a, a.write) && a.read == a.write ==> NextRead(a).buffers[a.write].posn == 0)
    ensures InOrder(a) ==> (InOrder(NextRead(a)) <==> !(a.read == a.write && FullAt(a, a.read)))
  {
  }

  // The driver takes the oldest samples. It leaves a ring that is in order so exactly when
  // the buffer it has emptied is not the one the writer is blocked on.
  lemma ReadTakesOldest(a: Audio, length: nat)
    requires Usable(a, length)
    ensures Usable(NextRead(a), length) && Emptied(a) + Stream(NextRead(a)) == Stream(a)
    ensures InOrder(a) ==> (InOrder(NextRead(a)) <==> !(a.read == a.write && FullAt(a, a.read)))
  {
    hide Shape, Rewound, Run, InOrder, NextRead, DataAt, Current, Usable;
    UsableHas(a, length);
    ReadKeeps(a, length);
    if FullAt(a, a.read) {
      ReadShifts(a);
      StreamShifts(DataAt(a, Next(a.read)), DataAt(a, Next(Next(a.read))), DataAt(a, a.read), Current(a));
    } else {
      ReadNothing(a);
      NoSamples(Stream(a));
    }
  }

  lemma ReadNothing(a: Audio)
    requires Has(a)
    ensures !FullAt(a, a.read) ==> NextRead(a) == a && Emptied(a) == []
  {
  }

  lemma UsableHas(a: Audio, length: nat)
    requires Usable(a, length)
    ensures Has(a)
  {
  }

  lemma ReadShifts(a: Audio)
    requires Has(a) && FullAt(a, a.read)
    ensures var i0, i1, i2, r := a.read, Next(a.read), Next(Next(a.read)), NextRead(a);
            && r.read == i1 && Next(i2) == i0 && Current(r) == Current(a) && Emptied(a) == DataAt(a, i0)
            && DataAt(r, i1) == DataAt(a, i1) && DataAt(r, i2) == DataAt(a, i2) && DataAt(r, i0) == []
  {
  }

  lemma StreamShifts(d1: seq<Sample>, d2: seq<Sample>, d0: seq<Sample>, current: seq<Sample>)
    ensures d0 + (d1 + d2 + [] + current) == d0 + d1 + d2 + current
  {
  }

  // What closing a buffer needs: it has been written to its end, now or by an earlier call
  // that found no other buffer.
  predicate Closing(a: Audio, length: nat) {
    Tidy(a, length) && (FullAt(a, a.write) || a.buffers[a.write].posn == length)
  }

  lemma FullCloses(a: Audio, length: nat)
    requires Usable(a, length)
    ensures FullAt(a, a.write) ==> Closing(a, length)
  {
  }

  lemma FilledData(a: Audio, length: nat)
    requires Closing(a, length) && !FullAt(a, a.write)
    ensures Filled(a).read == a.read && Current(Filled(a)) == [] && DataAt(a, a.write) == []
    ensures Current(a) == a.buffers[a.write].data == DataAt(Filled(a), a.write)
    ensures forall i :: 0 <= i < NUM_BUFFERS && i != a.write ==> DataAt(Filled(a), i) == DataAt(a, i)
  {
  }

  lemma FilledKeepsOrder(a: Audio, length: nat)
    requires Closing(a, length)
    ensures Usable(Filled(a), length) && FullAt(Filled(a), a.write)
    ensures FullAt(a, a.write) ==> Filled(a) == a
    ensures InOrder(a) ==> InOrder(Filled(a))
    ensures InOrder(a) && !FullAt(a, a.write) ==> LastInLine(a)
  {
  }

  // The buffer being written to comes behind every full one.
  predicate LastInLine(a: Audio)
    requires Has(a)
  {
    var i0, i1, i2 := a.read, Next(a.read), Next(Next(a.read));
    || a.write == i2
    || (a.write == i1 && !FullAt(a, i2))
    || (a.write == i0 && !FullAt(a, i1) && !FullAt(a, i2))
  }

  // Marking a buffer full keeps its samples, in order if it comes last.
  lemma FilledKeeps(a: Audio, length: nat)
    requires Closing(a, length)
    ensures Usable(Filled(a), length) && FullAt(Filled(a), a.write)
    ensures InOrder(a) ==> InOrder(Filled(a))
    ensures Same(InOrder(a), Stream(Filled(a)), Stream(a))
  {
    hide Rewound, InOrder, Current, Filled;
    FilledKeepsOrder(a, length);
    if FullAt(a, a.write) {
      SameSelf(InOrder(a), Stream(a));
    } else {
      FilledData(a, length);
      var i0, i1, i2 := a.read, Next(a.read), Next(Next(a.read));
      Moved(DataAt(a, i0), DataAt(a, i1), DataAt(a, i2), Current(a));
    }
  }

  lemma SameSelf(ordered: bool, s: seq<Sample>)
    ensures Same(ordered, s, s)
  {
  }

  lemma Moved(d0: seq<Sample>, d1: seq<Sample>, d2: seq<Sample>, current: seq<Sample>)
    ensures d0 == [] ==> Same(d1 == d2 == [], current + d1 + d2 + [], d0 + d1 + d2 + current)
    ensures d1 == [] ==> Same(d2 == [], d0 + current + d2 + [], d0 + d1 + d2 + current)
    ensures d2 == [] ==> Same(true, d0 + d1 + current + [], d0 + d1 + d2 + current)
  {
    NoSamples(current);
    NoSamples(d0 + current);
    NoSamples(d0 + d1 + current);
    NoSamples(d0 + d1);
    NoSamples(d0);
    NoSamples(d1 + d2 + current);
    assert multiset(d0 + d1 + d2 + current) == multiset(d0) + multiset(d1) + multiset(d2) + multiset(current);
  }

  lemma AdvanceData(a: Audio, length: nat)
    requires Usable(a, length) && (FullAt(a, a.write) || a.buffers[a.write].posn == 0)
    ensures var r := Advance(a).0;
            && r.read == a.read && Current(r) == Current(a) == []
            && forall i :: 0 <= i < NUM_BUFFERS ==> DataAt(r, i) == DataAt(a, i)
  {
  }

  // The writer goes on to a buffer that is not full, or stays where it is.
  lemma AdvanceKeeps(a: Audio, length: nat)
    requires Usable(a, length) && (FullAt(a, a.write) || a.buffers[a.write].posn == 0)
    ensures var (r, more) := Advance(a);
            && Usable(r, length) && Stream(r) == Stream(a)
            && (more ==> !FullAt(r, r.write)) && (!more ==> r == a)
            && (InOrder(a) && FullAt(a, a.write) ==> InOrder(r))
  {
    hide DataAt, Current;
    AdvanceData(a, length);
  }

  // The marks: a buffer read is empty and starts again, as does the next one to be read; the
  // one gone on to is being written to.
  lemma Marks(a: Audio)
    requires Has(a)
    ensures FullAt(a, a.read) ==>
              var r := NextRead(a);
              && r.buffers[a.read] == a.buffers[a.read].(status := Empty, posn := 0)
              && (FullAt(r, r.read) ==> r.buffers[r.read] == a.buffers[r.read].(posn := 0))
              && (!FullAt(r, r.read) ==> r.buffers[r.read] == a.buffers[r.read])
    ensures Advance(a).1 ==> var r := Advance(a).0; r.buffers[r.write] == a.buffers[r.write].(status := Writing)
  {
  }

  // The driver has taken the only full buffer, the one just written.
  lemma AdvanceAfterTaken(a: Audio, length: nat)
    requires Good(a, length) && FullAt(a, a.write) && a.read == a.write
    ensures var (r, more) := Advance(NextRead(a)); InOrder(r) && more
  {
  }

  // Closing a buffer keeps every sample, taken by the driver at once or waiting, and keeps
  // the order of a ring that is in order.
  lemma WriteKeeps(a: Audio, answer: bool, length: nat)
    requires Closing(a, length)
    ensures var (r, more) := NextWrite(a, answer);
            && Usable(r, length) && (more ==> !FullAt(r, r.write)) && (InOrder(a) && !more ==> FullAt(r, r.write))
            && (InOrder(a) ==> InOrder(r))
            && Same(InOrder(a), EmptiedByWrite(a, answer) + Stream(r), Stream(a))
  {
    hide Rewound, Stream, Advance, InOrder, NextRead;
    FilledKeeps(a, length);
    var full := Filled(a);
    if a.read == a.write && answer {
      ReadTakesOldest(full, length);
      ReadKeeps(full, length);
      AdvanceKeeps(NextRead(full), length);
      if InOrder(a) {
        AdvanceAfterTaken(full, length);
      }
    } else {
      AdvanceKeeps(full, length);
      NoSamples(Stream(a));
      NoSamples(Stream(full));
    }
  }

  // ---------------------------------------------------------------- mixing

  // After a call: the ring, the samples the driver has taken meanwhile, and how many of the
  // samples offered have gone in.
  datatype Mixed = Mixed(audio: Audio, taken: seq<Sample>, accepted: nat)

  function Answer(answers: seq<bool>): bool {
    answers != [] && answers[0]
  }

  function Later(answers: seq<bool>): seq<bool> {
    if answers == [] then [] else answers[1..]
  }

  // The output loop of audio_mix_samples: it stops when there is no buffer to go on with,
  // and drops the samples that are left.
  function Output(a: Audio, samples: seq<Sample>, answers: seq<bool>): (r: Mixed)
    requires Has(a)
    ensures Has(r.audio) && r.accepted <= |samples|
    decreases |samples|
  {
    if samples == [] || a.buffers[a.write].posn >= |a.buffers[a.write].data| then Mixed(a, [], 0)
    else
      var a1 := Put(a, samples[0]);
      if a1.buffers[a1.write].posn < |a1.buffers[a1.write].data| then
        var r := Output(a1, samples[1..], answers);
        Mixed(r.audio, r.taken, r.accepted + 1)
      else
        var (a2, more) := NextWrite(a1, Answer(answers));
        var taken := EmptiedByWrite(a1, Answer(answers));
        if !more then Mixed(a2, taken, 1)
        else
          var r := Output(a2, samples[1..], Later(answers));
          Mixed(r.audio, taken + r.taken, r.accepted + 1)
  }

  // The end of audio_mix_samples: a writer that was blocked tries once more.
  function Mix(a: Audio, samples: seq<Sample>, answers: seq<bool>): (r: Mixed)
    requires Has(a)
    ensures Has(r.audio) && r.accepted <= |samples|
  {
    if !FullAt(a, a.write) then Output(a, samples, answers)
    else
      var (a1, more) := NextWrite(a, Answer(answers));
      var taken := EmptiedByWrite(a, Answer(answers));
      if !more then Mixed(a1, taken, 0)
      else
        var r := Output(a1, samples, Later(answers));
        Mixed(r.audio, taken + r.taken, r.accepted)
  }

  lemma Joined(x: seq<Sample>, y: seq<Sample>, z: seq<Sample>)
    ensures x + y + z == x + (y + z)
  {
  }

  // One turn of the output loop.
  lemma OutputStep(a: Audio, samples: seq<Sample>, answers: seq<bool>, length: nat)
    requires Usable(a, length) && !FullAt(a, a.write) && samples != []
    ensures |a.buffers[a.write].data| == length && a.buffers[a.write].posn < length
    ensures var r, a1 := Output(a, samples, answers), Put(a, samples[0]);
            && (a1.buffers[a1.write].posn < length ==>
                  var s := Output(a1, samples[1..], answers);
                  r == Mixed(s.audio, s.taken, s.accepted + 1))
            && (a1.buffers[a1.write].posn == length ==>
                  var (a2, more) := NextWrite(a1, Answer(answers));
                  var taken := EmptiedByWrite(a1, Answer(answers));
                  if more then
                    var s := Output(a2, samples[1..], Later(answers));
                    r == Mixed(s.audio, taken + s.taken, s.accepted + 1)
                  else r == Mixed(a2, taken, 1))
  {
  }

  lemma OutputEnds(a: Audio, samples: seq<Sample>, answers: seq<bool>)
    requires Has(a) && samples == []
    ensures Output(a, samples, answers) == Mixed(a, [], 0)
  {
  }

  // The output loop keeps every sample, in order if the ring is.
  lemma {:induction false} OutputKeeps(a: Audio, samples: seq<Sample>, answers: seq<bool>, length: nat)
    requires Usable(a, length) && !FullAt(a, a.write)
    ensures var r := Output(a, samples, answers);
            && Usable(r.audio, length) && (InOrder(a) ==> InOrder(r.audio))
            && Same(InOrder(a), r.taken + Stream(r.audio), Stream(a) + samples[..r.accepted])
    decreases |samples|
  {
    hide Usable, Closing, InOrder, Stream, Put, Output, NextWrite, EmptiedByWrite, Same;
    UsableHas(a, length);
    if samples == [] {
      OutputEnds(a, samples, answers);
      NoSamples(Stream(a));
      SameSelf(InOrder(a), Stream(a));
    } else {
      var x, rest := samples[0], samples[1..];
      OutputStep(a, samples, answers, length);
      PutAppends(a, x, length);
      PutKeeps(a, x, length);
      var a1, r := Put(a, x), Output(a, samples, answers);
      if a1.buffers[a1.write].posn < length {
        OutputKeeps(a1, rest, answers, length);
      } else {
        WriteKeeps(a1, Answer(answers), length);
        var (a2, more) := NextWrite(a1, Answer(answers));
        var taken := EmptiedByWrite(a1, Answer(answers));
        if more {
          OutputKeeps(a2, rest, Later(answers), length);
          var s := Output(a2, rest, Later(answers));
          SameJoin(InOrder(a1), InOrder(a2), taken, s.taken, Stream(a1), Stream(a2), Stream(s.audio), rest[..s.accepted]);
        } else {
          NoSamples(Stream(a1));
          assert rest[..0] == [];
        }
      }
      PutFirst(InOrder(a), InOrder(a1), r.taken + Stream(r.audio), Stream(a), samples, r.accepted);
    }
  }

  lemma PutFirst(o: bool, o': bool, s: seq<Sample>, before: seq<Sample>, samples: seq<Sample>, n: nat)
    requires 0 < n <= |samples| && Same(o', s, before + [samples[0]] + samples[1..][..n - 1]) && (o ==> o')
    ensures Same(o, s, before + samples[..n])
  {
    FirstOf(samples, n);
    Joined(before, [samples[0]], samples[1..][..n - 1]);
  }

  lemma FirstOf(samples: seq<Sample>, n: nat)
    requires n <= |samples|
    ensures n > 0 ==> samples[..n] == [samples[0]] + samples[1..][..n - 1]
  {
  }

  // One call of the mixer: what the driver has taken and what the ring holds is what it held
  // and the samples that have gone in, in order if the ring was.
  lemma MixKeeps(a: Audio, samples: seq<Sample>, answers: seq<bool>, length: nat)
    requires Usable(a, length)
    ensures var r := Mix(a, samples, answers);
            && Usable(r.audio, length) && (InOrder(a) ==> InOrder(r.audio))
            && Same(InOrder(a), r.taken + Stream(r.audio), Stream(a) + samples[..r.accepted])
  {
    hide Rewound, InOrder, Stream, NextWrite, EmptiedByWrite, Output;
    if FullAt(a, a.write) {
      WriteKeeps(a, Answer(answers), length);
      var (a1, more) := NextWrite(a, Answer(answers));
      var taken := EmptiedByWrite(a, Answer(answers));
      if more {
        OutputKeeps(a1, samples, Later(answers), length);
        var r := Output(a1, samples, Later(answers));
        SameJoin(InOrder(a), InOrder(a1), taken, r.taken, Stream(a), Stream(a1), Stream(r.audio), samples[..r.accepted]);
      } else {
        NoSamples(Stream(a));
      }
    } else {
      OutputKeeps(a, samples, answers, length);
    }
  }

  lemma AdvanceStops(a: Audio)
    requires Has(a)
    ensures !Advance(a).1 <==> FullAt(a, Next(a.write))
    ensures !Advance(a).1 ==> Advance(a).0 == a
  {
  }

  // Samples are dropped only when the next buffer is full.
  lemma {:induction false} OutputAccepts(a: Audio, samples: seq<Sample>, answers: seq<bool>, length: nat)
    requires Usable(a, length) && !FullAt(a, a.write)
    ensures var r := Output(a, samples, answers); r.accepted < |samples| ==> FullAt(r.audio, Next(r.audio.write))
    decreases |samples|
  {
    hide Usable, Closing, InOrder, Stream, Put, Output, Advance, NextRead, EmptiedByWrite, Same;
    UsableHas(a, length);
    if samples == [] {
      OutputEnds(a, samples, answers);
    } else {
      OutputStep(a, samples, answers, length);
      PutKeeps(a, samples[0], length);
      var a1 := Put(a, samples[0]);
      if a1.buffers[a1.write].posn < length {
        OutputAccepts(a1, samples[1..], answers, length);
      } else {
        WriteKeeps(a1, Answer(answers), length);
        AdvanceStops(if a1.read == a1.write && Answer(answers) then NextRead(Filled(a1)) else Filled(a1));
        var (a2, more) := NextWrite(a1, Answer(answers));
        if more {
          OutputAccepts(a2, samples[1..], Later(answers), length);
        }
      }
    }
  }

  lemma MixAccepts(a: Audio, samples: seq<Sample>, answers: seq<bool>, length: nat)
    requires Usable(a, length)
    ensures var r := Mix(a, samples, answers); r.accepted < |samples| ==> FullAt(r.audio, Next(r.audio.write))
  {
    hide Rewound, InOrder, Stream, Advance, NextRead, EmptiedByWrite, Output;
    if FullAt(a, a.write) {
      WriteKeeps(a, Answer(answers), length);
      AdvanceStops(if a.read == a.write && Answer(answers) then NextRead(Filled(a)) else Filled(a));
      var (a1, more) := NextWrite(a, Answer(answers));
      if more {
        OutputAccepts(a1, samples, Later(answers), length);
      }
    } else {
      OutputAccepts(a, samples, answers, length);
    }
  }

  // ---------------------------------------------------------------- whole runs

  datatype Call = MixCall(samples: seq<Sample>, answers: seq<bool>) | ReadCall

  // The driver asks for the next buffer while the one it has finished is the last one full
  // and the writer is still blocked on it.
  predicate Overtaking(a: Audio, call: Call)
    requires Has(a)
  {
    call.ReadCall? && a.read == a.write && FullAt(a, a.read)
  }

  // The ring after a call, what the driver has taken, and what has gone in.
  function One(a: Audio, call: Call): (r: (Audio, seq<Sample>, seq<Sample>))
    requires Has(a)
    ensures Has(r.0)
  {
    match call
    case MixCall(samples, answers) =>
      var m := Mix(a, samples, answers);
      (m.audio, m.taken, samples[..m.accepted])
    case ReadCall => (NextRead(a), Emptied(a), [])
  }

  function RunCalls(a: Audio, calls: seq<Call>): (r: (Audio, seq<Sample>, seq<Sample>))
    requires Has(a)
    ensures Has(r.0)
    decreases |calls|
  {
    if calls == [] then (a, [], [])
    else
      var (a1, taken, accepted) := One(a, calls[0]);
      var r := RunCalls(a1, calls[1..]);
      (r.0, taken + r.1, accepted + r.2)
  }

  ghost predicate NeverOvertakes(a: Audio, calls: seq<Call>)
    requires Has(a)
    decreases |calls|
  {
    calls == [] || (!Overtaking(a, calls[0]) && NeverOvertakes(One(a, calls[0]).0, calls[1..]))
  }

  // Over any run, the samples the driver has taken and those in the ring are the ones that
  // have gone in; and in that order, unless the driver overtakes a blocked writer.
  lemma {:induction false} RunKeeps(a: Audio, calls: seq<Call>, length: nat)
    requires Usable(a, length)
    ensures var (r, taken, accepted) := RunCalls(a, calls);
            var ordered := InOrder(a) && NeverOvertakes(a, calls);
            && Usable(r, length) && (ordered ==> InOrder(r))
            && Same(ordered, taken + Stream(r), Stream(a) + accepted)
    decreases |calls|
  {
    hide Rewound, InOrder, Stream, Mix, NextRead, Emptied;
    if calls == [] {
      NoSamples(Stream(a));
    } else {
      var ordered := InOrder(a) && NeverOvertakes(a, calls);
      var (a1, taken1, accepted1) := One(a, calls[0]);
      OneKeeps(a, calls[0], length);
      RunKeeps(a1, calls[1..], length);
      var (r, taken, accepted) := RunCalls(a1, calls[1..]);
      SameJoin(ordered, InOrder(a1) && NeverOvertakes(a1, calls[1..]), taken1, taken,
               Stream(a) + accepted1, Stream(a1), Stream(r), accepted);
      Joined(Stream(a), accepted1, accepted);
    }
  }

  lemma OneKeeps(a: Audio, call: Call, length: nat)
    requires Usable(a, length)
    ensures var (r, taken, accepted) := One(a, call);
            var ordered := InOrder(a) && !Overtaking(a, call);
            && Usable(r, length) && (ordered ==> InOrder(r))
            && Same(ordered, taken + Stream(r), Stream(a) + accepted)
  {
    hide Rewound, InOrder, Stream, Mix, NextRead, Emptied;
    if call.MixCall? {
      MixKeeps(a, call.samples, call.answers, length);
    } else {
      ReadTakesOldest(a, length);
      NoSamples(Stream(a));
    }
  }

  // Whatever the mixer and the driver do, and in whatever order: no sample is lost, none
  // comes twice, and so no full buffer is written over.
  lemma NothingLost(calls: seq<Call>, length: nat)
    requires length > 0
    ensures var (r, taken, accepted) := RunCalls(Fresh(length), calls);
            Usable(r, length) && multiset(taken) + multiset(Stream(r)) == multiset(accepted)
  {
    FreshGood(length);
    RunKeeps(Fresh(length), calls, length);
    var (r, taken, accepted) := RunCalls(Fresh(length), calls);
    assert multiset(taken + Stream(r)) == multiset(taken) + multiset(Stream(r));
    NoSamples(accepted);
  }

  // In a run in which the driver never overtakes a blocked writer, they come in the order
  // in which they went in.
  lemma PlaysInOrder(calls: seq<Call>, length: nat)
    requires length > 0 && NeverOvertakes(Fresh(length), calls)
    ensures var (r, taken, accepted) := RunCalls(Fresh(length), calls);
            Good(r, length) && taken + Stream(r) == accepted
  {
    FreshGood(length);
    RunKeeps(Fresh(length), calls, length);
    NoSamples(RunCalls(Fresh(length), calls).2);
  }

  // The ring as audio_set_driver leaves it.
  function Fresh(length: nat): Audio {
    var b := Buffer(Empty, 0, seq(length, _ => 0));
    Audio([b, b, b], 0, 0)
  }

  lemma FreshGood(length: nat)
    requires length > 0
    ensures Good(Fresh(length), length) && Stream(Fresh(length)) == []
  {
  }

  // ---------------------------------------------------------------- out of order

  // Samples in a row into the buffer being written to.
  function Written(a: Audio, s: seq<Sample>): (r: Audio)
    requires Has(a) && a.buffers[a.write].posn + |s| <= |a.buffers[a.write].data|
    ensures Has(r)
  {
    var b := a.buffers[a.write];
    a.(buffers := a.buffers[a.write :=
      b.(data := b.data[..b.posn] + s + b.data[b.posn + |s|..], posn := b.posn + |s|)])
  }

  lemma WrittenStep(a: Audio, x: Sample, s: seq<Sample>)
    requires Has(a) && a.buffers[a.write].posn + 1 + |s| <= |a.buffers[a.write].data|
    ensures Written(a, [x] + s) == Written(Put(a, x), s)
    ensures Written(a, [x]) == Put(a, x)
  {
    var b := a.buffers[a.write];
    var after := b.data[b.posn := x];
    assert after[..b.posn + 1] == b.data[..b.posn] + [x];
    assert after == b.data[..b.posn] + [x] + b.data[b.posn + 1..];
    assert after[..b.posn + 1] + s + after[b.posn + 1 + |s|..] == b.data[..b.posn] + ([x] + s) + b.data[b.posn + 1 + |s|..];
    assert Written(a, [x] + s).buffers == Written(Put(a, x), s).buffers;
    assert Written(a, [x]).buffers == Put(a, x).buffers;
  }

  // The output loop up to the end of the buffer being written to.
  lemma {:induction false} OutputCloses(a: Audio, samples: seq<Sample>, n: nat, answers: seq<bool>, length: nat)
    requires Usable(a, length) && !FullAt(a, a.write) && a.buffers[a.write].posn + n == length && n <= |samples|
    ensures var b := Written(a, samples[..n]);
            var (a2, more) := NextWrite(b, Answer(answers));
            var taken := EmptiedByWrite(b, Answer(answers));
            Output(a, samples, answers) ==
              if !more then Mixed(a2, taken, n)
              else
                var r := Output(a2, samples[n..], Later(answers));
                Mixed(r.audio, taken + r.taken, n + r.accepted)
    decreases n
  {
    hide Rewound, NextWrite, EmptiedByWrite, Written;
    var x := samples[0];
    PutKeeps(a, x, length);
    WrittenStep(a, x, samples[1..][..n - 1]);
    FirstOf(samples, n);
    if n == 1 {
      assert samples[..1] == [x];
    } else {
      OutputCloses(Put(a, x), samples[1..], n - 1, answers, length);
      assert samples[1..][n - 1..] == samples[n..];
    }
  }

  // A buffer written from its first sample to its last.
  lemma WholeBuffer(a: Audio, samples: seq<Sample>, answer: bool, length: nat)
    requires Usable(a, length) && !FullAt(a, a.write) && a.buffers[a.write].posn == 0 && |samples| == length
    requires !FullAt(a, Next(a.write))
    ensures var b := Written(a, samples);
            var (r, more) := NextWrite(b, answer);
            && more && Usable(r, length) && r.write == Next(a.write) && !FullAt(r, r.write) && r.buffers[r.write].posn == 0
            && (a.read == a.write && answer ==>
                  EmptiedByWrite(b, answer) == samples && r.read == Next(a.read) && !FullAt(r, a.write))
            && (!(a.read == a.write && answer) ==>
                  EmptiedByWrite(b, answer) == [] && r.read == a.read && FullAt(r, a.write) && r.buffers[a.write].data == samples)
            && var last := Next(r.write); r.buffers[last] == a.buffers[last]
  {
  }

  // The driver waits for the buffer behind the one being written to, and all are empty.
  predicate Overtaken(a: Audio, length: nat) {
    Usable(a, length) && a.read == Next(a.write) && a.buffers[a.write].posn == 0
    && !FullAt(a, 0) && !FullAt(a, 1) && !FullAt(a, 2)
  }

  lemma OvertakenMix(a: Audio, samples: seq<Sample>, answer: bool, length: nat)
    requires Overtaken(a, length) && |samples| == 2 * length
    ensures var r := Output(a, samples, [answer, true]);
            r.taken == samples[length..] && r.accepted == 2 * length && Stream(r.audio) == samples[..length]
  {
    hide Rewound, Written, NextWrite, EmptiedByWrite, Stream, Output;
    var first, second := samples[..length], samples[length..];
    OutputCloses(a, samples, length, [answer, true], length);
    WholeBuffer(a, first, answer, length);
    var b := NextWrite(Written(a, first), answer).0;
    OutputCloses(b, second, length, [true], length);
    WholeBuffer(b, second, true, length);
    var c := NextWrite(Written(b, second), true).0;
    assert Later([answer, true]) == [true] && second[..length] == second;
    OutputEnds(c, second[length..], Later([true]));
    OneWaiting(c, length);
  }

  lemma OneWaiting(a: Audio, length: nat)
    requires Usable(a, length) && a.read == a.write && a.buffers[a.write].posn == 0
    requires !FullAt(a, a.write) && FullAt(a, Next(a.write)) && !FullAt(a, Next(Next(a.write)))
    ensures Stream(a) == a.buffers[Next(a.write)].data
  {
  }

  lemma Overtakes(a: Audio, length: nat)
    requires Good(a, length) && Overtaking(a, ReadCall)
    ensures Overtaken(NextRead(a), length) && Emptied(a) == Stream(a)
  {
  }

  // Whenever the driver overtakes the writer, it gets the second buffer mixed after that
  // before the first one.
  lemma OvertakingReorders(a: Audio, samples: seq<Sample>, answer: bool, length: nat)
    requires Good(a, length) && Overtaking(a, ReadCall) && |samples| == 2 * length
    ensures var (r, taken, accepted) := RunCalls(a, [ReadCall, MixCall(samples, [answer, true])]);
            && accepted == samples && taken == Stream(a) + samples[length..] && Stream(r) == samples[..length]
  {
    hide Overtaken, Stream, NextRead, Output, Emptied;
    var b := NextRead(a);
    Overtakes(a, length);
    OvertakenMix(b, samples, answer, length);
    var mix := MixCall(samples, [answer, true]);
    assert [ReadCall, mix][1..] == [mix];
    assert RunCalls(One(b, mix).0, [mix][1..]) == (One(b, mix).0, [], []);
  }

  lemma AllFilled(samples: seq<Sample>, length: nat)
    requires length > 0 && |samples| == 3 * length
    ensures var r := Mix(Fresh(length), samples, []);
            r.accepted == 3 * length && r.audio.read == 0 && r.audio.write == 2
            && FullAt(r.audio, 0) && FullAt(r.audio, 1) && FullAt(r.audio, 2)
  {
    hide Rewound, Written, NextWrite, EmptiedByWrite, Output;
    var a := Fresh(length);
    FreshGood(length);
    OutputCloses(a, samples, length, [], length);
    WholeBuffer(a, samples[..length], false, length);
    var b := NextWrite(Written(a, samples[..length]), false).0;
    var later := samples[length..];
    OutputCloses(b, later, length, [], length);
    WholeBuffer(b, later[..length], false, length);
    var c := NextWrite(Written(b, later[..length]), false).0;
    OutputCloses(c, later[length..], length, [], length);
    Blocked(c, later[length..], length);
  }

  lemma Blocked(a: Audio, samples: seq<Sample>, length: nat)
    requires Usable(a, length) && !FullAt(a, a.write) && a.buffers[a.write].posn == 0 && |samples| == length
    requires a.read == Next(a.write) && FullAt(a, Next(a.write)) && FullAt(a, Next(Next(a.write)))
    ensures var (r, more) := NextWrite(Written(a, samples[..length]), false);
            !more && r.read == a.read && r.write == a.write && FullAt(r, 0) && FullAt(r, 1) && FullAt(r, 2)
  {
  }

  // A driver that empties all three buffers before the mixer runs again overtakes it.
  lemma EmptyingOvertakes(samples: seq<Sample>, length: nat)
    requires length > 0 && |samples| == 3 * length
    ensures var calls := [MixCall(samples, []), ReadCall, ReadCall];
            var (r, taken, accepted) := RunCalls(Fresh(length), calls);
            Good(r, length) && Overtaking(r, ReadCall) && accepted == samples == taken + Stream(r)
  {
    hide Stream, Mix, Good;
    var mix := MixCall(samples, []);
    AllFilled(samples, length);
    var a := Mix(Fresh(length), samples, []).audio;
    var b := NextRead(a);
    assert [mix, ReadCall, ReadCall][1..] == [ReadCall, ReadCall] && [ReadCall, ReadCall][1..] == [ReadCall];
    assert RunCalls(NextRead(b), [ReadCall][1..]) == (NextRead(b), [], []);
    assert NeverOvertakes(NextRead(b), [ReadCall][1..]) && NeverOvertakes(b, [ReadCall]);
    assert NeverOvertakes(a, [ReadCall, ReadCall]);
    PlaysInOrder([mix, ReadCall, ReadCall], length);
  }

  // ---------------------------------------------------------------- the state

  class AudioState {
    var buffers: seq<Buffer>
    var writeBuffer: nat
    var readBuffer: nat

    ghost function Value(): Audio
      reads this
    {
      Audio(buffers, writeBuffer, readBuffer)
    }

    // audio_set_driver, for buffers of this many samples.
    constructor (length: nat)
      requires length > 0
      ensures Value() == Fresh(length) && Good(Value(), length)
    {
      var b := Buffer(Empty, 0, seq(length, _ => 0));
      buffers, writeBuffer, readBuffer := [b, b, b], 0, 0;
      new;
      FreshGood(length);
    }

    // audio_next_read_buffer. The buffer it returns is the next one to read, when that one
    // is full.
    method NextReadBuffer() returns (buffer: int)
      requires Has(Value())
      modifies this
      ensures Value() == NextRead(old(Value()))
      ensures buffer == if FullAt(old(Value()), old(readBuffer)) && FullAt(Value(), readBuffer) then readBuffer else -1
    {
      buffer := -1;
      if buffers[readBuffer].status == Full {
        buffers := buffers[readBuffer := buffers[readBuffer].(status := Empty, posn := 0)];
        readBuffer := readBuffer + 1;
        if readBuffer == NUM_BUFFERS {
          readBuffer := 0;
        }
        if buffers[readBuffer].status == Full {
          buffers := buffers[readBuffer := buffers[readBuffer].(posn := 0)];
          buffer := readBuffer;
        }
      }
    }

    // audio_next_write_buffer
    method NextWriteBuffer(answer: bool) returns (more: bool)
      requires Has(Value())
      modifies this
      ensures (Value(), more) == NextWrite(old(Value()), answer)
    {
      buffers := buffers[writeBuffer := buffers[writeBuffer].(status := Full)];
      if readBuffer == writeBuffer && answer {
        var _ := NextReadBuffer();
      }
      var next := if writeBuffer == NUM_BUFFERS - 1 then 0 else writeBuffer + 1;
      if buffers[next].status == Full {
        more := false;
      } else {
        writeBuffer := next;
        buffers := buffers[next := buffers[next].(status := Writing)];
        more := true;
      }
    }

    // One sample into the buffer being written to.
    method PutSample(x: Sample) returns (closed: bool)
      requires Has(Value()) && buffers[writeBuffer].posn < |buffers[writeBuffer].data|
      modifies `buffers
      ensures Value() == Put(old(Value()), x)
      ensures closed <==> buffers[writeBuffer].posn == |buffers[writeBuffer].data|
    {
      var b := buffers[writeBuffer];
      buffers := buffers[writeBuffer := b.(data := b.data[b.posn := x], posn := b.posn + 1)];
      closed := buffers[writeBuffer].posn == |buffers[writeBuffer].data|;
    }

    // The end of audio_mix_samples: the samples offered, and how many of them went in.
    method MixSamples(samples: seq<Sample>, answers: seq<bool>, ghost length: nat) returns (accepted: nat)
      requires Usable(Value(), length)
      modifies this
      ensures Usable(Value(), length)
      ensures Value() == Mix(old(Value()), samples, answers).audio
      ensures accepted == Mix(old(Value()), samples, answers).accepted
    {
      hide Usable, Closing, InOrder, Stream, Output, Put, NextWrite, EmptiedByWrite, Same;
      UsableHas(Value(), length);
      FullCloses(Value(), length);
      accepted := 0;
      var asked := answers;
      MixKeeps(Value(), samples, answers, length);
      if buffers[writeBuffer].status == Full {
        WriteKeeps(Value(), Answer(asked), length);
        var more := NextWriteBuffer(Answer(asked));
        asked := Later(asked);
        if !more {
          return;
        }
      }
      ghost var start := Value();
      ghost var whole := Output(start, samples, asked);
      var j := 0;
      while j < |samples|
        invariant j == accepted <= |samples| && Has(Value()) && Usable(Value(), length) && !FullAt(Value(), writeBuffer)
        invariant whole.audio == Output(Value(), samples[j..], asked).audio
        invariant whole.accepted == j + Output(Value(), samples[j..], asked).accepted
      {
        OutputStep(Value(), samples[j..], asked, length);
        PutKeeps(Value(), samples[j], length);
        assert samples[j..][1..] == samples[j + 1..];
        var closed := PutSample(samples[j]);
        accepted := accepted + 1;
        j := j + 1;
        if closed {
          WriteKeeps(Value(), Answer(asked), length);
          var more := NextWriteBuffer(Answer(asked));
          asked := Later(asked);
          if !more {
            return;
          }
        }
      }
      OutputEnds(Value(), samples[j..], asked);
    }
  }
}
