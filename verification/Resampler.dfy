// Which sample of its source a sound channel plays at each output sample: the position is
// carried along step by step, with a remainder, and round the loop.
module Resampler {

  const TWO_32 := 0x1_0000_0000

  // Positions and remainders are unsigned words that wrap around. Rates stay far below the
  // half of one.
  type u32 = x: int | 0 <= x < TWO_32
  type Rate = x: int | 0 <= x < 0x8000_0000

  // left is the part of a source sample already played, counted in the rate of the channel.
  datatype Channel = Channel(active: bool, posn: u32, left: u32, end: u32, looping: bool, loopStart: u32, rate: Rate)

  function Wrap(x: nat): u32 {
    x % TWO_32
  }

  // One sample on in the source: back to the start of the loop at its end, or no further.
  function Step(c: Channel): Channel {
    if Wrap(c.posn + 1) != c.end then c.(posn := Wrap(c.posn + 1))
    else if c.looping then c.(posn := c.loopStart)
    else c.(posn := c.end, active := false)
  }

  function Travel(c: Channel, k: nat): Channel
    decreases k
  {
    if k == 0 || !c.active then c else Travel(Step(c), k - 1)
  }

  // The remainder of x by m.
  function Round(x: nat, m: nat): (r: nat)
    requires m > 0
    ensures r < m
    decreases x
  {
    if x < m then x else Round(x - m, m)
  }

  lemma {:induction false} RoundIs(x: nat, m: nat) returns (times: nat)
    requires m > 0
    ensures x == times * m + Round(x, m)
    decreases x
  {
    if x < m {
      times := 0;
    } else {
      times := RoundIs(x - m, m);
      times := times + 1;
    }
  }

  // How many steps it takes to come to the end: all the way round from there or from behind.
  function Distance(posn: u32, end: u32): (d: nat)
    ensures 0 < d <= TWO_32
  {
    if posn < end then end - posn else TWO_32 - posn + end
  }

  lemma DistanceIsFirst(posn: u32, end: u32, k: nat)
    requires 0 < k <= Distance(posn, end)
    ensures Wrap(posn + k) == end <==> k == Distance(posn, end)
  {
  }

  predicate Meets(c: Channel, k: nat) {
    k >= Distance(c.posn, c.end)
  }

  // The place k samples on, in one formula.
  function Place(c: Channel, k: nat): u32 {
    if !Meets(c, k) then Wrap(c.posn + k)
    else if !c.looping then c.end
    else Wrap(c.loopStart + Round(k - Distance(c.posn, c.end), Distance(c.loopStart, c.end)))
  }

  // Going step by step comes to the same place, and a channel without a loop stops exactly
  // when it has come to its end.
  lemma {:induction false} TravelArrives(c: Channel, k: nat)
    requires c.active
    ensures Travel(c, k) == c.(posn := Place(c, k), active := c.looping || !Meets(c, k))
    decreases k
  {
    hide Place, Meets, Step;
    StepArrives(c, k);
    if k > 0 {
      var d := Step(c);
      if d.active {
        TravelArrives(d, k - 1);
      } else {
        assert Travel(d, k - 1) == d;
      }
    }
  }

  lemma StepArrives(c: Channel, k: nat)
    requires c.active
    ensures k == 0 ==> Place(c, k) == c.posn && !Meets(c, k)
    ensures var d := Step(c);
            && d == c.(posn := d.posn, active := d.active)
            && (k > 0 && d.active ==>
                  Place(c, k) == Place(d, k - 1) && (c.looping || !Meets(c, k) <==> d.looping || !Meets(d, k - 1)))
            && (k > 0 && !d.active ==> !c.looping && Meets(c, k) && d.posn == Place(c, k))
  {
    hide Wrap, Distance, Round;
    NextDistance(c.posn, c.end);
    if k > 0 {
      WrapAdds(c.posn + 1, k - 1);
      RoundOnce(k - 1, Distance(c.loopStart, c.end));
    }
    WrapAdds(c.posn, 0);
  }

  lemma NextDistance(posn: u32, end: u32)
    ensures Wrap(posn) == posn
    ensures if Wrap(posn + 1) == end then Distance(posn, end) == 1
            else Distance(Wrap(posn + 1), end) == Distance(posn, end) - 1
  {
  }

  lemma WrapAdds(x: nat, y: nat)
    ensures Wrap(Wrap(x) + y) == Wrap(x + y)
  {
  }

  lemma RoundOnce(x: nat, m: nat)
    requires m > 0
    ensures Round(x, m) == if x < m then x else Round(x - m, m)
  {
  }

  // A channel whose position and loop start lie before its end plays nothing beyond it.
  lemma PlaceInside(c: Channel, k: nat)
    ensures c.posn < c.end && (if c.looping then c.loopStart < c.end else !Meets(c, k)) ==> Place(c, k) < c.end
  {
  }

  // How many source samples this much of the rate stands for, and what is left over: at
  // most one output sample's worth, as the code leaves it.
  function Steps(x: nat, outputRate: nat): nat
    requires outputRate > 0
    decreases x
  {
    if x <= outputRate then 0 else 1 + Steps(x - outputRate, outputRate)
  }

  function Rest(x: nat, outputRate: nat): (r: nat)
    requires outputRate > 0
    ensures r <= outputRate && (x > 0 ==> r > 0)
    decreases x
  {
    if x <= outputRate then x else Rest(x - outputRate, outputRate)
  }

  // So many whole output rates, and a rest that is one at most.
  lemma {:induction false} StepsIs(x: nat, outputRate: nat)
    requires outputRate > 0
    ensures x == outputRate * Steps(x, outputRate) + Rest(x, outputRate)
    decreases x
  {
    if x > outputRate {
      StepsIs(x - outputRate, outputRate);
    }
  }

  // Nothing is lost by dividing after every output sample instead of once.
  lemma {:induction false} StepsAdd(x: nat, y: nat, outputRate: nat)
    requires outputRate > 0
    ensures Steps(x + y, outputRate) == Steps(x, outputRate) + Steps(Rest(x, outputRate) + y, outputRate)
    ensures Rest(x + y, outputRate) == Rest(Rest(x, outputRate) + y, outputRate)
    decreases x
  {
    if x > outputRate {
      StepsAdd(x - outputRate, y, outputRate);
      assert x - outputRate + y == x + y - outputRate;
    }
  }

  lemma {:induction false} TravelAdds(c: Channel, a: nat, b: nat)
    ensures Travel(c, a + b) == Travel(Travel(c, a), b)
    decreases a
  {
    if a > 0 && c.active {
      TravelAdds(Step(c), a - 1, b);
    }
  }

  // The loop of audio_mix_samples that moves a channel on by one output sample.
  method MoveOn(c: Channel, outputRate: Rate) returns (r: Channel)
    requires outputRate > 0 && c.active
    ensures var x := Wrap(c.left + c.rate);
            var k := Steps(x, outputRate);
            && r.posn == Travel(c, k).posn && r.active == Travel(c, k).active
            && (r.active ==> r == Travel(c, k).(left := Rest(x, outputRate)))
  {
    hide Wrap;
    r := c.(left := Wrap(c.left + c.rate));
    ghost var x, done := r.left, 0;
    while r.left > outputRate
      invariant r.active
      invariant r.(left := c.left) == Travel(c, done)
      invariant Steps(x, outputRate) == done + Steps(r.left, outputRate)
      invariant Rest(x, outputRate) == Rest(r.left, outputRate)
      decreases r.left
    {
      TravelAdds(c, done, 1);
      r := r.(left := r.left - outputRate);
      r := r.(posn := Wrap(r.posn + 1));
      done := done + 1;
      if r.posn == r.end {
        if r.looping {
          r := r.(posn := r.loopStart);
        } else {
          r := r.(active := false);
          TravelAdds(c, done, Steps(r.left, outputRate));
          break;
        }
      }
    }
  }

  lemma {:induction false} TravelLeft(c: Channel, k: nat, left: u32)
    ensures Travel(c.(left := left), k) == Travel(c, k).(left := left)
    decreases k
  {
    if k > 0 && c.active {
      TravelLeft(Step(c), k - 1, left);
    }
  }

  // How far the channel has moved in the source after this many output samples.
  function Moved(c: Channel, samples: nat, outputRate: nat): nat
    requires outputRate > 0
  {
    if samples == 0 then 0 else Steps(c.left + samples * c.rate, outputRate)
  }

  function LeftAfter(c: Channel, samples: nat, outputRate: Rate): u32
    requires outputRate > 0
  {
    if samples == 0 then c.left else Rest(c.left + samples * c.rate, outputRate)
  }

  lemma MovedStep(c: Channel, j: nat, outputRate: Rate)
    requires outputRate > 0
    ensures var x := LeftAfter(c, j, outputRate) + c.rate;
            && Moved(c, j + 1, outputRate) == Moved(c, j, outputRate) + Steps(x, outputRate)
            && LeftAfter(c, j + 1, outputRate) == Rest(x, outputRate)
  {
    assert (j + 1) * c.rate == j * c.rate + c.rate;
    if j > 0 {
      StepsAdd(c.left + j * c.rate, c.rate, outputRate);
      assert c.left + j * c.rate + c.rate == c.left + (j + 1) * c.rate;
    } else {
      assert 1 * c.rate == c.rate;
    }
  }

  lemma {:induction false} MovedGrows(c: Channel, i: nat, j: nat, outputRate: Rate)
    requires outputRate > 0 && i <= j
    ensures Moved(c, i, outputRate) <= Moved(c, j, outputRate)
    decreases j
  {
    if i < j {
      MovedGrows(c, i, j - 1, outputRate);
      MovedStep(c, j - 1, outputRate);
    }
  }

  // The channel after a number of output samples, while it is active.
  function Played(c: Channel, samples: nat, outputRate: Rate): Channel
    requires outputRate > 0
  {
    Travel(c, Moved(c, samples, outputRate)).(left := LeftAfter(c, samples, outputRate))
  }

  lemma PlayedStep(c: Channel, j: nat, outputRate: Rate)
    requires outputRate > 0
    ensures var d := Played(c, j, outputRate);
            var k := Steps(d.left + d.rate, outputRate);
            var e := Travel(c, Moved(c, j + 1, outputRate));
            && Travel(d, k).(left := 0) == e.(left := 0) && d.rate == c.rate
            && Rest(d.left + d.rate, outputRate) == LeftAfter(c, j + 1, outputRate)
  {
    hide Steps, Rest, Travel, Moved, LeftAfter;
    var m := Moved(c, j, outputRate);
    var d := Played(c, j, outputRate);
    RateKept(c, m);
    MovedStep(c, j, outputRate);
    var k := Steps(d.left + d.rate, outputRate);
    TravelLeft(Travel(c, m), k, d.left);
    TravelAdds(c, m, k);
  }

  lemma {:induction false} RateKept(c: Channel, k: nat)
    ensures Travel(c, k).rate == c.rate
    decreases k
  {
    if k > 0 && c.active {
      RateKept(Step(c), k - 1);
    }
  }

  // A channel over a number of output samples: the place in the source played at each of
  // them is the one for the whole time since the start at once, so that the pitch never
  // drifts; a channel without a loop falls silent after the sample in which it comes to its
  // end, and no other does. A remainder is never above the output rate, which is a rate.
  method Play(c: Channel, samples: nat, outputRate: Rate) returns (r: Channel, played: seq<nat>)
    requires outputRate > 0 && c.active && c.left < 0x8000_0000
    ensures |played| <= samples && (r.active ==> |played| == samples)
    ensures forall j :: 0 <= j < |played| ==> played[j] == Place(c, Moved(c, j, outputRate))
    ensures r.active <==> c.looping || !Meets(c, Moved(c, samples, outputRate))
    ensures c.posn < c.end && (c.looping ==> c.loopStart < c.end) ==> forall j :: 0 <= j < |played| ==> played[j] < c.end
    ensures r.active ==> r.left == LeftAfter(c, samples, outputRate)
    ensures !r.active ==> |played| > 0 && Meets(c, Moved(c, |played|, outputRate)) && !Meets(c, Moved(c, |played| - 1, outputRate))
  {
    hide Place, Rest, Steps, Travel, Moved, LeftAfter;
    r, played := c, [];
    NothingPlayed(c, outputRate);
    while |played| < samples
      invariant |played| <= samples && r.active && r.left < 0x8000_0000
      invariant r == Played(c, |played|, outputRate)
      invariant forall j :: 0 <= j < |played| ==> played[j] == Place(c, Moved(c, j, outputRate))
      invariant c.posn < c.end && (c.looping ==> c.loopStart < c.end) ==> forall j :: 0 <= j < |played| ==> played[j] < c.end
      decreases samples - |played|
    {
      ghost var j := |played|;
      TravelArrives(c, Moved(c, j, outputRate));
      PlaceInside(c, Moved(c, j, outputRate));
      PlayedStep(c, j, outputRate);
      TravelArrives(c, Moved(c, j + 1, outputRate));
      MovedGrows(c, j + 1, samples, outputRate);
      played := played + [r.posn];
      r := MoveOn(r, outputRate);
      if !r.active {
        break;
      }
    }
    TravelArrives(c, Moved(c, |played|, outputRate));
  }

  lemma NothingPlayed(c: Channel, outputRate: Rate)
    requires outputRate > 0
    ensures Played(c, 0, outputRate) == c
  {
  }
}
