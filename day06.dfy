/** Day 6, Lanternfish: the population is kept as nine counters, one per
    timer value, in an aging queue that is rotated once per day. */
module Day6 {
  import opened Common

  /** `parse_input`: comma-separated timers on every line. */
  function ParseInput(lines: seq<string>): (r: Option<seq<nat>>)
    ensures r.Some? <==> forall i :: 0 <= i < |Fields(lines)| ==> ParseNat(Fields(lines)[i]).Some?
    ensures r.Some? ==> (|r.value| == |Fields(lines)|
      && forall i :: 0 <= i < |r.value| ==> ParseNat(Fields(lines)[i]) == Some(r.value[i]))
  {
    var items := Fields(lines);
    assert forall i :: 0 <= i < |items| ==> items[i] == Fields(lines)[i];
    ParseNats(items)
  }

  /** The comma-separated fields of every line, line after line. */
  function Fields(lines: seq<string>): seq<string>
  {
    if lines == [] then [] else Fields(lines[..|lines| - 1]) + Split(lines[|lines| - 1], ',')
  }

  /** Timers written on one line with commas between them read back as
      themselves. */
  lemma ParseInputRoundTrip(timers: seq<nat>)
    requires timers != []
    ensures ParseInput([Join(ShowNats(timers), ',')]) == Some(timers)
  {
    var line := Join(ShowNats(timers), ',');
    assert [line][..0] == [];
    assert Fields([line]) == Split(line, ',');
    SplitShowNats(timers, ',');
    ParseShowNats(timers);
  }

  // ---------------------------------------------------------------------
  // Reference: one timer per fish

  /** One day for individual fish: a timer at 0 resets to 6 and spawns a
      fish with timer 8; every other timer counts down. */
  function FishDay(fish: seq<nat>): seq<nat>
  {
    if fish == [] then []
    else if fish[0] == 0 then [6, 8] + FishDay(fish[1..])
    else [fish[0] - 1] + FishDay(fish[1..])
  }

  function FishAfter(fish: seq<nat>, days: nat): seq<nat>
  {
    if days == 0 then fish else FishDay(FishAfter(fish, days - 1))
  }

  /** Number of fish whose timer is `k`. */
  function Count(fish: seq<nat>, k: int): nat
  {
    if fish == [] then 0 else (if fish[0] == k then 1 else 0) + Count(fish[1..], k)
  }

  predicate ValidTimers(fish: seq<nat>) {
    forall i :: 0 <= i < |fish| ==> fish[i] < 9
  }

  // ---------------------------------------------------------------------
  // The aging queue

  /** The queue a population starts with: slot `k` counts timers `k`. */
  function Buckets(fish: seq<nat>): (q: seq<nat>)
    ensures |q| == 9
  {
    seq(9, k => Count(fish, k))
  }

  /** One day of `both`: the front (today's count) is popped, added to
      slot 6 of what remains and pushed to the back. */
  function Step(q: seq<nat>): (r: seq<nat>)
    requires |q| == 9
    ensures |r| == 9
  {
    var today := q[0];
    var rest := q[1..];
    rest[6 := rest[6] + today] + [today]
  }

  function Evolve(q: seq<nat>, days: nat): (r: seq<nat>)
    requires |q| == 9
    ensures |r| == 9
  {
    if days == 0 then q else Step(Evolve(q, days - 1))
  }

  function Total(q: seq<nat>): nat
    requires |q| == 9
  {
    q[0] + q[1] + q[2] + q[3] + q[4] + q[5] + q[6] + q[7] + q[8]
  }

  /** A day adds exactly today's count to the total. */
  lemma StepTotal(q: seq<nat>)
    requires |q| == 9
    ensures Total(Step(q)) == Total(q) + q[0]
  {
  }

  lemma {:induction false} FishDayCount(fish: seq<nat>, k: nat)
    requires ValidTimers(fish)
    ensures Count(FishDay(fish), k)
         == if k == 6 then Count(fish, 7) + Count(fish, 0)
            else if k == 8 then Count(fish, 0)
            else Count(fish, k + 1)
  {
    if fish != [] {
      FishDayCount(fish[1..], k);
      var tail := FishDay(fish[1..]);
      if fish[0] == 0 {
        assert ([6, 8] + tail)[1..] == [8] + tail;
        assert ([8] + tail)[1..] == tail;
      } else {
        assert ([fish[0] - 1] + tail)[1..] == tail;
      }
    }
  }

  lemma {:induction false} FishDayValid(fish: seq<nat>)
    requires ValidTimers(fish)
    ensures ValidTimers(FishDay(fish))
  {
    if fish != [] {
      FishDayValid(fish[1..]);
    }
  }

  /** The queue rotation is the per-fish simulation, counted by timer. */
  lemma StepIsFishDay(fish: seq<nat>)
    requires ValidTimers(fish)
    ensures Buckets(FishDay(fish)) == Step(Buckets(fish))
  {
    forall k | 0 <= k < 9
      ensures Buckets(FishDay(fish))[k] == Step(Buckets(fish))[k]
    {
      FishDayCount(fish, k);
    }
  }

  lemma {:induction false} EvolveIsFishAfter(fish: seq<nat>, days: nat)
    requires ValidTimers(fish)
    ensures ValidTimers(FishAfter(fish, days))
    ensures Buckets(FishAfter(fish, days)) == Evolve(Buckets(fish), days)
  {
    if days > 0 {
      EvolveIsFishAfter(fish, days - 1);
      FishDayValid(FishAfter(fish, days - 1));
      StepIsFishDay(FishAfter(fish, days - 1));
    }
  }

  /** With every timer below 9, the nine counters hold every fish. */
  lemma {:induction false} TotalCountsFish(fish: seq<nat>)
    requires ValidTimers(fish)
    ensures Total(Buckets(fish)) == |fish|
  {
    if fish != [] {
      TotalCountsFish(fish[1..]);
    }
  }

  /** `both`: the counter starts at the number of fish and grows by each
      day's spawn, so it is the size of the population after `days`. */
  method Both(timers: seq<nat>, days: nat) returns (counter: nat)
    requires ValidTimers(timers)
    ensures counter == Total(Evolve(Buckets(timers), days))
    ensures counter == |FishAfter(timers, days)|
  {
    var queue: seq<nat> := [0, 0, 0, 0, 0, 0, 0, 0, 0];
    counter := 0;
    var i := 0;
    while i < |timers|
      invariant 0 <= i <= |timers|
      invariant |queue| == 9
      invariant forall k :: 0 <= k < 9 ==> queue[k] == Count(timers[..i], k)
      invariant counter == i
    {
      var elem := timers[i];
      counter := counter + 1;
      queue := queue[elem := queue[elem] + 1];
      CountSnoc(timers[..i], elem);
      assert timers[..i + 1] == timers[..i] + [elem];
      i := i + 1;
    }
    assert timers[..i] == timers;
    assert queue == Buckets(timers);
    TotalCountsFish(timers);
    var day := 1;
    while day <= days
      invariant 1 <= day <= days + 1
      invariant |queue| == 9
      invariant queue == Evolve(Buckets(timers), day - 1)
      invariant counter == Total(queue)
    {
      var today := queue[0];
      queue := queue[1..];
      counter := counter + today;
      queue := queue[6 := queue[6] + today];
      queue := queue + [today];
      day := day + 1;
    }
    EvolveIsFishAfter(timers, days);
    TotalCountsFish(FishAfter(timers, days));
  }

  lemma {:induction false} CountSnoc(fish: seq<nat>, t: nat)
    ensures forall k :: Count(fish + [t], k) == Count(fish, k) + (if t == k then 1 else 0)
  {
    if fish != [] {
      CountSnoc(fish[1..], t);
      assert (fish + [t])[1..] == fish[1..] + [t];
    }
  }
}
