/**
 * `multi_counter::MultiCounter` in src/main.rs: an odometer-style iterator over several
 * counters that all step together, each wrapping at its own maximum. The ghost `steps`
 * counts calls to `increment`; Valid() ties every counter's value and flag to it.
 */
module Counting {
  import opened Wrappers

  /** All maxima are at least one (a zero maximum makes `increment` underflow). */
  predicate PositiveMaxes(maxes: seq<nat>)
  {
    forall i :: 0 <= i < |maxes| ==> maxes[i] >= 1
  }

  /**
   * What `check_complete` reports after `k` increments: every counter has wrapped at least
   * once, and, in simultaneous mode, every counter is back at zero.
   */
  predicate CompleteAfter(maxes: seq<nat>, simultaneous: bool, k: nat)
    requires PositiveMaxes(maxes)
  {
    && (forall i :: 0 <= i < |maxes| ==> maxes[i] <= k)
    && (simultaneous ==> forall i :: 0 <= i < |maxes| ==> k % maxes[i] == 0)
  }

  /** The iterator yields exactly `count` vectors: the first complete step is `count`. */
  predicate YieldsExactly(maxes: seq<nat>, simultaneous: bool, count: nat)
    requires PositiveMaxes(maxes)
  {
    CompleteAfter(maxes, simultaneous, count) &&
    forall k: nat :: k < count ==> !CompleteAfter(maxes, simultaneous, k)
  }

  function MaxOf(xs: seq<nat>): (m: nat)
    ensures forall i :: 0 <= i < |xs| ==> xs[i] <= m
    ensures xs != [] ==> exists i :: 0 <= i < |xs| && xs[i] == m
  {
    if xs == [] then 0
    else
      var rest := MaxOf(xs[1..]);
      assert forall i :: 1 <= i < |xs| ==> xs[i] == xs[1..][i - 1];
      if xs[0] >= rest then xs[0] else rest
  }

  /** Without simultaneous completion the iterator yields as many vectors as the largest maximum. */
  lemma NonSimultaneousYieldsLargestMax(maxes: seq<nat>)
    requires PositiveMaxes(maxes)
    ensures YieldsExactly(maxes, false, MaxOf(maxes))
  {
    forall k: nat | k < MaxOf(maxes)
      ensures !CompleteAfter(maxes, false, k)
    {
      if maxes != [] {
        var i :| 0 <= i < |maxes| && maxes[i] == MaxOf(maxes);
        assert maxes[i] > k;
      }
    }
  }

  /** With maxima 3 and 5: five vectors in the plain mode, fifteen in simultaneous mode. */
  lemma ThreeFiveExample()
    ensures YieldsExactly([3, 5], false, 5)
    ensures YieldsExactly([3, 5], true, 15)
  {
    NonSimultaneousYieldsLargestMax([3, 5]);
    assert MaxOf([3, 5]) == 5;
    forall k: nat | k < 15
      ensures !CompleteAfter([3, 5], true, k)
    {
      if 5 <= k {
        assert k == 5 || k == 6 || k == 7 || k == 8 || k == 9 || k == 10 || k == 11 || k == 12 || k == 13 || k == 14;
      }
    }
  }

  lemma ModOfSmall(x: nat, m: nat)
    requires x < m
    ensures x % m == x
  {
  }

  lemma MulAtLeast(d: int, m: int)
    requires d >= 1 && m >= 1
    ensures d * m >= m
  {
  }

  lemma ModUnique(x: int, m: int, q: int, r: int)
    requires m >= 1 && 0 <= r < m && x == q * m + r
    ensures x % m == r
  {
    var q', r' := x / m, x % m;
    assert x == q' * m + r';
    assert (q - q') * m == r' - r;
    if q > q' {
      MulAtLeast(q - q', m);
    } else if q < q' {
      MulAtLeast(q' - q, m);
    }
  }

  lemma ModShift(x: nat, m: nat)
    requires 1 <= m <= x
    ensures x % m == (x - m) % m
  {
    var q, r := (x - m) / m, (x - m) % m;
    assert x - m == q * m + r;
    assert x == (q + 1) * m + r;
    ModUnique(x, m, q + 1, r);
  }

  /** One increment of the ghost step count moves a counter exactly as `increment` does. */
  lemma {:induction false} ModStep(s: nat, m: nat)
    requires m >= 1
    ensures (if s % m == m - 1 then 0 else s % m + 1) == (s + 1) % m
    ensures (s >= m || s % m == m - 1) <==> s + 1 >= m
    ensures (s % m + 1) % m == (s + 1) % m
    decreases s
  {
    if s % m + 1 < m {
      ModOfSmall(s % m + 1, m);
    } else {
      ModShift(s % m + 1, m);
      ModOfSmall(0, m);
    }
    if s + 1 < m {
      ModOfSmall(s, m);
      ModOfSmall(s + 1, m);
    } else if s + 1 == m {
      ModOfSmall(s, m);
      ModShift(s + 1, m);
    } else {
      ModShift(s, m);
      ModShift(s + 1, m);
      ModStep(s - m, m);
    }
  }

  class MultiCounter {
    const counterMaxes: seq<nat>
    const requireSimultaneousCompletion: bool
    var counterValues: seq<nat>
    var counterComplete: seq<bool>
    ghost var steps: nat

    ghost predicate Valid()
      reads this
    {
      && |counterValues| == |counterMaxes|
      && |counterComplete| == |counterMaxes|
      && PositiveMaxes(counterMaxes)
      && (forall i :: 0 <= i < |counterMaxes| ==> counterValues[i] == steps % counterMaxes[i])
      && (forall i :: 0 <= i < |counterMaxes| ==> counterComplete[i] == (steps >= counterMaxes[i]))
    }

    /** `MultiCounter::new`: every value 0 and every flag false. */
    constructor (counterMaxes: seq<nat>, requireSimultaneousCompletion: bool)
      requires PositiveMaxes(counterMaxes)
      ensures Valid() && steps == 0
      ensures this.counterMaxes == counterMaxes
      ensures this.requireSimultaneousCompletion == requireSimultaneousCompletion
      ensures |counterValues| == |counterMaxes| && forall i :: 0 <= i < |counterValues| ==> counterValues[i] == 0
      ensures |counterComplete| == |counterMaxes| && forall i :: 0 <= i < |counterComplete| ==> !counterComplete[i]
    {
      this.counterMaxes := counterMaxes;
      this.requireSimultaneousCompletion := requireSimultaneousCompletion;
      counterValues := seq(|counterMaxes|, _ => 0);
      counterComplete := seq(|counterMaxes|, _ => false);
      steps := 0;
    }

    /** `check_complete`: read as a statement about the number of increments so far. */
    function CheckComplete(): (r: bool)
      reads this
      ensures Valid() ==> (r <==> CompleteAfter(counterMaxes, requireSimultaneousCompletion, steps))
    {
      if requireSimultaneousCompletion then
        (forall i :: 0 <= i < |counterValues| ==> counterValues[i] == 0) &&
        (forall i :: 0 <= i < |counterComplete| ==> counterComplete[i])
      else
        forall i :: 0 <= i < |counterComplete| ==> counterComplete[i]
    }

    /** `increment`: each value steps to (v + 1) mod max; a wrap sets that counter's flag for good. */
    method Increment()
      requires Valid()
      modifies this
      ensures Valid() && steps == old(steps) + 1
      ensures forall i :: 0 <= i < |counterMaxes| ==>
        counterValues[i] == (old(counterValues[i]) + 1) % counterMaxes[i]
      ensures forall i :: 0 <= i < |counterMaxes| ==>
        counterComplete[i] == (old(counterComplete[i]) || old(counterValues[i]) == counterMaxes[i] - 1)
    {
      var values: seq<nat> := [];
      var i := 0;
      while i < |counterValues|
        invariant 0 <= i <= |counterValues| && |values| == i
        invariant counterValues == old(counterValues) && steps == old(steps)
        invariant |counterComplete| == |counterMaxes|
        invariant forall j :: 0 <= j < i ==>
          values[j] == (if counterValues[j] == counterMaxes[j] - 1 then 0 else counterValues[j] + 1)
        invariant forall j :: 0 <= j < i ==>
          counterComplete[j] == (old(counterComplete[j]) || counterValues[j] == counterMaxes[j] - 1)
        invariant forall j :: i <= j < |counterComplete| ==> counterComplete[j] == old(counterComplete[j])
      {
        var value := counterValues[i];
        if value == counterMaxes[i] - 1 {
          counterComplete := counterComplete[i := true];
          values := values + [0];
        } else {
          values := values + [value + 1];
        }
        i := i + 1;
      }
      forall j | 0 <= j < |counterMaxes|
        ensures values[j] == (steps + 1) % counterMaxes[j]
        ensures values[j] == (counterValues[j] + 1) % counterMaxes[j]
        ensures counterComplete[j] == (steps + 1 >= counterMaxes[j])
        ensures counterComplete[j] == (old(counterComplete[j]) || counterValues[j] == counterMaxes[j] - 1)
      {
        assert counterValues[j] == steps % counterMaxes[j];
        assert old(counterComplete[j]) == (steps >= counterMaxes[j]);
        ModStep(steps, counterMaxes[j]);
      }
      counterValues := values;
      steps := steps + 1;
    }

    /** `Iterator::next`: the k-th call yields the vector whose entry i is k mod max_i. */
    method Next() returns (r: Option<seq<nat>>)
      requires Valid()
      modifies this
      ensures Valid()
      ensures r.None? <==> CompleteAfter(counterMaxes, requireSimultaneousCompletion, old(steps))
      ensures r.None? ==> steps == old(steps)
      ensures r.Some? ==> steps == old(steps) + 1
      ensures r.Some? ==>
        |r.value| == |counterMaxes| &&
        forall i :: 0 <= i < |counterMaxes| ==> r.value[i] == old(steps) % counterMaxes[i]
    {
      if CheckComplete() {
        return None;
      }
      r := Some(counterValues);
      Increment();
    }
  }
}
