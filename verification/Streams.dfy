/** Runs of one stage: samples arrive at its queue and the stage function is called, in any order. */
module Streams {
  import opened Arith

  datatype Event = Arrive(samples: seq<real>) | Fire

  /** Everything that was ever in the queue: what it held at first and all arrivals. */
  function Received(first: seq<real>, events: seq<Event>): (x: seq<real>)
    ensures first <= x
  {
    if events == [] then first
    else
      var before := Received(first, events[..|events| - 1]);
      match events[|events| - 1]
      case Arrive(s) => before + s
      case Fire => before
  }

  function Min(a: int, b: int): int {
    if a <= b then a else b
  }

  function Max(a: int, b: int): int {
    if a >= b then a else b
  }

  /** stage_occupancy (soxr-sys/src/cr.h, line 122), limited by the stage's input size. */
  function Available(queued: nat, prePost: nat, inputSize: nat): nat {
    Min(Max(0, queued - prePost), inputSize)
  }

  /** Silence. */
  function Zeros(n: nat): (z: seq<real>)
    ensures |z| == n
  {
    seq(n, _ => 0.0)
  }

  lemma ZerosSum(m: nat, n: nat)
    ensures Zeros(m) + Zeros(n) == Zeros(m + n)
  {
  }

  // ---- places at equal steps ----

  /** Where output k is taken, on a stream that is stepped through. */
  function Position(step: nat, k: nat): nat {
    k * step
  }

  /** How many of the places at, at+step, at+2*step, ... lie before limit. */
  function Count(step: nat, at: nat, limit: nat): nat
    requires step > 0
  {
    if at >= limit then 0 else (limit - at + step - 1) / step
  }

  lemma CountIs(step: nat, at: nat, limit: nat, k: nat)
    requires step > 0
    ensures k < Count(step, at, limit) <==> at + Position(step, k) < limit
  {
    if at < limit {
      var y := limit - at + step - 1;
      var c := y / step;
      assert y == step * c + y % step;
      if k < c {
        MulLe(step, k + 1, c);
        MulDistrib(step, k, 1);
      } else {
        MulLe(step, c, k);
      }
    }
  }

  lemma CountUnique(step: nat, at: nat, limit: nat, k: nat)
    requires step > 0
    requires k > 0 ==> at + Position(step, k - 1) < limit
    requires at + Position(step, k) >= limit
    ensures k == Count(step, at, limit)
  {
    hide *;
    CountIs(step, at, limit, k);
    if k > 0 {
      CountIs(step, at, limit, k - 1);
    }
  }

  lemma PositionSum(step: nat, k: nat, i: nat)
    ensures Position(step, k + i) == Position(step, k) + Position(step, i)
    ensures Position(step, 0) == 0 && Position(step, 1) == step
  {
    MulDistribRight(step, k, i);
  }
}
