/** The walks that place axis labels: starting at a pixel position, step by a
    fixed number of pixels towards one edge of the surface, emitting a tick at
    every position reached while still inside the surface. */
module Ticks {
  import opened Arith

  /** A label value: a plain number (linear axis), or a power of ten given by
      its exponent (the decade labels of a bode abscissa). */
  datatype Label = Value(v: real) | Decade(exponent: real)

  /** The label k steps of size d further on. */
  function Advance(l: Label, d: real): Label {
    match l
    case Value(v) => Value(v + d)
    case Decade(e) => Decade(e + d)
  }

  /** One tick: the walk position in pixels (drawn at Math.round of it) and
      its label. */
  datatype Tick = Tick(pos: real, caption: Label)

  /** ticks is the walk from start towards pixel 0 in steps of step pixels,
      with labels moving by delta per step: one tick per position > 0, and
      the first position not emitted is <= 0. */
  ghost predicate IsBackWalk(ticks: seq<Tick>, start: real, step: real, first: Label, delta: real) {
    BackTicks(ticks, start, step, first, delta) && start - |ticks| as real * step <= 0.0
  }

  /** The ticks emitted so far by a back walk. */
  ghost predicate BackTicks(ticks: seq<Tick>, start: real, step: real, first: Label, delta: real) {
    forall k :: 0 <= k < |ticks| ==>
      ticks[k] == Tick(start - k as real * step, Advance(first, k as real * delta))
      && start - k as real * step > 0.0
  }

  /** ticks is the walk from start towards limit in steps of step pixels: one
      tick per position < limit, and the first position not emitted is >= limit. */
  ghost predicate IsForwardWalk(ticks: seq<Tick>, start: real, step: real, limit: real, first: Label, delta: real) {
    ForwardTicks(ticks, start, step, limit, first, delta) && start + |ticks| as real * step >= limit
  }

  /** The ticks emitted so far by a forward walk. */
  ghost predicate ForwardTicks(ticks: seq<Tick>, start: real, step: real, limit: real, first: Label, delta: real) {
    forall k :: 0 <= k < |ticks| ==>
      ticks[k] == Tick(start + k as real * step, Advance(first, k as real * delta))
      && start + k as real * step < limit
  }

  /** One more tick of a back walk, at the next position, still inside. */
  lemma BackTicksExtend(ticks: seq<Tick>, start: real, step: real, first: Label, delta: real)
    requires BackTicks(ticks, start, step, first, delta) && start - |ticks| as real * step > 0.0
    ensures BackTicks(ticks + [Tick(start - |ticks| as real * step, Advance(first, |ticks| as real * delta))],
                      start, step, first, delta)
  {
    var t := ticks + [Tick(start - |ticks| as real * step, Advance(first, |ticks| as real * delta))];
    forall k | 0 <= k < |t|
      ensures t[k] == Tick(start - k as real * step, Advance(first, k as real * delta)) && start - k as real * step > 0.0
    {
      if k < |ticks| {
        assert t[k] == ticks[k];
        assert ticks[k] == Tick(start - k as real * step, Advance(first, k as real * delta));
      } else {
        assert start - k as real * step == start - |ticks| as real * step;
        assert Advance(first, k as real * delta) == Advance(first, |ticks| as real * delta);
      }
    }
  }

  lemma ForwardTicksExtend(ticks: seq<Tick>, start: real, step: real, limit: real, first: Label, delta: real)
    requires ForwardTicks(ticks, start, step, limit, first, delta) && start + |ticks| as real * step < limit
    ensures ForwardTicks(ticks + [Tick(start + |ticks| as real * step, Advance(first, |ticks| as real * delta))],
                         start, step, limit, first, delta)
  {
    var t := ticks + [Tick(start + |ticks| as real * step, Advance(first, |ticks| as real * delta))];
    forall k | 0 <= k < |t|
      ensures t[k] == Tick(start + k as real * step, Advance(first, k as real * delta)) && start + k as real * step < limit
    {
      if k < |ticks| {
        assert t[k] == ticks[k];
        assert ticks[k] == Tick(start + k as real * step, Advance(first, k as real * delta));
      } else {
        assert start + k as real * step == start + |ticks| as real * step;
        assert Advance(first, k as real * delta) == Advance(first, |ticks| as real * delta);
      }
    }
  }

  lemma AdvanceTwice(l: Label, a: real, b: real)
    ensures Advance(Advance(l, a), b) == Advance(l, a + b)
  {
  }

  /** The loop "while (pos > 0) { emit(pos, caption); pos -= step; caption += delta }". */
  /** The loop ends when the step is positive, or when the start is already
      outside (see BackWalkEnds for the other inputs). */
  method WalkBack(start: real, step: real, first: Label, delta: real) returns (ticks: seq<Tick>)
    requires step > 0.0 || start <= 0.0
    ensures IsBackWalk(ticks, start, step, first, delta)
  {
    ticks := [];
    var pos, caption := start, first;
    while pos > 0.0
      invariant pos == start - |ticks| as real * step
      invariant caption == Advance(first, |ticks| as real * delta)
      invariant BackTicks(ticks, start, step, first, delta)
      invariant step > 0.0 || ticks == []
      decreases if step > 0.0 then (start / step).Floor - |ticks| else 0
    {
      var n := |ticks|;
      BelowQuotient(n as real, step, start);
      BackTicksExtend(ticks, start, step, first, delta);
      ticks := ticks + [Tick(pos, caption)];
      AdvanceTwice(first, n as real * delta, delta);
      StepOnce(n, step);
      StepOnce(n, delta);
      pos, caption := pos - step, Advance(caption, delta);
    }
  }

  /** The loop "while (pos < limit) { emit(pos, caption); pos += step; caption += delta }". */
  /** The loop ends when the step is positive, or when the start is already
      outside (see ForwardWalkEnds for the other inputs). */
  method WalkForward(start: real, step: real, limit: real, first: Label, delta: real) returns (ticks: seq<Tick>)
    requires step > 0.0 || start >= limit
    ensures IsForwardWalk(ticks, start, step, limit, first, delta)
  {
    ticks := [];
    var pos, caption := start, first;
    while pos < limit
      invariant pos == start + |ticks| as real * step
      invariant caption == Advance(first, |ticks| as real * delta)
      invariant ForwardTicks(ticks, start, step, limit, first, delta)
      invariant step > 0.0 || ticks == []
      decreases if step > 0.0 then ((limit - start) / step).Floor - |ticks| else 0
    {
      var n := |ticks|;
      BelowQuotient(n as real, step, limit - start);
      ForwardTicksExtend(ticks, start, step, limit, first, delta);
      ticks := ticks + [Tick(pos, caption)];
      AdvanceTwice(first, n as real * delta, delta);
      StepOnce(n, step);
      StepOnce(n, delta);
      pos, caption := pos + step, Advance(caption, delta);
    }
  }

  /** A back walk has a last tick only when the step is positive or the
      start is already outside: with a step <= 0 from a start > 0 the loop
      never stops, since its position never decreases. */
  lemma BackWalkEnds(ticks: seq<Tick>, start: real, step: real, first: Label, delta: real)
    requires IsBackWalk(ticks, start, step, first, delta)
    ensures step > 0.0 || start <= 0.0
  {
    if step <= 0.0 {
      MultiplyNonNegative(|ticks| as real, -step);
      assert |ticks| as real * -step == -(|ticks| as real * step);
    }
  }

  lemma ForwardWalkEnds(ticks: seq<Tick>, start: real, step: real, limit: real, first: Label, delta: real)
    requires IsForwardWalk(ticks, start, step, limit, first, delta)
    ensures step > 0.0 || start >= limit
  {
    if step <= 0.0 {
      MultiplyNonNegative(|ticks| as real, -step);
      assert |ticks| as real * -step == -(|ticks| as real * step);
    }
  }

  /** A walk that starts outside emits nothing, whatever its step. */
  lemma BackWalkFromOutside(ticks: seq<Tick>, start: real, step: real, first: Label, delta: real)
    requires IsBackWalk(ticks, start, step, first, delta) && start <= 0.0
    ensures ticks == []
  {
    BackWalkUnique(ticks, [], start, step, first, delta);
  }

  lemma ForwardWalkFromOutside(ticks: seq<Tick>, start: real, step: real, limit: real, first: Label, delta: real)
    requires IsForwardWalk(ticks, start, step, limit, first, delta) && start >= limit
    ensures ticks == []
  {
    ForwardWalkUnique(ticks, [], start, step, limit, first, delta);
  }

  /** The k-th tick of a back walk. */
  lemma BackWalkTick(ticks: seq<Tick>, start: real, step: real, first: Label, delta: real, k: nat)
    requires IsBackWalk(ticks, start, step, first, delta) && k < |ticks|
    ensures ticks[k] == Tick(start - k as real * step, Advance(first, k as real * delta))
    ensures ticks[k].pos == start - k as real * step > 0.0
  {
  }

  /** The k-th tick of a forward walk. */
  lemma ForwardWalkTick(ticks: seq<Tick>, start: real, step: real, limit: real, first: Label, delta: real, k: nat)
    requires IsForwardWalk(ticks, start, step, limit, first, delta) && k < |ticks|
    ensures ticks[k] == Tick(start + k as real * step, Advance(first, k as real * delta))
    ensures ticks[k].pos == start + k as real * step < limit
  {
  }

  /** No position before the last tick of a back walk is <= 0. */
  lemma BackWalkAt(ticks: seq<Tick>, start: real, step: real, first: Label, delta: real, n: nat)
    requires IsBackWalk(ticks, start, step, first, delta) && n < |ticks|
    ensures start - n as real * step > 0.0
  {
    assert ticks[n].pos == start - n as real * step;
  }

  lemma ForwardWalkAt(ticks: seq<Tick>, start: real, step: real, limit: real, first: Label, delta: real, n: nat)
    requires IsForwardWalk(ticks, start, step, limit, first, delta) && n < |ticks|
    ensures start + n as real * step < limit
  {
    assert ticks[n].pos == start + n as real * step;
  }

  /** A walk is determined by where it starts: at most one tick sequence
      satisfies IsBackWalk (IsForwardWalk, IsTwoWayWalk) for given arguments. */
  lemma BackWalkUnique(t1: seq<Tick>, t2: seq<Tick>, start: real, step: real, first: Label, delta: real)
    requires IsBackWalk(t1, start, step, first, delta) && IsBackWalk(t2, start, step, first, delta)
    ensures t1 == t2
  {
    if |t1| < |t2| { BackWalkAt(t2, start, step, first, delta, |t1|); assert false; }
    if |t2| < |t1| { BackWalkAt(t1, start, step, first, delta, |t2|); assert false; }
    assert forall k :: 0 <= k < |t1| ==> t1[k] == t2[k];
  }

  lemma ForwardWalkUnique(t1: seq<Tick>, t2: seq<Tick>, start: real, step: real, limit: real, first: Label, delta: real)
    requires IsForwardWalk(t1, start, step, limit, first, delta)
    requires IsForwardWalk(t2, start, step, limit, first, delta)
    ensures t1 == t2
  {
    if |t1| < |t2| { ForwardWalkAt(t2, start, step, limit, first, delta, |t1|); assert false; }
    if |t2| < |t1| { ForwardWalkAt(t1, start, step, limit, first, delta, |t2|); assert false; }
    assert forall k :: 0 <= k < |t1| ==> t1[k] == t2[k];
  }

  /** Every tick of a back walk lies in (0, start], every tick of a forward
      walk in [start, limit), and both move monotonically. */
  lemma BackWalkBounds(ticks: seq<Tick>, start: real, step: real, first: Label, delta: real)
    requires step > 0.0 && IsBackWalk(ticks, start, step, first, delta)
    ensures forall k :: 0 <= k < |ticks| ==> 0.0 < ticks[k].pos <= start
    ensures forall k, l :: 0 <= k < l < |ticks| ==> ticks[l].pos < ticks[k].pos
  {
    forall k | 0 <= k < |ticks| ensures 0.0 < ticks[k].pos <= start {
      BackWalkTick(ticks, start, step, first, delta, k);
      MultiplyNonNegative(k as real, step);
    }
    forall k, l | 0 <= k < l < |ticks| ensures ticks[l].pos < ticks[k].pos {
      BackWalkTick(ticks, start, step, first, delta, k);
      BackWalkTick(ticks, start, step, first, delta, l);
      FartherAlong(-ticks[k].pos, -ticks[l].pos, -start, step, k, l);
    }
  }

  lemma ForwardWalkBounds(ticks: seq<Tick>, start: real, step: real, limit: real, first: Label, delta: real)
    requires step > 0.0 && IsForwardWalk(ticks, start, step, limit, first, delta)
    ensures forall k :: 0 <= k < |ticks| ==> start <= ticks[k].pos < limit
    ensures forall k, l :: 0 <= k < l < |ticks| ==> ticks[k].pos < ticks[l].pos
  {
    forall k | 0 <= k < |ticks| ensures start <= ticks[k].pos < limit {
      ForwardWalkTick(ticks, start, step, limit, first, delta, k);
      MultiplyNonNegative(k as real, step);
    }
    forall k, l | 0 <= k < l < |ticks| ensures ticks[k].pos < ticks[l].pos {
      ForwardWalkTick(ticks, start, step, limit, first, delta, k);
      ForwardWalkTick(ticks, start, step, limit, first, delta, l);
      FartherAlong(ticks[k].pos, ticks[l].pos, start, step, k, l);
    }
  }

  /** Of two positions k and l steps past start, the one further on is
      larger. */
  lemma FartherAlong(pk: real, pl: real, start: real, step: real, k: nat, l: nat)
    requires step > 0.0 && k < l
    requires pk == start + k as real * step && pl == start + l as real * step
    ensures pk < pl
  {
    ScaleStrict(k as real, l as real, step);
  }

  /** ticks is a back walk from start followed by a forward walk from the
      same start, both labelled from first: the labelling of an axis that
      crosses the surface. */
  ghost predicate IsTwoWayWalk(ticks: seq<Tick>, start: real, step: real, limit: real, first: Label,
                               backDelta: real, forwardDelta: real)
  {
    exists n :: 0 <= n <= |ticks|
      && IsBackWalk(ticks[..n], start, step, first, backDelta)
      && IsForwardWalk(ticks[n..], start, step, limit, first, forwardDelta)
  }

  method WalkBothWays(start: real, step: real, limit: real, first: Label, backDelta: real, forwardDelta: real)
    returns (ticks: seq<Tick>)
    requires step > 0.0 || (start <= 0.0 && start >= limit)
    ensures IsTwoWayWalk(ticks, start, step, limit, first, backDelta, forwardDelta)
  {
    var back := WalkBack(start, step, first, backDelta);
    var forward := WalkForward(start, step, limit, first, forwardDelta);
    ticks := back + forward;
    assert ticks[..|back|] == back && ticks[|back|..] == forward;
  }

  lemma TwoWayWalkUnique(t1: seq<Tick>, t2: seq<Tick>, start: real, step: real, limit: real, first: Label,
                         backDelta: real, forwardDelta: real)
    requires IsTwoWayWalk(t1, start, step, limit, first, backDelta, forwardDelta)
    requires IsTwoWayWalk(t2, start, step, limit, first, backDelta, forwardDelta)
    ensures t1 == t2
  {
    var n1 :| 0 <= n1 <= |t1|
      && IsBackWalk(t1[..n1], start, step, first, backDelta)
      && IsForwardWalk(t1[n1..], start, step, limit, first, forwardDelta);
    var n2 :| 0 <= n2 <= |t2|
      && IsBackWalk(t2[..n2], start, step, first, backDelta)
      && IsForwardWalk(t2[n2..], start, step, limit, first, forwardDelta);
    BackWalkUnique(t1[..n1], t2[..n2], start, step, first, backDelta);
    ForwardWalkUnique(t1[n1..], t2[n2..], start, step, limit, first, forwardDelta);
    assert t1 == t1[..n1] + t1[n1..];
    assert t2 == t2[..n2] + t2[n2..];
  }
}
