/** public/src/missile.mjs as functions on entity values: the constructor's defaults and
    `simulate`, which burns lifetime, asks to be removed once it is used up and otherwise
    flies straight on at SPEED. */
module Missile {
  import opened Js
  import opened Records
  import Entity

  const SPEED: real := 500.0
  /** The lifetime of a new missile, in seconds. */
  const LIFETIME: real := 5.0

  /** The properties a Missile has before `state` is copied: x = y = 0 (from Entity),
      t = 2, a = 0, l = 5. */
  const DEFAULTS: State := Entity.DEFAULTS.(t := Some(2), a := Some(0.0), l := Some(LIFETIME))

  /** `new Missile(state)`: the Entity constructor, the Missile defaults, then `state`
      copied once more. */
  function New(s: State): Body {
    var afterSuper := Entity.New(s).state;
    Body(MissileKind, Assign(afterSuper.(t := Some(2), a := Some(0.0), l := Some(LIFETIME)), s))
  }

  /** A new Missile has t = 2, a = 0, l = 5 and x = y = 0, and every supplied property
      overrides these defaults. */
  lemma NewDefaults(s: State)
    ensures New(s).kind == MissileKind
    ensures Props(New(s).state) == Props(DEFAULTS) + Props(s)
    ensures Props(DEFAULTS) == map[PX := RealValue(0.0), PY := RealValue(0.0), PT := IntValue(2),
                                   PA := RealValue(0.0), PL := RealValue(LIFETIME)]
  {
    assert New(s).state == Assign(DEFAULTS, s);
    AssignIsUnion(DEFAULTS, s);
    forall p: Prop ensures p in Props(DEFAULTS) <==> p !in {PId, PM, PF} {
      match p
      case PId => case PX => case PY => case PT => case PA => case PM => case PF => case PL =>
    }
  }

  /** A coordinate moved SPEED units per second for `tick` milliseconds, in a direction
      whose component along this axis is d. */
  function Moved(p: Num, d: real, tick: real): Num {
    if p.Some? then Some(p.value + d * Seconds(tick) * SPEED) else None
  }

  /** `simulate(tick)` with `tick` in milliseconds. The missile returns itself, its request
      to be removed, once its lifetime is used up; then it does not move. */
  function Simulate(b: Body, tick: real, trig: Trig): (r: Outcome)
    ensures r.self.kind == b.kind
    ensures r.self.state.l == Sub(b.state.l, Some(Seconds(tick)))
    ensures r.children == (if AtMost(r.self.state.l, 0.0) then [r.self] else [])
    ensures AtMost(r.self.state.l, 0.0) ==> r.self.state == b.state.(l := r.self.state.l)
    ensures !AtMost(r.self.state.l, 0.0) ==> r.self.state == b.state.(l := r.self.state.l, x := r.self.state.x, y := r.self.state.y)
  {
    var secs := Seconds(tick);
    var l := Sub(b.state.l, Some(secs));
    var spent := b.(state := b.state.(l := l));
    if AtMost(l, 0.0) then Outcome(spent, [spent])
    else if b.state.a.None? then
      Outcome(spent.(state := spent.state.(x := None, y := None)), [])
    else
      var a := b.state.a.value;
      Outcome(spent.(state := spent.state.(x := Moved(b.state.x, trig.cos(a), tick),
                                           y := Moved(b.state.y, trig.sin(a), tick))), [])
  }

  /** The missile after k calls of `simulate`, whether or not it asked to be removed. */
  function Repeat(b: Body, tick: real, trig: Trig, k: nat): Body {
    if k == 0 then b else Simulate(Repeat(b, tick, trig, k - 1), tick, trig).self
  }

  /** Each call burns exactly the tick's length of lifetime: after k calls a missile that
      had lifetime l0 has l0 - k * secs left. */
  lemma {:induction false} LifetimeAfter(b: Body, tick: real, trig: Trig, k: nat)
    requires b.state.l.Some?
    ensures Repeat(b, tick, trig, k).state.l.Some?
    ensures Repeat(b, tick, trig, k).state.l.value == b.state.l.value - (k as real) * Seconds(tick)
  {
    if k > 0 {
      LifetimeAfter(b, tick, trig, k - 1);
      var n := (k - 1) as real;
      Distribute(n, 1.0, Seconds(tick));
      assert n + 1.0 == k as real;
    }
  }

  /** Whether the k-th call of `simulate` (k >= 1) asks for the missile's removal. */
  predicate AsksRemoval(b: Body, tick: real, trig: Trig, k: nat)
    requires k >= 1
  {
    Simulate(Repeat(b, tick, trig, k - 1), tick, trig).children != []
  }

  /** The k-th call asks for removal exactly when k ticks use up the lifetime. */
  lemma RemovalAt(b: Body, tick: real, trig: Trig, k: nat)
    requires b.state.l.Some? && k >= 1
    ensures AsksRemoval(b, tick, trig, k) <==> b.state.l.value - (k as real) * Seconds(tick) <= 0.0
  {
    LifetimeAfter(b, tick, trig, k);
  }

  /** A missile with lifetime l0 and ticks of positive length asks to be removed for the
      first time at the call k with (k - 1) * secs < l0 <= k * secs. */
  lemma FirstRemoval(b: Body, tick: real, trig: Trig, k: nat)
    requires b.state.l.Some? && tick > 0.0 && k >= 1
    requires ((k - 1) as real) * Seconds(tick) < b.state.l.value <= (k as real) * Seconds(tick)
    ensures AsksRemoval(b, tick, trig, k)
    ensures forall j: nat :: 1 <= j < k ==> !AsksRemoval(b, tick, trig, j)
  {
    RemovalAt(b, tick, trig, k);
    forall j: nat | 1 <= j < k ensures !AsksRemoval(b, tick, trig, j) {
      NotYetRemoved(b, tick, trig, j, k);
    }
  }

  lemma NotYetRemoved(b: Body, tick: real, trig: Trig, j: nat, k: nat)
    requires b.state.l.Some? && tick > 0.0 && 1 <= j < k
    requires ((k - 1) as real) * Seconds(tick) < b.state.l.value
    ensures !AsksRemoval(b, tick, trig, j)
  {
    RemovalAt(b, tick, trig, j);
    ScaleBelow(j, k - 1, Seconds(tick), b.state.l.value);
  }

  /** A bound on `j` steps of `secs` bounds fewer steps too. */
  lemma ScaleBelow(i: nat, j: nat, secs: real, l: real)
    requires i <= j && secs >= 0.0 && (j as real) * secs < l
    ensures (i as real) * secs < l
  {
    assert (i as real) * secs <= (j as real) * secs;
  }

  /** A missile that keeps flying moves SPEED units per second along its angle. */
  lemma SimulateFlies(b: Body, tick: real, trig: Trig)
    requires b.state.x.Some? && b.state.y.Some? && b.state.a.Some?
    requires !AtMost(Sub(b.state.l, Some(Seconds(tick))), 0.0)
    ensures var r := Simulate(b, tick, trig).self.state;
      && r.x.Some? && r.x.value == b.state.x.value + trig.cos(b.state.a.value) * Seconds(tick) * SPEED
      && r.y.Some? && r.y.value == b.state.y.value + trig.sin(b.state.a.value) * Seconds(tick) * SPEED
  {
  }
}
