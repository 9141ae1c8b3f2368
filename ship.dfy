/** public/src/ship.mjs as functions on entity values: the constructor's defaults,
    `interpolate` (create/destroy passthrough, teleport snap, linear blend) and `simulate`
    (cooldown, turning, forward motion, world wrap-around, firing flag). */
module Ship {
  import opened Js
  import opened Records
  import Keyboard
  import Entity

  const TURN_SPEED: real := 1.0
  const SPEED: real := 150.0
  const TELEPORT_LIMIT: real := 100.0
  /** `Math.PI / 2`, with Math.PI the double nearest to pi. */
  const HALF_PI: real := 3.141592653589793 / 2.0
  /** The world spans [-WORLD, WORLD] on both axes. */
  const WORLD: real := 1000.0

  /** The properties a Ship has before `state` is copied: x = y = 0 (from Entity),
      t = 1, a = 0, m = 0, f = 0. */
  const DEFAULTS: State := Entity.DEFAULTS.(t := Some(1), a := Some(0.0), m := Some(0.0), f := Some(0.0))

  /** `new Ship(state)`: the Entity constructor (x = y = 0, then `state`), the Ship
      defaults, then `state` copied once more. */
  function New(s: State): Body {
    var afterSuper := Entity.New(s).state;
    var withDefaults := afterSuper.(t := Some(1), a := Some(0.0), m := Some(0.0), f := Some(0.0));
    Body(ShipKind, Assign(withDefaults, s))
  }

  /** A new Ship has t = 1, a = 0, m = 0, f = 0 and x = y = 0, and every supplied property
      overrides these defaults. */
  lemma NewDefaults(s: State)
    ensures New(s).kind == ShipKind
    ensures Props(New(s).state) == Props(DEFAULTS) + Props(s)
    ensures Props(DEFAULTS) == map[PX := RealValue(0.0), PY := RealValue(0.0), PT := IntValue(1),
                                   PA := RealValue(0.0), PM := RealValue(0.0), PF := RealValue(0.0)]
  {
    assert New(s).state == Assign(DEFAULTS, s);
    AssignIsUnion(DEFAULTS, s);
    forall p: Prop | p in {PId, PL} ensures PropOf(DEFAULTS, p).None? {
    }
    forall p: Prop ensures p in Props(DEFAULTS) <==> p !in {PId, PL} {
      match p
      case PId => case PX => case PY => case PT => case PA => case PM => case PF => case PL =>
    }
  }

  /** A coordinate after the wrap-around test of `simulate`. */
  function Wrap(v: Num): (r: Num)
    ensures r.Some? <==> v.Some?
    ensures v.Some? && -3.0 * WORLD < v.value < 3.0 * WORLD ==> -WORLD <= r.value <= WORLD
    ensures v.Some? && -WORLD < v.value < WORLD ==> r == v
    ensures v.Some? ==> r.value == v.value || r.value == v.value + 2.0 * WORLD || r.value == v.value - 2.0 * WORLD
  {
    if AtMost(v, -WORLD) then Add(v, Some(2.0 * WORLD))
    else if AtLeast(v, WORLD) then Sub(v, Some(2.0 * WORLD))
    else v
  }

  /** The firing flag `inputs.F`: the input's F property, or undefined. */
  function FireFlag(keys: map<Keyboard.Key, int>): Num {
    if Keyboard.F in keys then Some(keys[Keyboard.F] as real) else None
  }

  /** The angle after the turning step: `a -= secs` for L, `a += secs` for R. */
  function Turn(a: Num, keys: map<Keyboard.Key, int>, secs: real): Num {
    var afterLeft := if Held(keys, Keyboard.L) then Sub(a, Some(secs * TURN_SPEED)) else a;
    if Held(keys, Keyboard.R) then Add(afterLeft, Some(secs * TURN_SPEED)) else afterLeft
  }

  /** L alone turns left by secs * TURN_SPEED radians, R alone turns right by as much, and
      both or neither leave the angle as it was. */
  lemma TurnDirections(a: real, keys: map<Keyboard.Key, int>, secs: real)
    ensures Held(keys, Keyboard.L) && !Held(keys, Keyboard.R) ==> Turn(Some(a), keys, secs) == Some(a - secs * TURN_SPEED)
    ensures Held(keys, Keyboard.R) && !Held(keys, Keyboard.L) ==> Turn(Some(a), keys, secs) == Some(a + secs * TURN_SPEED)
    ensures Held(keys, Keyboard.L) == Held(keys, Keyboard.R) ==> Turn(Some(a), keys, secs) == Some(a)
    ensures Turn(Some(a), map[], secs) == Some(a)
  {
  }

  /** `simulate(tick, inputs)` with `tick` in milliseconds; `inputs` defaults to `{}`. */
  function Simulate(b: Body, tick: real, keys: map<Keyboard.Key, int>, trig: Trig): (r: Outcome)
    ensures r.children == []
    ensures r.self.kind == b.kind
    ensures r.self.state.id == b.state.id && r.self.state.t == b.state.t && r.self.state.l == b.state.l
    ensures r.self.state.f == FireFlag(keys)
    ensures r.self.state.a == Turn(b.state.a, keys, Seconds(tick))
    ensures b.state.m.None? ==> r.self.state.m.None?
    ensures b.state.m.Some? ==> r.self.state.m == Some(Max(b.state.m.value - Seconds(tick), 0.0))
  {
    var secs := Seconds(tick);
    var s := b.state;
    var m := MaxN(Sub(s.m, Some(secs)), 0.0);
    var a := Turn(s.a, keys, secs);
    var angle := Sub(a, Some(HALF_PI));
    var dx := Apply(trig.cos, angle);
    var dy := Apply(trig.sin, angle);
    var x := Wrap(if s.x.Some? && dx.Some? then Some(Moved(s.x.value, dx.value, tick)) else None);
    var y := Wrap(if s.y.Some? && dy.Some? then Some(Moved(s.y.value, dy.value, tick)) else None);
    Outcome(b.(state := s.(m := m, a := a, x := x, y := y, f := FireFlag(keys))), [])
  }

  /** The cooldown after `simulate` is never negative and never grows over a non-negative
      step; it drops by exactly `secs` while at least `secs` remains, and is 0 otherwise. */
  lemma SimulateCooldown(b: Body, tick: real, keys: map<Keyboard.Key, int>, trig: Trig)
    requires b.state.m.Some?
    ensures var m := Simulate(b, tick, keys, trig).self.state.m;
      && m.Some? && m.value >= 0.0
      && (b.state.m.value >= 0.0 && tick >= 0.0 ==> m.value <= b.state.m.value)
      && (b.state.m.value >= Seconds(tick) ==> m.value == b.state.m.value - Seconds(tick))
      && (b.state.m.value < Seconds(tick) ==> m.value == 0.0)
  {
  }

  /** A coordinate moved SPEED units per second for `tick` milliseconds, in a direction
      whose component along this axis is d. */
  function Moved(p: real, d: real, tick: real): real {
    p + d * (Seconds(tick) * SPEED)
  }

  /** The position `simulate` moves to, before wrap-around: SPEED units per second along
      the heading a - pi/2. */
  lemma SimulateMoves(b: Body, tick: real, keys: map<Keyboard.Key, int>, trig: Trig, heading: real)
    requires b.state.x.Some? && b.state.y.Some? && b.state.a.Some?
    requires heading == Turn(b.state.a, keys, Seconds(tick)).value - HALF_PI
    ensures Simulate(b, tick, keys, trig).self.state.x == Wrap(Some(Moved(b.state.x.value, trig.cos(heading), tick)))
    ensures Simulate(b, tick, keys, trig).self.state.y == Wrap(Some(Moved(b.state.y.value, trig.sin(heading), tick)))
  {
    var secs := Seconds(tick);
    var a := Turn(b.state.a, keys, secs);
    var angle := Sub(a, Some(HALF_PI));
    assert angle == Some(heading);
    assert Apply(trig.cos, angle) == Some(trig.cos(heading));
    assert Apply(trig.sin, angle) == Some(trig.sin(heading));
  }

  /** A ship that has x, y, a and m keeps all four through `simulate`, within the world
      bounds when the step started inside them and is shorter than the world. */
  lemma SimulateStaysInWorld(b: Body, tick: real, keys: map<Keyboard.Key, int>, trig: Trig)
    requires b.state.x.Some? && b.state.y.Some? && b.state.a.Some? && b.state.m.Some?
    requires -WORLD <= b.state.x.value <= WORLD && -WORLD <= b.state.y.value <= WORLD
    requires forall angle: real :: -1.0 <= trig.cos(angle) <= 1.0 && -1.0 <= trig.sin(angle) <= 1.0
    requires 0.0 <= Seconds(tick) * SPEED < 2.0 * WORLD
    ensures var r := Simulate(b, tick, keys, trig).self.state;
      && r.x.Some? && r.y.Some? && r.a.Some? && r.m.Some?
      && -WORLD <= r.x.value <= WORLD && -WORLD <= r.y.value <= WORLD
  {
    var heading := Turn(b.state.a, keys, Seconds(tick)).value - HALF_PI;
    SimulateMoves(b, tick, keys, trig, heading);
    InWorld(b.state.x.value, trig.cos(heading), tick);
    InWorld(b.state.y.value, trig.sin(heading), tick);
  }

  lemma InWorld(p: real, d: real, tick: real)
    requires -WORLD <= p <= WORLD && -1.0 <= d <= 1.0
    requires 0.0 <= Seconds(tick) * SPEED < 2.0 * WORLD
    ensures Wrap(Some(Moved(p, d, tick))).Some? && -WORLD <= Wrap(Some(Moved(p, d, tick))).value <= WORLD
  {
    var speed := Seconds(tick) * SPEED;
    UnitStep(d, speed);
    var e := d * speed;
    assert -speed <= e <= speed;
    assert speed < 2.0 * WORLD;
    assert -WORLD <= p <= WORLD;
    assert Moved(p, d, tick) == p + e;
    assert -3.0 * WORLD < p + e < 3.0 * WORLD;
  }

  lemma UnitStep(d: real, speed: real)
    requires -1.0 <= d <= 1.0 && speed >= 0.0
    ensures -speed <= d * speed <= speed
  {
    if d >= 0.0 {
      assert d * speed <= 1.0 * speed;
    } else {
      assert (-d) * speed <= 1.0 * speed;
    }
  }

  /** Holding only R for k ticks turns the ship by exactly k * secs * TURN_SPEED radians,
      whatever else happens to it. */
  lemma TurnRightFor(b: Body, tick: real, keys: map<Keyboard.Key, int>, trig: Trig, k: nat)
    requires b.state.a.Some?
    requires Held(keys, Keyboard.R) && !Held(keys, Keyboard.L)
    ensures Repeat(b, tick, keys, trig, k).state.a.Some?
    ensures Repeat(b, tick, keys, trig, k).state.a.value == b.state.a.value + (k as real) * Seconds(tick) * TURN_SPEED
  {
    var secs := Seconds(tick);
    RepeatTurns(b, tick, keys, trig, k);
    TurnsRight(b.state.a.value, keys, secs, k);
    assert Repeat(b, tick, keys, trig, k).state.a == Some(b.state.a.value + (k as real) * secs * TURN_SPEED);
  }

  /** The angle after k turns with the same keys. */
  function Turns(a: Num, keys: map<Keyboard.Key, int>, secs: real, k: nat): Num {
    if k == 0 then a else Turn(Turns(a, keys, secs, k - 1), keys, secs)
  }

  /** k calls of `simulate` leave the angle k turns leave, whatever else they do. */
  lemma {:induction false} RepeatTurns(b: Body, tick: real, keys: map<Keyboard.Key, int>, trig: Trig, k: nat)
    ensures Repeat(b, tick, keys, trig, k).state.a == Turns(b.state.a, keys, Seconds(tick), k)
  {
    if k > 0 {
      RepeatTurns(b, tick, keys, trig, k - 1);
    }
  }

  /** k turns to the right add k * secs * TURN_SPEED to the angle. */
  lemma {:induction false} TurnsRight(a: real, keys: map<Keyboard.Key, int>, secs: real, k: nat)
    requires Held(keys, Keyboard.R) && !Held(keys, Keyboard.L)
    ensures Turns(Some(a), keys, secs, k) == Some(a + (k as real) * secs * TURN_SPEED)
  {
    if k > 0 {
      TurnsRight(a, keys, secs, k - 1);
      var before := ((k - 1) as real) * secs * TURN_SPEED;
      var step := secs * TURN_SPEED;
      TurnDirections(a + before, keys, secs);
      assert Turns(Some(a), keys, secs, k) == Some(a + before + step);
      TurnSteps(k, secs);
      assert before + step == (k as real) * secs * TURN_SPEED;
    }
  }

  /** k turns of `secs * TURN_SPEED` each are k - 1 of them and one more. */
  lemma TurnSteps(k: nat, secs: real)
    requires k > 0
    ensures ((k - 1) as real) * secs * TURN_SPEED + secs * TURN_SPEED == (k as real) * secs * TURN_SPEED
  {
    var n := (k - 1) as real;
    assert n + 1.0 == k as real;
    Distribute(n, 1.0, secs);
    Distribute(n * secs, secs, TURN_SPEED);
  }

  /** The ship after k calls of `simulate` with the same input. */
  function Repeat(b: Body, tick: real, keys: map<Keyboard.Key, int>, trig: Trig, k: nat): Body {
    if k == 0 then b else Simulate(Repeat(b, tick, keys, trig, k - 1), tick, keys, trig).self
  }

  /** `interpolate(prev, next, t)` of a Ship. */
  function Interpolate(b: Body, prev: Option<State>, next: Option<State>, t: Num): (r: Blend)
    ensures prev.None? ==> r == Blend(b, next)
    ensures prev.Some? && next.None? ==> r == Blend(b, prev)
    ensures prev.Some? && next.Some? ==> r.returned.None? && r.self.kind == b.kind
  {
    if prev.None? then Blend(b, next)
    else if next.None? then Blend(b, prev)
    else if Teleports(prev.value, next.value) then Blend(b.(state := Assign(b.state, next.value)), None)
    else
      var p, n := prev.value, next.value;
      Blend(b.(state := b.state.(x := Entity.Lerp(p.x, n.x, t),
                                 y := Entity.Lerp(p.y, n.y, t),
                                 a := Entity.Lerp(p.a, n.a, t),
                                 f := n.f)), None)
  }

  /** The teleport test: the two states lie more than TELEPORT_LIMIT apart on an axis. */
  predicate Teleports(prev: State, next: State) {
    Above(AbsN(Sub(prev.x, next.x)), TELEPORT_LIMIT) || Above(AbsN(Sub(prev.y, next.y)), TELEPORT_LIMIT)
  }

  /** Beyond TELEPORT_LIMIT on either axis the ship takes every property of `next`
      verbatim and keeps the others; within it, x, y and a are the linear blends of prev's
      and next's at fraction t, f is next's and nothing else changes. */
  lemma InterpolateTeleport(b: Body, prev: State, next: State, t: Num)
    ensures var r := Interpolate(b, Some(prev), Some(next), t).self;
      r.kind == b.kind &&
      if Teleports(prev, next) then Props(r.state) == Props(b.state) + Props(next)
      else r.state == b.state.(x := Entity.Lerp(prev.x, next.x, t), y := Entity.Lerp(prev.y, next.y, t),
                               a := Entity.Lerp(prev.a, next.a, t), f := next.f)
  {
    AssignIsUnion(b.state, next);
  }

  /** Without a teleport, a fraction in [0, 1] puts x, y and a between prev's and next's. */
  lemma InterpolateBetween(b: Body, prev: State, next: State, t: real)
    requires prev.x.Some? && prev.y.Some? && prev.a.Some? && next.x.Some? && next.y.Some? && next.a.Some?
    requires !Teleports(prev, next) && 0.0 <= t <= 1.0
    ensures var r := Interpolate(b, Some(prev), Some(next), Some(t)).self.state;
      && r.x.Some? && Min(prev.x.value, next.x.value) <= r.x.value <= Max(prev.x.value, next.x.value)
      && r.y.Some? && Min(prev.y.value, next.y.value) <= r.y.value <= Max(prev.y.value, next.y.value)
      && r.a.Some? && Min(prev.a.value, next.a.value) <= r.a.value <= Max(prev.a.value, next.a.value)
  {
    Entity.LerpEnds(prev.x.value, next.x.value, t);
    Entity.LerpEnds(prev.y.value, next.y.value, t);
    Entity.LerpEnds(prev.a.value, next.a.value, t);
  }

  /** Fraction 0 gives prev's x, y and a, and fraction 1 gives next's, when the ship does
      not teleport. */
  lemma InterpolateEnds(b: Body, prev: State, next: State)
    requires prev.x.Some? && prev.y.Some? && prev.a.Some? && next.x.Some? && next.y.Some? && next.a.Some?
    requires !Teleports(prev, next)
    ensures var r := Interpolate(b, Some(prev), Some(next), Some(0.0)).self.state;
      r.x == prev.x && r.y == prev.y && r.a == prev.a && r.f == next.f
    ensures var r := Interpolate(b, Some(prev), Some(next), Some(1.0)).self.state;
      r.x == next.x && r.y == next.y && r.a == next.a && r.f == next.f
  {
    Entity.LerpEnds(prev.x.value, next.x.value, 0.0);
    Entity.LerpEnds(prev.y.value, next.y.value, 0.0);
    Entity.LerpEnds(prev.a.value, next.a.value, 0.0);
  }
}
