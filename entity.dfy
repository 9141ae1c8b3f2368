/** The base class of public/src/entity.mjs, as functions on entity values: the
    constructor's defaults, `interpolate`, `setState` and the empty `simulate`/`interact`. */
module Entity {
  import opened Js
  import opened Records

  /** The properties `new Entity(state)` sets before copying `state`: x = y = 0. */
  const DEFAULTS: State := EMPTY.(x := Some(0.0), y := Some(0.0))

  /** `new Entity(state)`. */
  function New(s: State): Body {
    Body(Plain, Assign(DEFAULTS, s))
  }

  /** A new Entity has x = y = 0 and nothing else, except that every supplied property
      overrides the defaults and is added. */
  lemma NewDefaults(s: State)
    ensures Props(New(s).state) == Props(DEFAULTS) + Props(s)
    ensures Props(DEFAULTS) == map[PX := RealValue(0.0), PY := RealValue(0.0)]
    ensures New(s).state.x.Some? && New(s).state.y.Some?
  {
    AssignIsUnion(DEFAULTS, s);
    assert PropOf(DEFAULTS, PX).Some? && PropOf(DEFAULTS, PY).Some?;
    forall p: Prop | p != PX && p != PY ensures PropOf(DEFAULTS, p).None? {
      match p
      case PId => case PT => case PA => case PM => case PF => case PL =>
    }
  }

  /** `start + (end - start) * t`, the linear blend used for every interpolated number. */
  function Lerp(start: Num, end: Num, t: Num): Num {
    Add(start, Mul(Sub(end, start), t))
  }

  /** Fraction 0 gives the start value and fraction 1 the end value; a fraction in [0, 1]
      gives a value between the two. */
  lemma LerpEnds(p: real, q: real, t: real)
    ensures Lerp(Some(p), Some(q), Some(0.0)) == Some(p)
    ensures Lerp(Some(p), Some(q), Some(1.0)) == Some(q)
    ensures 0.0 <= t <= 1.0 ==> Min(p, q) <= Lerp(Some(p), Some(q), Some(t)).value <= Max(p, q)
  {
    assert (q - p) * 0.0 == 0.0;
    assert (q - p) * 1.0 == q - p;
    assert Lerp(Some(p), Some(q), Some(t)).value == Mix(p, q, t);
    if 0.0 <= t <= 1.0 {
      MixBetween(p, q, t);
    }
  }

  /** The blend of two defined numbers. */
  function Mix(p: real, q: real, t: real): real {
    p + (q - p) * t
  }

  lemma MixBetween(p: real, q: real, t: real)
    requires 0.0 <= t <= 1.0
    ensures Min(p, q) <= Mix(p, q, t) <= Max(p, q)
  {
    if p <= q {
      MixUp(p, q, t);
    } else {
      MixUp(q, p, 1.0 - t);
      assert Mix(p, q, t) == Mix(q, p, 1.0 - t);
    }
  }

  /** Blending upwards stays within [p, q]: both t and 1 - t take a non-negative share of
      q - p. */
  lemma MixUp(p: real, q: real, t: real)
    requires 0.0 <= t <= 1.0 && p <= q
    ensures p <= Mix(p, q, t) <= q
  {
    var d := q - p;
    ProductNonNegative(d, t);
    ProductNonNegative(d, 1.0 - t);
    Shares(d, t);
  }

  lemma ProductNonNegative(a: real, b: real)
    requires a >= 0.0 && b >= 0.0
    ensures a * b >= 0.0
  {
  }

  lemma Shares(d: real, t: real)
    ensures d * t + d * (1.0 - t) == d
  {
  }

  /** The base `interpolate(start, end, t)`: a missing start returns end and a missing end
      returns start, both without touching the entity; otherwise x and y are blended. */
  function Interpolate(b: Body, start: Option<State>, end: Option<State>, t: Num): (r: Blend)
    ensures start.None? ==> r == Blend(b, end)
    ensures start.Some? && end.None? ==> r == Blend(b, start)
    ensures start.Some? && end.Some? ==> r.returned.None? && r.self.kind == b.kind
    ensures start.Some? && end.Some? ==>
      r.self.state == b.state.(x := Lerp(start.value.x, end.value.x, t), y := Lerp(start.value.y, end.value.y, t))
  {
    if start.None? then Blend(b, end)
    else if end.None? then Blend(b, start)
    else Blend(b.(state := b.state.(x := Lerp(start.value.x, end.value.x, t),
                                    y := Lerp(start.value.y, end.value.y, t))), None)
  }

  /** With both states present, fraction 0 puts the entity at start and fraction 1 at end,
      and no other property changes. */
  lemma InterpolateEnds(b: Body, start: State, end: State, px: real, py: real, qx: real, qy: real)
    requires start.x == Some(px) && start.y == Some(py) && end.x == Some(qx) && end.y == Some(qy)
    ensures Interpolate(b, Some(start), Some(end), Some(0.0)).self.state == b.state.(x := start.x, y := start.y)
    ensures Interpolate(b, Some(start), Some(end), Some(1.0)).self.state == b.state.(x := end.x, y := end.y)
  {
    LerpEnds(px, qx, 0.0);
    LerpEnds(py, qy, 0.0);
  }

  /** `setState(state)`: Object.assign of the snapshot record; an undefined record is a
      no-op. */
  function SetState(b: Body, s: Option<State>): (r: Body)
    ensures r.kind == b.kind
    ensures Props(r.state) == Props(b.state) + Props(s.GetOr(EMPTY))
    ensures s.None? ==> r == b
  {
    AssignIsUnion(b.state, s.GetOr(EMPTY));
    AssignIdempotent(b.state, EMPTY);
    b.(state := Assign(b.state, s.GetOr(EMPTY)))
  }

  /** The base `simulate` changes nothing and returns nothing, so no children. */
  function Simulate(b: Body): (r: Outcome)
    ensures r == Outcome(b, [])
  {
    Outcome(b, [])
  }
}
