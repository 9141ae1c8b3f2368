/** The records that travel between the components: the property record of an entity
    (what a snapshot carries for it and what `Object.assign` copies onto it), the value of an
    entity object, and one tick of input. */
module Records {
  import opened Js
  import Keyboard

  /** Which of the classes Entity, Ship and Missile built the object. */
  datatype Kind = Plain | ShipKind | MissileKind

  /** The own properties an entity object may have: id, position x/y, type tag t,
      angle a, missile cooldown m, firing flag f and lifetime l. `None` is an absent
      property. Every entity object has x and y; Ship adds t, a, m, f and Missile adds
      t, a, l. A snapshot carries one such record per entity. */
  datatype State = State(
    id: Option<int>,
    x: Num,
    y: Num,
    t: Option<int>,
    a: Num,
    m: Num,
    f: Num,
    l: Num)

  /** A record with no properties at all, such as `undefined` handed to Object.assign. */
  const EMPTY: State := State(None, None, None, None, None, None, None, None)

  /** An entity object: the class that built it and its current properties. */
  datatype Body = Body(kind: Kind, state: State)

  /** What a `simulate` call leaves: the entity itself, and the children it returns. A
      child that is the entity itself (same id) is the entity's request to be removed. */
  datatype Outcome = Outcome(self: Body, children: seq<Body>)

  /** What an `interpolate` call leaves: the entity itself, and the value it returns
      (`prev` or `next` when one of them is missing, otherwise undefined). */
  datatype Blend = Blend(self: Body, returned: Option<State>)

  /** One tick of client input: the held keys (each mapped to 1), the sequence number n
      and the null flag z (1 when no key is held, else 0). */
  datatype Input = Input(keys: map<Keyboard.Key, int>, n: int, z: int)

  /** The `state` of a state message: the host's clock, every entity's properties by id,
      and the sequence number of the last input the host took from the receiving client. */
  datatype Snapshot = Snapshot(time: real, entities: map<int, State>, sequence: int)

  /** Whether input property `k` is truthy, as in `if (inputs.L)`. */
  predicate Held(keys: map<Keyboard.Key, int>, k: Keyboard.Key) {
    k in keys && keys[k] != 0
  }

  function Override<T>(supplied: Option<T>, current: Option<T>): Option<T> {
    if supplied.Some? then supplied else current
  }

  /** `Object.assign(target, source)` restricted to the entity properties. */
  function Assign(target: State, source: State): State {
    State(
      Override(source.id, target.id),
      Override(source.x, target.x),
      Override(source.y, target.y),
      Override(source.t, target.t),
      Override(source.a, target.a),
      Override(source.m, target.m),
      Override(source.f, target.f),
      Override(source.l, target.l))
  }

  /** The names of the entity properties, and their values, to view a record as the
      JavaScript object it stands for: a finite map from property name to value. */
  datatype Prop = PId | PX | PY | PT | PA | PM | PF | PL
  datatype Value = IntValue(i: int) | RealValue(r: real)

  function IntProp(o: Option<int>): Option<Value> {
    if o.Some? then Some(IntValue(o.value)) else None
  }

  function RealProp(o: Num): Option<Value> {
    if o.Some? then Some(RealValue(o.value)) else None
  }

  function PropOf(s: State, p: Prop): Option<Value> {
    match p
    case PId => IntProp(s.id)
    case PX => RealProp(s.x)
    case PY => RealProp(s.y)
    case PT => IntProp(s.t)
    case PA => RealProp(s.a)
    case PM => RealProp(s.m)
    case PF => RealProp(s.f)
    case PL => RealProp(s.l)
  }

  /** The record as a JavaScript object: its own properties and their values. */
  function Props(s: State): map<Prop, Value> {
    map p | PropOf(s, p).Some? :: PropOf(s, p).value
  }

  /** Object.assign semantics: the target afterwards has every property of the source
      with the source's value, and every other property it had before, unchanged. */
  lemma AssignIsUnion(target: State, source: State)
    ensures Props(Assign(target, source)) == Props(target) + Props(source)
  {
    var r := Assign(target, source);
    forall p: Prop
      ensures PropOf(r, p) == (if PropOf(source, p).Some? then PropOf(source, p) else PropOf(target, p))
    {
      match p
      case PId => case PX => case PY => case PT => case PA => case PM => case PF => case PL =>
    }
    assert Props(r).Keys == (Props(target) + Props(source)).Keys;
  }

  /** Assigning the same source twice changes nothing more, and assigning nothing is a
      no-op. */
  lemma AssignIdempotent(target: State, source: State)
    ensures Assign(Assign(target, source), source) == Assign(target, source)
    ensures Assign(target, EMPTY) == target
  {
  }
}
