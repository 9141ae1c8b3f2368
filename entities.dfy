/** The three entity classes of public/src/entity.mjs, ship.mjs and missile.mjs behind one
    interface: which method runs is decided by the class that built the object. The
    functions work on entity values; the class `Entity` is the mutable object the client
    keeps, whose methods change it in place as those functions say. */
module Entities {
  import opened Js
  import opened Records
  import Keyboard
  import Base = Entity
  import Ship
  import Missile

  /** The properties each class sets before copying the constructor's argument. */
  function DefaultsOf(kind: Kind): State {
    match kind
    case Plain => Base.DEFAULTS
    case ShipKind => Ship.DEFAULTS
    case MissileKind => Missile.DEFAULTS
  }

  /** `new Entity(state)`, `new Ship(state)` or `new Missile(state)`: the class's defaults
      with every property of `state` copied over them. */
  function New(kind: Kind, s: State): (r: Body)
    ensures r.kind == kind
    ensures Props(r.state) == Props(DefaultsOf(kind)) + Props(s)
    ensures r.state.x.Some? && r.state.y.Some?
  {
    Base.NewDefaults(s);
    Ship.NewDefaults(s);
    Missile.NewDefaults(s);
    match kind
    case Plain => Base.New(s)
    case ShipKind => Ship.New(s)
    case MissileKind => Missile.New(s)
  }

  /** `simulate(tick, inputs)`; a Plain entity and a Missile ignore `inputs`. Whatever the
      class, the entity keeps its class and its id, and the only child it can return is
      itself, which only a Missile does. */
  function Simulated(b: Body, tick: real, keys: map<Keyboard.Key, int>, trig: Trig): (r: Outcome)
    ensures r.self.kind == b.kind
    ensures r.self.state.id == b.state.id
    ensures r.children == [] || r.children == [r.self]
    ensures b.kind != MissileKind ==> r.children == []
  {
    match b.kind
    case Plain => Base.Simulate(b)
    case ShipKind => Ship.Simulate(b, tick, keys, trig)
    case MissileKind => Missile.Simulate(b, tick, trig)
  }

  /** `interpolate(prev, next, t)`: Ship has its own, Missile inherits Entity's. With one
      side missing the entity is untouched and the other side is returned. */
  function Interpolated(b: Body, prev: Option<State>, next: Option<State>, t: Num): (r: Blend)
    ensures r.self.kind == b.kind
    ensures prev.None? ==> r == Blend(b, next)
    ensures prev.Some? && next.None? ==> r == Blend(b, prev)
    ensures prev.Some? && next.Some? ==> r.returned.None?
  {
    if b.kind == ShipKind then Ship.Interpolate(b, prev, next, t)
    else Base.Interpolate(b, prev, next, t)
  }

  /** Object.assign keeps the class, so `setState` is Entity's for every class. */
  function WithState(b: Body, s: Option<State>): (r: Body)
    ensures r.kind == b.kind
    ensures Props(r.state) == Props(b.state) + Props(s.GetOr(EMPTY))
    ensures s.None? ==> r == b
  {
    Base.SetState(b, s)
  }

  /** An entity object: the class that built it and its own properties. */
  class Entity {
    const kind: Kind
    var state: State

    /** The object as a value. */
    function Value(): Body
      reads this
    {
      Body(kind, state)
    }

    constructor (kind: Kind, s: State)
      ensures Value() == New(kind, s)
    {
      this.kind := kind;
      this.state := New(kind, s).state;
    }

    method SetState(s: Option<State>)
      modifies this
      ensures Value() == WithState(old(Value()), s)
    {
      state := WithState(Value(), s).state;
    }

    method Interpolate(prev: Option<State>, next: Option<State>, t: Num) returns (returned: Option<State>)
      modifies this
      ensures Blend(Value(), returned) == Interpolated(old(Value()), prev, next, t)
    {
      var r := Interpolated(Value(), prev, next, t);
      state := r.self.state;
      returned := r.returned;
    }

    /** The children are the object itself when it asks to be removed. */
    method Simulate(tick: real, keys: map<Keyboard.Key, int>, trig: Trig) returns (children: seq<Entity>)
      modifies this
      ensures Value() == Simulated(old(Value()), tick, keys, trig).self
      ensures |children| == |Simulated(old(Value()), tick, keys, trig).children|
      ensures forall c :: c in children ==> c == this
    {
      var r := Simulated(Value(), tick, keys, trig);
      state := r.self.state;
      children := if r.children == [] then [] else [this];
    }
  }
}
