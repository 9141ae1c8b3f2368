/** The authoritative game host of host.mjs: the entities by id, one record per connected
    client socket (its id, whether it is open, its queue of inputs and its two counters), the
    id counter and the fixed-step clock. The functions state what one tick, a run of ticks, a
    broadcast and each connection event do to that state; the class `Host` does the same
    step by step, as `update` and the socket handlers do. */
module Host {
  import opened Js
  import opened Records
  import opened Clock
  import Keyboard
  import Ship
  import Entities

  /** A client socket: the id of its ship, whether its readyState is OPEN, the inputs
      received and not yet taken, the sequence number `applied` of the last input taken,
      and `appliedNulls`, the number of ticks simulated with no input since the last
      input that was simulated. */
  datatype Socket = Socket(id: int, open: bool, inputs: seq<Input>, applied: int, appliedNulls: int)

  /** The host's state apart from the clock. */
  datatype World = World(entities: map<int, Body>, sockets: seq<Socket>, nextId: nat)

  /** What the host keeps true between events: every entity is stored under its own id,
      below `nextId`; each socket has its own id, below `nextId`; no counter is negative. */
  ghost predicate Consistent(w: World) {
    && (forall k :: k in w.entities ==> 0 <= k < w.nextId && w.entities[k].state.id == Some(k))
    && (forall i :: 0 <= i < |w.sockets| ==> 0 <= w.sockets[i].id < w.nextId && w.sockets[i].appliedNulls >= 0)
    && DistinctIds(w.sockets)
  }

  // ---------------------------------------------------------------- connection events

  /** A new connection: a Ship `{ id }` under the next id, and a socket with an empty
      queue and both counters 0. */
  function Connected(w: World): (r: World)
    ensures r.nextId == w.nextId + 1
  {
    var id := w.nextId;
    World(w.entities[id := Ship.New(EMPTY.(id := Some(id)))],
          w.sockets + [Socket(id, true, [], 0, 0)],
          id + 1)
  }

  /** A connection gets an id no entity or socket had, everything else is kept, and the
      host stays consistent. */
  lemma ConnectedFresh(w: World)
    requires Consistent(w)
    ensures var r := Connected(w);
      && w.nextId !in w.entities
      && (forall i :: 0 <= i < |w.sockets| ==> w.sockets[i].id != w.nextId)
      && r.entities == w.entities[w.nextId := Ship.New(EMPTY.(id := Some(w.nextId)))]
      && r.sockets == w.sockets + [Socket(w.nextId, true, [], 0, 0)]
      && Consistent(r)
  {
    var r := Connected(w);
    var n := Ship.New(EMPTY.(id := Some(w.nextId)));
    assert n.state.id == Some(w.nextId);
    forall k | k in r.entities ensures 0 <= k < r.nextId && r.entities[k].state.id == Some(k) {
    }
  }

  /** The sockets after a message on the socket with this id: `input` joins the end of its
      queue. */
  function Received(sockets: seq<Socket>, id: int, input: Input): (r: seq<Socket>)
    ensures |r| == |sockets|
    ensures forall i :: 0 <= i < |r| ==>
      r[i] == if sockets[i].id == id then sockets[i].(inputs := sockets[i].inputs + [input]) else sockets[i]
  {
    if sockets == [] then []
    else
      var s := sockets[0];
      [if s.id == id then s.(inputs := s.inputs + [input]) else s] + Received(sockets[1..], id, input)
  }

  /** The sockets after the socket with this id leaves the OPEN state. */
  function Closing(sockets: seq<Socket>, id: int): (r: seq<Socket>)
    ensures |r| == |sockets|
    ensures forall i :: 0 <= i < |r| ==>
      r[i] == if sockets[i].id == id then sockets[i].(open := false) else sockets[i]
  {
    if sockets == [] then []
    else
      var s := sockets[0];
      [if s.id == id then s.(open := false) else s] + Closing(sockets[1..], id)
  }

  /** The sockets without the one with this id, which the server drops on close. */
  function Without(sockets: seq<Socket>, id: int): (r: seq<Socket>)
    ensures forall s :: s in r <==> s in sockets && s.id != id
    ensures |r| <= |sockets|
  {
    if sockets == [] then []
    else if sockets[0].id == id then Without(sockets[1..], id)
    else [sockets[0]] + Without(sockets[1..], id)
  }

  /** `Without` is an order-preserving filter: it distributes over concatenation, so the
      sockets it keeps stay in client order, each as often as it occurred. */
  lemma {:induction false} WithoutAppend(a: seq<Socket>, b: seq<Socket>, id: int)
    ensures Without(a + b, id) == Without(a, id) + Without(b, id)
    decreases |a|
  {
    if a != [] {
      assert (a + b)[0] == a[0] && (a + b)[1..] == a[1..] + b;
      WithoutAppend(a[1..], b, id);
    } else {
      assert a + b == b;
    }
  }

  /** Without a socket of that id, nothing is removed. */
  lemma {:induction false} WithoutNone(sockets: seq<Socket>, id: int)
    requires forall i :: 0 <= i < |sockets| ==> sockets[i].id != id
    ensures Without(sockets, id) == sockets
    decreases |sockets|
  {
    if sockets != [] {
      WithoutNone(sockets[1..], id);
    }
  }

  /** A closed connection: its socket is gone and exactly its entity is deleted. */
  function Closed(w: World, id: int): (r: World)
    ensures r.entities == w.entities - {id}
    ensures r.nextId == w.nextId
    ensures forall s :: s in r.sockets <==> s in w.sockets && s.id != id
  {
    World(w.entities - {id}, Without(w.sockets, id), w.nextId)
  }

  /** A message keeps the host consistent. */
  lemma ReceivedConsistent(w: World, id: int, input: Input)
    requires Consistent(w)
    ensures Consistent(w.(sockets := Received(w.sockets, id, input)))
  {
  }

  /** Leaving the OPEN state keeps the host consistent. */
  lemma ClosingConsistent(w: World, id: int)
    requires Consistent(w)
    ensures Consistent(w.(sockets := Closing(w.sockets, id)))
  {
  }

  /** A close keeps the host consistent. */
  lemma ClosedConsistent(w: World, id: int)
    requires Consistent(w)
    ensures Consistent(Closed(w, id))
  {
    var r := Closed(w, id);
    WithoutDistinct(w.sockets, id);
    forall i | 0 <= i < |r.sockets| ensures 0 <= r.sockets[i].id < r.nextId && r.sockets[i].appliedNulls >= 0 {
      assert r.sockets[i] in w.sockets;
    }
  }

  /** No two sockets share an id. */
  predicate DistinctIds(sockets: seq<Socket>) {
    forall i, j :: 0 <= i < j < |sockets| ==> sockets[i].id != sockets[j].id
  }

  lemma DistinctCons(s: Socket, tail: seq<Socket>)
    ensures DistinctIds([s] + tail) <==> DistinctIds(tail) && forall t :: t in tail ==> t.id != s.id
  {
    var q := [s] + tail;
    assert forall i :: 0 <= i < |tail| ==> q[i + 1] == tail[i];
    if DistinctIds(q) {
      forall t | t in tail ensures t.id != s.id {
        var k :| 0 <= k < |tail| && tail[k] == t;
        assert q[0] == s && q[k + 1] == t;
        assert q[0].id != q[k + 1].id;
      }
    }
  }

  lemma {:induction false} WithoutDistinct(sockets: seq<Socket>, id: int)
    requires DistinctIds(sockets)
    ensures DistinctIds(Without(sockets, id))
  {
    if sockets != [] {
      var tail := sockets[1..];
      assert sockets == [sockets[0]] + tail;
      DistinctCons(sockets[0], tail);
      WithoutDistinct(tail, id);
      if sockets[0].id != id {
        DistinctCons(sockets[0], Without(tail, id));
      }
    }
  }

  // ---------------------------------------------------------------- one socket's turn

  /** What a tick does for one socket: the keys to simulate its entity with (`None` when
      the tick's input is elided), and the socket afterwards. */
  datatype Turn = Turn(run: Option<map<Keyboard.Key, int>>, socket: Socket)

  /** Take the front of the queue. With no input the entity runs with no keys and the
      implied null is counted; a null input (`z` set) while implied nulls are counted is
      elided and uncounts one; any other input runs and clears the count. A taken input's
      `n` becomes `applied`. */
  function TakeTurn(s: Socket): (r: Turn)
    ensures r.socket.id == s.id && r.socket.open == s.open
    ensures s.inputs == [] ==> r == Turn(Some(map[]), s.(appliedNulls := s.appliedNulls + 1))
    ensures s.inputs != [] ==> r.socket.inputs == s.inputs[1..] && r.socket.applied == s.inputs[0].n
    ensures s.inputs != [] ==> (r.run.None? <==> s.inputs[0].z != 0 && s.appliedNulls > 0)
    ensures s.inputs != [] && r.run.None? ==> r.socket.appliedNulls == s.appliedNulls - 1
    ensures s.inputs != [] && r.run.Some? ==> r.run.value == s.inputs[0].keys && r.socket.appliedNulls == 0
    ensures s.appliedNulls >= 0 ==> r.socket.appliedNulls >= 0
  {
    if s.inputs == [] then Turn(Some(map[]), s.(appliedNulls := s.appliedNulls + 1))
    else
      var input := s.inputs[0];
      var rest := s.(inputs := s.inputs[1..], applied := input.n);
      if input.z != 0 && s.appliedNulls > 0 then Turn(None, rest.(appliedNulls := s.appliedNulls - 1))
      else Turn(Some(input.keys), rest.(appliedNulls := 0))
  }

  /** The queue's inputs carry increasing sequence numbers, none below the last one
      taken; a client's inputs arrive this way. */
  predicate Ordered(s: Socket) {
    && (forall i, j :: 0 <= i < j < |s.inputs| ==> s.inputs[i].n < s.inputs[j].n)
    && (s.inputs != [] ==> s.applied <= s.inputs[0].n)
  }

  /** A turn keeps the queue ordered and never lowers `applied`; after a turn that took an
      input, every queued input is newer than `applied`. */
  lemma TurnOrdered(s: Socket)
    requires Ordered(s)
    ensures Ordered(TakeTurn(s).socket)
    ensures TakeTurn(s).socket.applied >= s.applied
    ensures s.inputs != [] ==> forall i :: 0 <= i < |TakeTurn(s).socket.inputs| ==> TakeTurn(s).socket.inputs[i].n > TakeTurn(s).socket.applied
  {
    var r := TakeTurn(s).socket;
    if s.inputs != [] {
      forall i | 0 <= i < |r.inputs| ensures r.inputs[i].n > r.applied {
        assert r.inputs[i] == s.inputs[i + 1];
      }
      if r.inputs != [] {
        assert r.inputs[0] == s.inputs[1];
      }
    }
  }

  /** A message whose `n` is above all queued ones and not below `applied` keeps the
      queue ordered. */
  lemma ReceivedOrdered(s: Socket, input: Input)
    requires Ordered(s)
    requires forall i :: 0 <= i < |s.inputs| ==> s.inputs[i].n < input.n
    requires s.applied <= input.n
    ensures Ordered(s.(inputs := s.inputs + [input]))
  {
    var q := s.inputs + [input];
    assert forall i :: 0 <= i < |s.inputs| ==> q[i] == s.inputs[i];
  }

  // ---------------------------------------------------------------- one tick

  /** `Object.values(this.entities)`: the entities whose ids lie below n, in increasing id
      order (integer keys enumerate in ascending order). */
  function IdsBelow(entities: map<int, Body>, n: int): seq<int> {
    if n <= 0 then []
    else
      var below := IdsBelow(entities, n - 1);
      if n - 1 in entities then below + [n - 1] else below
  }

  /** The ids listed are exactly the stored ids below n, each once, in increasing order. */
  lemma {:induction false} IdsBelowSpec(entities: map<int, Body>, n: int)
    ensures var r := IdsBelow(entities, n);
      && (forall k :: k in r <==> k in entities && 0 <= k < n)
      && (forall i, j :: 0 <= i < j < |r| ==> r[i] < r[j])
    decreases if n > 0 then n else 0
  {
    if n > 0 {
      var below := IdsBelow(entities, n - 1);
      IdsBelowSpec(entities, n - 1);
      if n - 1 in entities {
        var r := below + [n - 1];
        forall i | 0 <= i < |below| ensures r[i] == below[i] && below[i] < n - 1 {
          assert below[i] in below;
        }
      }
    }
  }

  /** `sockets.find(s => s.id === en.id)`: the position of the first socket whose id is the
      entity's id. */
  function FindSocket(sockets: seq<Socket>, id: Option<int>): (r: Option<nat>)
    ensures r.Some? ==> r.value < |sockets| && id == Some(sockets[r.value].id)
  {
    if sockets == [] then None
    else if id == Some(sockets[0].id) then Some(0)
    else
      var rest := FindSocket(sockets[1..], id);
      if rest.Some? then Some(rest.value + 1) else None
  }

  /** The search finds the first matching socket, and finds none only when no socket
      matches. */
  lemma {:induction false} FindSocketSpec(sockets: seq<Socket>, id: Option<int>)
    ensures var r := FindSocket(sockets, id);
      && (r.Some? ==> forall j :: 0 <= j < r.value ==> id != Some(sockets[j].id))
      && (r.None? ==> forall j :: 0 <= j < |sockets| ==> id != Some(sockets[j].id))
  {
    if sockets != [] && id != Some(sockets[0].id) {
      FindSocketSpec(sockets[1..], id);
      assert forall j :: 0 < j < |sockets| ==> sockets[j] == sockets[1..][j - 1];
    }
  }

  /** The entity loop of one tick part-way through: entities, sockets, and the children
      returned so far. */
  datatype Pass = Pass(entities: map<int, Body>, sockets: seq<Socket>, children: seq<Body>)

  /** One iteration of the entity loop, for the entity stored under `key`: its socket, if
      it has one, takes its turn, and the entity is simulated unless the turn elides it. */
  function StepEntity(p: Pass, key: int, trig: Trig): (r: Pass)
    requires key in p.entities
    ensures r.entities.Keys == p.entities.Keys
    ensures |r.sockets| == |p.sockets|
    ensures var en := p.entities[key];
      var found := FindSocket(p.sockets, en.state.id);
      found.None? ==>
        var o := Entities.Simulated(en, TICK, map[], trig);
        r.entities == p.entities[key := o.self] && r.children == p.children + o.children
    ensures var en := p.entities[key];
      var found := FindSocket(p.sockets, en.state.id);
      found.Some? && TakeTurn(p.sockets[found.value]).run.None? ==>
        r.entities == p.entities && r.children == p.children
    ensures var en := p.entities[key];
      var found := FindSocket(p.sockets, en.state.id);
      found.Some? && TakeTurn(p.sockets[found.value]).run.Some? ==>
        var o := Entities.Simulated(en, TICK, TakeTurn(p.sockets[found.value]).run.value, trig);
        r.entities == p.entities[key := o.self] && r.children == p.children + o.children
  {
    var en := p.entities[key];
    var found := FindSocket(p.sockets, en.state.id);
    if found.None? then
      var o := Entities.Simulated(en, TICK, map[], trig);
      Pass(p.entities[key := o.self], p.sockets, p.children + o.children)
    else
      var turn := TakeTurn(p.sockets[found.value]);
      var sockets := p.sockets[found.value := turn.socket];
      if turn.run.None? then Pass(p.entities, sockets, p.children)
      else
        var o := Entities.Simulated(en, TICK, turn.run.value, trig);
        Pass(p.entities[key := o.self], sockets, p.children + o.children)
  }

  /** The entity loop over `keys`, first key first. */
  function EntityPass(p: Pass, keys: seq<int>, trig: Trig): (r: Pass)
    requires forall k :: k in keys ==> k in p.entities
    ensures r.entities.Keys == p.entities.Keys
    ensures |r.sockets| == |p.sockets|
    decreases |keys|
  {
    if keys == [] then p else EntityPass(StepEntity(p, keys[0], trig), keys[1..], trig)
  }

  /** What its turn in the entity loop makes of an entity, given the sockets as they
      stand: simulated with no keys when no socket is its own, left as it is when its
      socket's input is elided, and otherwise simulated with that input's keys. */
  function TurnOf(en: Body, sockets: seq<Socket>, trig: Trig): Body {
    var found := FindSocket(sockets, en.state.id);
    if found.None? then Entities.Simulated(en, TICK, map[], trig).self
    else
      var turn := TakeTurn(sockets[found.value]);
      if turn.run.None? then en else Entities.Simulated(en, TICK, turn.run.value, trig).self
  }

  /** Sockets with the same ids, position by position, are searched alike. */
  lemma {:induction false} FindSocketIds(a: seq<Socket>, b: seq<Socket>, id: Option<int>)
    requires |a| == |b| && forall i :: 0 <= i < |a| ==> a[i].id == b[i].id
    ensures FindSocket(a, id) == FindSocket(b, id)
    decreases |a|
  {
    if a != [] && id != Some(a[0].id) {
      FindSocketIds(a[1..], b[1..], id);
    }
  }

  /** After the entity loop over distinct keys, each visited entity is what its own turn
      makes of it, taken with the sockets as the loop found them, and every other entity
      is unchanged: the turns of different entities do not interfere. */
  lemma {:induction false} EntityPassValues(p: Pass, keys: seq<int>, trig: Trig)
    requires forall k :: k in keys ==> k in p.entities
    requires forall k :: k in p.entities ==> p.entities[k].state.id == Some(k)
    requires forall i, j :: 0 <= i < j < |keys| ==> keys[i] != keys[j]
    requires DistinctIds(p.sockets)
    ensures var r := EntityPass(p, keys, trig);
      forall k :: k in p.entities ==>
        r.entities[k] == if k in keys then TurnOf(p.entities[k], p.sockets, trig) else p.entities[k]
    decreases |keys|
  {
    if keys != [] {
      var key := keys[0];
      var q := StepEntity(p, key, trig);
      StepFacts(p, key, trig);
      StepSocket(p, key, trig);
      assert forall i :: 0 <= i < |p.sockets| ==> q.sockets[i].id == p.sockets[i].id;
      assert DistinctIds(q.sockets);
      DistinctTail(keys);
      EntityPassValues(q, keys[1..], trig);
      var r := EntityPass(q, keys[1..], trig);
      forall k | k in p.entities
        ensures r.entities[k] == if k in keys then TurnOf(p.entities[k], p.sockets, trig) else p.entities[k]
      {
        if k == key {
          assert r.entities[k] == q.entities[k];
        } else {
          assert q.entities[k] == p.entities[k];
          if k in keys[1..] {
            TurnOthers(p, q, key, k, trig);
          }
        }
      }
    }
  }

  /** The turn of the entity under `key` leaves another entity's turn as it was. */
  lemma TurnOthers(p: Pass, q: Pass, key: int, k: int, trig: Trig)
    requires k in p.entities && p.entities[k].state.id == Some(k) && key != k
    requires |q.sockets| == |p.sockets|
    requires forall i :: 0 <= i < |p.sockets| ==>
      q.sockets[i] == if p.sockets[i].id == key then TakeTurn(p.sockets[i]).socket else p.sockets[i]
    ensures TurnOf(p.entities[k], q.sockets, trig) == TurnOf(p.entities[k], p.sockets, trig)
  {
    FindSocketIds(q.sockets, p.sockets, Some(k));
  }

  /** The children loop part-way through: entities and the id counter. */
  datatype Spawn = Spawn(entities: map<int, Body>, nextId: nat)

  /** A child with a truthy id that is stored is deleted; any other child is stored under
      a fresh id, `nextId++`. */
  function AddChild(s: Spawn, child: Body): Spawn {
    var id := child.state.id;
    if id.Some? && id.value != 0 && id.value in s.entities then Spawn(s.entities - {id.value}, s.nextId)
    else Spawn(s.entities[s.nextId := child.(state := child.state.(id := Some(s.nextId)))], s.nextId + 1)
  }

  function ChildPass(s: Spawn, children: seq<Body>): (r: Spawn)
    ensures r.nextId >= s.nextId
    decreases |children|
  {
    if children == [] then s else ChildPass(AddChild(s, children[0]), children[1..])
  }

  /** One tick: the entity loop over the entities in id order, then the children loop.
      (The all-pairs `interact` pass between them changes nothing, as every class's
      `interact` is empty.) */
  function Tick(w: World, trig: Trig): World {
    IdsBelowSpec(w.entities, w.nextId);
    var keys := IdsBelow(w.entities, w.nextId);
    var p := EntityPass(Pass(w.entities, w.sockets, []), keys, trig);
    var s := ChildPass(Spawn(p.entities, w.nextId), p.children);
    World(s.entities, p.sockets, s.nextId)
  }

  /** `n` applications of `step`. */
  function Iterate(w: World, n: nat, step: World -> World): World {
    if n == 0 then w else step(Iterate(w, n - 1, step))
  }

  /** What every step keeps, any number of steps keep. */
  lemma {:induction false} IterateInvariant(w: World, n: nat, step: World -> World, inv: World -> bool)
    requires inv(w)
    requires forall x :: inv(x) ==> inv(step(x))
    ensures inv(Iterate(w, n, step))
  {
    if n > 0 {
      IterateInvariant(w, n - 1, step, inv);
    }
  }

  function TickStep(trig: Trig): World -> World {
    x => Tick(x, trig)
  }

  /** `n` ticks in a row. */
  function Ticks(w: World, n: nat, trig: Trig): World {
    Iterate(w, n, TickStep(trig))
  }

  // ---------------------------------------------------------------- tick properties

  /** One iteration of the entity loop only replaces the entity it is for, by one of the
      same class and id. */
  lemma StepFacts(p: Pass, key: int, trig: Trig)
    requires key in p.entities
    ensures var r := StepEntity(p, key, trig);
      && r.entities[key].kind == p.entities[key].kind
      && r.entities[key].state.id == p.entities[key].state.id
      && (forall k :: k in p.entities && k != key ==> r.entities[k] == p.entities[k])
  {
  }

  /** The entity loop keeps the class of every entity. */
  lemma {:induction false} EntityPassKinds(p: Pass, keys: seq<int>, trig: Trig)
    requires forall k :: k in keys ==> k in p.entities
    ensures var r := EntityPass(p, keys, trig);
      forall k :: k in p.entities ==> r.entities[k].kind == p.entities[k].kind
    decreases |keys|
  {
    if keys != [] {
      StepFacts(p, keys[0], trig);
      EntityPassKinds(StepEntity(p, keys[0], trig), keys[1..], trig);
    }
  }

  /** The entity loop keeps every entity under its own id and below `nextId`. */
  lemma {:induction false} EntityPassIds(p: Pass, keys: seq<int>, trig: Trig, n: int)
    requires forall k :: k in keys ==> k in p.entities
    requires forall k :: k in p.entities ==> 0 <= k < n && p.entities[k].state.id == Some(k)
    ensures var r := EntityPass(p, keys, trig);
      forall k :: k in r.entities ==> 0 <= k < n && r.entities[k].state.id == Some(k)
    decreases |keys|
  {
    if keys != [] {
      StepFacts(p, keys[0], trig);
      EntityPassIds(StepEntity(p, keys[0], trig), keys[1..], trig, n);
    }
  }

  /** The children loop keeps every entity under its own id and below the counter, and
      every entity it adds is stored at an id at least the counter's start. */
  lemma {:induction false} ChildPassIds(s: Spawn, children: seq<Body>)
    requires forall k :: k in s.entities ==> 0 <= k < s.nextId && s.entities[k].state.id == Some(k)
    ensures var r := ChildPass(s, children);
      && (forall k :: k in r.entities ==> 0 <= k < r.nextId && r.entities[k].state.id == Some(k))
      && (forall k :: k in r.entities && k !in s.entities ==> k >= s.nextId)
    decreases |children|
  {
    if children != [] {
      var next := AddChild(s, children[0]);
      ChildPassIds(next, children[1..]);
    }
  }

  /** One iteration of the entity loop gives the socket of that entity, and no other, its
      turn. */
  lemma StepSocket(p: Pass, key: int, trig: Trig)
    requires key in p.entities
    requires p.entities[key].state.id == Some(key)
    requires DistinctIds(p.sockets)
    ensures var r := StepEntity(p, key, trig);
      forall i :: 0 <= i < |p.sockets| ==>
        r.sockets[i] == if p.sockets[i].id == key then TakeTurn(p.sockets[i]).socket else p.sockets[i]
  {
    FindSocketSpec(p.sockets, Some(key));
  }

  /** The entity loop changes each socket at most once: the socket whose entity is among
      `keys` takes exactly one turn, and every other socket is untouched. */
  lemma {:induction false} EntityPassSockets(p: Pass, keys: seq<int>, trig: Trig)
    requires forall k :: k in keys ==> k in p.entities
    requires forall k :: k in p.entities ==> p.entities[k].state.id == Some(k)
    requires forall i, j :: 0 <= i < j < |keys| ==> keys[i] != keys[j]
    requires DistinctIds(p.sockets)
    ensures var r := EntityPass(p, keys, trig);
      forall i :: 0 <= i < |p.sockets| ==>
        r.sockets[i] == if p.sockets[i].id in keys then TakeTurn(p.sockets[i]).socket else p.sockets[i]
    decreases |keys|
  {
    if keys != [] {
      var q := StepEntity(p, keys[0], trig);
      StepSocket(p, keys[0], trig);
      StepFacts(p, keys[0], trig);
      DistinctTail(keys);
      assert forall i :: 0 <= i < |p.sockets| ==> q.sockets[i].id == p.sockets[i].id;
      EntityPassSockets(q, keys[1..], trig);
    }
  }

  /** The tail of a list of distinct keys is distinct and lacks the head. */
  lemma DistinctTail(keys: seq<int>)
    requires keys != []
    requires forall i, j :: 0 <= i < j < |keys| ==> keys[i] != keys[j]
    ensures forall i, j :: 0 <= i < j < |keys[1..]| ==> keys[1..][i] != keys[1..][j]
    ensures keys[0] !in keys[1..]
    ensures forall k :: k in keys <==> k == keys[0] || k in keys[1..]
  {
    var rest := keys[1..];
    assert keys == [keys[0]] + rest;
    forall i, j | 0 <= i < j < |rest| ensures rest[i] != rest[j] {
      assert rest[i] == keys[i + 1] && rest[j] == keys[j + 1];
    }
    forall j | 0 <= j < |rest| ensures rest[j] != keys[0] {
      assert rest[j] == keys[j + 1];
    }
  }

  /** A child the children loop may delete an entity for: a Missile whose id, if stored,
      belongs to a Missile. */
  predicate Removable(entities: map<int, Body>, c: Body) {
    c.kind == MissileKind && (c.state.id.Some? && c.state.id.value in entities ==> entities[c.state.id.value].kind == MissileKind)
  }

  /** Every child the entity loop collects is a Missile, and a stored entry under its id is a Missile too. */
  lemma {:induction false} EntityPassChildren(p: Pass, keys: seq<int>, trig: Trig)
    requires forall k :: k in keys ==> k in p.entities
    requires forall k :: k in p.entities ==> p.entities[k].state.id == Some(k)
    requires forall c :: c in p.children ==> Removable(p.entities, c)
    ensures var r := EntityPass(p, keys, trig);
      forall c :: c in r.children ==> Removable(r.entities, c)
    decreases |keys|
  {
    if keys != [] {
      var q := StepEntity(p, keys[0], trig);
      StepFacts(p, keys[0], trig);
      forall c | c in q.children ensures Removable(q.entities, c) {
        if c !in p.children {
          var en := p.entities[keys[0]];
          assert en.kind == MissileKind;
        }
      }
      EntityPassChildren(q, keys[1..], trig);
      assert EntityPass(p, keys, trig) == EntityPass(q, keys[1..], trig);
    }
  }

  /** The children loop never deletes an entity that is not a Missile. */
  lemma {:induction false} ChildPassKeeps(s: Spawn, children: seq<Body>)
    requires forall k :: k in s.entities ==> k < s.nextId
    requires forall c :: c in children ==> Removable(s.entities, c)
    ensures var r := ChildPass(s, children);
      forall k :: k in s.entities && s.entities[k].kind != MissileKind ==> k in r.entities && r.entities[k] == s.entities[k]
    decreases |children|
  {
    if children != [] {
      var next := AddChild(s, children[0]);
      assert Removable(s.entities, children[0]);
      forall c | c in children[1..] ensures Removable(next.entities, c) {
        assert c in children;
        assert Removable(s.entities, c);
        if c.state.id.Some? && c.state.id.value in next.entities {
          var id := c.state.id.value;
          if id in s.entities {
            assert next.entities[id] == s.entities[id];
          } else {
            assert id == s.nextId;
          }
        }
      }
      ChildPassKeeps(next, children[1..]);
      assert ChildPass(s, children) == ChildPass(next, children[1..]);
    }
  }

  /** Sockets with the same ids and readyStates, in the same order. */
  predicate SameSockets(a: seq<Socket>, b: seq<Socket>) {
    |a| == |b| && forall i :: 0 <= i < |a| ==> a[i].id == b[i].id && a[i].open == b[i].open
  }

  /** In one tick each socket whose ship is stored takes exactly one turn, and every
      other socket is untouched. */
  lemma TickSockets(w: World, trig: Trig)
    requires Consistent(w)
    ensures var r := Tick(w, trig);
      && |r.sockets| == |w.sockets|
      && (forall i :: 0 <= i < |w.sockets| ==>
            r.sockets[i] == if w.sockets[i].id in w.entities then TakeTurn(w.sockets[i]).socket else w.sockets[i])
  {
    IdsBelowSpec(w.entities, w.nextId);
    var keys := IdsBelow(w.entities, w.nextId);
    EntityPassSockets(Pass(w.entities, w.sockets, []), keys, trig);
  }

  /** One tick keeps the host consistent. */
  lemma TickConsistent(w: World, trig: Trig)
    requires Consistent(w)
    ensures Consistent(Tick(w, trig))
  {
    TickEntityIds(w, trig);
    TickSocketIds(w, trig);
  }

  /** After a tick every entity is still stored under its own id, below the counter,
      which has not gone down. */
  lemma TickEntityIds(w: World, trig: Trig)
    requires Consistent(w)
    ensures var r := Tick(w, trig);
      && r.nextId >= w.nextId
      && forall k :: k in r.entities ==> 0 <= k < r.nextId && r.entities[k].state.id == Some(k)
  {
    IdsBelowSpec(w.entities, w.nextId);
    var keys := IdsBelow(w.entities, w.nextId);
    var p0 := Pass(w.entities, w.sockets, []);
    var p := EntityPass(p0, keys, trig);
    EntityPassIds(p0, keys, trig, w.nextId);
    ChildPassIds(Spawn(p.entities, w.nextId), p.children);
  }

  /** After a tick the sockets keep their distinct ids, below a counter that has not gone
      down, and their non-negative null counts. */
  lemma TickSocketIds(w: World, trig: Trig)
    requires Consistent(w) && Tick(w, trig).nextId >= w.nextId
    ensures var r := Tick(w, trig);
      && (forall i :: 0 <= i < |r.sockets| ==> 0 <= r.sockets[i].id < r.nextId && r.sockets[i].appliedNulls >= 0)
      && DistinctIds(r.sockets)
  {
    TickSockets(w, trig);
    var r := Tick(w, trig);
    assert forall i :: 0 <= i < |w.sockets| ==> r.sockets[i].id == w.sockets[i].id && r.sockets[i].appliedNulls >= 0;
    assert DistinctIds(r.sockets);
  }

  /** One tick never lowers the id counter and stores every new entity at an id the
      counter had not reached: ids are never reused. */
  lemma TickFresh(w: World, trig: Trig)
    requires Consistent(w)
    ensures var r := Tick(w, trig);
      && r.nextId >= w.nextId
      && (forall k :: k in r.entities && k !in w.entities ==> k >= w.nextId)
  {
    IdsBelowSpec(w.entities, w.nextId);
    var keys := IdsBelow(w.entities, w.nextId);
    var p0 := Pass(w.entities, w.sockets, []);
    var p := EntityPass(p0, keys, trig);
    EntityPassIds(p0, keys, trig, w.nextId);
    ChildPassIds(Spawn(p.entities, w.nextId), p.children);
  }

  /** A tick deletes only Missiles: every other entity is still stored, of the same class. */
  lemma TickKeepsShips(w: World, trig: Trig)
    requires Consistent(w)
    ensures var r := Tick(w, trig);
      forall k :: k in w.entities && w.entities[k].kind != MissileKind ==> k in r.entities && r.entities[k].kind == w.entities[k].kind
  {
    IdsBelowSpec(w.entities, w.nextId);
    var keys := IdsBelow(w.entities, w.nextId);
    var p0 := Pass(w.entities, w.sockets, []);
    var p := EntityPass(p0, keys, trig);
    EntityPassIds(p0, keys, trig, w.nextId);
    EntityPassKinds(p0, keys, trig);
    EntityPassChildren(p0, keys, trig);
    ChildPassKeeps(Spawn(p.entities, w.nextId), p.children);
  }

  /** After a tick every entity that is not a Missile is what its own turn made of it:
      simulated with its input's keys, with no keys when it has no socket, or left as it
      was when its input was elided. */
  lemma TickTurns(w: World, trig: Trig)
    requires Consistent(w)
    ensures var r := Tick(w, trig);
      forall k :: k in w.entities && w.entities[k].kind != MissileKind ==>
        k in r.entities && r.entities[k] == TurnOf(w.entities[k], w.sockets, trig)
  {
    IdsBelowSpec(w.entities, w.nextId);
    var keys := IdsBelow(w.entities, w.nextId);
    var p0 := Pass(w.entities, w.sockets, []);
    var p := EntityPass(p0, keys, trig);
    EntityPassValues(p0, keys, trig);
    EntityPassIds(p0, keys, trig, w.nextId);
    EntityPassKinds(p0, keys, trig);
    EntityPassChildren(p0, keys, trig);
    ChildPassKeeps(Spawn(p.entities, w.nextId), p.children);
  }

  /** A tick keeps an ordered queue ordered and never lowers `applied`. */
  lemma TickOrdered(w: World, trig: Trig, i: nat)
    requires Consistent(w) && i < |w.sockets| && Ordered(w.sockets[i])
    ensures i < |Tick(w, trig).sockets|
    ensures Ordered(Tick(w, trig).sockets[i])
    ensures Tick(w, trig).sockets[i].applied >= w.sockets[i].applied
  {
    TickSockets(w, trig);
    TurnOrdered(w.sockets[i]);
  }

  /** Any run of ticks keeps the host consistent, never lowers the id counter and never
      reuses an id. */
  lemma TicksConsistent(w: World, n: nat, trig: Trig)
    requires Consistent(w)
    ensures var r := Ticks(w, n, trig);
      && Consistent(r)
      && r.nextId >= w.nextId
      && (forall k :: k in r.entities && k !in w.entities ==> k >= w.nextId)
  {
    var inv := (x: World) =>
      && Consistent(x)
      && x.nextId >= w.nextId
      && (forall k :: k in x.entities && k !in w.entities ==> k >= w.nextId);
    forall x | inv(x) ensures inv(TickStep(trig)(x)) {
      TickConsistent(x, trig);
      TickFresh(x, trig);
    }
    IterateInvariant(w, n, TickStep(trig), inv);
  }

  /** Any run of ticks keeps the clients, in order and in their readyStates, and deletes
      only Missiles. */
  lemma TicksKeep(w: World, n: nat, trig: Trig)
    requires Consistent(w)
    ensures var r := Ticks(w, n, trig);
      && SameSockets(w.sockets, r.sockets)
      && (forall k :: k in w.entities && w.entities[k].kind != MissileKind ==> k in r.entities && r.entities[k].kind == w.entities[k].kind)
  {
    var inv := (x: World) =>
      && Consistent(x)
      && SameSockets(w.sockets, x.sockets)
      && (forall k :: k in w.entities && w.entities[k].kind != MissileKind ==> k in x.entities && x.entities[k].kind == w.entities[k].kind);
    forall x | inv(x) ensures inv(TickStep(trig)(x)) {
      KeepStep(w, x, trig);
    }
    IterateInvariant(w, n, TickStep(trig), inv);
  }

  /** One tick of `TicksKeep`: what holds of w and x still holds of w and the next tick. */
  lemma KeepStep(w: World, x: World, trig: Trig)
    requires Consistent(x) && SameSockets(w.sockets, x.sockets)
    requires forall k :: k in w.entities && w.entities[k].kind != MissileKind ==> k in x.entities && x.entities[k].kind == w.entities[k].kind
    ensures var r := Tick(x, trig);
      && Consistent(r)
      && SameSockets(w.sockets, r.sockets)
      && (forall k :: k in w.entities && w.entities[k].kind != MissileKind ==> k in r.entities && r.entities[k].kind == w.entities[k].kind)
  {
    TickConsistent(x, trig);
    TickSockets(x, trig);
    TickKeepsShips(x, trig);
  }

  /** When a socket's inputs arrive in order, its `applied` never goes down across any run
      of ticks, and the queue stays ordered. */
  lemma TicksApplied(w: World, n: nat, trig: Trig, i: nat)
    requires Consistent(w) && i < |w.sockets| && Ordered(w.sockets[i])
    ensures i < |Ticks(w, n, trig).sockets|
    ensures Ordered(Ticks(w, n, trig).sockets[i])
    ensures Ticks(w, n, trig).sockets[i].applied >= w.sockets[i].applied
  {
    var inv := (x: World) =>
      Consistent(x) && i < |x.sockets| && Ordered(x.sockets[i]) && x.sockets[i].applied >= w.sockets[i].applied;
    forall x | inv(x) ensures inv(TickStep(trig)(x)) {
      TickConsistent(x, trig);
      TickOrdered(x, trig, i);
    }
    IterateInvariant(w, n, TickStep(trig), inv);
  }

  // ---------------------------------------------------------------- broadcast

  /** A state message sent to the socket with this id. */
  datatype Sent = Sent(socket: int, state: Snapshot)

  /** The entities as the state message carries them: each one's properties, by id. */
  function States(entities: map<int, Body>): (r: map<int, State>)
    ensures r.Keys == entities.Keys
    ensures forall k :: k in r ==> r[k] == entities[k].state
  {
    map k | k in entities :: entities[k].state
  }

  /** The OPEN sockets, in socket order. */
  function OpenSockets(sockets: seq<Socket>): (r: seq<Socket>)
    ensures |r| <= |sockets|
    ensures forall i :: 0 <= i < |r| ==> r[i].open
  {
    if sockets == [] then []
    else
      var last := sockets[|sockets| - 1];
      var init := sockets[..|sockets| - 1];
      OpenSockets(init) + (if last.open then [last] else [])
  }

  /** `OpenSockets` keeps each OPEN socket as often as it occurs, and no other. */
  lemma {:induction false} OpenSocketsCount(sockets: seq<Socket>)
    ensures forall s :: multiset(OpenSockets(sockets))[s] == if s.open then multiset(sockets)[s] else 0
    decreases |sockets|
  {
    if sockets != [] {
      var last := sockets[|sockets| - 1];
      var init := sockets[..|sockets| - 1];
      assert sockets == init + [last];
      OpenSocketsCount(init);
    }
  }

  /** The state message for one socket. */
  function StateFor(s: Socket, time: real, entities: map<int, Body>): Sent {
    Sent(s.id, Snapshot(time, States(entities), s.applied))
  }

  /** One state message for each OPEN socket, in socket order, each carrying the same
      time and entities and that socket's own `applied`. */
  function Broadcast(sockets: seq<Socket>, time: real, entities: map<int, Body>): (r: seq<Sent>)
    ensures |r| == |OpenSockets(sockets)|
    ensures forall i :: 0 <= i < |r| ==> r[i] == StateFor(OpenSockets(sockets)[i], time, entities)
  {
    if sockets == [] then []
    else
      var last := sockets[|sockets| - 1];
      var init := sockets[..|sockets| - 1];
      Broadcast(init, time, entities) + (if last.open then [StateFor(last, time, entities)] else [])
  }

  /** Every message goes to an OPEN socket, and every OPEN socket gets its message. */
  lemma BroadcastMembers(sockets: seq<Socket>, time: real, entities: map<int, Body>)
    ensures var r := Broadcast(sockets, time, entities);
      && (forall m :: m in r ==> exists s :: s in sockets && s.open && m == StateFor(s, time, entities))
      && (forall s :: s in sockets && s.open ==> StateFor(s, time, entities) in r)
  {
    var r := Broadcast(sockets, time, entities);
    var o := OpenSockets(sockets);
    OpenSocketsCount(sockets);
    forall m | m in r ensures exists s :: s in sockets && s.open && m == StateFor(s, time, entities) {
      var i :| 0 <= i < |r| && r[i] == m;
      assert o[i] in multiset(o);
      assert o[i].open && o[i] in sockets;
    }
    forall s | s in sockets && s.open ensures StateFor(s, time, entities) in r {
      assert s in multiset(o);
      var i :| 0 <= i < |o| && o[i] == s;
      assert r[i] == StateFor(s, time, entities);
    }
  }

  /** The number of times `update`'s tick loop runs: none when the count is negative. */
  function LoopCount(q: Quantum): nat {
    if q.ticks > 0 then q.ticks else 0
  }

  // ---------------------------------------------------------------- the host object

  class Host {
    var entities: map<int, Body>
    var sockets: seq<Socket>
    var nextId: nat
    /** The simulation clock, in milliseconds. */
    var time: real

    function Current(): World
      reads this
    {
      World(entities, sockets, nextId)
    }

    ghost predicate Valid()
      reads this
    {
      Consistent(Current())
    }

    /** A host with no entities and no clients whose clock reads `now`. */
    constructor (now: real)
      ensures Current() == World(map[], [], 0) && time == now
      ensures Valid()
    {
      entities := map[];
      sockets := [];
      nextId := 0;
      time := now;
    }

    /** The `connection` handler; returns the id the hello message carries. */
    method Connect() returns (hello: int)
      requires Valid()
      modifies this
      ensures Current() == Connected(old(Current())) && time == old(time)
      ensures hello == old(nextId)
      ensures Valid()
    {
      ConnectedFresh(Current());
      hello := nextId;
      nextId := nextId + 1;
      entities := entities[hello := Ship.New(EMPTY.(id := Some(hello)))];
      sockets := sockets + [Socket(hello, true, [], 0, 0)];
    }

    /** The `message` handler of the socket with this id. */
    method Receive(id: int, input: Input)
      requires Valid()
      modifies this
      ensures Current() == old(Current()).(sockets := Received(old(sockets), id, input)) && time == old(time)
      ensures Valid()
    {
      ReceivedConsistent(Current(), id, input);
      sockets := Received(sockets, id, input);
    }

    /** The socket with this id leaves the OPEN state; it stays a client until it closes. */
    method StartClosing(id: int)
      requires Valid()
      modifies this
      ensures Current() == old(Current()).(sockets := Closing(old(sockets), id)) && time == old(time)
      ensures Valid()
    {
      ClosingConsistent(Current(), id);
      sockets := Closing(sockets, id);
    }

    /** The `close` handler, together with the server dropping the client. */
    method Close(id: int)
      requires Valid()
      modifies this
      ensures Current() == Closed(old(Current()), id) && time == old(time)
      ensures Valid()
    {
      ClosedConsistent(Current(), id);
      entities := entities - {id};
      sockets := Without(sockets, id);
    }

    /** `update()` at clock reading `now`: advance the clock by whole ticks; with no
        clients stop there; otherwise run the ticks and send each OPEN socket its state. */
    method Update(now: real, trig: Trig) returns (sent: seq<Sent>)
      requires Valid()
      modifies this
      ensures Valid()
      ensures time == Quantise(old(time), now).time
      ensures old(sockets) == [] ==> Current() == old(Current()) && sent == []
      ensures old(sockets) != [] ==> Current() == Ticks(old(Current()), LoopCount(Quantise(old(time), now)), trig)
      ensures old(sockets) != [] ==> sent == Broadcast(sockets, time, entities)
    {
      var q := Quantise(time, now);
      time := q.time;
      if |sockets| == 0 {
        return [];
      }
      TicksConsistent(Current(), LoopCount(q), trig);
      RunTicks(q.ticks, trig);
      sent := SendStates();
    }

    /** The tick loop of `update`, which runs `n` times (not at all when n <= 0). */
    method RunTicks(n: int, trig: Trig)
      modifies this
      ensures Current() == Ticks(old(Current()), if n > 0 then n else 0, trig)
      ensures time == old(time)
    {
      ghost var start := Current();
      var t := 0;
      while t < n
        invariant 0 <= t <= (if n > 0 then n else 0)
        invariant Current() == Ticks(start, t, trig)
        invariant time == old(time)
      {
        RunTick(trig);
        t := t + 1;
      }
      assert t == if n > 0 then n else 0;
    }

    /** The broadcast at the end of `update`. */
    method SendStates() returns (sent: seq<Sent>)
      ensures sent == Broadcast(sockets, time, entities)
    {
      sent := [];
      var i := 0;
      while i < |sockets|
        invariant 0 <= i <= |sockets|
        invariant sent == Broadcast(sockets[..i], time, entities)
      {
        assert sockets[..i + 1][..i] == sockets[..i];
        var s := sockets[i];
        if s.open {
          sent := sent + [StateFor(s, time, entities)];
        }
        i := i + 1;
      }
      assert sockets[..i] == sockets;
    }

    /** One iteration of `update`'s tick loop. */
    method RunTick(trig: Trig)
      modifies this
      ensures Current() == Tick(old(Current()), trig)
      ensures time == old(time)
    {
      IdsBelowSpec(entities, nextId);
      var keys := IdsBelow(entities, nextId);
      ghost var start := Pass(entities, sockets, []);
      var children: seq<Body> := [];
      var i := 0;
      while i < |keys|
        invariant 0 <= i <= |keys|
        invariant entities.Keys == start.entities.Keys
        invariant EntityPass(Pass(entities, sockets, children), keys[i..], trig) == EntityPass(start, keys, trig)
        invariant nextId == old(nextId) && time == old(time)
      {
        children := StepKey(keys[i], children, trig);
        assert keys[i..][1..] == keys[i + 1..];
        i := i + 1;
      }
      // The all-pairs `interact` pass calls only empty methods.
      ghost var spawned := Spawn(entities, nextId);
      var c := 0;
      while c < |children|
        invariant 0 <= c <= |children|
        invariant ChildPass(Spawn(entities, nextId), children[c..]) == ChildPass(spawned, children)
        invariant sockets == EntityPass(start, keys, trig).sockets && time == old(time)
      {
        SpawnChild(children[c]);
        assert children[c..][1..] == children[c + 1..];
        c := c + 1;
      }
    }

    /** One iteration of the entity loop, for the entity under `key`. */
    method StepKey(key: int, children: seq<Body>, trig: Trig) returns (more: seq<Body>)
      requires key in entities
      modifies this
      ensures Pass(entities, sockets, more) == StepEntity(Pass(old(entities), old(sockets), children), key, trig)
      ensures nextId == old(nextId) && time == old(time)
    {
      more := children;
      var en := entities[key];
      var found := FindSocket(sockets, en.state.id);
      if found.None? {
        var o := Entities.Simulated(en, TICK, map[], trig);
        entities := entities[key := o.self];
        more := more + o.children;
        return;
      }
      var s := sockets[found.value];
      if |s.inputs| > 0 {
        var input := s.inputs[0];
        s := s.(inputs := s.inputs[1..]);
        if input.z != 0 && s.appliedNulls > 0 {
          s := s.(appliedNulls := s.appliedNulls - 1);
        } else {
          var o := Entities.Simulated(en, TICK, input.keys, trig);
          entities := entities[key := o.self];
          more := more + o.children;
          s := s.(appliedNulls := 0);
        }
        s := s.(applied := input.n);
      } else {
        var o := Entities.Simulated(en, TICK, map[], trig);
        entities := entities[key := o.self];
        more := more + o.children;
        s := s.(appliedNulls := s.appliedNulls + 1);
      }
      sockets := sockets[found.value := s];
    }

    /** One iteration of the children loop. */
    method SpawnChild(child: Body)
      modifies this
      ensures Spawn(entities, nextId) == AddChild(Spawn(old(entities), old(nextId)), child)
      ensures sockets == old(sockets) && time == old(time)
    {
      var id := child.state.id;
      if id.Some? && id.value != 0 && id.value in entities {
        entities := entities - {id.value};
      } else {
        entities := entities[nextId := child.(state := child.state.(id := Some(nextId)))];
        nextId := nextId + 1;
      }
    }
  }
}
