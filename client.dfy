/** public/src/client.mjs: the client's fixed-step input queue, its playback buffer of
    authoritative snapshots, the reconciliation of its entity objects with the newest
    snapshots, and the local prediction of the entity it controls. The functions state
    what each step computes; the class `Client` performs the steps in place. */
module Client {
  import opened Js
  import opened Records
  import opened Clock
  import Keyboard
  import Entities

  /** How far, in milliseconds, the playback clock may trail the newest snapshot. */
  const MAX_LAG: real := 200.0
  /** The most unacknowledged inputs the client keeps. */
  const INPUT_LIMIT: nat := 32

  // ---------------------------------------------------------------- input queue

  /** The unacknowledged inputs and the next sequence number. */
  datatype Queue = Queue(inputs: seq<Input>, sequence: int)

  /** `Object.keys(keys).length ? 0 : 1`: 1 exactly when no key is held. */
  function NullFlag(keys: map<Keyboard.Key, int>): (z: int)
    ensures z == 0 || z == 1
    ensures z == 1 <==> forall k :: k !in keys
  {
    if |keys| > 0 then
      var k :| k in keys;
      0
    else 1
  }

  /** With the keyboard's state, z is 1 exactly when no key is down. */
  lemma NullWhenNoKeyDown(state: map<Keyboard.Key, bool>)
    ensures NullFlag(Keyboard.Pressed(state)) == 1 <==> forall k :: k in state ==> !state[k]
  {
    var p := Keyboard.Pressed(state);
    if NullFlag(p) == 1 {
      forall k | k in state ensures !state[k] {
        assert k !in p;
      }
    }
  }

  /** The inputs carry consecutive sequence numbers that end just below `sequence`. */
  predicate Consecutive(inputs: seq<Input>, sequence: int) {
    forall i :: 0 <= i < |inputs| ==> inputs[i].n == sequence - |inputs| + i
  }

  /** Consecutive inputs have strictly increasing sequence numbers, all below
      `sequence`. */
  lemma ConsecutiveIncreasing(inputs: seq<Input>, sequence: int)
    requires Consecutive(inputs, sequence)
    ensures forall i, j :: 0 <= i < j < |inputs| ==> inputs[i].n < inputs[j].n
    ensures forall i :: 0 <= i < |inputs| ==> inputs[i].n < sequence
  {
  }

  /** One iteration of the input loop: when there is room, the input for this tick is
      stored (and sent) under the next sequence number, which then advances. */
  function Push(q: Queue, keys: map<Keyboard.Key, int>): Queue {
    if |q.inputs| < INPUT_LIMIT then
      Queue(q.inputs + [Input(keys, q.sequence, NullFlag(keys))], q.sequence + 1)
    else q
  }

  /** The input loop run for `ticks` ticks with the same held keys. It only appends, each
      new input carries those keys, the null flag and the next sequence number, and the
      sequence number advances once per input stored. */
  function Enqueue(q: Queue, keys: map<Keyboard.Key, int>, ticks: int): (r: Queue)
    ensures q.inputs <= r.inputs
    ensures r.sequence - q.sequence == |r.inputs| - |q.inputs|
    ensures forall i :: |q.inputs| <= i < |r.inputs| ==>
      r.inputs[i] == Input(keys, q.sequence + (i - |q.inputs|), NullFlag(keys))
    decreases if ticks > 0 then ticks else 0
  {
    if ticks <= 0 then q else Push(Enqueue(q, keys, ticks - 1), keys)
  }

  /** The input loop stores one input per tick until the queue holds INPUT_LIMIT; a full
      queue stores nothing more. It keeps the queue consecutive. */
  lemma {:induction false} EnqueueCount(q: Queue, keys: map<Keyboard.Key, int>, ticks: int)
    requires |q.inputs| <= INPUT_LIMIT
    requires Consecutive(q.inputs, q.sequence)
    ensures var r := Enqueue(q, keys, ticks);
      && |r.inputs| == (if ticks <= 0 then |q.inputs| else if |q.inputs| + ticks < INPUT_LIMIT then |q.inputs| + ticks else INPUT_LIMIT)
      && Consecutive(r.inputs, r.sequence)
    decreases if ticks > 0 then ticks else 0
  {
    if ticks > 0 {
      EnqueueCount(q, keys, ticks - 1);
    }
  }

  /** The tick loop of `processInput`, for `ticks` ticks with the held keys `pressed`:
      it stores and returns one input per tick while the queue has room. */
  method StoreLoop(q: Queue, pressed: map<Keyboard.Key, int>, ticks: int) returns (r: Queue, sent: seq<Input>)
    ensures r == Enqueue(q, pressed, ticks)
    ensures sent == r.inputs[|q.inputs|..]
  {
    var isNull := NullFlag(pressed);
    var inputs := q.inputs;
    var sequence := q.sequence;
    sent := [];
    var t := 0;
    while t < ticks
      invariant 0 <= t <= (if ticks > 0 then ticks else 0)
      invariant Queue(inputs, sequence) == Enqueue(q, pressed, t)
      invariant sent == inputs[|q.inputs|..]
    {
      if |inputs| < INPUT_LIMIT {
        var input := Input(pressed, sequence, isNull);
        sequence := sequence + 1;
        inputs := inputs + [input];
        sent := sent + [input];
      }
      t := t + 1;
    }
    r := Queue(inputs, sequence);
  }

  // ---------------------------------------------------------------- messages

  /** A message from the host: `hello` with the client's id (and a name, which the host
      never sends), `state` with a snapshot, or any other type, which is ignored. */
  datatype Message = Hello(id: Option<int>, name: Option<string>) | StateMessage(state: Snapshot) | Other

  /** The id and name the client knows itself by. */
  datatype Greeting = Greeting(id: Option<int>, name: Option<string>)

  /** The snapshots of the state messages, in arrival order. */
  function Snapshots(msgs: seq<Message>): (r: seq<Snapshot>)
    ensures |r| <= |msgs|
  {
    if msgs == [] then []
    else
      var init := msgs[..|msgs| - 1];
      var last := msgs[|msgs| - 1];
      Snapshots(init) + (if last.StateMessage? then [last.state] else [])
  }

  /** The snapshots of two batches are those of the first followed by those of the
      second: `push` keeps arrival order and multiplicity. */
  lemma {:induction false} SnapshotsAppend(a: seq<Message>, b: seq<Message>)
    ensures Snapshots(a + b) == Snapshots(a) + Snapshots(b)
    decreases |b|
  {
    if b != [] {
      var init := b[..|b| - 1];
      assert (a + b)[..|a + b| - 1] == a + init;
      assert (a + b)[|a + b| - 1] == b[|b| - 1];
      SnapshotsAppend(a, init);
    } else {
      assert a + b == a;
    }
  }

  /** The history gains the snapshot of every state message and nothing else. */
  lemma {:induction false} SnapshotsMembers(msgs: seq<Message>)
    ensures forall s :: s in Snapshots(msgs) <==> StateMessage(s) in msgs
    decreases |msgs|
  {
    if msgs != [] {
      var init := msgs[..|msgs| - 1];
      var last := msgs[|msgs| - 1];
      SnapshotsMembers(init);
      assert msgs == init + [last];
    }
  }

  /** The id and name after the messages: those of the last hello, and `g` when there is
      none. */
  function Greeted(msgs: seq<Message>, g: Greeting): Greeting {
    if msgs == [] then g
    else
      var init := msgs[..|msgs| - 1];
      var last := msgs[|msgs| - 1];
      if last.Hello? then Greeting(last.id, last.name) else Greeted(init, g)
  }

  /** Without a hello the client keeps its id and name; otherwise the last hello's id
      and name win. */
  lemma {:induction false} GreetedLastHello(msgs: seq<Message>, g: Greeting)
    ensures (forall i :: 0 <= i < |msgs| ==> !msgs[i].Hello?) ==> Greeted(msgs, g) == g
    ensures forall i :: 0 <= i < |msgs| && msgs[i].Hello? && (forall j :: i < j < |msgs| ==> !msgs[j].Hello?) ==>
      Greeted(msgs, g) == Greeting(msgs[i].id, msgs[i].name)
    decreases |msgs|
  {
    if forall i :: 0 <= i < |msgs| ==> !msgs[i].Hello? {
      GreetedNoHello(msgs, g);
    }
    forall i | 0 <= i < |msgs| && msgs[i].Hello? && (forall j :: i < j < |msgs| ==> !msgs[j].Hello?)
      ensures Greeted(msgs, g) == Greeting(msgs[i].id, msgs[i].name)
    {
      GreetedFrom(msgs, g, i);
    }
  }

  lemma {:induction false} GreetedNoHello(msgs: seq<Message>, g: Greeting)
    requires forall i :: 0 <= i < |msgs| ==> !msgs[i].Hello?
    ensures Greeted(msgs, g) == g
    decreases |msgs|
  {
    if msgs != [] {
      var init := msgs[..|msgs| - 1];
      assert forall i :: 0 <= i < |init| ==> init[i] == msgs[i];
      GreetedNoHello(init, g);
    }
  }

  lemma {:induction false} GreetedFrom(msgs: seq<Message>, g: Greeting, i: int)
    requires 0 <= i < |msgs| && msgs[i].Hello?
    requires forall j :: i < j < |msgs| ==> !msgs[j].Hello?
    ensures Greeted(msgs, g) == Greeting(msgs[i].id, msgs[i].name)
    decreases |msgs|
  {
    if i < |msgs| - 1 {
      var init := msgs[..|msgs| - 1];
      assert forall j :: 0 <= j < |init| ==> init[j] == msgs[j];
      GreetedFrom(init, g, i);
    }
  }

  // ---------------------------------------------------------------- playback clock

  /** The playback clock before it advances: a clock still at 0 starts at the oldest
      snapshot's time. */
  function PlaybackStart(historyTime: real, oldest: real): real {
    if historyTime == 0.0 then oldest else historyTime
  }

  /** `Math.max(start + delta, newest - MAX_LAG)`: the clock advances by the frame's
      duration, but never trails the newest snapshot by more than MAX_LAG. */
  function PlaybackTime(start: real, delta: real, newest: real): (r: real)
    ensures r >= start + delta && r >= newest - MAX_LAG
    ensures r == start + delta || r == newest - MAX_LAG
  {
    Max(start + delta, newest - MAX_LAG)
  }

  /** `history.slice(-2)`: the two newest snapshots, or all of them when there are fewer. */
  function LastTwo(history: seq<Snapshot>): (r: seq<Snapshot>)
    ensures |r| == if |history| < 2 then |history| else 2
    ensures r == history[|history| - |r|..]
  {
    if |history| <= 2 then history else history[|history| - 2..]
  }

  /** `(historyTime - prev.time) / (next.time - prev.time)`: where the playback clock lies
      between the two snapshots, as a fraction. Equal snapshot times give NaN or an
      infinity, both `None` here. */
  function Tween(historyTime: real, prev: Snapshot, next: Snapshot): (r: Num)
    ensures r.None? <==> prev.time == next.time
    ensures r.Some? ==> prev.time + r.value * (next.time - prev.time) == historyTime
  {
    if prev.time == next.time then None
    else
      var d := next.time - prev.time;
      assert ((historyTime - prev.time) / d) * d == historyTime - prev.time;
      Some((historyTime - prev.time) / d)
  }

  /** The fraction is 0 at the older snapshot and 1 at the newer. */
  lemma TweenEnds(historyTime: real, prev: Snapshot, next: Snapshot)
    requires prev.time < next.time
    ensures Tween(historyTime, prev, next).Some?
    ensures historyTime == prev.time ==> Tween(historyTime, prev, next).value == 0.0
    ensures historyTime == next.time ==> Tween(historyTime, prev, next).value == 1.0
  {
    var d := next.time - prev.time;
    assert Tween(historyTime, prev, next).value == (historyTime - prev.time) / d;
    if historyTime == prev.time {
      assert (historyTime - prev.time) / d == 0.0 / d == 0.0;
    }
    if historyTime == next.time {
      assert (historyTime - prev.time) / d == d / d == 1.0;
    }
  }

  /** With the playback clock between the two snapshots, the fraction lies in [0, 1]. */
  lemma TweenInRange(historyTime: real, prev: Snapshot, next: Snapshot)
    requires prev.time <= historyTime <= next.time && prev.time < next.time
    ensures 0.0 <= Tween(historyTime, prev, next).value <= 1.0
  {
    var d := next.time - prev.time;
    var e := historyTime - prev.time;
    assert Tween(historyTime, prev, next).value == e / d;
    DivideBounded(e, d);
  }

  lemma DivideBounded(e: real, d: real)
    requires 0.0 <= e <= d && d > 0.0
    ensures 0.0 <= e / d <= 1.0
  {
    assert (e / d) * d == e;
    ScaleSign(e / d, d);
  }

  lemma ScaleSign(y: real, d: real)
    requires d > 0.0
    ensures y < 0.0 ==> y * d < 0.0
    ensures y > 1.0 ==> y * d > d
  {
  }

  // ---------------------------------------------------------------- entities

  /** `entities[id]` for a possibly undefined id. */
  function Lookup(entities: map<int, State>, id: Option<int>): (r: Option<State>)
    ensures r.Some? <==> id.Some? && id.value in entities
    ensures r.Some? ==> r.value == entities[id.value]
  {
    if id.Some? && id.value in entities then Some(entities[id.value]) else None
  }

  /** The object `matchOrCreate` builds for a state it has no object for: a Ship for type
      1, a Missile for type 2, nothing for any other type. */
  function Created(s: State): (r: Option<Body>)
    ensures r.Some? <==> s.t == Some(1) || s.t == Some(2)
    ensures r.Some? ==> r.value.kind == (if s.t == Some(1) then ShipKind else MissileKind)
    ensures r.Some? ==> Props(r.value.state) == Props(Entities.DefaultsOf(r.value.kind)) + Props(s)
  {
    if s.t == Some(1) then Some(Entities.New(ShipKind, s))
    else if s.t == Some(2) then Some(Entities.New(MissileKind, s))
    else None
  }

  /** `matchOrCreate(entities, states)` on values: one entry per id of `states` that
      already has an object or whose type can be created. */
  function Matched(bodies: map<int, Body>, states: map<int, State>): map<int, Body> {
    map id | id in states && (id in bodies || Created(states[id]).Some?) ::
      if id in bodies then bodies[id] else Created(states[id]).value
  }

  /** The ids kept are exactly the snapshot's ids that have an object or a creatable type:
      ids missing from the snapshot are dropped, existing objects are kept as they are,
      and a second reconciliation with the same snapshot changes nothing. */
  lemma MatchedSpec(bodies: map<int, Body>, states: map<int, State>)
    ensures var r := Matched(bodies, states);
      && (forall id :: id in r <==> id in states && (id in bodies || states[id].t == Some(1) || states[id].t == Some(2)))
      && (forall id :: id in r && id in bodies ==> r[id] == bodies[id])
      && Matched(r, states) == r
  {
    var r := Matched(bodies, states);
    assert Matched(r, states).Keys == r.Keys;
  }

  /** What one entity does in `updateEntities`: the controlled entity (the one whose id is
      the client's, compared as `===`, so an undefined id matches an undefined id) takes the
      newest snapshot's state; any other is interpolated between the two snapshots, or
      takes the newest state when interpolation is off. */
  function PlayOne(b: Body, prev: Snapshot, next: Snapshot, tween: Num, id: Option<int>, interpolation: bool): (r: Body)
    ensures r.kind == b.kind
    ensures b.state.id == id || !interpolation ==>
      Props(r.state) == Props(b.state) + Props(Lookup(next.entities, b.state.id).GetOr(EMPTY))
    ensures b.state.id != id && interpolation && !(b.state.id.Some? && b.state.id.value in prev.entities && b.state.id.value in next.entities) ==>
      r == b
    ensures b.state.id != id && interpolation ==>
      r == Entities.Interpolated(b, Lookup(prev.entities, b.state.id), Lookup(next.entities, b.state.id), tween).self
  {
    if b.state.id == id then Entities.WithState(b, Lookup(next.entities, b.state.id))
    else if interpolation then
      Entities.Interpolated(b, Lookup(prev.entities, b.state.id), Lookup(next.entities, b.state.id), tween).self
    else Entities.WithState(b, Lookup(next.entities, b.state.id))
  }

  /** `updateEntities` after reconciliation: every entity does what `PlayOne` says, each
      independently of the others. */
  function Played(bodies: map<int, Body>, prev: Snapshot, next: Snapshot, tween: Num, id: Option<int>, interpolation: bool): (r: map<int, Body>)
    ensures r.Keys == bodies.Keys
  {
    map k | k in bodies :: PlayOne(bodies[k], prev, next, tween, id, interpolation)
  }

  // ---------------------------------------------------------------- prediction

  /** `inputs.filter(i => i.n > acked)`. */
  function Unacked(inputs: seq<Input>, acked: int): (r: seq<Input>)
    ensures |r| <= |inputs|
  {
    if inputs == [] then []
    else (if inputs[0].n > acked then [inputs[0]] else []) + Unacked(inputs[1..], acked)
  }

  /** Pruning keeps exactly the inputs numbered above `acked`. */
  lemma {:induction false} UnackedMembers(inputs: seq<Input>, acked: int)
    ensures forall x :: x in Unacked(inputs, acked) <==> x in inputs && x.n > acked
    decreases |inputs|
  {
    if inputs != [] {
      UnackedMembers(inputs[1..], acked);
      UnackedCons(inputs, acked);
      assert inputs == [inputs[0]] + inputs[1..];
    }
  }

  /** How many inputs of a consecutive run whose first input is numbered `first` are
      acknowledged by `acked`. */
  function AckedCount(first: int, acked: int, len: nat): (k: nat)
    ensures k <= len
  {
    if acked < first then 0 else if acked - first + 1 > len then len else acked - first + 1
  }

  /** The tail of a consecutive queue is consecutive. */
  lemma ConsecutiveTail(inputs: seq<Input>, sequence: int)
    requires Consecutive(inputs, sequence) && inputs != []
    ensures Consecutive(inputs[1..], sequence)
  {
    var rest := inputs[1..];
    forall i | 0 <= i < |rest| ensures rest[i].n == sequence - |rest| + i {
      assert rest[i] == inputs[i + 1];
    }
  }

  /** On a consecutive queue, pruning keeps a suffix: the inputs numbered above `acked`,
      in their original order. */
  lemma {:induction false} PruneSuffix(inputs: seq<Input>, sequence: int, acked: int)
    requires Consecutive(inputs, sequence)
    ensures Unacked(inputs, acked) == inputs[AckedCount(sequence - |inputs|, acked, |inputs|)..]
    decreases |inputs|
  {
    if inputs != [] {
      ConsecutiveTail(inputs, sequence);
      PruneSuffix(inputs[1..], sequence, acked);
      PruneStep(inputs, sequence - |inputs|, acked);
    }
  }

  /** One step of `PruneSuffix`: if pruning the tail of a run starting at `first` keeps a
      suffix, so does pruning the whole run. */
  lemma PruneStep(inputs: seq<Input>, first: int, acked: int)
    requires inputs != [] && inputs[0].n == first
    requires Unacked(inputs[1..], acked) == inputs[1..][AckedCount(first + 1, acked, |inputs| - 1)..]
    ensures Unacked(inputs, acked) == inputs[AckedCount(first, acked, |inputs|)..]
  {
    var rest := inputs[1..];
    UnackedCons(inputs, acked);
    if first > acked {
      assert rest[0..] == rest;
      assert [inputs[0]] + rest == inputs;
    } else {
      AckedStep(first, acked, |rest|);
      var k := AckedCount(first + 1, acked, |rest|);
      assert rest[k..] == inputs[k + 1..];
    }
  }

  lemma UnackedCons(inputs: seq<Input>, acked: int)
    requires inputs != []
    ensures Unacked(inputs, acked) ==
      if inputs[0].n > acked then [inputs[0]] + Unacked(inputs[1..], acked) else Unacked(inputs[1..], acked)
  {
    assert [] + Unacked(inputs[1..], acked) == Unacked(inputs[1..], acked);
  }

  lemma AckedStep(first: int, acked: int, len: nat)
    requires first <= acked
    ensures AckedCount(first, acked, len + 1) == AckedCount(first + 1, acked, len) + 1
  {
  }

  /** Every suffix of a consecutive queue is consecutive, so pruning keeps the queue
      consecutive. */
  lemma PruneConsecutive(inputs: seq<Input>, sequence: int, acked: int)
    requires Consecutive(inputs, sequence)
    ensures Consecutive(Unacked(inputs, acked), sequence)
  {
    PruneSuffix(inputs, sequence, acked);
    var k := AckedCount(sequence - |inputs|, acked, |inputs|);
    var r := inputs[k..];
    forall i | 0 <= i < |r| ensures r[i].n == sequence - |r| + i {
      assert r[i] == inputs[k + i];
    }
  }

  /** A fresh socket acknowledges sequence number 0 before the host has applied anything,
      so the client's very first input, numbered 0, is pruned without ever having been
      applied. */
  lemma FirstInputPruned(inputs: seq<Input>)
    requires Consecutive(inputs, |inputs|)
    requires |inputs| > 0
    ensures inputs[0].n == 0
    ensures Unacked(inputs, 0) == inputs[1..]
  {
    PruneSuffix(inputs, |inputs|, 0);
    assert AckedCount(0, 0, |inputs|) == 1;
  }

  /** The controlled entity simulated once per input, oldest first, with that input's
      keys, for one tick each. It keeps its class and its id. */
  function Replay(b: Body, inputs: seq<Input>, trig: Trig): (r: Body)
    ensures r.kind == b.kind && r.state.id == b.state.id
    decreases |inputs|
  {
    if inputs == [] then b
    else Replay(Entities.Simulated(b, TICK, inputs[0].keys, trig).self, inputs[1..], trig)
  }

  /** Replaying two runs of inputs one after the other is replaying them joined. */
  lemma {:induction false} ReplayAppend(b: Body, xs: seq<Input>, ys: seq<Input>, trig: Trig)
    ensures Replay(b, xs + ys, trig) == Replay(Replay(b, xs, trig), ys, trig)
    decreases |xs|
  {
    if xs != [] {
      assert (xs + ys)[0] == xs[0] && (xs + ys)[1..] == xs[1..] + ys;
      ReplayAppend(Entities.Simulated(b, TICK, xs[0].keys, trig).self, xs[1..], ys, trig);
    } else {
      assert xs + ys == ys;
    }
  }

  // ---------------------------------------------------------------- render times

  /** The clock values `render` hands the view: playback, predicted and latest time. */
  datatype Times = Times(history: real, predict: real, latest: real)

  /** With two snapshots, the predicted time leads the newest snapshot by one tick for
      each unacknowledged input. */
  function RenderTimes(history: seq<Snapshot>, historyTime: real, inputs: seq<Input>): (r: Option<Times>)
    ensures r.None? <==> |history| < 2
    ensures r.Some? ==> r.value.latest == history[1].time && r.value.history == historyTime
    ensures r.Some? ==> r.value.predict - r.value.latest == (|inputs| as real) * TICK
  {
    if |history| < 2 then None
    else Some(Times(historyTime, history[1].time + (|inputs| as real) * TICK, history[1].time))
  }

  /** With the queue capped, prediction runs at most INPUT_LIMIT ticks ahead. */
  lemma PredictHorizon(history: seq<Snapshot>, historyTime: real, inputs: seq<Input>)
    requires |history| >= 2 && |inputs| <= INPUT_LIMIT
    ensures var r := RenderTimes(history, historyTime, inputs).value;
      r.latest <= r.predict <= r.latest + (INPUT_LIMIT as real) * TICK
  {
  }

  /** `between(n, lower, upper)`: n clamped into [lower, upper]. */
  function Between(n: real, lower: real, upper: real): (r: real)
    ensures lower <= upper ==> lower <= r <= upper
    ensures lower <= n <= upper ==> r == n
    ensures n < lower ==> r == Min(lower, upper)
    ensures n > upper ==> r == upper
  {
    Min(Max(n, lower), upper)
  }

  // ---------------------------------------------------------------- the client object

  /** No two ids share an entity object. */
  predicate Injective(entities: map<int, Entities.Entity>) {
    forall i, j :: i in entities && j in entities && i != j ==> entities[i] != entities[j]
  }

  /** The entity objects as values. */
  ghost function BodiesOf(entities: map<int, Entities.Entity>): (r: map<int, Body>)
    reads entities.Values
    ensures r.Keys == entities.Keys
  {
    map k | k in entities :: entities[k].Value()
  }

  /** `matchOrCreate(entities, states)`: reuses the object of every id it keeps and builds
      a fresh one for each creatable state without one. */
  method MatchOrCreate(entities: map<int, Entities.Entity>, states: map<int, State>)
    returns (r: map<int, Entities.Entity>, ghost created: set<Entities.Entity>)
    ensures BodiesOf(r) == Matched(BodiesOf(entities), states)
    ensures forall id :: id in r && id in entities ==> r[id] == entities[id]
    ensures forall id :: id in r && id !in entities ==> r[id] in created
    ensures forall o :: o in created ==> fresh(o)
    ensures Injective(entities) ==> Injective(r)
  {
    ghost var target := Matched(BodiesOf(entities), states);
    r := map[];
    created := {};
    var ids := states.Keys;
    while exists id :: id in ids
      invariant ids <= states.Keys
      invariant forall id :: id in r <==> id in target && id !in ids
      invariant forall id :: id in r ==> r[id].Value() == target[id]
      invariant forall id :: id in r && id in entities ==> r[id] == entities[id]
      invariant forall id :: id in r && id !in entities ==> fresh(r[id]) && r[id] in created
      invariant forall o :: o in created ==> fresh(o)
      invariant Injective(entities) ==> Injective(r)
      decreases ids
    {
      var id :| id in ids;
      if id in entities {
        r := r[id := entities[id]];
      } else {
        var c := Created(states[id]);
        if c.Some? {
          var e := new Entities.Entity(c.value.kind, states[id]);
          r := r[id := e];
          created := created + {e};
        }
      }
      ids := ids - {id};
    }
    BodiesAre(r, target);
  }

  /** What `updateEntities` does to one object. */
  method PlayOneOn(en: Entities.Entity, prev: Snapshot, next: Snapshot, tween: Num, id: Option<int>, interpolation: bool)
    modifies en
    ensures en.Value() == PlayOne(old(en.Value()), prev, next, tween, id, interpolation)
  {
    if en.state.id == id {
      en.SetState(Lookup(next.entities, en.state.id));
    } else if interpolation {
      var returned := en.Interpolate(Lookup(prev.entities, en.state.id), Lookup(next.entities, en.state.id), tween);
    } else {
      en.SetState(Lookup(next.entities, en.state.id));
    }
  }

  /** The `forEach` of `updateEntities`: each object plays as `PlayOne` says. No object
      is shared between two ids, so each is touched once and the order does not matter.
      `repr` holds every object of the map. */
  method PlayAll(objects: map<int, Entities.Entity>, ghost repr: set<Entities.Entity>, prev: Snapshot, next: Snapshot, tween: Num, id: Option<int>, interpolation: bool)
    requires Injective(objects) && forall k :: k in objects ==> objects[k] in repr
    modifies repr
    ensures BodiesOf(objects) == Played(old(BodiesOf(objects)), prev, next, tween, id, interpolation)
  {
    ghost var before := BodiesOf(objects);
    var todo := objects.Keys;
    while exists k :: k in todo
      invariant todo <= objects.Keys
      invariant forall k :: k in objects ==>
        objects[k].Value() == if k in todo then before[k] else PlayOne(before[k], prev, next, tween, id, interpolation)
      decreases todo
    {
      var k :| k in todo;
      PlayOneOn(objects[k], prev, next, tween, id, interpolation);
      todo := todo - {k};
    }
    BodiesAre(objects, Played(before, prev, next, tween, id, interpolation));
  }

  /** Objects whose values agree with a map of bodies, key by key, have those bodies. */
  lemma BodiesAre(objects: map<int, Entities.Entity>, m: map<int, Body>)
    requires forall k :: k in objects <==> k in m
    requires forall k :: k in objects ==> objects[k].Value() == m[k]
    ensures BodiesOf(objects) == m
  {
    forall k ensures k in BodiesOf(objects) <==> k in m {}
    forall k | k in m ensures BodiesOf(objects)[k] == m[k] {}
  }

  /** One more message extends the snapshots and the greeting by that message alone. */
  lemma ReceiveStep(msgs: seq<Message>, i: int, greeting: Greeting)
    requires 0 <= i < |msgs|
    ensures Snapshots(msgs[..i + 1]) ==
      Snapshots(msgs[..i]) + (if msgs[i].StateMessage? then [msgs[i].state] else [])
    ensures Greeted(msgs[..i + 1], greeting) ==
      if msgs[i].Hello? then Greeting(msgs[i].id, msgs[i].name) else Greeted(msgs[..i], greeting)
  {
    var prefix := msgs[..i + 1];
    assert prefix[..|prefix| - 1] == msgs[..i];
    assert prefix[|prefix| - 1] == msgs[i];
  }

  /** The loop of `processMessages` over the message values: the snapshots of the state
      messages are appended to `history`, and the last hello, if any, replaces
      `greeting`. */
  method Receive(history: seq<Snapshot>, greeting: Greeting, msgs: seq<Message>) returns (h: seq<Snapshot>, g: Greeting)
    ensures h == history + Snapshots(msgs)
    ensures g == Greeted(msgs, greeting)
  {
    h := history;
    g := greeting;
    var i := 0;
    while i < |msgs|
      invariant 0 <= i <= |msgs|
      invariant h == history + Snapshots(msgs[..i])
      invariant g == Greeted(msgs[..i], greeting)
    {
      ReceiveStep(msgs, i, greeting);
      match msgs[i] {
        case Hello(helloId, helloName) =>
          g := Greeting(helloId, helloName);
        case StateMessage(s) =>
          h := h + [s];
        case Other =>
      }
      i := i + 1;
    }
    assert msgs[..i] == msgs;
  }

  /** The loop of `predictLocal`: the object simulated for one tick per input, oldest
      first. */
  method ReplayOn(controlled: Entities.Entity, inputs: seq<Input>, trig: Trig)
    modifies controlled
    ensures controlled.Value() == Replay(old(controlled.Value()), inputs, trig)
  {
    ghost var start := controlled.Value();
    var i := 0;
    while i < |inputs|
      invariant 0 <= i <= |inputs|
      invariant Replay(controlled.Value(), inputs[i..], trig) == Replay(start, inputs, trig)
    {
      var children := controlled.Simulate(TICK, inputs[i].keys, trig);
      assert inputs[i..][1..] == inputs[i + 1..];
      i := i + 1;
    }
  }

  /** `ReplayOn` for the object stored under `cid`; no other object changes. */
  method ReplayAt(objects: map<int, Entities.Entity>, cid: int, inputs: seq<Input>, trig: Trig)
    requires cid in objects && Injective(objects)
    modifies objects[cid]
    ensures BodiesOf(objects) == old(BodiesOf(objects))[cid := Replay(old(BodiesOf(objects))[cid], inputs, trig)]
  {
    var controlled := objects[cid];
    ghost var before := BodiesOf(objects);
    ghost var after := before[cid := Replay(before[cid], inputs, trig)];
    ReplayOn(controlled, inputs, trig);
    forall k | k in objects ensures BodiesOf(objects)[k] == after[k] {
      if k != cid {
        assert objects[k] != controlled;
      }
    }
    assert BodiesOf(objects) == after;
  }

  class Client {
    const keys: Keyboard.Keyboard
    /** The client's own entity id, once the host has said hello. */
    var id: Option<int>
    var name: Option<string>
    var entities: map<int, Entities.Entity>
    /** Every entity object the client has made. */
    ghost var Repr: set<Entities.Entity>
    /** The authoritative snapshots not yet played through, oldest first. */
    var history: seq<Snapshot>
    /** The inputs sent but not yet acknowledged, oldest first. */
    var inputs: seq<Input>
    var sequence: int
    var inputTime: real
    var frameTime: real
    var historyTime: real
    /** The `prediction` and `interpolation` debug switches. */
    var prediction: bool
    var interpolation: bool

    /** The queue respects its cap and carries consecutive numbers below `sequence`,
        and every entity object belongs to one id only. */
    ghost predicate Valid()
      reads this, keys
    {
      && keys.Valid()
      && |inputs| <= INPUT_LIMIT
      && Consecutive(inputs, sequence)
      && Injective(entities)
      && forall k :: k in entities ==> entities[k] in Repr
    }

    ghost function Bodies(): (r: map<int, Body>)
      reads this, entities.Values
    {
      BodiesOf(entities)
    }

    /** A client at clock reading `now` with no id, no entities, no snapshots and no
        inputs; both switches on. */
    constructor (now: real)
      ensures Valid()
      ensures id == None && name == Some("") && entities == map[] && history == [] && inputs == []
      ensures sequence == 0 && inputTime == now && frameTime == now && historyTime == 0.0
      ensures prediction && interpolation
    {
      keys := new Keyboard.Keyboard();
      id := None;
      name := Some("");
      entities := map[];
      Repr := {};
      history := [];
      inputs := [];
      sequence := 0;
      inputTime := now;
      frameTime := now;
      historyTime := 0.0;
      prediction := true;
      interpolation := true;
    }

    /** `processInput(now)`: the input clock advances by whole ticks, and each tick
        stores and sends one input with the held keys while the queue has room. Returns
        the inputs sent, which are exactly the ones stored. */
    method ProcessInput(now: real) returns (sent: seq<Input>)
      requires Valid()
      modifies this
      ensures Valid()
      ensures inputTime == Quantise(old(inputTime), now).time
      ensures Queue(inputs, sequence) ==
        Enqueue(Queue(old(inputs), old(sequence)), Keyboard.Pressed(keys.state), Quantise(old(inputTime), now).ticks)
      ensures old(inputs) <= inputs && sent == inputs[|old(inputs)|..]
      ensures id == old(id) && name == old(name) && entities == old(entities) && history == old(history)
      ensures Repr == old(Repr) && frameTime == old(frameTime) && historyTime == old(historyTime)
      ensures prediction == old(prediction) && interpolation == old(interpolation)
    {
      var pressed := keys.GetPressed();
      var q := Quantise(inputTime, now);
      inputTime := q.time;
      var queue;
      queue, sent := StoreLoop(Queue(inputs, sequence), pressed, q.ticks);
      EnqueueCount(Queue(inputs, sequence), pressed, q.ticks);
      inputs := queue.inputs;
      sequence := queue.sequence;
    }

    /** `processMessages`: a hello sets the id and name, a state message appends its
        snapshot to the history, any other message is ignored. */
    method ProcessMessages(msgs: seq<Message>)
      modifies this
      ensures history == old(history) + Snapshots(msgs)
      ensures Greeting(id, name) == Greeted(msgs, Greeting(old(id), old(name)))
      ensures entities == old(entities) && Repr == old(Repr) && inputs == old(inputs) && sequence == old(sequence)
      ensures inputTime == old(inputTime) && frameTime == old(frameTime) && historyTime == old(historyTime)
      ensures prediction == old(prediction) && interpolation == old(interpolation)
    {
      var h, g := Receive(history, Greeting(id, name), msgs);
      history := h;
      id := g.id;
      name := g.name;
    }

    /** `updateHistory(now)`: the frame clock moves to `now`; with two snapshots or more,
        the playback clock advances by the frame's duration but stays within MAX_LAG of
        the newest snapshot, and only the two newest snapshots are kept. */
    method UpdateHistory(now: real)
      modifies this
      ensures frameTime == now
      ensures |old(history)| < 2 ==> history == old(history) && historyTime == old(historyTime)
      ensures |old(history)| >= 2 ==>
        && history == LastTwo(old(history))
        && historyTime == PlaybackTime(PlaybackStart(old(historyTime), old(history)[0].time), now - old(frameTime), old(history)[|old(history)| - 1].time)
      ensures id == old(id) && name == old(name) && entities == old(entities) && inputs == old(inputs)
      ensures Repr == old(Repr) && sequence == old(sequence) && inputTime == old(inputTime)
      ensures prediction == old(prediction) && interpolation == old(interpolation)
    {
      var delta := now - frameTime;
      frameTime := now;
      if |history| < 2 {
        return;
      }
      if historyTime == 0.0 {
        historyTime := history[0].time;
      }
      var last := history[|history| - 1];
      historyTime := Max(historyTime + delta, last.time - MAX_LAG);
      history := LastTwo(history);
    }

    /** The `matchOrCreate` step of `updateEntities`: the objects reconciled with the
        states of one snapshot. */
    method Reconcile(states: map<int, State>)
      requires Valid()
      modifies this
      ensures Valid()
      ensures Bodies() == Matched(old(Bodies()), states)
      ensures forall k :: k in entities ==> (k in old(entities) && entities[k] == old(entities[k])) || fresh(entities[k])
      ensures old(Repr) <= Repr && forall o :: o in Repr && o !in old(Repr) ==> fresh(o)
      ensures id == old(id) && name == old(name) && history == old(history) && inputs == old(inputs)
      ensures sequence == old(sequence) && inputTime == old(inputTime) && frameTime == old(frameTime)
      ensures historyTime == old(historyTime) && prediction == old(prediction) && interpolation == old(interpolation)
    {
      ghost var created;
      entities, created := MatchOrCreate(entities, states);
      Repr := Repr + created;
    }

    /** `updateEntities`: with two snapshots, reconcile the objects with the older one,
        then play every entity between the two as `PlayOne` says. */
    method UpdateEntities()
      requires Valid()
      modifies this, Repr
      ensures Valid()
      ensures |history| < 2 ==> entities == old(entities) && Bodies() == old(Bodies())
      ensures |history| >= 2 ==>
        Bodies() == Played(Matched(old(Bodies()), history[0].entities), history[0], history[1],
                           Tween(historyTime, history[0], history[1]), id, interpolation)
      ensures forall k :: k in entities ==> (k in old(entities) && entities[k] == old(entities[k])) || fresh(entities[k])
      ensures old(Repr) <= Repr && forall o :: o in Repr && o !in old(Repr) ==> fresh(o)
      ensures id == old(id) && name == old(name) && history == old(history) && inputs == old(inputs)
      ensures sequence == old(sequence) && inputTime == old(inputTime) && frameTime == old(frameTime)
      ensures historyTime == old(historyTime) && prediction == old(prediction) && interpolation == old(interpolation)
    {
      if |history| < 2 {
        return;
      }
      Reconcile(history[0].entities);
      PlayAll(entities, Repr, history[0], history[1], Tween(historyTime, history[0], history[1]), id, interpolation);
    }

    /** `predictLocal`: with prediction off the queue is emptied. Otherwise, once there
        are two snapshots and the controlled entity exists, the inputs the newest
        snapshot acknowledges are pruned and the rest are replayed on that entity. */
    method PredictLocal(trig: Trig)
      requires Valid()
      modifies this, Repr
      ensures Valid()
      ensures id == old(id) && name == old(name) && entities == old(entities) && history == old(history)
      ensures Repr == old(Repr) && sequence == old(sequence) && inputTime == old(inputTime) && frameTime == old(frameTime)
      ensures historyTime == old(historyTime) && prediction == old(prediction) && interpolation == old(interpolation)
      ensures !prediction ==> inputs == [] && Bodies() == old(Bodies())
      ensures prediction && (|history| < 2 || id.None? || id.value !in entities) ==>
        inputs == old(inputs) && Bodies() == old(Bodies())
      ensures prediction && |history| >= 2 && id.Some? && id.value in entities ==>
        && inputs == Unacked(old(inputs), history[1].sequence)
        && Bodies() == old(Bodies())[id.value := Replay(old(Bodies())[id.value], inputs, trig)]
    {
      if !prediction {
        inputs := [];
        return;
      }
      if |history| < 2 || id.None? || id.value !in entities {
        return;
      }
      var next := history[1];
      PruneConsecutive(inputs, sequence, next.sequence);
      inputs := Unacked(inputs, next.sequence);
      ReplayAt(entities, id.value, inputs, trig);
    }

    /** One animation frame (`update`), without the render: input, messages, playback
        clock, entities, prediction. Returns the inputs sent to the host. */
    method Update(now: real, msgs: seq<Message>, trig: Trig) returns (sent: seq<Input>)
      requires Valid()
      modifies this, Repr
      ensures Valid()
      ensures inputTime == Quantise(old(inputTime), now).time && frameTime == now
    {
      sent := ProcessInput(now);
      ProcessMessages(msgs);
      UpdateHistory(now);
      UpdateEntities();
      PredictLocal(trig);
    }
  }
}
