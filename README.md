# dogfight state sync, in Dafny

A model of the tick-based state synchronisation at the core of *dogfight*, a multiplayer
browser game: an authoritative host steps the world in fixed 16 ms ticks and broadcasts
snapshots, and each client predicts its own ship and plays the others back between two
snapshots.

- **Host** (`host.dfy`) covers host.mjs. The host state is a map of entity values by id, a
  record per client socket in arrival order, the id counter and the clock.
  - A socket record holds its id, whether the socket is OPEN, its input queue, `applied`
    and `appliedNulls`.
  - The functions state what the `connection`, `message` and `close` handlers do, and what
    one tick does: the entity loop with its null-elision rule, then the children loop. They
    also state what a run of ticks and the broadcast do. Lemmas prove what each of these
    preserves.
  - The class `Host` performs the same steps in place; each method is proved equal to its
    function.
- **Client** (`client.dfy`) covers public/src/client.mjs: the capped, consecutively
  numbered input queue, the message handling, the playback clock and its two-snapshot
  history, the interpolation fraction, `matchOrCreate`, the controlled-entity rule of
  `updateEntities`, the pruning and replay of `predictLocal`, the render times and
  `between`.
  - The class `Client` holds the fields `update` changes.
  - Entity objects are instances of `Entities.Entity`, reused or created as `matchOrCreate`
    does.
- **Entities:** `entity.dfy`, `ship.dfy` and `missile.dfy` hold the three entity classes
  as functions on entity values: constructor defaults, `interpolate`, `setState` and
  `simulate`. `entities.dfy` dispatches on the class that built an object. Its class
  `Entity` is the mutable object the client keeps.
- **Shared pieces:** `records.dfy` holds the property records and `Object.assign`.
  `clock.dfy` holds the fixed-step clock that host and client share. `js.dfy` holds
  JavaScript's undefined/NaN-propagating arithmetic, `Math.floor` and the truncating `%`.
- **Small helpers:**
  - `keyboard.dfy` covers the key-code table and the key-state map.
  - `sprite.dfy` covers the frame-index arithmetic of public/src/sprite.mjs.
  - `server.dfy` covers the routing decisions of server.mjs: the favicon, `pathFrom` with
    Node's POSIX `path.join` normalisation written out on strings, the 404, and the MIME
    choice.

## Conventions

- **Numbers:** numbers are `real`. A missing property and NaN are both `None`, and
  arithmetic on `None` gives `None`.
- **Trigonometry:** `Math.cos` and `Math.sin` are a parameter `trig` that is never
  interpreted.
- **Clock:** `performance.now()` is the parameter `now`.
- **Messages:** each incoming message is already parsed.
- **Iteration order:** the host's entity loop visits ids in ascending order. This is how
  JavaScript enumerates integer keys.
- **Time without clients:** the host's clock advances even when no client is connected.
  The quantisation (host.mjs:45-48) runs before the early return (host.mjs:50). Only the
  ticks and the broadcast are skipped.
- **Empty interaction pass:** the all-pairs `interact` pass (host.mjs:77-79) is modelled
  as no step. Every class's `interact` is empty (public/src/entity.mjs:19-21,
  public/src/ship.mjs:68-70).

## Model

| member | source | states |
|---|---|---|
| Js.Floor | host.mjs:46 | `Math.floor(x)` is the integer k with k <= x < k + 1 |
| Js.Rem | public/src/sprite.mjs:27 | JavaScript's `%` keeps the dividend's sign: it agrees with the mathematical remainder for a non-negative dividend and lies in (-b, 0] for a negative one |
| Keyboard.KeyName | public/src/keyboard.mjs:1-7 | a key code has a game key exactly when it is one of 38, 40, 37, 39, 32, and that key's code is the code looked up |
| Keyboard.KeyNameOfKeyCode | public/src/keyboard.mjs:1-7 | the table maps each game key's code back to that key (a bijection) |
| Keyboard.OnKey | public/src/keyboard.mjs:15-19 | an unmapped code leaves the state unchanged; a mapped one sets exactly its key to down/up and leaves every other key as it was |
| Keyboard.OnKeyIdempotent | public/src/keyboard.mjs:15-19 | repeating the same key event gives the state the first one gave |
| Keyboard.Pressed | public/src/keyboard.mjs:20-26 | `pressed()` holds exactly the keys whose state is true, each mapped to 1 |
| Keyboard.PressedAmong | public/src/keyboard.mjs:22-24 | the loop's partial result over a prefix of the keys holds exactly the held keys of that prefix, each mapped to 1 |
| Keyboard.Keyboard.constructor | public/src/keyboard.mjs:10-11 | initially all five keys are present and false, so `pressed()` is empty |
| Keyboard.Keyboard.OnKeyEvent | public/src/keyboard.mjs:15-19 | the handler changes the state as `OnKey` says and keeps all five keys present |
| Keyboard.Keyboard.GetPressed | public/src/keyboard.mjs:20-26 | the loop over the five keys builds exactly `Pressed(state)` |
| Records.Assign | public/src/entity.mjs:13-15 | `Object.assign` on the entity properties: each property of the source, where defined, overrides the target's (a definition; stated by AssignIsUnion and AssignIdempotent) |
| Records.AssignIsUnion | public/src/entity.mjs:13-15 | `Object.assign` gives the target every property of the source with the source's value and keeps every other property it had |
| Records.AssignIdempotent | public/src/entity.mjs:13-15 | assigning the same source twice is assigning it once; assigning an empty record changes nothing |
| Clock.Quantise | host.mjs:45-48 | the new reading moves by a whole number of 16 ms ticks, is never ahead of `now` and trails it by less than one tick, so the count is `floor((now - time)/16)`; the count is non-negative exactly when `now` is not before the old reading |
| Clock.QuantiseSettled | host.mjs:45-48 | a reading within one tick of `now` does not move |
| Entity.New | public/src/entity.mjs:2-6 | `new Entity(state)`: x = y = 0 with `state` assigned over them (a definition; stated by NewDefaults) |
| Entity.NewDefaults | public/src/entity.mjs:2-6 | a new Entity has x = y = 0, with every supplied property overriding or added to these |
| Entity.LerpEnds | public/src/entity.mjs:11-12 | the linear blend gives the start at fraction 0, the end at fraction 1, and a value between the two for a fraction in [0, 1] |
| Entity.MixBetween | public/src/entity.mjs:11-12 | `start + (end - start) * t` lies between start and end for t in [0, 1], whichever is larger |
| Entity.Interpolate | public/src/entity.mjs:7-12 | a missing start returns end and a missing end returns start, both without touching the entity; otherwise exactly x and y change, to the blends of start and end |
| Entity.InterpolateEnds | public/src/entity.mjs:7-12 | with both states present, fraction 0 puts the entity at start and fraction 1 at end, with no other property changed |
| Entity.SetState | public/src/entity.mjs:13-15 | `setState` overwrites exactly the supplied properties and keeps the class; an undefined record changes nothing |
| Entity.Simulate | public/src/entity.mjs:16-18 | the base `simulate` leaves the entity as it was and returns no children |
| Ship.New | public/src/ship.mjs:9-16 | `new Ship(state)`: the Entity constructor, the Ship defaults, then `state` assigned once more (a definition; stated by NewDefaults) |
| Ship.NewDefaults | public/src/ship.mjs:9-16 | a new Ship has t = 1, a = 0, m = 0, f = 0 and x = y = 0, with every supplied property overriding these |
| Ship.Wrap | public/src/ship.mjs:53-56 | a defined coordinate stays defined and moves by 0 or ±2000; inside (-1000, 1000) it is unchanged, and from (-3000, 3000) it lands in [-1000, 1000] |
| Ship.Turn | public/src/ship.mjs:42-43 | the turning step: subtract secs * TURN_SPEED for L, then add it for R (a definition; stated by TurnDirections, RepeatTurns and TurnsRight) |
| Ship.TurnDirections | public/src/ship.mjs:37-43 | L alone lowers the angle by secs * TURN_SPEED and R alone raises it by as much; both, neither, or the default `{}` input leave it unchanged |
| Ship.Simulate | public/src/ship.mjs:37-67 | no children and the same class, id, type and lifetime; `f` is the input's F; the angle turns as `Turn` says; a defined cooldown `m` becomes max(m - secs, 0) and an undefined one stays undefined |
| Ship.SimulateCooldown | public/src/ship.mjs:40 | after `simulate` the cooldown is never negative and never grows over a non-negative step; it drops by exactly `secs` while at least `secs` remains, and is 0 otherwise |
| Ship.SimulateMoves | public/src/ship.mjs:45-56 | before wrap-around the ship moves secs * SPEED along cos/sin of the turned angle minus pi/2 |
| Ship.SimulateStaysInWorld | public/src/ship.mjs:45-56 | a ship inside the world, with unit direction components and a step shorter than the world, is still inside [-1000, 1000] on both axes after `simulate` |
| Ship.InWorld | public/src/ship.mjs:49-56 | one axis of the step: a position in the world moved by less than the world's width and wrapped is back in the world |
| Ship.TurnRightFor | public/src/ship.mjs:42-43 | holding only R for k ticks turns the ship by exactly k * secs * TURN_SPEED |
| Ship.RepeatTurns | public/src/ship.mjs:42-43 | whatever else k calls of `simulate` do, they leave the angle that k turns with the same keys leave |
| Ship.TurnsRight | public/src/ship.mjs:42-43 | k turns with only R held raise the angle by exactly k * secs * TURN_SPEED |
| Ship.Interpolate | public/src/ship.mjs:17-36 | a missing prev returns next and a missing next returns prev, without touching the ship; with both present nothing is returned and the class is kept |
| Ship.Teleports | public/src/ship.mjs:23-30 | the teleport test: prev and next lie more than 100 apart on x or on y (a definition; used by InterpolateTeleport and InterpolateBetween) |
| Ship.InterpolateTeleport | public/src/ship.mjs:22-35 | the class is kept. More than 100 apart on x or y, the ship takes every property of next verbatim and keeps the rest. Otherwise x, y and a become the linear interpolation `p + (n - p) * t` of prev and next at the fraction t, f becomes next's, and nothing else changes |
| Ship.InterpolateBetween | public/src/ship.mjs:32-35 | without a teleport and with 0 <= t <= 1, the interpolated x, y and a lie between prev's and next's values |
| Ship.InterpolateEnds | public/src/ship.mjs:32-35 | without a teleport, fraction 0 gives prev's x, y and a, fraction 1 gives next's, and f is next's in both |
| Missile.New | public/src/missile.mjs:6-12 | `new Missile(state)`: the Entity constructor, the Missile defaults, then `state` assigned once more (a definition; stated by NewDefaults) |
| Missile.NewDefaults | public/src/missile.mjs:6-12 | a new Missile has t = 2, a = 0, l = 5 and x = y = 0, with every supplied property overriding these |
| Missile.Simulate | public/src/missile.mjs:13-24 | `l` drops by exactly tick/1000; when it reaches 0 or below, the missile returns itself, its removal request, and nothing else changes; otherwise there are no children and only l, x and y change |
| Missile.LifetimeAfter | public/src/missile.mjs:14-16 | after k calls a missile with lifetime l0 has l0 - k * secs left |
| Missile.RemovalAt | public/src/missile.mjs:16-17 | the k-th call asks for removal exactly when k ticks use up the lifetime |
| Missile.FirstRemoval | public/src/missile.mjs:16-17 | with ticks of positive length, the first removal request comes at the call k with (k - 1) * secs < l0 <= k * secs, and no earlier call makes one |
| Missile.NotYetRemoved | public/src/missile.mjs:16-17 | a call before that k does not ask for removal |
| Missile.SimulateFlies | public/src/missile.mjs:19-23 | a missile that keeps flying moves secs * SPEED along cos/sin of its angle |
| Entities.New | public/src/client.mjs:166-168 | the constructor of each class gives that class's defaults with every supplied property copied over them, and x and y are always defined |
| Entities.Simulated | host.mjs:64-71 | `simulate` keeps the class and the id; the only child it can return is the entity itself, and only a Missile returns one |
| Entities.Interpolated | public/src/client.mjs:118 | a Ship interpolates as Ship does and every other class as Entity does: a missing side returns the other untouched, and both present return nothing |
| Entities.WithState | public/src/client.mjs:114 | `setState` is Entity's for every class: the supplied properties overwrite, the rest stay |
| Entities.Entity.constructor | public/src/client.mjs:166-168 | the new object is the value `New(kind, state)` |
| Entities.Entity.SetState | public/src/entity.mjs:13-15 | the object becomes `WithState` of what it was |
| Entities.Entity.Interpolate | public/src/ship.mjs:17-36 | the object and its return value are those `Interpolated` gives for what it was |
| Entities.Entity.Simulate | public/src/missile.mjs:13-17 | the object becomes the simulated value, and the children are the object itself exactly when the value asks for removal |
| Host.Connected | host.mjs:15-24 | a connection advances the id counter by one |
| Host.ConnectedFresh | host.mjs:15-24 | the new id belongs to no entity and no socket; a Ship `{ id }` is stored under it and a socket with an empty queue and both counters 0 is added; all else is kept and the host stays consistent |
| Host.Received | host.mjs:27-30 | a message appends its input to the end of exactly its socket's queue |
| Host.ReceivedConsistent | host.mjs:27-30 | a message keeps the host consistent |
| Host.ReceivedOrdered | host.mjs:27-30 | a message numbered above every queued input, and not below `applied`, keeps the queue ordered |
| Host.Closing | host.mjs:91 | leaving the OPEN state changes exactly the readyState of exactly that socket |
| Host.ClosingConsistent | host.mjs:91 | leaving the OPEN state keeps the host consistent |
| Host.Without | host.mjs:32-35 | dropping a client keeps exactly the other sockets |
| Host.WithoutAppend | host.mjs:32-35 | dropping a client distributes over concatenation, so the remaining sockets keep their order and multiplicity |
| Host.WithoutNone | host.mjs:32-35 | when no socket has that id, dropping it changes nothing |
| Host.WithoutDistinct | host.mjs:32-35 | dropping a client keeps the socket ids distinct |
| Host.Closed | host.mjs:32-35 | a close deletes exactly the socket's own entity and its socket, and nothing else |
| Host.ClosedConsistent | host.mjs:32-35 | a close keeps the host consistent |
| Host.TakeTurn | host.mjs:58-75 | the socket's turn takes at most one input, from the front. With none, the entity runs with no keys and `appliedNulls` grows by one. A null input while `appliedNulls > 0` is elided and uncounts one. Any other input runs with its keys and resets the count to 0. A taken input's `n` becomes `applied`. The count never goes negative |
| Host.TurnOrdered | host.mjs:59-68 | a turn keeps an ordered queue ordered and never lowers `applied`; after taking an input every queued input is newer than `applied` |
| Host.IdsBelow | host.mjs:55 | `Object.values(this.entities)` order: the stored ids below the counter, ascending (a definition; stated by IdsBelowSpec) |
| Host.IdsBelowSpec | host.mjs:55 | the ids the entity loop visits are exactly the stored ids in [0, counter), each once, in increasing order |
| Host.FindSocket | host.mjs:58 | `sockets.find` returns a socket whose id is the entity's |
| Host.FindSocketSpec | host.mjs:58 | it finds the first such socket, and finds none only when no socket matches |
| Host.StepEntity | host.mjs:57-76 | one iteration of the entity loop keeps the stored ids and the number of sockets. An entity without a socket is simulated with no keys; one whose input is elided is left as it is and adds no children; any other is simulated with its turn's keys. The simulated entity replaces the stored one and its children are appended |
| Host.StepFacts | host.mjs:57-76 | one iteration replaces only its own entity, by one of the same class and id |
| Host.StepSocket | host.mjs:58-75 | one iteration gives the socket of its entity, and no other, its turn |
| Host.EntityPass | host.mjs:55-76 | the entity loop keeps the stored ids and the number of sockets |
| Host.EntityPassKinds | host.mjs:55-76 | the entity loop keeps every entity's class |
| Host.EntityPassIds | host.mjs:55-76 | the entity loop keeps every entity under its own id, below the counter |
| Host.EntityPassSockets | host.mjs:54-76 | in the entity loop each socket whose entity is visited takes exactly one turn, and every other socket is untouched |
| Host.FindSocketIds | host.mjs:58 | sockets with the same ids, position by position, are searched alike, so a turn that keeps ids keeps every later search |
| Host.TurnOthers | host.mjs:57-76 | the turn of one entity leaves another entity's turn as it was |
| Host.TurnOf | host.mjs:57-76 | what its turn in the entity loop makes of an entity against the sockets as they stand: simulated with no keys without a socket, unchanged when the input is elided, otherwise simulated with the input's keys (a reference definition; tied to the loop by EntityPassValues and TickTurns) |
| Host.EntityPassValues | host.mjs:54-76 | after the entity loop each visited entity is what `TurnOf` makes of it against the sockets before the loop, and every other entity is unchanged |
| Host.EntityPassChildren | host.mjs:64-71 | every child the entity loop collects is a Missile, and when its id is stored that entry is a Missile too |
| Host.AddChild | host.mjs:81-86 | one child: a child with a truthy stored id deletes that entry; any other, an id-0 child included, is stored under `nextId`, which then advances (a definition; stated by ChildPassIds, ChildPassKeeps and SpawnChild) |
| Host.ChildPass | host.mjs:80-87 | the children loop never lowers the id counter |
| Host.ChildPassIds | host.mjs:80-87 | the children loop stores every entity under its own id, below the counter, and every child it adds at an id at least the counter's start |
| Host.ChildPassKeeps | host.mjs:80-87 | the children loop never deletes an entity that is not a Missile |
| Host.Tick | host.mjs:55-87 | one pass of the tick loop: the entity loop over `IdsBelow`, then the children loop (a definition; stated by TickConsistent, TickTurns, TickSockets, TickKeepsShips and TickFresh) |
| Host.Iterate | host.mjs:54 | `n` applications of a step (a definition; stated by IterateInvariant) |
| Host.IterateInvariant | host.mjs:54 | what every step of the loop keeps, any number of steps keep |
| Host.Ticks | host.mjs:54-88 | `n` ticks in a row (a definition; stated by TicksConsistent, TicksKeep, TicksApplied and RunTicks) |
| Host.LoopCount | host.mjs:54 | the number of passes `for (t = 0; t < ticks; t++)` makes: `ticks`, or none when it is not positive (a definition; used by Host.Host.Update) |
| Host.TickSockets | host.mjs:54-88 | in one tick every socket whose ship is stored takes exactly one turn, and every other socket is untouched |
| Host.TickConsistent | host.mjs:54-88 | one tick keeps the host consistent |
| Host.TickEntityIds | host.mjs:54-88 | after a tick every entity is stored under its own id, below a counter that has not gone down |
| Host.TickSocketIds | host.mjs:54-88 | after a tick the sockets keep distinct ids below the counter and non-negative null counts |
| Host.TickFresh | host.mjs:80-87 | one tick never lowers the counter and stores every new entity at an id the counter had not reached, so ids are never reused |
| Host.TickTurns | host.mjs:54-88 | after a tick every entity that is not a Missile is stored and is what its own turn made of it |
| Host.TickKeepsShips | host.mjs:80-84 | a tick deletes only Missiles: every other entity is still stored, of the same class |
| Host.TickOrdered | host.mjs:58-68 | a tick keeps an ordered queue ordered and never lowers its `applied` |
| Host.TicksConsistent | host.mjs:54-88 | any run of ticks keeps the host consistent, never lowers the counter and never reuses an id |
| Host.TicksKeep | host.mjs:54-88 | any run of ticks keeps the clients, in order and in their readyStates, and deletes only Missiles |
| Host.KeepStep | host.mjs:54-88 | one tick of that run keeps consistency, the clients and the non-Missile entities |
| Host.TicksApplied | host.mjs:54-88 | for inputs that arrive in increasing order, `applied` never goes down across any run of ticks |
| Host.States | host.mjs:93-97 | the snapshot carries each stored entity's properties under its id, and no other id |
| Host.OpenSockets | host.mjs:91 | the OPEN sockets, in client order: every socket kept is OPEN and there are no more than the clients |
| Host.OpenSocketsCount | host.mjs:91 | each OPEN socket is kept as often as it occurs among the clients, and no other socket at all |
| Host.StateFor | host.mjs:93-98 | the message for one socket: its id, the host's time and entities and that socket's `applied` (a definition; used by Broadcast and BroadcastMembers) |
| Host.Broadcast | host.mjs:90-100 | exactly one message per OPEN socket, in client order: the i-th message goes to the i-th OPEN socket and carries the host's time and entities and that socket's own `applied` |
| Host.BroadcastMembers | host.mjs:90-100 | every message goes to an OPEN client, and every OPEN client gets its message |
| Host.Host.constructor | host.mjs:9-13 | a new host has no entities, no clients, counter 0 and its clock at `now` |
| Host.Host.Connect | host.mjs:15-25 | the handler does what `Connected` says and answers hello with the new id |
| Host.Host.Receive | host.mjs:27-30 | the handler does what `Received` says |
| Host.Host.StartClosing | host.mjs:91 | the socket leaves the OPEN state as `Closing` says |
| Host.Host.Close | host.mjs:32-35 | the handler does what `Closed` says |
| Host.Host.Update | host.mjs:41-101 | the clock always moves as `Quantise` says. With no clients nothing else changes and nothing is sent. Otherwise the world becomes `Ticks` of the loop count and the sent states are `Broadcast` of the result. The host stays consistent |
| Host.Host.RunTicks | host.mjs:54-88 | the tick loop leaves exactly `Ticks(n)` of the world, and none for n <= 0 |
| Host.Host.SendStates | host.mjs:90-100 | the broadcast loop sends exactly `Broadcast` |
| Host.Host.RunTick | host.mjs:55-87 | one iteration of the tick loop leaves exactly `Tick` of the world |
| Host.Host.StepKey | host.mjs:57-76 | one iteration of the entity loop does exactly what `StepEntity` says |
| Host.Host.SpawnChild | host.mjs:80-87 | the entities and the counter change exactly as `AddChild` says for that child; sockets and clock are untouched |
| Client.NullFlag | public/src/client.mjs:57 | z is 1 exactly when no key is held, and 0 otherwise |
| Client.NullWhenNoKeyDown | public/src/client.mjs:56-57 | with the keyboard's state, z is 1 exactly when no key is down |
| Client.ConsecutiveIncreasing | public/src/client.mjs:65 | consecutive inputs have strictly increasing numbers, all below `sequence` |
| Client.Push | public/src/client.mjs:64-68 | one pass of the input loop: below 32 inputs, store the input under the next sequence number, which then advances (a definition; stated by Enqueue, EnqueueCount and StoreLoop) |
| Client.Enqueue | public/src/client.mjs:63-69 | the input loop only appends; each input carries the held keys, the null flag and the next sequence number, and `sequence` advances once per input stored |
| Client.EnqueueCount | public/src/client.mjs:63-69 | the loop stores one input per tick until the queue holds 32, and none after; the queue stays consecutive |
| Client.StoreLoop | public/src/client.mjs:63-69 | the loop leaves exactly `Enqueue` of the queue, and the inputs sent are exactly those stored |
| Client.Snapshots | public/src/client.mjs:78-81 | there are no more snapshots than messages |
| Client.SnapshotsMembers | public/src/client.mjs:78-81 | the snapshots gained are exactly the states carried by state messages |
| Client.SnapshotsAppend | public/src/client.mjs:78-81 | the snapshots of two batches are the first batch's followed by the second's, so `push` keeps arrival order and multiplicity |
| Client.Greeted | public/src/client.mjs:73-77 | the id and name after the messages (a definition; stated by GreetedLastHello and Receive) |
| Client.GreetedLastHello | public/src/client.mjs:73-77 | without a hello the id and name stay as they were; otherwise the last hello's id and name win |
| Client.GreetedNoHello | public/src/client.mjs:73-77 | without a hello the id and name are kept |
| Client.GreetedFrom | public/src/client.mjs:73-77 | a hello with no later hello decides the id and name |
| Client.ReceiveStep | public/src/client.mjs:72-82 | one more message adds its snapshot, or replaces the greeting, and nothing else |
| Client.Receive | public/src/client.mjs:72-82 | the message loop appends exactly `Snapshots` to the history and leaves exactly `Greeted` as id and name |
| Client.PlaybackStart | public/src/client.mjs:89-91 | a playback clock still at 0 starts at the oldest snapshot's time (a definition; stated through Client.Client.UpdateHistory) |
| Client.PlaybackTime | public/src/client.mjs:96 | the new playback time is at least `old + delta` and at least `newest - 200`, and equals one of them |
| Client.LastTwo | public/src/client.mjs:99 | `slice(-2)` keeps the two newest snapshots, or all of them when there are fewer |
| Client.Tween | public/src/client.mjs:110 | the fraction is undefined exactly when the two snapshot times are equal; otherwise it places the playback time between them |
| Client.TweenEnds | public/src/client.mjs:110 | the fraction is 0 at the older snapshot's time and 1 at the newer's |
| Client.TweenInRange | public/src/client.mjs:110 | with the playback clock between the two snapshots, the fraction lies in [0, 1] |
| Client.Lookup | public/src/client.mjs:114 | `entities[id]` is defined exactly when the id is defined and stored |
| Client.Created | public/src/client.mjs:164-170 | an object is created exactly for type 1 (a Ship) or type 2 (a Missile), from its class's defaults and the state |
| Client.Matched | public/src/client.mjs:159-173 | `matchOrCreate` on values: one entry per snapshot id that has an object or a creatable type (a definition; stated by MatchedSpec and MatchOrCreate) |
| Client.MatchedSpec | public/src/client.mjs:159-173 | the ids kept are exactly the snapshot's ids that have an object or a creatable type; existing objects are reused unchanged; a second reconciliation with the same snapshot changes nothing |
| Client.PlayOne | public/src/client.mjs:112-122 | the class is kept. The controlled entity, or any entity with interpolation off, takes the newest snapshot's properties over its own. With interpolation on, any other entity becomes its class's interpolation between its states in the two snapshots at the tween fraction, and one missing from either snapshot is left as it was |
| Client.Played | public/src/client.mjs:111-122 | playing the entities keeps exactly the ids they were stored under |
| Client.MatchOrCreate | public/src/client.mjs:159-173 | the objects' values are `Matched`; the object of every kept id that had one is reused; the others are newly created; when no object was shared between two ids before, none is after |
| Client.PlayOneOn | public/src/client.mjs:113-121 | what the loop does to one object is `PlayOne` of its value |
| Client.PlayAll | public/src/client.mjs:111-122 | the `forEach` leaves every object's value as `Played` says |
| Client.Unacked | public/src/client.mjs:136 | the filter keeps no more inputs than there were |
| Client.UnackedMembers | public/src/client.mjs:136 | the filter keeps exactly the inputs numbered above the acknowledged sequence |
| Client.PruneSuffix | public/src/client.mjs:136 | on a consecutive queue the filter keeps a suffix: the inputs above `acked`, in their original order |
| Client.PruneConsecutive | public/src/client.mjs:136 | pruning keeps the queue consecutive |
| Client.FirstInputPruned | public/src/client.mjs:136 | a fresh socket acknowledges 0, so the client's first input, numbered 0, is pruned before it was ever applied |
| Client.Replay | public/src/client.mjs:139-141 | replaying keeps the entity's class and id |
| Client.ReplayAppend | public/src/client.mjs:139-141 | replaying two runs of inputs one after the other is replaying them joined |
| Client.ReplayOn | public/src/client.mjs:139-141 | the loop leaves the controlled object as `Replay` says |
| Client.ReplayAt | public/src/client.mjs:131-141 | replaying the controlled object changes no other object |
| Client.RenderTimes | public/src/client.mjs:143-153 | with two snapshots the times are the playback time, the newest snapshot's time, and a predicted time one tick ahead of that per queued input; with fewer there are none |
| Client.PredictHorizon | public/src/client.mjs:151 | with the queue capped, prediction runs at most 32 ticks ahead of the newest snapshot |
| Client.Between | public/src/client.mjs:175-177 | `between` returns a value in [lower, upper] when lower <= upper; a value inside is unchanged, one above becomes upper, one below becomes `min(lower, upper)` |
| Client.Client.constructor | public/src/client.mjs:12-34 | a new client has no id, an empty name, no entities, snapshots or inputs, sequence 0, both clocks at `now`, playback time 0, and both switches on |
| Client.Client.ProcessInput | public/src/client.mjs:55-70 | the input clock moves as `Quantise` says. The queue becomes `Enqueue` of that many ticks with the held keys, so it stays capped at 32 and consecutive. The inputs sent are exactly those stored, and nothing else changes |
| Client.Client.ProcessMessages | public/src/client.mjs:71-83 | the history gains `Snapshots`, id and name become `Greeted`, and nothing else changes |
| Client.Client.UpdateHistory | public/src/client.mjs:84-100 | the frame clock moves to `now`. With fewer than 2 snapshots nothing else changes. Otherwise the playback time is the `PlaybackTime` of `delta` (starting from the oldest snapshot when it was 0) and only the two newest snapshots stay |
| Client.Client.Reconcile | public/src/client.mjs:107 | the objects are reconciled as `Matched` says: kept ones reused and fresh ones created |
| Client.Client.UpdateEntities | public/src/client.mjs:101-123 | with two snapshots the objects become `Played` of the reconciled ones; with fewer nothing changes |
| Client.Client.PredictLocal | public/src/client.mjs:124-142 | with prediction off the queue is emptied. Without a second snapshot or a controlled entity nothing changes. Otherwise the queue keeps exactly the unacknowledged inputs and the controlled entity alone is replayed through them |
| Client.Client.Update | public/src/client.mjs:41-52 | one frame moves both clocks and keeps the client valid |
| Sprite.New | public/src/sprite.mjs:2-6 | a new sprite has every source pending and no images; its duration is the given one, or 1 when none is given |
| Sprite.Frame | public/src/sprite.mjs:25-29 | nothing while sources are pending; any image returned is one of the sprite's |
| Sprite.Frames | public/src/sprite.mjs:30-32 | `frames()` is the number of images |
| Sprite.FrameIndex | public/src/sprite.mjs:27 | once loaded, with duration > 0 and n >= 0, the index is `floor(n / duration) mod images.length`, always a valid index |
| Sprite.FrameAt | public/src/sprite.mjs:27 | the image depends only on the floor of n / duration |
| Sprite.FrameBlock | public/src/sprite.mjs:27 | every n in one duration-sized block selects the same image |
| Sprite.FramePeriod | public/src/sprite.mjs:27 | the selection repeats with period duration * images.length |
| Sprite.ImageShift | public/src/sprite.mjs:27 | adding images.length to a non-negative floor selects the same image |
| Sprite.Shadowed | public/src/sprite.mjs:33-36 | `shadowed` keeps the duration and has one pending source per image, in order |
| Server.Pathname | server.mjs:42 | for an origin-form target (one with no scheme and no `//user@host` prefix), the pathname is the target up to the first `?` or `#`, with every backslash read as a slash |
| Server.PathnameWhole | server.mjs:42 | a URL without `?` or `#` is pathname to its end |
| Server.PathnameOf | server.mjs:42 | a URL without `?` or `#` has as pathname its characters with backslashes turned into slashes |
| Server.PathnameStops | server.mjs:42 | a URL without `?`, `#` or backslash is its own pathname |
| Server.BackslashParent | server.mjs:42 | `/..\e` has the pathname `/../e` |
| Server.BackslashRouted | server.mjs:41-49 | `/..\e` is refused or served exactly as `/../e` is |
| Server.QueryIgnored | server.mjs:42-43 | only the path decides: the pathname of a path with a query after it is that of the path alone |
| Server.Split | server.mjs:44 | `split('/')` gives at least one segment, none holding a slash |
| Server.SplitJoin | server.mjs:44 | splitting undoes joining with `/` |
| Server.Resolve | server.mjs:44 | the segment walk of `path.normalize`: `..` pops, empty and `.` segments are skipped, others are pushed (a definition; stated by ResolveNoParent, ResolveAppend, ResolveClean and NormalizeIdempotent) |
| Server.ResolveAppend | server.mjs:44 | resolving two runs of segments is resolving the first, then the second |
| Server.ResolveClean | server.mjs:44 | resolving slash-free segments onto clean ones leaves only clean segments |
| Server.ResolveNoParent | server.mjs:44 | without `..`, normalisation only appends the segments that are neither empty nor `.` |
| Server.Normalize | server.mjs:44 | `path.normalize` of an absolute path is absolute |
| Server.NormalizeRender | server.mjs:44 | a path of clean segments is already normal |
| Server.SplitRender | server.mjs:44 | a path of clean segments splits back into those segments |
| Server.NormalizeIdempotent | server.mjs:44 | `path.normalize` is idempotent |
| Server.Join | server.mjs:44 | `path.join` of an absolute directory is absolute |
| Server.PathFrom | server.mjs:41-49 | nothing exactly when the joined path does not start with `dir`; otherwise the joined path itself, which starts with `dir` and is a normal path |
| Server.Target | server.mjs:43 | the name `pathFrom` joins: the pathname, or the root page for the pathname `/` (a definition; stated by SlashServesRoot and PathFrom) |
| Server.SlashServesRoot | server.mjs:43 | the pathname `/` is served exactly as the root page `/index.html` is |
| Server.CleanNameServed | server.mjs:44-48 | a name without `..` segments joined onto a normal directory stays under it |
| Server.CleanRequestServed | server.mjs:41-49 | an origin-form request whose pathname, backslashes read as slashes, has no `..` segment is always served |
| Server.JoinedSplit | server.mjs:44 | a name joined onto a clean directory splits into the directory's segments followed by the name's |
| Server.ResolveUp | server.mjs:44 | a `..` after a clean directory drops its last segment |
| Server.ParentStep | server.mjs:44-47 | `/../e` from the directory `.../d` joins to the sibling `.../e`, which passes the prefix test exactly when d is a string prefix of e |
| Server.ParentJoin | server.mjs:44 | `path.join` of the directory `.../d` and `/../e` is the sibling `.../e` |
| Server.SiblingPrefixPasses | server.mjs:45 | a sibling directory whose name extends the directory's name is served, although the file is not under `dir/` |
| Server.Ext | server.mjs:30 | the extension is empty or starts with a dot, and ends the file's base name |
| Server.ExtOfSuffix | server.mjs:30 | a file named `name.ext` has the extension `.ext` |
| Server.Mime | server.mjs:29-36 | `text/html` exactly for `.html`, `text/javascript` exactly for `.mjs`, and `text/plain` otherwise |
| Server.ContentTypes | server.mjs:29-36 | `.html` files are served as `text/html` and `.mjs` files as `text/javascript` |
| Server.Route | server.mjs:16-38 | the favicon, and only the favicon, gets 204 with an empty body. A refused path, and only that, gets 404 with body `404`. A served file is the path `PathFrom` gives, so it starts with `dir`, and it carries the content type of its extension |

## Left out

- public/src/view.mjs, public/src/socket.mjs, JSON encoding, `WebSocket.Server`,
  `setInterval` and `requestAnimationFrame`. These are rendering and transport. A message
  is modelled as its parsed value, and the sockets of `wss.clients` as a sequence of
  records in arrival order.
- `performance.now()`: a parameter.
- `Math.cos`/`Math.sin`: an uninterpreted parameter.
- Floating point, in general. Numbers are reals, with NaN and undefined both `None`.
- Client.Tween: an infinite fraction, from equal snapshot times, is `None` like NaN.
  `Math.max`/`Math.min` with an infinity are therefore not modelled.
- Records.Assign: a property present with the value `undefined` is modelled as absent.
  Parsed JSON never carries one.
- Host.Tick: the host keeps entities as values.
  - The Missile a tick returns as its own removal request is the stored object in the
    source. The model deletes by that child's id, which is the same.
  - A child whose id is 0 is never deleted, because `child.id && …` treats 0 as false.
    In the source that child is the stored object under key 0 itself. `child.id =
    this.nextId++` renames that object, so both keys then hold one object, and the
    next tick simulates it twice. The model stores a renamed copy under the new key and
    keeps the original under 0 with id 0. So `Consistent` holds in the model where the
    source breaks it. This needs a Missile at key 0, which never happens: the host creates
    only Ships, and the first one takes id 0.
- Entities.Entity.Simulate: the children are returned as the object itself, as
  `return [this]` does. The aliasing between that child and the stored object is not
  used elsewhere.
- Client.PlayAll: `Object.values(...).forEach` visits objects in key order. The model
  visits them in any order, which gives the same result because no object is shared
  between ids (proved as `Injective`).
- Host.Host.Close: the socket removing its listeners and the server dropping it from
  `wss.clients` are modelled together as deleting its record.
- Client.Client.Update: its contract states only the clocks and validity. Each step it
  calls states the rest in its own contract.
- The client's `onKey` debug toggles and the `render` call (public/src/client.mjs:35-40,
  143-155). The `prediction` and `interpolation` switches are plain fields. `authority`
  and `viewState` only affect drawing.
- Sprite `load` and the canvas `shadow` drawing. `shadow` is a parameter of `Shadowed`.
- The server's `http.createServer`, `listen`, `fs.createReadStream` piping and its 500
  error path.
- Server.Pathname: models `url.parse` only for an origin-form target: the
  backslash-to-slash conversion and the cut at `?` and `#`. The following are not
  modelled:
  - A target that begins with a scheme (`http://h/index.html`, or any `name:` prefix).
    `url.parse` drops the scheme and, after `//`, the host, so its pathname is `/index.html`.
  - A target that begins with `//user@host` (`//u@h/index.html`). `url.parse` reads a host
    there, so its pathname is also `/index.html`.
  - Trimming surrounding whitespace, and percent-escaping characters such as spaces,
    quotes and braces.
  - Further cases for relative request targets.

  For the two host-bearing forms, the model keeps the scheme and host as path segments.
  `Target`, `PathFrom` and `Route` then join `dir/http:/h/index.html` or
  `dir/u@h/index.html`, where the source serves `dir/index.html`. For such a target,
  what the model serves or refuses need not be what the source does: the `..` segments
  of `http://h/../../x` cancel `h` and `http:` in the model, but climb out of `dir` in
  the source.
- Server.PathFrom: the public directory is an absolute path. A relative `dir` is not
  modelled.
- Health, damage, destruction events, pilot names and missile firing. None of these is in
  the code; firing is commented out at public/src/ship.mjs:59-66.
