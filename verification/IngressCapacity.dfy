/** The permits of the ingress proxy (c3r/ingress_proxy.py:66-107 and 231-313): connection slots,
    one in-flight semaphore and per-route slots, the decision routes sharing one. Connections
    interleave step by step; upstream I/O is a nondeterministic outcome. A connection serves one
    request, since the handler speaks HTTP/1.0. */
module IngressCapacity {
  import opened Schema

  datatype Slot = Connections | InFlight | Generation | SystemOne | Rank | Decisions

  /** `route_slots.get(path)`. */
  function RouteSlot(path: string): Option<Slot> {
    if path == "/v1/responses" then Some(Generation)
    else if path == "/v1/system-one" then Some(SystemOne)
    else if path == "/v1/c3r/rank" then Some(Rank)
    else if path == "/v1/decisions" || path == "/v1/c3r/decide" || path == "/v1/c3r/execute" then Some(Decisions)
    else None
  }

  datatype Pc =
    | Arriving       // accepted by the socket, before `process_request`
    | Shut           // refused: no connection slot
    | Spawning       // slot taken, thread not started yet
    | Handling       // in the handler, before `_forward`
    | HasRoute       // `_forward`: route slot taken if the path has one
    | Forwarding     // in-flight permit taken, no watcher yet
    | Watched        // watcher thread running
    | Leaving        // in the finally block, before `in_flight.release`
    | LeavingRoute   // in-flight permit released, route slot not yet
    | Ending         // handler returned or raised, before `connection_slots.release`
    | Gone

  /** How often one semaphore was taken and given back. */
  datatype Count = Count(taken: nat, returned: nat)

  datatype Connection = Connection(
    pc: Pc,
    route: Option<Slot>,
    stranded: bool,      // the watcher could not be started, so the finally block raised at `join`
    connection: Count,   // permits of `connection_slots`
    inFlight: Count,     // permits of `in_flight`
    routed: Count)       // permits of the route slot

  const NEW: Connection := Connection(Arriving, None, false, Count(0, 0), Count(0, 0), Count(0, 0))

  function Taken(n: Count): Count { n.(taken := n.taken + 1) }

  function Given(n: Count): Count { n.(returned := n.returned + 1) }

  datatype Action =
    | Accept | ThreadStarts | ThreadCannotStart
    | AnswersItself | TakesRoute(path: string) | TakesInFlight
    | UpstreamFails | WatcherStarts | WatcherCannotStart | ForwardEnds
    | ReleasesInFlight | ReleasesRoute | ReleasesConnection

  /** The change an action makes to the semaphores. */
  datatype Change = Unchanged | Take(slot: Slot) | Give(slot: Slot)

  /** The effect of an action on its connection; `None` when it is not enabled. `free` is the
      number of free permits of each semaphore. */
  function Effect(c: Connection, a: Action, free: map<Slot, int>): Option<(Connection, Change)>
    requires forall slot: Slot :: slot in free
  {
    match a
    case Accept =>
      if c.pc != Arriving then None
      else if free[Connections] <= 0 then Some((c.(pc := Shut), Unchanged))
      else Some((c.(pc := Spawning, connection := Taken(c.connection)), Take(Connections)))
    case ThreadStarts => if c.pc == Spawning then Some((c.(pc := Handling), Unchanged)) else None
    case ThreadCannotStart => if c.pc == Spawning then Some((c.(pc := Gone, connection := Given(c.connection)), Give(Connections))) else None
    case AnswersItself => if c.pc == Handling then Some((c.(pc := Ending), Unchanged)) else None
    case TakesRoute(path) =>
      if c.pc != Handling then None
      else
        var slot := RouteSlot(path);
        if slot.None? then Some((c.(pc := HasRoute, route := None), Unchanged))
        else if free[slot.value] <= 0 then Some((c.(pc := Ending), Unchanged))
        else Some((c.(pc := HasRoute, route := slot, routed := Taken(c.routed)), Take(slot.value)))
    case TakesInFlight =>
      if c.pc != HasRoute then None
      else if free[InFlight] > 0 then Some((c.(pc := Forwarding, inFlight := Taken(c.inFlight)), Take(InFlight)))
      else if c.route.None? then Some((c.(pc := Ending), Unchanged))
      else Some((c.(pc := Ending, routed := Given(c.routed)), Give(c.route.value)))
    case UpstreamFails => if c.pc == Forwarding then Some((c.(pc := Leaving), Unchanged)) else None
    case WatcherStarts => if c.pc == Forwarding then Some((c.(pc := Watched), Unchanged)) else None
    case WatcherCannotStart => if c.pc == Forwarding then Some((c.(pc := Ending, stranded := true), Unchanged)) else None
    case ForwardEnds => if c.pc == Watched then Some((c.(pc := Leaving), Unchanged)) else None
    case ReleasesInFlight => if c.pc == Leaving then Some((c.(pc := LeavingRoute, inFlight := Given(c.inFlight)), Give(InFlight))) else None
    case ReleasesRoute =>
      if c.pc != LeavingRoute then None
      else if c.route.None? then Some((c.(pc := Ending), Unchanged))
      else Some((c.(pc := Ending, routed := Given(c.routed)), Give(c.route.value)))
    case ReleasesConnection => if c.pc == Ending then Some((c.(pc := Gone, connection := Given(c.connection)), Give(Connections))) else None
  }

  datatype State = State(capacity: map<Slot, nat>, free: map<Slot, int>, connections: seq<Connection>)

  ghost predicate Covers(m: map<Slot, int>) { forall slot: Slot :: slot in m }

  function Applied(free: map<Slot, int>, change: Change): map<Slot, int>
    requires forall slot: Slot :: slot in free
  {
    match change
    case Unchanged => free
    case Take(slot) => free[slot := free[slot] - 1]
    case Give(slot) => free[slot := free[slot] + 1]
  }

  datatype Move = Move(connection: nat, action: Action)

  function Step(s: State, m: Move): State
    requires forall slot: Slot :: slot in s.free
  {
    if m.connection >= |s.connections| then s
    else
      match Effect(s.connections[m.connection], m.action, s.free)
      case None => s
      case Some((c, change)) => s.(connections := s.connections[m.connection := c], free := Applied(s.free, change))
  }

  // ----- What each connection keeps

  predicate HoldsConnection(c: Connection) {
    c.pc != Arriving && c.pc != Shut && c.pc != Gone
  }

  predicate HoldsInFlight(c: Connection) {
    c.stranded || c.pc == Forwarding || c.pc == Watched || c.pc == Leaving
  }

  predicate HoldsRoute(c: Connection) {
    c.route.Some? && (c.stranded || c.pc == HasRoute || c.pc == Forwarding || c.pc == Watched || c.pc == Leaving || c.pc == LeavingRoute)
  }

  predicate Holds(c: Connection, slot: Slot) {
    if slot == Connections then HoldsConnection(c)
    else if slot == InFlight then HoldsInFlight(c)
    else HoldsRoute(c) && c.route == Some(slot)
  }

  function Held(c: Connection, slot: Slot): int { if Holds(c, slot) then 1 else 0 }

  predicate Settled(n: Count, holds: bool) {
    n.taken <= 1 && n.taken == n.returned + if holds then 1 else 0
  }

  predicate BeforeForward(c: Connection) {
    c.pc == Arriving || c.pc == Shut || c.pc == Spawning || c.pc == Handling
  }

  /** No permit is taken twice, none is given back twice, and those taken but not given back are
      exactly those the connection stands inside of. */
  predicate Coherent(c: Connection) {
    && Settled(c.connection, HoldsConnection(c))
    && Settled(c.inFlight, HoldsInFlight(c))
    && Settled(c.routed, HoldsRoute(c))
    && (c.route.Some? ==> c.route.value != Connections && c.route.value != InFlight)
    && (c.stranded ==> c.pc == Ending || c.pc == Gone)
    && (BeforeForward(c) ==> c.route == None && c.routed.taken == 0)
    && (BeforeForward(c) || c.pc == HasRoute ==> c.inFlight.taken == 0)
    && (c.pc == Arriving ==> c.connection.taken == 0)
  }

  lemma EffectKeepsCoherent(c: Connection, a: Action, free: map<Slot, int>)
    requires Covers(free) && Coherent(c) && Effect(c, a, free).Some?
    ensures Coherent(Effect(c, a, free).value.0)
    ensures match Effect(c, a, free).value.1
            case Unchanged => forall slot: Slot :: Held(Effect(c, a, free).value.0, slot) == Held(c, slot)
            case Take(x) => free[x] > 0 && forall slot: Slot :: Held(Effect(c, a, free).value.0, slot) == Held(c, slot) + (if slot == x then 1 else 0)
            case Give(x) => Held(c, x) == 1 && forall slot: Slot :: Held(Effect(c, a, free).value.0, slot) == Held(c, slot) - (if slot == x then 1 else 0)
  {
  }

  function TotalHeld(connections: seq<Connection>, slot: Slot): int {
    if connections == [] then 0
    else TotalHeld(connections[..|connections| - 1], slot) + Held(connections[|connections| - 1], slot)
  }

  lemma {:induction false} TotalAfterUpdate(connections: seq<Connection>, i: nat, c: Connection, slot: Slot)
    requires i < |connections|
    ensures TotalHeld(connections[i := c], slot) == TotalHeld(connections, slot) - Held(connections[i], slot) + Held(c, slot)
  {
    var init := connections[..|connections| - 1];
    if i == |connections| - 1 {
      assert connections[i := c][..|connections| - 1] == init;
    } else {
      assert connections[i := c][..|connections| - 1] == init[i := c];
      TotalAfterUpdate(init, i, c, slot);
    }
  }

  lemma {:induction false} TotalBounds(connections: seq<Connection>, i: nat, slot: Slot)
    requires i < |connections|
    ensures TotalHeld(connections, slot) >= Held(connections[i], slot)
  {
    TotalNonNegative(connections[..|connections| - 1], slot);
    if i < |connections| - 1 {
      TotalBounds(connections[..|connections| - 1], i, slot);
    }
  }

  lemma {:induction false} TotalNonNegative(connections: seq<Connection>, slot: Slot)
    ensures TotalHeld(connections, slot) >= 0
  {
    if connections != [] {
      TotalNonNegative(connections[..|connections| - 1], slot);
    }
  }

  /** Free plus held permits of a semaphore equal its capacity. */
  predicate Balanced(s: State, slot: Slot) {
    && slot in s.free && slot in s.capacity
    && 0 <= s.free[slot] && s.free[slot] + TotalHeld(s.connections, slot) == s.capacity[slot]
  }

  /** How many permits of a semaphore a change takes. */
  function Delta(change: Change, slot: Slot): int {
    match change
    case Unchanged => 0
    case Take(x) => if x == slot then 1 else 0
    case Give(x) => if x == slot then -1 else 0
  }

  lemma AppliedMoves(free: map<Slot, int>, change: Change, slot: Slot)
    requires Covers(free)
    ensures slot in Applied(free, change) && Applied(free, change)[slot] == free[slot] - Delta(change, slot)
  {
  }

  lemma EffectMoves(c: Connection, a: Action, free: map<Slot, int>, slot: Slot)
    requires Covers(free) && Coherent(c) && Effect(c, a, free).Some?
    ensures var (c', change) := Effect(c, a, free).value;
            Held(c', slot) == Held(c, slot) + Delta(change, slot) && (Delta(change, slot) > 0 ==> free[slot] > 0)
  {
    EffectKeepsCoherent(c, a, free);
  }

  lemma StepKeepsBalance(s: State, m: Move, slot: Slot)
    requires Covers(s.free) && Balanced(s, slot) && m.connection < |s.connections| && Coherent(s.connections[m.connection])
    requires Effect(s.connections[m.connection], m.action, s.free).Some?
    ensures Balanced(Step(s, m), slot)
  {
    var c := s.connections[m.connection];
    var (c', change) := Effect(c, m.action, s.free).value;
    EffectMoves(c, m.action, s.free, slot);
    AppliedMoves(s.free, change, slot);
    TotalAfterUpdate(s.connections, m.connection, c', slot);
  }

  ghost predicate Inv(s: State) {
    && Covers(s.free) && (forall slot: Slot :: slot in s.capacity)
    && (forall i :: 0 <= i < |s.connections| ==> Coherent(s.connections[i]))
    && (forall slot: Slot :: Balanced(s, slot))
  }

  lemma StepKeepsInv(s: State, m: Move)
    requires Inv(s)
    ensures Inv(Step(s, m)) && Step(s, m).capacity == s.capacity
  {
    if m.connection < |s.connections| && Effect(s.connections[m.connection], m.action, s.free).Some? {
      EffectKeepsCoherent(s.connections[m.connection], m.action, s.free);
      forall slot: Slot
        ensures Balanced(Step(s, m), slot)
      {
        StepKeepsBalance(s, m, slot);
      }
    }
  }

  predicate AllNew(connections: seq<Connection>) {
    forall i :: 0 <= i < |connections| ==> connections[i] == NEW
  }

  ghost predicate Starts(s: State) {
    && (forall slot: Slot :: slot in s.capacity && slot in s.free && s.free[slot] == s.capacity[slot])
    && AllNew(s.connections)
  }

  lemma {:induction false} NewHoldNothing(connections: seq<Connection>, slot: Slot)
    requires AllNew(connections)
    ensures TotalHeld(connections, slot) == 0
  {
    if connections != [] {
      NewHoldNothing(connections[..|connections| - 1], slot);
    }
  }

  lemma StartsInv(s: State)
    requires Starts(s)
    ensures Inv(s)
  {
    assert Coherent(NEW);
    forall slot: Slot
      ensures TotalHeld(s.connections, slot) == 0
    {
      NewHoldNothing(s.connections, slot);
    }
  }

  /** The states after each step of an interleaving. */
  ghost predicate IsRun(states: seq<State>, moves: seq<Move>) {
    && |states| == |moves| + 1 && Starts(states[0])
    && forall i :: 0 <= i < |moves| ==> Covers(states[i].free) && states[i + 1] == Step(states[i], moves[i])
  }

  /** In every state of every interleaving, free plus held permits equal the configured capacity,
      for the connection, in-flight and route semaphores alike. */
  lemma {:induction false} PermitsAreConserved(states: seq<State>, moves: seq<Move>, n: nat)
    requires IsRun(states, moves) && n < |states|
    ensures Inv(states[n]) && states[n].capacity == states[0].capacity
    decreases n
  {
    if n == 0 {
      StartsInv(states[0]);
    } else {
      PermitsAreConserved(states, moves, n - 1);
      assert states[n - 1 + 1] == Step(states[n - 1], moves[n - 1]);
      StepKeepsInv(states[n - 1], moves[n - 1]);
    }
  }

  /** No semaphore is ever released beyond its capacity. */
  lemma ReleaseNeverOverflows(states: seq<State>, moves: seq<Move>, n: nat, m: Move, slot: Slot)
    requires IsRun(states, moves) && n < |states|
    requires Covers(states[n].free) && slot in states[n].capacity
    requires m.connection < |states[n].connections|
    requires var e := Effect(states[n].connections[m.connection], m.action, states[n].free); e.Some? && e.value.1 == Give(slot)
    ensures states[n].free[slot] < states[n].capacity[slot]
  {
    PermitsAreConserved(states, moves, n);
    assert Balanced(states[n], slot);
    EffectKeepsCoherent(states[n].connections[m.connection], m.action, states[n].free);
    TotalBounds(states[n].connections, m.connection, slot);
  }

  /** Move `m` is a failed start of the watcher thread of connection `i` while it forwards. */
  predicate StartFails(states: seq<State>, moves: seq<Move>, i: nat, m: nat)
    requires m < |moves| && m < |states|
  {
    moves[m] == Move(i, WatcherCannotStart) && i < |states[m].connections| && states[m].connections[i].pc == Forwarding
  }

  predicate StartFailed(states: seq<State>, moves: seq<Move>, i: nat, n: nat)
    requires n <= |moves| && n <= |states|
  {
    exists m :: 0 <= m < n && StartFails(states, moves, i, m)
  }

  lemma StepStrands(s: State, m: Move, i: nat)
    requires Covers(s.free) && i < |s.connections|
    ensures |Step(s, m).connections| == |s.connections|
    ensures Step(s, m).connections[i].stranded
       <==> s.connections[i].stranded || (m == Move(i, WatcherCannotStart) && s.connections[i].pc == Forwarding)
  {
  }

  lemma {:induction false} StrandedByFailedStart(states: seq<State>, moves: seq<Move>, i: nat, n: nat)
    requires IsRun(states, moves) && n < |states| && i < |states[0].connections|
    ensures |states[n].connections| == |states[0].connections|
    ensures states[n].connections[i].stranded <==> StartFailed(states, moves, i, n)
  {
    if n > 0 {
      StrandedByFailedStart(states, moves, i, n - 1);
      assert states[n - 1 + 1] == Step(states[n - 1], moves[n - 1]);
      StepStrands(states[n - 1], moves[n - 1], i);
      assert StartFailed(states, moves, i, n) <==> StartFailed(states, moves, i, n - 1) || StartFails(states, moves, i, n - 1);
    }
  }

  /** A finished connection has given back every permit it took exactly once, if and only if no
      start of its watcher thread failed; the connection slot always. */
  lemma ReleasedExactlyOnce(states: seq<State>, moves: seq<Move>, n: nat, i: nat)
    requires IsRun(states, moves) && n < |states| && i < |states[0].connections|
    ensures |states[n].connections| == |states[0].connections|
    ensures var c := states[n].connections[i];
            c.pc == Gone || c.pc == Shut ==>
              && c.connection.taken <= 1 && c.inFlight.taken <= 1 && c.routed.taken <= 1
              && c.connection.returned == c.connection.taken
              && (c.inFlight.returned == c.inFlight.taken && c.routed.returned == c.routed.taken <==> !StartFailed(states, moves, i, n))
  {
    StrandedByFailedStart(states, moves, i, n);
    PermitsAreConserved(states, moves, n);
    assert Coherent(states[n].connections[i]);
  }

  /** A connection whose watcher cannot be started ends with its in-flight and route permits taken,
      and none of its remaining steps gives them back. */
  lemma UnstartedWatcherStrandsPermits(c: Connection, free: map<Slot, int>)
    requires Covers(free) && Coherent(c) && c.pc == Forwarding
    ensures var c1 := Effect(c, WatcherCannotStart, free).value.0;
            var c2 := Effect(c1, ReleasesConnection, free).value.0;
            && c2.pc == Gone && Held(c2, InFlight) == 1 && (c.route.Some? ==> Held(c2, c.route.value) == 1)
            && forall a: Action :: Effect(c2, a, free).None?
  {
  }

  /** The last state of a run differs from its first in its first connection and the free permits. */
  ghost predicate Reaches(states: seq<State>, moves: seq<Move>, c: Connection, free: map<Slot, int>) {
    && IsRun(states, moves) && states[0].connections != [] && Covers(free)
    && states[|moves|] == State(states[0].capacity, free, states[0].connections[0 := c])
  }

  lemma Advance(states: seq<State>, moves: seq<Move>, c: Connection, free: map<Slot, int>, a: Action, c': Connection, change: Change)
    returns (states': seq<State>, moves': seq<Move>)
    requires Reaches(states, moves, c, free) && Effect(c, a, free) == Some((c', change))
    ensures Reaches(states', moves', c', Applied(free, change)) && states'[0] == states[0]
  {
    var s, m := states[|moves|], Move(0, a);
    states', moves' := states + [Step(s, m)], moves + [m];
    assert s.connections[0] == c;
    assert states[0].connections[0 := c][0 := c'] == states[0].connections[0 := c'];
    forall i | 0 <= i < |moves'|
      ensures Covers(states'[i].free) && states'[i + 1] == Step(states'[i], moves'[i])
    {
      assert i < |moves| ==> states'[i] == states[i] && states'[i + 1] == states[i + 1];
    }
  }

  const HANDLING: Connection := NEW.(pc := Handling, connection := Count(1, 0))

  const FORWARDING: Connection :=
    Connection(Forwarding, Some(Generation), false, Count(1, 0), Count(1, 0), Count(1, 0))

  lemma GetsHandled(s0: State) returns (states: seq<State>, moves: seq<Move>)
    requires Starts(s0) && s0.connections != [] && Covers(s0.free) && s0.free[Connections] >= 1
    ensures Reaches(states, moves, HANDLING, Applied(s0.free, Take(Connections))) && states[0] == s0
  {
    states, moves := [s0], [];
    assert s0.connections[0 := NEW] == s0.connections;
    var spawning := NEW.(pc := Spawning, connection := Count(1, 0));
    states, moves := Advance(states, moves, NEW, s0.free, Accept, spawning, Take(Connections));
    states, moves := Advance(states, moves, spawning, Applied(s0.free, Take(Connections)), ThreadStarts, HANDLING, Unchanged);
  }

  lemma GetsForwarded(states: seq<State>, moves: seq<Move>, free: map<Slot, int>) returns (states': seq<State>, moves': seq<Move>)
    requires Reaches(states, moves, HANDLING, free) && free[InFlight] >= 1 && free[Generation] >= 1
    ensures Reaches(states', moves', FORWARDING, Applied(Applied(free, Take(Generation)), Take(InFlight))) && states'[0] == states[0]
  {
    var routed := HANDLING.(pc := HasRoute, route := Some(Generation), routed := Count(1, 0));
    states', moves' := Advance(states, moves, HANDLING, free, TakesRoute("/v1/responses"), routed, Take(Generation));
    states', moves' := Advance(states', moves', routed, Applied(free, Take(Generation)), TakesInFlight, FORWARDING, Take(InFlight));
  }

  lemma LosesPermits(states: seq<State>, moves: seq<Move>, free: map<Slot, int>) returns (states': seq<State>, moves': seq<Move>, c: Connection)
    requires Reaches(states, moves, FORWARDING, free)
    ensures Reaches(states', moves', c, Applied(free, Give(Connections))) && states'[0] == states[0] && c.pc == Gone
  {
    var ending := FORWARDING.(pc := Ending, stranded := true);
    states', moves' := Advance(states, moves, FORWARDING, free, WatcherCannotStart, ending, Unchanged);
    c := ending.(pc := Gone, connection := Count(1, 1));
    states', moves' := Advance(states', moves', ending, free, ReleasesConnection, c, Give(Connections));
  }

  lemma TakenAndGiven(free: map<Slot, int>)
    requires Covers(free)
    ensures var taken := Applied(Applied(Applied(free, Take(Connections)), Take(Generation)), Take(InFlight));
            Covers(taken) && Applied(taken, Give(Connections)) == free[InFlight := free[InFlight] - 1][Generation := free[Generation] - 1]
  {
  }

  /** From any start with a free permit of each kind it needs, one connection to `/v1/responses`
      whose watcher cannot be started ends the run with an in-flight and a generation permit gone,
      and the connection with them. */
  lemma UnstartedWatcherLosesPermits(s0: State) returns (states: seq<State>, moves: seq<Move>, c: Connection)
    requires Starts(s0) && s0.connections != [] && Covers(s0.free)
    requires s0.capacity[Connections] >= 1 && s0.capacity[InFlight] >= 1 && s0.capacity[Generation] >= 1
    ensures Reaches(states, moves, c, s0.free[InFlight := s0.capacity[InFlight] - 1][Generation := s0.capacity[Generation] - 1])
    ensures states[0] == s0 && c.pc == Gone
  {
    var taken := Applied(s0.free, Take(Connections));
    states, moves := GetsHandled(s0);
    states, moves := GetsForwarded(states, moves, taken);
    states, moves, c := LosesPermits(states, moves, Applied(Applied(taken, Take(Generation)), Take(InFlight)));
    TakenAndGiven(s0.free);
  }

  // ----- Progress and refusals

  function StepsLeft(c: Connection): nat {
    match c.pc
    case Arriving => 9
    case Spawning => 8
    case Handling => 7
    case HasRoute => 6
    case Forwarding => 5
    case Watched => 4
    case Leaving => 3
    case LeavingRoute => 2
    case Ending => 1
    case _ => 0
  }

  /** Every step brings its connection nearer to its end. */
  lemma EveryStepProgresses(c: Connection, a: Action, free: map<Slot, int>)
    requires Covers(free) && Effect(c, a, free).Some?
    ensures StepsLeft(Effect(c, a, free).value.0) < StepsLeft(c)
  {
  }

  /** A connection that has not ended can always take a step. */
  lemma NeverStuck(c: Connection, free: map<Slot, int>)
    requires Covers(free) && c.pc != Gone && c.pc != Shut
    ensures exists a :: Effect(c, a, free).Some?
  {
    var a := match c.pc
      case Arriving => Accept
      case Spawning => ThreadStarts
      case Handling => AnswersItself
      case HasRoute => TakesInFlight
      case Forwarding => UpstreamFails
      case Watched => ForwardEnds
      case Leaving => ReleasesInFlight
      case LeavingRoute => ReleasesRoute
      case _ => ReleasesConnection;
    assert Effect(c, a, free).Some?;
  }

  /** A connection is shut, and a request answered over capacity, exactly when the permit it needs is
      not free. */
  lemma RefusedExactlyWhenFull(c: Connection, path: string, free: map<Slot, int>)
    requires Covers(free)
    ensures c.pc == Arriving ==> Effect(c, Accept, free).Some? && (Effect(c, Accept, free).value.0.pc == Shut <==> free[Connections] <= 0)
    ensures c.pc == Handling ==>
              && Effect(c, TakesRoute(path), free).Some?
              && (Effect(c, TakesRoute(path), free).value.0.pc == Ending <==> RouteSlot(path).Some? && free[RouteSlot(path).value] <= 0)
    ensures c.pc == HasRoute ==> Effect(c, TakesInFlight, free).Some? && (Effect(c, TakesInFlight, free).value.0.pc == Ending <==> free[InFlight] <= 0)
  {
  }

  /** The three decision routes share one semaphore, generation and the two ranking routes have their
      own, and no other path has one. */
  lemma RoutesShare(path: string)
    ensures RouteSlot("/v1/decisions") == RouteSlot("/v1/c3r/decide") == RouteSlot("/v1/c3r/execute")
    ensures RouteSlot("/v1/responses") != RouteSlot("/v1/decisions") && RouteSlot("/v1/system-one") != RouteSlot("/v1/c3r/rank")
    ensures RouteSlot(path).Some? <==>
              path in {"/v1/responses", "/v1/system-one", "/v1/c3r/rank", "/v1/decisions", "/v1/c3r/decide", "/v1/c3r/execute"}
    ensures RouteSlot(path).Some? ==> RouteSlot(path).value != Connections && RouteSlot(path).value != InFlight
  {
    var a, b, c, d, e, f := "/v1/responses", "/v1/system-one", "/v1/c3r/rank", "/v1/decisions", "/v1/c3r/decide", "/v1/c3r/execute";
    assert |a| == 13 && |b| == 14 && |c| == 12 && |d| == 13 && |e| == 14 && |f| == 15;
    assert a[4] != d[4] && b[4] != e[4];
  }
}
