/** The generation-capacity protocol (c3r/http_service.py:181-247 and 331-348): any number of
    request handlers, each with a watcher thread that may release the permit first, over one
    bounded semaphore. Every step below is atomic; a run is any interleaving of steps, so it
    covers every schedule, failure point and disconnect. */
module GenerationCapacity {
  import opened Schema

  /** Where the handler thread of a request stands. */
  datatype HandlerPc =
    | Arrived        // before `generation_capacity.acquire`
    | TurnedAway     // answered 429
    | Responding     // inside `responses.respond`
    | Opening        // inside `_open_stream`
    | Headers        // `_send_stream`: sending headers, no watcher yet
    | Sending        // iterating over the events
    | Finally        // in the finally block, before `release_capacity`
    | AwaitLock | HasLock | MustRelease | MustUnlock
    | Done
    | Stranded       // the watcher did not start, and joining it raised before the release

  datatype WatcherPc =
    | NoWatcher | Watching | SawDisconnect
    | WaitsLock | HoldsLock | WillRelease | WillUnlock
    | Exited

  datatype Owner = Handler | Watcher

  /** One request: its two threads and what they share. */
  datatype Request = Request(
    pc: HandlerPc,
    watcher: WatcherPc,
    stop: bool,              // `stop_watch`
    released: bool,          // guarded by `release_lock`
    lock: Option<Owner>,     // `release_lock`
    acquired: nat,           // permits this request took
    returned: nat)           // permits this request gave back

  const ARRIVED: Request := Request(Arrived, NoWatcher, false, false, None, 0, 0)

  datatype State = State(capacity: nat, free: int, requests: seq<Request>)

  datatype Action =
    | Acquire(stream: bool) | RespondEnds
    | OpenFails | OpenSucceeds
    | HeadersFail | WatcherStarts | WatcherCannotStart
    | SendingEnds | FinallyReached
    | HandlerLocks | HandlerTests | HandlerReleases | HandlerUnlocks
    | WatcherStops | WatcherSeesDisconnect | WatcherRecords
    | WatcherLocks | WatcherTests | WatcherReleases | WatcherUnlocks

  /** The effect of an action on its request; `None` when the action is not enabled. The second
      component is the change of the semaphore. */
  function Effect(r: Request, a: Action, free: int): Option<(Request, int)> {
    match a
    case Acquire(stream) =>
      if r.pc != Arrived then None
      else if free <= 0 then Some((r.(pc := TurnedAway), 0))
      else Some((r.(pc := if stream then Opening else Responding, acquired := r.acquired + 1), -1))
    // `finally: release()` around respond, and `except BaseException: release()` around opening
    case RespondEnds => if r.pc == Responding then Some((r.(pc := Done, returned := r.returned + 1), 1)) else None
    case OpenFails => if r.pc == Opening then Some((r.(pc := Done, returned := r.returned + 1), 1)) else None
    case OpenSucceeds => if r.pc == Opening then Some((r.(pc := Headers), 0)) else None
    case HeadersFail => if r.pc == Headers then Some((r.(pc := Finally), 0)) else None
    case WatcherStarts => if r.pc == Headers then Some((r.(pc := Sending, watcher := Watching), 0)) else None
    // `Thread.start` raises; the finally block then joins a thread that never started, which raises too
    case WatcherCannotStart => if r.pc == Headers then Some((r.(pc := Stranded, stop := true), 0)) else None
    case SendingEnds => if r.pc == Sending then Some((r.(pc := Finally), 0)) else None
    // set `stop_watch`, close the events, join the watcher for at most half a second
    case FinallyReached => if r.pc == Finally then Some((r.(pc := AwaitLock, stop := true), 0)) else None
    case HandlerLocks => if r.pc == AwaitLock && r.lock == None then Some((r.(pc := HasLock, lock := Some(Handler)), 0)) else None
    case HandlerTests =>
      if r.pc != HasLock then None
      else if r.released then Some((r.(pc := MustUnlock), 0))
      else Some((r.(pc := MustRelease, released := true), 0))
    case HandlerReleases => if r.pc == MustRelease then Some((r.(pc := MustUnlock, returned := r.returned + 1), 1)) else None
    case HandlerUnlocks => if r.pc == MustUnlock then Some((r.(pc := Done, lock := None), 0)) else None
    case WatcherStops => if r.watcher == Watching && r.stop then Some((r.(watcher := Exited), 0)) else None
    case WatcherSeesDisconnect => if r.watcher == Watching then Some((r.(watcher := SawDisconnect), 0)) else None
    // `record_disconnect` under the lock, then `events.abort()`
    case WatcherRecords => if r.watcher == SawDisconnect && r.lock == None then Some((r.(watcher := WaitsLock), 0)) else None
    case WatcherLocks => if r.watcher == WaitsLock && r.lock == None then Some((r.(watcher := HoldsLock, lock := Some(Watcher)), 0)) else None
    case WatcherTests =>
      if r.watcher != HoldsLock then None
      else if r.released then Some((r.(watcher := WillUnlock), 0))
      else Some((r.(watcher := WillRelease, released := true), 0))
    case WatcherReleases => if r.watcher == WillRelease then Some((r.(watcher := WillUnlock, returned := r.returned + 1), 1)) else None
    case WatcherUnlocks => if r.watcher == WillUnlock then Some((r.(watcher := Exited, lock := None), 0)) else None
  }

  datatype Move = Move(request: nat, action: Action)

  function Step(s: State, m: Move): State {
    if m.request >= |s.requests| then s
    else
      match Effect(s.requests[m.request], m.action, s.free)
      case None => s
      case Some((r, change)) => s.(requests := s.requests[m.request := r], free := s.free + change)
  }

  predicate AllArrived(requests: seq<Request>) {
    forall i :: 0 <= i < |requests| ==> requests[i] == ARRIVED
  }

  /** `requests` arrive at a server with `capacity` free permits and take the steps `moves`. */
  function Run(capacity: nat, requests: seq<Request>, moves: seq<Move>): State {
    if moves == [] then State(capacity, capacity, requests)
    else Step(Run(capacity, requests, moves[..|moves| - 1]), moves[|moves| - 1])
  }

  // ----- What each request keeps

  predicate HandlerInside(r: Request) { r.pc == HasLock || r.pc == MustRelease || r.pc == MustUnlock }

  predicate WatcherInside(r: Request) { r.watcher == HoldsLock || r.watcher == WillRelease || r.watcher == WillUnlock }

  predicate NoWatcherYet(r: Request) {
    r.pc == Arrived || r.pc == TurnedAway || r.pc == Responding || r.pc == Opening || r.pc == Headers || r.pc == Stranded
  }

  /** The lock is held by the thread inside it; `released` says the permit is given back or about
      to be, by exactly one of the two threads; a finished handler leaves nothing held. */
  predicate Coherent(r: Request) {
    && (r.lock == Some(Handler) <==> HandlerInside(r))
    && (r.lock == Some(Watcher) <==> WatcherInside(r))
    && r.acquired == (if r.pc == Arrived || r.pc == TurnedAway then 0 else 1)
    && r.returned <= r.acquired
    && (NoWatcherYet(r) ==>
          r.watcher == NoWatcher && !r.released && r.returned == 0 && r.lock == None)
    && (r.pc == MustRelease || r.watcher == WillRelease ==> r.released && r.returned == 0)
    && (r.released && r.pc != MustRelease && r.watcher != WillRelease ==> r.returned == 1)
    && (!r.released && r.pc != Done ==> r.returned == 0)
    && (r.pc == MustUnlock || r.watcher == WillUnlock ==> r.returned == 1)
    && (r.pc == Done ==> r.returned == 1 && (r.released || r.watcher == NoWatcher))
    && !(r.pc == MustRelease && r.watcher == WillRelease)
  }

  function Held(r: Request): int { r.acquired - r.returned }

  function TotalHeld(requests: seq<Request>): int {
    if requests == [] then 0 else TotalHeld(requests[..|requests| - 1]) + Held(requests[|requests| - 1])
  }

  predicate Inv(s: State) {
    && s.free >= 0
    && (forall i :: 0 <= i < |s.requests| ==> Coherent(s.requests[i]))
    && s.free + TotalHeld(s.requests) == s.capacity
  }

  /** The request stays coherent and the semaphore moves by what the request gives or takes. */
  predicate Accounted(r: Request, r': Request, change: int, free: int) {
    && Coherent(r') && Held(r') == Held(r) - change
    && (change < 0 ==> free > 0 && change == -1)
    && (change > 0 ==> Held(r) == 1 && change == 1)
  }

  predicate WatcherAction(a: Action) {
    a.WatcherLocks? || a.WatcherTests? || a.WatcherReleases? || a.WatcherUnlocks?
  }

  predicate WatchAction(a: Action) { a.WatcherStops? || a.WatcherSeesDisconnect? || a.WatcherRecords? }

  lemma WatchKeepsCoherent(r: Request, a: Action, free: int)
    requires Coherent(r) && WatchAction(a) && Effect(r, a, free).Some?
    ensures Accounted(r, Effect(r, a, free).value.0, Effect(r, a, free).value.1, free)
  {
  }

  lemma WatcherKeepsCoherent(r: Request, a: Action, free: int)
    requires Coherent(r) && WatcherAction(a) && Effect(r, a, free).Some?
    ensures Accounted(r, Effect(r, a, free).value.0, Effect(r, a, free).value.1, free)
  {
  }

  predicate ReleaseAction(a: Action) { a.HandlerLocks? || a.HandlerTests? || a.HandlerReleases? || a.HandlerUnlocks? }

  lemma ReleaseKeepsCoherent(r: Request, a: Action, free: int)
    requires Coherent(r) && ReleaseAction(a) && Effect(r, a, free).Some?
    ensures Accounted(r, Effect(r, a, free).value.0, Effect(r, a, free).value.1, free)
  {
  }

  predicate SendAction(a: Action) {
    a.HeadersFail? || a.WatcherStarts? || a.WatcherCannotStart? || a.SendingEnds? || a.FinallyReached?
  }

  lemma SendKeepsCoherent(r: Request, a: Action, free: int)
    requires Coherent(r) && SendAction(a) && Effect(r, a, free).Some?
    ensures Accounted(r, Effect(r, a, free).value.0, Effect(r, a, free).value.1, free)
  {
  }

  predicate OpenAction(a: Action) { a.Acquire? || a.RespondEnds? || a.OpenFails? || a.OpenSucceeds? }

  lemma OpenKeepsCoherent(r: Request, a: Action, free: int)
    requires Coherent(r) && OpenAction(a) && Effect(r, a, free).Some?
    ensures Accounted(r, Effect(r, a, free).value.0, Effect(r, a, free).value.1, free)
  {
  }

  /** A step keeps its request coherent and accounted for. */
  lemma EffectKeepsCoherent(r: Request, a: Action, free: int)
    requires Coherent(r) && Effect(r, a, free).Some?
    ensures Accounted(r, Effect(r, a, free).value.0, Effect(r, a, free).value.1, free)
  {
    if WatchAction(a) {
      WatchKeepsCoherent(r, a, free);
    } else if WatcherAction(a) {
      WatcherKeepsCoherent(r, a, free);
    } else if ReleaseAction(a) {
      ReleaseKeepsCoherent(r, a, free);
    } else if SendAction(a) {
      SendKeepsCoherent(r, a, free);
    } else {
      OpenKeepsCoherent(r, a, free);
    }
  }

  lemma {:induction false} TotalAfterUpdate(requests: seq<Request>, i: nat, r: Request)
    requires i < |requests|
    ensures TotalHeld(requests[i := r]) == TotalHeld(requests) - Held(requests[i]) + Held(r)
  {
    var init := requests[..|requests| - 1];
    if i == |requests| - 1 {
      assert requests[i := r][..|requests| - 1] == init;
    } else {
      assert requests[i := r][..|requests| - 1] == init[i := r];
      TotalAfterUpdate(init, i, r);
    }
  }

  lemma {:induction false} TotalBounds(requests: seq<Request>, i: nat)
    requires i < |requests| && forall j :: 0 <= j < |requests| ==> Coherent(requests[j])
    ensures TotalHeld(requests) >= Held(requests[i])
  {
    TotalNonNegative(requests[..|requests| - 1]);
    if i < |requests| - 1 {
      TotalBounds(requests[..|requests| - 1], i);
    }
  }

  lemma {:induction false} TotalNonNegative(requests: seq<Request>)
    requires forall j :: 0 <= j < |requests| ==> Coherent(requests[j])
    ensures TotalHeld(requests) >= 0
  {
    if requests != [] {
      TotalNonNegative(requests[..|requests| - 1]);
    }
  }

  lemma StepKeepsInv(s: State, m: Move)
    requires Inv(s)
    ensures Inv(Step(s, m)) && Step(s, m).capacity == s.capacity
  {
    if m.request < |s.requests| {
      var e := Effect(s.requests[m.request], m.action, s.free);
      if e.Some? {
        EffectKeepsCoherent(s.requests[m.request], m.action, s.free);
        TotalAfterUpdate(s.requests, m.request, e.value.0);
      }
    }
  }

  lemma {:induction false} NothingHeld(requests: seq<Request>)
    requires forall i :: 0 <= i < |requests| ==> Held(requests[i]) == 0
    ensures TotalHeld(requests) == 0
  {
    if requests != [] {
      NothingHeld(requests[..|requests| - 1]);
    }
  }

  lemma StartsInv(capacity: nat, requests: seq<Request>)
    requires AllArrived(requests)
    ensures Inv(State(capacity, capacity, requests))
  {
    assert Coherent(ARRIVED) && Held(ARRIVED) == 0;
    NothingHeld(requests);
  }

  lemma InvBounds(s: State)
    requires Inv(s)
    ensures 0 <= s.free <= s.capacity
  {
    TotalNonNegative(s.requests);
  }

  lemma {:induction false} RunKeepsInv(capacity: nat, requests: seq<Request>, moves: seq<Move>)
    requires AllArrived(requests)
    ensures Inv(Run(capacity, requests, moves)) && Run(capacity, requests, moves).capacity == capacity
    decreases |moves|
  {
    if moves == [] {
      StartsInv(capacity, requests);
    } else {
      RunKeepsInv(capacity, requests, moves[..|moves| - 1]);
      StepKeepsInv(Run(capacity, requests, moves[..|moves| - 1]), moves[|moves| - 1]);
    }
  }

  /** In every interleaving, free permits plus permits held always equal the capacity. */
  lemma PermitsAreConserved(capacity: nat, requests: seq<Request>, moves: seq<Move>)
    requires AllArrived(requests)
    ensures var s := Run(capacity, requests, moves);
            Inv(s) && s.free + TotalHeld(s.requests) == capacity && 0 <= s.free <= capacity
  {
    RunKeepsInv(capacity, requests, moves);
    InvBounds(Run(capacity, requests, moves));
  }

  /** The bounded semaphore is never released beyond its capacity, so `release` never raises. */
  lemma ReleaseNeverOverflows(capacity: nat, requests: seq<Request>, moves: seq<Move>, m: Move)
    requires AllArrived(requests)
    ensures var s := Run(capacity, requests, moves);
            (m.request < |s.requests| && Effect(s.requests[m.request], m.action, s.free).Some?
             && Effect(s.requests[m.request], m.action, s.free).value.1 > 0) ==> s.free < capacity
  {
    var s := Run(capacity, requests, moves);
    PermitsAreConserved(capacity, requests, moves);
    if m.request < |s.requests| && Effect(s.requests[m.request], m.action, s.free).Some? {
      EffectKeepsCoherent(s.requests[m.request], m.action, s.free);
      TotalBounds(s.requests, m.request);
    }
  }

  /** The handler thread of the request has returned. */
  predicate HandlerReturned(r: Request) { r.pc == TurnedAway || r.pc == Done || r.pc == Stranded }

  /** Move `n` is a failed start of the watcher thread of request `i`, after the headers were sent. */
  predicate StartFails(capacity: nat, requests: seq<Request>, moves: seq<Move>, i: nat, n: nat)
    requires n < |moves|
  {
    var s := Run(capacity, requests, moves[..n]);
    moves[n] == Move(i, WatcherCannotStart) && i < |s.requests| && s.requests[i].pc == Headers
  }

  predicate StartFailed(capacity: nat, requests: seq<Request>, moves: seq<Move>, i: nat) {
    exists n :: 0 <= n < |moves| && StartFails(capacity, requests, moves, i, n)
  }

  lemma StartFailedGrows(capacity: nat, requests: seq<Request>, moves: seq<Move>, i: nat)
    requires moves != []
    ensures StartFailed(capacity, requests, moves, i)
       <==> StartFailed(capacity, requests, moves[..|moves| - 1], i) || StartFails(capacity, requests, moves, i, |moves| - 1)
  {
    var init := moves[..|moves| - 1];
    forall n | 0 <= n < |init|
      ensures StartFails(capacity, requests, moves, i, n) == StartFails(capacity, requests, init, i, n)
    {
      assert init[..n] == moves[..n];
    }
  }

  /** A step strands a request only by the failed start, and nothing strands it or frees it later. */
  lemma StepStrands(s: State, m: Move, i: nat)
    requires i < |s.requests|
    ensures |Step(s, m).requests| == |s.requests|
    ensures Step(s, m).requests[i].pc == Stranded
       <==> s.requests[i].pc == Stranded || (m == Move(i, WatcherCannotStart) && s.requests[i].pc == Headers)
  {
  }

  lemma {:induction false} StrandedByFailedStart(capacity: nat, requests: seq<Request>, moves: seq<Move>, i: nat)
    requires AllArrived(requests) && i < |requests|
    ensures |Run(capacity, requests, moves).requests| == |requests|
    ensures Run(capacity, requests, moves).requests[i].pc == Stranded <==> StartFailed(capacity, requests, moves, i)
    decreases |moves|
  {
    if moves != [] {
      var init := moves[..|moves| - 1];
      StrandedByFailedStart(capacity, requests, init, i);
      StartFailedGrows(capacity, requests, moves, i);
      StepStrands(Run(capacity, requests, init), moves[|moves| - 1], i);
    }
  }

  /** Once its handler has returned, a request that took a permit has given it back exactly once,
      if and only if no start of its watcher thread failed. */
  lemma ReleasedExactlyOnce(capacity: nat, requests: seq<Request>, moves: seq<Move>, i: nat)
    requires AllArrived(requests) && i < |requests|
    ensures |Run(capacity, requests, moves).requests| == |requests|
    ensures var r := Run(capacity, requests, moves).requests[i];
            HandlerReturned(r) ==>
              && r.acquired <= 1 && (r.pc == TurnedAway <==> r.acquired == 0) && r.returned <= r.acquired
              && (r.returned == r.acquired <==> !StartFailed(capacity, requests, moves, i))
  {
    PermitsAreConserved(capacity, requests, moves);
    StrandedByFailedStart(capacity, requests, moves, i);
  }

  function StrandedCount(requests: seq<Request>): nat {
    if requests == [] then 0
    else StrandedCount(requests[..|requests| - 1]) + if requests[|requests| - 1].pc == Stranded then 1 else 0
  }

  lemma {:induction false} ReturnedHoldStranded(requests: seq<Request>)
    requires forall i :: 0 <= i < |requests| ==> Coherent(requests[i]) && HandlerReturned(requests[i])
    ensures TotalHeld(requests) == StrandedCount(requests)
  {
    if requests != [] {
      ReturnedHoldStranded(requests[..|requests| - 1]);
    }
  }

  /** When every handler has returned, all permits are free again except one for each watcher
      that could not be started. */
  lemma IdleServerHasAllPermits(capacity: nat, requests: seq<Request>, moves: seq<Move>)
    requires AllArrived(requests)
    requires var s := Run(capacity, requests, moves); forall i :: 0 <= i < |s.requests| ==> HandlerReturned(s.requests[i])
    ensures Run(capacity, requests, moves).free == capacity - StrandedCount(Run(capacity, requests, moves).requests)
  {
    PermitsAreConserved(capacity, requests, moves);
    ReturnedHoldStranded(Run(capacity, requests, moves).requests);
  }

  /** A watcher that cannot be started does cost its permit: after one such request a server with
      a single permit has none, with no handler left running. */
  lemma UnstartedWatcherStrandsPermit()
    ensures var s := Run(1, [ARRIVED], [Move(0, Acquire(true)), Move(0, OpenSucceeds), Move(0, WatcherCannotStart)]);
            s.free == 0 && |s.requests| == 1 && HandlerReturned(s.requests[0])
  {
    var m1, m2, m3 := Move(0, Acquire(true)), Move(0, OpenSucceeds), Move(0, WatcherCannotStart);
    assert [m1][..0] == [] && [m1, m2][..1] == [m1] && [m1, m2, m3][..2] == [m1, m2];
    assert Run(1, [ARRIVED], [m1]) == Step(State(1, 1, [ARRIVED]), m1);
    assert Run(1, [ARRIVED], [m1, m2]) == Step(Run(1, [ARRIVED], [m1]), m2);
    assert Run(1, [ARRIVED], [m1, m2, m3]) == Step(Run(1, [ARRIVED], [m1, m2]), m3);
  }

  // ----- Progress

  function HandlerRank(pc: HandlerPc): nat {
    match pc
    case Arrived => 11
    case Responding => 10
    case Opening => 10
    case Headers => 9
    case Sending => 8
    case Finally => 7
    case AwaitLock => 6
    case HasLock => 5
    case MustRelease => 4
    case MustUnlock => 3
    case _ => 0
  }

  function WatcherRank(pc: WatcherPc): nat {
    match pc
    case NoWatcher => 7
    case Watching => 6
    case SawDisconnect => 5
    case WaitsLock => 4
    case HoldsLock => 3
    case WillRelease => 2
    case WillUnlock => 1
    case Exited => 0
  }

  /** How many steps a request can still take at most. */
  function Rank(r: Request): nat { HandlerRank(r.pc) + WatcherRank(r.watcher) }

  /** Every step brings its request nearer to its end. */
  lemma EveryStepProgresses(r: Request, a: Action, free: int)
    requires Coherent(r) && Effect(r, a, free).Some?
    ensures Rank(Effect(r, a, free).value.0) < Rank(r)
  {
  }

  /** A request whose handler has not returned can always take a step, so no interleaving gets stuck:
      if its handler waits for the lock, its watcher is inside and can go on. */
  lemma NeverStuck(r: Request, free: int)
    requires Coherent(r) && !HandlerReturned(r)
    ensures exists a :: Effect(r, a, free).Some?
  {
    if r.lock.Some? {
      assert r.lock == Some(Handler) || r.lock == Some(Watcher) by {
        match r.lock.value
        case Handler =>
        case Watcher =>
      }
    }
    var a := match r.pc
      case Arrived => Acquire(true)
      case Responding => RespondEnds
      case Opening => OpenFails
      case Headers => HeadersFail
      case Sending => SendingEnds
      case Finally => FinallyReached
      case AwaitLock =>
        if r.lock.None? then HandlerLocks
        else if r.watcher == HoldsLock then WatcherTests
        else if r.watcher == WillRelease then WatcherReleases
        else WatcherUnlocks
      case HasLock => HandlerTests
      case MustRelease => HandlerReleases
      case MustUnlock => HandlerUnlocks
      case _ => WatcherStops;
    assert Effect(r, a, free).Some?;
  }

  /** A step from one state of a request to the next. */
  predicate Leads(r: Request, a: Action, free: int, next: Request, after: int) {
    Effect(r, a, free).Some? && Effect(r, a, free).value.0 == next && Effect(r, a, free).value.1 == after - free
  }

  /** The states a request goes through, with the permits free at each. */
  predicate Walk(states: seq<Request>, actions: seq<Action>, free: seq<int>) {
    && |states| == |free| == |actions| + 1
    && forall i :: 0 <= i < |actions| ==> Leads(states[i], actions[i], free[i], states[i + 1], free[i + 1])
  }

  lemma WalkOn(r: Request, a: Action, free: int, states: seq<Request>, actions: seq<Action>, frees: seq<int>)
    requires Walk(states, actions, frees) && Leads(r, a, free, states[0], frees[0])
    ensures Walk([r] + states, [a] + actions, [free] + frees)
  {
    var s, m, f := [r] + states, [a] + actions, [free] + frees;
    forall i | 0 <= i < |m|
      ensures Leads(s[i], m[i], f[i], s[i + 1], f[i + 1])
    {
      if i > 0 {
        assert Leads(states[i - 1], actions[i - 1], frees[i - 1], states[i], frees[i]);
      }
    }
  }

  /** From any state every handler can be driven to its return, whatever permits are free. */
  lemma {:induction false} EveryHandlerCanReturn(r: Request, free: int) returns (states: seq<Request>, actions: seq<Action>, frees: seq<int>)
    requires Coherent(r)
    ensures Walk(states, actions, frees) && |actions| <= Rank(r) && states[0] == r && frees[0] == free && HandlerReturned(states[|actions|])
    decreases Rank(r)
  {
    if HandlerReturned(r) {
      return [r], [], [free];
    }
    var a, next, change := SomeStep(r, free);
    states, actions, frees := EveryHandlerCanReturn(next, free + change);
    WalkOn(r, a, free, states, actions, frees);
    states, actions, frees := [r] + states, [a] + actions, [free] + frees;
  }

  lemma SomeStep(r: Request, free: int) returns (a: Action, next: Request, change: int)
    requires Coherent(r) && !HandlerReturned(r)
    ensures Effect(r, a, free) == Some((next, change)) && Coherent(next) && Rank(next) < Rank(r)
  {
    NeverStuck(r, free);
    a :| Effect(r, a, free).Some?;
    EveryStepProgresses(r, a, free);
    EffectKeepsCoherent(r, a, free);
    next, change := Effect(r, a, free).value.0, Effect(r, a, free).value.1;
  }

  /** A request is turned away exactly when no permit is free. */
  lemma TurnedAwayExactlyWhenFull(r: Request, stream: bool, free: int)
    requires r.pc == Arrived
    ensures Effect(r, Acquire(stream), free).Some?
    ensures var (next, change) := Effect(r, Acquire(stream), free).value;
            && (next.pc == TurnedAway <==> free <= 0)
            && (free > 0 ==> change == -1 && next.acquired == r.acquired + 1) && (free <= 0 ==> change == 0 && next.acquired == r.acquired)
  {
  }
}
