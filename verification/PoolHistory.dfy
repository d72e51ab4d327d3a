/**
 What a pool has done is never undone: the fates of requests over time.
 */
module PoolHistory {
  import opened Wrappers
  import opened Events
  import opened Fsm
  import opened FsmTheorems
  import opened Pool
  import opened PoolInvariant
  import opened PoolSteps
  import opened PoolRuns

  // ---------------------------------------------------------------- one machine

  /** What has been sent and settled stays, and a terminated machine stays as it is. */
  predicate Extends(m: Machine, r: Machine) {
    m.sent <= r.sent && m.settled <= r.settled && (m.phase.Terminated? ==> r == m)
  }

  /** Terminated with every request settled. */
  predicate Whole(m: Machine) {
    m.phase.Terminated? ==> |m.sent| == |m.settled|
  }

  lemma ReactExtends(m: Machine, event: Event)
    requires Consistent(m)
    ensures
      var r := React(m, event);
      m.sent <= r.sent && m.settled <= r.settled && (!event.ConnectionError? && Whole(m) ==> Whole(r))
  {
  }

  lemma {:induction false} ReplayExtends(m: Machine, events: seq<Event>)
    requires Consistent(m) && AllCalls(events) && Patient(m) && Whole(m)
    ensures
      var r := Replay(m, events);
      m.sent <= r.sent && m.settled <= r.settled && Whole(r)
    decreases |events|
  {
    if events != [] {
      ReactConsistent(m, events[0]);
      ReactExtends(m, events[0]);
      RestingCalls(React(m, events[0]));
      hide React, Consistent, Whole;
      ReplayExtends(React(m, events[0]), events[1..]);
    }
  }

  lemma StepExtends(m: Machine, event: Event, posts: seq<Event>)
    requires Consistent(m) && Whole(m) && !event.ConnectionError?
    ensures AllCalls(Step(m, event, posts).deferred)
    ensures
      var r := ReplayDeferred(Step(m, event, posts));
      && Consistent(r) && Patient(r) && Whole(r)
      && m.sent <= r.sent && m.settled <= r.settled
  {
    ReactConsistent(m, event);
    ReactExtends(m, event);
    StepConsistent(m, event, posts);
    var s := Step(m, event, posts);
    hide React;
    assert Consistent(s.(deferred := []));
    ReplayExtends(s.(deferred := []), s.deferred);
    hide Consistent;
  }

  lemma {:induction false} SettleExtends(m: Machine, posts: seq<Event>)
    requires AllPosted(m.inbox) && AllCalls(posts) && AllCalls(m.deferred)
    requires Consistent(m) && Patient(m) && Whole(m)
    ensures
      var r := Settle(m, posts);
      m.sent <= r.sent && m.settled <= r.settled && Whole(r)
    decreases Rank(m.phase), |m.inbox|
  {
    hide Step, ReplayDeferred, Whole;
    if m.inbox != [] {
      var n := m.(inbox := m.inbox[1..]);
      assert Consistent(n) && Whole(n) && !m.inbox[0].ConnectionError? by { WithoutFirst(m); }
      StepExtends(n, m.inbox[0], posts);
      SettleExtends(ReplayDeferred(Step(n, m.inbox[0], posts)), posts);
    }
  }

  lemma WithoutFirst(m: Machine)
    requires AllPosted(m.inbox) && m.inbox != [] && Consistent(m) && Whole(m)
    ensures Consistent(m.(inbox := m.inbox[1..])) && Whole(m.(inbox := m.inbox[1..]))
    ensures !m.inbox[0].ConnectionError?
  {
  }

  /** A machine that terminates other than by a connection error has settled all it sent. */
  lemma ProcessExtends(m: Machine, event: Event, posts: seq<Event>)
    requires Resting(m) && AllCalls(posts) && (m.phase.Idle? || m.phase.Terminated? || Holds(m.phase))
    ensures
      var r := Process(m, event, posts);
      && Extends(m, r)
      && (!event.ConnectionError? && !m.phase.Terminated? ==> Whole(r))
  {
    if m.phase.Terminated? {
    } else if event.ConnectionError? {
      ErrorPosts(m, posts);
      EventBreaks(m);
      hide Process;
    } else {
      StepExtends(m, event, posts);
      hide Step, ReplayDeferred, Settle;
      SettleExtends(ReplayDeferred(Step(m, event, posts)), posts);
    }
  }

  lemma ErrorPosts(m: Machine, posts: seq<Event>)
    requires Resting(m) && AllCalls(posts) && (m.phase.Idle? || Holds(m.phase))
    ensures Process(m, ConnectionError, posts) == Process(m, ConnectionError, [])
  {
    PostsOnlyOnArrival(m, ConnectionError, posts);
    hide Process;
  }

  // ---------------------------------------------------------------- the pool

  /** The record only grows; a connection other than `broken` that terminates has settled all it sent. */
  predicate Grows(st: State, r: State, broken: Option<Conn>) {
    && |st.machines| <= |r.machines|
    && (forall c :: 0 <= c < |st.machines| ==> Extends(st.machines[c], r.machines[c]))
    && (forall c :: 0 <= c < |st.machines| && broken != Some(c) && !st.machines[c].phase.Terminated? ==>
          Whole(r.machines[c]))
    && (forall c :: |st.machines| <= c < |r.machines| ==> !r.machines[c].phase.Terminated?)
  }

  predicate AllOk(st: State) {
    AtRest(st) && MachinesOk(st)
  }

  lemma GrowsOnward(st: State, n: State, r: State, broken: Option<Conn>)
    requires Grows(st, n, broken) && Grows(n, r, broken) && |n.machines| == |st.machines|
    ensures Grows(st, r, broken)
  {
    forall c | 0 <= c < |st.machines|
      ensures Extends(st.machines[c], r.machines[c])
      ensures broken != Some(c) && !st.machines[c].phase.Terminated? ==> Whole(r.machines[c])
    {
      assert Extends(st.machines[c], n.machines[c]) && Extends(n.machines[c], r.machines[c]);
    }
  }

  lemma UpdateGrows(st: State, c: Conn, m': Machine, ignored: seq<Request>, broken: Option<Conn>)
    requires AllOk(st) && c < |st.machines| && m'.inbox == [] && AllCalls(m'.deferred)
    requires Extends(st.machines[c], m') && MachineOk(m', st.password)
    requires broken == Some(c) || st.machines[c].phase.Terminated? || Whole(m')
    ensures
      var r := Update(st, c, m', ignored);
      && Grows(st, r, broken) && AllOk(r)
      && r.machines == st.machines[c := m']
      && r.log.(closedCallbacks := 0, lost := []) == st.log.(closedCallbacks := 0, lost := [])
      && r.log.lost == st.log.lost + ignored
  {
    hide MachineOk, AtRest, Erase;
  }

  lemma CallGrows(st: State, c: Conn)
    requires AllOk(st) && c < |st.machines|
    ensures
      var r := Call(st, c, Terminate);
      && Grows(st, r, None) && AllOk(r)
      && r.log.(closedCallbacks := 0) == st.log.(closedCallbacks := 0)
  {
    var m := st.machines[c];
    assert MachineOk(m, st.password);
    if m.phase.Terminated? {
      assert Process(m, Terminate, []) == m;
    } else {
      CallTerminate(m);
      ProcessResting(m, Terminate, []);
    }
    ProcessExtends(m, Terminate, []);
    var m' := Process(m, Terminate, []);
    assert MachineOk(m', st.password);
    hide Process, MachineOk, Update, Resting, AllOk;
    UpdateGrows(st, c, m', [], None);
    assert st.log.lost + [] == st.log.lost;
  }

  lemma {:induction false} TerminateEachGrows(st: State, copy: seq<Conn>, busy: Option<Conn>)
    requires AllOk(st) && InRange(copy, |st.machines|)
    ensures
      var r := TerminateEach(st, copy, busy).0;
      && Grows(st, r, None) && AllOk(r)
      && r.log.(closedCallbacks := 0, terminates := 0) == st.log.(closedCallbacks := 0, terminates := 0)
    decreases |copy|
  {
    hide Call, MachineOk, Grows;
    if copy == [] {
      GrowsNothing(st);
    } else {
      var counted := st.(log := st.log.(terminates := st.log.terminates + 1));
      if busy == Some(copy[0]) {
        TerminateEachGrows(counted, copy[1..], busy);
        SameMachinesGrow(st, counted, TerminateEach(counted, copy[1..], busy).0, None);
      } else {
        CallGrows(counted, copy[0]);
        var next := Call(counted, copy[0], Terminate);
        TerminateEachGrows(next, copy[1..], busy);
        GrowsOnward(counted, next, TerminateEach(next, copy[1..], busy).0, None);
        SameMachinesGrow(st, counted, TerminateEach(next, copy[1..], busy).0, None);
      }
    }
  }

  lemma GrowsNothing(st: State)
    ensures Grows(st, st, None)
  {
  }

  lemma SameMachinesGrow(st: State, n: State, r: State, broken: Option<Conn>)
    requires n.machines == st.machines && Grows(n, r, broken)
    ensures Grows(st, r, broken)
  {
    hide Extends, Whole;
  }

  // ---------------------------------------------------------------- actions

  /** The requests an action fails, those it loses, and the errors it is told of. */
  function Failing(st: State, a: Action): seq<Request> {
    if Breaking(st, a) then st.queue else []
  }

  function Losing(st: State, a: Action): seq<Request> {
    if a.Get? && !st.closed && st.ready != [] && !Live(st, st.ready[0]) then [Request(|st.log.accepted|, a.bytes)]
    else []
  }

  predicate Breaking(st: State, a: Action) {
    a.Socket? && a.event.ConnectionError? && Live(st, a.conn)
  }

  function Broken(st: State, a: Action): Option<Conn> {
    if Breaking(st, a) then Some(a.conn) else None
  }

  /** What becomes of the log. */
  predicate Logs(st: State, a: Action, r: State) {
    && r.log.cleared == st.log.cleared + Failing(st, a)
    && r.log.lost == st.log.lost + Losing(st, a)
    && r.log.errors == st.log.errors + (if Breaking(st, a) then 1 else 0)
    && st.log.accepted <= r.log.accepted
  }

  lemma ArrivalExtends(m: Machine, event: Event)
    requires Resting(m)
    ensures m.settled <= Arrival(m, event).settled && m.sent == Arrival(m, event).sent
  {
  }

  lemma ReplacedGrows(st: State, r: State, c: Conn, m': Machine, broken: Option<Conn>)
    requires c < |st.machines| && r.machines == st.machines[c := m']
    requires !st.machines[c].phase.Terminated? && st.machines[c].sent <= m'.sent && st.machines[c].settled <= m'.settled
    requires broken == Some(c) || Whole(m')
    ensures Grows(st, r, broken)
  {
  }

  lemma LateGrows(st: State, c: Conn, event: Event)
    requires AtRest(st) && InRange(st.connections, |st.machines|)
    requires c < |st.machines| && st.machines[c].phase.Terminated?
    ensures Grows(st, SocketEvent(st, c, event), None) && Logs(st, Socket(c, event), SocketEvent(st, c, event))
  {
    LateEvent(st, c, event);
    hide SocketEvent;
  }

  lemma BreakGrows(st: State, c: Conn)
    requires AllOk(st) && InRange(st.connections, |st.machines|) && Live(st, c)
    ensures
      var r := SocketEvent(st, c, ConnectionError);
      && Grows(st, r, Some(c)) && Logs(st, Socket(c, ConnectionError), r)
      && r.machines[c].sent == st.machines[c].sent && r.machines[c].settled == st.machines[c].settled
      && r.machines[c].phase.Terminated?
  {
    assert MachineOk(st.machines[c], st.password);
    hide MachineOk, SocketEvent, Erase;
    BreakIs(st, c);
    var m' := st.machines[c].(phase := Terminated, query := None, deferred := [], notices := 1);
    ReplacedGrows(st, SocketEvent(st, c, ConnectionError), c, m', Some(c));
    hide Grows;
  }

  lemma GreetGrows(st: State, c: Conn)
    requires AllOk(st) && InRange(st.connections, |st.machines|) && c < |st.machines|
    requires st.machines[c].phase.Connecting? && st.password
    ensures Grows(st, SocketEvent(st, c, Complete), None) && Logs(st, Socket(c, Complete), SocketEvent(st, c, Complete))
  {
    assert MachineOk(st.machines[c], st.password);
    hide MachineOk, SocketEvent;
    GreetIs(st, c);
    ReplacedGrows(st, SocketEvent(st, c, Complete), c, st.machines[c].(phase := Authn, startups := 1), None);
  }

  lemma ArrivalGrows(st: State, c: Conn, event: Event)
    requires Inv(st) && AtRest(st) && InRange(st.connections, |st.machines|) && c < |st.machines|
    requires Expected(st.machines[c], event) && ReachesIdle(st.machines[c], event)
    ensures Grows(st, SocketEvent(st, c, event), None) && Logs(st, Socket(c, event), SocketEvent(st, c, event))
  {
    hide Inv, MachineOk, Resting, SocketEvent, Arrival, ReachesIdle, Expected, Grows, AllOk;
    ArrivalStarts(st, c, event);
    var r := SocketEvent(st, c, event);
    if st.queue != [] {
      ArrivalSends(st, c, event);
      ReplacedGrows(st, r, c, r.machines[c], None);
    } else if !st.closed {
      ArrivalRests(st, c, event);
      ReplacedGrows(st, r, c, r.machines[c], None);
    } else {
      EndGrows(st, c, event);
    }
  }

  lemma ArrivalStarts(st: State, c: Conn, event: Event)
    requires Inv(st) && AtRest(st) && c < |st.machines|
    requires Expected(st.machines[c], event) && ReachesIdle(st.machines[c], event)
    ensures
      var m := st.machines[c];
      && MachineOk(m, st.password) && Live(st, c) && AllOk(st) && Base(st) && !event.ConnectionError?
      && m.sent == Arrival(m, event).sent && m.settled <= Arrival(m, event).settled
      && (st.queue != [] || !st.closed ==> m.deferred == [])
  {
    InvMachine(st, c);
    NothingPutOff(st, c);
    ArrivalExtends(st.machines[c], event);
    hide Inv, Resting, Base, Arrival;
  }

  lemma NothingPutOff(st: State, c: Conn)
    requires Inv(st) && c < |st.machines|
    ensures st.queue != [] || !st.closed ==> st.machines[c].deferred == []
    ensures AtRest(st) ==> AllOk(st)
    ensures Base(st)
  {
    hide MachineOk, SentOn, Distinct;
  }

  lemma EndGrows(st: State, c: Conn, event: Event)
    requires Inv(st) && AtRest(st) && InRange(st.connections, |st.machines|) && c < |st.machines|
    requires Expected(st.machines[c], event) && ReachesIdle(st.machines[c], event) && Drained(st)
    ensures Grows(st, SocketEvent(st, c, event), None) && Logs(st, Socket(c, event), SocketEvent(st, c, event))
  {
    hide Inv, Base, MachineOk, Resting, SocketEvent, Arrival, ReachesIdle, Expected, TerminateEach, Grows, Ended, AllOk;
    ArrivalStarts(st, c, event);
    var m := st.machines[c];
    CloseConnectionsKeeps(st, Some(c));
    TerminateEachGrows(st, st.connections, Some(c));
    ArrivalEnds(st, c, event);
    var called := CloseConnections(st, Some(c)).0;
    var m' := Arrival(m, event).(phase := Terminated, deferred := [], notices := 1);
    EndedMachines(called, c, m');
    EndsWhole(st, TerminateEach(st, st.connections, Some(c)).0, c, m', SocketEvent(st, c, event));
  }

  lemma EndedMachines(st: State, c: Conn, m': Machine)
    requires c < |st.machines|
    ensures Ended(st, c, m').machines == st.machines[c := m']
    ensures Ended(st, c, m').log.(closedCallbacks := 0) == st.log.(closedCallbacks := 0)
  {
    hide Erase;
  }

  lemma EndsWhole(st: State, called: State, c: Conn, m': Machine, r: State)
    requires Grows(st, called, None) && |called.machines| == |st.machines| && c < |st.machines|
    requires called.machines[c] == st.machines[c] && !st.machines[c].phase.Terminated?
    requires m'.sent == st.machines[c].sent && st.machines[c].settled <= m'.settled && |m'.sent| == |m'.settled|
    requires r.machines == called.machines[c := m']
    ensures Grows(st, r, None)
  {
  }

  lemma SocketGrows(st: State, c: Conn, event: Event)
    requires Inv(st) && Ready(st) && Allowed(st, Socket(c, event))
    ensures
      var a := Socket(c, event);
      Grows(st, SocketEvent(st, c, event), Broken(st, a)) && Logs(st, a, SocketEvent(st, c, event))
  {
    NothingPutOff(st, c);
    InvMachine(st, c);
    assert st.machines[c].password == st.password && !st.machines[c].phase.Faulted?;
    hide Inv, MachineOk, SocketEvent, Grows, AtRest, InRange, Logs, AllOk;
    if st.machines[c].phase.Terminated? {
      LateGrows(st, c, event);
    } else if event.ConnectionError? {
      BreakGrows(st, c);
    } else if ReachesIdle(st.machines[c], event) {
      ArrivalGrows(st, c, event);
    } else {
      GreetGrows(st, c);
    }
  }

  lemma HandedGrows(st: State, bytes: string)
    requires Inv(st) && Ready(st) && !st.closed && st.ready != []
    ensures Grows(st, GetConnection(st, bytes), None) && Logs(st, Get(bytes), GetConnection(st, bytes))
  {
    hide Inv, MachineOk, Call, InRange, Grows;
    var request := Request(|st.log.accepted|, bytes);
    var c := st.ready[0];
    var direct := Direct(st, request);
    ReadyHead(st);
    if Rests(st, c) {
      CallExecuteIs(direct, c, request);
      var m := st.machines[c];
      ReplacedGrows(st, GetConnection(st, bytes), c,
                    m.(phase := Query, query := Some(request), sent := m.sent + [request]), None);
    } else {
      CallDeadIs(direct, c, request);
      GrowsNothing(st);
      SameMachinesGrow(direct, st, st, None);
      SameMachinesGrown(st, st, GetConnection(st, bytes), None);
    }
  }

  lemma SameMachinesGrown(st: State, n: State, r: State, broken: Option<Conn>)
    requires n.machines == r.machines && Grows(st, n, broken)
    ensures Grows(st, r, broken)
  {
    hide Extends, Whole;
  }

  lemma QueuedGrows(st: State, bytes: string)
    requires Ready(st) && (st.closed || st.ready == [])
    ensures Grows(st, GetConnection(st, bytes), None) && Logs(st, Get(bytes), GetConnection(st, bytes))
  {
    FreshMachine(st.password);
    hide Process, AtRest, InRange;
    assert forall c :: 0 <= c < |st.machines| ==> Extends(st.machines[c], st.machines[c]);
  }

  lemma InvAllOk(st: State)
    requires Inv(st) && Ready(st)
    ensures AllOk(st) && AllOk(st.(closed := true))
  {
    hide MachineOk, SentOn, Distinct;
  }

  lemma CloseGrows(st: State)
    requires Inv(st) && Ready(st)
    ensures Grows(st, Close(st), None) && Logs(st, Shut, Close(st))
  {
    hide Inv, Grows, TerminateEach;
    var closing := st.(closed := true);
    InvAllOk(st);
    GrowsNothing(st);
    if !st.closed {
      TerminateEachGrows(closing, closing.connections, None);
      var r := TerminateEach(closing, closing.connections, None).0;
      SameMachinesGrow(st, closing, r, None);
      if st.queue == [] {
        SameMachinesGrown(st, r, Close(st), None);
      } else {
        SameMachinesGrown(st, st, Close(st), None);
      }
    }
  }

  lemma ApplyGrows(st: State, a: Action)
    requires Inv(st) && Ready(st) && Allowed(st, a)
    ensures Grows(st, Apply(st, a), Broken(st, a)) && Logs(st, a, Apply(st, a))
  {
    hide Inv, Ready, Grows, Logs, SocketEvent, GetConnection, Close;
    match a
    case Get(bytes) =>
      if !st.closed && st.ready != [] {
        HandedGrows(st, bytes);
      } else {
        QueuedGrows(st, bytes);
      }
    case Socket(c, event) => SocketGrows(st, c, event);
    case Shut => CloseGrows(st);
  }

  // ---------------------------------------------------------------- fates over time

  /** What can become of a request, in one step or in many. */
  predicate CanBecome(f: Fate, g: Fate) {
    match f
    case Waiting => !g.Swallowed?
    case InFlight(c) => (g.InFlight? || g.Settled? || g.Dropped?) && g.conn == c
    case _ => g == f
  }

  lemma FinalStays(st: State, r: State, broken: Option<Conn>, request: Request, f: Fate)
    requires Grows(st, r, broken) && st.log.cleared <= r.log.cleared && st.log.lost <= r.log.lost
    requires HasFate(st, request, f) && !f.Waiting? && !f.InFlight?
    ensures HasFate(r, request, f)
  {
    hide Whole;
    if f.Settled? || f.Dropped? {
      assert Extends(st.machines[f.conn], r.machines[f.conn]);
    }
  }

  /** A request in flight stays so, is settled next, or goes down with its connection. */
  lemma InFlightMoves(m: Machine, r: Machine)
    requires Consistent(m) && Consistent(r) && Extends(m, r) && m.query.Some? && !r.phase.Faulted?
    ensures
      var k := |m.settled|;
      || r.query == m.query
      || (k < |r.settled| && r.settled[k].request == m.query.value)
      || (r.phase.Terminated? && r.sent == RequestsOf(r.settled) + [m.query.value])
  {
    var k := |m.settled|;
    assert m.sent[k] == m.query.value && r.sent[k] == m.sent[k];
    if k < |r.settled| {
      assert RequestsOf(r.settled)[k] == r.sent[k];
    } else {
      assert r.settled == m.settled && |r.sent| == k + 1;
      assert r.sent == RequestsOf(r.settled) + [r.sent[k]];
    }
  }

  lemma FateMoves(st: State, a: Action, request: Request, f: Fate) returns (g: Fate)
    requires Inv(st) && Ready(st) && Allowed(st, a) && request in st.log.accepted && HasFate(st, request, f)
    ensures HasFate(Apply(st, a), request, g) && CanBecome(f, g) && request in Apply(st, a).log.accepted
  {
    hide Inv, Ready, Allowed, Apply, HasFate, Grows;
    var r := Apply(st, a);
    ApplyGrows(st, a);
    ApplyKeeps(st, a);
    if f.Waiting? {
      g := FateExists(r, request);
      if g.Swallowed? {
        WaitingIsNotLost(st, r, a, request);
      }
    } else if f.InFlight? {
      g := InFlightFate(st, r, a, request, f.conn);
    } else {
      g := f;
      FinalStays(st, r, Broken(st, a), request, f);
    }
  }

  lemma InFlightFate(st: State, r: State, a: Action, request: Request, c: Conn) returns (g: Fate)
    requires Inv(st) && Inv(r) && Grows(st, r, Broken(st, a)) && HasFate(st, request, InFlight(c))
    ensures HasFate(r, request, g) && CanBecome(InFlight(c), g)
  {
    hide Inv, Whole;
    InvMachine(st, c);
    InvMachine(r, c);
    var m, n := st.machines[c], r.machines[c];
    assert Extends(m, n);
    InFlightMoves(m, n);
    hide MachineOk;
    var k := |m.settled|;
    if n.query == m.query {
      g := InFlight(c);
    } else if k < |n.settled| && n.settled[k].request == request {
      g := Settled(c, k);
    } else {
      g := Dropped(c);
    }
  }

  lemma WaitingIsNotLost(st: State, r: State, a: Action, request: Request)
    requires Inv(st) && Logs(st, a, r) && HasFate(st, request, Waiting)
    ensures !HasFate(r, request, Swallowed)
  {
    WaitingIsAccepted(st, request);
    hide Inv;
    if request in st.log.lost {
      FateIsUnique(st, request, Waiting, Swallowed);
    }
  }

  lemma WaitingIsAccepted(st: State, request: Request)
    requires Inv(st) && request in st.queue
    ensures request in st.log.accepted && request.ticket < |st.log.accepted|
  {
    hide SentOn, MachinesOk, ConnectionsOk, ReadyOk, FaultFree, TerminatesOk, ClosedOk;
    assert st.log.accepted == st.log.removed + st.queue;
    var i :| 0 <= i < |st.queue| && st.queue[i] == request;
    assert st.log.accepted[|st.log.removed| + i] == request;
  }

  lemma BecomeOnward(f: Fate, g: Fate, h: Fate)
    requires CanBecome(f, g) && CanBecome(g, h)
    ensures CanBecome(f, h)
  {
  }

  lemma {:induction false} FateMovesOn(st: State, script: seq<Action>, request: Request, f: Fate) returns (g: Fate)
    requires Inv(st) && Ready(st) && PoolRuns.Playable(st, script)
    requires request in st.log.accepted && HasFate(st, request, f)
    ensures HasFate(PoolRuns.Run(st, script), request, g) && CanBecome(f, g)
    ensures request in PoolRuns.Run(st, script).log.accepted && Inv(PoolRuns.Run(st, script))
    decreases |script|
  {
    hide Inv, Ready, Allowed, Apply, HasFate;
    if script == [] {
      g := f;
      BecomesItself(f);
    } else {
      var next := FateMoves(st, script[0], request, f);
      ApplyKeeps(st, script[0]);
      g := FateMovesOn(Apply(st, script[0]), script[1..], request, next);
      BecomeOnward(f, next, g);
    }
  }

  lemma BecomesItself(f: Fate)
    ensures CanBecome(f, f)
  {
  }

  /**
   Over every run a fate only moves forward: settled, failed, swallowed and dropped requests
   stay so; one in flight stays with its connection; one that waits is never swallowed.
   */
  lemma FatesMoveForward(st: State, script: seq<Action>, request: Request, f: Fate)
    requires Reachable(st) && PoolRuns.Playable(st, script) && request in st.log.accepted && HasFate(st, request, f)
    ensures forall g :: HasFate(PoolRuns.Run(st, script), request, g) ==> CanBecome(f, g)
    ensures !f.Waiting? && !f.InFlight? ==> HasFate(PoolRuns.Run(st, script), request, f)
  {
    hide Reachable, Inv, Ready, PoolRuns.Playable, PoolRuns.Run, HasFate;
    ReachableInv(st);
    var g := FateMovesOn(st, script, request, f);
    forall h | HasFate(PoolRuns.Run(st, script), request, h)
      ensures CanBecome(f, h)
    {
      FateIsUnique(PoolRuns.Run(st, script), request, g, h);
    }
  }

  // ---------------------------------------------------------------- requests without a callback

  /** A request is failed with the queue exactly by a connection error while it waits. */
  lemma ClearedIff(st: State, a: Action, request: Request)
    requires Reachable(st) && Allowed(st, a) && !HasFate(st, request, Cleared)
    ensures HasFate(Apply(st, a), request, Cleared) <==> Breaking(st, a) && HasFate(st, request, Waiting)
  {
    hide Reachable, Inv, Ready, Apply, Allowed, Grows;
    ReachableInv(st);
    ApplyGrows(st, a);
  }

  /**
   A request gets no callback from its connection exactly if it is in flight there when an
   error is reported: nothing else the pool does ends a connection with a request unsettled.
   */
  lemma DroppedIff(st: State, a: Action, request: Request, c: Conn)
    requires Reachable(st) && Allowed(st, a) && !HasFate(st, request, Dropped(c))
    ensures HasFate(Apply(st, a), request, Dropped(c)) <==>
            a == Socket(c, ConnectionError) && Live(st, c) && st.machines[c].query == Some(request)
  {
    hide Reachable, Inv, Ready, Apply, SocketEvent, MachineOk, Allowed, Grows, Logs;
    ReachableInv(st);
    ApplyGrows(st, a);
    var r := Apply(st, a);
    if HasFate(r, request, Dropped(c)) {
      DropIsBreak(st, r, a, request, c);
      ApplyBreak(st, a, c);
      BreakDrops(st, c, request);
    } else if a == Socket(c, ConnectionError) && Live(st, c) {
      ApplyBreak(st, a, c);
      BreakDrops(st, c, request);
    }
  }

  lemma DropIsBreak(st: State, r: State, a: Action, request: Request, c: Conn)
    requires Grows(st, r, Broken(st, a)) && HasFate(r, request, Dropped(c)) && !HasFate(st, request, Dropped(c))
    ensures a.Socket? && a.event.ConnectionError? && a.conn == c && Live(st, c)
  {
    assert |r.machines[c].sent| == |r.machines[c].settled| + 1;
  }

  lemma ApplyBreak(st: State, a: Action, c: Conn)
    requires Inv(st) && Ready(st) && Allowed(st, a)
    requires a.Socket? && a.event.ConnectionError? && a.conn == c && Live(st, c)
    ensures AllOk(st) && InRange(st.connections, |st.machines|)
    ensures Apply(st, a) == SocketEvent(st, c, ConnectionError)
  {
    hide Inv, AtRest, InRange, AllOk, SocketEvent;
    InvAllOk(st);
  }

  /** The error ends the connection where it stands. */
  lemma BreakDrops(st: State, c: Conn, request: Request)
    requires AllOk(st) && InRange(st.connections, |st.machines|) && Live(st, c)
    ensures HasFate(SocketEvent(st, c, ConnectionError), request, Dropped(c)) <==> st.machines[c].query == Some(request)
  {
    BreakGrows(st, c);
    var m := st.machines[c];
    assert MachineOk(m, st.password);
    UnsettledIsQuery(m, st.password, request);
    hide SocketEvent, MachineOk, Grows, Logs;
  }

  lemma UnsettledIsQuery(m: Machine, password: bool, request: Request)
    requires MachineOk(m, password) && !m.phase.Terminated?
    ensures m.sent == RequestsOf(m.settled) + [request] <==> m.query == Some(request)
  {
    if m.sent == RequestsOf(m.settled) + [request] {
      assert m.sent[|m.settled|] == request;
      if m.query.Some? {
        assert m.sent[|m.settled|] == m.query.value;
      }
    }
  }

  /** It does happen: one request in flight when its connection fails, and another waiting. */
  lemma DroppingHappens(first: string, second: string) returns (st: State)
    ensures Reachable(st) && Request(0, first) in st.log.accepted
    ensures HasFate(st, Request(0, first), Dropped(0)) && HasFate(st, Request(1, second), Cleared)
  {
    var busy := BusyConnection(first, second);
    hide Reachable, Inv, Ready, Apply, SocketEvent;
    var a := Socket(0, ConnectionError);
    ReachableInv(busy);
    ApplyGrows(busy, a);
    hide Grows;
    StepReaches(busy, a);
    st := Apply(busy, a);
    ApplyBreak(busy, a, 0);
    BreakDrops(busy, 0, Request(0, first));
  }
}
