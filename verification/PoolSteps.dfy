/**
 Socket events keep the pool's invariant.
 */
module PoolSteps {
  import opened Wrappers
  import opened Events
  import opened Fsm
  import opened FsmTheorems
  import opened Pool
  import opened PoolInvariant

  /**
   What the socket of a connection can report: one connect, one reply for a startup message
   that is not refused, one reply or query error for a request, an error at any time. A
   terminated connection may still receive anything that was under way.
   */
  predicate Expected(m: Machine, event: Event) {
    match event
    case Complete => m.phase.Connecting? || m.phase.Terminated?
    case Recv(_) => m.phase.Authn? || m.phase.Query? || m.phase.Terminated?
    case QueryError(_) => m.phase.Query? || m.phase.Terminated?
    case ConnectionError => true
    case _ => false
  }

  /** The machine as it enters idle: in order, and with nothing outstanding. */
  lemma ArrivalFacts(m: Machine, event: Event, password: bool)
    requires MachineOk(m, password) && ReachesIdle(m, event) && Expected(m, event)
    ensures Holds(m.phase)
    ensures
      var a := Arrival(m, event);
      && a.phase.Idle? && a.query.None? && a.deferred == m.deferred && a.notices == 0
      && a.sent == m.sent && |a.settled| == |a.sent| && a.password == password
  {
  }

  // ---------------------------------------------------------------- a request is waiting

  function Dequeued(st: State): State
    requires st.queue != []
  {
    st.(queue := st.queue[1..], log := st.log.(removed := st.log.removed + [st.queue[0]]))
  }

  predicate Sends(st: State, c: Conn, m': Machine) {
    && st.queue != [] && c < |st.machines| && Holds(st.machines[c].phase)
    && MachineOk(m', st.password) && m'.phase.Query? && m'.deferred == []
    && m'.sent == st.machines[c].sent + [st.queue[0]]
  }

  lemma SendsBooks(st: State, c: Conn, m': Machine)
    requires Sends(st, c, m') && BooksOk(st) && MachinesOk(st)
    ensures BooksOk(Dequeued(st).(machines := st.machines[c := m']))
    ensures MachinesOk(Dequeued(st).(machines := st.machines[c := m']))
  {
    ReplaceMachine(st, c, m');
    SendBooks(st, c, m', st.queue[0]);
    assert st.log.removed + [st.queue[0]] + st.queue[1..] == st.log.removed + st.queue;
    hide MachineOk, SentOn;
  }

  lemma SendsLists(st: State, c: Conn, m': Machine)
    requires Sends(st, c, m') && ConnectionsOk(st) && ReadyOk(st)
    ensures ConnectionsOk(Dequeued(st).(machines := st.machines[c := m']))
    ensures ReadyOk(Dequeued(st).(machines := st.machines[c := m']))
  {
    hide MachineOk, Distinct;
    var r := Dequeued(st).(machines := st.machines[c := m']);
    assert forall d: Conn :: (Live(r, d) <==> Live(st, d)) && (Rests(r, d) <==> Rests(st, d));
  }

  lemma SendsKeeps(st: State, c: Conn, m': Machine)
    requires Inv(st) && Sends(st, c, m')
    ensures Inv(Dequeued(st).(machines := st.machines[c := m']))
  {
    hide MachineOk, MachinesOk, BooksOk, ConnectionsOk, ReadyOk, SentOn;
    SendsBooks(st, c, m');
    SendsLists(st, c, m');
    var r := Dequeued(st).(machines := st.machines[c := m']);
    assert forall d: Conn :: Rests(r, d) <==> Rests(st, d);
  }

  lemma ArrivalSends(st: State, c: Conn, event: Event)
    requires AtRest(st) && InRange(st.connections, |st.machines|) && c < |st.machines|
    requires MachineOk(st.machines[c], st.password) && st.machines[c].deferred == []
    requires Expected(st.machines[c], event) && ReachesIdle(st.machines[c], event) && st.queue != []
    ensures
      var m := st.machines[c];
      var m' := Arrival(m, event).(phase := Query, query := Some(st.queue[0]), sent := m.sent + [st.queue[0]]);
      && Sends(st, c, m')
      && SocketEvent(st, c, event) == Dequeued(st).(machines := st.machines[c := m'])
  {
    hide MachineOk, Arrival, ReachesIdle, Expected;
    var m := st.machines[c];
    var posts := [Execute(st.queue[0])];
    ArrivalFacts(m, event, st.password);
    ArrivalTakes(m, event, st.queue[0], st.password);
    var m' := Process(m, event, posts);
    hide Process;
    assert m'.sent != m.sent;
    assert Ignored(m, m', posts) == [];
    assert st.log.lost + [] == st.log.lost;
  }

  lemma ArrivalTakes(m: Machine, event: Event, request: Request, password: bool)
    requires MachineOk(m, password) && m.deferred == [] && Expected(m, event) && ReachesIdle(m, event)
    ensures
      var m' := Process(m, event, [Execute(request)]);
      && m' == Arrival(m, event).(phase := Query, query := Some(request), sent := m.sent + [request])
      && MachineOk(m', password) && m'.notices == m.notices
  {
    ArrivalFacts(m, event, password);
    EventArrives(m, event, [Execute(request)]);
    ProcessResting(m, event, [Execute(request)]);
    UnfinishedNotices(m, password);
    hide Process, ReachesIdle;
  }

  /** The connection that arrives takes the request that has waited longest. */
  lemma ArrivesToQueue(st: State, c: Conn, event: Event)
    requires Inv(st) && AtRest(st) && InRange(st.connections, |st.machines|) && c < |st.machines|
    requires Expected(st.machines[c], event) && ReachesIdle(st.machines[c], event) && st.queue != []
    ensures
      var r := SocketEvent(st, c, event);
      && Inv(r) && r.queue == st.queue[1..] && r.connections == st.connections && r.poolSize == st.poolSize
      && r.machines == st.machines[c := r.machines[c]]
      && r.machines[c].phase.Query? && r.machines[c].query == Some(st.queue[0])
  {
    assert MachineOk(st.machines[c], st.password) && st.machines[c].deferred == [];
    hide Inv, MachineOk, SocketEvent, ReachesIdle, Expected;
    ArrivalSends(st, c, event);
    var m := st.machines[c];
    SendsKeeps(st, c, Arrival(m, event).(phase := Query, query := Some(st.queue[0]), sent := m.sent + [st.queue[0]]));
  }

  // ---------------------------------------------------------------- nothing is waiting

  predicate Settles(st: State, c: Conn, m': Machine) {
    && st.queue == [] && !st.closed && c < |st.machines| && Holds(st.machines[c].phase)
    && MachineOk(m', st.password) && m'.phase.Idle? && m'.deferred == []
    && m'.sent == st.machines[c].sent
  }

  lemma SettlesLists(st: State, c: Conn, m': Machine)
    requires Settles(st, c, m') && ConnectionsOk(st) && ReadyOk(st)
    ensures
      var r := st.(ready := st.ready + [c], machines := st.machines[c := m']);
      ConnectionsOk(r) && ReadyOk(r)
  {
    var r := st.(ready := st.ready + [c], machines := st.machines[c := m']);
    assert c !in st.ready;
    assert Distinct(r.ready);
    hide MachineOk, Distinct;
    assert forall d: Conn :: Live(r, d) <==> Live(st, d);
    assert forall d: Conn :: Rests(r, d) <==> Rests(st, d) || d == c;
    assert forall d: Conn :: d in r.ready <==> d in st.ready || d == c;
  }

  lemma SettlesBooks(st: State, c: Conn, m': Machine)
    requires Settles(st, c, m') && BooksOk(st) && MachinesOk(st)
    ensures
      var r := st.(ready := st.ready + [c], machines := st.machines[c := m']);
      BooksOk(r) && MachinesOk(r)
  {
    hide MachineOk, SentOn;
    ReplaceMachine(st, c, m');
    ReplaceBooks(st, c, m');
  }

  lemma SettlesKeeps(st: State, c: Conn, m': Machine)
    requires Inv(st) && Settles(st, c, m')
    ensures Inv(st.(ready := st.ready + [c], machines := st.machines[c := m']))
  {
    hide MachineOk, MachinesOk, BooksOk, ConnectionsOk, ReadyOk, SentOn;
    SettlesLists(st, c, m');
    SettlesBooks(st, c, m');
  }

  lemma ArrivalRests(st: State, c: Conn, event: Event)
    requires AtRest(st) && InRange(st.connections, |st.machines|) && c < |st.machines|
    requires MachineOk(st.machines[c], st.password) && st.machines[c].deferred == []
    requires Expected(st.machines[c], event) && ReachesIdle(st.machines[c], event)
    requires st.queue == [] && !st.closed
    ensures
      var m' := Arrival(st.machines[c], event);
      && Settles(st, c, m')
      && SocketEvent(st, c, event) == st.(ready := st.ready + [c], machines := st.machines[c := m'])
  {
    var m := st.machines[c];
    ArrivalFacts(m, event, st.password);
    UnfinishedNotices(m, st.password);
    EventArrives(m, event, []);
    ProcessResting(m, event, []);
    hide Process, Arrival, ReachesIdle;
    assert st.log.lost + [] == st.log.lost;
  }

  lemma ArrivesToRest(st: State, c: Conn, event: Event)
    requires Inv(st) && AtRest(st) && InRange(st.connections, |st.machines|) && c < |st.machines|
    requires Expected(st.machines[c], event) && ReachesIdle(st.machines[c], event)
    requires st.queue == [] && !st.closed
    ensures Inv(SocketEvent(st, c, event))
    ensures SocketEvent(st, c, event) ==
            st.(ready := st.ready + [c], machines := st.machines[c := Arrival(st.machines[c], event)])
  {
    assert MachineOk(st.machines[c], st.password) && st.machines[c].deferred == [];
    hide Inv, Base, MachineOk, SocketEvent, Arrival, ReachesIdle, Expected;
    ArrivalRests(st, c, event);
    SettlesKeeps(st, c, Arrival(st.machines[c], event));
  }

  // ---------------------------------------------------------------- the pool is closing

  lemma ArrivalEnds(st: State, c: Conn, event: Event)
    requires AtRest(st) && InRange(st.connections, |st.machines|) && c < |st.machines|
    requires MachineOk(st.machines[c], st.password)
    requires Expected(st.machines[c], event) && ReachesIdle(st.machines[c], event)
    requires Drained(st)
    requires var (called, posts) := CloseConnections(st, Some(c));
             posts != [] && OnlyTerminates(posts) && called.machines[c] == st.machines[c]
    ensures
      var m := st.machines[c];
      var called := CloseConnections(st, Some(c)).0;
      var m' := Arrival(m, event).(phase := Terminated, deferred := [], notices := 1);
      && m'.sent == m.sent && |m'.sent| == |m'.settled| && MachineOk(m', st.password)
      && SocketEvent(st, c, event) == Ended(called, c, m')
  {
    hide CloseConnections, MachineOk, Arrival, ReachesIdle, Expected;
    var m := st.machines[c];
    var (called, posts) := CloseConnections(st, Some(c));
    ArrivalFacts(m, event, st.password);
    EndOfArrival(m, event, posts, st.password);
    var m' := Process(m, event, posts);
    hide Process;
    assert m.notices == 0 by {
      UnfinishedNotices(m, st.password);
    }
    assert Ignored(m, m', posts) == [];
    assert called.log.lost + [] == called.log.lost;
  }

  lemma UnfinishedNotices(m: Machine, password: bool)
    requires MachineOk(m, password) && Holds(m.phase)
    ensures m.notices == 0
  {
  }

  lemma CalledEnds(st: State, called: State, c: Conn, m': Machine)
    requires Base(called) && Drained(called) && Onward(st, called) && Live(called, c)
    requires forall d: Conn :: Rests(called, d) ==> d == c
    requires m'.phase.Terminated? && m'.sent == called.machines[c].sent && |m'.sent| == |m'.settled|
    requires MachineOk(m', called.password)
    ensures
      var r := Ended(called, c, m');
      && Inv(r) && Drained(r) && r.log.errors == called.log.errors && !Live(r, c) && Onward(st, r)
  {
    hide Base, MachineOk;
    EndedInv(called, c, m');
    hide Ended;
  }

  lemma ArrivesToEnd(st: State, c: Conn, event: Event)
    requires Inv(st) && AtRest(st) && InRange(st.connections, |st.machines|) && c < |st.machines|
    requires Expected(st.machines[c], event) && ReachesIdle(st.machines[c], event)
    requires Drained(st)
    ensures
      var r := SocketEvent(st, c, event);
      && Inv(r) && Drained(r) && r.log.errors == st.log.errors && !Live(r, c) && Onward(st, r)
  {
    assert MachineOk(st.machines[c], st.password);
    hide Base, MachineOk, ClosedOk, CloseConnections, SocketEvent, Arrival, Expected, ReachesIdle, Ended;
    ArrivalFacts(st.machines[c], event, st.password);
    CloseConnectionsKeeps(st, Some(c));
    ArrivalEnds(st, c, event);
    var called := CloseConnections(st, Some(c)).0;
    var m' := Arrival(st.machines[c], event).(phase := Terminated, deferred := [], notices := 1);
    assert called.machines[c] == st.machines[c];
    CalledEnds(st, called, c, m');
  }

  lemma EndOfArrival(m: Machine, event: Event, posts: seq<Event>, password: bool)
    requires MachineOk(m, password) && ReachesIdle(m, event) && Expected(m, event)
    requires posts != [] && OnlyTerminates(posts)
    ensures
      var m' := Process(m, event, posts);
      && m' == Arrival(m, event).(phase := Terminated, deferred := [], notices := 1)
      && MachineOk(m', password)
  {
    ArrivalFacts(m, event, password);
    ProcessResting(m, event, posts);
    if m.deferred == [] {
      EventArrives(m, event, posts);
    } else {
      DeferredTerminateIff(m, event, posts);
    }
    hide Process;
  }

  // ---------------------------------------------------------------- everything else

  lemma GreetIs(st: State, c: Conn)
    requires AtRest(st) && InRange(st.connections, |st.machines|) && c < |st.machines|
    requires MachineOk(st.machines[c], st.password) && st.machines[c].phase.Connecting? && st.password
    ensures
      var m' := st.machines[c].(phase := Authn, startups := 1);
      && MachineOk(m', st.password)
      && SocketEvent(st, c, Complete) == st.(machines := st.machines[c := m'])
  {
    var m := st.machines[c];
    EventGreets(m);
    ProcessResting(m, Complete, []);
    hide Process;
    assert st.log.lost + [] == st.log.lost;
  }

  lemma GreetsKeeps(st: State, c: Conn)
    requires Inv(st) && AtRest(st) && InRange(st.connections, |st.machines|) && c < |st.machines|
    requires st.machines[c].phase.Connecting? && st.password
    ensures SocketEvent(st, c, Complete) ==
            st.(machines := st.machines[c := st.machines[c].(phase := Authn, startups := 1)])
    ensures Inv(SocketEvent(st, c, Complete))
  {
    assert MachineOk(st.machines[c], st.password);
    hide MachineOk, MachinesOk, ConnectionsOk, ReadyOk, BooksOk, SocketEvent;
    GreetIs(st, c);
    HeldKeeps(st, c, st.machines[c].(phase := Authn, startups := 1));
    hide Base;
  }

  lemma FailedBooks(st: State)
    requires BooksOk(st)
    ensures BooksOk(ConnectionFailed(st))
  {
    hide SentOn;
    assert st.log.removed + st.queue + [] == st.log.removed + st.queue;
  }

  lemma FailedKeeps(st: State)
    requires Inv(st)
    ensures
      var r := ConnectionFailed(st);
      && Base(r) && r.connections == st.connections && r.machines == st.machines
      && r.queue == [] && r.log.errors > 0 && r.closed == st.closed && r.log.lost == st.log.lost
  {
    hide MachineOk, SentOn, Distinct, BooksOk;
    EraseNothing(st.connections);
    FailedBooks(st);
  }

  lemma MachineBreaks(m: Machine, password: bool)
    requires MachineOk(m, password) && !m.phase.Terminated?
    ensures
      var m' := Process(m, ConnectionError, []);
      && m' == m.(phase := Terminated, query := None, deferred := [], notices := 1)
      && MachineOk(m', password) && m.notices == 0
      && !ReachesIdle(m, ConnectionError) && !Blocked(m.phase)
  {
    EventBreaks(m);
    ProcessResting(m, ConnectionError, []);
    hide Process;
  }

  /** A connection error as the pool sees it: the queue fails, then the connection ends. */
  lemma BreakIs(st: State, c: Conn)
    requires AtRest(st) && InRange(st.connections, |st.machines|)
    requires c < |st.machines| && MachineOk(st.machines[c], st.password) && !st.machines[c].phase.Terminated?
    ensures
      var m := st.machines[c];
      var m' := m.(phase := Terminated, query := None, deferred := [], notices := 1);
      && MachineOk(m', st.password)
      && SocketEvent(st, c, ConnectionError) == Ended(ConnectionFailed(st), c, m')
  {
    var m := st.machines[c];
    MachineBreaks(m, st.password);
    hide Process, MachineOk, ReachesIdle;
    var failed := ConnectionFailed(st);
    assert failed.machines == st.machines;
    hide ConnectionFailed;
    assert failed.log.lost + [] == failed.log.lost;
  }

  lemma BreaksKeeps(st: State, c: Conn)
    requires Inv(st) && AtRest(st) && InRange(st.connections, |st.machines|) && Live(st, c)
    ensures
      var r := SocketEvent(st, c, ConnectionError);
      && Inv(r) && !Live(r, c) && r.queue == []
      && r.machines == st.machines[c := r.machines[c]]
  {
    assert MachineOk(st.machines[c], st.password);
    hide MachineOk, MachinesOk, ConnectionsOk, ReadyOk, BooksOk, SocketEvent, ConnectionFailed;
    FailedKeeps(st);
    hide Base;
    BreakIs(st, c);
    var m' := st.machines[c].(phase := Terminated, query := None, deferred := [], notices := 1);
    EndedInv(ConnectionFailed(st), c, m');
    hide Ended;
  }

  /** A terminated connection: whatever the socket still reports changes nothing. */
  lemma LateEvent(st: State, c: Conn, event: Event)
    requires AtRest(st) && InRange(st.connections, |st.machines|)
    requires c < |st.machines| && st.machines[c].phase.Terminated?
    ensures SocketEvent(st, c, event) == st
  {
    assert st.machines[c := st.machines[c]] == st.machines;
    assert st.log.lost + [] == st.log.lost;
  }

  lemma SocketEventKeeps(st: State, c: Conn, event: Event)
    requires Inv(st) && AtRest(st) && InRange(st.connections, |st.machines|) && c < |st.machines|
    requires Expected(st.machines[c], event)
    ensures Inv(SocketEvent(st, c, event))
  {
    var m := st.machines[c];
    assert MachineOk(m, st.password);
    assert m.password == st.password && !m.phase.Faulted?;
    hide Inv, MachineOk, SocketEvent;
    if m.phase.Terminated? {
      LateEvent(st, c, event);
    } else if event.ConnectionError? {
      BreaksKeeps(st, c);
    } else if ReachesIdle(m, event) {
      if st.queue != [] {
        ArrivesToQueue(st, c, event);
      } else if st.closed {
        ArrivesToEnd(st, c, event);
      } else {
        ArrivesToRest(st, c, event);
      }
    } else {
      GreetsKeeps(st, c);
    }
  }
}
