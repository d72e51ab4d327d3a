/**
 The connection pool together with the machines of its connections (connection_pool.cpp,
 concrete_connection.hpp).

 A connection is named by its number, the position of its machine in `machines`; machines
 are never forgotten, as late socket events can still reach them. The functions follow the
 pool's methods one by one. Where the pool calls into a machine that is in the middle of an
 event (the one whose idle callback is running), the call is posted to that machine's inbox:
 the functions that can do so return the events posted.
 */
module Pool {
  import opened Wrappers
  import opened Events
  import opened Fsm

  type Conn = nat

  /**
   What has happened so far. `removed` lists the requests taken from the queue or handed
   straight to an idle connection; `cleared` those failed by `clear_queue`; `lost` those
   handed to a machine that ignored them.
   */
  datatype Log = Log(
    accepted: seq<Request>,
    refused: seq<string>,
    removed: seq<Request>,
    cleared: seq<Request>,
    lost: seq<Request>,
    terminates: nat,
    errors: nat,
    closedCallbacks: nat)

  datatype State = State(
    poolSize: nat,
    password: bool,
    queue: seq<Request>,
    ready: seq<Conn>,
    connections: seq<Conn>,
    closed: bool,
    machines: seq<Machine>,
    log: Log)

  const EmptyLog := Log([], [], [], [], [], 0, 0, 0)

  // ---------------------------------------------------------------- connection list

  /** `vector::erase` of the first match, if there is one. */
  function Erase(s: seq<Conn>, c: Option<Conn>): seq<Conn> {
    if s == [] then []
    else if c == Some(s[0]) then s[1..]
    else [s[0]] + Erase(s[1..], c)
  }

  function EraseConnection(st: State, c: Option<Conn>): State {
    st.(connections := Erase(st.connections, c))
  }

  function RunClosedCallback(st: State): State {
    st.(log := st.log.(closedCallbacks := st.log.closedCallbacks + 1))
  }

  function ConnectionTerminated(st: State, c: Conn): State {
    var erased := EraseConnection(st, Some(c));
    if erased.connections == [] && erased.closed then RunClosedCallback(erased) else erased
  }

  /** Fails every queued request. */
  function ClearQueue(st: State): State {
    st.(queue := [], log := st.log.(removed := st.log.removed + st.queue, cleared := st.log.cleared + st.queue))
  }

  /** The error callback passes no connection, so nothing is erased here. */
  function ConnectionFailed(st: State): State {
    var erased := EraseConnection(st, None);
    ClearQueue(erased.(log := erased.log.(errors := erased.log.errors + 1)))
  }

  // ---------------------------------------------------------------- calls into machines

  predicate AtRest(st: State) {
    forall c :: 0 <= c < |st.machines| ==> st.machines[c].inbox == [] && AllCalls(st.machines[c].deferred)
  }

  predicate InRange(conns: seq<Conn>, limit: nat) {
    forall i :: 0 <= i < |conns| ==> conns[i] < limit
  }

  /** Requests among `posts` that the machine did not take up. */
  function Ignored(m: Machine, m': Machine, posts: seq<Event>): seq<Request> {
    if posts != [] && posts[0].Execute? && m'.sent == m.sent then [posts[0].request] else []
  }

  /** Calls into machines take in no request and hand none out. */
  predicate SameIntake(st: State, r: State) {
    && r.closed == st.closed && r.queue == st.queue && r.password == st.password
    && r.log.accepted == st.log.accepted && r.log.refused == st.log.refused && r.log.removed == st.log.removed
  }

  /** The machine's new state, with the notification of its termination. */
  function Update(st: State, c: Conn, m': Machine, ignored: seq<Request>): (r: State)
    requires c < |st.machines| && AtRest(st) && m'.inbox == [] && AllCalls(m'.deferred)
    ensures |r.machines| == |st.machines| && AtRest(r) && SameIntake(st, r)
    ensures r.log.terminates == st.log.terminates
  {
    var m := st.machines[c];
    var updated := st.(machines := st.machines[c := m'], log := st.log.(lost := st.log.lost + ignored));
    if m'.notices > m.notices then ConnectionTerminated(updated, c) else updated
  }

  /** `execute` or `terminate` on a connection that is not in the middle of an event. */
  function Call(st: State, c: Conn, event: Event): (r: State)
    requires c < |st.machines| && AtRest(st) && IsCall(event)
    ensures |r.machines| == |st.machines| && AtRest(r) && SameIntake(st, r)
    ensures r.log.terminates == st.log.terminates
  {
    var m := st.machines[c];
    var m' := Process(m, event, []);
    Update(st, c, m', Ignored(m, m', [event]))
  }

  /** Terminates each of `copy`; the connection that is busy has it posted instead. */
  function TerminateEach(st: State, copy: seq<Conn>, busy: Option<Conn>): (r: (State, seq<Event>))
    requires AtRest(st) && InRange(copy, |st.machines|)
    ensures |r.0.machines| == |st.machines| && AtRest(r.0) && AllCalls(r.1) && SameIntake(st, r.0)
    ensures r.0.log.terminates == st.log.terminates + |copy|
    decreases |copy|
  {
    if copy == [] then (st, [])
    else
      var counted := st.(log := st.log.(terminates := st.log.terminates + 1));
      if busy == Some(copy[0]) then
        var (rest, posts) := TerminateEach(counted, copy[1..], busy);
        (rest, [Terminate] + posts)
      else
        TerminateEach(Call(counted, copy[0], Terminate), copy[1..], busy)
  }

  function CloseConnections(st: State, busy: Option<Conn>): (r: (State, seq<Event>))
    requires AtRest(st) && InRange(st.connections, |st.machines|)
    ensures |r.0.machines| == |st.machines| && AtRest(r.0) && AllCalls(r.1) && SameIntake(st, r.0)
    ensures r.0.log.terminates == st.log.terminates + |st.connections|
  {
    var (closing, posts) := TerminateEach(st, st.connections, busy);
    (RunClosedCallback(closing), posts)
  }

  /** `connection_ready`, called from inside connection `c`: the new state and what is posted to `c`. */
  function ConnectionReady(st: State, c: Conn): (r: (State, seq<Event>))
    requires AtRest(st) && InRange(st.connections, |st.machines|)
    ensures |r.0.machines| == |st.machines| && AtRest(r.0) && AllCalls(r.1)
    ensures r.0.closed == st.closed && r.0.log.accepted == st.log.accepted && r.0.log.refused == st.log.refused
  {
    if st.queue != [] then
      (st.(queue := st.queue[1..], log := st.log.(removed := st.log.removed + [st.queue[0]])), [Execute(st.queue[0])])
    else if st.closed then CloseConnections(st, Some(c))
    else (st.(ready := st.ready + [c]), [])
  }

  // ---------------------------------------------------------------- the pool's actions

  /** The one transition with an action that matters here: it reports the error to the pool. */
  predicate Breaks(m: Machine, event: Event) {
    event.ConnectionError? && Table(m.phase, event) == Go(Terminated)
  }

  /** A socket event for connection `c`. */
  function SocketEvent(st: State, c: Conn, event: Event): (r: State)
    requires c < |st.machines| && AtRest(st) && InRange(st.connections, |st.machines|)
    ensures AtRest(r) && |r.machines| == |st.machines|
    ensures r.closed == st.closed && r.log.accepted == st.log.accepted && r.log.refused == st.log.refused
  {
    var m := st.machines[c];
    if ReachesIdle(m, event) then
      var (called, posts) := ConnectionReady(st, c);
      var m' := Process(m, event, posts);
      Update(called, c, m', Ignored(m, m', posts))
    else
      var failed := if Breaks(m, event) then ConnectionFailed(st) else st;
      Update(failed, c, Process(m, event, []), [])
  }

  /** A new connection has been started and told to connect. */
  function CreateNewConnection(st: State): State {
    if st.closed then st
    else
      var started := Process(Plugged(st.password), Connect, []);
      st.(connections := st.connections + [|st.machines|], machines := st.machines + [started])
  }

  function GetConnection(st: State, bytes: string): (r: State)
    requires AtRest(st) && InRange(st.ready, |st.machines|)
    ensures AtRest(r)
  {
    if st.closed then st.(log := st.log.(refused := st.log.refused + [bytes]))
    else
      var request := Request(|st.log.accepted|, bytes);
      var taken := st.(log := st.log.(accepted := st.log.accepted + [request]));
      if taken.ready != [] then
        var direct := taken.(ready := taken.ready[1..], log := taken.log.(removed := taken.log.removed + [request]));
        Call(direct, taken.ready[0], Execute(request))
      else
        var grown := if |taken.connections| < taken.poolSize then CreateNewConnection(taken) else taken;
        grown.(queue := grown.queue + [request])
  }

  function Close(st: State): (r: State)
    requires AtRest(st) && InRange(st.connections, |st.machines|)
    ensures AtRest(r)
  {
    if st.closed then st
    else
      var closing := st.(closed := true);
      if closing.queue == [] then CloseConnections(closing, None).0 else closing
  }

  /** `create`: a pool starts with one connection under way. */
  function Create(poolSize: nat, password: bool): (r: State)
    requires poolSize > 0
    ensures AtRest(r) && InRange(r.connections, |r.machines|) && InRange(r.ready, |r.machines|)
  {
    CreateNewConnection(State(poolSize, password, [], [], [], false, [], EmptyLog))
  }
}
