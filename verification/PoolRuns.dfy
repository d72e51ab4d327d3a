/**
 Runs of the pool: safety in every reachable state, and the fate of every request.
 */
module PoolRuns {
  import opened Wrappers
  import opened Events
  import opened Fsm
  import opened FsmTheorems
  import opened Pool
  import opened PoolInvariant
  import opened PoolSteps

  lemma InvMachine(st: State, c: Conn)
    requires Inv(st) && c < |st.machines|
    ensures MachineOk(st.machines[c], st.password)
  {
    hide MachineOk, Distinct, SentOn;
  }

  datatype Action =
    | Get(bytes: string)
    | Socket(conn: Conn, event: Event)
    | Shut

  predicate Allowed(st: State, a: Action) {
    a.Socket? ==> a.conn < |st.machines| && Expected(st.machines[a.conn], a.event)
  }

  /** Every machine is between two events, and the lists name machines that exist. */
  predicate Ready(st: State) {
    AtRest(st) && InRange(st.connections, |st.machines|) && InRange(st.ready, |st.machines|)
  }

  function Apply(st: State, a: Action): (r: State)
    requires Ready(st) && Allowed(st, a)
    ensures Ready(r)
  {
    ApplyReady(st, a);
    match a
    case Get(bytes) => GetConnection(st, bytes)
    case Socket(c, event) => SocketEvent(st, c, event)
    case Shut => Close(st)
  }

  predicate Playable(st: State, script: seq<Action>)
    requires Ready(st)
    decreases |script|
  {
    script != [] ==> Allowed(st, script[0]) && Playable(Apply(st, script[0]), script[1..])
  }

  function Run(st: State, script: seq<Action>): (r: State)
    requires Ready(st) && Playable(st, script)
    ensures Ready(r)
    decreases |script|
  {
    if script == [] then st else Run(Apply(st, script[0]), script[1..])
  }

  predicate JustCreated(st: State) {
    st.poolSize > 0 && st == Create(st.poolSize, st.password)
  }

  /** Some run of a pool just created ends in `st`. */
  ghost predicate Reachable(st: State) {
    Ready(st) &&
    exists start: State, script: seq<Action> ::
      JustCreated(start) && Ready(start) && Playable(start, script) && Run(start, script) == st
  }

  // ---------------------------------------------------------------- lists stay in range

  lemma {:induction false} EraseInRange(s: seq<Conn>, c: Option<Conn>, limit: nat)
    requires InRange(s, limit)
    ensures InRange(Erase(s, c), limit)
  {
    if s != [] && c != Some(s[0]) {
      EraseInRange(s[1..], c, limit);
    }
  }

  lemma UpdateReady(st: State, c: Conn, m': Machine, ignored: seq<Request>)
    requires Ready(st) && c < |st.machines| && m'.inbox == [] && AllCalls(m'.deferred)
    ensures Ready(Update(st, c, m', ignored))
  {
    EraseInRange(st.connections, Some(c), |st.machines|);
    hide AtRest, InRange, Erase;
  }

  lemma CallReady(st: State, c: Conn, event: Event)
    requires Ready(st) && c < |st.machines| && IsCall(event)
    ensures Ready(Call(st, c, event))
  {
    var m := st.machines[c];
    var m' := Process(m, event, []);
    UpdateReady(st, c, m', Ignored(m, m', [event]));
    hide Process, Update, Ready, Ignored;
  }

  lemma {:induction false} TerminateEachReady(st: State, copy: seq<Conn>, busy: Option<Conn>)
    requires Ready(st) && InRange(copy, |st.machines|)
    ensures Ready(TerminateEach(st, copy, busy).0)
    decreases |copy|
  {
    hide Call;
    if copy != [] {
      var counted := st.(log := st.log.(terminates := st.log.terminates + 1));
      if busy == Some(copy[0]) {
        TerminateEachReady(counted, copy[1..], busy);
      } else {
        CallReady(counted, copy[0], Terminate);
        TerminateEachReady(Call(counted, copy[0], Terminate), copy[1..], busy);
      }
    }
  }

  lemma ArrivalReady(st: State, c: Conn)
    requires Ready(st) && c < |st.machines|
    ensures Ready(ConnectionReady(st, c).0)
  {
    TerminateEachReady(st, st.connections, Some(c));
    hide TerminateEach;
  }

  lemma SocketReady(st: State, c: Conn, event: Event)
    requires Ready(st) && c < |st.machines|
    ensures Ready(SocketEvent(st, c, event))
  {
    hide Process, Update, ConnectionReady, ReachesIdle, Ignored;
    var m := st.machines[c];
    assert m.inbox == [] && AllCalls(m.deferred);
    if ReachesIdle(m, event) {
      var (called, posts) := ConnectionReady(st, c);
      ArrivalReady(st, c);
      UpdateReady(called, c, Process(m, event, posts), Ignored(m, Process(m, event, posts), posts));
    } else {
      EraseNothing(st.connections);
      var failed := if Breaks(m, event) then ConnectionFailed(st) else st;
      UpdateReady(failed, c, Process(m, event, []), []);
    }
  }

  lemma GetReady(st: State, bytes: string)
    requires Ready(st)
    ensures Ready(GetConnection(st, bytes))
  {
    hide Call;
    FreshMachine(st.password);
    if !st.closed && st.ready != [] {
      var request := Request(|st.log.accepted|, bytes);
      CallReady(Direct(st, request), st.ready[0], Execute(request));
    }
  }

  lemma CloseReady(st: State)
    requires Ready(st)
    ensures Ready(Close(st))
  {
    TerminateEachReady(st.(closed := true), st.connections, None);
    hide TerminateEach;
  }

  lemma ApplyReady(st: State, a: Action)
    requires Ready(st) && Allowed(st, a)
    ensures match a
            case Get(bytes) => Ready(GetConnection(st, bytes))
            case Socket(c, event) => Ready(SocketEvent(st, c, event))
            case Shut => Ready(Close(st))
  {
    hide GetConnection, SocketEvent, Close, Ready;
    match a
    case Get(bytes) => GetReady(st, bytes);
    case Socket(c, event) => SocketReady(st, c, event);
    case Shut => CloseReady(st);
  }

  // ---------------------------------------------------------------- the invariant holds throughout

  lemma ApplyKeeps(st: State, a: Action)
    requires Inv(st) && Ready(st) && Allowed(st, a)
    ensures Inv(Apply(st, a))
  {
    hide Inv, GetConnection, SocketEvent, Close, AtRest, InRange;
    match a
    case Get(bytes) => GetConnectionKeeps(st, bytes);
    case Socket(c, event) => SocketEventKeeps(st, c, event);
    case Shut => CloseKeeps(st);
  }

  lemma {:induction false} RunKeeps(st: State, script: seq<Action>)
    requires Inv(st) && Ready(st) && Playable(st, script)
    ensures Inv(Run(st, script))
    decreases |script|
  {
    hide Inv, Ready, Apply;
    if script != [] {
      ApplyKeeps(st, script[0]);
      RunKeeps(Apply(st, script[0]), script[1..]);
    }
  }

  /** Every state that a pool can reach satisfies the invariant. */
  lemma ReachableInv(st: State)
    requires Reachable(st)
    ensures Inv(st) && Ready(st)
  {
    hide Inv, Ready, Run, Playable, Create;
    var start: State, script: seq<Action> :|
      JustCreated(start) && Ready(start) && Playable(start, script) && Run(start, script) == st;
    CreateInv(start.poolSize, start.password);
    RunKeeps(start, script);
  }

  lemma {:induction false} RunAppend(st: State, script: seq<Action>, a: Action)
    requires Ready(st) && Playable(st, script) && Allowed(Run(st, script), a)
    ensures Playable(st, script + [a]) && Run(st, script + [a]) == Apply(Run(st, script), a)
    decreases |script|
  {
    hide Ready, Apply, Allowed;
    if script == [] {
      assert [a][1..] == [];
    } else {
      RunAppend(Apply(st, script[0]), script[1..], a);
      assert (script + [a])[1..] == script[1..] + [a];
    }
  }

  /** One more action of a run. */
  lemma StepReaches(st: State, a: Action)
    requires Reachable(st) && Allowed(st, a)
    ensures Reachable(Apply(st, a))
  {
    hide Ready, JustCreated, Apply, Allowed, Run, Playable;
    var start: State, script: seq<Action> :|
      JustCreated(start) && Ready(start) && Playable(start, script) && Run(start, script) == st;
    RunAppend(start, script, a);
  }

  /** A pool just created can be reached. */
  lemma CreateReaches(poolSize: nat, password: bool)
    requires poolSize > 0
    ensures Reachable(Create(poolSize, password))
  {
    hide Create;
    assert Create(poolSize, password).poolSize == poolSize && Create(poolSize, password).password == password by {
      CreatedIs(poolSize, password);
    }
    var st := Create(poolSize, password);
    assert Playable(st, []) && Run(st, []) == st;
  }

  // ---------------------------------------------------------------- what holds in every reachable state

  /**
   No machine ever meets an event its state has no row for; an idle connection is listed as
   ready exactly once and a busy one never, so that `execute` reaches idle machines or dead
   ones only; and a closed pool has no idle connection.
   */
  lemma ReadyMeansIdle(st: State)
    requires Reachable(st)
    ensures forall c :: 0 <= c < |st.machines| ==> !st.machines[c].phase.Faulted?
    ensures Distinct(st.ready)
    ensures forall c: Conn :: Live(st, c) ==> (c in st.ready <==> Rests(st, c))
    ensures st.closed ==> forall c: Conn :: !Rests(st, c)
  {
    hide Reachable, Distinct, SentOn, Resting;
    ReachableInv(st);
    forall c | 0 <= c < |st.machines|
      ensures !st.machines[c].phase.Faulted?
    {
      assert MachineOk(st.machines[c], st.password);
    }
  }

  /** The list of connections is the set of those not terminated, within the pool's size. */
  lemma ConnectionsAreLive(st: State)
    requires Reachable(st)
    ensures Distinct(st.connections) && |st.connections| <= st.poolSize
    ensures forall c: Conn :: c in st.connections <==> Live(st, c)
  {
    hide Reachable, Distinct, SentOn, MachineOk;
    ReachableInv(st);
  }

  /**
   A request waits only while every connection is on its way to idle, and there is one; the
   first to arrive there takes the request that has waited longest.
   */
  lemma NoRequestIsStranded(st: State, c: Conn, event: Event)
    requires Reachable(st) && st.queue != []
    ensures st.ready == [] && st.connections != []
    ensures forall d <- st.connections :: d < |st.machines| && Holds(st.machines[d].phase)
    ensures
      Allowed(st, Socket(c, event)) && ReachesIdle(st.machines[c], event) ==>
        var r := SocketEvent(st, c, event);
        r.queue == st.queue[1..] && c < |r.machines| && r.machines[c].query == Some(st.queue[0])
  {
    hide Reachable;
    ReachableInv(st);
    hide Distinct, SentOn, Resting, SocketEvent, Expected, ReachesIdle;
    forall d <- st.connections
      ensures d < |st.machines| && Holds(st.machines[d].phase)
    {
      assert Live(st, d) && !Rests(st, d);
      assert MachineOk(st.machines[d], st.password);
    }
    hide Inv;
    if Allowed(st, Socket(c, event)) && ReachesIdle(st.machines[c], event) {
      ArrivesToQueue(st, c, event);
    }
  }

  /** The pool grows exactly when a request finds no connection ready and there is room for another. */
  lemma GrowsIff(st: State, bytes: string)
    requires Reachable(st)
    ensures
      var r := GetConnection(st, bytes);
      if !st.closed && st.ready == [] && |st.connections| < st.poolSize then
        && r.connections == st.connections + [|st.machines|]
        && |r.machines| == |st.machines| + 1 && r.machines[|st.machines|].phase.Connecting?
      else
        |r.machines| == |st.machines| && r.connections == st.connections
  {
    hide Reachable, Inv, MachineOk, Call;
    ReachableInv(st);
    if !st.closed && st.ready != [] {
      ReadyHead(st);
      var request := Request(|st.log.accepted|, bytes);
      if Rests(st, st.ready[0]) {
        CallExecuteIs(Direct(st, request), st.ready[0], request);
      } else {
        CallDeadIs(Direct(st, request), st.ready[0], request);
      }
    } else {
      FreshMachine(st.password);
      hide Process;
    }
  }

  /** Requests leave the pool in the order in which they were accepted. */
  lemma FirstComeFirstServed(st: State)
    requires Reachable(st)
    ensures st.log.accepted == st.log.removed + st.queue
  {
    hide Reachable;
    ReachableInv(st);
  }

  /** On each connection, callbacks are paired with requests in the order of sending. */
  lemma RepliesArePaired(st: State, c: Conn)
    requires Reachable(st) && c < |st.machines|
    ensures Paired(st.machines[c])
    ensures st.machines[c].phase.Query? <==> st.machines[c].query.Some?
    ensures st.machines[c].notices == if st.machines[c].phase.Terminated? then 1 else 0
  {
    hide Reachable;
    ReachableInv(st);
    assert MachineOk(st.machines[c], st.password);
  }

  /**
   A connection writes its startup message once, when it has connected and before any request;
   without a password it never does.
   */
  lemma StartupComesFirst(st: State, c: Conn)
    requires Reachable(st) && c < |st.machines|
    ensures
      var m := st.machines[c];
      && m.startups <= (if st.password then 1 else 0)
      && (Live(st, c) ==> (m.startups == 1 <==> st.password && !m.phase.Connecting?))
      && (st.password && m.sent != [] ==> m.startups == 1)
  {
    hide Reachable, Paired;
    ReachableInv(st);
    assert MachineOk(st.machines[c], st.password);
  }

  // ---------------------------------------------------------------- the fate of a request

  /** Where an accepted request has got to. */
  datatype Fate =
    | Waiting                      // in the queue
    | Cleared                      // failed with the queue, on a connection error
    | Swallowed                    // handed to a terminated connection, without a callback
    | InFlight(conn: Conn)         // sent, and awaiting its reply
    | Settled(conn: Conn, k: nat)  // its callback has run
    | Dropped(conn: Conn)          // in flight when its connection failed, without a callback

  ghost predicate HasFate(st: State, r: Request, f: Fate) {
    match f
    case Waiting => r in st.queue
    case Cleared => r in st.log.cleared
    case Swallowed => r in st.log.lost
    case InFlight(c) => c < |st.machines| && st.machines[c].query == Some(r)
    case Settled(c, k) => c < |st.machines| && k < |st.machines[c].settled| && st.machines[c].settled[k].request == r
    case Dropped(c) =>
      c < |st.machines| && st.machines[c].phase.Terminated? &&
      st.machines[c].sent == RequestsOf(st.machines[c].settled) + [r]
  }

  lemma {:induction false} CountOfDistinct<T>(s: seq<T>, x: T)
    requires Distinct(s) && x in s
    ensures multiset(s)[x] == 1
  {
    assert s == [s[0]] + s[1..];
    assert multiset(s) == multiset{s[0]} + multiset(s[1..]);
    if x == s[0] {
      assert x !in s[1..];
    } else {
      CountOfDistinct(s[1..], x);
    }
  }

  lemma AtLeastTwice<T>(s: seq<T>, x: T, i: nat, j: nat)
    requires i < j < |s| && s[i] == x && s[j] == x
    ensures multiset(s)[x] >= 2
  {
    assert s == s[..j] + s[j..];
    assert s[..j][i] == x && s[j..][0] == x;
    assert multiset(s) == multiset(s[..j]) + multiset(s[j..]);
  }

  lemma {:induction false} SentOnContains(ms: seq<Machine>, c: nat, r: Request)
    requires c < |ms|
    ensures SentOn(ms)[r] >= multiset(ms[c].sent)[r]
  {
    if c < |ms| - 1 {
      SentOnContains(ms[..|ms| - 1], c, r);
    }
  }

  lemma {:induction false} SentOnTwo(ms: seq<Machine>, c: nat, d: nat, r: Request)
    requires c < d < |ms|
    ensures SentOn(ms)[r] >= multiset(ms[c].sent)[r] + multiset(ms[d].sent)[r]
  {
    if d < |ms| - 1 {
      SentOnTwo(ms[..|ms| - 1], c, d, r);
    } else {
      SentOnContains(ms[..|ms| - 1], c, r);
    }
  }

  lemma {:induction false} SentOnSome(ms: seq<Machine>, r: Request) returns (c: nat)
    requires SentOn(ms)[r] > 0
    ensures c < |ms| && r in ms[c].sent
  {
    var last := |ms| - 1;
    if r in ms[last].sent {
      c := last;
    } else {
      c := SentOnSome(ms[..last], r);
    }
  }

  /** The four places together hold an accepted request once. */
  lemma CountedOnce(st: State, r: Request)
    requires Inv(st) && r in st.log.accepted
    ensures multiset(st.queue)[r] + multiset(st.log.cleared)[r] + multiset(st.log.lost)[r] + SentOn(st.machines)[r] == 1
  {
    hide SentOn, MachinesOk, ConnectionsOk, ReadyOk, FaultFree, TerminatesOk, ClosedOk;
    assert Distinct(st.log.accepted);
    CountOfDistinct(st.log.accepted, r);
    assert multiset(st.log.accepted) == multiset(st.log.removed) + multiset(st.queue);
  }

  /** A request with a fate on a connection was sent there. */
  lemma FateWasSent(st: State, r: Request, f: Fate)
    requires Inv(st) && HasFate(st, r, f) && (f.InFlight? || f.Settled? || f.Dropped?)
    ensures r in st.machines[f.conn].sent
    ensures
      var m := st.machines[f.conn];
      && (f.Settled? ==> f.k < |m.sent| && m.sent[f.k] == r)
      && (!f.Settled? ==> |m.sent| == |m.settled| + 1 && m.sent[|m.settled|] == r)
  {
    var m := st.machines[f.conn];
    assert MachineOk(m, st.password);
    hide Inv;
    if f.Settled? {
      assert RequestsOf(m.settled)[f.k] == r;
    }
  }

  lemma FateExists(st: State, r: Request) returns (f: Fate)
    requires Inv(st) && r in st.log.accepted
    ensures HasFate(st, r, f)
  {
    hide Inv, SentOn, MachineOk;
    CountedOnce(st, r);
    if r in st.queue {
      f := Waiting;
    } else if r in st.log.cleared {
      f := Cleared;
    } else if r in st.log.lost {
      f := Swallowed;
    } else {
      var c := SentOnSome(st.machines, r);
      InvMachine(st, c);
      f := FateOnConnection(st, c, r);
    }
  }

  lemma FateOnConnection(st: State, c: Conn, r: Request) returns (f: Fate)
    requires c < |st.machines| && MachineOk(st.machines[c], st.password) && r in st.machines[c].sent
    ensures HasFate(st, r, f)
  {
    var m := st.machines[c];
    var i :| 0 <= i < |m.sent| && m.sent[i] == r;
    if i < |m.settled| {
      assert RequestsOf(m.settled)[i] == r;
      f := Settled(c, i);
    } else if m.query.Some? {
      f := InFlight(c);
    } else {
      assert m.sent == RequestsOf(m.settled) + [r];
      f := Dropped(c);
    }
  }

  function Place(f: Fate): nat {
    match f
    case Waiting => 0
    case Cleared => 1
    case Swallowed => 2
    case _ => 3
  }

  /** The position of a request among those sent on its connection. */
  function Position(st: State, f: Fate): nat
    requires (f.InFlight? || f.Settled? || f.Dropped?) && f.conn < |st.machines|
  {
    if f.Settled? then f.k else |st.machines[f.conn].settled|
  }

  /** Two different positions would count a request twice. */
  lemma SentInOnePlace(st: State, r: Request, f: Fate, g: Fate)
    requires Inv(st) && HasFate(st, r, f) && HasFate(st, r, g) && Place(f) == Place(g) == 3
    requires SentOn(st.machines)[r] <= 1
    ensures f.conn == g.conn && Position(st, f) == Position(st, g)
  {
    FateWasSent(st, r, f);
    FateWasSent(st, r, g);
    hide SentOn, Inv, HasFate;
    var i, j := Position(st, f), Position(st, g);
    if f.conn < g.conn {
      SentOnTwo(st.machines, f.conn, g.conn, r);
    } else if g.conn < f.conn {
      SentOnTwo(st.machines, g.conn, f.conn, r);
    } else {
      SentOnContains(st.machines, f.conn, r);
      if i < j {
        AtLeastTwice(st.machines[f.conn].sent, r, i, j);
      } else if j < i {
        AtLeastTwice(st.machines[f.conn].sent, r, j, i);
      }
    }
  }

  /** On one connection and at one position, the three fates exclude each other. */
  lemma FatesExclude(st: State, r: Request, f: Fate, g: Fate)
    requires Inv(st) && HasFate(st, r, f) && HasFate(st, r, g) && Place(f) == Place(g) == 3
    requires f.conn == g.conn && Position(st, f) == Position(st, g)
    ensures f == g
  {
    assert MachineOk(st.machines[f.conn], st.password);
    hide Inv;
  }

  lemma FateIsUnique(st: State, r: Request, f: Fate, g: Fate)
    requires Inv(st) && r in st.log.accepted && HasFate(st, r, f) && HasFate(st, r, g)
    ensures f == g
  {
    hide SentOn, Inv;
    CountedOnce(st, r);
    if Place(f) == 3 {
      FateWasSent(st, r, f);
      SentOnContains(st.machines, f.conn, r);
    }
    if Place(g) == 3 {
      FateWasSent(st, r, g);
      SentOnContains(st.machines, g.conn, r);
    }
    assert Place(f) == Place(g);
    if Place(f) == 3 {
      SentInOnePlace(st, r, f, g);
      FatesExclude(st, r, f, g);
    }
  }

  /**
   In every reachable state each accepted request is in exactly one place: no callback runs
   twice, and none is forgotten except where the fate says so.
   */
  lemma ExactlyOneFate(st: State, r: Request)
    requires Reachable(st) && r in st.log.accepted
    ensures exists f :: HasFate(st, r, f)
    ensures forall f, g :: HasFate(st, r, f) && HasFate(st, r, g) ==> f == g
  {
    hide Reachable, Inv, HasFate;
    ReachableInv(st);
    var f := FateExists(st, r);
    forall f, g | HasFate(st, r, f) && HasFate(st, r, g)
      ensures f == g
    {
      FateIsUnique(st, r, f, g);
    }
  }

  /** As long as no connection has failed, a request is waiting, in flight on a live connection, or settled. */
  lemma NothingIsLost(st: State, r: Request, f: Fate)
    requires Reachable(st) && st.log.errors == 0 && HasFate(st, r, f)
    ensures f.Waiting? || f.Settled? || (f.InFlight? && Live(st, f.conn))
  {
    hide Reachable, SentOn, Distinct, ReadyOk, ConnectionsOk, BooksOk;
    ReachableInv(st);
    if f.InFlight? {
      assert MachineOk(st.machines[f.conn], st.password);
    }
  }

  // ---------------------------------------------------------------- requests without a callback

  lemma HandedOver(st: State, c: Conn, request: Request)
    requires AtRest(st) && c < |st.machines| && MachineOk(st.machines[c], st.password)
    requires st.machines[c].phase.Idle? || st.machines[c].phase.Terminated?
    ensures Call(st, c, Execute(request)).log.lost ==
            if st.machines[c].phase.Idle? then st.log.lost else st.log.lost + [request]
  {
    hide Call, MachineOk;
    if Rests(st, c) {
      CallExecuteIs(st, c, request);
    } else {
      CallDeadIs(st, c, request);
    }
  }

  /**
   A new request vanishes without a callback exactly if the connection at the head of the
   ready list has died there.
   */
  lemma SwallowedIff(st: State, bytes: string)
    requires Reachable(st)
    ensures GetConnection(st, bytes).log.lost != st.log.lost <==>
            !st.closed && st.ready != [] && !Live(st, st.ready[0])
  {
    hide Reachable, Inv, MachineOk, Call, Process;
    ReachableInv(st);
    if !st.closed && st.ready != [] {
      ReadyHead(st);
      var request := Request(|st.log.accepted|, bytes);
      HandedOver(Direct(st, request), st.ready[0], request);
      assert |st.log.lost + [request]| == |st.log.lost| + 1;
    }
  }

  lemma CreatedIs(poolSize: nat, password: bool)
    requires poolSize > 0
    ensures Create(poolSize, password) ==
            State(poolSize, password, [], [], [0], false, [Plugged(password).(phase := Connecting)], EmptyLog)
  {
    hide Inv, Process;
    FreshMachine(password);
  }

  /** A pool of one whose connection has just come to rest, and the same after it has failed. */
  lemma FirstConnection() returns (st: State)
    ensures Allowed(Create(1, false), Socket(0, Complete))
    ensures Create(1, false).connections == [0] && |Create(1, false).machines| == 1
    ensures st == Apply(Create(1, false), Socket(0, Complete))
    ensures st.ready == [0] && st.connections == [0] && st.queue == [] && !st.closed && st.log == EmptyLog
    ensures |st.machines| == 1 && Rests(st, 0) && Inv(st) && st.poolSize == 1 && st.machines[0].settled == []
  {
    var s0 := Create(1, false);
    var m0 := Plugged(false).(phase := Connecting);
    hide Inv, Process, Create, SocketEvent;
    CreatedIs(1, false);
    CreateInv(1, false);
    assert ReachesIdle(m0, Complete) && Expected(m0, Complete);
    ArrivesToRest(s0, 0, Complete);
    hide MachineOk, ReachesIdle;
    st := Apply(s0, Socket(0, Complete));
  }

  /** A pool of one with a request in flight and another waiting. */
  lemma BusyConnection(first: string, second: string) returns (st: State)
    ensures Reachable(st) && |st.machines| == 1 && st.connections == [0] && st.log.errors == 0
    ensures st.machines[0].phase.Query? && st.machines[0].query == Some(Request(0, first))
    ensures st.queue == [Request(1, second)] && Request(0, first) in st.log.accepted
    ensures !st.closed && st.machines[0].settled == []
  {
    hide Inv, Create, SocketEvent, MachineOk, Call, Process;
    var s1 := FirstConnection();
    CreateReaches(1, false);
    StepReaches(Create(1, false), Socket(0, Complete));
    hide Reachable, Apply;
    InvMachine(s1, 0);
    BusyAfter(s1, first, second);
    StepReaches(s1, Get(first));
    StepReaches(Apply(s1, Get(first)), Get(second));
    st := Apply(Apply(s1, Get(first)), Get(second));
  }

  lemma BusyAfter(s1: State, first: string, second: string)
    requires Ready(s1) && |s1.machines| == 1 && Rests(s1, 0) && MachineOk(s1.machines[0], s1.password)
    requires s1.ready == [0] && s1.connections == [0] && s1.queue == [] && !s1.closed && s1.log == EmptyLog
    requires s1.poolSize == 1 && s1.machines[0].settled == []
    ensures
      var st := Apply(Apply(s1, Get(first)), Get(second));
      && |st.machines| == 1 && st.connections == [0] && st.log.errors == 0
      && st.machines[0].phase.Query? && st.machines[0].query == Some(Request(0, first))
      && st.queue == [Request(1, second)] && Request(0, first) in st.log.accepted
      && !st.closed && st.machines[0].settled == []
  {
    hide MachineOk, Call, Process;
    var request := Request(0, first);
    CallExecuteIs(Direct(s1, request), 0, request);
    assert [0][1..] == [];
    assert Apply(s1, Get(first)) == Call(Direct(s1, request), 0, Execute(request));
    hide Direct;
  }

  /** It does happen: a connection that fails while idle stays in the ready list. */
  lemma DeadConnectionSwallows(bytes: string) returns (st: State)
    ensures Reachable(st) && !st.closed
    ensures GetConnection(st, bytes).log.lost == [Request(0, bytes)]
  {
    var s1 := FirstConnection();
    hide Inv, SocketEvent, Create;
    assert Ready(s1);
    BreaksKeeps(s1, 0);
    st := Apply(s1, Socket(0, ConnectionError));
    var script := [Socket(0, Complete), Socket(0, ConnectionError)];
    assert script[1..] == [Socket(0, ConnectionError)] && script[1..][1..] == [];
    assert Run(Create(1, false), script) == st;
    CreatedIs(1, false);
    DeadAfterBreak(s1, st);
    SwallowedAfter(st, bytes);
  }

  lemma DeadAfterBreak(s1: State, st: State)
    requires Inv(s1) && AtRest(s1) && InRange(s1.connections, |s1.machines|) && |s1.machines| == 1 && Rests(s1, 0)
    requires st == SocketEvent(s1, 0, ConnectionError)
    ensures st.ready == s1.ready && st.closed == s1.closed && !Live(st, 0) && |st.machines| == 1
    ensures st.log.lost == s1.log.lost && st.log.accepted == s1.log.accepted
  {
    assert MachineOk(s1.machines[0], s1.password);
    hide Inv, MachineOk, SocketEvent, Erase;
    BreakIs(s1, 0);
  }

  lemma SwallowedAfter(st: State, bytes: string)
    requires Inv(st) && AtRest(st) && InRange(st.ready, |st.machines|)
    requires !st.closed && st.ready == [0] && |st.machines| == 1 && !Live(st, 0)
    requires st.log.lost == [] && st.log.accepted == []
    ensures GetConnection(st, bytes).log.lost == [Request(0, bytes)]
  {
    assert MachineOk(st.machines[0], st.password);
    hide Inv, MachineOk, Call;
    var request := Request(0, bytes);
    HandedOver(Direct(st, request), 0, request);
  }
}
