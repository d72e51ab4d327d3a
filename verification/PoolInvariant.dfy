/**
 What every action of the pool keeps.
 */
module PoolInvariant {
  import opened Wrappers
  import opened Events
  import opened Fsm
  import opened FsmTheorems
  import opened Pool

  // ---------------------------------------------------------------- the invariant

  predicate Distinct<T(==)>(s: seq<T>) {
    forall i, j :: 0 <= i < j < |s| ==> s[i] != s[j]
  }

  predicate MachineOk(m: Machine, password: bool) {
    && Resting(m)
    && m.password == password
    && (m.phase.Idle? || m.phase.Terminated? || Holds(m.phase))
    && (m.phase.Authn? ==> password)
    && (m.phase.Terminated? ==> m.deferred == [])
    && OnlyTerminates(m.deferred)
  }

  predicate MachinesOk(st: State) {
    forall c :: 0 <= c < |st.machines| ==> MachineOk(st.machines[c], st.password)
  }

  predicate Live(st: State, c: Conn) {
    c < |st.machines| && !st.machines[c].phase.Terminated?
  }

  predicate Rests(st: State, c: Conn) {
    c < |st.machines| && st.machines[c].phase.Idle?
  }

  /** The connection list holds exactly the connections that are not terminated, once each. */
  ghost predicate ConnectionsOk(st: State) {
    && Distinct(st.connections)
    && (forall c :: c in st.connections <==> Live(st, c))
    && |st.connections| <= st.poolSize
  }

  /** Every idle connection is listed as ready, once; terminated ones may be left in the list. */
  ghost predicate ReadyOk(st: State) {
    && Distinct(st.ready)
    && (forall c :: c in st.ready ==> Rests(st, c) || (c < |st.machines| && !Live(st, c)))
    && (forall c :: Rests(st, c) ==> c in st.ready)
  }

  /** No request waits while a connection is ready, or while there is none to come. */
  predicate QueueOk(st: State) {
    st.queue != [] ==> st.ready == [] && st.connections != []
  }

  predicate Drained(st: State) {
    st.closed && st.queue == []
  }

  /** Nothing is told to terminate before the pool is closed and its queue empty. */
  predicate TerminatesOk(st: State) {
    && (forall c :: 0 <= c < |st.machines| && st.machines[c].deferred != [] ==> Drained(st))
    && (st.log.terminates > 0 || st.log.closedCallbacks > 0 ==> Drained(st))
  }

  ghost predicate ClosedOk(st: State) {
    st.closed ==>
      && (forall c :: !Rests(st, c))
      && (st.connections == [] ==> st.log.closedCallbacks > 0)
  }

  /** Every request ever written to a connection. */
  ghost function SentOn(ms: seq<Machine>): multiset<Request> {
    if ms == [] then multiset{} else SentOn(ms[..|ms| - 1]) + multiset(ms[|ms| - 1].sent)
  }

  ghost predicate BooksOk(st: State) {
    && st.log.accepted == st.log.removed + st.queue
    && (forall i :: 0 <= i < |st.log.accepted| ==> st.log.accepted[i].ticket == i)
    && multiset(st.log.removed) == multiset(st.log.cleared) + multiset(st.log.lost) + SentOn(st.machines)
  }

  /** Until a connection fails, nothing is dropped, and only a drained pool terminates anything. */
  predicate FaultFree(st: State) {
    st.log.errors == 0 ==>
      && st.log.cleared == [] && st.log.lost == []
      && (forall c :: 0 <= c < |st.machines| && st.machines[c].phase.Terminated? ==>
            Drained(st) && |st.machines[c].sent| == |st.machines[c].settled|)
  }

  /** What also holds while the pool is terminating its connections. */
  ghost predicate Base(st: State) {
    && st.poolSize > 0
    && MachinesOk(st) && ConnectionsOk(st) && ReadyOk(st) && QueueOk(st)
    && TerminatesOk(st) && BooksOk(st) && FaultFree(st)
  }

  ghost predicate Inv(st: State) {
    Base(st) && ClosedOk(st)
  }

  // ---------------------------------------------------------------- lists and sums

  lemma {:induction false} EraseDistinct(s: seq<Conn>, c: Conn)
    requires Distinct(s)
    ensures Distinct(Erase(s, Some(c)))
    ensures forall d :: d in Erase(s, Some(c)) <==> d in s && d != c
    ensures |Erase(s, Some(c))| == if c in s then |s| - 1 else |s|
  {
    if s != [] {
      EraseDistinct(s[1..], c);
      var e := Erase(s[1..], Some(c));
      assert forall d :: d in s <==> d == s[0] || d in s[1..];
      assert s[0] !in s[1..];
      if c != s[0] {
        assert forall d :: d in [s[0]] + e <==> d == s[0] || d in e;
      }
    }
  }

  lemma {:induction false} EraseNothing(s: seq<Conn>)
    ensures Erase(s, None) == s
  {
    if s != [] {
      EraseNothing(s[1..]);
    }
  }

  lemma {:induction false} SentOnUpdate(ms: seq<Machine>, c: nat, m: Machine)
    requires c < |ms|
    ensures SentOn(ms[c := m]) + multiset(ms[c].sent) == SentOn(ms) + multiset(m.sent)
  {
    var last := |ms| - 1;
    var changed := ms[c := m];
    assert SentOn(ms) == SentOn(ms[..last]) + multiset(ms[last].sent);
    assert SentOn(changed) == SentOn(changed[..last]) + multiset(changed[last].sent);
    hide SentOn;
    if c == last {
      assert changed[..last] == ms[..last];
    } else {
      assert changed[..last] == ms[..last][c := m];
      assert ms[..last][c] == ms[c] && changed[last] == ms[last];
      SentOnUpdate(ms[..last], c, m);
      AddBothSides(SentOn(changed[..last]), multiset(ms[c].sent), SentOn(ms[..last]), multiset(m.sent),
                   multiset(ms[last].sent));
    }
  }

  lemma AddBothSides<T>(a: multiset<T>, b: multiset<T>, c: multiset<T>, d: multiset<T>, e: multiset<T>)
    requires a + b == c + d
    ensures a + e + b == c + e + d
  {
    assert a + e + b == a + b + e;
  }

  lemma SentOnExtended(ms: seq<Machine>, c: nat, m: Machine, more: seq<Request>)
    requires c < |ms| && m.sent == ms[c].sent + more
    ensures SentOn(ms[c := m]) == SentOn(ms) + multiset(more)
  {
    SentOnUpdate(ms, c, m);
    hide SentOn;
    var was := multiset(ms[c].sent);
    assert multiset(m.sent) == was + multiset(more);
    assert SentOn(ms[c := m]) == SentOn(ms[c := m]) + was - was;
    assert SentOn(ms) + multiset(more) == SentOn(ms) + (was + multiset(more)) - was;
  }

  lemma SentOnAppend(ms: seq<Machine>, m: Machine)
    ensures SentOn(ms + [m]) == SentOn(ms) + multiset(m.sent)
  {
    assert (ms + [m])[..|ms|] == ms;
  }

  // ---------------------------------------------------------------- single machines

  /** Replacing one machine by another that is in order. */
  lemma ReplaceMachine(st: State, c: Conn, m': Machine)
    requires MachinesOk(st) && c < |st.machines| && MachineOk(m', st.password)
    ensures MachinesOk(st.(machines := st.machines[c := m']))
  {
    hide MachineOk;
  }

  lemma ReplaceBooks(st: State, c: Conn, m': Machine)
    requires BooksOk(st) && c < |st.machines| && m'.sent == st.machines[c].sent
    ensures BooksOk(st.(machines := st.machines[c := m']))
  {
    assert m'.sent == st.machines[c].sent + [];
    SentOnExtended(st.machines, c, m', []);
    hide SentOn;
  }

  /** A machine that stays where it is in the lists: only what it puts off may change. */
  lemma HeldKeeps(st: State, c: Conn, m': Machine)
    requires Base(st) && c < |st.machines|
    requires var m := st.machines[c];
             && Holds(m.phase) && Holds(m'.phase) && m'.sent == m.sent
             && (m'.deferred != [] ==> Drained(st))
    requires MachineOk(m', st.password)
    ensures Base(st.(machines := st.machines[c := m']))
  {
    hide MachineOk, BooksOk, MachinesOk, Distinct;
    ReplaceMachine(st, c, m');
    ReplaceBooks(st, c, m');
    var r := st.(machines := st.machines[c := m']);
    assert forall d: Conn :: (Live(r, d) <==> Live(st, d)) && (Rests(r, d) <==> Rests(st, d));
  }

  /** A machine that reaches its end leaves the connection list, but not the list of the ready. */
  lemma EndKeeps(st: State, c: Conn, m': Machine)
    requires Base(st) && Live(st, c)
    requires m'.phase.Terminated? && m'.sent == st.machines[c].sent && MachineOk(m', st.password)
    requires st.log.errors > 0 || (Drained(st) && |m'.sent| == |m'.settled|)
    requires st.queue == []
    ensures
      var r := st.(machines := st.machines[c := m'], connections := Erase(st.connections, Some(c)));
      Base(r)
  {
    assert m'.deferred == [];
    hide MachineOk, BooksOk, MachinesOk, ConnectionsOk, ReadyOk, Distinct, Erase;
    ReplaceMachine(st, c, m');
    ReplaceBooks(st, c, m');
    EndLists(st, c, m');
  }

  lemma EndLists(st: State, c: Conn, m': Machine)
    requires ConnectionsOk(st) && ReadyOk(st) && Live(st, c) && m'.phase.Terminated?
    ensures
      var r := st.(machines := st.machines[c := m'], connections := Erase(st.connections, Some(c)));
      ConnectionsOk(r) && ReadyOk(r)
  {
    hide Distinct, Erase;
    EraseDistinct(st.connections, c);
    var r := st.(machines := st.machines[c := m'], connections := Erase(st.connections, Some(c)));
    assert forall d :: Live(r, d) <==> Live(st, d) && d != c;
    assert forall d :: Rests(r, d) ==> Rests(st, d);
  }

  lemma CallbackKeeps(st: State)
    requires Base(st) && Drained(st)
    ensures Base(RunClosedCallback(st))
  {
    hide MachineOk, SentOn, Distinct;
  }

  /** `connection_terminated` on the lists and the callback. */
  function Ended(st: State, c: Conn, m': Machine): State
    requires c < |st.machines|
  {
    ConnectionTerminated(st.(machines := st.machines[c := m']), c)
  }

  lemma EndedKeeps(st: State, c: Conn, m': Machine)
    requires Base(st) && Live(st, c)
    requires m'.phase.Terminated? && m'.sent == st.machines[c].sent && MachineOk(m', st.password)
    requires st.log.errors > 0 || (Drained(st) && |m'.sent| == |m'.settled|)
    requires st.queue == []
    ensures
      var r := Ended(st, c, m');
      && Base(r)
      && r.(connections := st.connections, log := st.log) == st.(machines := st.machines[c := m'])
      && r.log.(closedCallbacks := 0) == st.log.(closedCallbacks := 0)
      && r.log.closedCallbacks >= st.log.closedCallbacks
      && (st.closed && r.connections == [] ==> r.log.closedCallbacks > 0)
  {
    EndKeeps(st, c, m');
    var e := st.(machines := st.machines[c := m'], connections := Erase(st.connections, Some(c)));
    hide Base, Erase, MachineOk;
    if e.connections == [] && e.closed {
      CallbackKeeps(e);
    }
  }

  /** If no other connection rests, ending one leaves the pool in order. */
  lemma EndedInv(st: State, c: Conn, m': Machine)
    requires Base(st) && Live(st, c)
    requires m'.phase.Terminated? && m'.sent == st.machines[c].sent && MachineOk(m', st.password)
    requires st.log.errors > 0 || (Drained(st) && |m'.sent| == |m'.settled|)
    requires st.queue == []
    requires forall d: Conn :: Rests(st, d) ==> d == c || !st.closed
    ensures
      var r := Ended(st, c, m');
      && Inv(r) && !Live(r, c) && r.machines == st.machines[c := m']
      && r.queue == [] && r.closed == st.closed && r.log.errors == st.log.errors
  {
    hide Base, MachineOk;
    EndedKeeps(st, c, m');
    var r := Ended(st, c, m');
    hide Ended;
    assert forall d: Conn :: Rests(r, d) ==> Rests(st, d) && d != c;
  }

  lemma CallTerminateIs(st: State, c: Conn)
    requires c < |st.machines| && AtRest(st) && MachineOk(st.machines[c], st.password)
    requires !st.machines[c].phase.Terminated?
    ensures
      var m := st.machines[c];
      var m' := if m.phase.Idle? then m.(phase := Terminated, notices := 1)
                else m.(deferred := m.deferred + [Terminate]);
      && MachineOk(m', st.password)
      && Call(st, c, Terminate) ==
         if m.phase.Idle? then Ended(st, c, m') else st.(machines := st.machines[c := m'])
  {
    var m := st.machines[c];
    CallTerminate(m);
    ProcessResting(m, Terminate, []);
    hide Process;
    assert st.log.lost + [] == st.log.lost;
  }

  /** No machine has changed its phase, unless to terminate. */
  predicate Onward(st: State, r: State) {
    && |r.machines| == |st.machines|
    && forall d :: 0 <= d < |st.machines| ==>
         r.machines[d].phase == st.machines[d].phase || r.machines[d].phase.Terminated?
  }

  lemma CallTerminateKeeps(st: State, c: Conn)
    requires Base(st) && Drained(st) && Live(st, c) && AtRest(st)
    ensures
      var r := Call(st, c, Terminate);
      && Base(r) && Drained(r) && !Rests(r, c)
      && (forall d :: 0 <= d < |st.machines| && d != c ==> r.machines[d] == st.machines[d])
      && r.log.errors == st.log.errors && Onward(st, r)
  {
    var m := st.machines[c];
    assert MachineOk(m, st.password);
    CallTerminateIs(st, c);
    hide Call, Distinct;
    if m.phase.Idle? {
      var m' := m.(phase := Terminated, notices := 1);
      assert |m.sent| == |m.settled|;
      EndedKeeps(st, c, m');
      hide Base, Ended;
    } else {
      HeldKeeps(st, c, m.(deferred := m.deferred + [Terminate]));
      hide Base;
    }
  }

  // ---------------------------------------------------------------- closing all connections

  lemma DistinctTail(s: seq<Conn>)
    requires Distinct(s) && s != []
    ensures Distinct(s[1..]) && s[0] !in s[1..]
    ensures forall d: Conn :: d in s <==> d == s[0] || d in s[1..]
  {
    assert s == [s[0]] + s[1..];
  }

  /** What closing a list of connections comes to. */
  ghost predicate Closes(st: State, copy: seq<Conn>, busy: Option<Conn>, r: State, posts: seq<Event>) {
    && Base(r) && Drained(r) && r.log.errors == st.log.errors
    && OnlyTerminates(posts) && (posts != [] <==> busy.Some? && busy.value in copy)
    && Onward(st, r)
    && (forall d :: 0 <= d < |st.machines| && (d !in copy || busy == Some(d)) ==> r.machines[d] == st.machines[d])
    && (forall d: Conn :: d in copy && busy != Some(d) ==> !Rests(r, d))
  }

  lemma {:induction false} TerminateEachKeeps(st: State, copy: seq<Conn>, busy: Option<Conn>)
    requires Base(st) && Drained(st) && AtRest(st)
    requires Distinct(copy) && InRange(copy, |st.machines|) && forall d <- copy :: Live(st, d)
    ensures
      var (r, posts) := TerminateEach(st, copy, busy);
      Closes(st, copy, busy, r, posts)
    decreases |copy|
  {
    hide Base, Distinct, Closes, Call;
    if copy == [] {
      ClosesNothing(st, busy);
    } else {
      var counted := st.(log := st.log.(terminates := st.log.terminates + 1));
      CountKeeps(st);
      var c := copy[0];
      var rest := copy[1..];
      DistinctTail(copy);
      if busy == Some(c) {
        TerminateEachKeeps(counted, rest, busy);
        ClosesBusy(st, copy, busy, TerminateEach(counted, rest, busy).0, TerminateEach(counted, rest, busy).1);
      } else {
        CallTerminateKeeps(counted, c);
        var next := Call(counted, c, Terminate);
        TerminateEachKeeps(next, rest, busy);
        ClosesOther(st, next, copy, busy, TerminateEach(next, rest, busy).0, TerminateEach(next, rest, busy).1);
      }
    }
  }

  lemma ClosesNothing(st: State, busy: Option<Conn>)
    requires Base(st) && Drained(st)
    ensures Closes(st, [], busy, st, [])
  {
    hide Base;
  }

  lemma ClosesBusy(st: State, copy: seq<Conn>, busy: Option<Conn>, r: State, posts: seq<Event>)
    requires Distinct(copy) && copy != [] && busy == Some(copy[0])
    requires Closes(st.(log := st.log.(terminates := st.log.terminates + 1)), copy[1..], busy, r, posts)
    ensures Closes(st, copy, busy, r, [Terminate] + posts)
  {
    hide Base;
    DistinctTail(copy);
    hide Distinct;
  }

  lemma ClosesOther(st: State, next: State, copy: seq<Conn>, busy: Option<Conn>, r: State, posts: seq<Event>)
    requires Distinct(copy) && copy != [] && busy != Some(copy[0])
    requires Onward(st, next) && !Rests(next, copy[0]) && next.log.errors == st.log.errors
    requires forall d :: 0 <= d < |st.machines| && d != copy[0] ==> next.machines[d] == st.machines[d]
    requires Closes(next, copy[1..], busy, r, posts)
    ensures Closes(st, copy, busy, r, posts)
  {
    hide Base;
    DistinctTail(copy);
    hide Distinct;
    assert copy[0] !in copy[1..];
  }

  lemma CountKeeps(st: State)
    requires Base(st) && Drained(st)
    ensures Base(st.(log := st.log.(terminates := st.log.terminates + 1)))
  {
    hide MachineOk, SentOn, Distinct;
  }

  /** `close_connections` leaves no live connection at rest, save one in the middle of an event. */
  lemma CloseConnectionsKeeps(st: State, busy: Option<Conn>)
    requires Base(st) && Drained(st) && AtRest(st) && InRange(st.connections, |st.machines|)
    ensures
      var (r, posts) := CloseConnections(st, busy);
      && Base(r) && Drained(r) && r.log.errors == st.log.errors && r.log.closedCallbacks > 0
      && OnlyTerminates(posts) && (posts != [] <==> busy.Some? && Live(st, busy.value))
      && (busy.Some? && busy.value < |st.machines| ==> r.machines[busy.value] == st.machines[busy.value])
      && (forall d: Conn :: Rests(r, d) ==> busy == Some(d))
      && Onward(st, r)
  {
    assert forall d: Conn :: d in st.connections <==> Live(st, d);
    hide MachineOk, MachinesOk, BooksOk, ReadyOk, Distinct, TerminateEach;
    TerminateEachKeeps(st, st.connections, busy);
    var (r, posts) := TerminateEach(st, st.connections, busy);
    hide Base;
    CallbackKeeps(r);
  }

  lemma CloseKeeps(st: State)
    requires Inv(st) && AtRest(st) && InRange(st.connections, |st.machines|)
    ensures Inv(Close(st))
  {
    if !st.closed {
      var closing := st.(closed := true);
      assert Base(closing) by {
        hide MachineOk, Distinct, SentOn;
      }
      if closing.queue == [] {
        CloseConnectionsKeeps(closing, None);
        hide Base, CloseConnections;
      } else {
        hide MachineOk, Distinct, SentOn;
      }
    }
  }

  // ---------------------------------------------------------------- new requests

  lemma FreshMachine(password: bool)
    ensures Process(Plugged(password), Connect, []) == Plugged(password).(phase := Connecting)
    ensures MachineOk(Plugged(password).(phase := Connecting), password)
  {
  }

  lemma CreateKeeps(st: State)
    requires Inv(st) && !st.closed && |st.connections| < st.poolSize
    ensures Inv(CreateNewConnection(st))
    ensures CreateNewConnection(st).connections != []
  {
    FreshMachine(st.password);
    var started := Plugged(st.password).(phase := Connecting);
    SentOnAppend(st.machines, started);
    hide Process, MachineOk, SentOn;
    var r := CreateNewConnection(st);
    assert forall d: Conn :: Live(r, d) <==> Live(st, d) || d == |st.machines|;
    assert forall d: Conn :: Rests(r, d) <==> Rests(st, d);
    assert |st.machines| !in st.connections;
  }

  lemma {:induction false} CreateInv(poolSize: nat, password: bool)
    requires poolSize > 0
    ensures Inv(Create(poolSize, password))
  {
    CreateKeeps(State(poolSize, password, [], [], [], false, [], EmptyLog));
  }

  /** The books of a request that leaves the pool for a connection. */
  lemma SendBooks(st: State, c: Conn, m': Machine, request: Request)
    requires c < |st.machines| && m'.sent == st.machines[c].sent + [request]
    requires multiset(st.log.removed) == multiset(st.log.cleared) + multiset(st.log.lost) + SentOn(st.machines)
    ensures multiset(st.log.removed + [request]) ==
            multiset(st.log.cleared) + multiset(st.log.lost) + SentOn(st.machines[c := m'])
  {
    SentOnExtended(st.machines, c, m', [request]);
    hide SentOn;
  }

  function Taken(st: State, request: Request): State {
    st.(log := st.log.(accepted := st.log.accepted + [request]))
  }

  /** The ready list without its head, the request having been handed over. */
  function Direct(st: State, request: Request): State
    requires st.ready != []
  {
    st.(ready := st.ready[1..], log := st.log.(accepted := st.log.accepted + [request],
                                              removed := st.log.removed + [request]))
  }

  predicate Handing(st: State, request: Request) {
    !st.closed && st.ready != [] && st.queue == [] && request.ticket == |st.log.accepted|
  }

  lemma DirectBooks(st: State, request: Request)
    requires BooksOk(st) && Handing(st, request)
    ensures
      var r := Direct(st, request);
      && r.log.accepted == r.log.removed + r.queue
      && forall i :: 0 <= i < |r.log.accepted| ==> r.log.accepted[i].ticket == i
  {
    assert st.log.removed + st.queue == st.log.removed;
    var r := Direct(st, request);
    assert r.log.removed + r.queue == r.log.removed;
    hide SentOn;
  }

  lemma DirectReady(st: State, request: Request)
    requires ReadyOk(st) && Handing(st, request)
    ensures
      var r := Direct(st, request);
      && Distinct(r.ready)
      && forall d: Conn :: d in r.ready <==> d in st.ready && d != st.ready[0]
  {
    assert st.ready == [st.ready[0]] + st.ready[1..];
  }

  /** The head of the ready list takes the request. */
  predicate TakesUp(st: State, request: Request, m': Machine) {
    && Handing(st, request) && Rests(st, st.ready[0])
    && MachineOk(m', st.password) && m'.phase.Query? && m'.deferred == []
    && m'.sent == st.machines[st.ready[0]].sent + [request]
  }

  lemma DirectLiveLists(st: State, request: Request, m': Machine)
    requires TakesUp(st, request, m') && ConnectionsOk(st) && ReadyOk(st)
    ensures
      var r := Direct(st, request).(machines := st.machines[st.ready[0] := m']);
      ConnectionsOk(r) && ReadyOk(r)
  {
    var c := st.ready[0];
    var r := Direct(st, request).(machines := st.machines[c := m']);
    DirectReady(st, request);
    hide MachineOk, Distinct;
    assert forall d: Conn :: Live(r, d) <==> Live(st, d);
    assert forall d: Conn :: Rests(r, d) <==> Rests(st, d) && d != c;
  }

  lemma DirectLiveBooks(st: State, request: Request, m': Machine)
    requires TakesUp(st, request, m') && BooksOk(st) && MachinesOk(st)
    ensures
      var r := Direct(st, request).(machines := st.machines[st.ready[0] := m']);
      BooksOk(r) && MachinesOk(r)
  {
    ReplaceMachine(st, st.ready[0], m');
    SendBooks(st, st.ready[0], m', request);
    DirectBooks(st, request);
    hide MachineOk, SentOn;
  }

  lemma DirectLive(st: State, request: Request, m': Machine)
    requires Inv(st) && TakesUp(st, request, m')
    ensures Inv(Direct(st, request).(machines := st.machines[st.ready[0] := m']))
  {
    hide MachineOk, SentOn, MachinesOk, BooksOk, ConnectionsOk, ReadyOk;
    DirectLiveLists(st, request, m');
    DirectLiveBooks(st, request, m');
  }

  /** A terminated connection left in the ready list swallows the request. */
  lemma DirectDead(st: State, request: Request)
    requires Inv(st) && Handing(st, request)
    requires st.ready[0] < |st.machines| && !Live(st, st.ready[0])
    ensures
      var direct := Direct(st, request);
      Inv(direct.(log := direct.log.(lost := direct.log.lost + [request])))
  {
    var direct := Direct(st, request);
    var r := direct.(log := direct.log.(lost := direct.log.lost + [request]));
    DirectBooks(st, request);
    DirectReady(st, request);
    assert BooksOk(r) by {
      hide SentOn;
      assert multiset(r.log.removed) == multiset(st.log.removed) + multiset{request};
    }
    hide MachineOk, MachinesOk, SentOn, BooksOk, Distinct;
  }

  /** A request handed straight to the connection at the head of the ready list. */
  lemma DirectKeeps(st: State, request: Request)
    requires Inv(st) && AtRest(st) && InRange(st.ready, |st.machines|) && Handing(st, request)
    ensures Inv(Call(Direct(st, request), st.ready[0], Execute(request)))
  {
    hide Inv, MachineOk, Call;
    ReadyHead(st);
    var direct := Direct(st, request);
    if Rests(st, st.ready[0]) {
      CallExecuteIs(direct, st.ready[0], request);
      var m := st.machines[st.ready[0]];
      DirectLive(st, request, m.(phase := Query, query := Some(request), sent := m.sent + [request]));
    } else {
      CallDeadIs(direct, st.ready[0], request);
      DirectDead(st, request);
    }
  }

  lemma ReadyHead(st: State)
    requires Inv(st) && st.ready != []
    ensures
      var c := st.ready[0];
      && c < |st.machines| && MachineOk(st.machines[c], st.password)
      && (Rests(st, c) || st.machines[c].phase.Terminated?)
  {
    hide MachineOk, Distinct, SentOn;
    assert st.ready[0] in st.ready;
  }

  lemma CallExecuteIs(st: State, c: Conn, request: Request)
    requires AtRest(st) && Rests(st, c) && MachineOk(st.machines[c], st.password)
    ensures
      var m := st.machines[c];
      var m' := m.(phase := Query, query := Some(request), sent := m.sent + [request]);
      && MachineOk(m', st.password) && m'.deferred == []
      && Call(st, c, Execute(request)) == st.(machines := st.machines[c := m'])
  {
    var m := st.machines[c];
    CallExecute(m, request);
    ProcessResting(m, Execute(request), []);
    hide Process;
    assert m.sent + [request] != m.sent;
    assert st.log.lost + [] == st.log.lost;
  }

  lemma CallDeadIs(st: State, c: Conn, request: Request)
    requires AtRest(st) && c < |st.machines| && st.machines[c].phase.Terminated?
    ensures Call(st, c, Execute(request)) == st.(log := st.log.(lost := st.log.lost + [request]))
  {
    assert Process(st.machines[c], Execute(request), []) == st.machines[c];
    hide Process;
    assert st.machines[c := st.machines[c]] == st.machines;
  }

  lemma QueuedKeeps(st: State, request: Request)
    requires Inv(st) && !st.closed && st.ready == [] && st.connections != []
    requires request.ticket == |st.log.accepted|
    ensures Inv(Taken(st, request).(queue := st.queue + [request]))
  {
    hide MachineOk, SentOn, Distinct;
    assert st.log.removed + (st.queue + [request]) == st.log.removed + st.queue + [request];
  }

  lemma RefusedKeeps(st: State, bytes: string)
    requires Inv(st)
    ensures Inv(st.(log := st.log.(refused := st.log.refused + [bytes])))
  {
    hide MachineOk, SentOn, Distinct;
    var r := st.(log := st.log.(refused := st.log.refused + [bytes]));
    assert forall d: Conn :: (Live(r, d) <==> Live(st, d)) && (Rests(r, d) <==> Rests(st, d));
  }

  lemma GetConnectionKeeps(st: State, bytes: string)
    requires Inv(st) && AtRest(st) && InRange(st.ready, |st.machines|)
    ensures Inv(GetConnection(st, bytes))
  {
    hide MachineOk, MachinesOk, ConnectionsOk, ReadyOk, BooksOk, Call;
    if st.closed {
      RefusedKeeps(st, bytes);
    } else {
      var request := Request(|st.log.accepted|, bytes);
      if st.ready != [] {
        DirectKeeps(st, request);
      } else if |st.connections| < st.poolSize {
        CreateKeeps(st);
        hide Inv;
        QueuedKeeps(CreateNewConnection(st), request);
      } else {
        QueuedKeeps(st, request);
      }
    }
  }
}
