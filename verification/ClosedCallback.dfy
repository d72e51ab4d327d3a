/**
 How often the closed callback runs.
 */
module ClosedCallback {
  import opened Wrappers
  import opened Events
  import opened Fsm
  import FsmTheorems
  import opened Pool
  import opened PoolInvariant
  import opened PoolSteps
  import opened PoolRuns
  import opened PoolHistory

  /** An arrival in idle that finds the pool closed and nothing waiting. */
  predicate LastArrival(st: State, a: Action) {
    Drained(st) && a.Socket? && Live(st, a.conn) && ReachesIdle(st.machines[a.conn], a.event)
  }

  function LastArrivals(st: State, script: seq<Action>): nat
    requires Ready(st) && Playable(st, script)
    decreases |script|
  {
    if script == [] then 0
    else (if LastArrival(st, script[0]) then 1 else 0) + LastArrivals(Apply(st, script[0]), script[1..])
  }

  /** Whether the last connection has left in between. */
  function Emptied(st: State, r: State): nat {
    if st.connections != [] && r.connections == [] then 1 else 0
  }

  // ---------------------------------------------------------------- terminating connections

  /** What has been counted of a list that is being terminated. */
  predicate Counts(st: State, r: State) {
    && r.log.closedCallbacks == st.log.closedCallbacks + Emptied(st, r)
    && (st.connections == [] ==> r.connections == [])
    && r.closed == st.closed && r.queue == st.queue
  }

  lemma CountsOnward(st: State, n: State, r: State)
    requires Counts(st, n) && Counts(n, r)
    ensures Counts(st, r)
  {
  }

  predicate Listed(st: State, copy: seq<Conn>) {
    forall i :: 0 <= i < |copy| ==> Live(st, copy[i]) && copy[i] in st.connections
  }

  /** One more connection leaves. */
  lemma EndedCounts(st: State, c: Conn, m': Machine)
    requires st.closed && c < |st.machines| && c in st.connections && Distinct(st.connections)
    ensures
      var r := Ended(st, c, m');
      && Counts(st, r) && r.machines == st.machines[c := m']
      && Distinct(r.connections) && (forall d :: d in r.connections <==> d in st.connections && d != c)
  {
    EraseDistinct(st.connections, c);
    hide Erase, Distinct;
  }

  lemma CallCounts(st: State, c: Conn)
    requires AllOk(st) && st.closed && Live(st, c) && c in st.connections && Distinct(st.connections)
    ensures
      var r := Call(st, c, Terminate);
      && Counts(st, r) && AllOk(r) && Distinct(r.connections)
      && |r.machines| == |st.machines|
      && (forall d :: 0 <= d < |st.machines| && d != c ==> r.machines[d] == st.machines[d])
      && (forall d :: d in st.connections && d != c ==> d in r.connections)
      && (!Rests(st, c) ==> r.connections == st.connections)
  {
    assert MachineOk(st.machines[c], st.password);
    CallGrows(st, c);
    hide AllOk, Grows, MachineOk, Call, Distinct;
    CallTerminateIs(st, c);
    if Rests(st, c) {
      EndedCounts(st, c, st.machines[c].(phase := Terminated, notices := 1));
      hide Ended;
    }
  }

  lemma ListedAfter(st: State, n: State, copy: seq<Conn>)
    requires copy != [] && Distinct(copy) && Listed(st, copy) && |n.machines| == |st.machines|
    requires forall d :: 0 <= d < |st.machines| && d != copy[0] ==> n.machines[d] == st.machines[d]
    requires forall d :: d in st.connections && d != copy[0] ==> d in n.connections
    ensures Distinct(copy[1..]) && Listed(n, copy[1..])
    ensures forall d :: d in copy[1..] ==> Rests(n, d) == Rests(st, d)
  {
    assert forall i :: 0 <= i < |copy| - 1 ==> copy[1..][i] == copy[i + 1] && copy[i + 1] != copy[0];
  }

  lemma {:induction false} TerminateEachCounts(st: State, copy: seq<Conn>, busy: Option<Conn>)
    requires AllOk(st) && st.closed && Distinct(st.connections)
    requires Distinct(copy) && Listed(st, copy) && InRange(copy, |st.machines|)
    ensures
      var r := TerminateEach(st, copy, busy).0;
      && Counts(st, r) && Distinct(r.connections)
      && ((forall d :: d in copy && Rests(st, d) ==> busy == Some(d)) ==> r.connections == st.connections)
    decreases |copy|
  {
    hide Call, MachineOk, Distinct, Counts, Listed, Rests;
    if copy == [] {
      CountsNothing(st);
    } else {
      var counted := st.(log := st.log.(terminates := st.log.terminates + 1));
      var c := copy[0];
      ListedHead(st, counted, copy);
      if busy == Some(c) {
        ListedAfter(counted, counted, copy);
        TerminateEachCounts(counted, copy[1..], busy);
        CountsOnward(st, counted, TerminateEach(counted, copy[1..], busy).0);
      } else {
        CallCounts(counted, c);
        var next := Call(counted, c, Terminate);
        ListedAfter(counted, next, copy);
        TerminateEachCounts(next, copy[1..], busy);
        CountsOnward(st, counted, next);
        CountsOnward(st, next, TerminateEach(next, copy[1..], busy).0);
      }
    }
  }

  lemma CountsNothing(st: State)
    ensures Counts(st, st)
  {
  }

  lemma ListedHead(st: State, counted: State, copy: seq<Conn>)
    requires copy != [] && Listed(st, copy)
    requires counted == st.(log := st.log.(terminates := st.log.terminates + 1))
    ensures Listed(counted, copy) && Live(counted, copy[0]) && copy[0] in counted.connections
    ensures Counts(st, counted) && forall d: Conn :: Rests(counted, d) == Rests(st, d)
    ensures forall d :: d in copy[1..] ==> d in copy
  {
  }

  // ---------------------------------------------------------------- one action

  lemma InvLists(st: State)
    requires Inv(st) && Ready(st)
    ensures AllOk(st) && AllOk(st.(closed := true)) && Distinct(st.connections)
    ensures Listed(st, st.connections) && Listed(st.(closed := true), st.connections)
    ensures forall c :: c in st.connections <==> Live(st, c)
    ensures st.closed ==> forall c: Conn :: !Rests(st, c)
    ensures !st.closed ==> st.log.closedCallbacks == 0
    ensures st.queue != [] ==> st.connections != []
  {
    InvAllOk(st);
    hide MachineOk, SentOn, Distinct, AllOk;
    assert forall i :: 0 <= i < |st.connections| ==> st.connections[i] in st.connections;
  }

  /** Closing counts once if nothing waits, and once more if the last connection leaves at once. */
  lemma CloseCounts(st: State)
    requires Inv(st) && Ready(st) && !st.closed
    ensures
      var r := Close(st);
      && r.closed
      && r.log.closedCallbacks == (if st.queue == [] then 1 else 0) + Emptied(st, r)
      && (st.connections == [] ==> r.connections == [])
      && (st.queue != [] ==> r.connections == st.connections)
  {
    hide Inv, AllOk, Listed, Distinct, TerminateEach;
    InvLists(st);
    if st.queue == [] {
      TerminateEachCounts(st.(closed := true), st.connections, None);
    }
  }

  /** What an action adds to the count after `close`. */
  predicate Adds(st: State, a: Action, r: State) {
    && r.closed
    && r.log.closedCallbacks == st.log.closedCallbacks + (if LastArrival(st, a) then 1 else 0) + Emptied(st, r)
    && (st.connections == [] ==> r.connections == [])
    && (!LastArrival(st, a) && !Breaking(st, a) ==> r.connections == st.connections)
  }

  lemma EndAdds(st: State, c: Conn, event: Event)
    requires Inv(st) && Ready(st) && Live(st, c) && Expected(st.machines[c], event)
    requires ReachesIdle(st.machines[c], event) && Drained(st)
    ensures Adds(st, Socket(c, event), SocketEvent(st, c, event))
  {
    hide Inv, AtRest, InRange, AllOk, Listed, Distinct, TerminateEach, MachineOk, SocketEvent, Expected;
    hide ReachesIdle, Ended, Rests, FsmTheorems.Arrival;
    InvLists(st);
    InvMachine(st, c);
    InvBase(st);
    CloseConnectionsKeeps(st, Some(c));
    TerminateEachCounts(st, st.connections, Some(c));
    ArrivalEnds(st, c, event);
    var called := CloseConnections(st, Some(c)).0;
    var m' := FsmTheorems.Arrival(st.machines[c], event).(phase := Terminated, deferred := [], notices := 1);
    EndedCounts(called, c, m');
  }

  lemma InvBase(st: State)
    requires Inv(st)
    ensures Base(st)
  {
    hide Base;
  }

  lemma BreakAdds(st: State, c: Conn)
    requires Inv(st) && Ready(st) && st.closed && Live(st, c)
    ensures Adds(st, Socket(c, ConnectionError), SocketEvent(st, c, ConnectionError))
  {
    hide Inv, AtRest, InRange, AllOk, Listed, Distinct, MachineOk, SocketEvent, Ended, Rests;
    InvLists(st);
    InvMachine(st, c);
    BreakIs(st, c);
    ErrorIsNoArrival(st.machines[c]);
    EraseNothing(st.connections);
    hide Erase;
    var m' := st.machines[c].(phase := Terminated, query := None, deferred := [], notices := 1);
    EndedCounts(ConnectionFailed(st), c, m');
  }

  lemma ErrorIsNoArrival(m: Machine)
    ensures !ReachesIdle(m, ConnectionError)
  {
  }

  lemma OtherAdds(st: State, c: Conn, event: Event)
    requires Inv(st) && Ready(st) && st.closed && c < |st.machines| && Expected(st.machines[c], event)
    requires !Live(st, c) || (!event.ConnectionError? && (ReachesIdle(st.machines[c], event) ==> st.queue != []))
    ensures Adds(st, Socket(c, event), SocketEvent(st, c, event))
  {
    InvMachine(st, c);
    NothingPutOff(st, c);
    assert st.machines[c].password == st.password && !st.machines[c].phase.Faulted?;
    hide Inv, MachineOk, SocketEvent;
    if !Live(st, c) {
      LateEvent(st, c, event);
    } else if ReachesIdle(st.machines[c], event) {
      ArrivalSends(st, c, event);
    } else {
      GreetIs(st, c);
    }
  }

  lemma ApplyAdds(st: State, a: Action)
    requires Inv(st) && Ready(st) && st.closed && Allowed(st, a)
    ensures Adds(st, a, Apply(st, a))
  {
    hide Inv, AtRest, InRange, SocketEvent, ReachesIdle, Expected;
    match a
    case Get(_) =>
    case Shut =>
    case Socket(c, event) =>
      if Live(st, c) && event.ConnectionError? {
        BreakAdds(st, c);
      } else if Live(st, c) && ReachesIdle(st.machines[c], event) && st.queue == [] {
        EndAdds(st, c, event);
      } else {
        OtherAdds(st, c, event);
      }
  }

  // ---------------------------------------------------------------- runs

  lemma {:induction false} RunAdds(st: State, script: seq<Action>)
    requires Inv(st) && Ready(st) && st.closed && Playable(st, script)
    ensures
      var r := Run(st, script);
      && r.log.closedCallbacks == st.log.closedCallbacks + LastArrivals(st, script) + Emptied(st, r)
      && (st.connections == [] ==> r.connections == [] && LastArrivals(st, script) == 0)
      && st.log.errors <= r.log.errors
      && (LastArrivals(st, script) == 0 && r.log.errors == st.log.errors ==> r.connections == st.connections)
    decreases |script|
  {
    hide Inv, Ready, Apply, Allowed, LastArrival;
    if script != [] {
      var a := script[0];
      ApplyAdds(st, a);
      ApplyKeeps(st, a);
      ApplyGrows(st, a);
      NoArrivalWithout(st, a);
      RunAdds(Apply(st, a), script[1..]);
    }
  }

  lemma NoArrivalWithout(st: State, a: Action)
    requires Inv(st) && Ready(st)
    ensures st.connections == [] ==> !LastArrival(st, a)
  {
    hide Inv, AllOk, Listed, Distinct, ReachesIdle;
    InvLists(st);
  }

  /**
   The count after any run that follows `close`: one if nothing waited, one for each arrival
   that finds the pool drained, and one when the last connection leaves.
   */
  lemma ClosedCallbackCount(st: State, script: seq<Action>)
    requires Reachable(st) && !st.closed && Playable(Apply(st, Shut), script)
    ensures
      var r := Run(Apply(st, Shut), script);
      r.log.closedCallbacks ==
      (if st.queue == [] then 1 else 0) + LastArrivals(Apply(st, Shut), script) + Emptied(st, r)
  {
    hide Reachable, Inv, Ready, Run, Playable, LastArrivals, Apply, Allowed;
    ReachableInv(st);
    ShutAllowed(st);
    ApplyKeeps(st, Shut);
    ShutCounts(st);
    RunAdds(Apply(st, Shut), script);
  }

  lemma ShutAllowed(st: State)
    ensures Allowed(st, Shut)
  {
  }

  lemma ShutCounts(st: State)
    requires Inv(st) && Ready(st) && !st.closed
    ensures
      var r := Apply(st, Shut);
      && r.closed
      && r.log.closedCallbacks == (if st.queue == [] then 1 else 0) + Emptied(st, r)
      && (st.connections == [] ==> r.connections == [])
      && (st.queue != [] ==> r.connections == st.connections)
  {
    hide Inv, AtRest, InRange, Close;
    CloseCounts(st);
  }

  /**
   By the time every connection is gone, the callback has run exactly once: if nothing waited
   at `close`, exactly for a pool without connections; if something did, exactly if no
   connection came to rest after the queue was empty, which takes a connection error.
   */
  lemma ClosedCallbackOnceIff(st: State, script: seq<Action>)
    requires Reachable(st) && !st.closed && Playable(Apply(st, Shut), script)
    requires Run(Apply(st, Shut), script).connections == []
    ensures
      var r := Run(Apply(st, Shut), script);
      && (r.log.closedCallbacks == 1 <==>
            if st.queue == [] then st.connections == [] else LastArrivals(Apply(st, Shut), script) == 0)
      && (st.queue != [] && r.log.errors == st.log.errors ==> r.log.closedCallbacks >= 2)
  {
    hide Reachable, Inv, Ready, Run, Playable, LastArrivals, Apply, Allowed, AllOk, Listed, Distinct;
    ReachableInv(st);
    ShutAllowed(st);
    ApplyKeeps(st, Shut);
    ApplyGrows(st, Shut);
    ShutCounts(st);
    RunAdds(Apply(st, Shut), script);
    InvLists(st);
  }
}
