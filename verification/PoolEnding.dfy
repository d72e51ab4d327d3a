/**
 Closing tells every connection to terminate.
 */
module PoolEnding {
  import opened Wrappers
  import opened Events
  import opened Fsm
  import FsmTheorems
  import opened Pool
  import opened PoolInvariant
  import opened PoolSteps
  import opened PoolRuns
  import opened PoolHistory
  import opened PoolClosing

  /** Once any connection has been told to terminate, every one that is left has been. */
  ghost predicate AllTold(st: State) {
    st.log.terminates > 0 ==> forall c: Conn :: Live(st, c) ==> st.machines[c].deferred != []
  }

  /** Connection `d` has been told, if it is still there. */
  predicate IsTold(st: State, d: Conn) {
    Live(st, d) ==> st.machines[d].deferred != []
  }

  /** Whoever has been told stays told, and nobody else is touched but those in `copy`. */
  ghost predicate Tells(st: State, copy: seq<Conn>, busy: Option<Conn>, r: State) {
    && |r.machines| == |st.machines|
    && (forall d: Conn :: IsTold(st, d) ==> IsTold(r, d))
    && (forall d: Conn :: d in copy && busy != Some(d) ==> IsTold(r, d))
  }

  lemma CallTells(st: State, c: Conn)
    requires AllOk(st) && c < |st.machines|
    ensures
      var r := Call(st, c, Terminate);
      && AllOk(r) && IsTold(r, c)
      && (forall d: Conn :: IsTold(st, d) ==> IsTold(r, d))
  {
    assert MachineOk(st.machines[c], st.password);
    CallGrows(st, c);
    hide AllOk, Grows, MachineOk;
    if Live(st, c) {
      LiveCall(st, c);
    } else {
      DeadCall(st, c);
    }
  }

  lemma LiveCall(st: State, c: Conn)
    requires AtRest(st) && Live(st, c) && MachineOk(st.machines[c], st.password)
    ensures
      var r := Call(st, c, Terminate);
      && IsTold(r, c) && |r.machines| == |st.machines|
      && forall d :: 0 <= d < |st.machines| && d != c ==> r.machines[d] == st.machines[d]
  {
    PhaseOf(st.machines[c], st.password);
    hide Call, MachineOk, Erase;
    CallTerminateIs(st, c);
  }

  lemma DeadCall(st: State, c: Conn)
    requires AtRest(st) && c < |st.machines| && st.machines[c].phase.Terminated?
    ensures Call(st, c, Terminate).machines == st.machines
  {
    assert Process(st.machines[c], Terminate, []) == st.machines[c];
    hide Process;
    assert st.machines[c := st.machines[c]] == st.machines;
  }

  lemma {:induction false} TerminateEachTells(st: State, copy: seq<Conn>, busy: Option<Conn>)
    requires AllOk(st) && InRange(copy, |st.machines|)
    ensures Tells(st, copy, busy, TerminateEach(st, copy, busy).0)
    decreases |copy|
  {
    hide Call, MachineOk, IsTold;
    if copy != [] {
      var counted := st.(log := st.log.(terminates := st.log.terminates + 1));
      SameTold(st, counted);
      if busy == Some(copy[0]) {
        TerminateEachTells(counted, copy[1..], busy);
      } else {
        CallTells(counted, copy[0]);
        TerminateEachTells(Call(counted, copy[0], Terminate), copy[1..], busy);
      }
    }
  }

  lemma SameTold(st: State, r: State)
    requires r.machines == st.machines
    ensures forall d: Conn :: IsTold(r, d) <==> IsTold(st, d)
  {
  }

  // ---------------------------------------------------------------- every action

  lemma NotYetTold(st: State)
    requires Inv(st)
    ensures st.log.terminates > 0 ==> Drained(st)
    ensures forall c: Conn :: Live(st, c) ==> c in st.connections
  {
    hide MachineOk, SentOn, Distinct;
  }

  lemma ShutTells(st: State)
    requires Inv(st) && Ready(st) && AllTold(st)
    ensures AllTold(Close(st))
  {
    hide Inv, AllOk, Tells, TerminateEach;
    NotYetTold(st);
    InvAllOk(st);
    if !st.closed && st.queue == [] {
      var closing := st.(closed := true);
      TerminateEachTells(closing, closing.connections, None);
      EachIsTold(closing, TerminateEach(closing, closing.connections, None).0, None);
    }
  }

  lemma EachIsTold(st: State, r: State, busy: Option<Conn>)
    requires Tells(st, st.connections, busy, r)
    requires forall c: Conn :: Live(st, c) ==> c in st.connections
    ensures forall c: Conn :: Live(r, c) && busy != Some(c) ==> r.machines[c].deferred != []
  {
    forall c: Conn | Live(r, c) && busy != Some(c)
      ensures r.machines[c].deferred != []
    {
      assert IsTold(st, c) || c in st.connections;
      assert IsTold(r, c);
    }
  }

  lemma GetTells(st: State, bytes: string)
    requires Inv(st) && Ready(st) && AllTold(st)
    ensures AllTold(GetConnection(st, bytes))
  {
    hide Inv, Call, Process, AtRest;
    NotYetTold(st);
  }

  lemma EndTells(st: State, c: Conn, event: Event)
    requires Inv(st) && Ready(st) && c < |st.machines| && Drained(st)
    requires Expected(st.machines[c], event) && ReachesIdle(st.machines[c], event)
    ensures AllTold(SocketEvent(st, c, event))
  {
    hide Inv, Base, MachineOk, SocketEvent, ReachesIdle, Expected, TerminateEach, Tells, AllOk, Ended;
    hide FsmTheorems.Arrival, AtRest, InRange;
    ArrivalStarts(st, c, event);
    NotYetTold(st);
    CloseConnectionsKeeps(st, Some(c));
    TerminateEachTells(st, st.connections, Some(c));
    ArrivalEnds(st, c, event);
    var called := CloseConnections(st, Some(c)).0;
    EachIsTold(st, TerminateEach(st, st.connections, Some(c)).0, Some(c));
    var m' := FsmTheorems.Arrival(st.machines[c], event).(phase := Terminated, deferred := [], notices := 1);
    EndedMachines(called, c, m');
  }

  /** Any other socket event leaves the other machines alone, and nobody is told. */
  lemma OtherTells(st: State, c: Conn, event: Event)
    requires Inv(st) && Ready(st) && c < |st.machines| && Expected(st.machines[c], event) && AllTold(st)
    requires !(Drained(st) && Live(st, c) && ReachesIdle(st.machines[c], event))
    ensures AllTold(SocketEvent(st, c, event))
  {
    NotYetTold(st);
    NothingPutOff(st, c);
    InvMachine(st, c);
    assert st.machines[c].password == st.password && !st.machines[c].phase.Faulted?;
    hide Inv, MachineOk, SocketEvent, ReachesIdle, AtRest, InRange, AllOk;
    if !Live(st, c) {
      LateEvent(st, c, event);
    } else if event.ConnectionError? {
      BreakTells(st, c);
    } else if ReachesIdle(st.machines[c], event) {
      if st.queue != [] {
        ArrivalSends(st, c, event);
      } else {
        ArrivalRests(st, c, event);
      }
    } else {
      GreetIs(st, c);
    }
  }

  lemma BreakTells(st: State, c: Conn)
    requires AtRest(st) && InRange(st.connections, |st.machines|) && Live(st, c)
    requires MachineOk(st.machines[c], st.password) && AllTold(st)
    ensures AllTold(SocketEvent(st, c, ConnectionError))
  {
    hide MachineOk, SocketEvent, AtRest, InRange, Erase;
    BreakIs(st, c);
  }

  lemma ApplyTells(st: State, a: Action)
    requires Inv(st) && Ready(st) && Allowed(st, a) && AllTold(st)
    ensures AllTold(Apply(st, a))
  {
    hide Inv, AtRest, InRange, SocketEvent, GetConnection, Close, AllTold, ReachesIdle, Expected;
    match a
    case Get(bytes) => GetTells(st, bytes);
    case Shut => ShutTells(st);
    case Socket(c, event) =>
      if Drained(st) && Live(st, c) && ReachesIdle(st.machines[c], event) {
        EndTells(st, c, event);
      } else {
        OtherTells(st, c, event);
      }
  }

  lemma {:induction false} RunTells(st: State, script: seq<Action>)
    requires Inv(st) && Ready(st) && Playable(st, script) && AllTold(st)
    ensures AllTold(Run(st, script))
    decreases |script|
  {
    hide Inv, Ready, Apply, Allowed, AllTold;
    if script != [] {
      ApplyKeeps(st, script[0]);
      ApplyTells(st, script[0]);
      RunTells(Apply(st, script[0]), script[1..]);
    }
  }

  /**
   Once one connection has been told to terminate, every connection that is left has a terminate
   put off and nothing before it: it sends no further request, whatever happens to it.
   */
  lemma EveryConnectionIsTold(st: State, c: Conn)
    requires Reachable(st) && st.log.terminates > 0 && Live(st, c)
    ensures FsmTheorems.Ending(st.machines[c])
  {
    hide Inv, Ready, Run, Playable, Create, AllTold;
    var start: State, script: seq<Action> :|
      JustCreated(start) && Ready(start) && Playable(start, script) && Run(start, script) == st;
    CreateInv(start.poolSize, start.password);
    RunKeeps(start, script);
    StartTells(start);
    RunTells(start, script);
    ToldIsEnding(st, c);
  }

  lemma StartTells(start: State)
    requires JustCreated(start)
    ensures AllTold(start)
  {
    hide Create;
    CreatedIs(start.poolSize, start.password);
  }

  lemma ToldIsEnding(st: State, c: Conn)
    requires Inv(st) && AllTold(st) && st.log.terminates > 0 && Live(st, c)
    ensures FsmTheorems.Ending(st.machines[c])
  {
    InvMachine(st, c);
    NotYetTold(st);
    NoneRests(st, c);
    PhaseOf(st.machines[c], st.password);
    hide Inv;
  }

  lemma NoneRests(st: State, c: Conn)
    requires Inv(st) && st.closed
    ensures !Rests(st, c)
  {
    hide Base;
  }

  /** Closing calls `terminate` once on each connection of the list. */
  lemma CloseTellsEach(st: State)
    requires Reachable(st) && !st.closed
    ensures Close(st).log.terminates == if st.queue == [] then |st.connections| else 0
  {
    hide Reachable, Inv, TerminateEach;
    ReachableInv(st);
    NotYetTold(st);
  }
}
