/**
 Closing a pool: it drains, it terminates, and it tells.
 */
module PoolClosing {
  import opened Wrappers
  import opened Resp
  import opened Events
  import opened Fsm
  import FsmTheorems
  import opened Pool
  import opened PoolInvariant
  import opened PoolSteps
  import opened PoolRuns

  // ---------------------------------------------------------------- what is left to do

  /** How many more socket events a connection can use before it first comes to rest, and one more. */
  function Weight(phase: Phase): nat {
    match phase
    case Connecting => 3
    case Authn => 2
    case Query => 1
    case _ => 0
  }

  function TotalWeight(ms: seq<Machine>): nat {
    if ms == [] then 0 else TotalWeight(ms[..|ms| - 1]) + Weight(ms[|ms| - 1].phase)
  }

  /** Waiting requests, and the way each connection still has to go. */
  function Outstanding(st: State): nat {
    |st.queue| + TotalWeight(st.machines)
  }

  /** Pointwise no heavier; where `c` has terminated, lighter by all its weight. */
  lemma {:induction false} WeightDrops(ms: seq<Machine>, ns: seq<Machine>, c: nat)
    requires |ms| == |ns| && forall d :: 0 <= d < |ms| ==> Weight(ns[d].phase) <= Weight(ms[d].phase)
    requires c < |ms|
    ensures TotalWeight(ns) + Weight(ms[c].phase) <= TotalWeight(ms) + Weight(ns[c].phase)
  {
    var last := |ms| - 1;
    if c == last {
      WeightKeeps(ms[..last], ns[..last]);
    } else {
      WeightDrops(ms[..last], ns[..last], c);
    }
  }

  lemma {:induction false} WeightKeeps(ms: seq<Machine>, ns: seq<Machine>)
    requires |ms| == |ns| && forall d :: 0 <= d < |ms| ==> Weight(ns[d].phase) <= Weight(ms[d].phase)
    ensures TotalWeight(ns) <= TotalWeight(ms)
  {
    if ms != [] {
      WeightKeeps(ms[..|ms| - 1], ns[..|ns| - 1]);
    }
  }

  // ---------------------------------------------------------------- every step counts

  /** A socket event for a connection that is still there. */
  predicate Effective(st: State, a: Action) {
    a.Socket? && Live(st, a.conn) && Expected(st.machines[a.conn], a.event)
  }

  lemma HoldsWhenClosed(st: State, c: Conn)
    requires Inv(st) && st.closed && Live(st, c)
    ensures FsmTheorems.Holds(st.machines[c].phase) && Weight(st.machines[c].phase) >= 1
    ensures MachineOk(st.machines[c], st.password)
  {
    hide MachineOk, Distinct, SentOn;
    InvMachine(st, c);
    assert !Rests(st, c);
    PhaseOf(st.machines[c], st.password);
  }

  lemma PhaseOf(m: Machine, password: bool)
    requires MachineOk(m, password)
    ensures m.phase.Idle? || m.phase.Terminated? || FsmTheorems.Holds(m.phase)
  {
  }

  /** After `close`, each socket event brings the pool nearer to its end, errors included. */
  lemma ClosingStep(st: State, c: Conn, event: Event)
    requires Inv(st) && AtRest(st) && InRange(st.connections, |st.machines|)
    requires st.closed && Live(st, c) && Expected(st.machines[c], event)
    ensures
      var r := SocketEvent(st, c, event);
      && Inv(r) && r.closed && Outstanding(r) < Outstanding(st)
      && r.log.accepted == st.log.accepted
  {
    hide Inv, MachineOk, SocketEvent;
    HoldsWhenClosed(st, c);
    SocketEventKeeps(st, c, event);
    var m := st.machines[c];
    var r := SocketEvent(st, c, event);
    if event.ConnectionError? {
      BreaksKeeps(st, c);
      WeightDrops(st.machines, r.machines, c);
    } else if !ReachesIdle(m, event) {
      GreetsKeepsWeight(st, c, event);
      WeightDrops(st.machines, r.machines, c);
    } else if st.queue != [] {
      ArrivesToQueue(st, c, event);
      WeightDrops(st.machines, r.machines, c);
    } else {
      ArrivesToEnd(st, c, event);
      WeightDrops(st.machines, r.machines, c);
    }
  }

  lemma GreetsKeepsWeight(st: State, c: Conn, event: Event)
    requires Inv(st) && AtRest(st) && InRange(st.connections, |st.machines|)
    requires Live(st, c) && FsmTheorems.Holds(st.machines[c].phase) && Expected(st.machines[c], event)
    requires MachineOk(st.machines[c], st.password)
    requires !event.ConnectionError? && !ReachesIdle(st.machines[c], event)
    ensures st.machines[c].phase.Connecting?
    ensures
      var r := SocketEvent(st, c, event);
      r == st.(machines := st.machines[c := st.machines[c].(phase := Authn, startups := 1)])
  {
    hide Inv, SocketEvent;
    assert st.machines[c].phase.Connecting? && st.password;
    hide MachineOk;
    GreetsKeeps(st, c);
  }

  /** A socket event of a live connection. */
  predicate Moves(st: State, a: Action) {
    a.Socket? && Live(st, a.conn)
  }

  /** How many of them a run has. */
  function Moved(st: State, script: seq<Action>): nat
    requires Ready(st) && Playable(st, script)
    decreases |script|
  {
    if script == [] then 0
    else (if Moves(st, script[0]) then 1 else 0) + Moved(Apply(st, script[0]), script[1..])
  }

  lemma OtherOutstanding(st: State, a: Action)
    requires Inv(st) && Ready(st) && st.closed && Allowed(st, a) && !Moves(st, a)
    ensures
      var r := Apply(st, a);
      r.closed && Outstanding(r) == Outstanding(st) && r.log.accepted == st.log.accepted
  {
    hide Inv, AtRest, InRange, SocketEvent, TotalWeight;
    if a.Socket? {
      LateEvent(st, a.conn, a.event);
    }
  }

  lemma ApplyOutstanding(st: State, a: Action)
    requires Inv(st) && Ready(st) && st.closed && Allowed(st, a)
    ensures
      var r := Apply(st, a);
      && Inv(r) && r.closed && r.log.accepted == st.log.accepted
      && Outstanding(r) + (if Moves(st, a) then 1 else 0) <= Outstanding(st)
  {
    hide Inv, AtRest, InRange, SocketEvent, Outstanding, Expected;
    ApplyKeeps(st, a);
    if Moves(st, a) {
      ClosingStep(st, a.conn, a.event);
    } else {
      OtherOutstanding(st, a);
    }
  }

  /**
   No run after `close` has more socket events of live connections than were outstanding,
   whatever comes between them.
   */
  lemma {:induction false} ClosingTerminates(st: State, script: seq<Action>)
    requires Inv(st) && Ready(st) && st.closed && Playable(st, script)
    ensures Moved(st, script) + Outstanding(Run(st, script)) <= Outstanding(st)
    ensures Run(st, script).closed && Run(st, script).log.accepted == st.log.accepted
    decreases |script|
  {
    hide Inv, Ready, Apply, Allowed, Outstanding, Moves;
    if script != [] {
      ApplyOutstanding(st, script[0]);
      ClosingTerminates(Apply(st, script[0]), script[1..]);
    }
  }

  // ---------------------------------------------------------------- and there is always one

  /** While a connection is left, its socket can still report something, and not only an error. */
  lemma ClosingProgress(st: State) returns (a: Action)
    requires Inv(st) && st.closed && st.connections != []
    ensures Effective(st, a) && !a.event.ConnectionError?
  {
    var c := st.connections[0];
    assert c in st.connections && Live(st, c) by {
      hide MachineOk, SentOn, Distinct;
    }
    hide Inv, MachineOk;
    HoldsWhenClosed(st, c);
    a := Socket(c, if st.machines[c].phase.Connecting? then Complete else Recv(Nil));
  }

  /**
   The end: no connection and no request is left, the closed callback has run, and each
   accepted request has had its callback, unless a connection failed under it.
   */
  lemma ClosingEnds(st: State, r: Request, f: Fate)
    requires Reachable(st) && st.closed && (forall a :: Effective(st, a) ==> a.event.ConnectionError?)
    requires r in st.log.accepted && HasFate(st, r, f)
    ensures st.connections == [] && st.queue == [] && st.log.closedCallbacks > 0
    ensures f.Settled? || f.Cleared? || f.Swallowed? || f.Dropped?
    ensures st.log.errors == 0 ==> f.Settled?
  {
    hide Reachable, Inv, MachineOk, HasFate, Effective;
    ReachableInv(st);
    if st.connections != [] {
      var a := ClosingProgress(st);
      assert false;
    }
    ClosedIsOver(st, r, f);
    if st.log.errors == 0 {
      NothingIsLost(st, r, f);
    }
  }

  lemma ClosedIsOver(st: State, r: Request, f: Fate)
    requires Inv(st) && st.closed && st.connections == [] && HasFate(st, r, f)
    ensures st.queue == [] && st.log.closedCallbacks > 0
    ensures !f.Waiting? && !f.InFlight?
  {
    hide MachineOk, SentOn, Distinct;
    if f.InFlight? {
      InvMachine(st, f.conn);
      assert f.conn in st.connections <==> Live(st, f.conn);
      QueryIsLive(st.machines[f.conn], st.password);
    }
  }

  lemma QueryIsLive(m: Machine, password: bool)
    requires MachineOk(m, password) && m.query.Some?
    ensures !m.phase.Terminated?
  {
  }

  // ---------------------------------------------------------------- what closing may not do

  /**
   Nothing is terminated and no closed callback runs before the pool is closed and its queue
   empty; from then on nothing more is accepted or handed out, whatever happens.
   */
  lemma NothingAfterTerminate(st: State, a: Action)
    requires Reachable(st) && Allowed(st, a) && (st.log.terminates > 0 || st.log.closedCallbacks > 0)
    ensures st.closed && st.queue == []
    ensures
      var r := Apply(st, a);
      r.closed && r.queue == [] && r.log.accepted == st.log.accepted && r.log.removed == st.log.removed
  {
    hide Reachable, MachinesOk, ConnectionsOk, ReadyOk, FaultFree, ClosedOk;
    ReachableInv(st);
    assert Drained(st);
    var r := Apply(st, a);
    ApplyKeeps(st, a);
    assert r.log.accepted == r.log.removed + r.queue && st.log.removed + [] == st.log.removed;
    hide Inv;
    assert r.closed && r.log.accepted == st.log.accepted;
    if a.Socket? {
      DrainedStays(st, a.conn, a.event);
    }
  }

  lemma DrainedStays(st: State, c: Conn, event: Event)
    requires Inv(st) && AtRest(st) && InRange(st.connections, |st.machines|)
    requires Drained(st) && c < |st.machines| && Expected(st.machines[c], event)
    ensures Drained(SocketEvent(st, c, event))
  {
    hide Inv, MachineOk, SocketEvent;
    InvMachine(st, c);
    PhaseOf(st.machines[c], st.password);
    if Live(st, c) {
      HoldsWhenClosed(st, c);
      if event.ConnectionError? {
        BreaksKeeps(st, c);
      } else if ReachesIdle(st.machines[c], event) {
        ArrivesToEnd(st, c, event);
      } else {
        GreetsKeepsWeight(st, c, event);
      }
    } else {
      LateEvent(st, c, event);
    }
  }

  /** The closed callback may run more than once: closing an idle pool of one runs it twice, for instance. */
  lemma ClosedCallbackRunsTwice() returns (st: State)
    ensures Reachable(st) && st.log.closedCallbacks == 0 && Close(st).log.closedCallbacks == 2
  {
    hide Inv, MachineOk, Close, Create, Apply, Call;
    st := FirstConnection();
    CreateReaches(1, false);
    StepReaches(Create(1, false), Socket(0, Complete));
    hide Reachable;
    InvMachine(st, 0);
    ClosesTwice(st);
  }

  lemma ClosesTwice(st: State)
    requires AtRest(st) && |st.machines| == 1 && MachineOk(st.machines[0], st.password) && Rests(st, 0)
    requires st.connections == [0] && st.queue == [] && !st.closed && st.log == EmptyLog
    ensures Close(st).log.closedCallbacks == 2
  {
    var closing := st.(closed := true);
    var counted := closing.(log := closing.log.(terminates := 1));
    CallTerminateIs(counted, 0);
    hide Call, MachineOk;
    assert [0][1..] == [];
    assert TerminateEach(closing, [0], None).0 == Call(counted, 0, Terminate);
  }
}
