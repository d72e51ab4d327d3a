/**
 How long a request can wait.
 */
module PoolWaiting {
  import opened Resp
  import opened Events
  import opened Fsm
  import FsmTheorems
  import opened Pool
  import opened PoolInvariant
  import opened PoolSteps
  import opened PoolRuns
  import opened PoolHistory
  import opened PoolClosing

  /** A request at `i` has moved on to `j`, or the connections have come nearer to taking it. */
  predicate Nearer(st: State, i: nat, moved: nat, r: State, j: nat) {
    && i < |st.queue| && j < |r.queue| && r.queue[j] == st.queue[i]
    && |st.machines| <= |r.machines| && r.poolSize == st.poolSize
    && |r.machines| - |st.machines| == |r.connections| - |st.connections|
    && moved + j + TotalWeight(r.machines) <= i + TotalWeight(st.machines) + 3 * (|r.machines| - |st.machines|)
  }

  lemma QueueFacts(st: State)
    requires Inv(st) && st.queue != []
    ensures st.ready == [] && Distinct(st.queue)
  {
    hide SentOn, MachinesOk, ConnectionsOk, ReadyOk, FaultFree, TerminatesOk, ClosedOk;
    assert st.log.accepted == st.log.removed + st.queue;
    forall i, j | 0 <= i < j < |st.queue|
      ensures st.queue[i] != st.queue[j]
    {
      assert st.log.accepted[|st.log.removed| + i] == st.queue[i];
      assert st.log.accepted[|st.log.removed| + j] == st.queue[j];
    }
  }

  lemma WeightOfMore(ms: seq<Machine>, m: Machine)
    ensures TotalWeight(ms + [m]) == TotalWeight(ms) + Weight(m.phase)
  {
    assert (ms + [m])[..|ms|] == ms;
  }

  lemma AskNearer(st: State, a: Action, i: nat)
    requires Inv(st) && Ready(st) && !a.Socket? && i < |st.queue|
    ensures Nearer(st, i, 0, Apply(st, a), i)
  {
    QueueFacts(st);
    FreshMachine(st.password);
    WeightOfMore(st.machines, Plugged(st.password).(phase := Connecting));
    hide Inv, AtRest, InRange, Process, TotalWeight, Distinct;
  }

  lemma SocketNearer(st: State, c: Conn, event: Event, i: nat) returns (j: nat)
    requires Inv(st) && Ready(st) && Allowed(st, Socket(c, event)) && i < |st.queue|
    requires st.queue[i] in SocketEvent(st, c, event).queue
    ensures Nearer(st, i, if Live(st, c) then 1 else 0, SocketEvent(st, c, event), j)
  {
    hide Inv, MachineOk, AtRest, InRange, SocketEvent, ReachesIdle, TotalWeight;
    var r := SocketEvent(st, c, event);
    j := i;
    InvMachine(st, c);
    if !Live(st, c) {
      LateEvent(st, c, event);
    } else if event.ConnectionError? {
      BreaksKeeps(st, c);
    } else {
      WaitingHolds(st, c);
      if ReachesIdle(st.machines[c], event) {
        ArrivesToQueue(st, c, event);
        QueueFacts(st);
        NotFirst(st.queue, i);
        j := i - 1;
      } else {
        GreetsKeepsWeight(st, c, event);
      }
      WeightDrops(st.machines, r.machines, c);
    }
  }

  lemma WaitingHolds(st: State, c: Conn)
    requires Inv(st) && st.queue != [] && Live(st, c)
    ensures FsmTheorems.Holds(st.machines[c].phase) && Weight(st.machines[c].phase) >= 1
  {
    hide MachineOk, Distinct, SentOn;
    InvMachine(st, c);
    assert !Rests(st, c);
    PhaseOf(st.machines[c], st.password);
  }

  lemma NotFirst<T>(s: seq<T>, i: nat)
    requires i < |s| && Distinct(s) && s[i] in s[1..]
    ensures i > 0
  {
    var k :| 0 <= k < |s| - 1 && s[1..][k] == s[i];
    assert s[k + 1] == s[i];
  }

  lemma {:induction false} RunNearer(st: State, script: seq<Action>, i: nat) returns (j: nat)
    requires Inv(st) && Ready(st) && Playable(st, script) && i < |st.queue|
    requires st.queue[i] in Run(st, script).queue
    ensures Nearer(st, i, Moved(st, script), Run(st, script), j)
    decreases |script|
  {
    hide Inv, Ready, Apply, Allowed, TotalWeight, Moves;
    j := i;
    if script != [] {
      var a := script[0];
      var next := Apply(st, a);
      ApplyKeeps(st, a);
      StillWaiting(st, a, script, i);
      var k := StepNearer(st, a, i);
      j := RunNearer(next, script[1..], k);
    }
  }

  lemma StepNearer(st: State, a: Action, i: nat) returns (j: nat)
    requires Inv(st) && Ready(st) && Allowed(st, a) && i < |st.queue| && st.queue[i] in Apply(st, a).queue
    ensures Nearer(st, i, if Moves(st, a) then 1 else 0, Apply(st, a), j)
  {
    hide Inv, Ready, SocketEvent, Nearer;
    if a.Socket? {
      j := SocketNearer(st, a.conn, a.event, i);
    } else {
      j := i;
      AskNearer(st, a, i);
    }
  }

  /** What is waiting at the end of a run of requests already accepted has waited all along. */
  lemma StillWaiting(st: State, a: Action, script: seq<Action>, i: nat)
    requires Inv(st) && Ready(st) && script != [] && a == script[0] && Playable(st, script) && i < |st.queue|
    requires st.queue[i] in Run(st, script).queue
    ensures st.queue[i] in Apply(st, a).queue
  {
    hide Inv, Ready, Apply, Allowed;
    var request := st.queue[i];
    WaitingIsAccepted(st, request);
    var g := FateMoves(st, a, request, Waiting);
    ApplyKeeps(st, a);
    var h := FateMovesOn(Apply(st, a), script[1..], request, g);
    FateIsUnique(Run(st, script), request, h, Waiting);
  }

  /**
   As long as a request waits, the socket events of live connections are bounded: by its place
   in the queue, the way the connections still have to go, and the room there is for more of
   them. With one event more it has been sent or failed.
   */
  lemma WaitingIsBounded(st: State, script: seq<Action>, i: nat)
    requires Reachable(st) && Playable(st, script) && i < |st.queue|
    requires HasFate(Run(st, script), st.queue[i], Waiting)
    ensures
      && |st.connections| <= st.poolSize
      && Moved(st, script) <= i + TotalWeight(st.machines) + 3 * (st.poolSize - |st.connections|)
  {
    hide Reachable, Inv, Ready, Run, Playable, Moved, TotalWeight;
    ReachableInv(st);
    var j := RunNearer(st, script, i);
    RunKeeps(st, script);
    WithinSize(st);
    WithinSize(Run(st, script));
  }

  lemma WithinSize(st: State)
    requires Inv(st)
    ensures |st.connections| <= st.poolSize
  {
    hide Distinct, SentOn, MachineOk;
  }

  /** And there always is such an event to come, and not only an error. */
  lemma WaitingProgress(st: State) returns (a: Action)
    requires Reachable(st) && st.queue != []
    ensures Moves(st, a) && Allowed(st, a) && !a.event.ConnectionError?
  {
    hide Reachable, Inv, MachineOk;
    ReachableInv(st);
    var c := FirstListed(st);
    WaitingHolds(st, c);
    a := Socket(c, if st.machines[c].phase.Connecting? then Complete else Recv(Nil));
  }

  lemma FirstListed(st: State) returns (c: Conn)
    requires Inv(st) && st.queue != []
    ensures Live(st, c)
  {
    hide Distinct, SentOn, MachineOk;
    c := st.connections[0];
    assert c in st.connections;
  }
}
