/**
 What a pool does with each request it is asked for: which are taken in, and which refused.
 */
module PoolIntake {
  import opened Events
  import opened Fsm
  import opened Pool
  import opened PoolInvariant
  import opened PoolRuns

  /** An open pool takes the request in, once and as it is; a closed one fails it and does nothing else. */
  lemma IntakeIs(st: State, bytes: string)
    requires Ready(st)
    ensures
      var r := GetConnection(st, bytes);
      if st.closed then
        r == st.(log := st.log.(refused := st.log.refused + [bytes]))
      else
        && r.log.accepted == st.log.accepted + [Request(|st.log.accepted|, bytes)]
        && r.log.refused == st.log.refused && !r.closed
  {
    hide Call, AtRest, Process;
  }

  /** Where a request has got to when `get_connection` returns. */
  lemma FirstFate(st: State, bytes: string)
    requires Reachable(st) && !st.closed
    ensures
      var r := GetConnection(st, bytes);
      HasFate(r, Request(|st.log.accepted|, bytes),
              if st.ready == [] then Waiting
              else if Live(st, st.ready[0]) then InFlight(st.ready[0])
              else Swallowed)
  {
    hide Reachable, Inv, MachineOk, Call, Process;
    ReachableInv(st);
    var request := Request(|st.log.accepted|, bytes);
    if st.ready != [] {
      ReadyHead(st);
      if Rests(st, st.ready[0]) {
        CallExecuteIs(Direct(st, request), st.ready[0], request);
      } else {
        CallDeadIs(Direct(st, request), st.ready[0], request);
      }
    }
  }

  // ---------------------------------------------------------------- runs

  /** What is asked of the pool in a script, as long as it is open. */
  function AskedBefore(closed: bool, script: seq<Action>): seq<string>
    decreases |script|
  {
    if script == [] || closed then []
    else
      match script[0]
      case Get(bytes) => [bytes] + AskedBefore(closed, script[1..])
      case Shut => AskedBefore(true, script[1..])
      case Socket(_, _) => AskedBefore(closed, script[1..])
  }

  /** And from then on. */
  function AskedAfter(closed: bool, script: seq<Action>): seq<string>
    decreases |script|
  {
    if script == [] then []
    else
      match script[0]
      case Get(bytes) => (if closed then [bytes] else []) + AskedAfter(closed, script[1..])
      case Shut => AskedAfter(true, script[1..])
      case Socket(_, _) => AskedAfter(closed, script[1..])
  }

  function BytesOf(requests: seq<Request>): seq<string> {
    seq(|requests|, i requires 0 <= i < |requests| => requests[i].bytes)
  }


  lemma StepIntake(st: State, a: Action)
    requires Ready(st) && Allowed(st, a)
    ensures
      var r := Apply(st, a);
      && (r.closed <==> st.closed || a.Shut?)
      && BytesOf(r.log.accepted) == BytesOf(st.log.accepted) + AskedBefore(st.closed, [a])
      && r.log.refused == st.log.refused + AskedAfter(st.closed, [a])
  {
    hide AtRest, InRange, SocketEvent, GetConnection, CloseConnections;
    match a
    case Get(bytes) => IntakeIs(st, bytes);
    case Shut =>
    case Socket(_, _) =>
  }

  /** Over every run: the requests asked for before `close` are taken in, and those after it refused, in order. */
  lemma {:induction false} RunIntake(st: State, script: seq<Action>)
    requires Ready(st) && Playable(st, script)
    ensures
      var r := Run(st, script);
      && BytesOf(r.log.accepted) == BytesOf(st.log.accepted) + AskedBefore(st.closed, script)
      && r.log.refused == st.log.refused + AskedAfter(st.closed, script)
    decreases |script|
  {
    hide Ready, Apply, Allowed, BytesOf;
    if script != [] {
      var a := script[0];
      StepIntake(st, a);
      AskedOnward(st.closed, script);
      RunIntake(Apply(st, a), script[1..]);
    }
  }

  lemma AskedOnward(closed: bool, script: seq<Action>)
    requires script != []
    ensures
      var later := closed || script[0].Shut?;
      && AskedBefore(closed, script) == AskedBefore(closed, [script[0]]) + AskedBefore(later, script[1..])
      && AskedAfter(closed, script) == AskedAfter(closed, [script[0]]) + AskedAfter(later, script[1..])
  {
  }

  /** From the start of a pool: each request taken in has its turn for a ticket, and its own bytes. */
  lemma IntakeFromStart(poolSize: nat, password: bool, script: seq<Action>)
    requires poolSize > 0 && Playable(Create(poolSize, password), script)
    ensures
      var r, asked := Run(Create(poolSize, password), script), AskedBefore(false, script);
      && |r.log.accepted| == |asked|
      && (forall i :: 0 <= i < |asked| ==> r.log.accepted[i] == Request(i, asked[i]))
      && r.log.refused == AskedAfter(false, script)
  {
    var st := Create(poolSize, password);
    assert Ready(st);
    hide Inv, Ready, Create, Run, Playable, AskedBefore, AskedAfter;
    CreatedIs(poolSize, password);
    CreateInv(poolSize, password);
    RunKeeps(st, script);
    RunIntake(st, script);
    var r, asked := Run(st, script), AskedBefore(false, script);
    TicketsInOrder(r);
    assert st.log.accepted == [] && st.log.refused == [];
    NothingBefore(r.log.accepted, asked);
    hide BytesOf;
    assert [] + AskedAfter(false, script) == AskedAfter(false, script);
  }

  lemma NothingBefore(accepted: seq<Request>, asked: seq<string>)
    requires BytesOf(accepted) == BytesOf([]) + asked
    requires forall i :: 0 <= i < |accepted| ==> accepted[i].ticket == i
    ensures |accepted| == |asked| && forall i :: 0 <= i < |asked| ==> accepted[i] == Request(i, asked[i])
  {
    assert BytesOf([]) + asked == asked;
    forall i | 0 <= i < |asked|
      ensures accepted[i] == Request(i, asked[i])
    {
      assert BytesOf(accepted)[i] == accepted[i].bytes;
    }
  }

  lemma TicketsInOrder(st: State)
    requires Inv(st)
    ensures forall i :: 0 <= i < |st.log.accepted| ==> st.log.accepted[i].ticket == i
  {
    hide MachinesOk, ConnectionsOk, ReadyOk, SentOn;
  }
}
