/**
 From the bytes of a reply to the callbacks of its request: the codec, the read loop, the
 machine and the pool together. `Reads` goes on to reads that hold anything.
 */
module Replies {
  import opened Wrappers
  import opened Resp
  import Parser
  import opened Grammar
  import opened Events
  import opened ReadLoop
  import opened ReadLoopTheorems
  import opened Fsm
  import opened FsmTheorems
  import opened Pool
  import opened PoolInvariant
  import opened PoolRuns

  /** The events a read can raise. */
  predicate IsAnswer(event: Event) {
    event.Recv? || event.QueryError?
  }

  /** What the callbacks of `request` are told when this event ends its query. */
  function AnswerTo(request: Request, event: Event): Settlement
    requires IsAnswer(event)
  {
    if event.Recv? then Answered(request, event.value) else Failed(request, event.cause)
  }

  lemma ReactionAnswers(r: ParseResult)
    ensures IsAnswer(Reaction(r))
  {
  }

  /** What the callbacks of `request` must be told of the reply `t`. */
  function Verdict(request: Request, t: Reply): Settlement
    requires WellFormed(t)
  {
    match FirstError(t)
    case None => Answered(request, Eval(t))
    case Some(text) => Failed(request, Server(text))
  }

  lemma ReplyReaction(t: Reply)
    requires WellFormed(t)
    ensures Reaction(Outcome(t)) == match FirstError(t)
                                    case None => Recv(Eval(t))
                                    case Some(text) => QueryError(Server(text))
  {
    hide Print, Eval, FirstError;
  }

  // ---------------------------------------------------------------- one machine

  /** The events of one read, one after the other; the owner asks nothing of the machine. */
  function Feed(m: Machine, events: seq<Event>): (r: Machine)
    requires m.inbox == [] && AllCalls(m.deferred)
    decreases |events|
  {
    if events == [] then m else Feed(Process(m, events[0], []), events[1..])
  }

  lemma {:induction false} BlockedIgnores(m: Machine, events: seq<Event>)
    requires m.inbox == [] && AllCalls(m.deferred) && Blocked(m.phase)
    ensures Feed(m, events) == m
    decreases |events|
  {
    if events != [] {
      BlockedIgnores(m, events[1..]);
    }
  }

  lemma AnswerIdles(m: Machine, event: Event)
    requires Resting(m) && m.phase.Query? && m.deferred == [] && IsAnswer(event)
    ensures Resting(Process(m, event, [])) && Process(m, event, []) == Arrival(m, event)
  {
    EventArrives(m, event, []);
    ProcessResting(m, event, []);
    hide Process;
  }

  lemma AnswerEnds(m: Machine, event: Event)
    requires Resting(m) && m.phase.Query? && m.deferred != [] && IsAnswer(event)
    ensures Process(m, event, []) == Arrival(m, event).(phase := Terminated, deferred := [], notices := 1)
  {
    DeferredTerminateIff(m, event, []);
    hide Process;
  }

  /** A second answer to the same request finds no row in the table. */
  lemma AnswerFaults(m: Machine, event: Event)
    requires Resting(m) && m.phase.Idle? && IsAnswer(event)
    ensures Process(m, event, []) == m.(phase := Faulted)
  {
    assert Step(m, event, []) == m.(phase := Faulted);
  }

  /**
   One whole reply, read at once by a machine whose owner raises nothing when it comes to rest,
   gives its request the verdict. It also faults such a machine, exactly if it is an array
   holding an error and no terminate was put off: then the rest of the array is taken for a
   second answer, for which idle has no row. In a pool, requests that wait take up the rest:
   `Reads.ReadFaultsIff`.
   */
  lemma ReplyFaultsIff(m: Machine, t: Reply)
    requires Resting(m) && m.phase.Query? && WellFormed(t)
    ensures m.query.Some?
    ensures
      var r := Feed(m, Deliver(Print(t)));
      var answered := m.(query := None, settled := m.settled + [Verdict(m.query.value, t)]);
      && (r.phase.Faulted? <==> !Framed(t) && m.deferred == [])
      && r == (if m.deferred != [] then answered.(phase := Terminated, deferred := [], notices := 1)
               else if Framed(t) then answered.(phase := Idle)
               else answered.(phase := Faulted))
  {
    hide Process, Deliver, Print, WellFormed, Eval, FirstError, Outcome, Reaction, Resting;
    FirstReaction(t);
    ReplyReaction(t);
    QueryIsSet(m);
    var events := Deliver(Print(t));
    var answered := Process(m, events[0], []);
    if m.deferred != [] {
      AnswerEnds(m, events[0]);
      BlockedIgnores(answered, events[1..]);
    } else {
      AnswerIdles(m, events[0]);
      if !Framed(t) {
        AnswerFaults(answered, events[1]);
        AnswerKeeps(answered, events[1]);
        BlockedIgnores(Process(answered, events[1], []), events[2..]);
        assert events[1..][1..] == events[2..];
        assert Feed(answered, events[1..]) == Feed(Process(answered, events[1], []), events[2..]);
      }
    }
  }

  lemma QueryIsSet(m: Machine)
    requires Resting(m) && m.phase.Query?
    ensures m.query.Some? && m.inbox == [] && AllCalls(m.deferred)
  {
  }

  lemma AnswerKeeps(m: Machine, event: Event)
    requires Resting(m)
    ensures m.inbox == [] && AllCalls(m.deferred)
    ensures Process(m, event, []).inbox == [] && AllCalls(Process(m, event, []).deferred)
  {
    hide Process;
  }

  /** The bytes of a reply past the length that is reported for it. */
  function Leftover(t: Reply): string
    requires WellFormed(t)
  {
    var r := Outcome(t);
    if !r.ProtocolError? && r.consumed <= |Print(t)| then Print(t)[r.consumed..] else ""
  }

  lemma FirstReaction(t: Reply)
    requires WellFormed(t)
    ensures
      var events := Deliver(Print(t));
      && events != [] && events[0] == Reaction(Outcome(t))
      && (if Framed(t) then events == [Reaction(Outcome(t))]
          else && |events| > 1 && Outcome(t).ServerError? && Outcome(t).consumed < |Print(t)|
               && Leftover(t) != "" && events == [Reaction(Outcome(t))] + Deliver(Leftover(t))
               && events[1] == Reaction(Parser.Parse(Leftover(t))) && IsAnswer(events[1]))
  {
    hide Parser.Parse, Deliver, Print, WellFormed, Eval, FirstError, Outcome, Reaction;
    var bytes := Print(t);
    ParseOfPrint(t, "");
    assert bytes + "" == bytes;
    PrintNotEmpty(t);
    DeliverFirst(bytes);
    if Framed(t) {
      DeliverFramed(t, "");
      DeliverNothing();
    } else {
      ErrorFitsInReply(t);
      OutcomeIs(t);
      var left := Leftover(t);
      DeliverFirst(left);
      ReactionAnswers(Parser.Parse(left));
    }
  }

  // ---------------------------------------------------------------- the pool

  /** Only a reply or a query error settles a request; nothing that waits in an inbox does. */
  lemma {:induction false} ReplaySettled(m: Machine, events: seq<Event>)
    requires AllCalls(events) && AllCalls(m.deferred)
    ensures Replay(m, events).settled == m.settled
    decreases |events|
  {
    if events != [] {
      ReplaySettled(React(m, events[0]), events[1..]);
    }
  }

  lemma PostedSettles(m: Machine, event: Event, posts: seq<Event>)
    requires IsCall(event) || event.Complete?
    ensures Step(m, event, posts).settled == m.settled
  {
  }

  lemma {:induction false} InboxSettled(m: Machine, posts: seq<Event>)
    requires AllPosted(m.inbox) && AllCalls(m.deferred) && AllCalls(posts)
    ensures Settle(m, posts).settled == m.settled
    decreases Rank(m.phase), |m.inbox|
  {
    hide React;
    if m.inbox != [] {
      assert IsCall(m.inbox[0]) || m.inbox[0].Complete?;
      var n := Step(m.(inbox := m.inbox[1..]), m.inbox[0], posts);
      PostedSettles(m.(inbox := m.inbox[1..]), m.inbox[0], posts);
      ReplaySettled(n.(deferred := []), n.deferred);
      InboxSettled(ReplayDeferred(n), posts);
    }
  }

  lemma ArrivalSettled(m: Machine, event: Event, posts: seq<Event>)
    requires Resting(m) && ReachesIdle(m, event) && AllCalls(posts)
    ensures Process(m, event, posts).settled == Arrival(m, event).settled
  {
    ProcessArrival(m, event, posts);
    hide Process, Settle;
    var a := Arrival(m, event).(inbox := posts);
    assert AllCalls(a.deferred) && AllPosted(a.inbox);
    ReplaySettled(a.(deferred := []), a.deferred);
    InboxSettled(ReplayDeferred(a), posts);
  }

  lemma UpdatedMachine(st: State, c: Conn, m': Machine, ignored: seq<Request>)
    requires c < |st.machines| && AtRest(st) && m'.inbox == [] && AllCalls(m'.deferred)
    ensures Update(st, c, m', ignored).machines[c] == m'
  {
    hide AtRest, Erase;
  }

  lemma AnswerSettles(st: State, c: Conn, event: Event)
    requires Inv(st) && AtRest(st) && InRange(st.connections, |st.machines|) && c < |st.machines|
    requires st.machines[c].query.Some? && st.machines[c].phase.Query? && IsAnswer(event)
    ensures
      var m := st.machines[c];
      SocketEvent(st, c, event).machines[c].settled == m.settled + [AnswerTo(m.query.value, event)]
  {
    InvMachine(st, c);
    var m := st.machines[c];
    assert Resting(m) && ReachesIdle(m, event);
    hide Inv, MachineOk, Resting, Process, ConnectionReady, Update;
    var (called, posts) := ConnectionReady(st, c);
    ArrivalSettled(m, event, posts);
    UpdatedMachine(called, c, Process(m, event, posts), Ignored(m, Process(m, event, posts), posts));
  }

  lemma QueryHolds(st: State, c: Conn)
    requires Reachable(st) && c < |st.machines| && st.machines[c].phase.Query?
    ensures st.machines[c].query.Some?
  {
    hide Reachable;
    RepliesArePaired(st, c);
  }

  /** End to end: a whole reply gives its verdict to the request it answers. */
  lemma ReplySettles(st: State, c: Conn, t: Reply)
    requires Reachable(st) && c < |st.machines| && st.machines[c].phase.Query?
    requires WellFormed(t) && Framed(t)
    ensures st.machines[c].query.Some?
    ensures
      var event := Reaction(Outcome(t));
      var k := |st.machines[c].settled|;
      var request := st.machines[c].query.value;
      && Deliver(Print(t)) == [event] && Allowed(st, Socket(c, event))
      && var r := SocketEvent(st, c, event);
         && r.machines[c].settled == st.machines[c].settled + [Verdict(request, t)]
         && HasFate(r, request, Settled(c, k))
  {
    hide Reachable, Inv, SocketEvent, Deliver, Print, WellFormed, Eval, FirstError, Outcome, Reaction;
    QueryHolds(st, c);
    FirstReaction(t);
    ReplyReaction(t);
    ReachableInv(st);
    AnswerSettles(st, c, Reaction(Outcome(t)));
  }
}
