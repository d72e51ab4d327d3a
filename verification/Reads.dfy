/**
 What a read does to a pool, whatever bytes it holds: more replies than were asked for, or the
 middle of one, included.
 */
module Reads {
  import opened Wrappers
  import opened Resp
  import Decimal
  import Parser
  import opened Grammar
  import opened Events
  import opened ReadLoop
  import opened ReadLoopTheorems
  import opened Fsm
  import opened Pool
  import opened PoolInvariant
  import opened PoolSteps
  import opened PoolRuns
  import PoolEvents
  import opened Replies
  import opened ParserTheorems
  import opened ErrorEvents

  predicate AreAnswers(events: seq<Event>) {
    forall i :: 0 <= i < |events| ==> IsAnswer(events[i])
  }

  lemma {:induction false} DeliverAnswers(bytes: string)
    ensures AreAnswers(Deliver(bytes))
  {
    hide Parser.Parse;
    if bytes != "" {
      var r := Parser.Parse(bytes);
      ReactionAnswers(r);
      if !r.ProtocolError? {
        DeliverAnswers(bytes[r.consumed..]);
      }
    }
  }

  /** The events of one read of connection `c`, one after the other. */
  function Play(st: State, c: Conn, events: seq<Event>): (r: State)
    requires Ready(st) && c < |st.machines|
    ensures Ready(r) && |r.machines| == |st.machines|
    decreases |events|
  {
    if events == [] then st
    else
      SocketReady(st, c, events[0]);
      Play(SocketEvent(st, c, events[0]), c, events[1..])
  }

  /** Requests and events are matched in order, as far as both go. */
  function Answers(requests: seq<Request>, events: seq<Event>): (r: seq<Settlement>)
    requires AreAnswers(events)
    ensures |r| == if |requests| <= |events| then |requests| else |events|
    ensures forall i :: 0 <= i < |r| ==> r[i] == AnswerTo(requests[i], events[i])
  {
    if requests == [] || events == [] then []
    else [AnswerTo(requests[0], events[0])] + Answers(requests[1..], events[1..])
  }

  /** The request in flight on `c`, and those that wait. */
  function Asked(st: State, c: Conn): (requests: seq<Request>)
    requires c < |st.machines| && st.machines[c].query.Some?
  {
    [st.machines[c].query.value] + st.queue
  }

  // ---------------------------------------------------------------- connections that have done

  lemma {:induction false} BlockedPlay(st: State, c: Conn, events: seq<Event>)
    requires Ready(st) && c < |st.machines| && Blocked(st.machines[c].phase)
    ensures Play(st, c, events) == st
    decreases |events|
  {
    hide SocketEvent, Ready;
    if events != [] {
      SocketReady(st, c, events[0]);
      BlockedEvent(st, c, events[0]);
      BlockedPlay(st, c, events[1..]);
    }
  }

  lemma BlockedEvent(st: State, c: Conn, event: Event)
    requires Ready(st) && c < |st.machines| && Blocked(st.machines[c].phase)
    ensures SocketEvent(st, c, event) == st
  {
    PoolEvents.SocketEventBlocked(st, c, event);
    hide SocketEvent;
  }

  /** An idle connection has no row for an answer. */
  lemma IdleEvent(st: State, c: Conn, event: Event)
    requires Ready(st) && Inv(st) && Rests(st, c) && IsAnswer(event)
    ensures SocketEvent(st, c, event) == st.(machines := st.machines[c := st.machines[c].(phase := Faulted)])
  {
    var m := st.machines[c];
    InvMachine(st, c);
    assert !ReachesIdle(m, event) && !Breaks(m, event);
    hide Inv;
    AnswerFaults(m, event);
    hide Process;
    assert st.log.lost + [] == st.log.lost;
  }

  lemma IdlePlay(st: State, c: Conn, events: seq<Event>)
    requires Ready(st) && Inv(st) && Rests(st, c) && AreAnswers(events)
    ensures
      var r := Play(st, c, events);
      && r == (if events == [] then st
               else st.(machines := st.machines[c := st.machines[c].(phase := Faulted)]))
  {
    hide Inv, SocketEvent;
    if events != [] {
      SocketReady(st, c, events[0]);
      IdleEvent(st, c, events[0]);
      hide Ready;
      BlockedPlay(SocketEvent(st, c, events[0]), c, events[1..]);
    }
  }

  // ---------------------------------------------------------------- a connection with a request in flight

  /** What `events` make of `st`, with a request in flight on `c`. */
  ghost predicate Leads(st: State, c: Conn, events: seq<Event>, r: State)
    requires c < |st.machines| && st.machines[c].query.Some? && AreAnswers(events)
  {
    && c < |r.machines|
    && var m, n, waiting := st.machines[c], r.machines[c], |st.queue|;
    && n.settled == m.settled + Answers(Asked(st, c), events)
    && r.queue == (if |events| <= waiting then st.queue[|events|..] else [])
    && n.phase == (if |events| <= waiting then Query
                   else if st.closed then Terminated
                   else if |events| == waiting + 1 then Idle
                   else Faulted)
    && (|events| <= waiting ==> n.query == Some(Asked(st, c)[|events|]))
    && (n.phase.Faulted? || Reachable(r))
  }

  lemma AnswerAllowed(st: State, c: Conn, event: Event)
    requires Reachable(st) && c < |st.machines| && st.machines[c].phase.Query? && IsAnswer(event)
    ensures Ready(st) && Inv(st) && st.machines[c].query.Some?
    ensures Expected(st.machines[c], event) && ReachesIdle(st.machines[c], event)
    ensures Reachable(SocketEvent(st, c, event)) && |SocketEvent(st, c, event).machines| == |st.machines|
  {
    hide Reachable, Inv, SocketEvent;
    ReachableInv(st);
    QueryHolds(st, c);
    StepReaches(st, Socket(c, event));
  }

  lemma LeadsNowhere(st: State, c: Conn)
    requires Reachable(st) && c < |st.machines| && st.machines[c].phase.Query? && st.machines[c].query.Some?
    ensures Leads(st, c, [], st)
  {
    hide Reachable;
    assert st.machines[c].settled + [] == st.machines[c].settled;
  }

  lemma AnswersFirst(first: Request, rest: seq<Request>, events: seq<Event>)
    requires AreAnswers(events) && events != []
    ensures Answers([first] + rest, events) == [AnswerTo(first, events[0])] + Answers(rest, events[1..])
  {
    assert ([first] + rest)[1..] == rest;
  }

  /** One event to the request in flight, and the rest from where the next is in flight. */
  lemma LeadsOn(st: State, n: State, c: Conn, events: seq<Event>, r: State)
    requires c < |st.machines| && st.machines[c].query.Some? && AreAnswers(events) && events != []
    requires c < |n.machines| && n.machines[c].query.Some? && st.queue != [] && n.closed == st.closed
    requires n.queue == st.queue[1..] && n.machines[c].query == Some(st.queue[0])
    requires n.machines[c].settled == st.machines[c].settled + [AnswerTo(st.machines[c].query.value, events[0])]
    requires Leads(n, c, events[1..], r)
    ensures Leads(st, c, events, r)
  {
    hide Reachable;
    var first := AnswerTo(st.machines[c].query.value, events[0]);
    assert Asked(n, c) == st.queue;
    AnswersFirst(st.machines[c].query.value, st.queue, events);
    hide Answers;
    Regroup(st.machines[c].settled, [first], Answers(st.queue, events[1..]));
    if |events| <= |st.queue| {
      assert st.queue[1..][|events| - 1..] == st.queue[|events|..];
    }
  }

  /** Nothing was waiting: the connection came to rest or to its end. */
  lemma LeadsToEnd(st: State, c: Conn, events: seq<Event>, r: State)
    requires c < |st.machines| && st.machines[c].query.Some? && AreAnswers(events) && events != []
    requires st.queue == [] && r.queue == [] && c < |r.machines|
    requires r.machines[c].settled == st.machines[c].settled + [AnswerTo(st.machines[c].query.value, events[0])]
    requires r.machines[c].phase == if st.closed then Terminated else if |events| == 1 then Idle else Faulted
    requires r.machines[c].phase.Faulted? || Reachable(r)
    ensures Leads(st, c, events, r)
  {
    hide Reachable;
    assert Answers(Asked(st, c), events) == [AnswerTo(st.machines[c].query.value, events[0])];
  }

  lemma EndsRead(st: State, c: Conn, events: seq<Event>)
    requires Reachable(st) && c < |st.machines| && st.machines[c].phase.Query? && AreAnswers(events)
    requires st.queue == [] && events != []
    ensures st.machines[c].query.Some?
    ensures Leads(st, c, events, Play(st, c, events))
  {
    hide Reachable, Inv, SocketEvent, Ready, Play, Leads, ReachesIdle, Expected;
    AnswerAllowed(st, c, events[0]);
    PlayFirst(st, c, events);
    var n := SocketEvent(st, c, events[0]);
    ReachableInv(n);
    AnswerSettles(st, c, events[0]);
    if st.closed {
      ArrivesToEnd(st, c, events[0]);
      BlockedPlay(n, c, events[1..]);
    } else {
      ArrivesToRest(st, c, events[0]);
      IdlePlay(n, c, events[1..]);
    }
    LeadsToEnd(st, c, events, Play(st, c, events));
  }

  lemma PlayNothing(st: State, c: Conn)
    requires Ready(st) && c < |st.machines|
    ensures Play(st, c, []) == st
  {
  }

  lemma PlayFirst(st: State, c: Conn, events: seq<Event>)
    requires Ready(st) && c < |st.machines| && events != []
    ensures AtRest(st) && InRange(st.connections, |st.machines|)
    ensures
      var n := SocketEvent(st, c, events[0]);
      Ready(n) && |n.machines| == |st.machines| && Play(st, c, events) == Play(n, c, events[1..])
  {
    SocketReady(st, c, events[0]);
    hide SocketEvent, AtRest, InRange;
  }

  /**
   The answers a read raises go, in order, to the request in flight and to those that wait,
   each sent as its turn comes. It faults the connection exactly if the pool is open and there
   are more of them; otherwise it is a run like any other.
   */
  lemma {:induction false} AnswersInOrder(st: State, c: Conn, events: seq<Event>)
    requires Reachable(st) && c < |st.machines| && st.machines[c].phase.Query? && AreAnswers(events)
    ensures st.machines[c].query.Some?
    ensures Leads(st, c, events, Play(st, c, events))
    decreases |events|
  {
    hide Reachable, Inv, SocketEvent, Ready, Leads, ReachesIdle, Expected;
    QueryHolds(st, c);
    if events == [] {
      LeadsNowhere(st, c);
    } else if st.queue == [] {
      EndsRead(st, c, events);
    } else {
      AnswerAllowed(st, c, events[0]);
      PlayFirst(st, c, events);
      var n := SocketEvent(st, c, events[0]);
      ArrivesToQueue(st, c, events[0]);
      AnswerSettles(st, c, events[0]);
      AnswersInOrder(n, c, events[1..]);
      LeadsOn(st, n, c, events, Play(n, c, events[1..]));
    }
  }

  // ---------------------------------------------------------------- reads

  /** In terms of the bytes of one read, whatever they are; each answer settles one request for good. */
  lemma ReadFaultsIff(st: State, c: Conn, bytes: string)
    requires Reachable(st) && c < |st.machines| && st.machines[c].phase.Query?
    ensures st.machines[c].query.Some? && AreAnswers(Deliver(bytes))
    ensures
      var r, events, before := Play(st, c, Deliver(bytes)), Deliver(bytes), st.machines[c].settled;
      && (r.machines[c].phase.Faulted? <==> !st.closed && |events| > 1 + |st.queue|)
      && (!r.machines[c].phase.Faulted? ==> Reachable(r))
      && r.machines[c].settled == before + Answers(Asked(st, c), events)
      && (forall i :: 0 <= i < |events| && i < |Asked(st, c)| ==>
            HasFate(r, Asked(st, c)[i], Settled(c, |before| + i)))
  {
    hide Reachable, Inv, Ready, Deliver, Play, Answers, Asked;
    DeliverAnswers(bytes);
    ReachableInv(st);
    AnswersInOrder(st, c, Deliver(bytes));
    AnswersHaveFates(Play(st, c, Deliver(bytes)), c, st.machines[c].settled, Asked(st, c), Deliver(bytes));
    hide HasFate;
  }

  lemma AnswerHasFate(r: State, c: Conn, before: seq<Settlement>, answers: seq<Settlement>, i: nat)
    requires c < |r.machines| && r.machines[c].settled == before + answers && i < |answers|
    ensures HasFate(r, answers[i].request, Settled(c, |before| + i))
  {
  }

  lemma AnswersHaveFates(r: State, c: Conn, before: seq<Settlement>, requests: seq<Request>, events: seq<Event>)
    requires c < |r.machines| && AreAnswers(events)
    requires r.machines[c].settled == before + Answers(requests, events)
    ensures forall i :: 0 <= i < |events| && i < |requests| ==> HasFate(r, requests[i], Settled(c, |before| + i))
  {
    hide Answers, AreAnswers, HasFate;
    forall i | 0 <= i < |events| && i < |requests|
      ensures HasFate(r, requests[i], Settled(c, |before| + i))
    {
      AnswerHasFate(r, c, before, Answers(requests, events), i);
    }
  }

  /** A read that begins with an error fails the request in flight with its cause, whatever follows. */
  lemma ErrorSettles(st: State, c: Conn, p: Path, rest: string)
    requires Reachable(st) && c < |st.machines| && st.machines[c].phase.Query? && WellFormedPath(p)
    ensures st.machines[c].query.Some?
    ensures
      var r, before := Play(st, c, Deliver(PrintPath(p) + rest)), st.machines[c].settled;
      |before| < |r.machines[c].settled| &&
      r.machines[c].settled[|before|] == Failed(st.machines[c].query.value, PathCause(p))
  {
    hide Reachable, Inv, Ready, Deliver, Play, Answers, PrintPath, WellFormedPath, PathCause;
    ReachableInv(st);
    ErrorIsRaised(p, rest);
    ReadFaultsIff(st, c, PrintPath(p) + rest);
    hide HasFate;
  }

  /** Requests and replies matched in order. */
  function Verdicts(requests: seq<Request>, ts: seq<Reply>): seq<Settlement>
    requires AllWellFormed(ts)
  {
    seq(if |requests| <= |ts| then |requests| else |ts|,
        i requires 0 <= i < |requests| && i < |ts| => Verdict(requests[i], ts[i]))
  }

  lemma AnswersAreVerdicts(requests: seq<Request>, ts: seq<Reply>)
    requires AllWellFormed(ts)
    ensures AreAnswers(Reactions(ts)) && Answers(requests, Reactions(ts)) == Verdicts(requests, ts)
  {
    hide Reaction, Outcome, Verdict, Answers;
    forall i | 0 <= i < |ts|
      ensures IsAnswer(Reaction(Outcome(ts[i])))
      ensures forall request :: AnswerTo(request, Reaction(Outcome(ts[i]))) == Verdict(request, ts[i])
    {
      VerdictIs(ts[i]);
    }
  }

  lemma VerdictIs(t: Reply)
    requires WellFormed(t)
    ensures IsAnswer(Reaction(Outcome(t)))
    ensures forall request :: AnswerTo(request, Reaction(Outcome(t))) == Verdict(request, t)
  {
    ReplyReaction(t);
    hide Reaction, Outcome, WellFormed, Eval, FirstError;
  }

  /** Replies that keep the loop in step, in one read: each gives its verdict to the request it answers. */
  lemma RepliesAnswerInOrder(st: State, c: Conn, ts: seq<Reply>)
    requires Reachable(st) && c < |st.machines| && st.machines[c].phase.Query?
    requires AllWellFormed(ts) && AllFramed(ts)
    ensures st.machines[c].query.Some?
    ensures
      var r := Play(st, c, Deliver(PrintAll(ts)));
      && r.machines[c].settled == st.machines[c].settled + Verdicts(Asked(st, c), ts)
      && (r.machines[c].phase.Faulted? <==> !st.closed && |ts| > 1 + |st.queue|)
  {
    hide Reachable, Ready, Deliver, Play, PrintAll, Verdicts, Answers;
    DeliverAll(ts, "");
    assert PrintAll(ts) + "" == PrintAll(ts);
    DeliverNothing();
    assert Reactions(ts) + [] == Reactions(ts);
    ReadFaultsIff(st, c, PrintAll(ts));
    AnswersAreVerdicts(Asked(st, c), ts);
  }

  /**
   An array that holds an error: its request is told the error, and what is left of it answers
   the requests that wait, in place of their own replies, as far as it goes. Only what goes
   further faults the connection.
   */
  lemma LeftoverAnswersQueue(st: State, c: Conn, t: Reply)
    requires Reachable(st) && c < |st.machines| && st.machines[c].phase.Query?
    requires WellFormed(t) && !Framed(t)
    ensures st.machines[c].query.Some? && AreAnswers(Deliver(Leftover(t))) && Deliver(Leftover(t)) != []
    ensures
      var m, r, extra := st.machines[c], Play(st, c, Deliver(Print(t))), Deliver(Leftover(t));
      && r.machines[c].settled == m.settled + ([Verdict(m.query.value, t)] + Answers(st.queue, extra))
      && (r.machines[c].phase.Faulted? <==> !st.closed && |extra| > |st.queue|)
  {
    hide Reachable, Ready, Deliver, Play, Print, WellFormed, Framed, Leftover, Parser.Parse, Reaction, Outcome, Verdict;
    FirstReaction(t);
    ReadFaultsIff(st, c, Print(t));
    VerdictIs(t);
    DeliverAnswers(Leftover(t));
    AnswersFirst(st.machines[c].query.value, st.queue, Deliver(Print(t)));
    assert Deliver(Print(t))[1..] == Deliver(Leftover(t));
    hide Answers;
  }

  /** It does happen: an array with one error in it, to the first of two requests. */
  lemma LeftoverHappens(first: string, second: string) returns (st: State, t: Reply)
    ensures Reachable(st) && |st.machines| == 1 && !st.closed && st.machines[0].phase.Query?
    ensures st.machines[0].query == Some(Request(0, first)) && st.queue == [Request(1, second)]
    ensures WellFormed(t) && !Framed(t)
    ensures
      var r := Play(st, 0, Deliver(Print(t)));
      && Reachable(r) && r.machines[0].phase.Idle?
      && r.machines[0].settled == [Failed(Request(0, first), Server("E")), Failed(Request(1, second), Server("E"))]
  {
    hide Reachable, Ready, Deliver, Play, Print, WellFormed, Framed, Leftover, Parser.Parse, FirstError, Eval;
    st := BusyConnection(first, second);
    t := ErrorInArray();
    LeftoverAnswersQueue(st, 0, t);
    var events := Deliver(Print(t));
    DeliverAnswers(Print(t));
    FirstReaction(t);
    AnswersInOrder(st, 0, events);
  }

  lemma ErrorInArray() returns (t: Reply)
    ensures WellFormed(t) && !Framed(t) && FirstError(t) == Some("E")
    ensures Deliver(Leftover(t)) == [QueryError(Server("E"))]
  {
    t := List("1", [Error("E")]);
    assert Decimal.Number("1") == 1 by {
      assert "1"[..0] == "";
    }
    var error := "-" + ("E" + CRLF);
    assert [Error("E")][1..] == [] && PrintAll([Error("E")]) == error + "";
    assert error + "" == error;
    assert Print(t) == "*" + ("1" + CRLF + error);
    assert Print(t)[4..] == error;
    ParseLine('-', "E", "");
    hide Parser.Parse;
  }
}
