/**
 What every run of one machine keeps, whatever its environment and its owner do.
 */
module FsmTheorems {
  import opened Wrappers
  import opened Events
  import opened Fsm

  function RequestsOf(settled: seq<Settlement>): seq<Request> {
    seq(|settled|, i requires 0 <= i < |settled| => settled[i].request)
  }

  /**
   Replies are paired with requests in the order of sending: the settled requests are those
   sent, in that order, except for at most one that is in flight, or was when the machine
   was terminated.
   */
  predicate Paired(m: Machine) {
    && RequestsOf(m.settled) <= m.sent
    && (m.query.Some? ==> m.sent == RequestsOf(m.settled) + [m.query.value])
    && (m.query.None? && !m.phase.Terminated? ==> m.sent == RequestsOf(m.settled))
    && |m.sent| <= |m.settled| + 1
  }

  /** The startup message is written once, with a password, on leaving `connecting`; every request comes after it. */
  predicate Greeted(m: Machine) {
    && m.startups <= (if m.password then 1 else 0)
    && (m.phase.Unplugged? || m.phase.Connecting? ==> m.startups == 0)
    && (m.password && (m.phase.Authn? || m.phase.Idle? || m.phase.Query?) ==> m.startups == 1)
    && (m.password && m.sent != [] ==> m.startups == 1)
  }

  predicate Consistent(m: Machine) {
    && (m.phase.Query? ==> m.query.Some?)
    && (m.query.Some? ==> m.phase.Query? || m.phase.Faulted?)
    && m.notices == (if m.phase.Terminated? then 1 else 0)
    && AllCalls(m.deferred)
    && Paired(m) && Greeted(m)
  }

  predicate OnlyTerminates(events: seq<Event>) {
    forall i :: 0 <= i < |events| ==> events[i].Terminate?
  }

  /** Nothing is put off at rest, and nothing but a terminate while a request is in flight. */
  predicate Patient(m: Machine) {
    && (m.phase.Idle? ==> m.deferred == [])
    && (m.phase.Query? ==> OnlyTerminates(m.deferred))
  }

  /** A machine between two events. */
  predicate Resting(m: Machine) {
    Consistent(m) && m.inbox == [] && Patient(m)
  }

  // ---------------------------------------------------------------- preservation

  lemma ReactGreeted(m: Machine, event: Event)
    requires Greeted(m)
    ensures Greeted(React(m, event))
  {
  }

  lemma ReactPaired(m: Machine, event: Event)
    requires Consistent(m)
    ensures Paired(React(m, event))
  {
    hide Greeted;
    if m.phase.Query? && event.Recv? {
      assert RequestsOf(m.settled + [Answered(m.query.value, event.value)]) == RequestsOf(m.settled) + [m.query.value];
    } else if m.phase.Query? && event.QueryError? {
      assert RequestsOf(m.settled + [Failed(m.query.value, event.cause)]) == RequestsOf(m.settled) + [m.query.value];
    }
  }

  lemma ReactConsistent(m: Machine, event: Event)
    requires Consistent(m)
    ensures Consistent(React(m, event))
    ensures IsCall(event) ==> React(m, event).inbox == m.inbox && (Patient(m) ==> Patient(React(m, event)))
  {
    hide Greeted, Paired;
    ReactGreeted(m, event);
    ReactPaired(m, event);
  }

  lemma {:induction false} ReplayConsistent(m: Machine, events: seq<Event>)
    requires Consistent(m) && AllCalls(events) && Patient(m)
    ensures
      var r := Replay(m, events);
      Consistent(r) && Patient(r)
    decreases |events|
  {
    if events != [] {
      ReactConsistent(m, events[0]);
      hide React, Consistent;
      assert AllCalls(React(m, events[0]).deferred) by { RestingCalls(React(m, events[0])); }
      ReplayConsistent(React(m, events[0]), events[1..]);
    }
  }

  lemma RestingCalls(m: Machine)
    requires Consistent(m)
    ensures AllCalls(m.deferred)
  {
  }

  lemma StepConsistent(m: Machine, event: Event, posts: seq<Event>)
    requires Consistent(m)
    ensures
      var r := ReplayDeferred(Step(m, event, posts));
      Consistent(r) && Patient(r)
  {
    ReactConsistent(m, event);
    var s := Step(m, event, posts);
    hide React;
    assert Consistent(s.(deferred := []));
    ReplayConsistent(s.(deferred := []), s.deferred);
  }

  lemma {:induction false} SettleConsistent(m: Machine, posts: seq<Event>)
    requires AllPosted(m.inbox) && AllCalls(posts)
    requires Consistent(m) && Patient(m)
    ensures Resting(Settle(m, posts))
    decreases Rank(m.phase), |m.inbox|
  {
    hide Step, ReplayDeferred;
    if m.inbox != [] {
      var n := m.(inbox := m.inbox[1..]);
      assert Consistent(n);
      StepConsistent(n, m.inbox[0], posts);
      SettleConsistent(ReplayDeferred(Step(n, m.inbox[0], posts)), posts);
    }
  }

  lemma ProcessResting(m: Machine, event: Event, posts: seq<Event>)
    requires Resting(m) && AllCalls(posts)
    ensures Resting(Process(m, event, posts))
  {
    hide Step, ReplayDeferred, Settle;
    if !Blocked(m.phase) {
      StepConsistent(m, event, posts);
      SettleConsistent(ReplayDeferred(Step(m, event, posts)), posts);
    }
  }

  // ---------------------------------------------------------------- runs

  /** An event from outside, and what the owner raises should it bring the machine to idle. */
  datatype Stimulus = Stimulus(event: Event, posts: seq<Event>)

  predicate Playable(script: seq<Stimulus>) {
    forall i :: 0 <= i < |script| ==> AllCalls(script[i].posts)
  }

  function Run(m: Machine, script: seq<Stimulus>): (r: Machine)
    requires m.inbox == [] && AllCalls(m.deferred) && Playable(script)
    ensures r.inbox == [] && AllCalls(r.deferred)
    decreases |script|
  {
    if script == [] then m else Run(Process(m, script[0].event, script[0].posts), script[1..])
  }

  /** Pairing, and one notification on reaching `terminated`, hold throughout every run. */
  lemma {:induction false} RunResting(m: Machine, script: seq<Stimulus>)
    requires Resting(m) && Playable(script)
    ensures Resting(Run(m, script))
    decreases |script|
  {
    hide Process;
    if script != [] {
      ProcessResting(m, script[0].event, script[0].posts);
      RunResting(Process(m, script[0].event, script[0].posts), script[1..]);
    }
  }

  /** Nothing happens to a terminated machine any more: no byte sent, no callback run. */
  lemma {:induction false} TerminatedAbsorbs(m: Machine, script: seq<Stimulus>)
    requires m.phase.Terminated? && m.inbox == [] && AllCalls(m.deferred) && Playable(script)
    ensures Run(m, script) == m
    decreases |script|
  {
    if script != [] {
      TerminatedAbsorbs(m, script[1..]);
    }
  }

  // ---------------------------------------------------------------- what is put off

  /** The states that put a terminate off. */
  predicate Holds(phase: Phase) {
    phase.Connecting? || phase.Authn? || phase.Query?
  }

  /** Away from idle, deferred events are only deferred again. */
  lemma {:induction false} ReplayHeld(m: Machine, events: seq<Event>)
    requires AllCalls(events) && AllCalls(m.deferred) && !m.phase.Idle? && !m.phase.Unplugged?
    ensures
      var r := Replay(m, events);
      && r.sent == m.sent
      && (Blocked(m.phase) ==> r == m)
      && (Holds(m.phase) ==> r == m.(deferred := m.deferred + events) || r.phase.Faulted?)
      && (Holds(m.phase) && (m.phase.Query? ==> OnlyTerminates(events)) ==>
            r == m.(deferred := m.deferred + events))
    decreases |events|
  {
    if events == [] {
      assert m.deferred + events == m.deferred;
    } else {
      ReplayHeld(React(m, events[0]), events[1..]);
      assert m.deferred + [events[0]] + events[1..] == m.deferred + events;
    }
  }

  lemma {:induction false} SettleBlocked(m: Machine, posts: seq<Event>)
    requires Blocked(m.phase) && AllPosted(m.inbox) && AllCalls(m.deferred) && AllCalls(posts)
    requires m.deferred == []
    ensures Settle(m, posts) == m.(inbox := [])
    decreases |m.inbox|
  {
    if m.inbox != [] {
      SettleBlocked(m.(inbox := m.inbox[1..]), posts);
    }
  }

  /** The machine on entering idle, before its callback. */
  function Arrival(m: Machine, event: Event): Machine {
    Exit(m, event).(phase := Idle)
  }

  lemma ArrivalReact(m: Machine, event: Event)
    requires m.inbox == [] && Arrives(m, event)
    ensures React(m, event) == Arrival(m, event) && React(m, event).inbox == []
  {
  }

  lemma ArrivalStep(m: Machine, event: Event, posts: seq<Event>)
    requires Resting(m) && Arrives(m, event)
    ensures Step(m, event, posts) == Arrival(m, event).(inbox := posts)
  {
    hide Consistent, Patient, React, Arrives, Arrival;
    ArrivalReact(m, event);
    assert [] + posts == posts;
  }

  lemma NothingDeferred(m: Machine)
    requires m.deferred == []
    ensures ReplayDeferred(m) == m
  {
  }

  /** Both ways into idle come to the same: deferred events first, then what the callback raised. */
  lemma ProcessArrival(m: Machine, event: Event, posts: seq<Event>)
    requires Resting(m) && ReachesIdle(m, event) && AllCalls(posts)
    ensures AllCalls(Arrival(m, event).deferred) && AllPosted(posts)
    ensures Process(m, event, posts) == Settle(ReplayDeferred(Arrival(m, event).(inbox := posts)), posts)
  {
    hide Step, ReplayDeferred, Settle;
    if Arrives(m, event) {
      ArrivalStep(m, event, posts);
      hide Arrival, Table;
    } else {
      GreetingStep(m, event, posts);
      ProcessGreeting(m, posts);
    }
  }

  lemma GreetingStep(m: Machine, event: Event, posts: seq<Event>)
    requires Resting(m) && ReachesIdle(m, event) && !Arrives(m, event)
    ensures m.phase.Connecting? && !m.password
    ensures Step(m, event, posts) == m.(phase := Authn, inbox := [Complete])
    ensures Arrival(m, event) == m.(phase := Idle)
  {
    assert [] + [Complete] == [Complete];
  }

  lemma StillHeld(m: Machine)
    requires AllCalls(m.deferred) && Holds(m.phase) && !m.phase.Query?
    ensures ReplayDeferred(m) == m
  {
    ReplayHeld(m.(deferred := []), m.deferred);
    assert [] + m.deferred == m.deferred;
  }

  /** Without a password, the startup state completes by itself. */
  lemma ProcessGreeting(m: Machine, posts: seq<Event>)
    requires Resting(m) && m.phase.Connecting? && !m.password && AllCalls(posts)
    ensures Settle(ReplayDeferred(m.(phase := Authn, inbox := [Complete])), posts) ==
            Settle(ReplayDeferred(m.(phase := Idle, inbox := posts)), posts)
  {
    var greeted := m.(phase := Authn, inbox := [Complete]);
    StillHeld(greeted);
    assert [Complete][1..] == [] && [] + posts == posts;
    assert Step(greeted.(inbox := []), Complete, posts) == m.(phase := Idle, inbox := posts);
    hide Step, ReplayDeferred, Replay;
  }

  /** Without an arrival in idle, what its callback would raise is of no account. */
  lemma PostsOnlyOnArrival(m: Machine, event: Event, posts: seq<Event>)
    requires Resting(m) && !ReachesIdle(m, event) && AllCalls(posts)
    requires !m.phase.Unplugged?
    ensures Process(m, event, posts) == Process(m, event, [])
  {
    if !Blocked(m.phase) {
      var n := Step(m, event, posts);
      assert n == Step(m, event, []) && n.inbox == [];
      hide Step, ReplayDeferred, Replay;
    }
  }

  lemma TerminatesFromIdle(m: Machine, posts: seq<Event>)
    requires m.phase.Idle? && AllCalls(m.deferred) && m.deferred != [] && m.deferred[0].Terminate?
    requires AllPosted(m.inbox) && AllCalls(posts)
    ensures Settle(ReplayDeferred(m), posts) ==
            m.(phase := Terminated, deferred := [], inbox := [], notices := m.notices + 1)
  {
    var ended := m.(phase := Terminated, deferred := [], notices := m.notices + 1);
    assert React(m.(deferred := []), Terminate) == ended;
    ReplayHeld(ended, m.deferred[1..]);
    SettleBlocked(ended, posts);
    hide Settle;
  }

  /** While a request is in flight, another execute is a fault. */
  lemma {:induction false} QueryReplay(m: Machine, events: seq<Event>)
    requires m.phase.Query? && AllCalls(events) && AllCalls(m.deferred)
    ensures
      var r := Replay(m, events);
      if OnlyTerminates(events) then r == m.(deferred := m.deferred + events) else r.phase.Faulted?
    decreases |events|
  {
    if events == [] {
      assert m.deferred + events == m.deferred;
    } else if events[0].Terminate? {
      QueryReplay(React(m, events[0]), events[1..]);
      assert m.deferred + [events[0]] + events[1..] == m.deferred + events;
      assert events == [events[0]] + events[1..];
    } else {
      ReplayHeld(React(m, events[0]), events[1..]);
    }
  }

  lemma FaultedStays(m: Machine, posts: seq<Event>)
    requires m.phase.Faulted? && AllPosted(m.inbox) && AllCalls(m.deferred) && AllCalls(posts)
    ensures Settle(m, posts).phase.Faulted?
  {
    if m.inbox != [] {
      var n := Step(m.(inbox := m.inbox[1..]), m.inbox[0], posts);
      ReplayHeld(n.(deferred := []), n.deferred);
      SettleBlocked(ReplayDeferred(n), posts);
    }
  }

  lemma {:induction false} QueryInbox(m: Machine, posts: seq<Event>)
    requires m.phase.Query? && OnlyTerminates(m.deferred) && AllCalls(m.inbox) && AllCalls(posts)
    requires AllCalls(m.deferred)
    ensures AllPosted(m.inbox)
    ensures
      var r := Settle(m, posts);
      if OnlyTerminates(m.inbox) then r == m.(inbox := [], deferred := m.deferred + m.inbox)
      else r.phase.Faulted?
    decreases |m.inbox|
  {
    hide Step, ReplayDeferred, Settle, OnlyTerminates;
    SettleOnce(m, posts);
    if m.inbox == [] {
      assert m.deferred + m.inbox == m.deferred;
      TerminatesTail([]);
    } else {
      var n := ReplayDeferred(Step(m.(inbox := m.inbox[1..]), m.inbox[0], posts));
      QueryStep(m, posts);
      TerminatesTail(m.inbox);
      TerminatesMore(m.deferred);
      if m.inbox[0].Terminate? {
        QueryInbox(n, posts);
        assert m.deferred + [Terminate] + m.inbox[1..] == m.deferred + m.inbox;
      } else {
        FaultedStays(n, posts);
      }
    }
  }

  lemma SettleOnce(m: Machine, posts: seq<Event>)
    requires AllCalls(m.inbox) && AllCalls(m.deferred) && AllCalls(posts)
    ensures AllPosted(m.inbox)
    ensures
      m.inbox != [] ==>
        var n := ReplayDeferred(Step(m.(inbox := m.inbox[1..]), m.inbox[0], posts));
        AllPosted(n.inbox) && AllCalls(n.deferred) && Settle(m, posts) == Settle(n, posts)
    ensures m.inbox == [] ==> Settle(m, posts) == m
  {
    hide Step, ReplayDeferred;
  }

  lemma TerminatesTail(s: seq<Event>)
    ensures OnlyTerminates(s) <==> s == [] || (s[0].Terminate? && OnlyTerminates(s[1..]))
  {
  }

  lemma TerminatesMore(s: seq<Event>)
    requires OnlyTerminates(s)
    ensures OnlyTerminates(s + [Terminate])
  {
  }

  lemma QueryStep(m: Machine, posts: seq<Event>)
    requires m.phase.Query? && OnlyTerminates(m.deferred) && AllCalls(m.inbox) && m.inbox != []
    requires AllCalls(m.deferred)
    ensures
      var n := ReplayDeferred(Step(m.(inbox := m.inbox[1..]), m.inbox[0], posts));
      if m.inbox[0].Terminate? then n == m.(inbox := m.inbox[1..], deferred := m.deferred + [Terminate])
      else n.phase.Faulted? && n.inbox == m.inbox[1..]
  {
    hide Step, Replay, OnlyTerminates;
    var s := Step(m.(inbox := m.inbox[1..]), m.inbox[0], posts);
    QueryTakes(m, posts);
    TerminatesMore(m.deferred);
    if m.inbox[0].Terminate? {
      QueryReplay(s.(deferred := []), s.deferred);
      assert [] + s.deferred == s.deferred;
    } else {
      ReplayHeld(s.(deferred := []), s.deferred);
    }
  }

  lemma QueryTakes(m: Machine, posts: seq<Event>)
    requires m.phase.Query? && AllCalls(m.inbox) && m.inbox != []
    ensures
      var s := Step(m.(inbox := m.inbox[1..]), m.inbox[0], posts);
      if m.inbox[0].Terminate? then s == m.(inbox := m.inbox[1..], deferred := m.deferred + [Terminate])
      else s == m.(inbox := m.inbox[1..], phase := Faulted)
  {
  }

  /** From idle, a deferred execute is sent; a second one, deferred or posted, finds the request in flight. */
  lemma AsksFromIdle(m: Machine, posts: seq<Event>)
    requires m.phase.Idle? && AllCalls(m.deferred) && m.deferred != [] && m.deferred[0].Execute?
    requires AllCalls(m.inbox) && AllCalls(posts)
    ensures AllPosted(m.inbox)
    ensures
      var r := Settle(ReplayDeferred(m), posts);
      var request := m.deferred[0].request;
      var rest := m.deferred[1..] + m.inbox;
      if OnlyTerminates(rest) then
        r == m.(phase := Query, query := Some(request), sent := m.sent + [request], deferred := rest, inbox := [])
      else r.phase.Faulted?
  {
    hide Settle;
    var later := m.deferred[1..];
    var asked := React(m.(deferred := []), m.deferred[0]);
    var request := m.deferred[0].request;
    assert asked == m.(deferred := [], phase := Query, query := Some(request), sent := m.sent + [request]);
    QueryReplay(asked, later);
    hide React;
    assert [] + later == later;
    SplitTerminates(later, m.inbox);
    if OnlyTerminates(later) {
      assert ReplayDeferred(m) == asked.(deferred := later);
      QueryInbox(asked.(deferred := later), posts);
    } else {
      assert ReplayDeferred(m).phase.Faulted?;
      FaultedStays(ReplayDeferred(m), posts);
    }
  }

  lemma SplitTerminates(s: seq<Event>, t: seq<Event>)
    ensures OnlyTerminates(s + t) <==> OnlyTerminates(s) && OnlyTerminates(t)
  {
    if OnlyTerminates(s + t) {
      assert forall i :: 0 <= i < |s| ==> s[i] == (s + t)[i];
      assert forall i :: 0 <= i < |t| ==> t[i] == (s + t)[|s| + i];
    }
  }

  /**
   What was put off is done in turn on the next arrival in idle. A terminate takes effect if
   it is first; behind one execute it waits for the reply to that; a second execute, put off
   or raised on arrival, is a fault.
   */
  lemma DeferredInTurn(m: Machine, event: Event, posts: seq<Event>)
    requires Resting(m) && m.deferred != [] && ReachesIdle(m, event) && AllCalls(posts)
    ensures
      var r := Process(m, event, posts);
      var a := Arrival(m, event);
      var rest := m.deferred[1..] + posts;
      match m.deferred[0]
      case Terminate => r == a.(phase := Terminated, deferred := [], notices := 1)
      case Execute(request) =>
        if OnlyTerminates(rest) then
          r == a.(phase := Query, query := Some(request), sent := a.sent + [request], deferred := rest)
        else r.phase.Faulted?
      case _ => false
  {
    ProcessArrival(m, event, posts);
    var a := Arrival(m, event).(inbox := posts);
    assert a.phase.Idle? && a.deferred == m.deferred && a.notices == 0;
    assert AllCalls(a.deferred) && IsCall(a.deferred[0]);
    hide Process, Arrival, Resting, ReachesIdle, Settle, ReplayDeferred;
    if m.deferred[0].Terminate? {
      TerminatesFromIdle(a, posts);
    } else {
      AsksFromIdle(a, posts);
    }
  }

  /** On the next arrival in idle the machine terminates exactly if a terminate is first. */
  lemma DeferredTerminateIff(m: Machine, event: Event, posts: seq<Event>)
    requires Resting(m) && m.deferred != [] && ReachesIdle(m, event) && AllCalls(posts)
    ensures
      var r := Process(m, event, posts);
      && (r.phase.Terminated? <==> m.deferred[0].Terminate?)
      && (m.deferred[0].Terminate? ==>
            r == Arrival(m, event).(phase := Terminated, deferred := [], notices := 1))
  {
    DeferredInTurn(m, event, posts);
    hide Process, Arrival, Resting, ReachesIdle;
  }

  /** Told to execute and then to terminate, the machine does both: on this arrival and on the next. */
  lemma TerminateAfterExecute(m: Machine, event: Event, posts: seq<Event>, next: Event, later: seq<Event>)
    requires Resting(m) && |m.deferred| > 1 && m.deferred[0].Execute? && ReachesIdle(m, event)
    requires AllCalls(posts) && AllCalls(later) && OnlyTerminates(m.deferred[1..] + posts)
    ensures
      var r := Process(m, event, posts);
      && r.query == Some(m.deferred[0].request) && r.sent == m.sent + [m.deferred[0].request]
      && (ReachesIdle(r, next) ==>
            && Process(r, next, later).phase.Terminated?
            && Process(r, next, later).sent == r.sent
            && Process(r, next, later).settled == Arrival(r, next).settled)
  {
    DeferredInTurn(m, event, posts);
    ProcessResting(m, event, posts);
    var r := Process(m, event, posts);
    assert (m.deferred[1..] + posts)[0].Terminate?;
    hide Process, Resting;
    if ReachesIdle(r, next) {
      DeferredTerminateIff(r, next, later);
    }
  }

  // ---------------------------------------------------------------- the startup message

  /** This event has the machine write its startup message. */
  predicate Greets(m: Machine, event: Event) {
    m.phase.Connecting? && event.Complete? && m.password
  }

  lemma {:induction false} ReplayStartups(m: Machine, events: seq<Event>)
    requires AllCalls(events) && AllCalls(m.deferred)
    ensures Replay(m, events).startups == m.startups && Replay(m, events).password == m.password
    decreases |events|
  {
    if events != [] {
      CallStartups(m, events[0]);
      hide React;
      ReplayStartups(React(m, events[0]), events[1..]);
    }
  }

  lemma CallStartups(m: Machine, event: Event)
    requires IsCall(event) && AllCalls(m.deferred)
    ensures
      var r := React(m, event);
      r.startups == m.startups && r.password == m.password && AllCalls(r.deferred)
  {
  }

  lemma StepStartups(m: Machine, event: Event, posts: seq<Event>)
    requires AllCalls(m.deferred) && AllCalls(posts) && (m.password ==> AllCalls(m.inbox))
    ensures
      var r := Step(m, event, posts);
      && r.startups == m.startups + (if Greets(m, event) then 1 else 0)
      && r.password == m.password && AllCalls(r.deferred) && (r.password ==> AllCalls(r.inbox))
  {
  }

  lemma {:induction false} SettleStartups(m: Machine, posts: seq<Event>)
    requires AllPosted(m.inbox) && AllCalls(m.deferred) && AllCalls(posts) && (m.password ==> AllCalls(m.inbox))
    ensures Settle(m, posts).startups == m.startups && Settle(m, posts).password == m.password
    decreases Rank(m.phase), |m.inbox|
  {
    hide Step, Replay;
    if m.inbox != [] {
      var n := m.(inbox := m.inbox[1..]);
      var s := Step(n, m.inbox[0], posts);
      StepStartups(n, m.inbox[0], posts);
      ReplayStartups(s.(deferred := []), s.deferred);
      SettleStartups(ReplayDeferred(s), posts);
    }
  }

  /** The one event on which a startup message is written: the connect completing, with a password. */
  lemma StartupIff(m: Machine, event: Event, posts: seq<Event>)
    requires m.inbox == [] && AllCalls(m.deferred) && AllCalls(posts)
    ensures Process(m, event, posts).startups == m.startups + (if Greets(m, event) then 1 else 0)
    ensures Process(m, event, posts).password == m.password
  {
    var s := Step(m, event, posts);
    StepStartups(m, event, posts);
    hide Step, Replay, Settle;
    ReplayStartups(s.(deferred := []), s.deferred);
    SettleStartups(ReplayDeferred(s), posts);
  }

  // ---------------------------------------------------------------- a terminate is kept

  /** A machine that has been told to terminate, whatever else it was told before. */
  predicate Told(m: Machine) {
    Resting(m) && (Blocked(m.phase) || (Holds(m.phase) && Terminate in m.deferred))
  }

  lemma ToldStep(m: Machine, event: Event, posts: seq<Event>)
    requires Told(m) && AllCalls(posts)
    ensures Told(Process(m, event, posts))
  {
    ProcessResting(m, event, posts);
    if Blocked(m.phase) {
    } else if ReachesIdle(m, event) {
      DeferredInTurn(m, event, posts);
      assert Terminate in m.deferred;
      assert m.deferred == [m.deferred[0]] + m.deferred[1..];
      hide Process, Resting, ReachesIdle;
    } else {
      WaitingStep(m, event, posts);
      hide Process;
    }
  }

  /** A terminate put off is kept over every run, until the machine has come to its end. */
  lemma {:induction false} TerminateIsKept(m: Machine, script: seq<Stimulus>)
    requires Told(m) && Playable(script)
    ensures Told(Run(m, script))
    decreases |script|
  {
    hide Process, Paired;
    if script != [] {
      var n := Process(m, script[0].event, script[0].posts);
      ToldStep(m, script[0].event, script[0].posts);
      TerminateIsKept(n, script[1..]);
    }
  }

  /** A machine that has been told to terminate and has not been overtaken by an execute. */
  predicate Ending(m: Machine) {
    && Resting(m)
    && (Blocked(m.phase) || (Holds(m.phase) && m.deferred != [] && m.deferred[0].Terminate?))
  }

  lemma EndingStep(m: Machine, event: Event, posts: seq<Event>)
    requires Ending(m) && AllCalls(posts)
    ensures
      var r := Process(m, event, posts);
      Ending(r) && r.sent == m.sent && (r.phase.Connecting? <==> m.phase.Connecting? && IsCall(event))
  {
    ProcessResting(m, event, posts);
    if Blocked(m.phase) {
    } else if ReachesIdle(m, event) {
      assert !IsCall(event);
      DeferredTerminateIff(m, event, posts);
      hide Process;
    } else {
      WaitingStep(m, event, posts);
      hide Process;
    }
  }

  lemma WaitingStep(m: Machine, event: Event, posts: seq<Event>)
    requires Resting(m) && AllCalls(posts) && Holds(m.phase) && !ReachesIdle(m, event)
    ensures
      var r := Process(m, event, posts);
      && r.sent == m.sent && (Blocked(r.phase) || (Holds(r.phase) && m.deferred <= r.deferred))
      && (r.phase.Connecting? <==> m.phase.Connecting? && IsCall(event))
  {
    hide Step, Replay;
    var n := Step(m, event, posts);
    WaitingReact(m, event, posts);
    ReplayHeld(n.(deferred := []), n.deferred);
    assert [] + n.deferred == n.deferred;
  }

  lemma WaitingReact(m: Machine, event: Event, posts: seq<Event>)
    requires Resting(m) && AllCalls(posts) && Holds(m.phase) && !ReachesIdle(m, event)
    ensures
      var n := Step(m, event, posts);
      && n.inbox == [] && n.sent == m.sent
      && (Blocked(n.phase) || (Holds(n.phase) && m.deferred <= n.deferred))
      && (n.phase.Connecting? <==> m.phase.Connecting? && IsCall(event))
  {
  }

  /** The first thing a script has the socket report is that the connect has completed. */
  predicate ConnectCompletes(script: seq<Stimulus>) {
    script != [] &&
    if IsCall(script[0].event) then ConnectCompletes(script[1..]) else script[0].event.Complete?
  }

  /**
   If no execute is ahead of it, no run sends a request any more. One thing may still be
   written: the startup message of a machine with a password whose connect then completes.
   */
  lemma {:induction false} OnlyStartupAfterTerminate(m: Machine, script: seq<Stimulus>)
    requires Ending(m) && Playable(script)
    ensures
      var r := Run(m, script);
      && Ending(r) && r.sent == m.sent
      && r.startups == m.startups +
         (if m.phase.Connecting? && m.password && ConnectCompletes(script) then 1 else 0)
    decreases |script|
  {
    if script != [] {
      var n := Process(m, script[0].event, script[0].posts);
      EndingStep(m, script[0].event, script[0].posts);
      StartupIff(m, script[0].event, script[0].posts);
      hide Process, Resting;
      OnlyStartupAfterTerminate(n, script[1..]);
    }
  }

  // ---------------------------------------------------------------- single events

  lemma CallExecute(m: Machine, request: Request)
    requires Resting(m) && m.phase.Idle?
    ensures Process(m, Execute(request), []) ==
            m.(phase := Query, query := Some(request), sent := m.sent + [request])
  {
  }

  lemma CallTerminate(m: Machine)
    requires Resting(m) && (m.phase.Idle? || Holds(m.phase))
    ensures Process(m, Terminate, []) ==
            if m.phase.Idle? then m.(phase := Terminated, notices := 1)
            else m.(deferred := m.deferred + [Terminate])
  {
    if Holds(m.phase) {
      var n := Step(m, Terminate, []);
      assert n == m.(deferred := m.deferred + [Terminate]);
      hide Step;
      ReplayHeld(n.(deferred := []), n.deferred);
      assert [] + n.deferred == n.deferred;
      hide Replay;
    }
  }

  /** A live machine can be asked at any time, except to execute while a request is in flight. */
  lemma CallFaultsIff(m: Machine, event: Event)
    requires Resting(m) && (m.phase.Idle? || Holds(m.phase)) && IsCall(event)
    ensures Process(m, event, []).phase.Faulted? <==> event.Execute? && m.phase.Query?
  {
    if m.phase.Idle? {
      if event.Execute? {
        CallExecute(m, event.request);
      } else {
        CallTerminate(m);
      }
    } else {
      var n := Step(m, event, []);
      assert n == if event.Execute? && m.phase.Query? then m.(phase := Faulted)
                  else m.(deferred := m.deferred + [event]);
      hide Step;
      ReplayHeld(n.(deferred := []), n.deferred);
      hide Replay;
    }
  }

  /** Where an event leads that finds nothing put off, event by event. */
  function Leads(phase: Phase, event: Event, password: bool): Phase {
    match event
    case Connect => if phase == Unplugged then Connecting else Faulted
    case Complete =>
      if phase == Connecting && password then Authn
      else if phase == Connecting || phase == Authn then Idle
      else Faulted
    case Recv(_) => if phase == Authn || phase == Query then Idle else Faulted
    case QueryError(_) => if phase == Query then Idle else Faulted
    case ConnectionError => if phase == Unplugged then Faulted else Terminated
    case Execute(_) => if phase == Idle then Query else if phase == Query then Faulted else phase
    case Terminate => if phase == Unplugged || phase == Idle then Terminated else phase
  }

  /** Calls that come too early are kept, and nothing else is; the steps between count as one. */
  lemma EventLeads(m: Machine, event: Event)
    requires Resting(m) && !Blocked(m.phase) && m.deferred == []
    ensures
      var r := Process(m, event, []);
      && r.phase == Leads(m.phase, event, m.password)
      && r.deferred == (if IsCall(event) && r.phase == m.phase then [event] else [])
  {
    if m.phase.Connecting? && event.Complete? && !m.password {
      assert ReachesIdle(m, event);
      EventArrives(m, event, []);
      hide Process;
    } else {
      StepLeads(m, event);
      hide Step;
      KeepsOne(Step(m, event, []));
      hide ReplayDeferred;
    }
  }

  lemma StepLeads(m: Machine, event: Event)
    requires Resting(m) && !Blocked(m.phase) && m.deferred == []
    requires !(m.phase.Connecting? && event.Complete? && !m.password)
    ensures
      var s := Step(m, event, []);
      && s.phase == Leads(m.phase, event, m.password) && s.inbox == []
      && s.deferred == (if IsCall(event) && s.phase == m.phase then [event] else [])
      && (s.deferred != [] ==> Table(s.phase, event) == Defer)
  {
  }

  lemma KeepsOne(m: Machine)
    requires m.deferred == [] || (|m.deferred| == 1 && IsCall(m.deferred[0]) && Table(m.phase, m.deferred[0]) == Defer)
    ensures ReplayDeferred(m) == m
  {
    if m.deferred != [] {
      assert m.deferred == [m.deferred[0]] && [] + m.deferred == m.deferred && m.deferred[1..] == [];
      assert React(m.(deferred := []), m.deferred[0]) == m;
      assert Replay(m, m.deferred[1..]) == m;
    }
  }

  lemma EventGreets(m: Machine)
    requires Resting(m) && m.phase.Connecting? && m.password
    ensures Process(m, Complete, []) == m.(phase := Authn, startups := 1)
  {
    var n := Step(m, Complete, []);
    assert n == m.(phase := Authn, startups := 1);
    hide Step;
    ReplayHeld(n.(deferred := []), n.deferred);
    assert [] + n.deferred == n.deferred;
    hide Replay;
  }

  lemma EventBreaks(m: Machine)
    requires Resting(m) && (m.phase.Idle? || Holds(m.phase))
    ensures Process(m, ConnectionError, []) == m.(phase := Terminated, query := None, deferred := [], notices := 1)
  {
    var n := Step(m, ConnectionError, []);
    assert n == m.(phase := Terminated, query := None, notices := 1);
    hide Step;
    ReplayHeld(n.(deferred := []), n.deferred);
    hide Replay;
  }

  /** Arrival with nothing put off: the machine does what its callback raised first. */
  lemma EventArrives(m: Machine, event: Event, posts: seq<Event>)
    requires Resting(m) && ReachesIdle(m, event) && m.deferred == []
    requires AllCalls(posts) && (|posts| <= 1 || forall e <- posts :: e.Terminate?)
    ensures
      var a := Arrival(m, event);
      Process(m, event, posts) ==
      if posts == [] then a
      else if posts[0].Execute? then
        a.(phase := Query, query := Some(posts[0].request), sent := a.sent + [posts[0].request])
      else a.(phase := Terminated, notices := 1)
  {
    ProcessArrival(m, event, posts);
    hide Process;
    var a := Arrival(m, event);
    assert a.inbox == [] && a.deferred == [] && a.phase.Idle? && a.notices == 0;
    hide Arrival, Resting, ReachesIdle;
    assert ReplayDeferred(a.(inbox := posts)) == a.(inbox := posts);
    if posts != [] {
      SettleIdle(a, posts);
    }
  }

  lemma SettleIdle(a: Machine, posts: seq<Event>)
    requires a.phase.Idle? && a.deferred == [] && a.inbox == [] && a.notices == 0
    requires posts != [] && AllCalls(posts) && (|posts| == 1 || forall e <- posts :: e.Terminate?)
    ensures Settle(a.(inbox := posts), posts) ==
            if posts[0].Execute? then
              a.(phase := Query, query := Some(posts[0].request), sent := a.sent + [posts[0].request])
            else a.(phase := Terminated, notices := 1)
  {
    var n := Step(a.(inbox := posts[1..]), posts[0], posts);
    IdleStep(a, posts);
    hide Step;
    NothingDeferred(n);
    hide ReplayDeferred;
    if posts[0].Terminate? {
      SettleBlocked(n, posts);
    } else {
      assert posts[0] in posts && posts[1..] == [];
    }
  }

  lemma IdleStep(a: Machine, posts: seq<Event>)
    requires a.phase.Idle? && posts != [] && AllCalls(posts)
    ensures Step(a.(inbox := posts[1..]), posts[0], posts) ==
            if posts[0].Execute? then
              a.(inbox := posts[1..], phase := Query, query := Some(posts[0].request),
                 sent := a.sent + [posts[0].request])
            else a.(inbox := posts[1..], phase := Terminated, notices := a.notices + 1)
  {
  }
}
