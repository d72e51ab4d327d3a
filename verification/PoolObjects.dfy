/**
 The pool and its connections as objects that call each other (connection_pool.cpp,
 concrete_connection.hpp, connection_fsm.hpp).

 The pool holds references to its connections and calls `execute` and `terminate` on them;
 a connection that comes to rest, fails or ends calls the pool back in the middle of its
 own event. Each method is proved to do what the function of the same name in `Pool` says.
 */
module PoolObjects {
  import opened Wrappers
  import opened Resp
  import opened Events
  import opened Fsm
  import Pool
  import opened PoolEvents

  class Connection {
    const number: Pool.Conn
    const password: bool
    var phase: Phase
    var query: Option<Request>
    var deferred: seq<Event>
    var inbox: seq<Event>
    var processing: bool
    ghost var startups: nat
    ghost var sent: seq<Request>
    ghost var settled: seq<Settlement>
    ghost var notices: nat

    constructor (number: Pool.Conn, password: bool)
      ensures this.number == number && this.password == password
      ensures View() == Plugged(password) && !processing
    {
      this.number, this.password := number, password;
      phase, query, deferred, inbox, processing := Unplugged, None, [], [], false;
      startups, sent, settled, notices := 0, [], [], 0;
    }

    ghost function View(): Machine
      reads this
    {
      Machine(password, phase, query, deferred, inbox, startups, sent, settled, notices)
    }

    method Begin()
      modifies this`processing
      ensures processing && View() == old(View())
    {
      processing := true;
    }

    predicate InboxEmpty()
      reads this
      ensures InboxEmpty() <==> View().inbox == []
    {
      inbox == []
    }

    method TakeInbox() returns (event: Event)
      requires View().inbox != []
      modifies this`inbox
      ensures event == old(View()).inbox[0] && View() == old(View()).(inbox := old(View()).inbox[1..])
    {
      event := inbox[0];
      inbox := inbox[1..];
    }

    method OnExit(event: Event)
      modifies this
      ensures View() == Exit(old(View()), event) && processing == old(processing)
    {
      if phase.Query? && query.Some? {
        match event {
          case Recv(value) => settled := settled + [Answered(query.value, value)];
          case QueryError(cause) => settled := settled + [Failed(query.value, cause)];
          case _ =>
        }
        query := None;
      }
    }

    /** What the state entered does by itself; its callbacks are the pool's business. */
    method OnEntry(next: Phase, event: Event)
      modifies this
      ensures View() == Enter(old(View()), next, event) && processing == old(processing)
    {
      phase := next;
      match next
      case Authn =>
        if password {
          startups := startups + 1;
        } else {
          inbox := inbox + [Complete];
        }
      case Query =>
        if event.Execute? {
          query := Some(event.request);
          sent := sent + [event.request];
        } else {
          query := None;
        }
      case Terminated => notices := notices + 1;
      case _ =>
    }
  }

  function Numbers(s: seq<Connection>): seq<Pool.Conn> {
    seq(|s|, i requires 0 <= i < |s| => s[i].number)
  }

  ghost function NumberOf(c: Connection?): Option<Pool.Conn> {
    if c == null then None else Some(c.number)
  }

  class ConnectionPool {
    const poolSize: nat
    const password: bool
    var queue: seq<Request>
    var ready: seq<Connection>
    var connections: seq<Connection>
    var closed: bool
    var issued: nat
    var created: nat

    /**
     What has happened so far, every connection there has been, and what each was when it last
     had no event in progress.
     */
    ghost var log: Pool.Log
    ghost var all: seq<Connection>
    ghost var machines: seq<Machine>

    ghost function Snapshot(): Pool.State
      reads this
    {
      Pool.State(poolSize, password, queue, Numbers(ready), Numbers(connections), closed, machines, log)
    }

    ghost predicate Member(c: Connection)
      reads this`all
    {
      c.number < |all| && all[c.number] == c
    }

    ghost predicate Listed(s: seq<Connection>)
      reads this`all
      ensures Listed(s) ==> Pool.InRange(Numbers(s), |all|)
    {
      forall i :: 0 <= i < |s| ==> Member(s[i])
    }

    /** What does not depend on how far the connections are with their events. */
    ghost predicate Valid()
      reads this
      ensures Valid() ==> Pool.AtRest(Snapshot())
      ensures Valid() ==> Pool.InRange(Snapshot().connections, |machines|) && Pool.InRange(Snapshot().ready, |machines|)
    {
      && issued == |log.accepted| && created == |all|
      && |machines| == |all| && Pool.AtRest(Snapshot())
      && (forall i :: 0 <= i < |all| ==> all[i].number == i && all[i].password == password)
      && Listed(ready) && Listed(connections)
    }

    /** `c` is what the pool takes it for, unless it has an event in progress. */
    ghost predicate Tracks(c: Connection)
      requires c.number < |machines|
      reads this`machines, c
    {
      c.processing || c.View() == machines[c.number]
    }

    /** That holds of all connections, and at most `c` has an event in progress. */
    ghost predicate Calm(c: Connection?)
      reads this`all, this`machines, all
    {
      && |machines| == |all|
      && forall i :: 0 <= i < |all| ==>
           all[i].number == i && Tracks(all[i]) && (all[i].processing ==> all[i] == c)
    }

    // -------------------------------------------------------------- lists

    method FindConnection(c: Connection?) returns (i: nat)
      requires Valid() && (c != null ==> Member(c))
      ensures i <= |connections|
      ensures forall k :: 0 <= k < i ==> Some(Numbers(connections)[k]) != NumberOf(c)
      ensures i < |connections| ==> Some(Numbers(connections)[i]) == NumberOf(c)
    {
      hide Pool.AtRest, Pool.InRange;
      i := 0;
      while i < |connections| && connections[i] != c
        invariant 0 <= i <= |connections|
        invariant forall k :: 0 <= k < i ==> Some(Numbers(connections)[k]) != NumberOf(c)
      {
        i := i + 1;
      }
    }

    method EraseConnection(c: Connection?)
      requires Valid() && (c != null ==> Member(c))
      modifies this`connections
      ensures Valid() && Snapshot() == Pool.EraseConnection(old(Snapshot()), NumberOf(c))
    {
      hide Pool.Erase, Valid;
      var i := FindConnection(c);
      EraseAt(Numbers(connections), NumberOf(c), i);
      if i < |connections| {
        RemoveAt(i);
      }
    }

    method RemoveAt(i: nat)
      requires Valid() && i < |connections|
      modifies this`connections
      ensures Valid()
      ensures
        var before := old(Numbers(connections));
        Snapshot() == old(Snapshot()).(connections := before[..i] + before[i + 1..])
    {
      ghost var before := Numbers(connections);
      connections := connections[..i] + connections[i + 1..];
      assert Numbers(connections) == before[..i] + before[i + 1..];
    }

    method ClearQueue()
      requires Valid()
      modifies this`queue, this`log
      ensures Valid() && Snapshot() == Pool.ClearQueue(old(Snapshot()))
    {
      while queue != []
        invariant log.removed + queue == old(log.removed + queue)
        invariant log.cleared + queue == old(log.cleared + queue)
        invariant log == old(log).(removed := log.removed, cleared := log.cleared)
      {
        var request := queue[0];
        queue := queue[1..];
        log := log.(removed := log.removed + [request], cleared := log.cleared + [request]);
      }
    }

    // -------------------------------------------------------------- callbacks

    method ConnectionTerminated(c: Connection)
      requires Valid() && Member(c)
      modifies this`connections, this`log
      ensures Valid() && Snapshot() == Pool.ConnectionTerminated(old(Snapshot()), c.number)
    {
      EraseConnection(c);
      if connections == [] && closed {
        log := log.(closedCallbacks := log.closedCallbacks + 1);
      }
    }

    method ConnectionError(c: Connection?)
      requires Valid() && c == null
      modifies this`connections, this`queue, this`log
      ensures Valid() && Snapshot() == Pool.ConnectionFailed(old(Snapshot()))
    {
      EraseConnection(c);
      log := log.(errors := log.errors + 1);
      ClearQueue();
    }

    // -------------------------------------------------------------- calls

    /**
     An execute or a terminate: leaving a state, entering the next, and the callback. None of
     these brings a connection to rest.
     */
    method TakeCall(c: Connection, event: Event)
      requires Valid() && Member(c) && IsCall(event)
      modifies this`connections, this`log, c
      ensures Valid() && c.processing == old(c.processing)
      ensures c.View() == React(old(c.View()), event)
      ensures Snapshot() == AfterNotice(old(Snapshot()), c.number, c.View().notices > old(c.View().notices))
    {
      hide Valid, Pool.ConnectionTerminated;
      if c.phase.Terminated? || c.phase.Faulted? {
        return;
      }
      match Table(c.phase, event)
      case Defer => c.deferred := c.deferred + [event];
      case NoRow => c.phase := Faulted;
      case Go(next) =>
        c.OnExit(event);
        c.OnEntry(next, event);
        if next.Terminated? {
          ConnectionTerminated(c);
        }
    }

    /** The events put off are tried again in order. */
    method RetryDeferred(c: Connection)
      requires Valid() && Member(c) && AllCalls(c.View().deferred)
      modifies this`connections, this`log, c
      ensures Valid() && c.processing == old(c.processing)
      ensures c.View() == ReplayDeferred(old(c.View()))
      ensures c.View().notices >= old(c.View().notices)
      ensures c.View().notices > old(c.View().notices) ==> c.View().phase.Terminated?
      ensures old(c.View().phase.Terminated?) ==> c.View().notices == old(c.View().notices)
      ensures Snapshot() == AfterNotice(old(Snapshot()), c.number, c.View().notices > old(c.View().notices))
    {
      hide Valid, Pool.ConnectionTerminated, React;
      var events := c.deferred;
      c.deferred := [];
      for i := 0 to |events|
        invariant Valid() && c.processing == old(c.processing) && AllCalls(c.deferred)
        invariant Replay(c.View(), events[i..]) == ReplayDeferred(old(c.View()))
        invariant old(c.View().phase.Terminated?) ==>
                    c.View().phase.Terminated? && c.View().notices == old(c.View().notices)
        invariant c.View().notices >= old(c.View().notices)
        invariant c.View().notices > old(c.View().notices) ==> c.View().phase.Terminated?
        invariant Snapshot() == AfterNotice(old(Snapshot()), c.number, c.View().notices > old(c.View().notices))
      {
        assert events[i..][1..] == events[i + 1..];
        CallReacts(c.View(), events[i]);
        TakeCall(c, events[i]);
      }
    }

    /** The event in progress is over. */
    method Rest(c: Connection, ghost ignored: seq<Request>)
      requires Valid() && Member(c) && c.View().inbox == [] && AllCalls(c.View().deferred)
      modifies c`processing, this`machines, this`log
      ensures Valid() && Tracks(c) && !c.processing && c.View() == old(c.View())
      ensures Snapshot() == Recorded(old(Snapshot()), c.number, c.View(), ignored)
    {
      c.processing := false;
      machines := machines[c.number := c.View()];
      log := log.(lost := log.lost + ignored);
    }

    /** The transitions of one call, those of the events put off included. */
    method RunCall(c: Connection, event: Event)
      requires Valid() && Member(c) && IsCall(event)
      requires c.View().inbox == [] && AllCalls(c.View().deferred)
      modifies this`connections, this`log, c
      ensures Valid()
      ensures c.View() == Process(old(c.View()), event, [])
      ensures Snapshot() == AfterNotice(old(Snapshot()), c.number, c.View().notices > old(c.View().notices))
    {
      hide Valid, Process, Pool.ConnectionTerminated, React, ReplayDeferred;
      CallIs(c.View(), event);
      CallReacts(c.View(), event);
      if !c.phase.Terminated? && !c.phase.Faulted? {
        c.Begin();
        TakeCall(c, event);
        RetryDeferred(c);
      }
    }

    /** A call on a connection that has no event in progress. */
    method ProcessCall(c: Connection, event: Event)
      requires Valid() && Member(c) && Tracks(c) && IsCall(event) && !c.processing
      modifies this`connections, this`log, this`machines, c
      ensures Valid() && Tracks(c) && !c.processing
      ensures Snapshot() == old(Pool.Call(Snapshot(), c.number, event))
      ensures forall i :: 0 <= i < |all| && i != c.number ==> machines[i] == old(machines[i])
    {
      ghost var m := c.View();
      CallRecorded(Snapshot(), c.number, event);
      assert c.View() == machines[c.number] && c.View().inbox == [] && AllCalls(c.View().deferred);
      hide Valid, Tracks, Process, Pool.Call, Pool.AtRest, Pool.ConnectionTerminated, Connection.View;
      RunCall(c, event);
      ghost var ignored := Pool.Ignored(m, c.View(), [event]);
      Rest(c, ignored);
    }

    /** `execute` or `terminate`: put into the inbox of a connection in the middle of an event. */
    method Call(c: Connection, event: Event)
      requires Valid() && Member(c) && Tracks(c) && IsCall(event)
      modifies this`connections, this`log, this`machines, c
      ensures Valid() && Tracks(c) && c.processing == old(c.processing)
      ensures forall i :: 0 <= i < |all| && i != c.number ==> machines[i] == old(machines[i])
      ensures
        if c.processing then
          Snapshot() == old(Snapshot()) && c.View() == old(c.View()).(inbox := old(c.View()).inbox + [event])
        else
          Snapshot() == old(Pool.Call(Snapshot(), c.number, event))
    {
      hide Pool.Call;
      if c.processing {
        c.inbox := c.inbox + [event];
      } else {
        ProcessCall(c, event);
      }
    }

    /** The busy connection, if there is one, is as it was at `start`, and has `posted` in its inbox besides. */
    ghost predicate Posted(busy: Connection?, start: Machine, posted: seq<Event>)
      reads this`all, busy
    {
      busy != null ==>
        Member(busy) && busy.processing && busy.View() == start.(inbox := start.inbox + posted)
    }

    method TerminateOne(c: Connection, busy: Connection?, ghost start: Machine, ghost posted: seq<Event>)
      requires Valid() && Calm(busy) && Member(c) && Posted(busy, start, posted)
      modifies this`connections, this`log, this`machines, c
      ensures Valid() && Calm(busy)
      ensures Posted(busy, start, if c == busy then posted + [Terminate] else posted)
      ensures Snapshot() == if c == busy then Counted(old(Snapshot()))
                            else old(Pool.Call(Counted(Snapshot()), c.number, Terminate))
    {
      hide Pool.Call;
      log := log.(terminates := log.terminates + 1);
      Call(c, Terminate);
    }

    method TerminateEach(copy: seq<Connection>, busy: Connection?, ghost start: Machine)
      requires Valid() && Listed(copy) && Calm(busy) && Posted(busy, start, [])
      modifies this`connections, this`log, this`machines, all
      ensures Valid() && Calm(busy)
      ensures
        var (st, posts) := old(Pool.TerminateEach(Snapshot(), Numbers(copy), NumberOf(busy)));
        Snapshot() == st && Posted(busy, start, posts)
    {
      assert |machines| == |all|;
      hide Valid, Posted, Pool.AtRest, Pool.Call, Pool.TerminateEach, Calm, Following;
      ghost var numbers, n := Numbers(copy), NumberOf(busy);
      ghost var whole := Pool.TerminateEach(Snapshot(), numbers, n);
      ghost var posted: seq<Event> := [];
      FollowingNothing(whole);
      for i := 0 to |copy|
        invariant Valid() && Calm(busy) && Posted(busy, start, posted)
        invariant Pool.InRange(numbers[i..], |machines|)
        invariant Following(posted, Pool.TerminateEach(Snapshot(), numbers[i..], n)) == whole
      {
        assert numbers[i..][1..] == numbers[i + 1..];
        TerminateFirst(Snapshot(), numbers[i..], n, posted);
        TerminateOne(copy[i], busy, start, posted);
        if copy[i] == busy {
          posted := posted + [Terminate];
        }
      }
      TerminateNone(Snapshot(), n, posted);
    }

    /** The connection that is busy, if there is one, has its terminate put into its inbox. */
    method CloseConnections(busy: Connection?)
      requires Valid() && Calm(busy) && (busy != null ==> Member(busy) && busy.processing)
      modifies this`connections, this`log, this`machines, all
      ensures Valid() && Calm(busy)
      ensures
        var (st, posts) := old(Pool.CloseConnections(Snapshot(), NumberOf(busy)));
        && Snapshot() == st
        && (busy != null ==>
              busy.processing && busy.View() == old(busy.View()).(inbox := old(busy.View()).inbox + posts))
    {
      hide Pool.TerminateEach, Connection.View;
      ghost var start := if busy == null then Plugged(password) else busy.View();
      AppendNothing(start);
      TerminateEach(connections, busy, start);
      log := log.(closedCallbacks := log.closedCallbacks + 1);
    }

    // -------------------------------------------------------------- socket events

    /**
     `connection_ready`: `c` is in the middle of the event that brought it to rest, so what
     the pool asks of it goes to its inbox.
     */
    method ConnectionReady(c: Connection)
      requires Valid() && Member(c) && Calm(c) && c.processing
      modifies this`queue, this`ready, this`connections, this`log, this`machines, all
      ensures Valid() && Calm(c) && c.processing
      ensures
        var (st, posts) := old(Pool.ConnectionReady(Snapshot(), c.number));
        Snapshot() == st && c.View() == old(c.View()).(inbox := old(c.View()).inbox + posts)
    {
      hide Pool.CloseConnections, Pool.Call, Connection.View;
      if queue != [] {
        var request := queue[0];
        queue := queue[1..];
        log := log.(removed := log.removed + [request]);
        Call(c, Execute(request));
      } else if closed {
        CloseConnections(c);
      } else {
        ready := ready + [c];
        assert Numbers(ready) == old(Numbers(ready)) + [c.number];
        AppendNothing(c.View());
      }
    }

    /** Leaving a state, the action, entering the next, and the callbacks. */
    method Transition(c: Connection, next: Phase, event: Event)
      requires Valid() && Member(c) && Calm(c) && c.processing
      requires !Blocked(c.View().phase) && Table(c.View().phase, event) == Go(next) && !IsCall(event)
      modifies this`queue, this`ready, this`connections, this`log, this`machines, all
      ensures Valid() && Calm(c) && c.processing
      ensures c.View() == Step(old(c.View()), event, old(Posts(Snapshot(), c.number, c.View(), event)))
      ensures Snapshot() == AfterNotice(old(Reacted(Snapshot(), c.number, c.View(), event)), c.number,
                                        c.View().notices > old(c.View().notices))
    {
      hide Valid, Calm, Pool.ConnectionTerminated, Pool.ConnectionReady, Pool.ConnectionFailed, Connection.View;
      GoIs(c.View(), event, next, Posts(Snapshot(), c.number, c.View(), event));
      hide Step, Exit, Enter, Table, Arrives, Pool.Breaks;
      c.OnExit(event);
      if event.ConnectionError? {
        ConnectionError(null);
      }
      c.OnEntry(next, event);
      CalmKept(c);
      if next.Idle? {
        ConnectionReady(c);
      } else if next.Terminated? {
        ConnectionTerminated(c);
        CalmKept(c);
      }
    }

    /** What `c` does while it has an event in progress is nobody else's concern. */
    twostate lemma CalmKept(c: Connection)
      requires old(Calm(c)) && c.processing
      requires all == old(all) && machines == old(machines)
      requires forall i :: 0 <= i < |all| && all[i] != c ==> unchanged(all[i])
      ensures Calm(c)
    {
    }

    /** Any event. */
    method TakeEvent(c: Connection, event: Event)
      requires Valid() && Member(c) && Calm(c) && c.processing
      modifies this`queue, this`ready, this`connections, this`log, this`machines, all
      ensures Valid() && Calm(c) && c.processing
      ensures c.View() == Step(old(c.View()), event, old(Posts(Snapshot(), c.number, c.View(), event)))
      ensures Snapshot() == AfterNotice(old(Reacted(Snapshot(), c.number, c.View(), event)), c.number,
                                        c.View().notices > old(c.View().notices))
    {
      hide Valid, Pool.ConnectionTerminated, Pool.ConnectionReady;
      if IsCall(event) {
        TakeCall(c, event);
        return;
      }
      if c.phase.Terminated? || c.phase.Faulted? {
        return;
      }
      match Table(c.phase, event)
      case NoRow => c.phase := Faulted;
      case Go(next) => Transition(c, next, event);
    }

    /** One event, then the events put off. */
    method TakeAndRetry(c: Connection, event: Event)
      requires Valid() && Member(c) && Calm(c) && c.processing && AllCalls(c.View().deferred)
      modifies this`queue, this`ready, this`connections, this`log, this`machines, all
      ensures Valid() && Calm(c) && c.processing
      ensures old(Pool.AtRest(Snapshot()) && Pool.InRange(Snapshot().connections, |machines|))
      ensures Follows(old(Snapshot()), c.number, old(c.View()), event, c.View(), Snapshot())
    {
      hide Valid, Calm, Connection.View, Pool.ConnectionTerminated, Reacted, Posts, Step, ReplayDeferred;
      TakeEvent(c, event);
      label Taken:
      RetryDeferred(c);
      CalmKept@Taken(c);
    }

    /** The events raised meanwhile, until there are none. */
    method WorkOffInbox(c: Connection, ghost st: Pool.State, ghost event: Event)
      requires Valid() && Member(c) && Calm(c) && c.processing
      requires c.number < |st.machines| && Pool.AtRest(st) && Pool.InRange(st.connections, |st.machines|)
      requires Underway(st, c.number, event, c.View(), Snapshot())
      modifies this`queue, this`ready, this`connections, this`log, this`machines, all
      ensures Valid() && Calm(c) && c.processing
      ensures Underway(st, c.number, event, c.View(), Snapshot()) && c.View().inbox == []
    {
      hide Valid, Calm, Connection.View, Follows, Underway, Pool.AtRest, Pool.InRange;
      while !c.InboxEmpty()
        invariant Valid() && Calm(c) && c.processing
        invariant Underway(st, c.number, event, c.View(), Snapshot())
        decreases Rank(c.View().phase), |c.View().inbox|
      {
        ghost var v, now := c.View(), Snapshot();
        UnderwayTells(st, c.number, event, v, now);
        label Before:
        var next := c.TakeInbox();
        CalmKept@Before(c);
        TakeAndRetry(c, next);
        NextStep(st, c.number, event, v, now, c.View(), Snapshot());
      }
    }

    /** Every transition of one socket event, those of the events it raises included. */
    method RunEvent(c: Connection, event: Event)
      requires Valid() && Member(c) && Calm(c) && c.processing && !IsCall(event)
      requires c.View() == machines[c.number] && !Blocked(c.View().phase)
      modifies this`queue, this`ready, this`connections, this`log, this`machines, all
      ensures Valid() && Calm(c) && c.processing
      ensures c.View() == Process(old(c.View()), event, old(Raised(Snapshot(), c.number, event)))
      ensures Snapshot() == AfterNotice(old(Told(Snapshot(), c.number, event)), c.number,
                                        c.View().notices > old(c.View().notices))
    {
      ghost var st := Snapshot();
      assert AtStart(c.View());
      hide Valid, Calm, Connection.View, Follows, Underway, Told, Raised, AfterNotice;
      TakeAndRetry(c, event);
      FirstStep(st, c.number, event, c.View(), Snapshot());
      WorkOffInbox(c, st, event);
      UnderwayEnds(st, c.number, event, c.View(), Snapshot());
    }

    /** A socket event, while no other event is in progress. */
    method SocketEvent(c: Connection, event: Event)
      requires Valid() && Member(c) && Calm(null) && !IsCall(event)
      modifies this`queue, this`ready, this`connections, this`log, this`machines, all
      ensures Valid() && Calm(null)
      ensures Snapshot() == old(Pool.SocketEvent(Snapshot(), c.number, event))
    {
      hide Pool.SocketEvent;
      assert c.View() == machines[c.number];
      if c.phase.Terminated? || c.phase.Faulted? {
        SocketEventBlocked(Snapshot(), c.number, event);
      } else {
        ProcessEvent(c, event);
      }
    }

    /** `process_event` for an event from the socket. */
    method ProcessEvent(c: Connection, event: Event)
      requires Valid() && Member(c) && Calm(null) && !IsCall(event)
      requires c.View() == machines[c.number] && !Blocked(c.View().phase)
      modifies this`queue, this`ready, this`connections, this`log, this`machines, all
      ensures Valid() && Calm(null)
      ensures Snapshot() == old(Pool.SocketEvent(Snapshot(), c.number, event))
    {
      ghost var st, m := Snapshot(), c.View();
      assert AtStart(m);
      SocketEventRecorded(st, c.number, event);
      hide Valid, Calm, Told, Raised, AfterNotice, Process, Pool.SocketEvent, Pool.AtRest, Pool.InRange, Pool.Ignored;
      hide Connection.View, Recorded;
      c.Begin();
      BusyNow(c);
      RunEvent(c, event);
      RestAll(c, Pool.Ignored(m, c.View(), Raised(st, c.number, event)));
    }

    /** The same, where no other connection has an event in progress. */
    method RestAll(c: Connection, ghost ignored: seq<Request>)
      requires Valid() && Member(c) && Calm(c) && c.View().inbox == [] && AllCalls(c.View().deferred)
      modifies c`processing, this`machines, this`log
      ensures Valid() && Calm(null) && c.View() == old(c.View())
      ensures Snapshot() == Recorded(old(Snapshot()), c.number, c.View(), ignored)
    {
      Rest(c, ignored);
    }

    twostate lemma BusyNow(c: Connection)
      requires old(Calm(null)) && c.processing
      requires all == old(all) && machines == old(machines)
      requires forall i :: 0 <= i < |all| && all[i] != c ==> unchanged(all[i])
      ensures Calm(c)
    {
    }

    // -------------------------------------------------------------- the pool's actions

    method CreateNewConnection()
      requires Valid() && Calm(null)
      modifies this, all
      ensures Valid() && Calm(null) && Grown(old(all))
      ensures Snapshot() == old(Pool.CreateNewConnection(Snapshot()))
    {
      if !closed {
        var c := new Connection(created, password);
        Start(c);
      }
    }

    /** A new connection is told to connect before it is listed. */
    method Start(c: Connection)
      requires Valid() && Calm(null) && !closed && c !in all
      requires c.number == created && c.password == password && c.View() == Plugged(password) && !c.processing
      modifies this, all, c
      ensures Valid() && Calm(null) && all == old(all) + [c]
      ensures Snapshot() == old(Pool.CreateNewConnection(Snapshot()))
    {
      hide Valid, Calm, Pool.SocketEvent, Pool.CreateNewConnection, Connection.View, Pool.AtRest, Pool.InRange;
      ConnectIs(Snapshot());
      Enrol(c);
      SocketEvent(c, Connect);
      List(c);
    }

    method List(c: Connection)
      requires Valid() && Member(c)
      modifies this`connections
      ensures Valid() && Snapshot() == old(Snapshot()).(connections := old(Snapshot()).connections + [c.number])
    {
      connections := connections + [c];
      assert Numbers(connections) == old(Numbers(connections)) + [c.number];
    }

    method Enrol(c: Connection)
      requires Valid() && Calm(null) && c !in all
      requires c.number == created && c.password == password && c.View() == Plugged(password) && !c.processing
      modifies this`all, this`machines, this`created
      ensures Valid() && Calm(null) && Member(c) && all == old(all) + [c]
      ensures Snapshot() == Enrolled(old(Snapshot()))
    {
      all := all + [c];
      machines := machines + [Plugged(password)];
      created := created + 1;
    }

    /** No connection is forgotten, and those added are new. */
    twostate predicate Grown(before: seq<Connection>)
      reads this
    {
      before <= all && forall i :: |before| <= i < |all| ==> fresh(all[i])
    }

    method GetIdleConnection() returns (c: Connection?)
      requires Valid()
      modifies this`ready
      ensures Valid()
      ensures
        if closed || old(ready) == [] then c == null && ready == old(ready)
        else c == old(ready)[0] && Member(c) && Snapshot() == old(Snapshot()).(ready := old(Snapshot()).ready[1..])
    {
      c := null;
      if !closed && ready != [] {
        c := ready[0];
        ready := ready[1..];
        assert Numbers(ready) == old(Numbers(ready))[1..];
      }
    }

    /** A request: refused, handed to the connection that has been idle longest, or queued. */
    method GetConnection(bytes: string)
      requires Valid() && Calm(null)
      modifies this, all
      ensures Valid() && Calm(null) && Grown(old(all))
      ensures Snapshot() == old(Pool.GetConnection(Snapshot(), bytes))
    {
      hide Pool.Call, Pool.CreateNewConnection, Calm, Connection.View;
      if closed {
        log := log.(refused := log.refused + [bytes]);
        return;
      }
      var request := Request(issued, bytes);
      Accept(request);
      var c := GetIdleConnection();
      if c != null {
        Hand(c, request);
      } else {
        if |connections| < poolSize {
          CreateNewConnection();
        }
        queue := queue + [request];
      }
    }

    method Accept(request: Request)
      requires Valid()
      modifies this`issued, this`log
      ensures Valid()
      ensures Snapshot() == old(Snapshot()).(log := old(log).(accepted := old(log).accepted + [request]))
    {
      issued := issued + 1;
      log := log.(accepted := log.accepted + [request]);
    }

    method Hand(c: Connection, request: Request)
      requires Valid() && Calm(null) && Member(c)
      modifies this`connections, this`log, this`machines, c
      ensures Valid() && Calm(null)
      ensures
        var st := old(Snapshot());
        Snapshot() == Pool.Call(st.(log := st.log.(removed := st.log.removed + [request])), c.number, Execute(request))
    {
      hide Pool.Call;
      log := log.(removed := log.removed + [request]);
      Call(c, Execute(request));
    }

    method Close()
      requires Valid() && Calm(null)
      modifies this, all
      ensures Valid() && Calm(null) && all == old(all)
      ensures Snapshot() == old(Pool.Close(Snapshot()))
    {
      hide Pool.CloseConnections;
      if closed {
        return;
      }
      closed := true;
      if queue == [] {
        CloseConnections(null);
      }
    }

    constructor (poolSize: nat, password: bool)
      requires poolSize > 0
      ensures Valid() && Calm(null) && fresh(all)
      ensures Snapshot() == Pool.Create(poolSize, password)
    {
      this.poolSize, this.password := poolSize, password;
      queue, ready, connections, closed, issued, created := [], [], [], false, 0, 0;
      log, all, machines := Pool.EmptyLog, [], [];
      new;
      CreateNewConnection();
    }
  }
}
