/**
 What one event does to the pool, transition by transition.

 `Pool.SocketEvent` and `Pool.Call` give the outcome of an event as a whole. In between, the
 machine takes one event after another and calls the pool back from some of them. Here the
 steps are put together, for the objects of `PoolObjects` to follow.
 */
module PoolEvents {
  import opened Wrappers
  import opened Events
  import opened Fsm
  import FsmTheorems
  import Pool

  lemma {:induction false} EraseAt(s: seq<Pool.Conn>, n: Option<Pool.Conn>, i: nat)
    requires i <= |s| && (forall k :: 0 <= k < i ==> Some(s[k]) != n)
    requires i < |s| ==> Some(s[i]) == n
    ensures Pool.Erase(s, n) == if i < |s| then s[..i] + s[i + 1..] else s
  {
    if i > 0 {
      EraseAt(s[1..], n, i - 1);
      assert s == [s[0]] + s[1..];
    }
  }

  /** The pool before or after it has been told that connection `n` has terminated. */
  function AfterNotice(st: Pool.State, n: Pool.Conn, told: bool): Pool.State {
    if told then Pool.ConnectionTerminated(st, n) else st
  }

  /** What the pool raises in connection `n` should this event bring it to rest. */
  function Posts(st: Pool.State, n: Pool.Conn, m: Machine, event: Event): (posts: seq<Event>)
    requires Pool.AtRest(st) && Pool.InRange(st.connections, |st.machines|)
    ensures AllCalls(posts)
  {
    if Arrives(m, event) then Pool.ConnectionReady(st, n).1 else []
  }

  /** The pool after the callbacks of one transition, before any notice of a termination. */
  function Reacted(st: Pool.State, n: Pool.Conn, m: Machine, event: Event): Pool.State
    requires Pool.AtRest(st) && Pool.InRange(st.connections, |st.machines|)
  {
    if Arrives(m, event) then Pool.ConnectionReady(st, n).0
    else if Pool.Breaks(m, event) then Pool.ConnectionFailed(st)
    else st
  }

  lemma GoIs(m: Machine, event: Event, next: Phase, posts: seq<Event>)
    requires !Blocked(m.phase) && Table(m.phase, event) == Go(next) && !IsCall(event)
    ensures Arrives(m, event) <==> next.Idle?
    ensures Pool.Breaks(m, event) <==> event.ConnectionError?
    ensures
      var e := Enter(Exit(m, event), next, event);
      && Step(m, event, posts) == (if next.Idle? then e.(inbox := e.inbox + posts) else e)
      && (e.notices > m.notices <==> next.Terminated?)
  {
  }

  lemma AppendNothing(m: Machine)
    ensures m == m.(inbox := m.inbox + [])
  {
    assert m.inbox + [] == m.inbox;
  }

  /** What the pool raises, and what it becomes, if event `event` of connection `n` brings it to rest at last. */
  function Raised(st: Pool.State, n: Pool.Conn, event: Event): (posts: seq<Event>)
    requires n < |st.machines| && Pool.AtRest(st) && Pool.InRange(st.connections, |st.machines|)
    ensures AllCalls(posts)
  {
    if ReachesIdle(st.machines[n], event) then Pool.ConnectionReady(st, n).1 else []
  }

  function Told(st: Pool.State, n: Pool.Conn, event: Event): Pool.State
    requires n < |st.machines| && Pool.AtRest(st) && Pool.InRange(st.connections, |st.machines|)
  {
    if ReachesIdle(st.machines[n], event) then Pool.ConnectionReady(st, n).0
    else if Pool.Breaks(st.machines[n], event) then Pool.ConnectionFailed(st)
    else st
  }

  predicate AtStart(m: Machine) {
    m.inbox == [] && AllCalls(m.deferred)
  }

  /** Still on the way through `authn`, which completes by itself; nothing has reached the pool. */
  predicate Pending(st: Pool.State, n: Pool.Conn, event: Event, v: Machine, now: Pool.State)
    requires n < |st.machines|
  {
    && ReachesIdle(st.machines[n], event)
    && v.phase.Authn? && v.inbox == [Complete] && v.notices == st.machines[n].notices
    && now == st
  }

  /** Past the point where the connection could come to rest; the pool has been told. */
  predicate Past(st: Pool.State, n: Pool.Conn, event: Event, v: Machine, now: Pool.State)
    requires n < |st.machines| && Pool.AtRest(st) && Pool.InRange(st.connections, |st.machines|)
  {
    && (v.inbox == [] || Rank(v.phase) <= Rank(Idle))
    && (v.notices > st.machines[n].notices ==> v.phase.Terminated?)
    && v.notices >= st.machines[n].notices
    && now == AfterNotice(Told(st, n, event), n, v.notices > st.machines[n].notices)
  }

  /** Working off the inbox of `v` will have processed `event`. */
  predicate Computes(m: Machine, event: Event, raised: seq<Event>, v: Machine)
    requires AllCalls(raised)
  {
    && AllPosted(v.inbox) && AllCalls(v.deferred) && AtStart(m)
    && Settle(v, raised) == Process(m, event, raised)
  }

  /** Where event `event` of connection `n` stands when its machine is `v` and the pool is `now`. */
  predicate Underway(st: Pool.State, n: Pool.Conn, event: Event, v: Machine, now: Pool.State)
    requires n < |st.machines| && Pool.AtRest(st) && Pool.InRange(st.connections, |st.machines|)
  {
    && Computes(st.machines[n], event, Raised(st, n, event), v)
    && (Pending(st, n, event, v, now) || Past(st, n, event, v, now))
  }

  /** The pool and the machine after one more event, the deferred ones tried again. */
  predicate Follows(st: Pool.State, n: Pool.Conn, v: Machine, event: Event, v': Machine, st': Pool.State)
    requires Pool.AtRest(st) && Pool.InRange(st.connections, |st.machines|)
  {
    var s := Step(v, event, Posts(st, n, v, event));
    && AllCalls(s.deferred) && v' == ReplayDeferred(s)
    && st' == AfterNotice(AfterNotice(Reacted(st, n, v, event), n, s.notices > v.notices), n, v'.notices > s.notices)
  }

  /** What one event and the retries after it can do to the count of notices. */
  lemma FollowsCounts(st: Pool.State, n: Pool.Conn, v: Machine, event: Event, v': Machine, st': Pool.State)
    requires Pool.AtRest(st) && Pool.InRange(st.connections, |st.machines|)
    requires Follows(st, n, v, event, v', st') && AllCalls(v.deferred)
    ensures v'.notices >= v.notices && (v'.notices > v.notices ==> v'.phase.Terminated?)
    ensures st' == AfterNotice(Reacted(st, n, v, event), n, v'.notices > v.notices)
    ensures v.phase.Terminated? ==> v'.phase.Terminated? && v'.notices == v.notices
  {
    hide Reacted, Pool.ConnectionTerminated;
    var s := Step(v, event, Posts(st, n, v, event));
    StepCounts(v, event, Posts(st, n, v, event));
    hide Step;
    ReplayCounts(s.(deferred := []), s.deferred);
    hide Replay;
  }

  lemma StepCounts(m: Machine, event: Event, posts: seq<Event>)
    ensures
      var r := Step(m, event, posts);
      && r.notices >= m.notices && (r.notices > m.notices ==> r.phase.Terminated?)
      && (m.phase.Terminated? ==> r == m)
  {
  }

  lemma {:induction false} ReplayCounts(m: Machine, events: seq<Event>)
    requires AllCalls(events) && AllCalls(m.deferred)
    ensures
      var r := Replay(m, events);
      && r.notices >= m.notices && (r.notices > m.notices ==> r.phase.Terminated?)
      && (m.phase.Terminated? ==> r.phase.Terminated? && r.notices == m.notices)
    decreases |events|
  {
    hide React;
    if events != [] {
      CallReacts(m, events[0]);
      ReplayCounts(React(m, events[0]), events[1..]);
    }
  }

  /** What the callback raises matters only where it is called. */
  lemma StepWith(m: Machine, event: Event, posts: seq<Event>, others: seq<Event>)
    requires Arrives(m, event) ==> posts == others
    ensures Step(m, event, posts) == Step(m, event, others)
  {
    hide React;
  }

  lemma FirstStep(st: Pool.State, n: Pool.Conn, event: Event, v': Machine, st': Pool.State)
    requires n < |st.machines| && Pool.AtRest(st) && Pool.InRange(st.connections, |st.machines|)
    requires AtStart(st.machines[n]) && !Blocked(st.machines[n].phase) && !IsCall(event)
    requires Follows(st, n, st.machines[n], event, v', st')
    ensures Underway(st, n, event, v', st')
  {
    var m, raised := st.machines[n], Raised(st, n, event);
    FollowsCounts(st, n, m, event, v', st');
    StepWith(m, event, Posts(st, n, m, event), raised);
    FirstTransition(m, event, raised);
    hide Pool.ConnectionReady, Pool.ConnectionFailed, Pool.ConnectionTerminated, Step, Settle;
    if ReachesIdle(m, event) && !Arrives(m, event) {
      FsmTheorems.StillHeld(Step(m, event, raised));
    }
    hide ReplayDeferred;
  }

  lemma FirstTransition(m: Machine, event: Event, posts: seq<Event>)
    requires AtStart(m) && !Blocked(m.phase) && !IsCall(event) && AllCalls(posts)
    ensures
      var s := Step(m, event, posts);
      && AllPosted(s.inbox)
      && (Arrives(m, event) ==> s.phase.Idle?)
      && (ReachesIdle(m, event) && !Arrives(m, event) ==>
            s == m.(phase := Authn, inbox := [Complete]) && !event.ConnectionError?)
      && (!ReachesIdle(m, event) ==> s.inbox == [])
  {
  }

  /** An event from the inbox does not bring a connection to rest once it is past the startup. */
  lemma NoArrival(m: Machine, event: Event)
    requires IsCall(event) || event.Complete?
    ensures Rank(m.phase) <= Rank(Idle) ==> !Arrives(m, event)
    ensures !Pool.Breaks(m, event)
    ensures m.phase.Authn? && event.Complete? ==> Arrives(m, event)
  {
  }

  lemma NextComputes(m: Machine, event: Event, raised: seq<Event>, v: Machine, posts: seq<Event>)
    requires AllCalls(raised) && Computes(m, event, raised, v) && v.inbox != []
    requires Arrives(v.(inbox := v.inbox[1..]), v.inbox[0]) ==> posts == raised
    ensures IsCall(v.inbox[0]) || v.inbox[0].Complete?
    ensures
      var s := Step(v.(inbox := v.inbox[1..]), v.inbox[0], posts);
      && AllCalls(s.deferred)
      && Computes(m, event, raised, ReplayDeferred(s))
      && (Rank(ReplayDeferred(s).phase) < Rank(v.phase) ||
          (Rank(ReplayDeferred(s).phase) == Rank(v.phase) && |ReplayDeferred(s).inbox| < |v.inbox|))
  {
    var u, e := v.(inbox := v.inbox[1..]), v.inbox[0];
    assert IsCall(e) || e.Complete?;
    StepWith(u, e, posts, raised);
    hide Step, Arrives, Process, ReplayDeferred;
  }

  lemma NextPast(st: Pool.State, n: Pool.Conn, event: Event, u: Machine, e: Event, now: Pool.State,
                 v': Machine, now': Pool.State)
    requires n < |st.machines| && Pool.AtRest(st) && Pool.InRange(st.connections, |st.machines|)
    requires Pool.AtRest(now) && Pool.InRange(now.connections, |now.machines|)
    requires (IsCall(e) || e.Complete?) && AllCalls(u.deferred)
    requires Pending(st, n, event, u.(inbox := [e]), now) || Past(st, n, event, u.(inbox := [e]), now)
    requires Follows(now, n, u, e, v', now')
    ensures Past(st, n, event, v', now')
  {
    FollowsCounts(now, n, u, e, v', now');
    NoArrival(u, e);
    FollowsRank(now, n, u, e, v', now');
    hide Pool.ConnectionReady, Pool.ConnectionFailed, Pool.ConnectionTerminated, Pool.Breaks;
    hide ReachesIdle, Follows, Arrives;
  }

  lemma FollowsRank(st: Pool.State, n: Pool.Conn, v: Machine, event: Event, v': Machine, st': Pool.State)
    requires Pool.AtRest(st) && Pool.InRange(st.connections, |st.machines|)
    requires Follows(st, n, v, event, v', st') && (IsCall(event) || event.Complete?) && AllCalls(v.deferred)
    ensures Rank(v'.phase) <= Rank(v.phase)
    ensures Arrives(v, event) ==> Rank(v'.phase) <= Rank(Idle)
  {
    var posts := Posts(st, n, v, event);
    assert Arrives(v, event) ==> Step(v, event, posts).phase.Idle?;
    hide Step, ReplayDeferred, Arrives, AfterNotice;
  }

  lemma NextStep(st: Pool.State, n: Pool.Conn, event: Event, v: Machine, now: Pool.State, v': Machine, now': Pool.State)
    requires n < |st.machines| && Pool.AtRest(st) && Pool.InRange(st.connections, |st.machines|)
    requires Pool.AtRest(now) && Pool.InRange(now.connections, |now.machines|)
    requires Underway(st, n, event, v, now) && v.inbox != []
    requires Follows(now, n, v.(inbox := v.inbox[1..]), v.inbox[0], v', now')
    ensures Underway(st, n, event, v', now')
    ensures Rank(v'.phase) < Rank(v.phase) || (Rank(v'.phase) == Rank(v.phase) && |v'.inbox| < |v.inbox|)
  {
    var u, e := v.(inbox := v.inbox[1..]), v.inbox[0];
    assert Arrives(u, e) ==> Pending(st, n, event, v, now) by {
      NoArrival(u, e);
    }
    hide Pool.ConnectionReady, Told, AfterNotice, Step, ReplayDeferred, Computes, Arrives, ReachesIdle, Reacted;
    NextComputes(st.machines[n], event, Raised(st, n, event), v, Posts(now, n, u, e));
    NextPast(st, n, event, u, e, now, v', now');
  }

  lemma UnderwayTells(st: Pool.State, n: Pool.Conn, event: Event, v: Machine, now: Pool.State)
    requires n < |st.machines| && Pool.AtRest(st) && Pool.InRange(st.connections, |st.machines|)
    requires Underway(st, n, event, v, now)
    ensures AllPosted(v.inbox) && AllCalls(v.deferred)
  {
  }

  lemma UnderwayEnds(st: Pool.State, n: Pool.Conn, event: Event, v: Machine, now: Pool.State)
    requires n < |st.machines| && Pool.AtRest(st) && Pool.InRange(st.connections, |st.machines|)
    requires Underway(st, n, event, v, now) && v.inbox == []
    ensures v == Process(st.machines[n], event, Raised(st, n, event))
    ensures now == AfterNotice(Told(st, n, event), n, v.notices > st.machines[n].notices)
  {
  }

  /** The state that an event leaves once the machine it has changed is put on record. */
  function Recorded(st: Pool.State, n: Pool.Conn, m: Machine, ignored: seq<Request>): Pool.State
    requires n < |st.machines|
  {
    st.(machines := st.machines[n := m], log := st.log.(lost := st.log.lost + ignored))
  }

  lemma UpdateIs(st: Pool.State, n: Pool.Conn, m: Machine, ignored: seq<Request>)
    requires n < |st.machines| && Pool.AtRest(st) && m.inbox == [] && AllCalls(m.deferred)
    ensures
      var told := AfterNotice(st, n, m.notices > st.machines[n].notices);
      && told.machines == st.machines
      && Pool.Update(st, n, m, ignored) == Recorded(told, n, m, ignored)
  {
    hide Pool.Erase, Pool.AtRest;
  }

  lemma CallIs(m: Machine, event: Event)
    requires m.inbox == [] && AllCalls(m.deferred) && IsCall(event)
    ensures AllCalls(React(m, event).deferred)
    ensures Process(m, event, []) == if Blocked(m.phase) then m else ReplayDeferred(React(m, event))
  {
    CallReacts(m, event);
    assert Step(m, event, []) == React(m, event);
    hide React, ReplayDeferred;
  }

  lemma CallRecorded(st: Pool.State, n: Pool.Conn, event: Event)
    requires n < |st.machines| && Pool.AtRest(st) && IsCall(event)
    ensures
      var m := st.machines[n];
      var m' := Process(m, event, []);
      Pool.Call(st, n, event) ==
      Recorded(AfterNotice(st, n, m'.notices > m.notices), n, m', Pool.Ignored(m, m', [event]))
  {
    hide Process, Pool.Update, Pool.ConnectionTerminated, Pool.Ignored;
    var m := st.machines[n];
    assert m.inbox == [] && AllCalls(m.deferred);
    UpdateIs(st, n, Process(m, event, []), Pool.Ignored(m, Process(m, event, []), [event]));
  }

  lemma CallUntouched(st: Pool.State, c: Pool.Conn, event: Event, n: Pool.Conn)
    requires c < |st.machines| && n < |st.machines| && c != n && Pool.AtRest(st) && IsCall(event)
    ensures Pool.Call(st, c, event).machines[n] == st.machines[n]
  {
    hide Process, Pool.AtRest, Pool.Ignored;
  }

  /** Closing the pool from inside connection `n` leaves its machine to itself. */
  lemma {:induction false} BusyUntouched(st: Pool.State, copy: seq<Pool.Conn>, n: Pool.Conn)
    requires Pool.AtRest(st) && Pool.InRange(copy, |st.machines|) && n < |st.machines|
    ensures Pool.TerminateEach(st, copy, Some(n)).0.machines[n] == st.machines[n]
    decreases |copy|
  {
    hide Pool.Call;
    if copy != [] {
      var counted := Counted(st);
      if copy[0] == n {
        BusyUntouched(counted, copy[1..], n);
      } else {
        CallUntouched(counted, copy[0], Terminate, n);
        BusyUntouched(Pool.Call(counted, copy[0], Terminate), copy[1..], n);
      }
    }
  }

  lemma ToldUntouched(st: Pool.State, n: Pool.Conn, event: Event)
    requires n < |st.machines| && Pool.AtRest(st) && Pool.InRange(st.connections, |st.machines|)
    ensures
      var told := Told(st, n, event);
      Pool.AtRest(told) && |told.machines| == |st.machines| && told.machines[n] == st.machines[n]
  {
    BusyUntouched(st, st.connections, n);
    hide Pool.TerminateEach, ReachesIdle, Pool.Breaks;
  }

  lemma SocketEventRecorded(st: Pool.State, n: Pool.Conn, event: Event)
    requires n < |st.machines| && Pool.AtRest(st) && Pool.InRange(st.connections, |st.machines|)
    requires AtStart(st.machines[n])
    ensures
      var m := st.machines[n];
      var raised := Raised(st, n, event);
      var m' := Process(m, event, raised);
      && |Told(st, n, event).machines| == |st.machines|
      && Pool.SocketEvent(st, n, event) ==
         Recorded(AfterNotice(Told(st, n, event), n, m'.notices > m.notices), n, m', Pool.Ignored(m, m', raised))
  {
    ToldUntouched(st, n, event);
    var m, raised := st.machines[n], Raised(st, n, event);
    hide Process, Pool.Update, Pool.ConnectionTerminated, Pool.Ignored, Pool.ConnectionReady;
    hide Pool.ConnectionFailed, Pool.AtRest;
    UpdateIs(Told(st, n, event), n, Process(m, event, raised), Pool.Ignored(m, Process(m, event, raised), raised));
  }

  lemma SocketEventBlocked(st: Pool.State, n: Pool.Conn, event: Event)
    requires n < |st.machines| && Pool.AtRest(st) && Pool.InRange(st.connections, |st.machines|)
    requires Blocked(st.machines[n].phase)
    ensures Pool.SocketEvent(st, n, event) == st
  {
    assert st.machines[n := st.machines[n]] == st.machines;
    assert st.log.lost + [] == st.log.lost;
  }

  /** A connection that exists, but has not been told to connect. */
  function Enrolled(st: Pool.State): Pool.State {
    st.(machines := st.machines + [Plugged(st.password)])
  }

  lemma ConnectIs(st: Pool.State)
    requires Pool.AtRest(st) && Pool.InRange(st.connections, |st.machines|) && !st.closed
    ensures Pool.AtRest(Enrolled(st)) && Pool.InRange(Enrolled(st).connections, |st.machines| + 1)
    ensures
      var connecting := Pool.SocketEvent(Enrolled(st), |st.machines|, Connect);
      Pool.CreateNewConnection(st) == connecting.(connections := connecting.connections + [|st.machines|])
  {
    var started := Process(Plugged(st.password), Connect, []);
    assert started.notices == 0;
    hide Process;
    assert (st.machines + [Plugged(st.password)])[|st.machines| := started] == st.machines + [started];
    assert st.log.lost + [] == st.log.lost;
  }

  function Counted(st: Pool.State): Pool.State {
    st.(log := st.log.(terminates := st.log.terminates + 1))
  }

  /** The outcome of closing the rest of a list, after what has been posted already. */
  function Following(posted: seq<Event>, rest: (Pool.State, seq<Event>)): (Pool.State, seq<Event>) {
    (rest.0, posted + rest.1)
  }

  lemma TerminateNone(st: Pool.State, busy: Option<Pool.Conn>, posted: seq<Event>)
    requires Pool.AtRest(st)
    ensures Following(posted, Pool.TerminateEach(st, [], busy)) == (st, posted)
  {
    assert posted + [] == posted;
  }

  lemma FollowingNothing(rest: (Pool.State, seq<Event>))
    ensures Following([], rest) == rest
  {
    assert [] + rest.1 == rest.1;
  }

  lemma TerminateFirst(st: Pool.State, copy: seq<Pool.Conn>, busy: Option<Pool.Conn>, posted: seq<Event>)
    requires Pool.AtRest(st) && Pool.InRange(copy, |st.machines|) && copy != []
    ensures Pool.AtRest(Counted(st)) && Pool.InRange(copy[1..], |st.machines|)
    ensures
      Following(posted, Pool.TerminateEach(st, copy, busy)) ==
      if busy == Some(copy[0]) then
        Following(posted + [Terminate], Pool.TerminateEach(Counted(st), copy[1..], busy))
      else
        Following(posted, Pool.TerminateEach(Pool.Call(Counted(st), copy[0], Terminate), copy[1..], busy))
  {
    hide Pool.Call;
    if busy == Some(copy[0]) {
      var more := Pool.TerminateEach(Counted(st), copy[1..], busy).1;
      assert posted + ([Terminate] + more) == posted + [Terminate] + more;
    }
  }


  /** A termination is notified when it happens; nothing happens after it. */
  lemma CallReacts(m: Machine, event: Event)
    requires IsCall(event) && AllCalls(m.deferred)
    ensures
      var r := React(m, event);
      && AllCalls(r.deferred) && r.inbox == m.inbox && r.notices >= m.notices
      && (r.notices > m.notices ==> r.phase.Terminated?)
      && (m.phase.Terminated? ==> r == m)
  {
  }
}
