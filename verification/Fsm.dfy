/**
 The state machine of one connection (connection_fsm.hpp).

 The transition table and the deferred events are data; `Process` is one call of
 `process_event`, run to completion: an event raised while another is being processed waits
 in the inbox, and after every event the deferred ones are tried again before the inbox.
 */
module Fsm {
  import opened Wrappers
  import opened Resp
  import opened Events

  /** `Faulted` stands for the failed assertion in `no_transition`. */
  datatype Phase = Unplugged | Connecting | Authn | Idle | Query | Terminated | Faulted

  datatype Row = Go(next: Phase) | Defer | NoRow

  function Table(phase: Phase, event: Event): Row {
    match phase
    case Unplugged =>
      (match event
       case Connect => Go(Connecting)
       case Terminate => Go(Terminated)
       case Execute(_) => Defer
       case _ => NoRow)
    case Connecting =>
      (match event
       case Complete => Go(Authn)
       case ConnectionError => Go(Terminated)
       case Terminate => Defer
       case Execute(_) => Defer
       case _ => NoRow)
    case Authn =>
      (match event
       case Complete => Go(Idle)
       case Recv(_) => Go(Idle)
       case ConnectionError => Go(Terminated)
       case Terminate => Defer
       case Execute(_) => Defer
       case _ => NoRow)
    case Idle =>
      (match event
       case Execute(_) => Go(Query)
       case Terminate => Go(Terminated)
       case ConnectionError => Go(Terminated)
       case _ => NoRow)
    case Query =>
      (match event
       case Recv(_) => Go(Idle)
       case QueryError(_) => Go(Idle)
       case ConnectionError => Go(Terminated)
       case Terminate => Defer
       case _ => NoRow)
    case Terminated => NoRow
    case Faulted => NoRow
  }

  /** A request whose callbacks have been given their result or their error. */
  datatype Settlement =
    | Answered(request: Request, value: Value)
    | Failed(request: Request, cause: Cause)

  /**
   `password`: whether there is a startup message to send, `startups`: how many have been
   written to the socket. `sent` and `settled` record the requests written and the callbacks
   run, `notices` the calls of `notify_terminated`.
   */
  datatype Machine = Machine(
    password: bool,
    phase: Phase,
    query: Option<Request>,
    deferred: seq<Event>,
    inbox: seq<Event>,
    startups: nat,
    sent: seq<Request>,
    settled: seq<Settlement>,
    notices: nat)

  function Plugged(password: bool): Machine {
    Machine(password, Unplugged, None, [], [], 0, [], [], 0)
  }

  /** A terminated machine ignores every event. */
  predicate Blocked(phase: Phase) {
    phase.Terminated? || phase.Faulted?
  }

  /** Leaving a state; only `query` does anything, and only for a reply or a query error. */
  function Exit(m: Machine, event: Event): Machine {
    if !m.phase.Query? || m.query.None? then m
    else
      match event
      case Recv(value) => m.(query := None, settled := m.settled + [Answered(m.query.value, value)])
      case QueryError(cause) => m.(query := None, settled := m.settled + [Failed(m.query.value, cause)])
      case _ => m.(query := None)
  }

  /** Entering a state. What the callback of `idle` raises is added by `Step`. */
  function Enter(m: Machine, next: Phase, event: Event): Machine {
    var entered := m.(phase := next);
    match next
    case Authn =>
      if m.password then entered.(startups := m.startups + 1)
      else entered.(inbox := m.inbox + [Complete])
    case Query =>
      if event.Execute? then entered.(query := Some(event.request), sent := m.sent + [event.request])
      else entered.(query := None)
    case Terminated => entered.(notices := m.notices + 1)
    case _ => entered
  }

  function React(m: Machine, event: Event): Machine {
    if Blocked(m.phase) then m
    else
      match Table(m.phase, event)
      case Defer => m.(deferred := m.deferred + [event])
      case NoRow => m.(phase := Faulted)
      case Go(next) => Enter(Exit(m, event), next, event)
  }

  /** What the owner of a connection may ask of it. */
  predicate IsCall(event: Event) {
    event.Execute? || event.Terminate?
  }

  predicate AllCalls(events: seq<Event>) {
    forall i :: 0 <= i < |events| ==> IsCall(events[i])
  }

  /** What can be waiting in an inbox. */
  predicate AllPosted(events: seq<Event>) {
    forall i :: 0 <= i < |events| ==> IsCall(events[i]) || events[i].Complete?
  }

  predicate Arrives(m: Machine, event: Event) {
    !Blocked(m.phase) && Table(m.phase, event) == Go(Idle)
  }

  function Rank(phase: Phase): nat {
    match phase
    case Unplugged => 6
    case Connecting => 5
    case Authn => 4
    case Idle => 3
    case Query => 2
    case Terminated => 1
    case Faulted => 1
  }

  /** Processing this event takes the machine through idle. */
  predicate ReachesIdle(m: Machine, event: Event) {
    Arrives(m, event) || (!Blocked(m.phase) && Table(m.phase, event) == Go(Authn) && !m.password)
  }

  /**
   One event; on arrival in `idle`, its callback raises `posts`. An event raised inside the
   machine or by its owner moves it forward or leaves the inbox as it is.
   */
  function Step(m: Machine, event: Event, posts: seq<Event>): (r: Machine)
    ensures IsCall(event) || event.Complete? ==>
              Rank(r.phase) < Rank(m.phase) || (r.phase == m.phase && r.inbox == m.inbox)
    ensures AllPosted(m.inbox) && AllCalls(posts) ==> AllPosted(r.inbox)
    ensures AllCalls(m.deferred) ==> AllCalls(r.deferred)
  {
    var r := React(m, event);
    if Arrives(m, event) then r.(inbox := r.inbox + posts) else r
  }

  /** Deferred events are tried again in order; some may be deferred again. */
  function Replay(m: Machine, events: seq<Event>): (r: Machine)
    requires AllCalls(events) && AllCalls(m.deferred)
    ensures r.inbox == m.inbox && Rank(r.phase) <= Rank(m.phase) && AllCalls(r.deferred)
    decreases |events|
  {
    if events == [] then m else Replay(React(m, events[0]), events[1..])
  }

  function ReplayDeferred(m: Machine): (r: Machine)
    requires AllCalls(m.deferred)
    ensures r.inbox == m.inbox && Rank(r.phase) <= Rank(m.phase) && AllCalls(r.deferred)
  {
    Replay(m.(deferred := []), m.deferred)
  }

  /** Works off the inbox. */
  function Settle(m: Machine, posts: seq<Event>): (r: Machine)
    requires AllPosted(m.inbox) && AllCalls(m.deferred) && AllCalls(posts)
    ensures r.inbox == [] && AllCalls(r.deferred)
    decreases Rank(m.phase), |m.inbox|
  {
    if m.inbox == [] then m
    else
      var next := Step(m.(inbox := m.inbox[1..]), m.inbox[0], posts);
      Settle(ReplayDeferred(next), posts)
  }

  /** `process_event`, called while no other event is being processed. */
  function Process(m: Machine, event: Event, posts: seq<Event>): (r: Machine)
    requires m.inbox == [] && AllCalls(m.deferred) && AllCalls(posts)
    ensures r.inbox == [] && AllCalls(r.deferred)
  {
    if Blocked(m.phase) then m
    else Settle(ReplayDeferred(Step(m, event, posts)), posts)
  }
}
