/**
 The theorems about runs, for the objects.
 */
module PoolSafety {
  import opened Events
  import opened Fsm
  import FsmTheorems
  import opened Pool
  import opened PoolInvariant
  import opened PoolRuns
  import opened PoolObjects
  import opened ReadLoop
  import Parser
  import Reads

  /** A new pool object is in a state that runs can reach, from where `Perform` goes on. */
  method Launch(poolSize: nat, password: bool) returns (pool: ConnectionPool)
    requires poolSize > 0
    ensures pool.Valid() && pool.Calm(null) && fresh(pool) && fresh(pool.all)
    ensures Reachable(pool.Snapshot()) && pool.Snapshot() == Create(poolSize, password)
  {
    hide Reachable, Create;
    pool := new ConnectionPool(poolSize, password);
    CreateReaches(poolSize, password);
  }

  lemma ApplyIs(st: State, a: Action)
    requires Reachable(st) && Allowed(st, a)
    ensures a.Socket? ==> a.conn < |st.machines| && !IsCall(a.event)
    ensures Apply(st, a) ==
            match a
            case Get(bytes) => GetConnection(st, bytes)
            case Socket(c, event) => SocketEvent(st, c, event)
            case Shut => Close(st)
  {
    hide Inv, Reachable, GetConnection, SocketEvent, Close;
  }

  /** Whatever is done to a pool object, it stays within the states that runs can reach. */
  method Perform(pool: ConnectionPool, target: Connection, a: Action)
    requires pool.Valid() && pool.Calm(null)
    requires Reachable(pool.Snapshot()) && Allowed(pool.Snapshot(), a)
    requires a.Socket? ==> pool.Member(target) && target.number == a.conn
    modifies pool, pool.all
    ensures pool.Valid() && pool.Calm(null)
    ensures Reachable(pool.Snapshot())
    ensures pool.Snapshot() == Apply(old(pool.Snapshot()), a)
  {
    hide Inv, Reachable, Allowed, Apply;
    hide Pool.GetConnection, Pool.SocketEvent, Pool.Close;
    hide ConnectionPool.Valid, ConnectionPool.Calm, ConnectionPool.Snapshot, ConnectionPool.Member, Connection.View;
    StepReaches(pool.Snapshot(), a);
    ApplyIs(pool.Snapshot(), a);
    match a
    case Get(bytes) => pool.GetConnection(bytes);
    case Socket(_, event) => pool.SocketEvent(target, event);
    case Shut => pool.Close();
  }

  /** What the pool becomes when connection `c` has these events, one after the other. */
  ghost function Afterwards(pool: ConnectionPool, c: Connection, events: seq<Event>): State
    requires pool.Valid() && pool.Member(c)
    reads pool
  {
    Reads.Play(pool.Snapshot(), c.number, events)
  }

  lemma AfterNothing(pool: ConnectionPool, c: Connection)
    requires pool.Valid() && pool.Member(c)
    ensures Afterwards(pool, c, []) == pool.Snapshot()
  {
    Reads.PlayNothing(pool.Snapshot(), c.number);
    hide ConnectionPool.Snapshot;
  }

  /** The first of the events a read raises. */
  method Raise(pool: ConnectionPool, c: Connection, event: Event, ghost later: seq<Event>)
    requires pool.Valid() && pool.Calm(null) && pool.Member(c) && (event.Recv? || event.QueryError?)
    modifies pool, pool.all
    ensures pool.Valid() && pool.Calm(null) && pool.Member(c) && pool.all == old(pool.all)
    ensures Afterwards(pool, c, later) == old(Afterwards(pool, c, [event] + later))
  {
    assert Ready(pool.Snapshot()) && c.number < |pool.machines|;
    hide Ready, Reads.Play, Pool.SocketEvent, Connection.View;
    hide ConnectionPool.Valid, ConnectionPool.Calm, ConnectionPool.Snapshot;
    Reads.PlayFirst(pool.Snapshot(), c.number, [event] + later);
    assert ([event] + later)[1..] == later;
    pool.SocketEvent(c, event);
  }

  /**
   A read, from its bytes to the objects: each reply found in it goes to the connection, with
   all the calls that causes, before the next is looked for.
   */
  method HandleRead(pool: ConnectionPool, c: Connection, buffer: Receiver, chunk: string)
    requires pool.Valid() && pool.Calm(null) && pool.Member(c)
    requires buffer.incoming == "" && |chunk| < Parser.SIZE_T_RANGE
    modifies pool, pool.all, buffer`incoming
    ensures pool.Valid() && pool.Calm(null) && pool.Member(c) && buffer.incoming == ""
    ensures pool.Snapshot() == old(Afterwards(pool, c, Deliver(chunk)))
  {
    hide Deliver, Afterwards;
    hide ConnectionPool.Valid, ConnectionPool.Calm, ConnectionPool.Snapshot, ConnectionPool.Member;
    DeliverNothing();
    buffer.incoming := chunk;
    var maxBytes := |chunk|;
    while maxBytes > 0
      invariant pool.Valid() && pool.Calm(null) && pool.Member(c) && pool.all == old(pool.all)
      invariant |buffer.incoming| == maxBytes < Parser.SIZE_T_RANGE
      invariant Afterwards(pool, c, Deliver(buffer.incoming)) == old(Afterwards(pool, c, Deliver(chunk)))
      decreases maxBytes
    {
      var event;
      event, maxBytes := buffer.TakeReply(maxBytes);
      Raise(pool, c, event, Deliver(buffer.incoming));
    }
    AfterNothing(pool, c);
  }

  lemma ListedByNumber(pool: ConnectionPool, s: seq<Connection>, c: Connection)
    requires pool.Valid() && pool.Listed(s) && pool.Member(c)
    ensures c in s <==> c.number in Numbers(s)
  {
    if c in s {
      var i :| 0 <= i < |s| && s[i] == c;
      assert Numbers(s)[i] == c.number;
    }
    if c.number in Numbers(s) {
      var i :| 0 <= i < |s| && Numbers(s)[i] == c.number;
      assert s[i] == c;
    }
  }

  /**
   Between two events of a run, for every connection object there has been: it has met no
   event its state has no row for; it is in the pool's list unless it has terminated; at
   rest it is listed as ready, and what is listed as ready is at rest or dead, so that
   `execute` never reaches a busy one; its requests were settled in the order of sending.
   */
  lemma ObjectsAreInOrder(pool: ConnectionPool, c: Connection)
    requires pool.Valid() && pool.Calm(null) && pool.Member(c) && Reachable(pool.Snapshot())
    ensures !c.processing && !c.phase.Faulted?
    ensures c in pool.connections <==> !c.phase.Terminated?
    ensures c.phase.Idle? ==> c in pool.ready
    ensures c in pool.ready ==> c.phase.Idle? || c.phase.Terminated?
    ensures FsmTheorems.Paired(c.View())
    ensures pool.queue != [] ==> pool.ready == [] && pool.connections != []
  {
    var st := pool.Snapshot();
    assert c.View() == st.machines[c.number];
    hide Inv, Reachable, FsmTheorems.Paired, Distinct;
    ListedByNumber(pool, pool.connections, c);
    ListedByNumber(pool, pool.ready, c);
    ReadyMeansIdle(st);
    ConnectionsAreLive(st);
    RepliesArePaired(st, c.number);
    if pool.queue != [] {
      NoRequestIsStranded(st, 0, Connect);
    }
  }
}
