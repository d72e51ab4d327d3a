/**
 What a request is told when its reply is an error, or no reply at all: from the bytes to the
 event, without the parser in between.
 */
module ErrorEvents {
  import opened Resp
  import opened Parser
  import opened ParserTheorems
  import opened Events
  import opened ReadLoop

  function StopCause(stop: Stop): Cause {
    match stop
    case Says(text) => Server(text)
    case Unknown(_) => Protocol(WrongIntroduction)
    case NoNumber(_, _) => Protocol(CountConversion)
    case BelowNil(_, _) => Protocol(CountRange)
    case BadEnd(_, _, _) => Protocol(BulkTerminator)
  }

  /** The cause is what is found at the end of the path, however deep inside arrays. */
  function PathCause(p: Path): Cause {
    match p
    case Here(stop) => StopCause(stop)
    case Inside(_, _, next) => PathCause(next)
  }

  lemma {:induction false} PathReaction(p: Path)
    requires WellFormedPath(p)
    ensures Reaction(PathOutcome(p)) == QueryError(PathCause(p))
    ensures PathOutcome(p).ServerError? <==> PathCause(p).Server?
    ensures PathCause(p).Server? ==> PathOutcome(p).consumed == |PathCause(p).message| + 3
  {
    if p.Inside? {
      PathReaction(p.next);
    }
  }

  /**
   A read that begins with an error raises its cause. An error of the server is left behind with
   the length of its own line; any other drops the rest of the read.
   */
  lemma ErrorIsRaised(p: Path, rest: string)
    requires WellFormedPath(p)
    ensures
      var bytes, cause := PrintPath(p) + rest, PathCause(p);
      && Deliver(bytes) != [] && Deliver(bytes)[0] == QueryError(cause)
      && (cause.Protocol? ==> Deliver(bytes) == [QueryError(cause)])
      && (cause.Server? ==>
            && |cause.message| + 3 <= |bytes|
            && Deliver(bytes) == [QueryError(cause)] + Deliver(bytes[|cause.message| + 3..]))
  {
    hide Parse, Deliver, WellFormedPath, PathOutcome, PathCause;
    var bytes := PrintPath(p) + rest;
    ParseOfPath(p, rest);
    PathReaction(p);
    PathPrintsSomething(p);
    DeliverFirst(bytes);
  }

  lemma PathPrintsSomething(p: Path)
    ensures PrintPath(p) != ""
  {
  }

  /** A read whose first reply is not complete raises "not enough data" and drops the read. */
  lemma UndecidedIsRaised(bytes: string)
    requires bytes != "" && Parse(bytes) == Incomplete
    ensures Deliver(bytes) == [QueryError(Protocol(NotEnoughData))]
  {
    hide Parse, Deliver;
    DeliverFirst(bytes);
  }

  /** Nothing else is raised as an error: the cause of the first event tells how the read begins. */
  lemma FirstErrorIff(bytes: string, cause: Cause)
    requires bytes != ""
    ensures
      Deliver(bytes) != [] && Deliver(bytes)[0] == QueryError(cause) <==>
        if cause == Protocol(NotEnoughData) then Parse(bytes) == Incomplete
        else exists p :: WellFormedPath(p) && PrintPath(p) <= bytes && PathCause(p) == cause
  {
    hide Parse, Deliver, WellFormedPath, PathOutcome, PathCause, PrintPath;
    DeliverFirst(bytes);
    if Parse(bytes) == Incomplete {
      UndecidedIsRaised(bytes);
    } else if Stops(Parse(bytes)) {
      var p := PathOfStop(bytes);
      PathReaction(p);
    }
    if exists p :: WellFormedPath(p) && PrintPath(p) <= bytes && PathCause(p) == cause {
      var p :| WellFormedPath(p) && PrintPath(p) <= bytes && PathCause(p) == cause;
      assert bytes == PrintPath(p) + bytes[|PrintPath(p)|..];
      ErrorIsRaised(p, bytes[|PrintPath(p)|..]);
      CauseIsNotCut(p);
    }
  }

  /** And a value is raised first exactly if the read begins with a reply for it. */
  lemma FirstValueIff(bytes: string, v: Value)
    requires bytes != ""
    ensures
      Deliver(bytes) != [] && Deliver(bytes)[0] == Recv(v) <==>
        exists consumed :: 0 <= consumed <= |bytes| && Derives(bytes[..consumed], v)
  {
    hide Parse, Deliver, Derives;
    DeliverFirst(bytes);
    var r := Parse(bytes);
    if r.Positive? {
      ParserMeetsGrammar(bytes, r.result, r.consumed);
    }
    if exists consumed :: 0 <= consumed <= |bytes| && Derives(bytes[..consumed], v) {
      var consumed :| 0 <= consumed <= |bytes| && Derives(bytes[..consumed], v);
      ParserMeetsGrammar(bytes, v, consumed);
    }
  }

  lemma {:induction false} CauseIsNotCut(p: Path)
    ensures PathCause(p) != Protocol(NotEnoughData)
  {
    if p.Inside? {
      CauseIsNotCut(p.next);
    }
  }
}
