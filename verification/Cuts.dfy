/**
 Replies and errors cut short: what the parser and the read loop make of a part of them.
 */
module Cuts {
  import opened Resp
  import opened Parser
  import opened Grammar
  import opened Streaming
  import opened ParserTheorems
  import opened Events
  import opened ReadLoop
  import opened ReadLoopTheorems

  // ---------------------------------------------------------------- replies

  /** Until its last byte has arrived, a reply that is not an array holding an error is "not enough data". */
  lemma ReplyNeedsItsBytes(t: Reply, k: nat)
    requires WellFormed(t) && Framed(t) && k < |Print(t)|
    ensures Parse(Print(t)[..k]) == Incomplete
  {
    hide Parse, Print, WellFormed;
    var part := Print(t)[..k];
    if Parse(part) != Incomplete {
      VerdictStable(part, Print(t)[k..]);
      ParseOfPrint(t, "");
      assert part + Print(t)[k..] == Print(t) && Print(t) + "" == Print(t);
      FramedLength(t);
    }
  }

  lemma FramedLength(t: Reply)
    requires WellFormed(t) && Framed(t)
    ensures !Outcome(t).ProtocolError? && Outcome(t).consumed == |Print(t)|
  {
    hide Print, Eval;
    ErrorFitsInReply(t);
  }

  // ---------------------------------------------------------------- errors

  lemma TerminatorIsThere(s: string)
    requires FindCrlf(s) < |s|
    ensures
      var i := FindCrlf(s);
      i + 1 < |s| && s[i] == '\r' && s[i + 1] == '\n'
  {
    FindCrlfFinds(s);
    hide FindCrlf;
  }

  lemma PartOfLine(line: string, k: nat)
    requires IsLine(line) && k < |line| + 2
    ensures FindCrlf((line + CRLF)[..k]) == k
  {
    hide FindCrlf;
    var part := (line + CRLF)[..k];
    forall i | 0 <= i < k - 1
      ensures !(part[i] == '\r' && part[i + 1] == '\n')
    {
      assert (line + CRLF)[i] == part[i] && (line + CRLF)[i + 1] == part[i + 1];
    }
    if FindCrlf(part) < k {
      TerminatorIsThere(part);
    }
  }

  lemma PartIsIncomplete(intro: char, line: string, k: nat)
    requires IsLine(line) && intro in "+-:$*" && k < |line| + 3
    ensures Parse(([intro] + (line + CRLF))[..k]) == Incomplete
  {
    hide FindCrlf, ParseElements;
    if k > 0 {
      PartOfLine(line, k - 1);
      var s := ([intro] + (line + CRLF))[..k];
      assert s[1..] == (line + CRLF)[..k - 1];
    }
  }

  lemma ShortBulk(digits: string, count: nat, rest: string)
    requires Denotes(digits, count) && |rest| < count + 2
    ensures Parse("$" + (digits + CRLF) + rest) == Incomplete
  {
    hide Parse, ParseInt, IsNumber, NumberOf;
    ParseCounted('$', digits, rest);
  }

  lemma CutInTwo(head: string, body: string, k: nat)
    requires k <= |head| + |body|
    ensures (head + body)[..k] == if k < |head| then head[..k] else head + body[..k - |head|]
  {
  }

  lemma StopNeedsItsBytes(stop: Stop, k: nat)
    requires WellFormedStop(stop) && k < |PrintStop(stop)|
    ensures Parse(PrintStop(stop)[..k]) == Incomplete
  {
    hide Parse, IsNumber, NumberOf;
    match stop
    case Says(text) => PartIsIncomplete('-', text, k);
    case Unknown(_) => NothingIsIncomplete();
    case NoNumber(intro, line) => PartIsIncomplete(intro, line, k);
    case BelowNil(intro, digits) =>
      CastIsLine(digits);
      PartIsIncomplete(intro, digits, k);
    case BadEnd(digits, payload, end) =>
      var head := "$" + (digits + CRLF);
      CutInTwo(head, payload + end, k);
      if k < |head| {
        CastIsLine(digits);
        PartIsIncomplete('$', digits, k);
      } else {
        ShortBulk(digits, |payload|, (payload + end)[..k - |head|]);
      }
  }

  lemma NothingIsIncomplete()
    ensures Parse("") == Incomplete
  {
  }

  /** The exact bytes an error needs: cut before its path ends, the verdict is "not enough data". */
  lemma {:induction false} PathNeedsItsBytes(p: Path, k: nat)
    requires WellFormedPath(p) && k < |PrintPath(p)|
    ensures Parse(PrintPath(p)[..k]) == Incomplete
    decreases p, 0
  {
    hide Parse, ParseArray, ParseElements, IsNumber, NumberOf;
    match p
    case Here(stop) => StopNeedsItsBytes(stop, k);
    case Inside(digits, before, next) =>
      var head := "*" + (digits + CRLF);
      var body := PrintAll(before) + PrintPath(next);
      assert PrintPath(p) == head + body;
      CutInTwo(head, body, k);
      if k < |head| {
        CastIsLine(digits);
        PartIsIncomplete('*', digits, k);
      } else {
        var count := NumberOf(digits);
        var part := body[..k - |head|];
        BodyNeedsItsBytes(before, next, count, k - |head|);
        ParseCounted('*', digits, part);
        ParseArrayCounted(digits, count, part);
      }
  }

  lemma {:induction false} BodyNeedsItsBytes(before: seq<Reply>, next: Path, count: nat, k: nat)
    requires AllWellFormed(before) && FirstErrorOf(before).None? && |before| < count
    requires WellFormedPath(next) && k < |PrintAll(before) + PrintPath(next)|
    ensures ParseElements((PrintAll(before) + PrintPath(next))[..k], count) == Stopped(Incomplete)
    decreases next, 1, |before|
  {
    hide Parse, ParseElements, Print, WellFormed, PrintPath, WellFormedPath;
    var part := (PrintAll(before) + PrintPath(next))[..k];
    FirstElement(part, count);
    if before == [] {
      assert PrintAll(before) + PrintPath(next) == PrintPath(next);
      PathNeedsItsBytes(next, k);
    } else {
      var t := before[0];
      var rest := PrintAll(before[1..]) + PrintPath(next);
      assert PrintAll(before) + PrintPath(next) == Print(t) + rest;
      CutInTwo(Print(t), rest, k);
      if k < |Print(t)| {
        ReplyNeedsItsBytes(t, k);
      } else {
        ParseOfPrint(t, rest[..k - |Print(t)|]);
        OutcomeIs(t);
        assert part[|Print(t)|..] == rest[..k - |Print(t)|];
        BodyNeedsItsBytes(before[1..], next, count - 1, k - |Print(t)|);
      }
    }
  }

  /** Every error is decided by a prefix of its own: not before, and by nothing that follows. */
  lemma ErrorNeedsItsBytes(s: string) returns (p: Path)
    requires Stops(Parse(s))
    ensures WellFormedPath(p) && PrintPath(p) <= s && PathOutcome(p) == Parse(s)
    ensures forall k :: 0 <= k < |PrintPath(p)| ==> Parse(s[..k]) == Incomplete
    ensures forall more :: Parse(PrintPath(p) + more) == Parse(s)
  {
    hide Parse, PrintPath, WellFormedPath;
    p := PathOfStop(s);
    forall k | 0 <= k < |PrintPath(p)|
      ensures Parse(s[..k]) == Incomplete
    {
      PathNeedsItsBytes(p, k);
      assert s[..k] == PrintPath(p)[..k];
    }
    forall more
      ensures Parse(PrintPath(p) + more) == Parse(s)
    {
      ParseOfPath(p, more);
    }
  }

  // ---------------------------------------------------------------- a stream cut into reads

  /** The end of one of the replies, or the beginning of the first. */
  predicate OnBoundary(ts: seq<Reply>, k: nat) {
    exists j :: 0 <= j <= |ts| && k == |PrintAll(ts[..j])|
  }

  lemma BoundaryTail(ts: seq<Reply>, k: nat)
    requires ts != []
    ensures OnBoundary(ts, k) <==> k == 0 || (k >= |Print(ts[0])| && OnBoundary(ts[1..], k - |Print(ts[0])|))
  {
    hide Print;
    var n := |Print(ts[0])|;
    forall j | 0 <= j < |ts|
      ensures |PrintAll(ts[..j + 1])| == n + |PrintAll(ts[1..][..j])|
    {
      assert ts[..j + 1][1..] == ts[1..][..j];
    }
    if k == 0 {
      assert ts[..0] == [] && k == |PrintAll(ts[..0])|;
    }
    if k >= n && OnBoundary(ts[1..], k - n) {
      var j :| 0 <= j <= |ts[1..]| && k - n == |PrintAll(ts[1..][..j])|;
      assert k == |PrintAll(ts[..j + 1])|;
    }
    if OnBoundary(ts, k) && k != 0 {
      var j :| 0 <= j <= |ts| && k == |PrintAll(ts[..j])|;
      assert ts[..0] == [];
      assert k - n == |PrintAll(ts[1..][..j - 1])|;
    }
  }

  /** A read of whole replies meets no protocol error exactly if it ends where one of them does. */
  lemma {:induction false} EndsCleanIff(ts: seq<Reply>, k: nat)
    requires AllWellFormed(ts) && AllFramed(ts) && k <= |PrintAll(ts)|
    ensures EndsClean(PrintAll(ts)[..k]) <==> OnBoundary(ts, k)
    decreases |ts|
  {
    hide Parse, Print, WellFormed, Framed, OnBoundary;
    if ts == [] {
      NoReplies();
    } else {
      BoundaryTail(ts, k);
      var t, part := ts[0], PrintAll(ts)[..k];
      CutInTwo(Print(t), PrintAll(ts[1..]), k);
      if 0 < k < |Print(t)| {
        ReplyNeedsItsBytes(t, k);
      } else if k > 0 {
        var rest := PrintAll(ts[1..])[..k - |Print(t)|];
        ParseOfPrint(t, rest);
        FramedLength(t);
        assert part[|Print(t)|..] == rest;
        EndsCleanIff(ts[1..], k - |Print(t)|);
      } else {
        assert part == "";
      }
    }
  }

  lemma NoReplies()
    ensures OnBoundary([], 0) && PrintAll([]) == ""
  {
    var none: seq<Reply> := [];
    assert none[..0] == [] && 0 == |PrintAll(none[..0])|;
  }

  /** A stream of replies may be cut into two reads exactly between two of them. */
  lemma CutIff(ts: seq<Reply>, k: nat)
    requires AllWellFormed(ts) && AllFramed(ts) && k <= |PrintAll(ts)|
    ensures
      var part := PrintAll(ts)[..k];
      (forall more :: Deliver(part + more) == Deliver(part) + Deliver(more)) <==> OnBoundary(ts, k)
  {
    hide Deliver, EndsClean, OnBoundary, PrintAll;
    EndsCleanIff(ts, k);
    SplitIff(PrintAll(ts)[..k]);
  }

  /** A read that ends inside a reply loses it: the replies before it, then "not enough data". */
  lemma CutLosesReply(ts: seq<Reply>, t: Reply, k: nat)
    requires AllWellFormed(ts) && AllFramed(ts) && WellFormed(t) && Framed(t) && 0 < k < |Print(t)|
    ensures Deliver(PrintAll(ts) + Print(t)[..k]) == Reactions(ts) + [QueryError(Protocol(NotEnoughData))]
  {
    hide Deliver, Parse, Print, WellFormed, Framed;
    DeliverAll(ts, Print(t)[..k]);
    ReplyNeedsItsBytes(t, k);
    DeliverFirst(Print(t)[..k]);
  }
}
