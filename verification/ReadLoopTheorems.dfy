/**
 What the read loop makes of a stream of replies, and of the encoder's own output.
 */
module ReadLoopTheorems {
  import Decimal
  import opened Resp
  import opened Parser
  import opened Grammar
  import opened Streaming
  import opened Events
  import opened ReadLoop
  import opened Serializer

  // ---------------------------------------------------------------- framing

  /** Replies whose reported length is their own: every one but an array that holds an error. */
  predicate Framed(t: Reply) {
    t.List? ==> FirstError(t).None?
  }

  lemma {:induction false} ErrorFitsInReply(t: Reply)
    ensures FirstError(t).Some? ==>
              if t.List? then |FirstError(t).value| + 3 < |Print(t)| else |FirstError(t).value| + 3 == |Print(t)|
    decreases t, 0
  {
    if t.List? {
      ErrorFitsInReplies(t.items);
    }
  }

  lemma {:induction false} ErrorFitsInReplies(ts: seq<Reply>)
    ensures FirstErrorOf(ts).Some? ==> |FirstErrorOf(ts).value| + 3 <= |PrintAll(ts)|
    decreases ts, 1
  {
    if ts != [] {
      ErrorFitsInReply(ts[0]);
      ErrorFitsInReplies(ts[1..]);
    }
  }

  lemma PrintNotEmpty(t: Reply)
    ensures Print(t) != ""
  {
  }

  lemma DeliverFramed(t: Reply, rest: string)
    requires WellFormed(t) && Framed(t)
    ensures Deliver(Print(t) + rest) == [Reaction(Outcome(t))] + Deliver(rest)
  {
    ParseOfPrint(t, rest);
    ErrorFitsInReply(t);
    PrintNotEmpty(t);
    hide Parse;
    assert (Print(t) + rest)[|Print(t)|..] == rest;
  }

  /**
   The loop stays in step with the stream over a whole reply, raising its one event, exactly
   for the replies that are not an array holding an error. After one of those it goes on
   reading in the middle of the reply.
   */
  lemma FramingIff(t: Reply)
    requires WellFormed(t)
    ensures (forall rest :: Deliver(Print(t) + rest) == [Reaction(Outcome(t))] + Deliver(rest)) <==> Framed(t)
  {
    if Framed(t) {
      forall rest
        ensures Deliver(Print(t) + rest) == [Reaction(Outcome(t))] + Deliver(rest)
      {
        DeliverFramed(t, rest);
      }
    } else {
      ParseOfPrint(t, "");
      ErrorFitsInReply(t);
      hide Parse;
      assert Print(t) + "" == Print(t);
      var left := Print(t)[Outcome(t).consumed..];
      assert Deliver(Print(t) + "") == [Reaction(Outcome(t))] + Deliver(left);
      assert |Deliver(left)| >= 1 && |Deliver("")| == 0;
    }
  }

  function Reactions(ts: seq<Reply>): seq<Event>
    requires AllWellFormed(ts)
  {
    seq(|ts|, i requires 0 <= i < |ts| => Reaction(Outcome(ts[i])))
  }

  predicate AllFramed(ts: seq<Reply>) {
    forall i :: 0 <= i < |ts| ==> Framed(ts[i])
  }

  /** One event per reply, in order, whatever comes after them. */
  lemma {:induction false} DeliverAll(ts: seq<Reply>, rest: string)
    requires AllWellFormed(ts) && AllFramed(ts)
    ensures Deliver(PrintAll(ts) + rest) == Reactions(ts) + Deliver(rest)
  {
    hide Deliver, Print, WellFormed, Framed, Reaction, Outcome;
    if ts == [] {
      assert PrintAll(ts) + rest == rest;
    } else {
      assert PrintAll(ts) + rest == Print(ts[0]) + (PrintAll(ts[1..]) + rest);
      DeliverFramed(ts[0], PrintAll(ts[1..]) + rest);
      DeliverAll(ts[1..], rest);
      assert Reactions(ts) == [Reaction(Outcome(ts[0]))] + Reactions(ts[1..]);
    }
  }

  // ---------------------------------------------------------------- splitting a stream into reads

  /** No round of the loop over `bytes` meets a protocol error. */
  predicate EndsClean(bytes: string) {
    bytes == "" || (!Parse(bytes).ProtocolError? && EndsClean(bytes[Parse(bytes).consumed..]))
  }

  lemma {:induction false} CleanSplit(bytes: string, more: string)
    requires EndsClean(bytes)
    ensures Deliver(bytes + more) == Deliver(bytes) + Deliver(more)
  {
    hide Parse;
    if bytes == "" {
      assert bytes + more == more;
    } else {
      VerdictStable(bytes, more);
      var consumed := Parse(bytes).consumed;
      assert (bytes + more)[consumed..] == bytes[consumed..] + more;
      CleanSplit(bytes[consumed..], more);
    }
  }

  lemma {:induction false} DirtySplit(bytes: string) returns (more: string)
    requires !EndsClean(bytes)
    ensures Deliver(bytes + more) != Deliver(bytes) + Deliver(more)
  {
    hide Parse, Deliver, Reaction;
    var r := Parse(bytes);
    DeliverFirst(bytes);
    if r.ProtocolError? {
      if r == Incomplete {
        more := Settle(bytes);
        DeliverFirst(bytes + more);
        ReactionTells(Parse(bytes + more));
        assert Deliver(bytes + more)[0] == Reaction(Parse(bytes + more));
        assert (Deliver(bytes) + Deliver(more))[0] == Reaction(Incomplete);
      } else {
        more := ",";
        DeliverFirst(bytes + more);
        DeliverFirst(more);
        VerdictStable(bytes, more);
        assert |Deliver(bytes + more)| == 1;
      }
    } else {
      var rest := bytes[r.consumed..];
      more := DirtySplit(rest);
      VerdictStable(bytes, more);
      assert (bytes + more)[r.consumed..] == rest + more;
      DeliverFirst(bytes + more);
      assert Deliver(bytes + more)[1..] == Deliver(rest + more);
      assert (Deliver(bytes) + Deliver(more))[1..] == Deliver(rest) + Deliver(more);
    }
  }

  lemma ReactionTells(r: ParseResult)
    requires r != Incomplete
    ensures Reaction(r) != Reaction(Incomplete)
  {
  }

  /**
   Whether a stream may be cut after `bytes` into two reads without changing the events is
   decided by the first part alone: exactly if the loop over it meets no protocol error. A
   read that ends inside a reply does meet one, and loses the reply.
   */
  lemma SplitIff(bytes: string)
    ensures (forall more :: Deliver(bytes + more) == Deliver(bytes) + Deliver(more)) <==> EndsClean(bytes)
  {
    if EndsClean(bytes) {
      forall more
        ensures Deliver(bytes + more) == Deliver(bytes) + Deliver(more)
      {
        CleanSplit(bytes, more);
      }
    } else {
      var more := DirtySplit(bytes);
    }
  }

  // ---------------------------------------------------------------- pipelines

  /** What fits in memory: `max_size` of a string or vector is below 2^63. */
  predicate Sized(command: Command) {
    |command| <= Decimal.INT64_MAX && forall i :: 0 <= i < |command| ==> |command[i]| <= Decimal.INT64_MAX
  }

  predicate AllSized(commands: seq<Command>) {
    forall i :: 0 <= i < |commands| ==> Sized(commands[i])
  }

  function ArgumentTrees(arguments: seq<string>): seq<Reply> {
    seq(|arguments|, i requires 0 <= i < |arguments| => Bulk(Decimal.Text(|arguments[i]|), arguments[i]))
  }

  function CommandTree(command: Command): Reply {
    List(Decimal.Text(|command|), ArgumentTrees(command))
  }

  function Strings(command: Command): Value {
    Array(seq(|command|, i requires 0 <= i < |command| => Str(command[i])))
  }

  lemma ArgumentIsPrinted(argument: string)
    requires |argument| <= Decimal.INT64_MAX
    ensures
      var t := Bulk(Decimal.Text(|argument|), argument);
      WellFormed(t) && FirstError(t).None? && Eval(t) == Str(argument) && Print(t) == EncodeArgument(argument)
  {
    TextDenotes(|argument|);
    BulkIsPrinted(Decimal.Text(|argument|), argument);
    hide Denotes, Decimal.Text, Print;
  }

  lemma BulkIsPrinted(digits: string, payload: string)
    ensures Print(Bulk(digits, payload)) == "$" + digits + CRLF + payload + CRLF
  {
    var head := digits + CRLF;
    var tail := payload + CRLF;
    assert "$" + (head + tail) == "$" + head + tail;
    assert "$" + head == "$" + digits + CRLF;
    assert "$" + head + tail == "$" + head + payload + CRLF;
  }

  lemma {:induction false} ArgumentsArePrinted(arguments: seq<string>)
    requires forall i :: 0 <= i < |arguments| ==> |arguments[i]| <= Decimal.INT64_MAX
    ensures AllWellFormed(ArgumentTrees(arguments)) && FirstErrorOf(ArgumentTrees(arguments)).None?
    ensures PrintAll(ArgumentTrees(arguments)) == EncodeArguments(arguments)
    ensures EvalAll(ArgumentTrees(arguments)) == Strings(arguments).elements
  {
    hide WellFormed, Print, Eval, EncodeArgument, FirstError, Decimal.Text;
    if arguments != [] {
      ArgumentsArePrinted(arguments[1..]);
      ArgumentIsPrinted(arguments[0]);
      var ts := ArgumentTrees(arguments);
      assert ts[1..] == ArgumentTrees(arguments[1..]);
      assert forall i :: 0 < i < |ts| ==> ts[i] == ts[1..][i - 1];
      assert Strings(arguments).elements == [Str(arguments[0])] + Strings(arguments[1..]).elements;
    }
  }

  /** An encoded command is the printed form of a reply: the array of its arguments. */
  lemma CommandIsPrinted(command: Command)
    requires Sized(command)
    ensures WellFormed(CommandTree(command)) && FirstError(CommandTree(command)).None?
    ensures Print(CommandTree(command)) == Encode(command)
    ensures Eval(CommandTree(command)) == Strings(command)
  {
    TextDenotes(|command|);
    ArgumentsArePrinted(command);
    hide Denotes, Decimal.Text, PrintAll, EvalAll, FirstErrorOf, EncodeArguments, ArgumentTrees;
    var digits := Decimal.Text(|command|);
    var body := EncodeArguments(command);
    assert |ArgumentTrees(command)| == |Strings(command).elements|;
    assert "*" + (digits + CRLF + body) == "*" + digits + CRLF + body;
  }

  function Echoes(commands: seq<Command>): seq<Event> {
    seq(|commands|, i requires 0 <= i < |commands| => Recv(Strings(commands[i])))
  }

  /** The loop reads back a pipeline of encoded commands, one array of strings for each. */
  lemma {:induction false} PipelineRoundTrip(commands: seq<Command>, rest: string)
    requires AllSized(commands)
    ensures Deliver(EncodeAll(commands) + rest) == Echoes(commands) + Deliver(rest)
  {
    hide Deliver, Encode, CommandTree, Print, WellFormed, Eval, Strings, FirstError;
    if commands == [] {
      assert EncodeAll(commands) + rest == rest;
    } else {
      CommandIsPrinted(commands[0]);
      assert EncodeAll(commands) + rest == Encode(commands[0]) + (EncodeAll(commands[1..]) + rest);
      DeliverFramed(CommandTree(commands[0]), EncodeAll(commands[1..]) + rest);
      PipelineRoundTrip(commands[1..], rest);
      assert Echoes(commands) == [Recv(Strings(commands[0]))] + Echoes(commands[1..]);
    }
  }

  lemma EmptyCommandUnreadable(rest: string)
    ensures Parse("*0\r\0" + rest).ProtocolError?
  {
    var s := "0\r\0" + rest;
    assert ("*0\r\0" + rest)[1..] == s;
    hide FindCrlf, ParseElements;
    var i := FindCrlf(s);
    if i < |s| {
      FindCrlfFinds(s);
      assert s[i] == '\r' && s[i + 1] == '\n';
      assert i > 1;
      assert s[..i][1] == '\r';
    }
  }

  /** What `serialize` appends for a pipeline is read back exactly if no command is empty. */
  lemma {:induction false} SerializedRoundTripIff(commands: seq<Command>)
    requires AllSized(commands)
    ensures Deliver(AppendedAll(commands)) == Echoes(commands) <==> [] !in commands
  {
    hide Encode, CommandTree, Print, WellFormed, Eval, Strings, FirstError, Parse, Deliver;
    if commands == [] {
      DeliverNothing();
    } else if commands[0] == [] {
      EmptyCommandUnreadable(AppendedAll(commands[1..]));
      DeliverFirst(AppendedAll(commands));
      assert Deliver(AppendedAll(commands))[0].QueryError?;
      assert Echoes(commands)[0].Recv?;
    } else {
      SerializedRoundTripIff(commands[1..]);
      CommandIsPrinted(commands[0]);
      DeliverFramed(CommandTree(commands[0]), AppendedAll(commands[1..]));
      assert Echoes(commands) == [Recv(Strings(commands[0]))] + Echoes(commands[1..]);
      var whole := Deliver(AppendedAll(commands));
      assert whole[1..] == Deliver(AppendedAll(commands[1..]));
      assert Echoes(commands)[1..] == Echoes(commands[1..]);
    }
  }

  lemma StringsInjective(a: Command, b: Command)
    requires Strings(a) == Strings(b)
    ensures a == b
  {
    assert |a| == |Strings(a).elements| == |b|;
    forall i | 0 <= i < |a|
      ensures a[i] == b[i]
    {
      assert Strings(a).elements[i] == Str(a[i]);
      assert Strings(b).elements[i] == Str(b[i]);
    }
  }

  /** No encoded command is the beginning of another's. */
  lemma EncodingIsPrefixFree(a: Command, b: Command)
    requires Sized(a) && Sized(b) && Encode(a) <= Encode(b)
    ensures a == b
  {
    hide Encode, CommandTree, Print, WellFormed, Eval, Strings, FirstError;
    CommandIsPrinted(a);
    CommandIsPrinted(b);
    ParseOfPrint(CommandTree(a), Encode(b)[|Encode(a)|..]);
    ParseOfPrint(CommandTree(b), "");
    hide Parse;
    assert Encode(b) == Encode(a) + Encode(b)[|Encode(a)|..];
    assert Encode(b) + "" == Encode(b);
    StringsInjective(a, b);
  }

  /** The bytes of a pipeline determine its commands. */
  lemma EncodingIsUniquelyDecodable(a: seq<Command>, b: seq<Command>)
    requires AllSized(a) && AllSized(b) && EncodeAll(a) == EncodeAll(b)
    ensures a == b
  {
    PipelineRoundTrip(a, "");
    PipelineRoundTrip(b, "");
    hide Deliver;
    assert Echoes(a) + Deliver("") == Echoes(b) + Deliver("");
    assert |Echoes(a)| == |a| && |Echoes(b)| == |b|;
    assert Echoes(a) == Echoes(b) by {
      assert Echoes(a) == (Echoes(a) + Deliver(""))[..|a|];
    }
    forall i | 0 <= i < |a|
      ensures a[i] == b[i]
    {
      assert Echoes(a)[i] == Recv(Strings(a[i])) && Echoes(b)[i] == Recv(Strings(b[i]));
      StringsInjective(a[i], b[i]);
    }
  }
}
