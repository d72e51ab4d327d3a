/**
 The reply parser (parser.hpp, markup_helper.hpp).

 The functions take the bytes that are left, `bytes`, where the original takes a pair of
 iterators; `already` is the original's `already_consumed`. The array loop is also given
 as the original writes it, in methods that advance an index over one buffer.
 */
module Parser {
  import opened Wrappers
  import opened Decimal
  import opened Resp

  const SIZE_T_RANGE: int := 0x1_0000_0000_0000_0000

  /** `std::search` for the terminator: its first position, or the length if there is none. */
  function FindCrlf(s: string): (i: nat)
    ensures i == |s| || i + 2 <= |s|
  {
    if s == "" || CRLF <= s then 0 else 1 + FindCrlf(s[1..])
  }

  function ParseString(bytes: string, already: nat): ParseResult {
    var i := FindCrlf(bytes);
    if i == |bytes| then Incomplete else Positive(Str(bytes[..i]), 2 + i + already)
  }

  function ParseError(bytes: string, already: nat): ParseResult {
    match ParseString(bytes, already)
    case Positive(Str(text), consumed) => ServerError(text, consumed)
    case other => other
  }

  function ParseInt(bytes: string, already: nat): ParseResult {
    match ParseString(bytes, already)
    case Positive(Str(text), consumed) =>
      (match LexicalCast(text)
       case Some(n) => Positive(Int(n), consumed)
       case None => ProtocolError(CountConversion))
    case other => other
  }

  /**
   Mixed `int64_t` and `size_t` addition: the signed operand is converted and the sum
   wraps, which it does not do for a count that is not negative.
   */
  function AddSize(count: int64, size: nat): (sum: nat)
    ensures count >= 0 && size <= 2 ==> sum == count + size
  {
    (count % SIZE_T_RANGE + size) % SIZE_T_RANGE
  }

  function ParseBulk(bytes: string, already: nat): ParseResult {
    match ParseInt(bytes, already)
    case Positive(Int(count), consumed) =>
      var head := consumed - already;
      if count == -1 then Positive(Nil, consumed)
      else if count < -1 then ProtocolError(CountRange)
      else if |bytes| - head < AddSize(count, 2) then Incomplete
      else
        var tail := head + count;
        if bytes[tail..tail + 2] != CRLF then ProtocolError(BulkTerminator)
        else Positive(Str(bytes[head..tail]), consumed + count + 2)
    case other => other
  }

  /** What the loop over the elements of an array comes to. */
  datatype Elements =
    | Stopped(outcome: ParseResult)
    | Complete(values: seq<Value>, consumed: nat)

  function ParseElements(bytes: string, count: nat): (r: Elements)
    ensures r.Complete? ==> |r.values| == count <= r.consumed <= |bytes|
    ensures r.Stopped? ==> !r.outcome.Positive?
    ensures r.Stopped? && r.outcome.ServerError? ==> 1 <= r.outcome.consumed <= |bytes|
    decreases |bytes|, 1, count
  {
    if count == 0 then Complete([], 0)
    else
      match Parse(bytes)
      case Positive(v, consumed) =>
        (match ParseElements(bytes[consumed..], count - 1)
         case Complete(vs, more) => Complete([v] + vs, consumed + more)
         case Stopped(outcome) => Stopped(outcome))
      case outcome => Stopped(outcome)
  }

  function ParseArray(bytes: string, already: nat): (r: ParseResult)
    ensures r.Positive? ==> already < r.consumed <= already + |bytes|
    ensures r.ServerError? ==> 1 <= r.consumed <= |bytes|
    decreases |bytes|, 2
  {
    match ParseInt(bytes, already)
    case Positive(Int(count), consumed) =>
      if count == -1 then Positive(Nil, consumed)
      else if count < -1 then ProtocolError(CountRange)
      else
        (match ParseElements(bytes[consumed - already..], count)
         case Complete(vs, more) => Positive(Array(vs), consumed + more)
         case Stopped(outcome) => outcome)
    case other => other
  }

  /**
   `raw_parse`. An outcome that consumes anything consumes at least the introduction byte
   and never reaches past the end, even when it is an error met inside an array.
   */
  function Parse(bytes: string): (r: ParseResult)
    ensures !r.ProtocolError? ==> 1 <= r.consumed <= |bytes|
    decreases |bytes|, 0
  {
    if bytes == "" then Incomplete
    else
      var rest := bytes[1..];
      match bytes[0]
      case '+' => ParseString(rest, 1)
      case '-' => ParseError(rest, 1)
      case ':' => ParseInt(rest, 1)
      case '$' => ParseBulk(rest, 1)
      case '*' => ParseArray(rest, 1)
      case _ => ProtocolError(WrongIntroduction)
  }

  lemma NoElements(bytes: string)
    ensures ParseElements(bytes, 0) == Complete([], 0)
  {
    hide Parse;
  }

  /** One round of the element loop. */
  lemma FirstElement(bytes: string, count: nat)
    requires count > 0
    ensures ParseElements(bytes, count) ==
            match Parse(bytes)
            case Positive(v, consumed) => Joined([v], consumed, ParseElements(bytes[consumed..], count - 1))
            case outcome => Stopped(outcome)
  {
    hide Parse;
  }

  /** The elements already collected, then what the rest of the loop comes to. */
  ghost function Joined(values: seq<Value>, consumed: nat, rest: Elements): Elements {
    match rest
    case Complete(vs, more) => Complete(values + vs, consumed + more)
    case Stopped(outcome) => rest
  }

  lemma JoinedAssociates(vs: seq<Value>, m: nat, ws: seq<Value>, n: nat, rest: Elements)
    ensures Joined(vs, m, Joined(ws, n, rest)) == Joined(vs + ws, m + n, rest)
  {
    if rest.Complete? {
      assert vs + (ws + rest.values) == vs + ws + rest.values;
    }
  }

  lemma JoinedEmpty(e: Elements)
    ensures Joined([], 0, e) == e
  {
    if e.Complete? {
      assert [] + e.values == e.values;
    }
  }

  lemma JoinedStep(buffer: string, from: nat, count: nat, values: seq<Value>, consumed: nat)
    requires from <= |buffer| && count > 0 && Parse(buffer[from..]).Positive?
    ensures
      var element := Parse(buffer[from..]);
      Joined(values, consumed, ParseElements(buffer[from..], count)) ==
      Joined(values + [element.result], consumed + element.consumed,
             ParseElements(buffer[from + element.consumed..], count - 1))
  {
    hide Parse, ParseElements;
    var element := Parse(buffer[from..]);
    assert buffer[from..][element.consumed..] == buffer[from + element.consumed..];
    FirstElement(buffer[from..], count);
    JoinedAssociates(values, consumed, [element.result], element.consumed,
                     ParseElements(buffer[from + element.consumed..], count - 1));
  }

  method RawParse(buffer: string, from: nat) returns (r: ParseResult)
    requires from <= |buffer|
    ensures r == Parse(buffer[from..])
    decreases |buffer| - from, 0
  {
    if from < |buffer| && buffer[from] == '*' {
      assert buffer[from..][1..] == buffer[from + 1..];
      r := ArrayApply(buffer, from + 1, 1);
    } else {
      // The other parsers are straight-line code.
      r := Parse(buffer[from..]);
    }
  }

  /** A count is read from within the bytes, its terminator included. */
  lemma CountWithin(bytes: string, already: nat)
    requires ParseInt(bytes, already).Positive?
    ensures ParseInt(bytes, already).result.Int?
    ensures already + 2 <= ParseInt(bytes, already).consumed <= already + |bytes|
  {
    hide FindCrlf, LexicalCast;
  }

  /** `array_parser_t::apply`, its iterators as indices into `buffer`. */
  method ArrayApply(buffer: string, from: nat, already: nat) returns (r: ParseResult)
    requires from <= |buffer|
    ensures r == ParseArray(buffer[from..], already)
    decreases |buffer| - from, 2
  {
    hide Parse, ParseElements, ParseInt;
    var countResult := ParseInt(buffer[from..], already);
    if !countResult.Positive? {
      return countResult;
    }
    CountWithin(buffer[from..], already);
    var count := countResult.result.number;
    if count == -1 {
      return Positive(Nil, countResult.consumed);
    } else if count < -1 {
      return ProtocolError(CountRange);
    }

    assert buffer[from..][countResult.consumed - already..] == buffer[from + (countResult.consumed - already)..];
    var elements := ElementLoop(buffer, from + (countResult.consumed - already), count);
    match elements
    case Stopped(outcome) => r := outcome;
    case Complete(values, consumed) => r := Positive(Array(values), countResult.consumed + consumed);
  }

  /** The loop of `array_parser_t::apply`. */
  method ElementLoop(buffer: string, from: nat, wanted: nat) returns (r: Elements)
    requires from <= |buffer|
    ensures r == ParseElements(buffer[from..], wanted)
    decreases |buffer| - from, 1
  {
    hide Parse, ParseElements;
    var values: seq<Value> := [];
    var elementFrom: nat, consumed: nat, count: nat := from, 0, wanted;
    ghost var whole := ParseElements(buffer[from..], wanted);
    JoinedEmpty(whole);
    while count > 0
      invariant elementFrom == from + consumed <= |buffer|
      invariant whole == Joined(values, consumed, ParseElements(buffer[elementFrom..], count))
      decreases count
    {
      var element := RawParse(buffer, elementFrom);
      if !element.Positive? {
        FirstElement(buffer[elementFrom..], count);
        return Stopped(element);
      }
      JoinedStep(buffer, elementFrom, count, values, consumed);
      elementFrom := elementFrom + element.consumed;
      values := values + [element.result];
      consumed := consumed + element.consumed;
      count := count - 1;
    }
    NoElements(buffer[elementFrom..]);
    assert values + [] == values;
    r := Complete(values, consumed);
  }
}
