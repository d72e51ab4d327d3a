/**
 What `raw_parse` decides, as equivalences over every input.
 */
module ParserTheorems {
  import opened Wrappers
  import opened Decimal
  import opened Resp
  import opened Parser
  import opened Grammar
  import opened Streaming

  // ---------------------------------------------------------------- values

  /** Some error-free tree for `v` prints as exactly `bytes`. */
  ghost predicate Derives(bytes: string, v: Value) {
    exists t :: WellFormed(t) && FirstError(t).None? && Print(t) == bytes && Eval(t) == v
  }

  /** The parser accepts exactly the grammar. Value and length are unique, being the parser's. */
  lemma ParserMeetsGrammar(s: string, v: Value, consumed: nat)
    ensures Parse(s) == Positive(v, consumed) <==> consumed <= |s| && Derives(s[..consumed], v)
  {
    hide Parse;
    if Parse(s) == Positive(v, consumed) {
      var t := ParseSound(s);
      assert Print(t) == s[..consumed];
    }
    if consumed <= |s| && Derives(s[..consumed], v) {
      var t :| WellFormed(t) && FirstError(t).None? && Print(t) == s[..consumed] && Eval(t) == v;
      ParseOfPrint(t, s[consumed..]);
      assert s == Print(t) + s[consumed..];
    }
  }

  /** An integer reply with a minus sign is that negative number, whatever follows. */
  lemma NegativeIsRead(n: nat, rest: string)
    requires n <= 0x8000_0000_0000_0000
    ensures Parse(":" + ("-" + Text(n) + CRLF) + rest) == Positive(Int(-(n as int)), |Text(n)| + 4)
  {
    hide Parse, Text, IsNumeral, NumeralValue;
    NumeralOfText(n);
    var t := Integer("-" + Text(n));
    ParseOfPrint(t, rest);
  }

  /** The reply for a missing key, and the array of the same kind. */
  lemma NilIsRead(rest: string)
    ensures Parse("$" + ("-1" + CRLF) + rest) == Positive(Nil, 5)
    ensures Parse("*" + ("-1" + CRLF) + rest) == Positive(Nil, 5)
  {
    assert "-" + Text(1) == "-1";
    hide Parse, Text, IsNumeral, NumeralValue;
    NumeralOfText(1);
    ParseOfPrint(NilBulk("-1"), rest);
    ParseOfPrint(NilArray("-1"), rest);
  }

  // ---------------------------------------------------------------- errors

  /** What a parse can fail on, other than too few bytes. */
  datatype Stop =
    | Says(text: string)                                       // an error of the server
    | Unknown(intro: char)
    | NoNumber(intro: char, line: string)
    | BelowNil(intro: char, digits: string)
    | BadEnd(digits: string, payload: string, end: string)

  predicate WellFormedStop(stop: Stop) {
    match stop
    case Says(text) => IsLine(text)
    case Unknown(intro) => intro !in "+-:$*"
    case NoNumber(intro, line) => intro in ":$*" && IsLine(line) && !IsNumber(line)
    case BelowNil(intro, digits) => intro in "$*" && IsNumber(digits) && NumberOf(digits) < -1
    case BadEnd(digits, payload, end) => Denotes(digits, |payload|) && |end| == 2 && end != CRLF
  }

  function PrintStop(stop: Stop): string {
    match stop
    case Says(text) => "-" + (text + CRLF)
    case Unknown(intro) => [intro]
    case NoNumber(intro, line) => [intro] + (line + CRLF)
    case BelowNil(intro, digits) => [intro] + (digits + CRLF)
    case BadEnd(digits, payload, end) => "$" + (digits + CRLF) + (payload + end)
  }

  function StopOutcome(stop: Stop): ParseResult {
    match stop
    case Says(text) => ServerError(text, |text| + 3)
    case Unknown(_) => ProtocolError(WrongIntroduction)
    case NoNumber(_, _) => ProtocolError(CountConversion)
    case BelowNil(_, _) => ProtocolError(CountRange)
    case BadEnd(_, _, _) => ProtocolError(BulkTerminator)
  }

  /**
   The way down to what stops the parse: through arrays whose earlier elements are complete
   and free of errors. Elements after it need not have arrived.
   */
  datatype Path =
    | Here(stop: Stop)
    | Inside(digits: string, before: seq<Reply>, next: Path)

  predicate WellFormedPath(p: Path) {
    match p
    case Here(stop) => WellFormedStop(stop)
    case Inside(digits, before, next) =>
      && IsNumber(digits) && |before| < NumberOf(digits)
      && AllWellFormed(before) && FirstErrorOf(before).None?
      && WellFormedPath(next)
  }

  function PrintPath(p: Path): string {
    match p
    case Here(stop) => PrintStop(stop)
    case Inside(digits, before, next) => "*" + (digits + CRLF + (PrintAll(before) + PrintPath(next)))
  }

  function PathOutcome(p: Path): (r: ParseResult)
    ensures !r.Positive? && r != Incomplete
  {
    match p
    case Here(stop) => StopOutcome(stop)
    case Inside(_, _, next) => PathOutcome(next)
  }

  lemma BadCountIsSeen(line: string, rest: string)
    requires IsLine(line) && !IsNumber(line)
    ensures ParseInt(line + CRLF + rest, 1) == ProtocolError(CountConversion)
  {
    FindCrlfAfterLine(line, rest);
    assert (line + CRLF + rest)[..|line|] == line;
    CastIs(line);
    hide FindCrlf, LexicalCast, IsNumber, NumberOf;
  }

  lemma BadEndIsSeen(digits: string, payload: string, end: string, rest: string)
    requires Denotes(digits, |payload|) && |end| == 2 && end != CRLF
    ensures ParseBulk(digits + CRLF + (payload + end + rest), 1) == ProtocolError(BulkTerminator)
  {
    var s := digits + CRLF + (payload + end + rest);
    ParseIntOfPrinted(digits, payload + end + rest);
    hide ParseInt, IsNumber, NumberOf;
    var tail := |digits| + 2 + |payload|;
    assert s == digits + CRLF + payload + end + rest;
    assert s[tail..tail + 2] == end;
  }

  lemma ParseOfNoNumber(intro: char, line: string, rest: string)
    requires intro in ":$*" && IsLine(line) && !IsNumber(line)
    ensures Parse([intro] + (line + CRLF) + rest) == ProtocolError(CountConversion)
  {
    hide ParseInt, ParseBulk, ParseArray, IsNumber, NumberOf;
    var bytes := line + CRLF + rest;
    BadCountIsSeen(line, rest);
    BadCountStops(bytes);
    assert ([intro] + (line + CRLF) + rest)[1..] == bytes;
  }

  lemma ParseOfBelowNil(intro: char, digits: string, rest: string)
    requires intro in "$*" && IsNumber(digits) && NumberOf(digits) < -1
    ensures Parse([intro] + (digits + CRLF) + rest) == ProtocolError(CountRange)
  {
    hide Parse, ParseInt, ParseBulk, ParseArray, IsNumber, NumberOf;
    ParseCounted(intro, digits, rest);
    BelowNilStops(([intro] + (digits + CRLF) + rest)[1..]);
  }

  lemma ParseOfBadEnd(digits: string, payload: string, end: string, rest: string)
    requires Denotes(digits, |payload|) && |end| == 2 && end != CRLF
    ensures Parse("$" + (digits + CRLF) + (payload + end) + rest) == ProtocolError(BulkTerminator)
  {
    hide Parse, ParseInt, ParseBulk, ParseArray, IsNumber, NumberOf;
    var more := payload + end + rest;
    assert "$" + (digits + CRLF) + (payload + end) + rest == "$" + (digits + CRLF) + more;
    ParseCounted('$', digits, more);
    BadEndIsSeen(digits, payload, end, rest);
  }

  lemma ParseOfUnknown(intro: char, rest: string)
    requires intro !in "+-:$*"
    ensures Parse([intro] + rest) == ProtocolError(WrongIntroduction)
  {
    assert ([intro] + rest)[0] == intro;
  }

  lemma ParseOfStop(stop: Stop, rest: string)
    requires WellFormedStop(stop)
    ensures Parse(PrintStop(stop) + rest) == StopOutcome(stop)
  {
    hide Parse, IsNumber, NumberOf;
    match stop
    case Says(text) => ParseLine('-', text, rest);
    case Unknown(intro) => ParseOfUnknown(intro, rest);
    case NoNumber(intro, line) => ParseOfNoNumber(intro, line, rest);
    case BelowNil(intro, digits) => ParseOfBelowNil(intro, digits, rest);
    case BadEnd(digits, payload, end) => ParseOfBadEnd(digits, payload, end, rest);
  }

  lemma BadCountStops(bytes: string)
    requires ParseInt(bytes, 1).ProtocolError?
    ensures ParseBulk(bytes, 1) == ParseInt(bytes, 1) && ParseArray(bytes, 1) == ParseInt(bytes, 1)
  {
    hide ParseInt, ParseElements;
  }

  lemma BelowNilStops(bytes: string)
    requires ParseInt(bytes, 1).Positive? && ParseInt(bytes, 1).result.Int? && ParseInt(bytes, 1).result.number < -1
    ensures ParseBulk(bytes, 1) == ProtocolError(CountRange) && ParseArray(bytes, 1) == ProtocolError(CountRange)
  {
    hide ParseInt, ParseElements;
  }

  lemma {:induction false} ParseOfPath(p: Path, rest: string)
    requires WellFormedPath(p)
    ensures Parse(PrintPath(p) + rest) == PathOutcome(p)
  {
    hide Parse, ParseArray, ParseElements, IsNumber, NumberOf, PrintStop, WellFormedStop, StopOutcome;
    match p
    case Here(stop) => ParseOfStop(stop, rest);
    case Inside(digits, before, next) =>
      var count := NumberOf(digits);
      var tail := PrintPath(next) + rest;
      assert PrintPath(p) + rest == "*" + (digits + CRLF) + (PrintAll(before) + tail);
      ParseCounted('*', digits, PrintAll(before) + tail);
      ParseArrayCounted(digits, count, PrintAll(before) + tail);
      ParseAllOfPrint(before, count - |before|, tail);
      ParseOfPath(next, rest);
      StoppedAtOnce(tail, count - |before|);
  }

  lemma StoppedAtOnce(bytes: string, count: nat)
    requires count > 0 && !Parse(bytes).Positive?
    ensures ParseElements(bytes, count) == Stopped(Parse(bytes))
  {
    hide Parse, ParseElements;
    FirstElement(bytes, count);
  }

  predicate Stops(r: ParseResult) {
    !r.Positive? && r != Incomplete
  }

  /** `stop` is what the bytes after the introduction `intro` are stopped by. */
  predicate StopsAt(stop: Stop, intro: char, bytes: string, r: ParseResult) {
    WellFormedStop(stop) && PrintStop(stop) <= [intro] + bytes && StopOutcome(stop) == r
  }

  lemma ReadBadCount(intro: char, bytes: string) returns (stop: Stop)
    requires intro in ":$*" && Stops(ParseInt(bytes, 1))
    ensures StopsAt(stop, intro, bytes, ParseInt(bytes, 1))
  {
    ReadLine(bytes);
    var line := ParseString(bytes, 1).result.text;
    CastIs(line);
    stop := NoNumber(intro, line);
    hide FindCrlf, LexicalCast, IsNumber, NumberOf;
  }

  lemma ReadBelowNil(intro: char, bytes: string) returns (stop: Stop)
    requires intro in "$*" && ParseInt(bytes, 1).Positive? && ParseInt(bytes, 1).result.number < -1
    ensures StopsAt(stop, intro, bytes, ProtocolError(CountRange))
  {
    var digits := ReadCount(bytes);
    stop := BelowNil(intro, digits);
    hide ParseInt, IsNumber, NumberOf;
  }

  lemma CountIsNumber(bytes: string)
    ensures ParseInt(bytes, 1).Positive? ==> ParseInt(bytes, 1).result.Int?
  {
  }

  lemma ReadBadBulk(bytes: string) returns (stop: Stop)
    requires Stops(ParseBulk(bytes, 1))
    ensures StopsAt(stop, '$', bytes, ParseBulk(bytes, 1))
  {
    CountIsNumber(bytes);
    if !ParseInt(bytes, 1).Positive? {
      NotServerError(bytes);
      BadCountStops(bytes);
      stop := ReadBadCount('$', bytes);
    } else if ParseInt(bytes, 1).result.number < -1 {
      BelowNilStops(bytes);
      stop := ReadBelowNil('$', bytes);
    } else {
      stop := ReadBadEnd(bytes);
    }
  }

  lemma NotServerError(bytes: string)
    ensures !ParseInt(bytes, 1).ServerError?
  {
  }

  lemma ReadBadEnd(bytes: string) returns (stop: Stop)
    requires Stops(ParseBulk(bytes, 1))
    requires ParseInt(bytes, 1).Positive? && ParseInt(bytes, 1).result.number >= -1
    ensures StopsAt(stop, '$', bytes, ParseBulk(bytes, 1))
  {
    var digits := ReadCount(bytes);
    var count := ParseInt(bytes, 1).result.number;
    var head := |digits| + 2;
    BadEndTells(bytes, head, count);
    hide ParseInt, ParseBulk, IsNumber, NumberOf;
    var body := bytes[head..];
    stop := BadEnd(digits, body[..count], body[count..count + 2]);
    BulkBeginsWith(digits + CRLF, body, count);
  }

  lemma BulkBeginsWith(line: string, body: string, count: nat)
    requires count + 2 <= |body|
    ensures "$" + line + (body[..count] + body[count..count + 2]) <= "$" + (line + body)
  {
    assert body == body[..count] + body[count..count + 2] + body[count + 2..];
    assert "$" + (line + body) == "$" + line + (body[..count] + body[count..count + 2]) + body[count + 2..];
  }

  lemma BadEndTells(bytes: string, head: nat, count: int64)
    requires Stops(ParseBulk(bytes, 1)) && count >= -1 && ParseInt(bytes, 1) == Positive(Int(count), head + 1)
    ensures count >= 0 && head + count + 2 <= |bytes|
    ensures bytes[head..][count..count + 2] != CRLF && ParseBulk(bytes, 1) == ProtocolError(BulkTerminator)
  {
    hide ParseInt;
    assert count >= 0 && head + count + 2 <= |bytes|;
    assert bytes[head..][count..count + 2] == bytes[head + count..head + count + 2];
  }

  lemma {:induction false} PathOfStop(s: string) returns (p: Path)
    requires Stops(Parse(s))
    ensures WellFormedPath(p) && PrintPath(p) <= s && Parse(s) == PathOutcome(p)
    decreases |s|, 0
  {
    hide ParseInt, ParseBulk, ParseArray;
    var rest := s[1..];
    assert s == [s[0]] + rest;
    if s[0] == '-' {
      ReadLine(rest);
      p := Here(Says(ParseString(rest, 1).result.text));
    } else if s[0] == ':' {
      NotServerError(rest);
      var stop := ReadBadCount(':', rest);
      p := Here(stop);
    } else if s[0] == '$' {
      var stop := ReadBadBulk(rest);
      p := Here(stop);
    } else if s[0] == '*' {
      p := PathInArray(rest);
    } else {
      p := Here(Unknown(s[0]));
    }
  }

  lemma {:induction false} PathInArray(bytes: string) returns (p: Path)
    requires Stops(ParseArray(bytes, 1))
    ensures WellFormedPath(p) && PrintPath(p) <= "*" + bytes
    ensures ParseArray(bytes, 1) == PathOutcome(p)
    decreases |bytes|, 2
  {
    CountIsNumber(bytes);
    hide Parse, ParseInt, ParseElements;
    if !ParseInt(bytes, 1).Positive? {
      NotServerError(bytes);
      BadCountStops(bytes);
      var stop := ReadBadCount('*', bytes);
      p := Here(stop);
    } else if ParseInt(bytes, 1).result.number < -1 {
      BelowNilStops(bytes);
      var stop := ReadBelowNil('*', bytes);
      p := Here(stop);
    } else {
      p := PathInElements(bytes);
    }
  }

  lemma {:induction false} PathInElements(bytes: string) returns (p: Path)
    requires Stops(ParseArray(bytes, 1))
    requires ParseInt(bytes, 1).Positive? && ParseInt(bytes, 1).result.number >= -1
    ensures WellFormedPath(p) && PrintPath(p) <= "*" + bytes
    ensures ParseArray(bytes, 1) == PathOutcome(p)
    decreases |bytes|, 1
  {
    var digits := ReadCount(bytes);
    var count := ParseInt(bytes, 1).result.number;
    hide Parse, ParseInt, ParseElements;
    assert count >= 0;
    ParseArrayAfter(bytes, count, |digits| + 3);
    var body := bytes[|digits| + 2..];
    hide ParseArray;
    var before, next := PathOfElements(body, count);
    p := Inside(digits, before, next);
    assert PrintAll(before) + PrintPath(next) <= body;
    assert bytes == digits + CRLF + body;
  }

  lemma StepOver(bytes: string, t: Reply, more: seq<Reply>, last: string)
    requires Reads(bytes, t) && AllWellFormed(more) && FirstErrorOf(more).None?
    requires PrintAll(more) + last <= bytes[|Print(t)|..]
    ensures AllWellFormed([t] + more) && FirstErrorOf([t] + more).None?
    ensures PrintAll([t] + more) + last <= bytes
  {
    hide Parse, Print, WellFormed, FirstError;
    assert ([t] + more)[1..] == more;
    assert bytes == Print(t) + bytes[|Print(t)|..];
    assert Print(t) + PrintAll(more) + last == Print(t) + (PrintAll(more) + last);
  }

  lemma {:induction false} PathOfElements(bytes: string, count: nat) returns (before: seq<Reply>, next: Path)
    requires ParseElements(bytes, count).Stopped? && Stops(ParseElements(bytes, count).outcome)
    ensures |before| < count && AllWellFormed(before) && FirstErrorOf(before).None?
    ensures WellFormedPath(next) && PrintAll(before) + PrintPath(next) <= bytes
    ensures ParseElements(bytes, count).outcome == PathOutcome(next)
    decreases |bytes|, 1, count
  {
    hide Parse, ParseElements;
    if count == 0 {
      NoElements(bytes);
    } else {
      FirstElement(bytes, count);
    }
    if Parse(bytes).Positive? {
      var t := ParseSound(bytes);
      var rest := bytes[|Print(t)|..];
      var more;
      more, next := PathOfElements(rest, count - 1);
      before := [t] + more;
      hide PrintPath, WellFormedPath, PathOutcome;
      StepOver(bytes, t, more, PrintPath(next));
    } else {
      before := [];
      next := PathOfStop(bytes);
      assert PrintAll([]) + PrintPath(next) == PrintPath(next);
    }
  }

  /**
   Which error is reported, for every input: the parser stops with an outcome exactly when the
   input starts with a path to something that is stopped with that outcome.
   */
  lemma ErrorMeetsGrammar(s: string, r: ParseResult)
    requires Stops(r)
    ensures Parse(s) == r <==> exists p :: WellFormedPath(p) && PrintPath(p) <= s && PathOutcome(p) == r
  {
    hide Parse;
    if Parse(s) == r {
      var p := PathOfStop(s);
    }
    if exists p :: WellFormedPath(p) && PrintPath(p) <= s && PathOutcome(p) == r {
      var p :| WellFormedPath(p) && PrintPath(p) <= s && PathOutcome(p) == r;
      ParseOfPath(p, s[|PrintPath(p)|..]);
      assert s == PrintPath(p) + s[|PrintPath(p)|..];
    }
  }

  // ---------------------------------------------------------------- streaming

  /** "Not enough data" is the verdict exactly as long as later bytes can still change it. */
  lemma IncompleteIff(s: string)
    ensures Parse(s) == Incomplete <==> exists more :: Parse(s + more) != Parse(s)
  {
    hide Parse;
    if Parse(s) == Incomplete {
      var more := Settle(s);
      assert Parse(s + more) != Parse(s);
    } else {
      forall more
        ensures Parse(s + more) == Parse(s)
      {
        VerdictStable(s, more);
      }
    }
  }

  /**
   The bytes a value needs are the bytes it consumes: cut anywhere before that, the verdict
   is "not enough data" and nothing else; past that, nothing that follows matters.
   */
  lemma ValueNeedsItsBytes(s: string, k: nat, more: string)
    requires Parse(s).Positive? && k <= |s|
    ensures
      var consumed := Parse(s).consumed;
      if k < consumed then Parse(s[..k]) == Incomplete else Parse(s[..k] + more) == Parse(s)
  {
    hide Parse;
    var consumed := Parse(s).consumed;
    assert s == s[..k] + s[k..];
    if k < consumed {
      if Parse(s[..k]) != Incomplete {
        VerdictStable(s[..k], s[k..]);
      }
    } else {
      var t := ParseSound(s);
      assert s[..k] + more == Print(t) + (s[..k][consumed..] + more);
      ParseOfPrint(t, s[..k][consumed..] + more);
    }
  }

  /** The inputs judged "not enough data" are closed under taking prefixes. */
  lemma IncompletePrefix(s: string, k: nat)
    requires Parse(s) == Incomplete && k <= |s|
    ensures Parse(s[..k]) == Incomplete
  {
    hide Parse;
    assert s == s[..k] + s[k..];
    if Parse(s[..k]) != Incomplete {
      VerdictStable(s[..k], s[k..]);
    }
  }
}
