/**
 A grammar for RESP2 replies, and the parser's agreement with it.

 A `Reply` is a concrete syntax tree: it keeps the text of every count, so that trees and
 byte strings correspond one to one. Sections "Simple strings", "Simple errors",
 "Integers", "Bulk strings" and "Arrays" of the Redis serialization protocol specification.
 */
module Grammar {
  import opened Wrappers
  import opened Decimal
  import opened Resp
  import opened Parser

  datatype Reply =
    | Simple(text: string)
    | Error(text: string)
    | Integer(digits: string)
    | Bulk(digits: string, payload: string)
    | NilBulk(digits: string)
    | NilArray(digits: string)
    | List(digits: string, items: seq<Reply>)

  /** The text up to a terminator: it does not contain one. */
  predicate IsLine(s: string) {
    forall i :: 0 <= i < |s| - 1 ==> !(s[i] == '\r' && s[i + 1] == '\n')
  }

  /** `digits` writes a number of 64 bits, with or without a sign. */
  predicate IsNumber(digits: string) {
    IsNumeral(digits) && -0x8000_0000_0000_0000 <= NumeralValue(digits) <= 0x7FFF_FFFF_FFFF_FFFF
  }

  function NumberOf(digits: string): int64
    requires IsNumber(digits)
  {
    NumeralValue(digits)
  }

  predicate Denotes(digits: string, n: int) {
    IsNumber(digits) && NumberOf(digits) == n
  }

  lemma TextDenotes(n: nat)
    requires n <= INT64_MAX
    ensures Denotes(Text(n), n)
  {
    NumeralOfText(n);
    hide IsNumeral, NumeralValue, Text;
  }

  lemma CastIs(digits: string)
    ensures LexicalCast(digits) == if IsNumber(digits) then Some(NumberOf(digits)) else None
  {
    CastIff(digits);
    hide LexicalCast;
  }

  predicate WellFormed(t: Reply) {
    match t
    case Simple(text) => IsLine(text)
    case Error(text) => IsLine(text)
    case Integer(digits) => IsNumber(digits)
    case Bulk(digits, payload) => Denotes(digits, |payload|)
    case NilBulk(digits) => Denotes(digits, -1)
    case NilArray(digits) => Denotes(digits, -1)
    case List(digits, items) => Denotes(digits, |items|) && forall i :: 0 <= i < |items| ==> WellFormed(items[i])
  }

  predicate AllWellFormed(ts: seq<Reply>) {
    forall i :: 0 <= i < |ts| ==> WellFormed(ts[i])
  }

  function Print(t: Reply): string
    decreases t, 0
  {
    match t
    case Simple(text) => "+" + (text + CRLF)
    case Error(text) => "-" + (text + CRLF)
    case Integer(digits) => ":" + (digits + CRLF)
    case Bulk(digits, payload) => "$" + (digits + CRLF + (payload + CRLF))
    case NilBulk(digits) => "$" + (digits + CRLF)
    case NilArray(digits) => "*" + (digits + CRLF)
    case List(digits, items) => "*" + (digits + CRLF + PrintAll(items))
  }

  function PrintAll(ts: seq<Reply>): string
    decreases ts, 1
  {
    if ts == [] then "" else Print(ts[0]) + PrintAll(ts[1..])
  }

  /** The first error of a tree, depth first. */
  function FirstError(t: Reply): Option<string>
    decreases t, 0
  {
    match t
    case Error(text) => Some(text)
    case List(_, items) => FirstErrorOf(items)
    case _ => None
  }

  function FirstErrorOf(ts: seq<Reply>): Option<string>
    decreases ts, 1
  {
    if ts == [] then None
    else if FirstError(ts[0]).Some? then FirstError(ts[0])
    else FirstErrorOf(ts[1..])
  }

  /** The value of a tree that holds no error. */
  function Eval(t: Reply): Value
    requires WellFormed(t) && FirstError(t).None?
    decreases t, 0
  {
    match t
    case Simple(text) => Str(text)
    case Integer(digits) => Int(NumberOf(digits))
    case Bulk(_, payload) => Str(payload)
    case NilBulk(_) => Nil
    case NilArray(_) => Nil
    case List(_, items) => Array(EvalAll(items))
  }

  function EvalAll(ts: seq<Reply>): (vs: seq<Value>)
    requires AllWellFormed(ts) && FirstErrorOf(ts).None?
    ensures |vs| == |ts|
    decreases ts, 1
  {
    if ts == [] then [] else [Eval(ts[0])] + EvalAll(ts[1..])
  }

  /**
   What parsing a printed tree must give. An error met inside an array is reported with
   the length of the error alone.
   */
  function Outcome(t: Reply): ParseResult
    requires WellFormed(t)
  {
    match FirstError(t)
    case None => Positive(Eval(t), |Print(t)|)
    case Some(text) => ServerError(text, |text| + 3)
  }

  // ---------------------------------------------------------------- lines

  lemma {:induction false} FindCrlfAfterLine(line: string, rest: string)
    requires IsLine(line)
    ensures FindCrlf(line + CRLF + rest) == |line|
  {
    var s := line + CRLF + rest;
    if line == "" {
      assert s[..2] == CRLF;
    } else {
      assert s[1..] == line[1..] + CRLF + rest;
      FindCrlfAfterLine(line[1..], rest);
      assert s[0] == line[0];
      assert s[1] == if |line| > 1 then line[1] else '\r';
    }
  }

  lemma {:induction false} FindCrlfFinds(s: string)
    requires FindCrlf(s) < |s|
    ensures IsLine(s[..FindCrlf(s)])
    ensures s == s[..FindCrlf(s)] + CRLF + s[FindCrlf(s) + 2..]
  {
    if CRLF <= s {
    } else {
      FindCrlfFinds(s[1..]);
      var i := FindCrlf(s);
      assert s[..i] == [s[0]] + s[1..][..i - 1];
      if i > 1 {
        assert s[1] == s[1..][..i - 1][0];
      }
    }
  }

  lemma CastIsLine(digits: string)
    requires IsNumber(digits)
    ensures IsLine(digits)
  {
    forall k | 1 <= k < |digits|
      ensures digits[k] != '\n'
    {
      if digits[0] == '-' || digits[0] == '+' {
        assert digits[1..][k - 1] == digits[k];
      }
    }
  }

  /** A printed count is read back whatever follows it. */
  lemma ParseIntOfPrinted(digits: string, rest: string)
    requires IsNumber(digits)
    ensures ParseInt(digits + CRLF + rest, 1) == Positive(Int(NumberOf(digits)), |digits| + 3)
  {
    CastIs(digits);
    CastIsLine(digits);
    hide LexicalCast, IsNumber, NumberOf;
    FindCrlfAfterLine(digits, rest);
    assert (digits + CRLF + rest)[..|digits|] == digits;
  }

  // ---------------------------------------------------------------- completeness

  lemma ParseLine(intro: char, text: string, rest: string)
    requires IsLine(text) && (intro == '+' || intro == '-')
    ensures Parse([intro] + (text + CRLF) + rest) ==
            if intro == '+' then Positive(Str(text), |text| + 3) else ServerError(text, |text| + 3)
  {
    var s := [intro] + (text + CRLF) + rest;
    assert s[1..] == text + CRLF + rest;
    FindCrlfAfterLine(text, rest);
    assert s[1..][..|text|] == text;
  }

  lemma ParseCounted(intro: char, digits: string, rest: string)
    requires IsNumber(digits) && intro in ":$*"
    ensures
      var s := [intro] + (digits + CRLF) + rest;
      var count := NumberOf(digits);
      && s[1..] == digits + CRLF + rest
      && s[1..][|digits| + 2..] == rest
      && ParseInt(s[1..], 1) == Positive(Int(count), |digits| + 3)
      && Parse(s) == match intro
                     case ':' => Positive(Int(count), |digits| + 3)
                     case '$' => ParseBulk(s[1..], 1)
                     case _ => ParseArray(s[1..], 1)
  {
    var s := [intro] + (digits + CRLF) + rest;
    assert s[1..] == digits + CRLF + rest;
    ParseIntOfPrinted(digits, rest);
    hide ParseInt, ParseBulk, ParseArray;
  }

  lemma ParseBulkOfPrint(digits: string, payload: string, rest: string)
    requires Denotes(digits, |payload|)
    ensures ParseBulk(digits + CRLF + (payload + CRLF + rest), 1) ==
            Positive(Str(payload), |digits| + |payload| + 5)
  {
    hide ParseInt, IsNumber, NumberOf;
    var s := digits + CRLF + (payload + CRLF + rest);
    ParseIntOfPrinted(digits, payload + CRLF + rest);
    var head := |digits| + 2;
    var tail := head + |payload|;
    assert s == digits + CRLF + payload + CRLF + rest;
    assert s[head..tail] == payload;
    assert s[tail..tail + 2] == CRLF;
  }

  lemma ParseNil(digits: string, rest: string)
    requires Denotes(digits, -1)
    ensures ParseBulk(digits + CRLF + rest, 1) == Positive(Nil, |digits| + 3)
    ensures ParseArray(digits + CRLF + rest, 1) == Positive(Nil, |digits| + 3)
  {
    ParseIntOfPrinted(digits, rest);
    hide ParseInt, IsNumber, NumberOf;
  }

  /** The array parser once its count has been read. */
  lemma ParseArrayAfter(bytes: string, count: int64, consumed: nat)
    requires ParseInt(bytes, 1) == Positive(Int(count), consumed) && count >= 0
    ensures ParseArray(bytes, 1) ==
            match ParseElements(bytes[consumed - 1..], count)
            case Complete(vs, more) => Positive(Array(vs), consumed + more)
            case Stopped(outcome) => outcome
  {
    hide Parse, ParseElements;
  }

  lemma ParseArrayCounted(digits: string, count: nat, rest: string)
    requires Denotes(digits, count)
    ensures ParseArray(digits + CRLF + rest, 1) ==
            match ParseElements(rest, count)
            case Complete(vs, more) => Positive(Array(vs), |digits| + 3 + more)
            case Stopped(outcome) => outcome
  {
    ParseIntOfPrinted(digits, rest);
    ParseArrayAfter(digits + CRLF + rest, count, |digits| + 3);
    hide Parse, ParseArray, ParseInt, ParseElements, IsNumber, NumberOf;
    assert (digits + CRLF + rest)[|digits| + 3 - 1..] == rest;
  }

  /** Completeness: a printed tree is parsed as its outcome, whatever follows it. */
  lemma {:induction false} ParseOfPrint(t: Reply, rest: string)
    requires WellFormed(t)
    ensures Parse(Print(t) + rest) == Outcome(t)
    decreases t, 0, 1
  {
    hide Parse, ParseInt, ParseBulk, ParseArray, ParseElements, IsNumber, NumberOf;
    match t
    case Simple(text) => ParseLine('+', text, rest);
    case Error(text) => ParseLine('-', text, rest);
    case Integer(digits) => ParseCounted(':', digits, rest);
    case Bulk(digits, payload) =>
      assert Print(t) + rest == "$" + (digits + CRLF) + (payload + CRLF + rest);
      ParseCounted('$', digits, payload + CRLF + rest);
      ParseBulkOfPrint(digits, payload, rest);
    case NilBulk(digits) =>
      ParseCounted('$', digits, rest);
      ParseNil(digits, rest);
    case NilArray(digits) =>
      ParseCounted('*', digits, rest);
      ParseNil(digits, rest);
    case List(_, _) => ParseOfPrintedList(t, rest);
  }

  lemma {:induction false} ParseOfPrintedList(t: Reply, rest: string)
    requires WellFormed(t) && t.List?
    ensures Parse(Print(t) + rest) == Outcome(t)
    decreases t, 0, 0
  {
    hide Parse, ParseInt, ParseArray, ParseElements, IsNumber, NumberOf, PrintAll, EvalAll, FirstErrorOf;
    var List(digits, items) := t;
    assert Print(t) + rest == "*" + (digits + CRLF) + (PrintAll(items) + rest);
    ParseCounted('*', digits, PrintAll(items) + rest);
    ParseArrayCounted(digits, |items|, PrintAll(items) + rest);
    ParseAllOfPrint(items, 0, rest);
    NoElements(rest);
    if FirstError(t).None? {
      assert EvalAll(items) + [] == EvalAll(items);
    }
  }

  /** A run of printed trees, then `more` elements still to be read. */
  lemma {:induction false} ParseAllOfPrint(ts: seq<Reply>, more: nat, rest: string)
    requires AllWellFormed(ts)
    ensures ParseElements(PrintAll(ts) + rest, |ts| + more) ==
            match FirstErrorOf(ts)
            case None => Joined(EvalAll(ts), |PrintAll(ts)|, ParseElements(rest, more))
            case Some(text) => Stopped(ServerError(text, |text| + 3))
    decreases ts, 1
  {
    hide Parse, ParseElements, Print, WellFormed, Eval, FirstError, Outcome;
    if ts == [] {
      assert PrintAll(ts) + rest == rest;
      JoinedEmpty(ParseElements(rest, more));
    } else {
      var t := ts[0];
      var tail := PrintAll(ts[1..]) + rest;
      var s := PrintAll(ts) + rest;
      assert s == Print(t) + tail;
      ParseOfPrint(t, tail);
      FirstElement(s, |ts| + more);
      OutcomeIs(t);
      if FirstError(t).None? {
        assert s[|Print(t)|..] == tail;
        ParseAllOfPrint(ts[1..], more, rest);
        if FirstErrorOf(ts).None? {
          JoinedAssociates([Eval(t)], |Print(t)|, EvalAll(ts[1..]), |PrintAll(ts[1..])|, ParseElements(rest, more));
        }
      }
    }
  }

  lemma OutcomeIs(t: Reply)
    requires WellFormed(t)
    ensures Outcome(t) == match FirstError(t)
                          case None => Positive(Eval(t), |Print(t)|)
                          case Some(text) => ServerError(text, |text| + 3)
  {
  }

  // ---------------------------------------------------------------- soundness

  /** What a value says about the bytes it was read from. */
  lemma ReadLine(bytes: string)
    requires ParseString(bytes, 1).Positive?
    ensures
      var Positive(Str(text), consumed) := ParseString(bytes, 1);
      && IsLine(text)
      && consumed == |text| + 3 <= |bytes| + 1
      && bytes == text + CRLF + bytes[consumed - 1..]
  {
    FindCrlfFinds(bytes);
  }

  lemma ReadCount(bytes: string) returns (digits: string)
    requires ParseInt(bytes, 1).Positive?
    ensures
      var r := ParseInt(bytes, 1);
      && r.result.Int? && Denotes(digits, r.result.number)
      && r.consumed == |digits| + 3 <= |bytes| + 1
      && bytes == digits + CRLF + bytes[r.consumed - 1..]
  {
    ReadLine(bytes);
    digits := ParseString(bytes, 1).result.text;
    CastIs(digits);
    hide LexicalCast, IsNumber, NumberOf;
  }

  ghost predicate Reads(s: string, t: Reply) {
    && WellFormed(t)
    && FirstError(t).None?
    && Parse(s) == Positive(Eval(t), |Print(t)|)
    && Print(t) <= s
  }

  lemma ReadBulkPayload(bytes: string)
    requires ParseBulk(bytes, 1).Positive?
    ensures ParseInt(bytes, 1).Positive? && ParseInt(bytes, 1).result.Int?
    ensures
      var consumed := ParseInt(bytes, 1).consumed;
      var count := ParseInt(bytes, 1).result.number;
      if count == -1 then ParseBulk(bytes, 1) == Positive(Nil, consumed)
      else
        && ParseBulk(bytes, 1).result.Str?
        && var payload := ParseBulk(bytes, 1).result.text;
        && |payload| == count
        && ParseBulk(bytes, 1).consumed == consumed + count + 2 <= |bytes| + 1
        && payload + CRLF <= bytes[consumed - 1..]
  {
    ReadLine(bytes);
    var consumed := ParseInt(bytes, 1).consumed;
    var count := ParseInt(bytes, 1).result.number;
    hide ParseInt, IsNumber, NumberOf;
    if count >= 0 {
      var tail := consumed - 1 + count;
      assert bytes[consumed - 1..] == bytes[consumed - 1..tail] + bytes[tail..tail + 2] + bytes[tail + 2..];
    }
  }

  lemma ReadBulk(bytes: string) returns (t: Reply)
    requires ParseBulk(bytes, 1).Positive?
    ensures WellFormed(t) && FirstError(t).None?
    ensures ParseBulk(bytes, 1) == Positive(Eval(t), |Print(t)|)
    ensures Print(t) <= "$" + bytes
  {
    var digits := ReadCount(bytes);
    var r := ParseInt(bytes, 1);
    var count := r.result.number;
    ReadBulkPayload(bytes);
    hide ParseInt, ParseBulk, IsNumber, NumberOf;
    assert "$" + bytes == "$" + (digits + CRLF) + bytes[|digits| + 2..];
    if count == -1 {
      t := NilBulk(digits);
    } else {
      t := Bulk(digits, ParseBulk(bytes, 1).result.text);
    }
  }

  /** Soundness: a value is only ever read from the printed form of a tree for it. */
  lemma {:induction false} ParseSound(s: string) returns (t: Reply)
    requires Parse(s).Positive?
    ensures Reads(s, t)
    decreases |s|, 0
  {
    var rest := s[1..];
    assert s == [s[0]] + rest;
    match s[0]
    case '+' =>
      ReadLine(rest);
      t := Simple(ParseString(rest, 1).result.text);
    case ':' =>
      var digits := ReadCount(rest);
      t := Integer(digits);
    case '$' =>
      t := ReadBulk(rest);
    case '*' =>
      t := ReadArray(rest);
  }

  lemma {:induction false} ReadArray(bytes: string) returns (t: Reply)
    requires ParseArray(bytes, 1).Positive?
    ensures WellFormed(t) && FirstError(t).None?
    ensures ParseArray(bytes, 1) == Positive(Eval(t), |Print(t)|)
    ensures Print(t) <= "*" + bytes
    decreases |bytes|, 2
  {
    var digits := ReadCount(bytes);
    var count := ParseInt(bytes, 1).result.number;
    hide Parse, ParseInt, IsNumber, NumberOf;
    if count == -1 {
      t := NilArray(digits);
    } else {
      var body := bytes[|digits| + 2..];
      var items := ReadElements(body, count);
      t := List(digits, items);
      assert bytes == digits + CRLF + body;
      assert PrintAll(items) <= body;
    }
  }

  lemma ReadsMore(bytes: string, count: nat, t: Reply, more: seq<Reply>)
    requires count > 0 && |more| == count - 1 && Reads(bytes, t)
    requires AllWellFormed(more) && FirstErrorOf(more).None?
    requires ParseElements(bytes[|Print(t)|..], count - 1) == Complete(EvalAll(more), |PrintAll(more)|)
    requires PrintAll(more) <= bytes[|Print(t)|..]
    ensures
      var ts := [t] + more;
      && AllWellFormed(ts) && FirstErrorOf(ts).None?
      && ParseElements(bytes, count) == Complete(EvalAll(ts), |PrintAll(ts)|)
      && PrintAll(ts) <= bytes
  {
    hide Parse, ParseElements, Print, WellFormed, Eval, FirstError;
    FirstElement(bytes, count);
    assert ([t] + more)[1..] == more;
    assert bytes == Print(t) + bytes[|Print(t)|..];
  }

  lemma {:induction false} ReadElements(bytes: string, count: nat) returns (ts: seq<Reply>)
    requires ParseElements(bytes, count).Complete?
    ensures |ts| == count && AllWellFormed(ts) && FirstErrorOf(ts).None?
    ensures ParseElements(bytes, count) == Complete(EvalAll(ts), |PrintAll(ts)|)
    ensures PrintAll(ts) <= bytes
    decreases |bytes|, 1, count
  {
    hide Parse, ParseElements;
    if count == 0 {
      NoElements(bytes);
      ts := [];
    } else {
      FirstElement(bytes, count);
      var t := ParseSound(bytes);
      var rest := bytes[|Print(t)|..];
      var more := ReadElements(rest, count - 1);
      ts := [t] + more;
      ReadsMore(bytes, count, t, more);
    }
  }
}
