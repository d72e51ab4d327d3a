/**
 How a verdict depends on the bytes that have not arrived yet.

 Everything here is about `raw_parse` on the bytes read so far: which verdicts are final,
 and which bytes of a reply are needed to reach one.
 */
module Streaming {
  import opened Decimal
  import opened Resp
  import opened Parser
  import opened Grammar

  // ---------------------------------------------------------------- verdicts are final

  lemma StringStable(bytes: string, already: nat, more: string)
    requires ParseString(bytes, already) != Incomplete
    ensures ParseString(bytes + more, already) == ParseString(bytes, already)
  {
    FindCrlfFinds(bytes);
    var i := FindCrlf(bytes);
    assert bytes + more == bytes[..i] + CRLF + (bytes[i + 2..] + more);
    FindCrlfAfterLine(bytes[..i], bytes[i + 2..] + more);
    assert (bytes + more)[..i] == bytes[..i];
  }

  lemma IntStable(bytes: string, already: nat, more: string)
    requires ParseInt(bytes, already) != Incomplete
    ensures ParseInt(bytes + more, already) == ParseInt(bytes, already)
  {
    StringStable(bytes, already, more);
  }

  lemma CountFits(bytes: string)
    requires ParseInt(bytes, 1).Positive?
    ensures ParseInt(bytes, 1).result.Int? && 3 <= ParseInt(bytes, 1).consumed <= |bytes| + 1
  {
    ReadLine(bytes);
  }

  lemma BulkStable(bytes: string, more: string)
    requires ParseBulk(bytes, 1) != Incomplete
    ensures ParseBulk(bytes + more, 1) == ParseBulk(bytes, 1)
  {
    hide ParseInt;
    IntStable(bytes, 1, more);
    if ParseInt(bytes, 1).Positive? {
      CountFits(bytes);
      BulkPayloadStable(bytes, ParseInt(bytes, 1).result.number, ParseInt(bytes, 1).consumed, more);
    }
  }

  lemma BulkPayloadStable(bytes: string, count: int64, consumed: nat, more: string)
    requires ParseInt(bytes, 1) == ParseInt(bytes + more, 1) == Positive(Int(count), consumed)
    requires 3 <= consumed <= |bytes| + 1 && ParseBulk(bytes, 1) != Incomplete
    ensures ParseBulk(bytes + more, 1) == ParseBulk(bytes, 1)
  {
    hide ParseInt;
    var tail := consumed - 1 + count;
    if count >= 0 {
      assert (bytes + more)[tail..tail + 2] == bytes[tail..tail + 2];
      assert (bytes + more)[consumed - 1..tail] == bytes[consumed - 1..tail];
    }
  }

  /** Any verdict but "not enough data" is unchanged by whatever is appended. */
  lemma {:induction false} VerdictStable(bytes: string, more: string)
    requires Parse(bytes) != Incomplete
    ensures Parse(bytes + more) == Parse(bytes)
    decreases |bytes|, 0
  {
    var rest := bytes[1..];
    assert (bytes + more)[1..] == rest + more;
    match bytes[0]
    case '+' => StringStable(rest, 1, more);
    case '-' => StringStable(rest, 1, more);
    case ':' => IntStable(rest, 1, more);
    case '$' => BulkStable(rest, more);
    case '*' => ArrayStable(rest, more);
    case _ =>
  }

  lemma {:induction false} ArrayStable(bytes: string, more: string)
    requires ParseArray(bytes, 1) != Incomplete
    ensures ParseArray(bytes + more, 1) == ParseArray(bytes, 1)
    decreases |bytes|, 2
  {
    hide Parse, ParseInt, ParseElements;
    IntStable(bytes, 1, more);
    if ParseInt(bytes, 1).Positive? && ParseInt(bytes, 1).result.Int? && ParseInt(bytes, 1).result.number >= 0 {
      CountFits(bytes);
      var count := ParseInt(bytes, 1).result.number;
      var consumed := ParseInt(bytes, 1).consumed;
      ParseArrayAfter(bytes, count, consumed);
      ParseArrayAfter(bytes + more, count, consumed);
      hide ParseArray;
      assert (bytes + more)[consumed - 1..] == bytes[consumed - 1..] + more;
      ElementsStable(bytes[consumed - 1..], count, more);
    }
  }

  lemma {:induction false} ElementsStable(bytes: string, count: nat, more: string)
    requires ParseElements(bytes, count) != Stopped(Incomplete)
    ensures ParseElements(bytes + more, count) == ParseElements(bytes, count)
    decreases |bytes|, 1, count
  {
    hide Parse, ParseElements;
    if count == 0 {
      NoElements(bytes);
      NoElements(bytes + more);
    } else {
      FirstElement(bytes, count);
      FirstElement(bytes + more, count);
      VerdictStable(bytes, more);
      if Parse(bytes).Positive? {
        var consumed := Parse(bytes).consumed;
        assert (bytes + more)[consumed..] == bytes[consumed..] + more;
        ElementsStable(bytes[consumed..], count - 1, more);
      }
    }
  }

  // ---------------------------------------------------------------- and no other verdict is

  lemma {:induction false} NoCrlfIsLine(s: string)
    requires FindCrlf(s) == |s|
    ensures IsLine(s)
  {
    if s != "" {
      NoCrlfIsLine(s[1..]);
      forall i | 0 <= i < |s| - 1
        ensures !(s[i] == '\r' && s[i + 1] == '\n')
      {
        if i > 0 {
          assert s[1..][i - 1] == s[i] && s[1..][i] == s[i + 1];
        }
      }
    }
  }

  /** A terminator closes an unfinished line, and nothing is left over. */
  lemma CloseLine(bytes: string)
    requires ParseString(bytes, 1) == Incomplete
    ensures ParseString(bytes + CRLF, 1) == Positive(Str(bytes), |bytes| + 3)
  {
    NoCrlfIsLine(bytes);
    FindCrlfAfterLine(bytes, "");
    assert bytes + CRLF + "" == bytes + CRLF;
    assert (bytes + CRLF)[..|bytes|] == bytes;
  }

  predicate Settled(r: ParseResult, length: nat) {
    r != Incomplete && (r.Positive? ==> r.consumed == length)
  }

  lemma CloseCount(bytes: string)
    requires ParseInt(bytes, 1) == Incomplete
    ensures Settled(ParseInt(bytes + CRLF, 1), |bytes| + 3)
  {
    CloseLine(bytes);
  }

  /** A bulk string of unfinished length can always be spoilt. */
  lemma SpoilBulk(bytes: string) returns (more: string)
    requires ParseInt(bytes, 1).Positive? && ParseBulk(bytes, 1) == Incomplete
    ensures ParseBulk(bytes + more, 1) == ProtocolError(BulkTerminator)
  {
    CountFits(bytes);
    var count := ParseInt(bytes, 1).result.number;
    var head := ParseInt(bytes, 1).consumed - 1;
    more := seq(count + 2, _ => 'x');
    IntStable(bytes, 1, more);
    hide ParseInt;
    var tail := head + count;
    assert (bytes + more)[tail + 1] == 'x';
    assert (bytes + more)[tail..tail + 2][1] == 'x';
  }

  lemma SettleBulk(bytes: string) returns (more: string)
    requires ParseBulk(bytes, 1) == Incomplete
    ensures Settled(ParseBulk(bytes + more, 1), |bytes + more| + 1)
  {
    hide ParseInt;
    if ParseInt(bytes, 1).Positive? {
      more := SpoilBulk(bytes);
    } else {
      CloseCount(bytes);
      more := CRLF;
      if ParseInt(bytes + CRLF, 1).Positive? {
        CountFits(bytes + CRLF);
      }
      if ParseInt(bytes + CRLF, 1).Positive? && ParseBulk(bytes + CRLF, 1) == Incomplete {
        var filler := SpoilBulk(bytes + CRLF);
        more := CRLF + filler;
        assert bytes + CRLF + filler == bytes + more;
      }
    }
  }

  /** Some continuation of an undecided input is decided, with no byte to spare. */
  lemma {:induction false} Settle(bytes: string) returns (more: string)
    requires Parse(bytes) == Incomplete
    ensures Settled(Parse(bytes + more), |bytes + more|)
    decreases |bytes|, 0
  {
    if bytes == "" {
      more := ",";
      return;
    }
    var rest := bytes[1..];
    match bytes[0] {
      case '+' =>
        more := CRLF;
        CloseLine(rest);
      case '-' =>
        more := CRLF;
        CloseLine(rest);
      case ':' =>
        more := CRLF;
        CloseCount(rest);
      case '$' =>
        more := SettleBulk(rest);
      case '*' =>
        more := SettleArray(rest);
    }
    hide ParseString, ParseInt, ParseBulk, ParseArray;
    assert bytes + more == [bytes[0]] + (rest + more);
    assert (bytes + more)[1..] == rest + more;
  }

  lemma {:induction false} SettleArray(bytes: string) returns (more: string)
    requires ParseArray(bytes, 1) == Incomplete
    ensures Settled(ParseArray(bytes + more, 1), |bytes + more| + 1)
    decreases |bytes|, 2
  {
    hide Parse, ParseInt;
    if ParseInt(bytes, 1).Positive? {
      more := SettleBody(bytes);
    } else {
      more := CRLF;
      CloseCount(bytes);
      if ParseInt(bytes + CRLF, 1).Positive? {
        CountFits(bytes + CRLF);
        if ParseInt(bytes + CRLF, 1).result.number > 0 {
          more := CRLF + ",";
          SpoilEmptyBody(bytes + CRLF);
          assert bytes + CRLF + "," == bytes + more;
        }
      }
    }
  }

  lemma SpoilEmptyBody(bytes: string)
    requires ParseInt(bytes, 1).Positive? && ParseInt(bytes, 1).result.Int?
    requires ParseInt(bytes, 1).consumed == |bytes| + 1 && ParseInt(bytes, 1).result.number > 0
    ensures ParseArray(bytes + ",", 1) == ProtocolError(WrongIntroduction)
  {
    CountFits(bytes);
    IntStable(bytes, 1, ",");
    var count := ParseInt(bytes, 1).result.number;
    hide ParseInt, ParseElements, Parse;
    ParseArrayAfter(bytes + ",", count, |bytes| + 1);
    assert (bytes + ",")[|bytes| + 1 - 1..] == ",";
    WrongElement(count);
    hide ParseArray;
  }

  lemma UnfinishedBody(bytes: string)
    requires ParseInt(bytes, 1).Positive? && ParseArray(bytes, 1) == Incomplete
    ensures
      var header := ParseInt(bytes, 1);
      && header.result.Int? && header.result.number > 0 && 3 <= header.consumed <= |bytes| + 1
      && ParseElements(bytes[header.consumed - 1..], header.result.number) == Stopped(Incomplete)
  {
    CountFits(bytes);
    hide Parse, ParseInt;
  }

  lemma {:induction false} SettleBody(bytes: string) returns (more: string)
    requires ParseInt(bytes, 1).Positive? && ParseArray(bytes, 1) == Incomplete
    ensures Settled(ParseArray(bytes + more, 1), |bytes + more| + 1)
    decreases |bytes|, 1
  {
    hide Parse, ParseInt, ParseElements, ParseArray;
    UnfinishedBody(bytes);
    var count := ParseInt(bytes, 1).result.number;
    var consumed := ParseInt(bytes, 1).consumed;
    more := SettleElements(bytes[consumed - 1..], count);
    IntStable(bytes, 1, more);
    ParseArrayAfter(bytes + more, count, consumed);
    assert (bytes + more)[consumed - 1..] == bytes[consumed - 1..] + more;
  }

  lemma {:induction false} SettleElements(bytes: string, count: nat) returns (more: string)
    requires ParseElements(bytes, count) == Stopped(Incomplete)
    ensures ParseElements(bytes + more, count) != Stopped(Incomplete)
    ensures ParseElements(bytes + more, count).Complete? ==>
              ParseElements(bytes + more, count).consumed == |bytes + more|
    decreases |bytes|, 1, count
  {
    hide Parse, ParseElements;
    if count == 0 {
      NoElements(bytes);
    } else {
      FirstElement(bytes, count);
    }
    if Parse(bytes).Positive? {
      var consumed := Parse(bytes).consumed;
      more := SettleElements(bytes[consumed..], count - 1);
      VerdictStable(bytes, more);
      FirstElement(bytes + more, count);
      assert (bytes + more)[consumed..] == bytes[consumed..] + more;
    } else {
      more := Settle(bytes);
      FirstElement(bytes + more, count);
      if Parse(bytes + more).Positive? {
        if count == 1 {
          LastElement(bytes + more);
        } else {
          SpoilNext(bytes + more, count);
          assert bytes + more + "," == bytes + (more + ",");
          more := more + ",";
        }
      }
    }
  }

  lemma LastElement(bytes: string)
    requires Parse(bytes).Positive? && Parse(bytes).consumed == |bytes|
    ensures ParseElements(bytes, 1) == Complete([Parse(bytes).result], |bytes|)
  {
    hide Parse, ParseElements;
    FirstElement(bytes, 1);
    NoElements(bytes[|bytes|..]);
    assert [Parse(bytes).result] + [] == [Parse(bytes).result];
  }

  lemma SpoilNext(bytes: string, count: nat)
    requires count > 1 && Parse(bytes).Positive? && Parse(bytes).consumed == |bytes|
    ensures ParseElements(bytes + ",", count) == Stopped(ProtocolError(WrongIntroduction))
  {
    VerdictStable(bytes, ",");
    hide Parse, ParseElements;
    WrongElement(count - 1);
    FirstElement(bytes + ",", count);
    assert (bytes + ",")[|bytes|..] == ",";
  }

  lemma WrongElement(count: nat)
    requires count > 0
    ensures ParseElements(",", count) == Stopped(ProtocolError(WrongIntroduction))
  {
    assert Parse(",") == ProtocolError(WrongIntroduction);
    hide Parse, ParseElements;
    FirstElement(",", count);
  }
}
