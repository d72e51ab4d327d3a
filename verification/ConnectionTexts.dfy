/**
 The texts a connection string is made of, without reference to how they are parsed, and what
 the parser's functions make of each.
 */
module ConnectionTexts {
  import opened Wrappers
  import opened Decimal
  import opened ConnectionString

  // ---------------------------------------------------------------- searching

  lemma {:induction false} FindChar(before: string, c: char, after: string)
    requires c !in before
    ensures Find(before + [c] + after, [c]) == |before|
  {
    var s := before + [c] + after;
    if before != "" {
      assert s[0] == before[0] && s[1..] == before[1..] + [c] + after;
      FindChar(before[1..], c, after);
    }
  }

  lemma {:induction false} FindNoChar(s: string, c: char)
    requires c !in s
    ensures Find(s, [c]) == |s|
  {
    if s != "" {
      assert s[0] in s && !([c] <= s);
      FindNoChar(s[1..], c);
    }
  }

  predicate Lacks(s: string, c: char) {
    c !in s
  }

  lemma LacksBoth(s: string, t: string, c: char)
    requires Lacks(s, c) && Lacks(t, c)
    ensures Lacks(s + t, c)
  {
  }

  lemma LacksBefore(d: char, s: string, c: char)
    requires Lacks(s, c) && d != c
    ensures Lacks([d] + s, c)
  {
  }

  /** A delimiter before text that lacks it, found from behind. */
  lemma {:induction false} RFindAfter(before: string, c: char, after: string)
    requires Lacks(after, c)
    ensures RFind(before + ([c] + after), c) == Some(|before|)
    decreases |after|
  {
    var s := before + ([c] + after);
    if after != "" {
      assert s[|s| - 1] == after[|after| - 1] && after[|after| - 1] in after;
      assert s[..|s| - 1] == before + ([c] + after[..|after| - 1]);
      RFindAfter(before, c, after[..|after| - 1]);
    } else {
      assert s[|s| - 1] == c;
    }
  }

  lemma CutAfter(before: string, c: char, after: string)
    ensures
      var s := before + ([c] + after);
      s[..|before|] == before && s[|before| + 1..] == after
  {
  }

  function Joined(pieces: seq<string>, separator: char): string
    requires pieces != []
  {
    if |pieces| == 1 then pieces[0] else pieces[0] + [separator] + Joined(pieces[1..], separator)
  }

  lemma {:induction false} SplitOfJoined(pieces: seq<string>, separator: char)
    requires pieces != [] && forall p <- pieces :: separator !in p
    ensures Split(Joined(pieces, separator), separator) == pieces
  {
    assert pieces[0] in pieces;
    var s := Joined(pieces, separator);
    if |pieces| == 1 {
      FindNoChar(pieces[0], separator);
      assert s == pieces[0] && pieces == [pieces[0]];
    } else {
      FindChar(pieces[0], separator, Joined(pieces[1..], separator));
      assert s[|pieces[0]| + 1..] == Joined(pieces[1..], separator);
      assert s[..|pieces[0]|] == pieces[0];
      SplitOfJoined(pieces[1..], separator);
    }
  }

  /** `pattern` is met at the end of `before` and no earlier. */
  predicate FirstMet(before: string, pattern: string) {
    forall i :: 0 <= i < |before| ==> !(pattern <= (before + pattern)[i..])
  }

  lemma {:induction false} FindMet(before: string, pattern: string, after: string)
    requires pattern != "" && FirstMet(before, pattern)
    ensures Find(before + pattern + after, pattern) == |before|
  {
    var s := before + pattern + after;
    if before == "" {
      assert pattern <= s;
    } else {
      assert !(pattern <= (before + pattern)[0..]);
      assert s[..|pattern|] == (before + pattern)[..|pattern|];
      assert s[1..] == before[1..] + pattern + after;
      forall i | 0 <= i < |before[1..]|
        ensures !(pattern <= (before[1..] + pattern)[i..])
      {
        assert (before[1..] + pattern)[i..] == (before + pattern)[i + 1..];
      }
      FindMet(before[1..], pattern, after);
    }
  }

  /** Where it is found, it is met for the first time. */
  lemma {:induction false} FindFinds(s: string, pattern: string)
    requires pattern != "" && Find(s, pattern) < |s|
    ensures
      var i := Find(s, pattern);
      FirstMet(s[..i], pattern) && s == s[..i] + pattern + s[i + |pattern|..]
    decreases |s|
  {
    var i := Find(s, pattern);
    assert s[i..i + |pattern|] == pattern;
    assert s == s[..i] + s[i..i + |pattern|] + s[i + |pattern|..];
    if !(pattern <= s) {
      FindFinds(s[1..], pattern);
      hide Find;
      forall j | 0 <= j < i
        ensures !(pattern <= (s[..i] + pattern)[j..])
      {
        MetLater(s, pattern, i, j);
      }
    }
  }

  lemma MetLater(s: string, pattern: string, i: nat, j: nat)
    requires pattern != "" && !(pattern <= s) && 0 < i <= |s| - |pattern| && s[i..i + |pattern|] == pattern && j < i
    requires FirstMet(s[1..][..i - 1], pattern)
    ensures !(pattern <= (s[..i] + pattern)[j..])
  {
    assert s[..i] + pattern == s[..i + |pattern|];
    if j == 0 {
      assert (s[..i] + pattern)[0..][..|pattern|] == s[..|pattern|];
    } else {
      assert s[1..][..i - 1] + pattern == s[1..i + |pattern|];
      assert (s[..i] + pattern)[j..] == (s[1..][..i - 1] + pattern)[j - 1..];
    }
  }

  // ---------------------------------------------------------------- numbers

  /** White space in the "C" locale. */
  predicate Blank(c: char) {
    c in " \t\n\U{0B}\U{0C}\r"
  }

  predicate AllBlank(s: string) {
    forall i :: 0 <= i < |s| ==> Blank(s[i])
  }

  /** A number as the C library reads it: white space, a sign or none, and digits. */
  datatype Numeral = Numeral(space: string, sign: string, digits: string)

  predicate ValidNumeral(n: Numeral) {
    AllBlank(n.space) && n.sign in ["", "+", "-"] && n.digits != "" && AllDigits(n.digits)
  }

  function Spelled(n: Numeral): string {
    n.space + (n.sign + n.digits)
  }

  function ValueOf(n: Numeral): int
    requires ValidNumeral(n)
  {
    if n.sign == "-" then -(Number(n.digits) as int) else Number(n.digits)
  }

  predicate NoDigit(rest: string) {
    rest == "" || !IsDigit(rest[0])
  }

  /** `n` is the number at the front of `s`, all its digits included. */
  predicate Begins(s: string, n: Numeral) {
    ValidNumeral(n) && Spelled(n) <= s && NoDigit(s[|Spelled(n)|..])
  }

  /** The front of `s` is a number of 32 bits. */
  ghost predicate BeginsWithInt(s: string) {
    exists n :: Begins(s, n) && -0x8000_0000 <= ValueOf(n) <= 0x7FFF_FFFF
  }

  /** The front of `s` is a number whose digits fit in 64 bits, whatever its sign. */
  ghost predicate BeginsWithLong(s: string) {
    exists n :: Begins(s, n) && Number(n.digits) <= 0xFFFF_FFFF_FFFF_FFFF
  }

  lemma BlankIsSpace(c: char)
    ensures Blank(c) <==> IsSpace(c)
  {
  }

  lemma {:induction false} SpacesOf(space: string, rest: string)
    requires AllBlank(space) && (rest == "" || !Blank(rest[0]))
    ensures Spaces(space + rest) == |space|
  {
    if space == "" {
      assert space + rest == rest;
      if rest != "" {
        BlankIsSpace(rest[0]);
      }
    } else {
      BlankIsSpace(space[0]);
      assert (space + rest)[1..] == space[1..] + rest;
      SpacesOf(space[1..], rest);
    }
  }

  lemma {:induction false} DigitRunOf(digits: string, rest: string)
    requires AllDigits(digits) && NoDigit(rest)
    ensures DigitRun(digits + rest) == |digits|
  {
    if digits == "" {
      assert digits + rest == rest;
    } else {
      assert (digits + rest)[1..] == digits[1..] + rest;
      DigitRunOf(digits[1..], rest);
    }
  }

  lemma {:induction false} SpacesEnd(s: string)
    ensures AllBlank(s[..Spaces(s)]) && (Spaces(s) < |s| ==> !IsSpace(s[Spaces(s)]))
  {
    if s != "" {
      BlankIsSpace(s[0]);
      SpacesEnd(s[1..]);
      if IsSpace(s[0]) {
        assert s[..Spaces(s)] == [s[0]] + s[1..][..Spaces(s[1..])];
      }
    }
  }

  lemma {:induction false} DigitRunEnd(s: string)
    ensures DigitRun(s) < |s| ==> !IsDigit(s[DigitRun(s)])
  {
    if s != "" {
      DigitRunEnd(s[1..]);
    }
  }

  lemma SpelledCuts(n: Numeral, rest: string)
    requires ValidNumeral(n)
    ensures
      var s, tail := Spelled(n) + rest, n.sign + (n.digits + rest);
      && s == n.space + tail
      && s[|n.space|..] == tail && tail[|n.sign|..] == n.digits + rest
      && s[|n.space| + |n.sign|..] == n.digits + rest
      && (n.digits + rest)[..|n.digits|] == n.digits
      && tail[0] == (if n.sign == "" then n.digits[0] else n.sign[0])
  {
    hide AllBlank, AllDigits;
    var s, tail := Spelled(n) + rest, n.sign + (n.digits + rest);
    assert s == n.space + tail;
    assert s[|n.space| + |n.sign|..] == tail[|n.sign|..];
  }

  lemma SignIsNotBlank(c: char)
    requires c == '+' || c == '-' || IsDigit(c)
    ensures !Blank(c)
  {
  }

  lemma ScanIs(s: string, i: nat, j: nat, n: nat)
    requires i == Spaces(s) && j == (if i < |s| && (s[i] == '-' || s[i] == '+') then i + 1 else i)
    requires n == DigitRun(s[j..])
    ensures Scan(s) == Scanned(i < |s| && s[i] == '-', s[j..][..n], j + n)
  {
    hide Spaces, DigitRun;
  }

  /** What is scanned of a number with anything after it. */
  lemma ScanNumeral(n: Numeral, rest: string)
    requires ValidNumeral(n) && NoDigit(rest)
    ensures Scan(Spelled(n) + rest) == Scanned(n.sign == "-", n.digits, |Spelled(n)|)
  {
    SpelledCuts(n, rest);
    SpelledLength(n);
    var s, tail := Spelled(n) + rest, n.sign + (n.digits + rest);
    assert IsDigit(n.digits[0]);
    SignIsNotBlank(tail[0]);
    SpacesOf(n.space, tail);
    DigitRunOf(n.digits, rest);
    hide Scan, Spaces, DigitRun, Spelled, AllBlank, AllDigits, Blank, NoDigit;
    assert s[|n.space|] == s[|n.space|..][0] == tail[0];
    ScanIs(s, |n.space|, |n.space| + |n.sign|, |n.digits|);
  }

  lemma SpelledLength(n: Numeral)
    ensures |Spelled(n)| == |n.space| + |n.sign| + |n.digits|
  {
  }

  /** And digits are only scanned where a number begins. */
  lemma NumeralScanned(s: string) returns (n: Numeral)
    requires Scan(s).digits != ""
    ensures Begins(s, n)
  {
    var i := Spaces(s);
    SpacesEnd(s);
    var j := if i < |s| && (s[i] == '-' || s[i] == '+') then i + 1 else i;
    DigitRunEnd(s[j..]);
    var k := DigitRun(s[j..]);
    hide Spaces, DigitRun, Blank, IsDigit, AllBlank, AllDigits;
    n := Numeral(s[..i], s[i..j], s[j..][..k]);
    hide Begins;
    CutIsNumeral(s, i, j, k);
  }

  lemma CutIsNumeral(s: string, i: nat, j: nat, k: nat)
    requires i <= j <= |s| && k <= |s| - j && AllBlank(s[..i]) && AllDigits(s[j..][..k]) && k > 0
    requires j == if i < |s| && (s[i] == '-' || s[i] == '+') then i + 1 else i
    requires k < |s[j..]| ==> !IsDigit(s[j..][k])
    ensures Begins(s, Numeral(s[..i], s[i..j], s[j..][..k]))
  {
    hide AllBlank, AllDigits, IsDigit;
    CutInThree(s, i, j, k);
    assert s[i..j] == if i == j then "" else [s[i]];
    assert k < |s[j..]| ==> s[j..][k..][0] == s[j..][k];
  }

  lemma CutInThree(s: string, i: nat, j: nat, k: nat)
    requires i <= j <= |s| && k <= |s| - j
    ensures
      var front := s[..i] + (s[i..j] + s[j..][..k]);
      |front| == j + k && front <= s && s[|front|..] == s[j..][k..]
  {
  }

  lemma BeginsScan(s: string, n: Numeral)
    requires Begins(s, n)
    ensures Scan(s) == Scanned(n.sign == "-", n.digits, |Spelled(n)|)
  {
    ScanNumeral(n, s[|Spelled(n)|..]);
    assert s == Spelled(n) + s[|Spelled(n)|..];
  }

  /** `stoi` gives a number exactly for a text that begins with one of 32 bits. */
  lemma StoiIff(s: string)
    ensures StoiAccepts(s) <==> BeginsWithInt(s)
  {
    if StoiAccepts(s) {
      var n := NumeralScanned(s);
      BeginsScan(s, n);
      hide Scan;
    }
    if BeginsWithInt(s) {
      var n :| Begins(s, n) && -0x8000_0000 <= ValueOf(n) <= 0x7FFF_FFFF;
      BeginsScan(s, n);
      hide Scan;
    }
  }

  /** So it is with a printed number, whatever space, sign and text there is around it. */
  lemma StoiOfText(space: string, sign: string, n: nat, rest: string)
    requires AllBlank(space) && sign in ["", "+", "-"] && NoDigit(rest)
    ensures StoiAccepts(space + (sign + Text(n)) + rest) <==> n < 0x8000_0000 || (n == 0x8000_0000 && sign == "-")
  {
    ScanNumeral(Numeral(space, sign, Text(n)), rest);
    NumberOfText(n);
    hide Scan, Text, Number;
  }

  /** `stoul` gives the number at the front, in 64 bits if negative, and where it ends. */
  lemma StoulOf(s: string, n: Numeral)
    requires Begins(s, n)
    ensures Stoul(s) ==
            if Number(n.digits) > 0xFFFF_FFFF_FFFF_FFFF then None
            else Some((if n.sign == "-" then (0x1_0000_0000_0000_0000 - Number(n.digits)) % 0x1_0000_0000_0000_0000
                       else Number(n.digits),
                       |Spelled(n)|))
  {
    BeginsScan(s, n);
    hide Scan;
  }

  lemma StoulIff(s: string)
    ensures Stoul(s).Some? <==> BeginsWithLong(s)
  {
    if Scan(s).digits != "" {
      var n := NumeralScanned(s);
      StoulOf(s, n);
    }
    if BeginsWithLong(s) {
      var n :| Begins(s, n) && Number(n.digits) <= 0xFFFF_FFFF_FFFF_FFFF;
      StoulOf(s, n);
    }
    hide Scan;
  }

  // ---------------------------------------------------------------- parameters

  datatype Unit = Milliseconds | Seconds | Minutes

  function Suffix(unit: Unit): string {
    match unit
    case Milliseconds => "ms"
    case Seconds => "s"
    case Minutes => "m"
  }

  function Scale(unit: Unit): nat {
    match unit
    case Milliseconds => 1
    case Seconds => 1000
    case Minutes => 60000
  }

  /** A truth value may be written in letters of either case. */
  predicate AnyCase(text: string, lower: string, upper: string)
    requires |lower| == |upper|
  {
    |text| == |lower| && forall i :: 0 <= i < |text| ==> text[i] == lower[i] || text[i] == upper[i]
  }

  predicate SaysTrue(text: string) {
    AnyCase(text, "true", "TRUE")
  }

  predicate SaysFalse(text: string) {
    AnyCase(text, "false", "FALSE")
  }

  datatype Parameter =
    | KeepAlive(text: string)
    | ConnectTimeout(number: Numeral, unit: Unit)
    | SocketTimeout(number: Numeral, unit: Unit)

  /** Accepted: a truth value, or a number whose digits fit in 64 bits. */
  predicate Readable(p: Parameter) {
    if p.KeepAlive? then SaysTrue(p.text) || SaysFalse(p.text)
    else ValidNumeral(p.number) && Number(p.number.digits) <= 0xFFFF_FFFF_FFFF_FFFF
  }

  /** Accepted, and a timeout fits in 64 bits as milliseconds. */
  predicate ValidParameter(p: Parameter) {
    Readable(p) &&
    (!p.KeepAlive? ==>
       -0x8000_0000_0000_0000 <= ValueOf(p.number) * Scale(p.unit) <= 0x7FFF_FFFF_FFFF_FFFF)
  }

  function Key(p: Parameter): string {
    match p
    case KeepAlive(_) => "keep_alive"
    case ConnectTimeout(_, _) => "connect_timeout"
    case SocketTimeout(_, _) => "socket_timeout"
  }

  function ValueText(p: Parameter): string {
    if p.KeepAlive? then p.text else Spelled(p.number) + Suffix(p.unit)
  }

  function RenderParameter(p: Parameter): string {
    Key(p) + "=" + ValueText(p)
  }

  /** `parameter` is `key` and `value` with the one equals sign between them. */
  predicate IsPair(parameter: string, key: string, value: string) {
    parameter == key + "=" + value && Lacks(key, '=') && Lacks(value, '=')
  }

  predicate IsUnit(text: string) {
    text in ["ms", "s", "m"]
  }

  predicate IsTimeoutKey(key: string) {
    key in ["connect_timeout", "socket_timeout"]
  }

  /** What is wrong with a key and its value. */
  ghost predicate PairFails(key: string, value: string, f: Failure) {
    match f
    case UnknownParameter => key != "keep_alive" && !IsTimeoutKey(key)
    case InvalidBool => key == "keep_alive" && !SaysTrue(value) && !SaysFalse(value)
    case InvalidTimeout => IsTimeoutKey(key) && !BeginsWithLong(value)
    case UnknownUnit =>
      IsTimeoutKey(key) &&
      exists n ::
        Begins(value, n) && Number(n.digits) <= 0xFFFF_FFFF_FFFF_FFFF && !IsUnit(value[|Spelled(n)|..])
    case _ => false
  }

  /** What is wrong with a parameter. */
  ghost predicate Fails(parameter: string, f: Failure) {
    if f == NotKeyValue then forall key, value :: !IsPair(parameter, key, value)
    else exists key, value :: IsPair(parameter, key, value) && PairFails(key, value, f)
  }

  ghost predicate IsReadable(parameter: string) {
    exists p :: Readable(p) && parameter == RenderParameter(p)
  }

  /** `pieces` is what the separator divides `text` into. */
  predicate Divides(text: string, separator: char, pieces: seq<string>) {
    pieces != [] && (forall i :: 0 <= i < |pieces| ==> Lacks(pieces[i], separator)) && Joined(pieces, separator) == text
  }

  /** The first parameter with something wrong with it. */
  ghost predicate FirstFails(pieces: seq<string>, i: nat, f: Failure) {
    i < |pieces| && Fails(pieces[i], f) && forall j :: 0 <= j < i ==> IsReadable(pieces[j])
  }

  ghost predicate TextFails(text: string, f: Failure) {
    text != "" && exists pieces, i :: Divides(text, '&', pieces) && FirstFails(pieces, i, f)
  }

  // ---------------------------------------------------------------- values

  lemma LowerIs(c: char, lower: char, upper: char)
    requires 'a' <= lower <= 'z' && upper as int == lower as int - 32
    ensures LowerChar(c) == lower <==> c == lower || c == upper
  {
  }

  lemma LowerIff(text: string, lower: string, upper: string)
    requires |lower| == |upper|
    requires forall i :: 0 <= i < |lower| ==> 'a' <= lower[i] <= 'z' && upper[i] as int == lower[i] as int - 32
    ensures Lower(text) == lower <==> AnyCase(text, lower, upper)
  {
    forall i | 0 <= i < |text| && i < |lower|
      ensures Lower(text)[i] == lower[i] <==> text[i] == lower[i] || text[i] == upper[i]
    {
      LowerIs(text[i], lower[i], upper[i]);
    }
    hide LowerChar;
    if AnyCase(text, lower, upper) {
      assert Lower(text) == lower;
    }
  }

  lemma BoolIff(text: string)
    ensures ParseBool(text) ==
            if SaysTrue(text) then Ok(true) else if SaysFalse(text) then Ok(false) else Err(InvalidBool)
  {
    LowerIff(text, "true", "TRUE");
    LowerIff(text, "false", "FALSE");
    hide Lower, AnyCase;
  }

  lemma Wraps(n: int)
    requires 0 <= n <= 0x8000_0000_0000_0000
    ensures ToSigned((ULONG_RANGE - n) % ULONG_RANGE) == -n
  {
  }

  lemma UnitIsNoDigit(unit: Unit)
    ensures NoDigit(Suffix(unit)) && IsUnit(Suffix(unit))
  {
  }

  lemma SpelledFront(n: Numeral, rest: string)
    requires ValidNumeral(n) && NoDigit(rest)
    ensures Begins(Spelled(n) + rest, n) && (Spelled(n) + rest)[|Spelled(n)|..] == rest
  {
    hide Spelled, ValidNumeral, NoDigit;
    assert (Spelled(n) + rest)[|Spelled(n)|..] == rest;
  }

  /** A timeout that fits is read as that many milliseconds, whatever space and sign its number has. */
  lemma TimeoutIsRead(number: Numeral, unit: Unit)
    requires ValidNumeral(number) && Number(number.digits) <= 0xFFFF_FFFF_FFFF_FFFF
    ensures
      var r := ParseTimeout(Spelled(number) + Suffix(unit));
      && r.Ok?
      && (-0x8000_0000_0000_0000 <= ValueOf(number) * Scale(unit) <= 0x7FFF_FFFF_FFFF_FFFF ==>
            r.value == ValueOf(number) * Scale(unit))
  {
    UnitIsNoDigit(unit);
    SpelledFront(number, Suffix(unit));
    StoulOf(Spelled(number) + Suffix(unit), number);
    hide Stoul, Spelled, Begins, ValidNumeral, AllDigits, Number;
    var n: int := Number(number.digits);
    if n <= 0x8000_0000_0000_0000 {
      Wraps(n);
    }
  }

  /** How a timeout fails: no number at the front, or no unit after it. */
  lemma TimeoutIff(text: string)
    ensures ParseTimeout(text) == Err(InvalidTimeout) <==> !BeginsWithLong(text)
    ensures ParseTimeout(text) == Err(UnknownUnit) <==>
            exists n :: Begins(text, n) && Number(n.digits) <= 0xFFFF_FFFF_FFFF_FFFF && !IsUnit(text[|Spelled(n)|..])
    ensures ParseTimeout(text).Ok? <==>
            exists n, unit ::
              ValidNumeral(n) && Number(n.digits) <= 0xFFFF_FFFF_FFFF_FFFF && text == Spelled(n) + Suffix(unit)
    ensures ParseTimeout(text).Err? ==> ParseTimeout(text).error in [InvalidTimeout, UnknownUnit]
  {
    StoulIff(text);
    if BeginsWithLong(text) {
      var n :| Begins(text, n) && Number(n.digits) <= 0xFFFF_FFFF_FFFF_FFFF;
      TimeoutOfNumber(text, n);
    }
    forall n | Begins(text, n) && Number(n.digits) <= 0xFFFF_FFFF_FFFF_FFFF
      ensures IsUnit(text[|Spelled(n)|..]) <==> ParseTimeout(text).Ok?
    {
      TimeoutOfNumber(text, n);
    }
    forall n, unit | ValidNumeral(n) && Number(n.digits) <= 0xFFFF_FFFF_FFFF_FFFF && text == Spelled(n) + Suffix(unit)
      ensures ParseTimeout(text).Ok?
    {
      TimeoutIsRead(n, unit);
    }
    hide Stoul, Begins, Spelled, ValidNumeral, IsUnit;
  }

  lemma TimeoutOfNumber(text: string, n: Numeral)
    requires Begins(text, n) && Number(n.digits) <= 0xFFFF_FFFF_FFFF_FFFF
    ensures
      if IsUnit(text[|Spelled(n)|..]) then
        ParseTimeout(text).Ok? && ValidNumeral(n) && exists unit :: text == Spelled(n) + Suffix(unit)
      else ParseTimeout(text) == Err(UnknownUnit)
  {
    StoulOf(text, n);
    hide Stoul, Spelled, ToSigned;
    var rest := text[|Spelled(n)|..];
    assert text == Spelled(n) + rest;
    assert Suffix(Milliseconds) == "ms" && Suffix(Seconds) == "s" && Suffix(Minutes) == "m";
  }

  // ---------------------------------------------------------------- pieces

  lemma {:induction false} FindFirst(s: string, c: char)
    ensures Lacks(s[..Find(s, [c])], c)
  {
    if s != "" && !([c] <= s) {
      FindFirst(s[1..], c);
      assert s[..Find(s, [c])] == [s[0]] + s[1..][..Find(s[1..], [c])];
    }
  }

  /** Splitting gives the pieces that the separator divides the text into, for every text. */
  lemma {:induction false} SplitDivides(text: string, separator: char)
    ensures Divides(text, separator, Split(text, separator))
    decreases |text|
  {
    var i := Find(text, [separator]);
    FindFirst(text, separator);
    if i == |text| {
      assert text[..i] == text;
    } else {
      SplitDivides(text[i + 1..], separator);
      var pieces := Split(text, separator);
      assert pieces[1..] == Split(text[i + 1..], separator);
      assert forall j :: 0 < j < |pieces| ==> pieces[j] == pieces[1..][j - 1];
      assert text == text[..i] + [separator] + text[i + 1..];
    }
  }

  /** And there is only one way to divide it. */
  lemma SplitIff(text: string, separator: char, pieces: seq<string>)
    ensures Split(text, separator) == pieces <==> Divides(text, separator, pieces)
  {
    SplitDivides(text, separator);
    if Divides(text, separator, pieces) {
      forall p <- pieces
        ensures separator !in p
      {
        var i :| 0 <= i < |pieces| && pieces[i] == p;
        assert Lacks(pieces[i], separator);
      }
      SplitOfJoined(pieces, separator);
    }
  }

  lemma PairIff(parameter: string, key: string, value: string)
    ensures Split(parameter, '=') == [key, value] <==> IsPair(parameter, key, value)
  {
    SplitIff(parameter, '=', [key, value]);
    assert [key, value][1..] == [value];
    assert Joined([value], '=') == value;
    assert Joined([key, value], '=') == key + "=" + value;
    hide Split, Joined, Lacks;
    if IsPair(parameter, key, value) {
      assert forall i :: 0 <= i < 2 ==> Lacks([key, value][i], '=');
    }
    if Divides(parameter, '=', [key, value]) {
      assert Lacks([key, value][0], '=') && Lacks([key, value][1], '=');
    }
  }

  lemma PairIsUnique(parameter: string, key: string, value: string, key': string, value': string)
    requires IsPair(parameter, key, value) && IsPair(parameter, key', value')
    ensures key == key' && value == value'
  {
    PairIff(parameter, key, value);
    PairIff(parameter, key', value');
    hide Split;
    assert [key, value][0] == [key', value'][0] && [key, value][1] == [key', value'][1];
  }

  lemma NumeralIsClean(n: Numeral, c: char)
    requires ValidNumeral(n) && c in "&=?/"
    ensures Lacks(Spelled(n), c)
  {
    assert !Blank(c) && !IsDigit(c);
    forall i | 0 <= i < |Spelled(n)|
      ensures Spelled(n)[i] != c
    {
      if i >= |n.space| + |n.sign| {
        assert Spelled(n)[i] == n.digits[i - |n.space| - |n.sign|];
      } else if i < |n.space| {
        assert Spelled(n)[i] == n.space[i];
      }
    }
  }

  lemma KeyIsClean(p: Parameter, c: char)
    requires c in "&=?/"
    ensures Lacks(Key(p), c)
  {
  }

  lemma WordIsClean(text: string, lower: string, upper: string, c: char)
    requires |lower| == |upper| && AnyCase(text, lower, upper) && Lacks(lower, c) && Lacks(upper, c)
    ensures Lacks(text, c)
  {
  }

  lemma SuffixIsClean(unit: Unit, c: char)
    requires c in "&=?/"
    ensures Lacks(Suffix(unit), c)
  {
  }

  /** No text of a parameter holds a delimiter. */
  lemma ValueIsClean(p: Parameter, c: char)
    requires Readable(p) && c in "&=?/"
    ensures Lacks(ValueText(p), c) && Lacks(Key(p), c)
  {
    hide Key, Spelled, ValidNumeral, Suffix, AnyCase, Lacks;
    KeyIsClean(p, c);
    if p.KeepAlive? {
      assert Lacks("true", c) && Lacks("TRUE", c) && Lacks("false", c) && Lacks("FALSE", c) by {
        WordsAreClean(c);
      }
      if SaysTrue(p.text) {
        WordIsClean(p.text, "true", "TRUE", c);
      } else {
        WordIsClean(p.text, "false", "FALSE", c);
      }
    } else {
      NumeralIsClean(p.number, c);
      SuffixIsClean(p.unit, c);
      LacksBoth(Spelled(p.number), Suffix(p.unit), c);
    }
  }

  lemma WordsAreClean(c: char)
    requires c in "&=?/"
    ensures Lacks("true", c) && Lacks("TRUE", c) && Lacks("false", c) && Lacks("FALSE", c)
  {
  }

  lemma ReadableIsPair(p: Parameter)
    requires Readable(p)
    ensures IsPair(RenderParameter(p), Key(p), ValueText(p))
  {
    ValueIsClean(p, '=');
    hide Key, ValueText, Readable, Lacks;
  }

  lemma SetOptionIff(key: string, value: string, opts: Options, f: Failure)
    ensures SetOption(key, value, opts) == Err(f) <==> PairFails(key, value, f)
  {
    BoolIff(value);
    TimeoutIff(value);
    hide ParseBool, ParseTimeout, SaysTrue, SaysFalse, BeginsWithLong, Begins, Spelled, IsUnit;
  }

  ghost predicate IsValueOf(key: string, value: string) {
    exists p :: Readable(p) && Key(p) == key && ValueText(p) == value
  }

  lemma BoolReads(value: string)
    ensures ParseBool(value).Ok? <==> IsValueOf("keep_alive", value)
  {
    BoolIff(value);
    hide ParseBool, SaysTrue, SaysFalse, Spelled, ValidNumeral;
    if ParseBool(value).Ok? {
      var p := KeepAlive(value);
      assert Readable(p) && Key(p) == "keep_alive" && ValueText(p) == value;
    }
  }

  lemma TimeoutReads(key: string, value: string)
    requires IsTimeoutKey(key)
    ensures ParseTimeout(value).Ok? <==> IsValueOf(key, value)
  {
    TimeoutIff(value);
    hide ParseTimeout, SaysTrue, SaysFalse, Spelled, Suffix, Number;
    if ParseTimeout(value).Ok? {
      var n, unit :|
        ValidNumeral(n) && Number(n.digits) <= 0xFFFF_FFFF_FFFF_FFFF && value == Spelled(n) + Suffix(unit);
      var p := if key == "connect_timeout" then ConnectTimeout(n, unit) else SocketTimeout(n, unit);
      hide ValidNumeral;
      assert Readable(p) && Key(p) == key && ValueText(p) == value;
    }
  }

  lemma SetOptionReads(key: string, value: string, opts: Options)
    ensures SetOption(key, value, opts).Ok? <==> IsValueOf(key, value)
  {
    if key == "keep_alive" {
      BoolReads(value);
    } else if IsTimeoutKey(key) {
      TimeoutReads(key, value);
    }
    hide ParseBool, ParseTimeout, Readable, ValueText;
  }

  /** Every parameter, whatever its text: exactly what is wrong with it, or that nothing is. */
  lemma ParameterIff(parameter: string, opts: Options, f: Failure)
    ensures ApplyOne(parameter, opts) == Err(f) <==> Fails(parameter, f)
    ensures ApplyOne(parameter, opts).Ok? <==> IsReadable(parameter)
  {
    var pair := Split(parameter, '=');
    if |pair| == 2 {
      var key, value := pair[0], pair[1];
      assert pair == [key, value];
      PairIff(parameter, key, value);
      SetOptionIff(key, value, opts, f);
      SetOptionReads(key, value, opts);
      OnePair(parameter, key, value, f);
    } else {
      forall key, value
        ensures !IsPair(parameter, key, value)
      {
        PairIff(parameter, key, value);
      }
      NoPair(parameter);
    }
    hide Split, SetOption, Fails, IsPair, IsReadable;
  }

  lemma NoPair(parameter: string)
    requires forall key, value :: !IsPair(parameter, key, value)
    ensures !IsReadable(parameter) && forall f :: Fails(parameter, f) <==> f == NotKeyValue
  {
    forall p | Readable(p)
      ensures parameter != RenderParameter(p)
    {
      ReadableIsPair(p);
    }
    hide IsPair, PairFails, Readable, RenderParameter;
  }

  lemma OnePair(parameter: string, key: string, value: string, f: Failure)
    requires IsPair(parameter, key, value)
    ensures Fails(parameter, f) <==> PairFails(key, value, f)
    ensures IsReadable(parameter) <==> IsValueOf(key, value)
  {
    forall k, v | IsPair(parameter, k, v)
      ensures k == key && v == value
    {
      PairIsUnique(parameter, key, value, k, v);
    }
    forall p | Readable(p)
      ensures parameter == RenderParameter(p) <==> Key(p) == key && ValueText(p) == value
    {
      ReadableIsPair(p);
    }
    hide IsPair, Readable, RenderParameter, Key, ValueText;
    assert f == NotKeyValue ==> !PairFails(key, value, f);
    hide PairFails;
  }

  // ---------------------------------------------------------------- all parameters

  lemma {:induction false} PiecesIff(pieces: seq<string>, opts: Options, f: Failure)
    ensures ApplyAll(pieces, opts) == Err(f) <==> exists i :: FirstFails(pieces, i, f)
    ensures ApplyAll(pieces, opts).Ok? <==> forall i :: 0 <= i < |pieces| ==> IsReadable(pieces[i])
    decreases |pieces|
  {
    hide ApplyOne, Fails, IsReadable;
    if pieces != [] {
      ParameterIff(pieces[0], opts, f);
      match ApplyOne(pieces[0], opts)
      case Ok(next) =>
        PiecesIff(pieces[1..], next, f);
        FirstIsReadable(pieces, opts, f);
      case Err(e) =>
        ParameterIff(pieces[0], opts, e);
        FirstIsWrong(pieces, f);
    }
  }

  lemma FirstIsReadable(pieces: seq<string>, opts: Options, f: Failure)
    requires pieces != [] && IsReadable(pieces[0]) && ApplyOne(pieces[0], opts).Ok?
    ensures (exists i :: FirstFails(pieces, i, f)) <==> exists i :: FirstFails(pieces[1..], i, f)
    ensures (forall i :: 0 <= i < |pieces| ==> IsReadable(pieces[i])) <==>
            forall i :: 0 <= i < |pieces| - 1 ==> IsReadable(pieces[1..][i])
  {
    ParameterIff(pieces[0], opts, f);
    hide ApplyOne, Fails, IsReadable;
    if exists i :: FirstFails(pieces, i, f) {
      var i: nat :| FirstFails(pieces, i, f);
      assert i > 0 && FirstFails(pieces[1..], i - 1, f);
    }
    if exists i :: FirstFails(pieces[1..], i, f) {
      var i: nat :| FirstFails(pieces[1..], i, f);
      assert forall j :: 0 < j <= i ==> pieces[j] == pieces[1..][j - 1];
      assert FirstFails(pieces, i + 1, f);
    }
    assert forall i :: 0 < i < |pieces| ==> pieces[i] == pieces[1..][i - 1];
  }

  lemma FirstIsWrong(pieces: seq<string>, f: Failure)
    requires pieces != [] && !IsReadable(pieces[0])
    ensures (exists i :: FirstFails(pieces, i, f)) <==> Fails(pieces[0], f)
  {
    hide Fails, IsReadable;
    if Fails(pieces[0], f) {
      assert FirstFails(pieces, 0, f);
    }
  }

  /**
   Every text of parameters: it is accepted exactly if each piece is a key and a value of its
   kind; otherwise the failure is that of the first piece that is not.
   */
  lemma ParametersIff(text: string, opts: Options, f: Failure)
    ensures ApplyText(text, opts) == Err(f) <==> TextFails(text, f)
    ensures ApplyText(text, opts).Ok? <==>
            text == "" ||
            exists pieces :: Divides(text, '&', pieces) && forall i :: 0 <= i < |pieces| ==> IsReadable(pieces[i])
  {
    var pieces := Split(text, '&');
    SplitDivides(text, '&');
    PiecesIff(pieces, opts, f);
    forall others | Divides(text, '&', others)
      ensures others == pieces
    {
      SplitIff(text, '&', others);
    }
    hide Split, ApplyAll, FirstFails, Divides, IsReadable;
  }
}
