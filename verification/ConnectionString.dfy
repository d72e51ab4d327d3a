/**
 The connection string parser (common.cpp).
 */
module ConnectionString {
  import opened Wrappers
  import opened Decimal

  datatype Failure =
    | InvalidConnectionString
    | NotKeyValue
    | UnknownParameter
    | InvalidTimeout
    | UnknownUnit
    | InvalidBool

  /** Timeouts are in milliseconds. */
  datatype Options = Options(
    alias: string,
    schema: string,
    uri: string,
    database: string,
    password: string,
    keepAlive: bool,
    connectTimeout: int,
    socketTimeout: int)

  // ---------------------------------------------------------------- strings

  /** The first position of `pattern`, or the length if there is none. */
  function Find(s: string, pattern: string): (i: nat)
    requires pattern != ""
    ensures i == |s| || (i + |pattern| <= |s| && s[i..i + |pattern|] == pattern)
  {
    if s == "" || pattern <= s then 0 else 1 + Find(s[1..], pattern)
  }

  function RFind(s: string, c: char): (i: Option<nat>)
    ensures i.Some? ==> i.value < |s| && s[i.value] == c && c !in s[i.value + 1..]
    ensures i.None? ==> c !in s
  {
    if s == "" then None
    else if s[|s| - 1] == c then Some(|s| - 1)
    else RFind(s[..|s| - 1], c)
  }

  /** `boost::split`: one more piece than there are separators. */
  function Split(s: string, separator: char): (pieces: seq<string>)
    ensures pieces != []
  {
    var i := Find(s, [separator]);
    if i == |s| then [s] else [s[..i]] + Split(s[i + 1..], separator)
  }

  predicate IsSpace(c: char) {
    c == ' ' || '\t' <= c <= '\r'
  }

  function Spaces(s: string): (n: nat)
    ensures n <= |s| && forall i :: 0 <= i < n ==> IsSpace(s[i])
  {
    if s == "" || !IsSpace(s[0]) then 0 else 1 + Spaces(s[1..])
  }

  function DigitRun(s: string): (n: nat)
    ensures n <= |s| && AllDigits(s[..n])
  {
    if s == "" || !IsDigit(s[0]) then 0 else 1 + DigitRun(s[1..])
  }

  /** What `strtol` reads: white space, a sign, digits. */
  datatype Scanned = Scanned(negative: bool, digits: string, end: nat)

  function Scan(s: string): (r: Scanned)
    ensures AllDigits(r.digits) && r.end <= |s|
  {
    var i := Spaces(s);
    var j := if i < |s| && (s[i] == '-' || s[i] == '+') then i + 1 else i;
    var n := DigitRun(s[j..]);
    Scanned(i < |s| && s[i] == '-', s[j..][..n], j + n)
  }

  /** Whether `std::stoi` gives a number: text after the digits does not matter, size does. */
  predicate StoiAccepts(s: string) {
    var r := Scan(s);
    r.digits != "" && Number(r.digits) < 0x8000_0000 + (if r.negative then 1 else 0)
  }

  const ULONG_RANGE: int := 0x1_0000_0000_0000_0000

  /** `std::stoul`: the number, which wraps if negative, and where it ends. */
  function Stoul(s: string): (r: Option<(nat, nat)>)
    ensures r.Some? ==> r.value.0 < ULONG_RANGE && r.value.1 <= |s|
  {
    var r := Scan(s);
    if r.digits == "" || Number(r.digits) >= ULONG_RANGE then None
    else Some((if r.negative then (ULONG_RANGE - Number(r.digits)) % ULONG_RANGE else Number(r.digits), r.end))
  }

  function LowerChar(c: char): char {
    if 'A' <= c <= 'Z' then (c as int - 'A' as int + 'a' as int) as char else c
  }

  function Lower(s: string): (r: string)
    ensures |r| == |s| && forall i :: 0 <= i < |s| ==> r[i] == LowerChar(s[i])
  {
    seq(|s|, i requires 0 <= i < |s| => LowerChar(s[i]))
  }

  // ---------------------------------------------------------------- the parser

  datatype Parts = Parts(alias: string, schema: string, auth: string, path: string)

  function SplitUri(text: string): Result<Parts, Failure> {
    var equals := Find(text, "=");
    if equals == |text| || equals == 0 then Err(InvalidConnectionString)
    else
      var rest := text[equals + 1..];
      var colon := Find(rest, "://");
      if colon == |rest| || colon == 0 then Err(InvalidConnectionString)
      else
        var location := rest[colon + 3..];
        var at := Find(location, "@");
        var (auth, path) := if at == |location| then ("", location) else (location[..at], location[at + 1..]);
        Ok(Parts(text[..equals], rest[..colon], auth, path))
  }

  datatype Place = Place(uri: string, database: string, parameters: string)

  /** Where the path is cut, given its last question mark and its last slash. */
  function PlaceAt(path: string, question: Option<nat>, slash: Option<nat>): Place
    requires question.Some? ==> question.value < |path|
    requires slash.Some? ==> slash.value < |path|
  {
    var cut := if question.Some? then path[..question.value] else path;
    var parameters := if question.Some? then path[question.value + 1..] else "";
    if slash.Some? && StoiAccepts(path[slash.value + 1..]) then
      Place(path[..slash.value], path[slash.value + 1..], parameters)
    else
      Place(cut, "", parameters)
  }

  /** A number after the last slash is the database; whatever follows it goes with it. */
  function SplitPath(path: string): Result<Place, Failure> {
    var place := PlaceAt(path, RFind(path, '?'), RFind(path, '/'));
    if place.uri == "" then Err(InvalidConnectionString) else Ok(place)
  }

  /** Conversion to the signed representation of a duration. */
  function ToSigned(n: nat): int
    requires n < ULONG_RANGE
  {
    if n <= INT64_MAX then n else n - ULONG_RANGE
  }

  function ParseTimeout(text: string): Result<int, Failure> {
    match Stoul(text)
    case None => Err(InvalidTimeout)
    case Some((n, end)) =>
      var unit := text[end..];
      if unit == "ms" then Ok(ToSigned(n))
      else if unit == "s" then Ok(1000 * ToSigned(n))
      else if unit == "m" then Ok(60000 * ToSigned(n))
      else Err(UnknownUnit)
  }

  function ParseBool(text: string): Result<bool, Failure> {
    if Lower(text) == "true" then Ok(true)
    else if Lower(text) == "false" then Ok(false)
    else Err(InvalidBool)
  }

  function SetOption(key: string, value: string, opts: Options): Result<Options, Failure> {
    if key == "keep_alive" then
      match ParseBool(value)
      case Ok(b) => Ok(opts.(keepAlive := b))
      case Err(e) => Err(e)
    else if key == "connect_timeout" then
      match ParseTimeout(value)
      case Ok(t) => Ok(opts.(connectTimeout := t))
      case Err(e) => Err(e)
    else if key == "socket_timeout" then
      match ParseTimeout(value)
      case Ok(t) => Ok(opts.(socketTimeout := t))
      case Err(e) => Err(e)
    else Err(UnknownParameter)
  }

  function ApplyOne(parameter: string, opts: Options): Result<Options, Failure> {
    var pair := Split(parameter, '=');
    if |pair| != 2 then Err(NotKeyValue) else SetOption(pair[0], pair[1], opts)
  }

  function ApplyAll(parameters: seq<string>, opts: Options): Result<Options, Failure> {
    if parameters == [] then Ok(opts)
    else
      match ApplyOne(parameters[0], opts)
      case Ok(next) => ApplyAll(parameters[1..], next)
      case Err(e) => Err(e)
  }

  function ApplyText(text: string, opts: Options): Result<Options, Failure> {
    if text == "" then Ok(opts) else ApplyAll(Split(text, '&'), opts)
  }

  function Chosen(parts: Parts, place: Place): Options {
    Options(parts.alias, parts.schema, place.uri, place.database, parts.auth, false, 0, 0)
  }

  /** The loop of `parse_parameters`; the first parameter that is not valid ends it. */
  method ParseParameters(text: string, opts: Options) returns (r: Result<Options, Failure>)
    ensures r == ApplyText(text, opts)
  {
    r := Ok(opts);
    if text == "" {
      return;
    }
    var parameters := Split(text, '&');
    for i := 0 to |parameters|
      invariant r.Ok? && ApplyAll(parameters[i..], r.value) == ApplyAll(parameters, opts)
    {
      assert parameters[i..][1..] == parameters[i + 1..];
      r := ApplyOne(parameters[i], r.value);
      if r.Err? {
        return;
      }
    }
  }

  function Parse(text: string): Result<Options, Failure> {
    match SplitUri(text)
    case Err(e) => Err(e)
    case Ok(parts) =>
      match SplitPath(parts.path)
      case Err(e) => Err(e)
      case Ok(place) => ApplyText(place.parameters, Chosen(parts, place))
  }

  method ParseConnectionString(text: string) returns (r: Result<Options, Failure>)
    ensures r == Parse(text)
  {
    var split := SplitUri(text);
    if split.Err? {
      return Err(split.error);
    }
    var place := SplitPath(split.value.path);
    if place.Err? {
      return Err(place.error);
    }
    r := ParseParameters(place.value.parameters, Chosen(split.value, place.value));
  }
}
