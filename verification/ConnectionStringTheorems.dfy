/**
 What the connection string parser makes of every string, and of those that follow the
 documentation.
 */
module ConnectionStringTheorems {
  import opened Wrappers
  import opened Decimal
  import opened ConnectionString
  import opened ConnectionTexts

  // ---------------------------------------------------------------- well-formed strings

  function RenderAll(ps: seq<Parameter>): (pieces: seq<string>)
    ensures |pieces| == |ps|
  {
    seq(|ps|, i requires 0 <= i < |ps| => RenderParameter(ps[i]))
  }

  /** An empty password stands for none. */
  datatype Link = Link(
    alias: string,
    schema: string,
    password: string,
    uri: string,
    database: Option<string>,
    parameters: seq<Parameter>)

  /** The path without its parameters. */
  function Address(l: Link): string {
    if l.database.Some? then l.uri + (['/'] + l.database.value) else l.uri
  }

  function ParametersText(l: Link): string {
    if l.parameters == [] then "" else Joined(RenderAll(l.parameters), '&')
  }

  function Location(l: Link): string {
    if l.parameters == [] then Address(l) else Address(l) + (['?'] + ParametersText(l))
  }

  function Render(l: Link): string {
    l.alias + "=" + (l.schema + "://" + ((if l.password == "" then "" else l.password + "@") + Location(l)))
  }

  /** No part holds the delimiter that ends it. The database may be any word. */
  predicate WellFormed(l: Link) {
    && l.alias != "" && '=' !in l.alias
    && l.schema != "" && FirstMet(l.schema, "://")
    && '@' !in (if l.password == "" then Location(l) else l.password)
    && l.uri != "" && '?' !in l.uri
    && (l.database.Some? ==> '/' !in l.database.value && '?' !in l.database.value)
    && (forall p <- l.parameters :: ValidParameter(p))
  }

  /** The last parameter with a key. */
  function Last(ps: seq<Parameter>, key: string): (p: Option<Parameter>)
    ensures p.Some? ==> Key(p.value) == key
  {
    if ps == [] then None
    else if Key(ps[|ps| - 1]) == key then Some(ps[|ps| - 1])
    else Last(ps[..|ps| - 1], key)
  }

  function TimeoutOf(p: Option<Parameter>, default: int): int {
    if p.Some? && !p.value.KeepAlive? && ValidNumeral(p.value.number) then
      ValueOf(p.value.number) * Scale(p.value.unit)
    else default
  }

  function FlagOf(p: Option<Parameter>, default: bool): bool {
    if p.Some? && p.value.KeepAlive? then SaysTrue(p.value.text) else default
  }

  /** Of several parameters with one key the last one counts. */
  function Overridden(opts: Options, ps: seq<Parameter>): Options {
    opts.(keepAlive := FlagOf(Last(ps, "keep_alive"), opts.keepAlive),
          connectTimeout := TimeoutOf(Last(ps, "connect_timeout"), opts.connectTimeout),
          socketTimeout := TimeoutOf(Last(ps, "socket_timeout"), opts.socketTimeout))
  }

  /** The fields that a connection string is meant to set. */
  function Meaning(l: Link): Options {
    var database := if l.database.Some? then l.database.value else "";
    Overridden(Options(l.alias, l.schema, l.uri, database, l.password, false, 0, 0), l.parameters)
  }

  // ---------------------------------------------------------------- parameters

  lemma ParameterIsApplied(p: Parameter, opts: Options)
    requires ValidParameter(p)
    ensures ApplyOne(RenderParameter(p), opts) == Ok(Overridden(opts, [p]))
  {
    ReadableIsPair(p);
    PairIff(RenderParameter(p), Key(p), ValueText(p));
    OptionIsSet(p, opts);
    hide Split, SetOption, IsPair, Overridden, Readable;
  }

  lemma LastOfOne(p: Parameter, key: string)
    ensures Last([p], key) == if Key(p) == key then Some(p) else None
  {
    assert [p][..0] == [];
  }

  lemma NotBoth(text: string)
    ensures !(SaysTrue(text) && SaysFalse(text))
  {
  }

  lemma OptionIsSet(p: Parameter, opts: Options)
    requires ValidParameter(p)
    ensures SetOption(Key(p), ValueText(p), opts) == Ok(Overridden(opts, [p]))
  {
    LastOfOne(p, "keep_alive");
    LastOfOne(p, "connect_timeout");
    LastOfOne(p, "socket_timeout");
    assert |"keep_alive"| == 10 && |"connect_timeout"| == 15 && |"socket_timeout"| == 14;
    if p.KeepAlive? {
      BoolIff(p.text);
      NotBoth(p.text);
    } else {
      TimeoutIsRead(p.number, p.unit);
    }
    hide Last, ParseTimeout, ParseBool, SaysTrue, SaysFalse, Spelled;
  }

  lemma {:induction false} LastFront(ps: seq<Parameter>, key: string)
    requires ps != []
    ensures Last(ps, key) == if Last(ps[1..], key).Some? then Last(ps[1..], key) else Last([ps[0]], key)
  {
    if |ps| > 1 {
      assert ps[1..][..|ps| - 2] == ps[..|ps| - 1][1..];
      LastFront(ps[..|ps| - 1], key);
    } else {
      assert ps == [ps[0]] && ps[1..] == [];
    }
  }

  lemma OverriddenTwice(opts: Options, ps: seq<Parameter>)
    requires ps != [] && forall p <- ps :: ValidParameter(p)
    ensures Overridden(Overridden(opts, [ps[0]]), ps[1..]) == Overridden(opts, ps)
  {
    LastFront(ps, "keep_alive");
    LastFront(ps, "connect_timeout");
    LastFront(ps, "socket_timeout");
    LastValid(ps, "keep_alive");
    LastValid(ps[1..], "connect_timeout");
    LastValid(ps[1..], "socket_timeout");
    hide Last, Lower;
  }

  lemma {:induction false} LastValid(ps: seq<Parameter>, key: string)
    requires forall p <- ps :: ValidParameter(p)
    ensures Last(ps, key).Some? ==> ValidParameter(Last(ps, key).value)
  {
    if ps != [] && Key(ps[|ps| - 1]) != key {
      LastValid(ps[..|ps| - 1], key);
    }
  }

  lemma {:induction false} ParametersAreApplied(ps: seq<Parameter>, opts: Options)
    requires forall p <- ps :: ValidParameter(p)
    ensures ApplyAll(RenderAll(ps), opts) == Ok(Overridden(opts, ps))
    decreases |ps|
  {
    hide ApplyOne, RenderParameter, ValidParameter;
    if ps != [] {
      ParameterIsApplied(ps[0], opts);
      ParametersAreApplied(ps[1..], Overridden(opts, [ps[0]]));
      assert RenderAll(ps)[1..] == RenderAll(ps[1..]);
      OverriddenTwice(opts, ps);
    }
  }

  lemma PieceIsClean(p: Parameter)
    requires ValidParameter(p)
    ensures
      var piece := RenderParameter(p);
      piece != "" && Lacks(piece, '&') && Lacks(piece, '?') && Lacks(piece, '/')
  {
    ValueIsClean(p, '&');
    ValueIsClean(p, '?');
    ValueIsClean(p, '/');
    hide ValueText, Key, ValidParameter;
  }

  lemma {:induction false} JoinedLacks(pieces: seq<string>, c: char)
    requires pieces != [] && c != '&' && forall i :: 0 <= i < |pieces| ==> Lacks(pieces[i], c)
    ensures Lacks(Joined(pieces, '&'), c)
  {
    if |pieces| > 1 {
      JoinedLacks(pieces[1..], c);
    }
  }

  lemma RenderedParameters(ps: seq<Parameter>)
    requires ps != [] && forall p <- ps :: ValidParameter(p)
    ensures
      var text := Joined(RenderAll(ps), '&');
      && text != "" && Lacks(text, '?') && Lacks(text, '/')
      && Split(text, '&') == RenderAll(ps)
  {
    var pieces := RenderAll(ps);
    forall i | 0 <= i < |pieces|
      ensures pieces[i] != "" && Lacks(pieces[i], '&') && Lacks(pieces[i], '?') && Lacks(pieces[i], '/')
    {
      assert ps[i] in ps;
      PieceIsClean(ps[i]);
    }
    hide RenderParameter, ValidParameter, Split, Lacks;
    JoinedLacks(pieces, '?');
    JoinedLacks(pieces, '/');
    SplitIff(Joined(pieces, '&'), '&', pieces);
    assert pieces[0] != "";
  }

  // ---------------------------------------------------------------- the path

  /** What follows the last slash would be taken for a database. */
  ghost predicate EndsInNumber(uri: string) {
    var slash := RFind(uri, '/');
    slash.Some? && BeginsWithInt(uri[slash.value + 1..])
  }

  lemma {:induction false} RFindBefore(s: string, c: char, rest: string)
    requires Lacks(rest, c)
    ensures RFind(s + rest, c) == RFind(s, c)
    decreases |rest|
  {
    if rest == "" {
      assert s + rest == s;
    } else {
      assert rest[|rest| - 1] in rest;
      assert (s + rest)[..|s + rest| - 1] == s + rest[..|rest| - 1];
      RFindBefore(s, c, rest[..|rest| - 1]);
    }
  }

  lemma {:induction false} RFindNoChar(s: string, c: char)
    requires Lacks(s, c)
    ensures RFind(s, c) == None
  {
  }

  /** A path without one is kept whole, unless it ends in a number: then all that follows is the database. */
  lemma PathWithout(uri: string, parameters: string)
    requires uri != "" && '?' !in uri && '?' !in parameters && '/' !in parameters
    ensures
      var path := if parameters == "" then uri else uri + (['?'] + parameters);
      var place := SplitPath(path);
      if EndsInNumber(uri) then
        var slash := RFind(uri, '/').value;
        if slash == 0 then place == Err(InvalidConnectionString)
        else place == Ok(Place(uri[..slash], path[slash + 1..], parameters))
      else
        place == Ok(Place(uri, "", parameters))
  {
    if parameters == "" {
      RFindNoChar(uri, '?');
      PlaceIs(uri, uri, "", None, RFind(uri, '/'));
    } else {
      PathWithParameters(uri, parameters);
      PlaceIs(uri + (['?'] + parameters), uri, parameters, Some(|uri|), RFind(uri, '/'));
    }
  }

  lemma PlaceIs(path: string, uri: string, parameters: string, question: Option<nat>, slash: Option<nat>)
    requires uri <= path
    requires
      if path == uri then question == None && parameters == ""
      else question == Some(|uri|) && |uri| < |path| && path[|uri| + 1..] == parameters
    requires slash.Some? ==> slash.value < |uri|
    ensures PlaceAt(path, question, slash) ==
            if slash.Some? && BeginsWithInt(path[slash.value + 1..]) then
              Place(uri[..slash.value], path[slash.value + 1..], parameters)
            else
              Place(uri, "", parameters)
  {
    hide StoiAccepts, BeginsWithInt;
    assert path[..|uri|] == uri;
    if slash.Some? {
      StoiIff(path[slash.value + 1..]);
      assert path[..slash.value] == uri[..slash.value];
    }
  }

  lemma PathWithParameters(uri: string, parameters: string)
    requires Lacks(parameters, '?') && Lacks(parameters, '/')
    ensures
      var path := uri + (['?'] + parameters);
      && RFind(path, '?') == Some(|uri|) && path[..|uri|] == uri && path[|uri| + 1..] == parameters
      && RFind(path, '/') == RFind(uri, '/') && (EndsInNumber(path) <==> EndsInNumber(uri))
  {
    hide Lacks, RFind, EndsInNumber;
    RFindAfter(uri, '?', parameters);
    CutAfter(uri, '?', parameters);
    NumberAtEnd(uri, parameters);
  }

  /** A question mark ends any number, and is part of none. */
  lemma IntBeforeQuestion(s: string, after: string)
    ensures BeginsWithInt(s + (['?'] + after)) <==> BeginsWithInt(s)
  {
    var whole := s + (['?'] + after);
    forall n | ValidNumeral(n)
      ensures Begins(whole, n) <==> Begins(s, n)
    {
      NumeralBeforeQuestion(s, after, n);
    }
    hide Begins, ValidNumeral;
    assert forall n :: Begins(whole, n) || Begins(s, n) ==> ValidNumeral(n) by {
      BeginsIsValid(whole);
      BeginsIsValid(s);
    }
  }

  lemma BeginsIsValid(s: string)
    ensures forall n :: Begins(s, n) ==> ValidNumeral(n)
  {
  }

  lemma NumeralBeforeQuestion(s: string, after: string, n: Numeral)
    requires ValidNumeral(n)
    ensures Begins(s + (['?'] + after), n) <==> Begins(s, n)
  {
    NumeralIsClean(n, '?');
    hide ValidNumeral, Spelled;
    var whole, k := s + (['?'] + after), |Spelled(n)|;
    assert whole[|s|] == '?';
    if Spelled(n) <= whole {
      assert Spelled(n) == whole[..k];
      assert k <= |s|;
    }
    if k <= |s| {
      assert whole[..k] == s[..k];
      assert whole[k..] == s[k..] + (['?'] + after);
    }
  }

  lemma NumberAtEnd(uri: string, after: string)
    requires Lacks(after, '/')
    ensures
      var path := uri + (['?'] + after);
      RFind(path, '/') == RFind(uri, '/') && (EndsInNumber(path) <==> EndsInNumber(uri))
  {
    hide Lacks, RFind, BeginsWithInt;
    var rest := ['?'] + after;
    LacksBefore('?', after, '/');
    RFindBefore(uri, '/', rest);
    var slash := RFind(uri, '/');
    if slash.Some? {
      CutLater(uri, rest, slash.value + 1);
      IntBeforeQuestion(uri[slash.value + 1..], after);
    }
  }

  lemma CutLater(s: string, t: string, i: nat)
    requires i <= |s|
    ensures (s + t)[i..] == s[i..] + t
  {
  }

  // ---------------------------------------------------------------- the round trip

  lemma FindAt(before: string, delimiter: string, after: string, s: string)
    requires s == before + delimiter + after && delimiter != "" && FirstMet(before, delimiter)
    ensures Find(s, delimiter) == |before| < |s| && s[..|before|] == before && s[|before| + |delimiter|..] == after
  {
    FindMet(before, delimiter, after);
    CutAround(before, delimiter, after);
  }

  lemma FirstMetIff(before: string, c: char)
    ensures FirstMet(before, [c]) <==> Lacks(before, c)
  {
    forall i | 0 <= i < |before|
      ensures [c] <= (before + [c])[i..] <==> before[i] == c
    {
      assert (before + [c])[i..][0] == before[i];
    }
  }

  lemma CutAround(before: string, delimiter: string, after: string)
    ensures
      var s := before + delimiter + after;
      s[..|before|] == before && s[|before| + |delimiter|..] == after
  {
  }

  lemma RenderedParts(l: Link)
    requires WellFormed(l)
    ensures SplitUri(Render(l)) == Ok(Parts(l.alias, l.schema, l.password, Location(l)))
  {
    hide Location, ValidParameter, Find, FirstMet;
    var location := (if l.password == "" then "" else l.password + "@") + Location(l);
    var rest := l.schema + "://" + location;
    FirstMetIff(l.alias, '=');
    FindAt(l.alias, "=", rest, Render(l));
    FindAt(l.schema, "://", location, rest);
    if l.password == "" {
      assert location == Location(l);
      FindNoChar(location, '@');
    } else {
      FirstMetIff(l.password, '@');
      FindAt(l.password, "@", Location(l), location);
    }
  }

  lemma TailIsApplied(ps: seq<Parameter>, opts: Options)
    requires forall p <- ps :: ValidParameter(p)
    ensures ApplyText(if ps == [] then "" else Joined(RenderAll(ps), '&'), opts) == Ok(Overridden(opts, ps))
  {
    if ps == [] {
    } else {
      RenderedParameters(ps);
      ParametersAreApplied(ps, opts);
      hide ApplyAll, Split, Joined, Overridden;
    }
  }

  lemma ParametersTextLacks(l: Link)
    requires WellFormed(l)
    ensures Lacks(ParametersText(l), '?') && Lacks(ParametersText(l), '/')
    ensures ParametersText(l) == "" <==> l.parameters == []
  {
    if l.parameters != [] {
      RenderedParameters(l.parameters);
    }
    hide Joined;
  }

  lemma AddressLacks(l: Link)
    requires WellFormed(l)
    ensures Address(l) != "" && '?' !in Address(l)
  {
    if l.database.Some? {
      LacksBefore('/', l.database.value, '?');
      LacksBoth(l.uri, ['/'] + l.database.value, '?');
    }
    hide Location, ValidParameter;
  }

  /** What the parser makes of a well-formed string, in every case. */
  ghost function Reading(l: Link): Result<Options, Failure> {
    var address := Address(l);
    var opts := Options(l.alias, l.schema, address, "", l.password, false, 0, 0);
    if !EndsInNumber(address) then Ok(Overridden(opts, l.parameters))
    else
      var slash := RFind(address, '/').value;
      if slash == 0 || slash >= |Location(l)| then Err(InvalidConnectionString)
      else Ok(Overridden(opts.(uri := address[..slash], database := Location(l)[slash + 1..]), l.parameters))
  }

  lemma ParseIsReading(l: Link)
    requires WellFormed(l)
    ensures Parse(Render(l)) == Reading(l)
  {
    hide SplitUri, SplitPath, Render, ApplyText, WellFormed, Overridden, Address, ParametersText, RFind, BeginsWithInt;
    RenderedParts(l);
    ParametersTextLacks(l);
    AddressLacks(l);
    var address, text := Address(l), ParametersText(l);
    PathWithout(address, text);
    var opts := Options(l.alias, l.schema, address, "", l.password, false, 0, 0);
    if EndsInNumber(address) {
      var slash := RFind(address, '/').value;
      assert slash < |address| <= |Location(l)|;
      TextIsApplied(l, opts.(uri := address[..slash], database := Location(l)[slash + 1..]));
    } else {
      TextIsApplied(l, opts);
    }
  }

  lemma TextIsApplied(l: Link, opts: Options)
    requires WellFormed(l)
    ensures ApplyText(ParametersText(l), opts) == Ok(Overridden(opts, l.parameters))
  {
    hide ApplyText, Overridden, ValidParameter, Location;
    TailIsApplied(l.parameters, opts);
  }

  /** A word after the last slash ends the address in a number exactly if `stoi` accepts it. */
  lemma DatabaseAtEnd(l: Link)
    requires WellFormed(l) && l.database.Some?
    ensures RFind(Address(l), '/') == Some(|l.uri|) && |l.uri| < |Location(l)|
    ensures EndsInNumber(Address(l)) <==> BeginsWithInt(l.database.value)
    ensures Address(l)[..|l.uri|] == l.uri
    ensures Location(l)[|l.uri| + 1..] ==
            l.database.value + if l.parameters == [] then "" else ['?'] + ParametersText(l)
  {
    hide BeginsWithInt, ParametersText, ValidParameter;
    var word := l.database.value;
    RFindAfter(l.uri, '/', word);
    CutAfter(l.uri, '/', word);
    if l.parameters == [] {
      assert word + "" == word;
    } else {
      CutLater(Address(l), ['?'] + ParametersText(l), |l.uri| + 1);
    }
  }

  /** With both a database and parameters, the database is given the text of the parameters as well. */
  lemma DatabaseTakesParameters(l: Link)
    requires WellFormed(l) && l.database.Some? && BeginsWithInt(l.database.value) && l.parameters != []
    ensures Parse(Render(l)) ==
            Ok(Meaning(l).(database := l.database.value + (['?'] + ParametersText(l))))
  {
    hide Parse, Render, Address, Location, ParametersText, BeginsWithInt, WellFormed, EndsInNumber, RFind;
    ParseIsReading(l);
    DatabaseAtEnd(l);
    NameIsNotEmpty(l);
  }

  /** A database that is no number stays part of the address. */
  lemma WordStaysInAddress(l: Link)
    requires WellFormed(l) && l.database.Some? && !BeginsWithInt(l.database.value)
    ensures Parse(Render(l)) == Ok(Meaning(l).(uri := Address(l), database := ""))
  {
    hide Parse, Render, Address, Location, ParametersText, BeginsWithInt, WellFormed, EndsInNumber, RFind;
    ParseIsReading(l);
    DatabaseAtEnd(l);
  }

  lemma NameIsNotEmpty(l: Link)
    requires WellFormed(l)
    ensures l.uri != ""
  {
    hide Location, ValidParameter;
  }

  lemma NumberAfterSlash(l: Link)
    requires WellFormed(l) && l.database.None? && EndsInNumber(l.uri)
    ensures Address(l) == l.uri
    ensures
      var slash := RFind(l.uri, '/').value;
      slash + 1 < |l.uri| <= |Location(l)| && Location(l)[slash + 1..] != ""
  {
    hide RFind, Scan, ParametersText, ValidParameter;
    NumberIsNotEmpty();
  }

  lemma NumberIsNotEmpty()
    ensures !BeginsWithInt("")
  {
  }

  /**
   A well-formed connection string is read back as what it says in exactly two cases: it names
   a database that `stoi` accepts, and no parameters; or it names none, and its address does
   not end in a number after a slash.
   */
  lemma RoundTripIff(l: Link)
    requires WellFormed(l)
    ensures Parse(Render(l)) == Ok(Meaning(l)) <==>
            if l.database.Some? then BeginsWithInt(l.database.value) && l.parameters == []
            else !EndsInNumber(l.uri)
  {
    hide Parse, Render, Location, ParametersText, BeginsWithInt, WellFormed, EndsInNumber, RFind;
    ParseIsReading(l);
    NameIsNotEmpty(l);
    if l.database.Some? {
      DatabaseAtEnd(l);
      var word := l.database.value;
      assert |Address(l)| > |l.uri| && word + "" == word && |word + (['?'] + ParametersText(l))| > |word|;
    } else if EndsInNumber(l.uri) {
      NumberAfterSlash(l);
    }
  }

  /** The example of the documentation: its database is not taken for one. */
  lemma DocumentedExample()
    ensures
      var l := Link("aliasname", "tcp", "user:password", "localhost:5432", Some("database"), []);
      && WellFormed(l)
      && Parse(Render(l)) ==
         Ok(Options("aliasname", "tcp", "localhost:5432" + (['/'] + "database"), "", "user:password", false, 0, 0))
  {
    hide Parse, Render, WellFormed, BeginsWithInt;
    ExampleIsWellFormed();
    DatabaseIsNoNumber();
    WordStaysInAddress(Link("aliasname", "tcp", "user:password", "localhost:5432", Some("database"), []));
  }

  lemma ExampleIsWellFormed()
    ensures WellFormed(Link("aliasname", "tcp", "user:password", "localhost:5432", Some("database"), []))
  {
    hide FirstMet, Location;
    TcpIsFound();
  }

  lemma TcpIsFound()
    ensures FirstMet("tcp", "://")
  {
    forall i | 0 <= i < 3
      ensures !("://" <= ("tcp" + "://")[i..])
    {
      assert ("tcp" + "://")[i..][0] == "tcp"[i] != ':';
    }
  }

  lemma DatabaseIsNoNumber()
    ensures !BeginsWithInt("database")
  {
    var s := "database";
    assert s[0] == 'd' && s[0..] == s;
    assert Spaces(s) == 0 && DigitRun(s) == 0;
  }

  // ---------------------------------------------------------------- numbered databases

  /** A number written plainly is a database exactly if it fits in 31 bits. */
  lemma NumberedDatabase(l: Link, n: nat)
    requires WellFormed(l) && l.database == Some(Text(n)) && l.parameters == []
    ensures Parse(Render(l)) ==
            Ok(if n < 0x8000_0000 then Meaning(l) else Meaning(l).(uri := Address(l), database := ""))
  {
    hide Parse, Render, WellFormed, Address, Text, BeginsWithInt, EndsInNumber, Overridden;
    StoiOfText("", "", n, "");
    assert "" + ("" + Text(n)) + "" == Text(n);
    StoiIff(Text(n));
    hide StoiAccepts;
    if n < 0x8000_0000 {
      RoundTripIff(l);
    } else {
      WordStaysInAddress(l);
    }
  }

  // ---------------------------------------------------------------- every string

  /** The part after the schema: a password before the first at sign, if there is one, and the path. */
  predicate IsLocation(location: string, p: Parts) {
    if Lacks(location, '@') then p.auth == "" && p.path == location
    else Lacks(p.auth, '@') && location == p.auth + "@" + p.path
  }

  /** `text` is put together from these parts, none holding the delimiter that ends it. */
  ghost predicate IsUri(text: string, p: Parts) {
    && p.alias != "" && Lacks(p.alias, '=') && p.schema != "" && FirstMet(p.schema, "://")
    && exists location :: IsLocation(location, p) && text == p.alias + "=" + (p.schema + "://" + location)
  }

  lemma FindNone(s: string, c: char)
    ensures Find(s, [c]) == |s| <==> Lacks(s, c)
  {
    FindFirst(s, c);
    if Find(s, [c]) == |s| {
      assert s[..|s|] == s;
    } else {
      assert s[Find(s, [c])] == c;
    }
  }

  /** `c` divides `s` after `before`, where it is met first. */
  lemma FindCharIff(s: string, c: char, before: string, after: string)
    requires s == before + [c] + after
    ensures Find(s, [c]) == |before| <==> Lacks(before, c)
  {
    FirstMetIff(before, c);
    if Lacks(before, c) {
      FindMet(before, [c], after);
    }
    if Find(s, [c]) == |before| {
      FindFirst(s, c);
      assert s[..|before|] == before;
    }
  }

  /** Where the password ends and the path begins. */
  function AuthAndPath(location: string): (r: (string, string)) {
    var at := Find(location, "@");
    if at == |location| then ("", location) else (location[..at], location[at + 1..])
  }

  lemma AuthIff(location: string, p: Parts)
    ensures AuthAndPath(location) == (p.auth, p.path) <==> IsLocation(location, p)
  {
    FindNone(location, '@');
    if !Lacks(location, '@') {
      var at := Find(location, "@");
      FindFirst(location, '@');
      assert location == location[..at] + "@" + location[at + 1..];
      if IsLocation(location, p) {
        FindCharIff(location, '@', p.auth, p.path);
        assert location[..|p.auth|] == p.auth && location[|p.auth| + 1..] == p.path;
      }
    }
    hide Find;
  }

  lemma UriIsSplit(text: string, p: Parts, location: string)
    requires p.alias != "" && Lacks(p.alias, '=') && p.schema != "" && FirstMet(p.schema, "://")
    requires IsLocation(location, p) && text == p.alias + "=" + (p.schema + "://" + location)
    ensures SplitUri(text) == Ok(p)
  {
    FirstMetIff(p.alias, '=');
    FindAt(p.alias, "=", p.schema + "://" + location, text);
    FindAt(p.schema, "://", location, p.schema + "://" + location);
    AuthIff(location, p);
    hide Find, FirstMet, Lacks, IsLocation;
  }

  lemma SplitUriStages(text: string)
    requires SplitUri(text).Ok?
    ensures
      var p, equals := SplitUri(text).value, Find(text, "=");
      && 0 < equals < |text| && p.alias == text[..equals]
      && var rest := text[equals + 1..];
         var colon := Find(rest, "://");
         && 0 < colon < |rest| && p.schema == rest[..colon]
         && AuthAndPath(rest[colon + 3..]) == (p.auth, p.path)
  {
    hide Find;
  }

  lemma UriOfStages(text: string, rest: string, location: string, p: Parts)
    requires text == p.alias + "=" + rest && rest == p.schema + "://" + location && IsLocation(location, p)
    requires p.alias != "" && Lacks(p.alias, '=') && p.schema != "" && FirstMet(p.schema, "://")
    ensures IsUri(text, p)
  {
    hide FirstMet, Lacks, IsLocation;
    Reassociate(p.schema, "://", location);
    Reassociate(p.alias, "=", rest);
  }

  lemma Reassociate(a: string, b: string, c: string)
    ensures a + b + c == a + (b + c)
  {
  }

  lemma SplitIsUri(text: string)
    requires SplitUri(text).Ok?
    ensures IsUri(text, SplitUri(text).value)
  {
    hide SplitUri, Find, FirstMet, Lacks, IsLocation, IsUri, AuthAndPath;
    SplitUriStages(text);
    var p, equals := SplitUri(text).value, Find(text, "=");
    FindFirst(text, '=');
    FindFinds(text, "=");
    var rest := text[equals + 1..];
    var colon := Find(rest, "://");
    FindFinds(rest, "://");
    AuthIff(rest[colon + 3..], p);
    UriOfStages(text, rest, rest[colon + 3..], p);
  }

  /** For every string: its parts are these exactly if it is put together from them. */
  lemma SplitUriIff(text: string, p: Parts)
    ensures SplitUri(text) == Ok(p) <==> IsUri(text, p)
    ensures SplitUri(text).Err? ==> SplitUri(text).error == InvalidConnectionString
  {
    if SplitUri(text) == Ok(p) {
      SplitIsUri(text);
    }
    if IsUri(text, p) {
      var location :| IsLocation(location, p) && text == p.alias + "=" + (p.schema + "://" + location);
      UriIsSplit(text, p, location);
    }
  }

  /** `s` is divided by the last `c` in it. */
  predicate LastMet(s: string, c: char, before: string, after: string) {
    s == before + ([c] + after) && Lacks(after, c)
  }

  lemma RFindIff(s: string, c: char, before: string, after: string)
    ensures
      LastMet(s, c, before, after) <==>
      RFind(s, c) == Some(|before|) && before == s[..|before|] && after == s[|before| + 1..]
  {
    if LastMet(s, c, before, after) {
      RFindAfter(before, c, after);
      CutAfter(before, c, after);
    } else if RFind(s, c) == Some(|before|) {
      assert s == s[..|before|] + ([c] + s[|before| + 1..]);
    }
  }

  /** A database: the number after the last slash, and what follows it; the address is what is before. */
  ghost predicate NamesDatabase(path: string, uri: string, database: string) {
    LastMet(path, '/', uri, database) && BeginsWithInt(database)
  }

  ghost predicate NamesSome(path: string) {
    exists uri, database :: NamesDatabase(path, uri, database)
  }

  /** The address and the text of the parameters, on either side of the last question mark. */
  ghost predicate HasAddress(path: string, uri: string) {
    if Lacks(path, '?') then uri == path else exists query :: LastMet(path, '?', uri, query)
  }

  ghost predicate HasParameters(path: string, parameters: string) {
    if Lacks(path, '?') then parameters == "" else exists uri :: LastMet(path, '?', uri, parameters)
  }

  ghost predicate IsPlace(path: string, place: Place) {
    && HasParameters(path, place.parameters)
    && if NamesSome(path) then
         NamesDatabase(path, place.uri, place.database)
       else
         place.database == "" && HasAddress(path, place.uri)
  }

  lemma AddressIff(path: string, uri: string, parameters: string)
    ensures
      var question := RFind(path, '?');
      && (HasAddress(path, uri) <==> uri == if question.Some? then path[..question.value] else path)
      && (HasParameters(path, parameters) <==>
            parameters == if question.Some? then path[question.value + 1..] else "")
  {
    var question := RFind(path, '?');
    if question.Some? {
      assert path[question.value] == '?';
      var front, tail := path[..question.value], path[question.value + 1..];
      RFindIff(path, '?', front, tail);
      assert LastMet(path, '?', front, tail);
      forall before, after | LastMet(path, '?', before, after)
        ensures before == front && after == tail
      {
        RFindIff(path, '?', before, after);
      }
    }
    hide RFind, LastMet;
  }

  lemma DatabaseIff(path: string, uri: string, database: string)
    ensures
      var slash := RFind(path, '/');
      NamesDatabase(path, uri, database) <==>
        slash.Some? && uri == path[..slash.value] && database == path[slash.value + 1..] && BeginsWithInt(database)
  {
    RFindIff(path, '/', uri, database);
    hide RFind, LastMet, BeginsWithInt;
  }

  lemma SomeDatabaseIff(path: string)
    ensures
      var slash := RFind(path, '/');
      NamesSome(path) <==> slash.Some? && BeginsWithInt(path[slash.value + 1..])
  {
    var slash := RFind(path, '/');
    if slash.Some? {
      DatabaseIff(path, path[..slash.value], path[slash.value + 1..]);
    }
    forall uri, database | NamesDatabase(path, uri, database)
      ensures slash.Some? && BeginsWithInt(path[slash.value + 1..])
    {
      DatabaseIff(path, uri, database);
    }
    hide NamesDatabase, BeginsWithInt, RFind;
  }

  lemma PlaceAtIff(path: string, place: Place)
    ensures PlaceAt(path, RFind(path, '?'), RFind(path, '/')) == place <==> IsPlace(path, place)
  {
    hide RFind, NamesDatabase, NamesSome, HasAddress, HasParameters, StoiAccepts, BeginsWithInt;
    AddressIff(path, place.uri, place.parameters);
    SomeDatabaseIff(path);
    DatabaseIff(path, place.uri, place.database);
    var slash := RFind(path, '/');
    if slash.Some? {
      StoiIff(path[slash.value + 1..]);
    }
  }

  /** For every path: which database, address and parameters it names; without an address it is refused. */
  lemma SplitPathIff(path: string, place: Place)
    ensures SplitPath(path) == Ok(place) <==> IsPlace(path, place) && place.uri != ""
    ensures SplitPath(path) == Err(InvalidConnectionString) <==> exists p :: IsPlace(path, p) && p.uri == ""
    ensures SplitPath(path).Err? ==> SplitPath(path).error == InvalidConnectionString
  {
    forall p
      ensures PlaceAt(path, RFind(path, '?'), RFind(path, '/')) == p <==> IsPlace(path, p)
    {
      PlaceAtIff(path, p);
    }
    hide IsPlace, PlaceAt;
  }

  /** A string that names an address, and parts to it. */
  ghost predicate Names(text: string, parts: Parts, place: Place) {
    IsUri(text, parts) && IsPlace(parts.path, place) && place.uri != ""
  }

  /**
   For every string: it is refused as a whole exactly if it is not put together as it should or
   has no address, and otherwise for the first parameter with something wrong with it.
   */
  lemma ParseFailsIff(text: string, f: Failure)
    ensures Parse(text) == Err(f) <==>
            if f == InvalidConnectionString then forall parts, place :: !Names(text, parts, place)
            else exists parts, place :: Names(text, parts, place) && TextFails(place.parameters, f)
  {
    forall parts, place
      ensures Names(text, parts, place) <==>
              SplitUri(text) == Ok(parts) && SplitPath(parts.path) == Ok(place)
    {
      SplitUriIff(text, parts);
      SplitPathIff(parts.path, place);
    }
    SplitErrors(text);
    if SplitUri(text).Ok? && SplitPath(SplitUri(text).value.path).Ok? {
      var parts := SplitUri(text).value;
      var place := SplitPath(parts.path).value;
      assert Names(text, parts, place);
      ParametersIff(place.parameters, Chosen(parts, place), f);
      NoSuchFailure(place.parameters);
    }
    hide Names, SplitUri, SplitPath, TextFails, ApplyText;
  }

  lemma SplitErrors(text: string)
    ensures SplitUri(text).Err? ==> SplitUri(text).error == InvalidConnectionString
    ensures forall path :: SplitPath(path).Err? ==> SplitPath(path).error == InvalidConnectionString
  {
    hide Find, PlaceAt;
  }

  lemma NoSuchFailure(text: string)
    ensures !TextFails(text, InvalidConnectionString)
  {
    hide IsReadable, Divides;
  }

  /** And what it is read as, if the parameters are valid. */
  lemma ParseSucceeds(text: string, parts: Parts, place: Place, ps: seq<Parameter>)
    requires Names(text, parts, place) && forall p <- ps :: ValidParameter(p)
    requires place.parameters == if ps == [] then "" else Joined(RenderAll(ps), '&')
    ensures
      var opts := Options(parts.alias, parts.schema, place.uri, place.database, parts.auth, false, 0, 0);
      Parse(text) == Ok(Overridden(opts, ps))
  {
    SplitUriIff(text, parts);
    SplitPathIff(parts.path, place);
    TailIsApplied(ps, Chosen(parts, place));
    hide SplitUri, SplitPath, ApplyText, Overridden, IsUri, IsPlace, Joined, RenderAll, ValidParameter;
  }
}
