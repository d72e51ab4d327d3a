/**
 The command encoder (serializer.hpp).

 `Encode` is the format of section "Sending commands to a Redis server" of the Redis
 serialization protocol specification: an array of bulk strings. `Serialize` is the
 original's code, which computes the size first, grows the buffer once, and then lets
 `snprintf` and `memcpy` write into it.
 */
module Serializer {
  import Decimal
  import opened Resp

  type Command = seq<string>

  function ArgumentHeader(argument: string): string {
    "$" + Decimal.Text(|argument|) + CRLF
  }

  function EncodeArgument(argument: string): (r: string)
    ensures |argument| + 2 <= |r|
  {
    ArgumentHeader(argument) + argument + CRLF
  }

  function EncodeArguments(arguments: seq<string>): string {
    if arguments == [] then "" else EncodeArgument(arguments[0]) + EncodeArguments(arguments[1..])
  }

  function EncodeHeader(command: Command): string {
    "*" + Decimal.Text(|command|) + CRLF
  }

  function Encode(command: Command): string {
    EncodeHeader(command) + EncodeArguments(command)
  }

  function EncodeAll(commands: seq<Command>): string {
    if commands == [] then "" else Encode(commands[0]) + EncodeAll(commands[1..])
  }

  /**
   What `serialize` appends. A command without arguments leaves no room for the NUL that
   `snprintf` writes, so its line feed is lost to it.
   */
  function Appended(command: Command): string {
    if command == [] then "*0\r\0" else Encode(command)
  }

  function AppendedAll(commands: seq<Command>): string {
    if commands == [] then "" else Appended(commands[0]) + AppendedAll(commands[1..])
  }

  /** The encoder is right exactly on the commands that have an argument. */
  lemma AppendedIsEncodingIff(command: Command)
    ensures Appended(command) == Encode(command) <==> command != []
  {
    if command == [] {
      assert Encode(command)[3] == '\n';
    }
  }

  lemma {:induction false} AppendedAllIsEncoding(commands: seq<Command>)
    requires [] !in commands
    ensures AppendedAll(commands) == EncodeAll(commands)
  {
    if commands != [] {
      AppendedAllIsEncoding(commands[1..]);
    }
  }

  // ---------------------------------------------------------------- sizes

  const TERMINATOR_SIZE: nat := 2

  /** The digits a division loop counts: none for zero. */
  ghost function Digits(n: nat): nat {
    if n == 0 then 0 else |Decimal.Text(n)|
  }

  method SizeForInt(arg: nat) returns (r: nat)
    ensures r == |Decimal.Text(arg)|
  {
    r := 0;
    var rest := arg;
    assert Decimal.Text(arg) != "";
    while rest > 0
      invariant r + Digits(rest) == Digits(arg)
    {
      r := r + 1;
      rest := rest / 10;
    }
    r := if r < 1 then 1 else r;
  }

  method CommandSize(command: Command) returns (size: nat)
    ensures size == |Encode(command)|
  {
    var digits := SizeForInt(|command|);
    size := 1 + digits + TERMINATOR_SIZE;
    for i := 0 to |command|
      invariant size + |EncodeArguments(command[i..])| == |Encode(command)|
    {
      digits := SizeForInt(|command[i]|);
      assert command[i..][1..] == command[i + 1..];
      size := size + (1 + digits + TERMINATOR_SIZE + |command[i]| + TERMINATOR_SIZE);
    }
  }

  // ---------------------------------------------------------------- writing

  /** What `snprintf(…, size, …)` leaves in memory for an output of `text`. */
  function Printed(text: string, size: nat): string {
    if size == 0 then ""
    else if |text| < size then text + ['\0']
    else text[..size - 1] + ['\0']
  }

  /** Memory after the bytes `written` are stored from position `at` on. */
  function Store(data: string, at: nat, written: string): (r: string)
    requires at + |written| <= |data|
    ensures |r| == |data|
  {
    data[..at] + written + data[at + |written|..]
  }

  /** A store that starts inside an earlier one and covers the rest of it. */
  lemma StoreOver(data: string, at: nat, kept: string, lost: string, next: string)
    requires |lost| <= |next| && at + |kept| + |next| <= |data|
    ensures Store(Store(data, at, kept + lost), at + |kept|, next) == Store(data, at, kept + next)
  {
    var r := Store(data, at, kept + lost);
    assert r[..at + |kept|] == data[..at] + kept;
    assert r[at + |kept| + |next|..] == data[at + |kept| + |next|..];
  }

  lemma StoreNext(data: string, at: nat, kept: string, next: string)
    requires at + |kept| + |next| <= |data|
    ensures Store(Store(data, at, kept), at + |kept|, next) == Store(data, at, kept + next)
  {
    assert kept + "" == kept;
    StoreOver(data, at, kept, "", next);
  }

  class Buffer {
    var data: string

    constructor ()
      ensures data == ""
    {
      data := "";
    }

    method Resize(size: nat)
      modifies this
      ensures |data| == size
      ensures forall i :: 0 <= i < size ==> data[i] == if i < |old(data)| then old(data)[i] else '\0'
    {
      data := if size <= |data| then data[..size] else data + seq(size - |data|, _ => '\0');
    }

    method Put(at: nat, c: char)
      requires at < |data|
      modifies this
      ensures data == Store(old(data), at, [c])
    {
      data := data[at := c];
    }

    /** Both writers may only be called when every byte they write lies inside the buffer. */
    method Snprintf(at: nat, size: nat, text: string) returns (length: nat)
      requires at + |Printed(text, size)| <= |data|
      modifies this
      ensures length == |text|
      ensures data == Store(old(data), at, Printed(text, size))
    {
      data := Store(data, at, Printed(text, size));
      length := |text|;
    }

    method Memcpy(at: nat, source: string)
      requires at + |source| <= |data|
      modifies this
      ensures data == Store(old(data), at, source)
    {
      data := Store(data, at, source);
    }
  }

  method WriteTerminator(buffer: Buffer, from: nat) returns (total: nat)
    requires from + 2 <= |buffer.data|
    modifies buffer
    ensures total == from + 2
    ensures buffer.data == Store(old(buffer.data), from, CRLF)
  {
    total := from;
    buffer.Put(total, '\r');
    total := total + 1;
    buffer.Put(total, '\n');
    total := total + 1;
    StoreNext(old(buffer.data), from, "\r", "\n");
  }

  /**
   The body of the argument loop. The NUL of `snprintf` falls on the byte that the argument
   or its terminator then overwrites.
   */
  method WriteArgument(buffer: Buffer, from: nat, size: nat, argument: string) returns (total: nat)
    requires |EncodeArgument(argument)| <= size && from + |EncodeArgument(argument)| <= |buffer.data|
    modifies buffer
    ensures total == from + |EncodeArgument(argument)|
    ensures buffer.data == Store(old(buffer.data), from, EncodeArgument(argument))
  {
    hide ArgumentHeader;
    ghost var before := buffer.data;
    var header := ArgumentHeader(argument);
    ghost var line := header + argument;
    assert Printed(header, size) == header + "\0";
    assert EncodeArgument(argument) == line + CRLF && |CRLF| == 2;
    hide Printed, Store, EncodeArgument, CRLF;
    total := from;
    var length := buffer.Snprintf(total, size, header);
    total := total + length;
    if argument != "" {
      StoreOver(before, from, header, "\0", argument);
      buffer.Memcpy(total, argument);
      total := total + |argument|;
      StoreNext(before, from, line, CRLF);
    } else {
      assert line == header;
      StoreOver(before, from, line, "\0", CRLF);
    }
    total := WriteTerminator(buffer, total);
  }

  /** Appends the encoding in place; what the buffer held before is untouched. */
  method Serialize(buffer: Buffer, command: Command)
    modifies buffer
    ensures buffer.data == old(buffer.data) + Appended(command)
  {
    hide EncodeArgument;
    ghost var before := buffer.data;
    var total := |buffer.data|;
    var size := CommandSize(command);
    buffer.Resize(total + size);
    assert buffer.data[..total] == before;
    var header := EncodeHeader(command);
    var length := buffer.Snprintf(total, size, header);
    if command == [] {
      assert header == "*0\r\n";
      assert buffer.data == before + "*0\r\0";
      return;
    }
    total := total + length;
    assert buffer.data[..total] == before + header;

    hide EncodeHeader, Printed;
    for i := 0 to |command|
      invariant |before| <= total <= |buffer.data| && |buffer.data| == |before| + size
      invariant buffer.data[..total] + EncodeArguments(command[i..]) == before + Encode(command)
    {
      assert command[i..][1..] == command[i + 1..];
      ghost var written := buffer.data[..total];
      total := WriteArgument(buffer, total, size, command[i]);
      assert buffer.data[..total] == written + EncodeArgument(command[i]);
    }
  }

  method SerializeAll(buffer: Buffer, commands: seq<Command>)
    modifies buffer
    ensures buffer.data == old(buffer.data) + AppendedAll(commands)
  {
    hide Appended;
    for i := 0 to |commands|
      invariant buffer.data + AppendedAll(commands[i..]) == old(buffer.data) + AppendedAll(commands)
    {
      assert commands[i..][1..] == commands[i + 1..];
      Serialize(buffer, commands[i]);
    }
  }
}
