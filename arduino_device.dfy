/**
 * The serial back end of the API (`ArduinoDevice`): what arrives from the
 * firmware is framed into lines at `\n`; each non-blank line, trimmed, is
 * decoded as `;`-separated `KEY=VALUE` tokens into a fourteen-value record,
 * which replaces the last one; commands are written to the port followed by
 * `\n`.
 *
 * The serial port is a value: whether it is open and the calls made on it.
 * What `ReadExisting` returns is the `chunk` parameter of `OnData`, and
 * `DateTime.UtcNow` is the `now` parameter.
 */
module SerialBackend {
  import opened Wrappers
  import opened Text
  import opened Numbers

  newtype byte = x: int | 0 <= x < 256

  // ---------------------------------------------------------------- the record

  /** The values `TryParseTelemetry` passes to `new Telemetry(…)`, in the order they are
      passed; the eleven-field `Telemetry` record of the namespace does not take them. */
  datatype SerialTelemetry = SerialTelemetry(
    t: real,
    sp: real,
    limMin: real,
    limMax: real,
    limCrit: real,
    mode: string,
    state: string,
    heater: int,
    fan: int,
    alarm: string,
    eStop: bool,
    dtEstopUs: int,
    loopUs: int,
    timestamp: int)

  /** The locals' initial values: every value 0, empty or false. */
  function Defaults(now: int): SerialTelemetry {
    SerialTelemetry(0.0, 0.0, 0.0, 0.0, 0.0, "", "", 0, 0, "", false, 0, 0, now)
  }

  /** What `double.TryParse(v, out x)` leaves in `x`: the number, or 0 on failure. */
  function RealOrZero(v: string): real {
    TryParseDouble(v).GetOr(0.0)
  }

  /** The same for `int.TryParse`. */
  function Int32OrZero(v: string): int {
    TryParseInt32(v).GetOr(0)
  }

  /** The same for `long.TryParse`. */
  function Int64OrZero(v: string): int {
    TryParseInt64(v).GetOr(0)
  }

  // ---------------------------------------------------------------- decoding

  /** One pass of the `foreach`: a token that splits at `=` into exactly a key and a
      value sets the local of that key; any other token changes nothing. */
  function Assign(r: SerialTelemetry, token: string): SerialTelemetry {
    var kv := Split(token, '=');
    if |kv| != 2 then r else Set(r, kv[0], kv[1])
  }

  /** The `switch` on the key: a known key sets its local, read as its type; an unknown
      key changes nothing. */
  function Set(r: SerialTelemetry, k: string, v: string): SerialTelemetry {
    if k == "T" then r.(t := RealOrZero(v))
    else if k == "SP" then r.(sp := RealOrZero(v))
    else if k == "LIM_MIN" then r.(limMin := RealOrZero(v))
    else if k == "LIM_MAX" then r.(limMax := RealOrZero(v))
    else if k == "LIM_CRIT" then r.(limCrit := RealOrZero(v))
    else if k == "MODE" then r.(mode := v)
    else if k == "STATE" then r.(state := v)
    else if k == "HEATER" then r.(heater := Int32OrZero(v))
    else if k == "FAN" then r.(fan := Int32OrZero(v))
    else if k == "ALARM" then r.(alarm := v)
    else if k == "ESTOP" then r.(eStop := v == "1")
    else if k == "DT_ESTOP_US" then r.(dtEstopUs := Int64OrZero(v))
    else if k == "LOOP_US" then r.(loopUs := Int64OrZero(v))
    else r
  }

  /** The tokens taken in order. */
  function Decode(r: SerialTelemetry, tokens: seq<string>): SerialTelemetry {
    if tokens == [] then r
    else Assign(Decode(r, tokens[..|tokens| - 1]), tokens[|tokens| - 1])
  }

  /** `line.Split(';', StringSplitOptions.RemoveEmptyEntries)`. */
  function Tokens(line: string): seq<string> {
    NonEmpty(Split(line, ';'))
  }

  /** The record `TryParseTelemetry(line)` builds, `DateTime.UtcNow` being `now`. */
  function ParseLine(line: string, now: int): SerialTelemetry {
    Decode(Defaults(now), Tokens(line))
  }

  // ---------------------------------------------------------------- by key

  /** The keys the `switch` knows. */
  const Keys: seq<string> :=
    ["T", "SP", "LIM_MIN", "LIM_MAX", "LIM_CRIT", "MODE", "STATE", "HEATER", "FAN", "ALARM",
     "ESTOP", "DT_ESTOP_US", "LOOP_US"]

  /** A value in the record, of whichever type its field has. */
  datatype Value = Number(x: real) | Whole(i: int) | Str(s: string) | Flag(b: bool)

  /** The field a key sets. */
  function Field(r: SerialTelemetry, key: string): Value {
    match key
    case "T" => Number(r.t)
    case "SP" => Number(r.sp)
    case "LIM_MIN" => Number(r.limMin)
    case "LIM_MAX" => Number(r.limMax)
    case "LIM_CRIT" => Number(r.limCrit)
    case "MODE" => Str(r.mode)
    case "STATE" => Str(r.state)
    case "HEATER" => Whole(r.heater)
    case "FAN" => Whole(r.fan)
    case "ALARM" => Str(r.alarm)
    case "ESTOP" => Flag(r.eStop)
    case "DT_ESTOP_US" => Whole(r.dtEstopUs)
    case "LOOP_US" => Whole(r.loopUs)
    case _ => Str("")
  }

  /** How the value text of each key is read. */
  function Read(key: string, v: string): Value {
    match key
    case "T" | "SP" | "LIM_MIN" | "LIM_MAX" | "LIM_CRIT" => Number(RealOrZero(v))
    case "HEATER" | "FAN" => Whole(Int32OrZero(v))
    case "DT_ESTOP_US" | "LOOP_US" => Whole(Int64OrZero(v))
    case "ESTOP" => Flag(v == "1")
    case _ => Str(v)
  }

  /** The value of the last token that splits into exactly `key` and a value. */
  function LastValue(tokens: seq<string>, key: string): Option<string> {
    if tokens == [] then None
    else
      var kv := Split(tokens[|tokens| - 1], '=');
      if |kv| == 2 && kv[0] == key then Some(kv[1])
      else LastValue(tokens[..|tokens| - 1], key)
  }

  // ---------------------------------------------------------------- framing

  /** The lines of `s` that end with `\n`, without it. */
  function Lines(s: seq<char>): seq<string>
    decreases |s|
  {
    if '\n' !in s then []
    else
      var i := IndexOf(s, '\n');
      [s[..i]] + Lines(s[i + 1..])
  }

  /** What follows the last `\n` of `s`: the fragment kept for the next chunk. */
  function Rest(s: seq<char>): seq<char>
    decreases |s|
  {
    if '\n' !in s then s
    else Rest(s[IndexOf(s, '\n') + 1..])
  }

  /** Lines written out, each followed by `\n`. */
  function Framed(lines: seq<string>): seq<char> {
    if lines == [] then [] else lines[0] + "\n" + Framed(lines[1..])
  }

  /** The last record after `lines` were read: each non-blank line, trimmed, replaces
      it; blank lines are skipped. */
  function Received(last: Option<SerialTelemetry>, lines: seq<string>, now: int)
    : Option<SerialTelemetry>
  {
    if lines == [] then last
    else
      var line := Trim(lines[|lines| - 1]);
      if |line| > 0 then Some(ParseLine(line, now))
      else Received(last, lines[..|lines| - 1], now)
  }

  // ---------------------------------------------------------------- the port

  /** The number of UTF-16 code units of `s`: a character above U+FFFF takes two. */
  function Utf16Length(s: string): nat {
    if s == [] then 0 else (if s[0] as int < 0x1_0000 then 1 else 2) + Utf16Length(s[1..])
  }

  /** What `Encoding.ASCII.GetBytes` writes for one UTF-16 code unit: its code below 128,
      `?` otherwise. */
  function AsciiByte(c: char): (b: byte)
    ensures b as int < 128
    ensures b as int == c as int <==> c as int < 128
  {
    if c as int < 128 then c as int as byte else '?' as int as byte
  }

  /** `Encoding.ASCII.GetBytes` on a .NET string, which is a sequence of UTF-16 code units:
      a character above U+FFFF is a surrogate pair and becomes two `?`. */
  function Ascii(s: string): (r: seq<byte>)
    ensures |r| == Utf16Length(s)
    ensures forall i :: 0 <= i < |r| ==> r[i] as int < 128
    ensures (forall i :: 0 <= i < |s| ==> s[i] as int < 0x1_0000) ==>
              |r| == |s| && forall i :: 0 <= i < |s| ==> r[i] == AsciiByte(s[i])
  {
    if s == [] then []
    else
      var head := if s[0] as int < 0x1_0000 then [AsciiByte(s[0])] else [63 as byte, 63 as byte];
      var rest := Ascii(s[1..]);
      assert forall i :: 1 <= i < |s| ==> s[1..][i - 1] == s[i];
      head + rest
  }

  /** Each character is encoded on its own: the bytes of a concatenation are the
      concatenation of the bytes. */
  lemma {:induction false} AsciiConcat(a: string, b: string)
    ensures Ascii(a + b) == Ascii(a) + Ascii(b)
    decreases |a|
  {
    if a != [] {
      assert (a + b)[0] == a[0];
      assert (a + b)[1..] == a[1..] + b;
      AsciiConcat(a[1..], b);
    } else {
      assert a + b == b;
    }
  }

  /** One character: its code below 128, one `?` up to U+FFFF, and two `?` above. */
  lemma AsciiChar(c: char)
    ensures c as int < 128 ==> Ascii([c]) == [c as int as byte]
    ensures 128 <= c as int < 0x1_0000 ==> Ascii([c]) == [63]
    ensures 0x1_0000 <= c as int ==> Ascii([c]) == [63, 63]
  {
    assert [c][1..] == [];
  }

  /** The bytes of `command + "\n"`: what `SendAsync` writes. */
  function Encode(command: string): seq<byte> {
    Ascii(command + "\n")
  }

  datatype PortCall = Open | Close | Write(bytes: seq<byte>)

  /** The serial port: whether it is open, and the calls made on it so far. */
  datatype Port = Port(isOpen: bool, calls: seq<PortCall>)

  /** `if (!_port.IsOpen) _port.Open();` */
  function Opened(p: Port): Port {
    if p.isOpen then p else Port(true, p.calls + [Open])
  }

  /** `if (_port.IsOpen) _port.Close();` */
  function Closed(p: Port): Port {
    if p.isOpen then Port(false, p.calls + [Close]) else p
  }

  /** `SendAsync(command)`: the port opened if need be, then the command written. */
  function Sent(p: Port, command: string): Port {
    var q := Opened(p);
    Port(true, q.calls + [Write(Encode(command))])
  }

  // ---------------------------------------------------------------- the device

  class ArduinoDevice {
    var port: Port
    /** `_rx`: what has been received and not yet framed. */
    var rx: seq<char>
    /** `_last`, which `LastTelemetry` returns. */
    var last: Option<SerialTelemetry>

    /** A device on a closed port, nothing received. */
    constructor ()
      ensures port == Port(false, []) && rx == [] && last == None
    {
      port := Port(false, []);
      rx := [];
      last := None;
    }

    method StartAsync()
      modifies this`port
      ensures port == Opened(old(port))
    {
      if !port.isOpen {
        port := Port(true, port.calls + [Open]);
      }
    }

    method StopAsync()
      modifies this`port
      ensures port == Closed(old(port))
    {
      if port.isOpen {
        port := Port(false, port.calls + [Close]);
      }
    }

    method SendAsync(command: string) returns (reply: string)
      modifies this`port
      ensures port == Sent(old(port), command) && reply == "OK"
    {
      if !port.isOpen {
        port := Port(true, port.calls + [Open]);
      }
      port := port.(calls := port.calls + [Write(Ascii(command + "\n"))]);
      reply := "OK";
    }

    /** `DataReceived`: `chunk` appended, then every complete line taken out and,
        when not blank once trimmed, decoded. */
    method OnData(chunk: string, now: int)
      modifies this`rx, this`last
      ensures rx == Rest(old(rx) + chunk) && '\n' !in rx
      ensures last == Received(old(last), Lines(old(rx) + chunk), now)
    {
      ghost var last0 := last;
      rx := rx + chunk;
      ghost var s0 := rx;
      assert s0 == old(rx) + chunk && last0 == old(last);
      ghost var done: seq<string> := [];
      var idx := IndexOf(rx, '\n');
      while idx >= 0
        invariant idx == IndexOf(rx, '\n')
        invariant Lines(s0) == done + Lines(rx) && Rest(s0) == Rest(rx)
        invariant last == Received(last0, done, now)
        decreases |rx|
      {
        var raw := TakeLine(idx, s0, done);
        DecodeLine(raw, now, last0, done);
        done := done + [raw];
        idx := IndexOf(rx, '\n');
      }
      LinesDone(s0, rx, done);
    }

    /** The first half of a pass of the loop in `DataReceived`: the text before the
        first `\n` is taken out of the buffer with its `\n`, and it is the next line of
        what was received. */
    method TakeLine(idx: int, ghost s0: seq<char>, ghost done: seq<string>) returns (raw: string)
      requires 0 <= idx == IndexOf(rx, '\n')
      requires Lines(s0) == done + Lines(rx) && Rest(s0) == Rest(rx)
      modifies this`rx
      ensures raw == old(rx)[..idx] && rx == old(rx)[idx + 1..]
      ensures Lines(s0) == done + [raw] + Lines(rx) && Rest(s0) == Rest(rx)
    {
      ghost var before := rx;
      raw := rx[..idx];
      rx := rx[idx + 1..];
      LinesStep(s0, before, done, idx, raw, rx);
    }

    /** The second half: the line, trimmed, is decoded when not blank, so that the record
        that was the last of the lines `done` becomes the last of `done` and this line. */
    method DecodeLine(raw: string, now: int, ghost last0: Option<SerialTelemetry>,
                      ghost done: seq<string>)
      requires last == Received(last0, done, now)
      modifies this`last
      ensures last == Received(last0, done + [raw], now)
    {
      ReceivedStep(last0, done, raw, now);
      var line := Trim(raw);
      if |line| > 0 {
        TryParseTelemetry(line, now);
      }
    }

    /** `TryParseTelemetry(line)`: the locals start at their defaults and each token
        sets at most one of them; the record of the locals becomes the last one. */
    method TryParseTelemetry(line: string, now: int)
      modifies this`last
      ensures last == Some(ParseLine(line, now))
    {
      var parts := Split(line, ';');
      parts := NonEmpty(parts);
      var t, sp, lmin, lmax, lcrit := 0.0, 0.0, 0.0, 0.0, 0.0;
      var mode, state, alarm := "", "", "";
      var heater, fan := 0, 0;
      var estop := false;
      var dt, loop := 0, 0;
      var i := 0;
      while i < |parts|
        invariant 0 <= i <= |parts|
        invariant SerialTelemetry(t, sp, lmin, lmax, lcrit, mode, state, heater, fan, alarm,
                                  estop, dt, loop, now) == Decode(Defaults(now), parts[..i])
      {
        DecodePrefix(Defaults(now), parts, i);
        var p := parts[i];
        var kv := Split(p, '=');
        if |kv| == 2 {
          var k, v := kv[0], kv[1];
          if k == "T" {
            t := RealOrZero(v);
          } else if k == "SP" {
            sp := RealOrZero(v);
          } else if k == "LIM_MIN" {
            lmin := RealOrZero(v);
          } else if k == "LIM_MAX" {
            lmax := RealOrZero(v);
          } else if k == "LIM_CRIT" {
            lcrit := RealOrZero(v);
          } else if k == "MODE" {
            mode := v;
          } else if k == "STATE" {
            state := v;
          } else if k == "HEATER" {
            heater := Int32OrZero(v);
          } else if k == "FAN" {
            fan := Int32OrZero(v);
          } else if k == "ALARM" {
            alarm := v;
          } else if k == "ESTOP" {
            estop := v == "1";
          } else if k == "DT_ESTOP_US" {
            dt := Int64OrZero(v);
          } else if k == "LOOP_US" {
            loop := Int64OrZero(v);
          }
        }
        i := i + 1;
      }
      assert parts[..|parts|] == parts;
      last := Some(SerialTelemetry(t, sp, lmin, lmax, lcrit, mode, state, heater, fan, alarm,
                                   estop, dt, loop, now));
    }
  }

  // ---------------------------------------------------------------- framing lemmas

  /** A `\n` in `s`: its first line comes off the front. */
  lemma FrameStep(s: seq<char>)
    requires '\n' in s
    ensures var i := IndexOf(s, '\n');
      Lines(s) == [s[..i]] + Lines(s[i + 1..]) && Rest(s) == Rest(s[i + 1..])
  {
  }

  /** No `\n` in `s`: no line, and all of `s` is kept. */
  lemma FrameEnd(s: seq<char>)
    requires '\n' !in s
    ensures Lines(s) == [] && Rest(s) == s
  {
  }

  /** Once the buffer holds no `\n`, the lines taken are all the lines of what was
      received and the buffer is the fragment kept. */
  lemma LinesDone(s0: seq<char>, rx: seq<char>, done: seq<string>)
    requires '\n' !in rx
    requires Lines(s0) == done + Lines(rx) && Rest(s0) == Rest(rx)
    ensures Lines(s0) == done && Rest(s0) == rx && '\n' !in Rest(s0)
  {
    FrameEnd(rx);
    assert done + [] == done;
  }

  /** The fragment kept holds no `\n`. */
  lemma {:induction false} RestClean(s: seq<char>)
    ensures '\n' !in Rest(s)
    decreases |s|
  {
    if '\n' in s {
      RestClean(s[IndexOf(s, '\n') + 1..]);
    }
  }

  /** One more line read. */
  lemma ReceivedStep(last: Option<SerialTelemetry>, lines: seq<string>, line: string, now: int)
    ensures Received(last, lines + [line], now) ==
      if |Trim(line)| > 0 then Some(ParseLine(Trim(line), now)) else Received(last, lines, now)
  {
    assert (lines + [line])[..|lines|] == lines;
  }

  /** Framing loses nothing: the lines, each with its `\n`, then the fragment kept, give
      back what was received. */
  lemma {:induction false} FrameRoundTrip(s: seq<char>)
    ensures s == Framed(Lines(s)) + Rest(s)
    decreases |s|
  {
    if '\n' in s {
      var i := IndexOf(s, '\n');
      var l := s[..i];
      var t := s[i + 1..];
      FrameStep(s);
      FrameRoundTrip(t);
      FramedCons(l, Lines(t));
      Associative(l + "\n", Framed(Lines(t)), Rest(t));
      SplitAround(s, i);
    }
  }

  /** Writing out one more line in front. */
  lemma FramedCons(l: string, lines: seq<string>)
    ensures Framed([l] + lines) == l + "\n" + Framed(lines)
  {
    assert ([l] + lines)[0] == l && ([l] + lines)[1..] == lines;
  }

  /** A sequence is what comes before position `i`, the `\n` there, and what follows. */
  lemma SplitAround(s: seq<char>, i: int)
    requires 0 <= i < |s| && s[i] == '\n'
    ensures s == s[..i] + "\n" + s[i + 1..]
  {
  }

  /** The loop in `DataReceived` keeps the lines taken out so far, then those still in
      the buffer, equal to the lines of all that was received. */
  lemma LinesStep(s0: seq<char>, rx: seq<char>, done: seq<string>, i: int, line: string,
                  after: seq<char>)
    requires 0 <= i == IndexOf(rx, '\n') && line == rx[..i] && after == rx[i + 1..]
    requires Lines(s0) == done + Lines(rx) && Rest(s0) == Rest(rx)
    ensures Lines(s0) == done + [line] + Lines(after) && Rest(s0) == Rest(after)
  {
    FrameStep(rx);
    assert Lines(rx) == [line] + Lines(after);
    Associative(done, [line], Lines(after));
  }

  /** No line holds a `\n`. */
  lemma {:induction false} LinesClean(s: seq<char>)
    ensures forall line :: line in Lines(s) ==> '\n' !in line
    decreases |s|
  {
    if '\n' in s {
      var i := IndexOf(s, '\n');
      var t := s[i + 1..];
      FrameStep(s);
      LinesClean(t);
      forall line | line in Lines(s)
        ensures '\n' !in line
      {
        if line != s[..i] {
          assert line in Lines(t);
        }
      }
    }
  }

  /** Conversely, lines without `\n` and a fragment without `\n`, written out, are framed
      back into those lines and that fragment. */
  lemma {:induction false} FrameUnique(lines: seq<string>, rest: seq<char>)
    requires forall line :: line in lines ==> '\n' !in line
    requires '\n' !in rest
    ensures Lines(Framed(lines) + rest) == lines && Rest(Framed(lines) + rest) == rest
  {
    if lines != [] {
      var s := Framed(lines) + rest;
      var l := lines[0];
      var t := Framed(lines[1..]) + rest;
      assert lines[0] in lines;
      Associative(l + "\n", Framed(lines[1..]), rest);
      assert s == l + "\n" + t;
      assert s[|l|] == '\n' && s[..|l|] == l;
      IndexOfAt(s, '\n', |l|);
      assert s[|l| + 1..] == t;
      FrameUnique(lines[1..], rest);
      assert lines == [l] + lines[1..];
    }
  }

  /** Received text split anywhere is framed the same: the lines of the first part, then
      those of its fragment followed by the second part, and the same fragment kept. */
  lemma {:induction false} FrameConcat(a: seq<char>, b: seq<char>)
    ensures Lines(a + b) == Lines(a) + Lines(Rest(a) + b)
    ensures Rest(a + b) == Rest(Rest(a) + b)
    decreases |a|
  {
    if '\n' in a {
      var i := IndexOf(a, '\n');
      var t := a[i + 1..];
      assert (a + b)[i] == '\n' && (a + b)[..i] == a[..i];
      IndexOfAt(a + b, '\n', i);
      assert (a + b)[i + 1..] == t + b;
      FrameConcat(t, b);
      Associative([a[..i]], Lines(t), Lines(Rest(t) + b));
    } else {
      assert Lines(a) == [] && Rest(a) == a;
    }
  }

  /** Reading lines in two goes leaves the record reading them in one go does. */
  lemma {:induction false} ReceivedConcat(last: Option<SerialTelemetry>, xs: seq<string>,
                                          ys: seq<string>, now: int)
    ensures Received(last, xs + ys, now) == Received(Received(last, xs, now), ys, now)
    decreases |ys|
  {
    if ys == [] {
      assert xs + ys == xs;
    } else {
      var front := ys[..|ys| - 1];
      var line := ys[|ys| - 1];
      assert ys == front + [line];
      Associative(xs, front, [line]);
      ReceivedStep(last, xs + front, line, now);
      ReceivedStep(Received(last, xs, now), front, line, now);
      ReceivedConcat(last, xs, front, now);
    }
  }

  /** Two chunks are one: `OnData(a)` then `OnData(b)` keep the fragment and the record
      that `OnData(a + b)` keeps. */
  lemma ChunksInvisible(rx: seq<char>, a: string, b: string, last: Option<SerialTelemetry>,
                        now: int)
    ensures Rest(Rest(rx + a) + b) == Rest(rx + a + b)
    ensures Received(Received(last, Lines(rx + a), now), Lines(Rest(rx + a) + b), now) ==
            Received(last, Lines(rx + a + b), now)
  {
    FrameConcat(rx + a, b);
    ReceivedConcat(last, Lines(rx + a), Lines(Rest(rx + a) + b), now);
  }

  /** Blank lines are skipped: only blank lines leave the record as it was. */
  lemma {:induction false} BlankLines(last: Option<SerialTelemetry>, lines: seq<string>, now: int)
    requires forall i :: 0 <= i < |lines| ==> Trim(lines[i]) == []
    ensures Received(last, lines, now) == last
  {
    if lines != [] {
      BlankLines(last, lines[..|lines| - 1], now);
    }
  }

  /** The record is the last non-blank line's, trimmed and decoded. */
  lemma {:induction false} LastLineWins(last: Option<SerialTelemetry>, lines: seq<string>,
                                        j: nat, now: int)
    requires j < |lines| && Trim(lines[j]) != []
    requires forall i :: j < i < |lines| ==> Trim(lines[i]) == []
    ensures Received(last, lines, now) == Some(ParseLine(Trim(lines[j]), now))
    decreases |lines|
  {
    if j < |lines| - 1 {
      LastLineWins(last, lines[..|lines| - 1], j, now);
    }
  }

  // ---------------------------------------------------------------- decoding lemmas

  /** One more token: decoding the first `i + 1` tokens takes token `i` after the
      first `i`. */
  lemma DecodePrefix(r: SerialTelemetry, tokens: seq<string>, i: int)
    requires 0 <= i < |tokens|
    ensures Decode(r, tokens[..i + 1]) == Assign(Decode(r, tokens[..i]), tokens[i])
  {
    assert tokens[..i + 1][..i] == tokens[..i];
  }

  /** Each key sets its own field and no other; the timestamp is never set. */
  lemma SetFields(r: SerialTelemetry, k: string, v: string)
    ensures Set(r, k, v).t == if k == "T" then RealOrZero(v) else r.t
    ensures Set(r, k, v).sp == if k == "SP" then RealOrZero(v) else r.sp
    ensures Set(r, k, v).limMin == if k == "LIM_MIN" then RealOrZero(v) else r.limMin
    ensures Set(r, k, v).limMax == if k == "LIM_MAX" then RealOrZero(v) else r.limMax
    ensures Set(r, k, v).limCrit == if k == "LIM_CRIT" then RealOrZero(v) else r.limCrit
    ensures Set(r, k, v).mode == if k == "MODE" then v else r.mode
    ensures Set(r, k, v).state == if k == "STATE" then v else r.state
    ensures Set(r, k, v).heater == if k == "HEATER" then Int32OrZero(v) else r.heater
    ensures Set(r, k, v).fan == if k == "FAN" then Int32OrZero(v) else r.fan
    ensures Set(r, k, v).alarm == if k == "ALARM" then v else r.alarm
    ensures Set(r, k, v).eStop == if k == "ESTOP" then v == "1" else r.eStop
    ensures Set(r, k, v).dtEstopUs == if k == "DT_ESTOP_US" then Int64OrZero(v) else r.dtEstopUs
    ensures Set(r, k, v).loopUs == if k == "LOOP_US" then Int64OrZero(v) else r.loopUs
    ensures Set(r, k, v).timestamp == r.timestamp
  {
  }
  /** Which field each key names. */
  lemma FieldTable(r: SerialTelemetry)
    ensures Field(r, "T") == Number(r.t) && Field(r, "SP") == Number(r.sp)
    ensures Field(r, "LIM_MIN") == Number(r.limMin) && Field(r, "LIM_MAX") == Number(r.limMax)
    ensures Field(r, "LIM_CRIT") == Number(r.limCrit) && Field(r, "MODE") == Str(r.mode)
    ensures Field(r, "STATE") == Str(r.state) && Field(r, "HEATER") == Whole(r.heater)
    ensures Field(r, "FAN") == Whole(r.fan) && Field(r, "ALARM") == Str(r.alarm)
    ensures Field(r, "ESTOP") == Flag(r.eStop) && Field(r, "DT_ESTOP_US") == Whole(r.dtEstopUs)
    ensures Field(r, "LOOP_US") == Whole(r.loopUs)
  {
  }

  /** How the value of each numeric key is read. */
  lemma ReadNumbers(v: string)
    ensures Read("T", v) == Number(RealOrZero(v)) && Read("SP", v) == Number(RealOrZero(v))
    ensures Read("LIM_MIN", v) == Number(RealOrZero(v))
    ensures Read("LIM_MAX", v) == Number(RealOrZero(v))
    ensures Read("LIM_CRIT", v) == Number(RealOrZero(v))
  {
  }

  /** How the value of each key kept as text is read. */
  lemma ReadTexts(v: string)
    ensures Read("MODE", v) == Str(v) && Read("STATE", v) == Str(v) && Read("ALARM", v) == Str(v)
  {
  }

  /** How the value of each integer and flag key is read. */
  lemma ReadWholes(v: string)
    ensures Read("HEATER", v) == Whole(Int32OrZero(v)) && Read("FAN", v) == Whole(Int32OrZero(v))
    ensures Read("ESTOP", v) == Flag(v == "1")
    ensures Read("DT_ESTOP_US", v) == Whole(Int64OrZero(v))
    ensures Read("LOOP_US", v) == Whole(Int64OrZero(v))
  {
  }

  /** `SetByKey` for the temperatures, read as numbers. */
  lemma SetByNumberKey(r: SerialTelemetry, k: string, v: string, key: string)
    requires key in ["T", "SP", "LIM_MIN"]
    ensures Field(Set(r, k, v), key) == if k == key then Read(key, v) else Field(r, key)
  {
    SetFields(r, k, v);
    FieldTable(r);
    FieldTable(Set(r, k, v));
    ReadNumbers(v);
    if key == "T" { }
    else if key == "SP" { }
  }

  /** `SetByKey` for the limits `LIM_MAX` and `LIM_CRIT`, read as numbers. */
  lemma SetByLimitKey(r: SerialTelemetry, k: string, v: string, key: string)
    requires key in ["LIM_MAX", "LIM_CRIT"]
    ensures Field(Set(r, k, v), key) == if k == key then Read(key, v) else Field(r, key)
  {
    SetFields(r, k, v);
    FieldTable(r);
    FieldTable(Set(r, k, v));
    ReadNumbers(v);
    if key == "LIM_MAX" { }
  }

  /** `SetByKey` for the keys kept as text. */
  lemma SetByTextKey(r: SerialTelemetry, k: string, v: string, key: string)
    requires key in ["MODE", "STATE", "ALARM"]
    ensures Field(Set(r, k, v), key) == if k == key then Read(key, v) else Field(r, key)
  {
    SetFields(r, k, v);
    FieldTable(r);
    FieldTable(Set(r, k, v));
    ReadTexts(v);
    if key == "MODE" { }
    else if key == "STATE" { }
  }

  /** `SetByKey` for the duty keys, read as 32-bit integers. */
  lemma SetByDutyKey(r: SerialTelemetry, k: string, v: string, key: string)
    requires key in ["HEATER", "FAN"]
    ensures Field(Set(r, k, v), key) == if k == key then Read(key, v) else Field(r, key)
  {
    SetFields(r, k, v);
    FieldTable(r);
    FieldTable(Set(r, k, v));
    ReadWholes(v);
    if key == "HEATER" { }
  }

  /** `SetByKey` for the flag and the 64-bit timings. */
  lemma SetByWholeKey(r: SerialTelemetry, k: string, v: string, key: string)
    requires key in ["ESTOP", "DT_ESTOP_US", "LOOP_US"]
    ensures Field(Set(r, k, v), key) == if k == key then Read(key, v) else Field(r, key)
  {
    SetFields(r, k, v);
    FieldTable(r);
    FieldTable(Set(r, k, v));
    ReadWholes(v);
    if key == "ESTOP" { }
    else if key == "DT_ESTOP_US" { }
  }

  /** The `switch` as a whole: a known key's field gets the value read for it when the
      token's key is that key, and keeps its value otherwise. */
  lemma SetByKey(r: SerialTelemetry, k: string, v: string, key: string)
    requires key in Keys
    ensures Field(Set(r, k, v), key) == if k == key then Read(key, v) else Field(r, key)
    ensures Set(r, k, v).timestamp == r.timestamp
  {
    SetFields(r, k, v);
    if key in ["T", "SP", "LIM_MIN"] {
      SetByNumberKey(r, k, v, key);
    } else if key in ["LIM_MAX", "LIM_CRIT"] {
      SetByLimitKey(r, k, v, key);
    } else if key in ["MODE", "STATE", "ALARM"] {
      SetByTextKey(r, k, v, key);
    } else if key in ["HEATER", "FAN"] {
      SetByDutyKey(r, k, v, key);
    } else {
      SetByWholeKey(r, k, v, key);
    }
  }

  /** One token sets the field of its key, read as that key's type; no other field. */
  lemma AssignByKey(r: SerialTelemetry, token: string, key: string)
    requires key in Keys
    ensures var kv := Split(token, '=');
      Field(Assign(r, token), key) ==
        if |kv| == 2 && kv[0] == key then Read(key, kv[1]) else Field(r, key)
    ensures Assign(r, token).timestamp == r.timestamp
  {
    var kv := Split(token, '=');
    if |kv| == 2 {
      SetByKey(r, kv[0], kv[1], key);
    }
  }

  /** Each field holds the value of the last token for its key (a later malformed number
      reads as 0), or its starting value when no token has the key. */
  lemma {:induction false} DecodeByKey(r: SerialTelemetry, tokens: seq<string>, key: string)
    requires key in Keys
    ensures Field(Decode(r, tokens), key) ==
      match LastValue(tokens, key)
      case None => Field(r, key)
      case Some(v) => Read(key, v)
    ensures Decode(r, tokens).timestamp == r.timestamp
  {
    if tokens != [] {
      var front := tokens[..|tokens| - 1];
      DecodeByKey(r, front, key);
      AssignByKey(Decode(r, front), tokens[|tokens| - 1], key);
    }
  }

  /** ESTOP reads true exactly when the last ESTOP token's value is `1`. */
  lemma EStopIffOne(line: string, now: int)
    ensures ParseLine(line, now).eStop <==> LastValue(Tokens(line), "ESTOP") == Some("1")
  {
    DecodeByKey(Defaults(now), Tokens(line), "ESTOP");
  }

  /** Tokens without `=` change nothing. */
  lemma {:induction false} DecodeWithoutPairs(r: SerialTelemetry, tokens: seq<string>)
    requires forall p :: p in tokens ==> '=' !in p
    ensures Decode(r, tokens) == r
  {
    if tokens != [] {
      var front := tokens[..|tokens| - 1];
      var last := tokens[|tokens| - 1];
      assert forall p :: p in front ==> p in tokens;
      DecodeWithoutPairs(r, front);
      assert last in tokens;
      assert Split(last, '=') == [last];
    }
  }

  /** A line with no `=` in it, such as `ACK;` or a JSON object, still replaces the last
      record, with the defaults. */
  lemma LineWithoutPairs(line: string, now: int)
    requires '=' !in line
    ensures ParseLine(line, now) == Defaults(now)
  {
    SplitAvoids(line, ';', '=');
    DecodeWithoutPairs(Defaults(now), Tokens(line));
  }

  // ---------------------------------------------------------------- port lemmas

  /** Opening an open port and closing a closed one do nothing, so StartAsync and
      StopAsync repeated are the same as once. */
  lemma PortGuards(p: Port)
    ensures Opened(p).isOpen && Opened(Opened(p)) == Opened(p)
    ensures !Closed(p).isOpen && Closed(Closed(p)) == Closed(p)
    ensures p.isOpen ==> Opened(p) == p
    ensures !p.isOpen ==> Closed(p) == p
  {
  }

  /** SendAsync opens a closed port once and then only writes: each command is one Write
      call with its bytes. */
  lemma SendWrites(p: Port, a: string, b: string)
    ensures Sent(p, a).isOpen
    ensures Sent(p, a).calls == Opened(p).calls + [Write(Encode(a))]
    ensures Sent(Sent(p, a), b).calls == Sent(p, a).calls + [Write(Encode(b))]
  {
  }

  /** The bytes of an ASCII command are its character codes, then a single 10 (`\n`). */
  lemma EncodeAscii(command: string)
    requires forall i :: 0 <= i < |command| ==> command[i] as int < 128
    ensures |Encode(command)| == |command| + 1
    ensures forall i :: 0 <= i < |command| ==> Encode(command)[i] as int == command[i] as int
    ensures Encode(command)[|command|] == 10
  {
    var s := command + "\n";
    assert forall i :: 0 <= i < |command| ==> s[i] == command[i];
  }
}
