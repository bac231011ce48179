/** The serial link between the back end and the firmwares: what the "bad" firmware does
    with the bytes `SendAsync` writes, and what `DataReceived` makes of the lines either
    firmware prints. A byte written on one side is the character read on the other. */
module SerialLink {
  import opened Wrappers
  import opened Text
  import opened Numbers
  import Bad = FornoLabBad
  import Good = FornoLabGood
  import Backend = SerialBackend

  /** The characters `Serial.read()` returns for the bytes on the wire. */
  function Wire(bytes: seq<Backend.byte>): (s: string)
    ensures |s| == |bytes|
    ensures forall i :: 0 <= i < |bytes| ==> s[i] as int == bytes[i] as int
  {
    if bytes == [] then [] else [bytes[0] as int as char] + Wire(bytes[1..])
  }

  predicate IsAscii(s: string) {
    forall i :: 0 <= i < |s| ==> s[i] as int < 128
  }

  /** An ASCII command arrives as written, followed by `\n`. */
  lemma WireEncode(command: string)
    requires IsAscii(command)
    ensures Wire(Backend.Encode(command)) == command + "\n"
  {
    Backend.EncodeAscii(command);
    var w := Wire(Backend.Encode(command));
    var s := command + "\n";
    assert |w| == |s|;
    forall i | 0 <= i < |s|
      ensures w[i] == s[i]
    {
      if i < |command| {
        assert s[i] == command[i];
      }
    }
  }

  // ---------------------------------------------------------------- commands to the bad firmware

  /** Reading two pieces one after the other is reading them together. */
  lemma {:induction false} FeedConcat(r: Bad.Serial, a: string, b: string, nowMs: nat)
    ensures Bad.Feed(r, a + b, nowMs) == Bad.Feed(Bad.Feed(r, a, nowMs), b, nowMs)
    decreases |b|
  {
    if b == [] {
      assert a + b == a;
    } else {
      var front := b[..|b| - 1];
      FeedConcat(r, a, front, nowMs);
      assert (a + b)[..|a + b| - 1] == a + front;
    }
  }

  /** A command and its `;`, read into an idle buffer, run on what the buffer held before
      the command followed by the command, cut to 95 characters and at any NUL. */
  lemma FeedTerminated(r: Bad.Serial, command: string, nowMs: nat)
    requires Bad.Idle(r) && ';' !in command
    ensures Bad.Feed(r, command + [';'], nowMs) ==
      var (c, reply) := Bad.Handle(r.c, Bad.CStr(Bad.Kept(r.pending + command)), nowMs);
      Bad.Serial(c, [], r.sent + [reply])
  {
    var input := command + [';'];
    assert input[..|input| - 1] == command;
    Bad.FeedStores(r, command, nowMs);
    var k := Bad.Kept(r.pending + command);
    assert ';' !in r.pending + command;
    assert ';' !in k by {
      assert forall i :: 0 <= i < |k| ==> k[i] == (r.pending + command)[i];
    }
    Bad.StoredTerminator(k);
  }

  /** A text that begins with `\n` is no command: `handleCommand` answers ERR;. */
  lemma NewlineUnknown(text: string)
    requires |text| > 0 && text[0] == '\n'
    ensures Bad.Parse(text) == Bad.Unknown
  {
    Bad.ParseUnknown(text);
  }

  /** A command ending in `;` reaches an empty buffer as `command;\n`: the command runs,
      and the `\n` after it is left in the buffer. */
  lemma FirstCommand(r: Bad.Serial, command: string, nowMs: nat)
    requires r.pending == [] && ';' !in command
    ensures Bad.Feed(r, command + ";\n", nowMs) ==
      var (c, reply) := Bad.Handle(r.c, Bad.CStr(Bad.Kept(command)), nowMs);
      Bad.Serial(c, "\n", r.sent + [reply])
  {
    assert command + ";\n" == (command + ";") + "\n";
    FeedConcat(r, command + ";", "\n", nowMs);
    Bad.FeedCommand(r, command, nowMs);
    var r1 := Bad.Feed(r, command + ";", nowMs);
    assert "\n"[..0] == [];
    assert Bad.Feed(r1, "\n", nowMs) == Bad.Receive(r1, '\n', nowMs);
  }

  /** With that `\n` left in the buffer, every later command of the same form reaches
      `handleCommand` with the `\n` in front: it is answered ERR;, changes nothing, and
      leaves a `\n` behind again. */
  lemma StaleNewline(r: Bad.Serial, command: string, nowMs: nat)
    requires r.pending == "\n" && ';' !in command
    ensures Bad.Feed(r, command + ";\n", nowMs) == Bad.Serial(r.c, "\n", r.sent + [Bad.Err])
  {
    assert command + ";\n" == (command + ";") + "\n";
    FeedConcat(r, command + ";", "\n", nowMs);
    FeedTerminated(r, command, nowMs);
    StaleText(r.c, command, nowMs);
    var r1 := Bad.Feed(r, command + ";", nowMs);
    assert r1 == Bad.Serial(r.c, [], r.sent + [Bad.Err]);
    assert "\n"[..0] == [];
    assert Bad.Feed(r1, "\n", nowMs) == Bad.Receive(r1, '\n', nowMs);
  }

  /** A command behind a stored `\n` is handled as no command. */
  lemma StaleText(c: Bad.Controller, command: string, nowMs: nat)
    ensures Bad.Handle(c, Bad.CStr(Bad.Kept("\n" + command)), nowMs) == (c, Bad.Err)
  {
    var a := Bad.Kept("\n" + command);
    assert a[0] == '\n';
    var text := Bad.CStr(a);
    assert |text| > 0 && text[0] == '\n' by {
      if '\0' in a {
        var j := IndexOf(a, '\0');
        assert j > 0;
      }
    }
    NewlineUnknown(text);
  }

  /** What `SendAsync` writes reaches the firmware as `command\n`; with no `;` in it the
      firmware only stores it: nothing runs, nothing is answered, and the `\n` stays in
      the buffer. */
  lemma SendWithoutTerminator(r: Bad.Serial, command: string, nowMs: nat)
    requires Bad.Idle(r) && ';' !in command && IsAscii(command)
    ensures Bad.Feed(r, Wire(Backend.Encode(command)), nowMs) ==
            Bad.Serial(r.c, Bad.Kept(r.pending + command + "\n"), r.sent)
  {
    WireEncode(command);
    assert ';' !in command + "\n";
    Bad.FeedStores(r, command + "\n", nowMs);
    assert r.pending + (command + "\n") == r.pending + command + "\n";
  }

  /** Two commands `SendAsync` writes with a `;` at their end, to a firmware with an empty
      buffer: the first runs, the second is answered ERR; and changes nothing. */
  lemma SecondCommandRejected(r: Bad.Serial, first: string, second: string, nowMs: nat)
    requires r.pending == [] && ';' !in first && ';' !in second
    requires IsAscii(first) && IsAscii(second)
    ensures var r1 := Bad.Feed(r, Wire(Backend.Encode(first + ";")), nowMs);
      var r2 := Bad.Feed(r1, Wire(Backend.Encode(second + ";")), nowMs);
      && r1.sent == r.sent + [Bad.Handle(r.c, Bad.CStr(Bad.Kept(first)), nowMs).1]
      && r2.c == r1.c && r2.sent == r1.sent + [Bad.Err] && r2.pending == "\n"
  {
    assert IsAscii(first + ";") by {
      assert forall i :: 0 <= i < |first| ==> (first + ";")[i] == first[i];
    }
    assert IsAscii(second + ";") by {
      assert forall i :: 0 <= i < |second| ==> (second + ";")[i] == second[i];
    }
    WireEncode(first + ";");
    WireEncode(second + ";");
    assert first + ";" + "\n" == first + ";\n";
    assert second + ";" + "\n" == second + ";\n";
    FirstCommand(r, first, nowMs);
    StaleNewline(Bad.Feed(r, first + ";\n", nowMs), second, nowMs);
  }

  // ---------------------------------------------------------------- firmware lines to the back end

  /** Trimming keeps a piece of the text, so it adds no character. */
  lemma TrimAvoids(s: string, c: char)
    requires c !in s
    ensures c !in Trim(s)
  {
    var a := TrimStart(s);
    assert c !in a by {
      assert forall i :: 0 <= i < |a| ==> a[i] == s[LeadingWhite(s) + i];
    }
    var b := TrimEnd(a);
    assert forall i :: 0 <= i < |b| ==> b[i] == a[i];
  }

  /** A line that is not blank and holds no `=` replaces the back end's record with the
      defaults: none of its fields is read. */
  lemma NoPairsLine(last: Option<Backend.SerialTelemetry>, line: string, now: int)
    requires '=' !in line && !AllWhiteSpace(line)
    ensures Backend.Received(last, [line], now) == Some(Backend.Defaults(now))
  {
    TrimEmptyIffBlank(line);
    TrimAvoids(line, '=');
    Backend.LineWithoutPairs(Trim(line), now);
    assert [line][..0] == [];
  }

  /** `println` ends a text with `\r\n`: a text without `\n`, printed, reaches the back
      end as one line, with the `\r` still on it. */
  lemma PrintedLine(text: string)
    requires '\n' !in text
    ensures Backend.Lines(text + "\r\n") == [text + "\r"]
  {
    var s := text + "\r\n";
    var i := |text| + 1;
    assert s[i] == '\n' && s[..i] == text + "\r" && s[i + 1..] == [];
    assert '\n' !in s[..i];
    assert IndexOf(s, '\n') == i;
  }

  /** A printed text that is one line, not blank and without `=` replaces the back
      end's record with the defaults: trimming drops the `\r`. */
  lemma PrintedNoPairs(last: Option<Backend.SerialTelemetry>, text: string, now: int)
    requires '=' !in text && '\n' !in text && !AllWhiteSpace(text)
    ensures Backend.Received(last, Backend.Lines(text + "\r\n"), now) ==
            Some(Backend.Defaults(now))
  {
    PrintedLine(text);
    var l := text + "\r";
    assert !AllWhiteSpace(l) by {
      var k :| 0 <= k < |text| && !IsWhiteSpace(text[k]);
      assert l[k] == text[k];
    }
    NoPairsLine(last, l, now);
  }

  /** A line starting with a character that is not white space and holding neither `=`
      nor `\n`: text for a person, with no `KEY=value` pair. */
  predicate PlainLine(line: string) {
    '=' !in line && '\n' !in line && |line| > 0 && !IsWhiteSpace(line[0])
  }

  /** A plain line gives the back end a record of defaults, as read and as printed. */
  lemma PlainLineRead(last: Option<Backend.SerialTelemetry>, line: string, now: int)
    requires PlainLine(line)
    ensures Backend.Received(last, [line], now) == Some(Backend.Defaults(now))
    ensures Backend.Received(last, Backend.Lines(line + "\r\n"), now) == Some(Backend.Defaults(now))
  {
    NoPairsLine(last, line, now);
    PrintedNoPairs(last, line, now);
  }

  /** The bad firmware's reply to any command but GET, ACK; or ERR;, gives the back end
      a record of defaults, as read and as printed. */
  lemma BadRepliesRead(last: Option<Backend.SerialTelemetry>, c: Bad.Controller, text: string,
                       nowMs: nat, now: int)
    requires !("GET" <= text)
    ensures var reply := Bad.Handle(c, text, nowMs).1;
      && Backend.Received(last, [reply], now) == Some(Backend.Defaults(now))
      && Backend.Received(last, Backend.Lines(reply + "\r\n"), now) == Some(Backend.Defaults(now))
  {
    Bad.HandleReplies(c, text, nowMs);
    var reply := Bad.Handle(c, text, nowMs).1;
    PlainLineRead(last, reply, now);
  }

  /** The two characters the back end splits a reading on: `\n` between lines, `=`
      within a pair. */
  predicate Splitting(ch: char) {
    ch == '=' || ch == '\n'
  }

  /** No character of a printed number is `=` or `\n`. */
  lemma NumberTextAvoids(x: real, i: int, n: nat, ch: char)
    requires Splitting(ch)
    ensures ch !in PrintFloat1(x) && ch !in IntToString(i) && ch !in NatToString(n)
  {
    PrintFloat1Chars(x);
    var m := if i < 0 then -i else i;
    assert AllDigits(NatToString(m)) && AllDigits(NatToString(n));
  }

  /** An object whose keys and values hold no `=` (or no `\n`) holds none. */
  lemma {:induction false} OpenedAvoids(fields: seq<(string, string)>, ch: char)
    requires |fields| >= 1 && Splitting(ch)
    requires forall i :: 0 <= i < |fields| ==> ch !in fields[i].0 && ch !in fields[i].1
    ensures ch !in Bad.Opened(fields)
    decreases |fields|
  {
    var m := Bad.Member(fields[|fields| - 1]);
    assert ch !in m;
    if |fields| > 1 {
      OpenedAvoids(fields[..|fields| - 1], ch);
    }
  }

  /** The members of the telemetry object hold no `=` (or no `\n`) when the values hold
      none. */
  lemma RecordAvoids(t: string, sp: string, limMin: string, limMax: string, limCrit: string,
                     state: string, heater: string, fan: string, alarm: string, eStop: string,
                     dtEstopUs: string, loopUs: string, tsMs: string, ch: char)
    requires Splitting(ch)
    requires ch !in t && ch !in sp && ch !in limMin && ch !in limMax && ch !in limCrit
    requires ch !in state && ch !in heater && ch !in fan && ch !in alarm && ch !in eStop
    requires ch !in dtEstopUs && ch !in loopUs && ch !in tsMs
    ensures var fields := Bad.Record(t, sp, limMin, limMax, limCrit, state, heater, fan, alarm,
                                     eStop, dtEstopUs, loopUs, tsMs);
      forall i :: 0 <= i < |fields| ==> ch !in fields[i].0 && ch !in fields[i].1
  {
    QuotedAvoids("BAD", ch);
    QuotedAvoids(state, ch);
    QuotedAvoids(alarm, ch);
  }

  lemma QuotedAvoids(s: string, ch: char)
    requires Splitting(ch) && ch !in s
    ensures ch !in Bad.Quoted(s)
  {
  }

  /** The GET reply, a JSON object, holds no `=` (or no `\n`) when the state and alarm
      texts hold none, as every state and alarm the firmware sets. */
  lemma TelemetryAvoids(c: Bad.Controller, nowMs: nat, ch: char)
    requires Splitting(ch) && ch !in c.lastState && ch !in c.lastAlarm
    ensures ch !in Bad.TelemetryLine(c, nowMs)
  {
    NumberTextAvoids(c.t, c.pwmHeater, c.dtEstopUs, ch);
    NumberTextAvoids(c.setp, c.pwmFan, c.loopUs, ch);
    NumberTextAvoids(c.lmin, 0, nowMs, ch);
    NumberTextAvoids(c.lmax, 0, 0, ch);
    NumberTextAvoids(c.lcrit, 0, 0, ch);
    assert ch !in Bad.BoolText(c.eStop);
    RecordAvoids(PrintFloat1(c.t), PrintFloat1(c.setp), PrintFloat1(c.lmin),
                 PrintFloat1(c.lmax), PrintFloat1(c.lcrit), c.lastState,
                 IntToString(c.pwmHeater), IntToString(c.pwmFan), c.lastAlarm,
                 Bad.BoolText(c.eStop), NatToString(c.dtEstopUs), NatToString(c.loopUs),
                 NatToString(nowMs), ch);
    OpenedAvoids(Bad.Fields(c, nowMs), ch);
  }

  /** So the GET reply, too, gives the back end a record of defaults: the back end
      reads `KEY=value;` pairs and the bad firmware prints JSON. Printed, it is one line
      when the state and alarm texts hold no `\n`. */
  lemma BadTelemetryRead(last: Option<Backend.SerialTelemetry>, c: Bad.Controller,
                         nowMs: nat, now: int)
    requires '=' !in c.lastState && '=' !in c.lastAlarm
    ensures Backend.Received(last, [Bad.TelemetryLine(c, nowMs)], now) ==
            Some(Backend.Defaults(now))
    ensures '\n' !in c.lastState && '\n' !in c.lastAlarm ==>
      Backend.Received(last, Backend.Lines(Bad.TelemetryLine(c, nowMs) + "\r\n"), now) ==
      Some(Backend.Defaults(now))
  {
    TelemetryAvoids(c, nowMs, '=');
    var line := Bad.TelemetryLine(c, nowMs);
    Bad.OpenedBrace(Bad.Fields(c, nowMs));
    assert line[0] == '{';
    NoPairsLine(last, line, now);
    if '\n' !in c.lastState && '\n' !in c.lastAlarm {
      TelemetryAvoids(c, nowMs, '\n');
      PrintedNoPairs(last, line, now);
    }
  }

  /** The line a pass of the good firmware prints is plain. */
  lemma GoodLinePlain(g: Good.Globals)
    ensures PlainLine(Good.PassLine(g))
  {
    Good.PassLineNoFields(g);
    PlainByFirst(Good.PassLine(g));
  }

  lemma PlainByFirst(line: string)
    requires '=' !in line && '\n' !in line && |line| > 0 && (line[0] == '>' || line[0] == 'T')
    ensures PlainLine(line)
  {
  }

  /** The good firmware's lines give the back end a record of defaults too: each is the
      simulation's messages and the status, text for a person with no `KEY=value` pair. */
  lemma GoodStatusRead(last: Option<Backend.SerialTelemetry>, g: Good.Globals, now: int)
    ensures var line := Good.PassLine(g);
      && Backend.Received(last, [line], now) == Some(Backend.Defaults(now))
      && Backend.Received(last, Backend.Lines(line + "\r\n"), now) == Some(Backend.Defaults(now))
  {
    GoodLinePlain(g);
    PlainLineRead(last, Good.PassLine(g), now);
  }
}
