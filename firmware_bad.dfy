/**
 * The "bad" furnace firmware: a serial command interpreter over a fixed
 * 96-character input buffer, PWM outputs for heater and fan, an emergency-stop
 * latch set by an interrupt, an alarm classifier and a one-line JSON
 * telemetry record.
 *
 * The controller's globals are a value (`Controller`); the handlers are pure
 * functions on it, and the class `BadFirmware` holds the same globals in
 * fields, with the input buffer as an array of 96 characters. A serial
 * `println` is one element of the sequence of lines sent.
 */
module FornoLabBad {
  import opened Wrappers
  import opened Text
  import opened Numbers

  /** `sizeof(ibuf)`. */
  const BufferSize: nat := 96
  /** `sizeof(ibuf) - 1`: the most characters the buffer stores. */
  const MaxStored: nat := 95
  const PwmMax: int := 255
  /** Arithmetic on `unsigned long` (32 bits) wraps modulo this. */
  const Wrap: nat := 0x1_0000_0000

  const Ack: string := "ACK;"
  const Err: string := "ERR;"

  datatype Controller = Controller(
    running: bool,
    t: real,
    setp: real,
    lmin: real,
    lmax: real,
    lcrit: real,
    pwmHeater: int,
    pwmFan: int,
    dtEstopUs: nat,
    loopUs: nat,
    lastState: string,
    lastAlarm: string,
    eStop: bool,
    tEstopUs: nat)

  /** The globals' initialisers (`setup` then switches the outputs off, which they are). */
  const Initial: Controller :=
    Controller(false, 180.0, 180.0, 120.0, 220.0, 240.0, 0, 0, 0, 0, "IDLE", "NONE", false, 0)

  // ---------------------------------------------------------------- outputs

  /** Arduino's `constrain(v, lo, hi)`. */
  function Constrain(v: int, lo: int, hi: int): (r: int)
    requires lo <= hi
    ensures lo <= r <= hi
    ensures lo <= v <= hi ==> r == v
    ensures v < lo ==> r == lo
    ensures v > hi ==> r == hi
  {
    if v < lo then lo else if v > hi then hi else v
  }

  /** `applyOutputs(h, f)`: both duty cycles clamped into [0, 255]. */
  function WithOutputs(c: Controller, h: int, f: int): Controller {
    c.(pwmHeater := Constrain(h, 0, PwmMax), pwmFan := Constrain(f, 0, PwmMax))
  }

  /** `allOff()`. */
  function OutputsOff(c: Controller): Controller {
    WithOutputs(c, 0, 0)
  }

  // ---------------------------------------------------------------- telemetry

  function Quoted(s: string): string {
    "\"" + s + "\""
  }

  function BoolText(b: bool): string {
    if b then "true" else "false"
  }

  /** The telemetry record from the rendered values: its keys, in the order they are
      sent, each with its value's JSON text. */
  function Record(t: string, sp: string, limMin: string, limMax: string, limCrit: string,
                  state: string, heater: string, fan: string, alarm: string, eStop: string,
                  dtEstopUs: string, loopUs: string, tsMs: string): seq<(string, string)> {
    [("t", t), ("sp", sp), ("limMin", limMin), ("limMax", limMax), ("limCrit", limCrit),
     ("mode", Quoted("BAD")), ("state", Quoted(state)), ("heater", heater), ("fan", fan),
     ("alarm", Quoted(alarm)), ("eStop", eStop), ("dtEstopUs", dtEstopUs), ("loopUs", loopUs),
     ("tsMs", tsMs)]
  }

  /** The record of the globals: floats with one decimal, integers in decimal,
      `millis()` being `nowMs`. */
  function Fields(c: Controller, nowMs: nat): seq<(string, string)> {
    Record(PrintFloat1(c.t), PrintFloat1(c.setp), PrintFloat1(c.lmin), PrintFloat1(c.lmax),
           PrintFloat1(c.lcrit), c.lastState, IntToString(c.pwmHeater), IntToString(c.pwmFan),
           c.lastAlarm, BoolText(c.eStop), NatToString(c.dtEstopUs), NatToString(c.loopUs),
           NatToString(nowMs))
  }

  const TelemetryKeys: seq<string> :=
    ["t", "sp", "limMin", "limMax", "limCrit", "mode", "state", "heater", "fan", "alarm", "eStop",
     "dtEstopUs", "loopUs", "tsMs"]

  /** One `"key":value` member of a JSON object. */
  function Member(field: (string, string)): string {
    Quoted(field.0) + ":" + field.1
  }

  /** The text before a member's value when it follows another member. */
  function KeyText(key: string): string {
    "," + Quoted(key) + ":"
  }

  /** An object's text up to its closing brace: the members separated by commas. */
  function Opened(fields: seq<(string, string)>): string
    requires |fields| >= 1
  {
    if |fields| == 1 then "{" + Member(fields[0])
    else Opened(fields[..|fields| - 1]) + "," + Member(fields[|fields| - 1])
  }

  /** The line `sendTelemetry` prints: a JSON object, `millis()` being `nowMs`. */
  function TelemetryLine(c: Controller, nowMs: nat): string {
    Opened(Fields(c, nowMs)) + "}"
  }

  // ---------------------------------------------------------------- commands

  /** The C string held in `a`: everything before the first NUL. */
  function CStr(a: seq<char>): string {
    if '\0' in a then a[..IndexOf(a, '\0')] else a
  }

  /** The buffer after `handleCommand` overwrites one trailing `;` with NUL. */
  function Stripped(p: seq<char>): seq<char> {
    if |p| > 0 && p[|p| - 1] == ';' then p[..|p| - 1] + ['\0'] else p
  }

  /** The command text `handleCommand` sees when the buffer holds `p`. */
  function CommandText(p: seq<char>): string {
    CStr(Stripped(p))
  }

  /** The commands `handleCommand` tells apart, with what it reads after the `=`:
      the setpoint `atof` gives, the three limits or the two duty cycles when
      `sscanf` finds them all. */
  datatype Command =
    | Start
    | Stop
    | ResetEstop
    | SetSetpoint(value: real)
    | SetLimits(limits: Option<(real, real, real)>)
    | Manual(duty: Option<(int, int)>)
    | Get
    | Unknown

  /** The names `handleCommand` tests for, in the order it tests them. */
  const CommandNames: seq<string> := ["START", "STOP", "RST_ESTOP", "SET_SP=", "SET_LIMS=", "MAN=", "GET"]

  /** The command a text holds: the first name, in the order tested, that starts it. */
  function Parse(text: string): Command {
    if "START" <= text then Start
    else if "STOP" <= text then Stop
    else if "RST_ESTOP" <= text then ResetEstop
    else if "SET_SP=" <= text then SetSetpoint(Atof(text[7..]))
    else if "SET_LIMS=" <= text then SetLimits(ScanFloatTriple(text[9..]))
    else if "MAN=" <= text then Manual(ScanIntPair(text[4..]))
    else if "GET" <= text then Get
    else Unknown
  }

  /** What a command does: the new globals and the line sent back. */
  function Apply(c: Controller, cmd: Command, nowMs: nat): (Controller, string) {
    match cmd
    case Start => (c.(running := true), Ack)
    case Stop => (OutputsOff(c.(running := false)), Ack)
    case ResetEstop => (c.(eStop := false, dtEstopUs := 0), Ack)
    case SetSetpoint(v) => (c.(setp := v), Ack)
    case SetLimits(limits) =>
      (match limits
       case Some((a, b, d)) => (c.(lmin := a, lmax := b, lcrit := d), Ack)
       case None => (c, Err))
    case Manual(duty) =>
      (match duty
       case Some((h, f)) => (WithOutputs(c, h, f), Ack)
       case None => (c, Err))
    case Get => (c, TelemetryLine(c, nowMs))
    case Unknown => (c, Err)
  }

  /** `handleCommand` on the command text. */
  function Handle(c: Controller, text: string, nowMs: nat): (Controller, string) {
    Apply(c, Parse(text), nowMs)
  }

  // ---------------------------------------------------------------- the loop

  /** The globals, the characters held in the buffer and the lines sent. */
  datatype Serial = Serial(c: Controller, pending: seq<char>, sent: seq<string>)

  /** One character read by `loop()`: stored while there is room; a `;` then runs
      the command and empties the buffer. */
  function Receive(r: Serial, ch: char, nowMs: nat): Serial {
    var p := Stored(r.pending, ch);
    if ch == ';' then
      var (c, reply) := Handle(r.c, CommandText(p), nowMs);
      Serial(c, [], r.sent + [reply])
    else Serial(r.c, p, r.sent)
  }

  /** The buffer after `ch` is read: stored while there is room for it. */
  function Stored(pending: seq<char>, ch: char): seq<char> {
    if |pending| < MaxStored then pending + [ch] else pending
  }

  /** The characters of `input` read one after the other. */
  function Feed(r: Serial, input: string, nowMs: nat): Serial {
    if input == [] then r
    else Receive(Feed(r, input[..|input| - 1], nowMs), input[|input| - 1], nowMs)
  }

  /** The alarm class of temperature `t`: the first of CRIT, HIGH, LOW that applies, else NONE. */
  function ClassifyAlarm(t: real, lmin: real, lmax: real, lcrit: real): string {
    if t >= lcrit then "CRIT"
    else if t > lmax then "HIGH"
    else if t < lmin then "LOW"
    else "NONE"
  }

  /** The e-stop block of `loop()`, `stopUs` being `micros()` there. */
  function EStopBlock(c: Controller, stopUs: nat): Controller {
    if c.eStop
    then OutputsOff(c).(dtEstopUs := (stopUs - c.tEstopUs) % Wrap, lastState := "E_STOP")
    else c
  }

  /** One `loop()` pass: the input, the e-stop block, the plant (whose new temperature
      `plantT` is an input), the alarm classification and the loop time, `t0Us` and
      `endUs` being `micros()` at the start and at the end. */
  function LoopPass(r: Serial, input: string, t0Us: nat, stopUs: nat, plantT: real, endUs: nat,
                    nowMs: nat): Serial {
    var f := Feed(r, input, nowMs);
    Serial(Monitor(EStopBlock(f.c, stopUs), plantT, t0Us, endUs), f.pending, f.sent)
  }

  /** The end of `loop()`: the new temperature, its alarm and the loop time. */
  function Monitor(c: Controller, plantT: real, t0Us: nat, endUs: nat): Controller {
    c.(t := plantT, lastAlarm := ClassifyAlarm(plantT, c.lmin, c.lmax, c.lcrit),
       loopUs := (endUs - t0Us) % Wrap)
  }

  /** `Serial.print` of the text of one more member, after the object text so far. */
  method Print(line: string, ghost fields: seq<(string, string)>, ghost key: string,
               ghost value: string, text: string)
    returns (line': string, ghost fields': seq<(string, string)>)
    requires |fields| >= 1 && line == Opened(fields) && text == KeyText(key) + value
    ensures fields' == fields + [(key, value)] && line' == Opened(fields')
  {
    OpenedAppend(fields, key, value);
    AppendAssoc(line, KeyText(key), value);
    line', fields' := line + text, fields + [(key, value)];
  }

  /** The print sequence of `sendTelemetry`, the values already rendered: the line
      is the JSON object of the record. */
  method PrintRecord(t: string, sp: string, limMin: string, limMax: string, limCrit: string,
                     state: string, heater: string, fan: string, alarm: string, eStop: string,
                     dtEstopUs: string, loopUs: string, tsMs: string)
    returns (line: string)
    ensures line == Opened(Record(t, sp, limMin, limMax, limCrit, state, heater, fan, alarm, eStop,
                                  dtEstopUs, loopUs, tsMs)) + "}"
  {
    ghost var f := [("t", t)];
    OpenedFirst("t", t);
    LimitKeyTexts();
    StateKeyTexts();
    AlarmKeyTexts();
    line := "{\"t\":" + t;
    line, f := Print(line, f, "sp", sp, ",\"sp\":" + sp);
    line, f := Print(line, f, "limMin", limMin, ",\"limMin\":" + limMin);
    line, f := Print(line, f, "limMax", limMax, ",\"limMax\":" + limMax);
    line, f := Print(line, f, "limCrit", limCrit, ",\"limCrit\":" + limCrit);
    line, f := Print(line, f, "mode", Quoted("BAD"), ",\"mode\":\"BAD\"");
    QuotedText("state", state);
    line, f := Print(line, f, "state", Quoted(state), ",\"state\":\"" + state + "\"");
    line, f := Print(line, f, "heater", heater, ",\"heater\":" + heater);
    line, f := Print(line, f, "fan", fan, ",\"fan\":" + fan);
    QuotedText("alarm", alarm);
    line, f := Print(line, f, "alarm", Quoted(alarm), ",\"alarm\":\"" + alarm + "\"");
    line, f := Print(line, f, "eStop", eStop, ",\"eStop\":" + eStop);
    line, f := Print(line, f, "dtEstopUs", dtEstopUs, ",\"dtEstopUs\":" + dtEstopUs);
    line, f := Print(line, f, "loopUs", loopUs, ",\"loopUs\":" + loopUs);
    line, f := Print(line, f, "tsMs", tsMs, ",\"tsMs\":" + tsMs);
    assert f == Record(t, sp, limMin, limMax, limCrit, state, heater, fan, alarm, eStop, dtEstopUs,
                       loopUs, tsMs);
    line := line + "}";
  }

  // ---------------------------------------------------------------- the firmware

  class BadFirmware {
    var running: bool
    var t: real
    var setp: real
    var lmin: real
    var lmax: real
    var lcrit: real
    var pwmHeater: int
    var pwmFan: int
    var dtEstopUs: nat
    var loopUs: nat
    var lastState: string
    var lastAlarm: string
    var vEStop: bool
    var vTEstopUs: nat
    const ibuf: array<char>
    var ilen: nat
    /** The lines printed so far, oldest first. */
    var tx: seq<string>

    predicate Valid()
      reads this`ilen
    {
      ibuf.Length == BufferSize && ilen <= MaxStored
    }

    function Model(): Controller
      reads this`running, this`t, this`setp, this`lmin, this`lmax, this`lcrit, this`pwmHeater
      reads this`pwmFan, this`dtEstopUs, this`loopUs, this`lastState, this`lastAlarm, this`vEStop
      reads this`vTEstopUs
    {
      Controller(running, t, setp, lmin, lmax, lcrit, pwmHeater, pwmFan, dtEstopUs, loopUs,
                 lastState, lastAlarm, vEStop, vTEstopUs)
    }

    function State(): Serial
      requires Valid()
      reads this, ibuf
    {
      Serial(Model(), ibuf[..ilen], tx)
    }

    /** The globals' initialisers followed by `setup()`, which switches the outputs off
        and prints `ACK;`. */
    constructor ()
      ensures Valid() && State() == Serial(Initial, [], [Ack])
    {
      running := false;
      t, setp, lmin, lmax, lcrit := 180.0, 180.0, 120.0, 220.0, 240.0;
      pwmHeater, pwmFan := 0, 0;
      dtEstopUs, loopUs := 0, 0;
      lastState, lastAlarm := "IDLE", "NONE";
      vEStop, vTEstopUs := false, 0;
      ibuf := new char[BufferSize](_ => '\0');
      ilen := 0;
      tx := [Ack];
    }

    /** `isrEstop`, run between passes: latches the e-stop and `micros()`. */
    method IsrEstop(nowUs: nat)
      modifies this`vEStop, this`vTEstopUs
      ensures Model() == old(Model()).(eStop := true, tEstopUs := nowUs)
    {
      vEStop := true;
      vTEstopUs := nowUs;
    }

    method ApplyOutputs(h: int, f: int)
      modifies this`pwmHeater, this`pwmFan
      ensures Model() == WithOutputs(old(Model()), h, f)
    {
      pwmHeater := Constrain(h, 0, PwmMax);
      pwmFan := Constrain(f, 0, PwmMax);
    }

    method AllOff()
      modifies this`pwmHeater, this`pwmFan
      ensures Model() == OutputsOff(old(Model()))
    {
      ApplyOutputs(0, 0);
    }

    method ResetInput()
      requires Valid()
      modifies this`ilen, ibuf
      ensures Valid() && ilen == 0 && ibuf[0] == '\0'
    {
      ilen := 0;
      ibuf[0] := '\0';
    }

    /** `sw(s)`: `strncmp(ibuf, s, strlen(s)) == 0`. */
    method Sw(s: string, ghost text: string) returns (b: bool)
      requires Valid() && '\0' !in s && |s| <= BufferSize && text == CStr(ibuf[..])
      ensures b == (s <= text)
    {
      var i := 0;
      while i < |s|
        invariant 0 <= i <= |s|
        invariant ibuf[..i] == s[..i]
      {
        if ibuf[i] != s[i] {
          CStrMismatch(ibuf[..], s, i);
          return false;
        }
        assert ibuf[..i + 1] == ibuf[..i] + [ibuf[i]];
        assert s[..i + 1] == s[..i] + [s[i]];
        i := i + 1;
      }
      assert ibuf[..][..|s|] == s;
      CStrMatch(ibuf[..], s);
      return true;
    }

    /** `sendTelemetry()`. */
    method SendTelemetry(nowMs: nat)
      modifies this`tx
      ensures tx == old(tx) + [TelemetryLine(Model(), nowMs)]
    {
      var line := PrintRecord(PrintFloat1(t), PrintFloat1(setp), PrintFloat1(lmin),
                              PrintFloat1(lmax), PrintFloat1(lcrit), lastState,
                              IntToString(pwmHeater), IntToString(pwmFan), lastAlarm,
                              if vEStop then "true" else "false", NatToString(dtEstopUs),
                              NatToString(loopUs), NatToString(nowMs));
      tx := tx + [line];
    }

    /** The first statement of `handleCommand()`: a trailing `;` becomes the terminator.
        The C string in the buffer is then the command text. */
    method StripTerminator()
      requires Valid() && ibuf[ilen] == '\0'
      modifies ibuf
      ensures '\0' in ibuf[..] && CStr(ibuf[..]) == CommandText(old(ibuf[..ilen]))
    {
      ghost var p := ibuf[..ilen];
      if ilen > 0 && ibuf[ilen - 1] == ';' {
        ibuf[ilen - 1] := '\0';
      }
      assert ibuf[..ilen] == Stripped(p);
      assert ibuf[..][ilen] == '\0';
      CStrCut(ibuf[..], ilen);
      assert ibuf[..][..ilen] == ibuf[..ilen];
    }

    /** The C string `ibuf + k`: the command text from its `k`-th character on. */
    method Argument(k: nat, ghost text: string) returns (arg: string)
      requires Valid() && text == CStr(ibuf[..]) && k <= |text|
      ensures arg == text[k..]
    {
      CStrFrom(ibuf[..], k);
      assert ibuf[..][k..] == ibuf[k..];
      arg := CStr(ibuf[k..]);
    }

    /** The `sw` tests of `handleCommand`, in their order: which command the
        buffer holds, with the C string after its `=` where it takes one. */
    method Recognize(ghost text: string) returns (cmd: Command)
      requires Valid() && text == CStr(ibuf[..])
      ensures cmd == Parse(text)
    {
      NamesWithoutNul();
      var b := Sw("START", text);
      if b {
        ParseStart(text);
        return Start;
      }
      b := Sw("STOP", text);
      if b {
        ParseStop(text);
        return Stop;
      }
      b := Sw("RST_ESTOP", text);
      if b {
        ParseResetEstop(text);
        return ResetEstop;
      }
      b := Sw("SET_SP=", text);
      if b {
        ParseSetpoint(text);
        var arg := Argument(7, text);
        return SetSetpoint(Atof(arg));
      }
      b := Sw("SET_LIMS=", text);
      if b {
        ParseSetLimits(text);
        var arg := Argument(9, text);
        return SetLimits(ScanFloatTriple(arg));
      }
      b := Sw("MAN=", text);
      if b {
        ParseManual(text);
        var arg := Argument(4, text);
        return Manual(ScanIntPair(arg));
      }
      b := Sw("GET", text);
      if b {
        ParseGet(text);
        return Get;
      }
      ParseUnknown(text);
      return Unknown;
    }

    /** The branches of `handleCommand`: what each command does to the globals and
        the line it prints. */
    method Run(cmd: Command, nowMs: nat)
      modifies this`running, this`pwmHeater, this`pwmFan, this`vEStop, this`dtEstopUs
      modifies this`setp, this`lmin, this`lmax, this`lcrit, this`tx
      ensures Model() == Apply(old(Model()), cmd, nowMs).0
      ensures tx == old(tx) + [Apply(old(Model()), cmd, nowMs).1]
    {
      if cmd.SetSetpoint? || cmd.SetLimits? || cmd.Manual? {
        RunScanned(cmd);
      } else {
        RunPlain(cmd, nowMs);
      }
    }

    /** The branches of `handleCommand` that read nothing after the name. */
    method RunPlain(cmd: Command, nowMs: nat)
      requires !cmd.SetSetpoint? && !cmd.SetLimits? && !cmd.Manual?
      modifies this`running, this`pwmHeater, this`pwmFan, this`vEStop, this`dtEstopUs, this`tx
      ensures Model() == Apply(old(Model()), cmd, nowMs).0
      ensures tx == old(tx) + [Apply(old(Model()), cmd, nowMs).1]
    {
      match cmd
      case Start =>
        running := true;
        tx := tx + [Ack];
      case Stop =>
        running := false;
        AllOff();
        tx := tx + [Ack];
      case ResetEstop =>
        vEStop := false;
        dtEstopUs := 0;
        tx := tx + [Ack];
      case Get =>
        SendTelemetry(nowMs);
      case Unknown =>
        tx := tx + [Err];
    }

    /** The branches of `handleCommand` that read numbers after the `=`. */
    method RunScanned(cmd: Command)
      requires cmd.SetSetpoint? || cmd.SetLimits? || cmd.Manual?
      modifies this`pwmHeater, this`pwmFan, this`setp, this`lmin, this`lmax, this`lcrit, this`tx
      ensures Model() == Apply(old(Model()), cmd, 0).0
      ensures tx == old(tx) + [Apply(old(Model()), cmd, 0).1]
    {
      ghost var c := Model();
      match cmd
      case SetSetpoint(v) =>
        setp := v;
        tx := tx + [Ack];
      case SetLimits(limits) =>
        match limits {
          case Some((a, b, d)) =>
            assert Apply(c, cmd, 0) == (c.(lmin := a, lmax := b, lcrit := d), Ack);
            lmin, lmax, lcrit := a, b, d;
            tx := tx + [Ack];
          case None =>
            assert Apply(c, cmd, 0) == (c, Err);
            tx := tx + [Err];
        }
      case Manual(duty) =>
        match duty {
          case Some((h, f)) =>
            ApplyOutputs(h, f);
            tx := tx + [Ack];
          case None =>
            tx := tx + [Err];
        }
    }

    /** `handleCommand()`, called with the buffer's text NUL-terminated at `ilen`: the
        tests change nothing, so recognising the command first and then running it
        does what the chain of tests with its branches does. */
    method HandleCommand(nowMs: nat)
      requires Valid() && ibuf[ilen] == '\0'
      modifies this, ibuf
      ensures Valid() && ilen == old(ilen)
      ensures Model() == Handle(old(Model()), CommandText(old(ibuf[..ilen])), nowMs).0
      ensures tx == old(tx) + [Handle(old(Model()), CommandText(old(ibuf[..ilen])), nowMs).1]
    {
      StripTerminator();
      ghost var text := CStr(ibuf[..]);
      var cmd := Recognize(text);
      Run(cmd, nowMs);
    }

    /** The body of the `while (Serial.available())` loop for one character `ch`. */
    method ReadChar(ch: char, nowMs: nat)
      requires Valid()
      modifies this, ibuf
      ensures Valid() && State() == Receive(old(State()), ch, nowMs)
    {
      ghost var before := State();
      if ilen < MaxStored {
        ibuf[ilen] := ch;
        ilen := ilen + 1;
      }
      assert ibuf[..ilen] == Stored(before.pending, ch);
      if ch == ';' {
        ibuf[ilen] := '\0';
        HandleCommand(nowMs);
        ResetInput();
      }
    }

    /** One `loop()` pass over the characters `input` that are available; the 50 ms
        delay is not modelled. */
    method Loop(input: string, t0Us: nat, stopUs: nat, plantT: real, endUs: nat, nowMs: nat)
      requires Valid()
      modifies this, ibuf
      ensures Valid()
      ensures State() == LoopPass(old(State()), input, t0Us, stopUs, plantT, endUs, nowMs)
    {
      ReadInput(input, nowMs);
      ServiceEstop(stopUs);
      UpdateMonitor(plantT, t0Us, endUs);
    }

    /** The `while (Serial.available())` loop of `loop()`. */
    method ReadInput(input: string, nowMs: nat)
      requires Valid()
      modifies this, ibuf
      ensures Valid()
      ensures State() == Feed(old(State()), input, nowMs)
    {
      ghost var r0 := State();
      var i := 0;
      while i < |input|
        invariant Valid() && 0 <= i <= |input|
        invariant State() == Feed(r0, input[..i], nowMs)
      {
        ReadChar(input[i], nowMs);
        assert input[..i + 1][..i] == input[..i];
        i := i + 1;
      }
      assert input[..|input|] == input;
    }

    /** The e-stop block of `loop()`. */
    method ServiceEstop(stopUs: nat)
      modifies this`pwmHeater, this`pwmFan, this`dtEstopUs, this`lastState
      ensures Model() == EStopBlock(old(Model()), stopUs)
    {
      if vEStop {
        AllOff();
        dtEstopUs := (stopUs - vTEstopUs) % Wrap;
        lastState := "E_STOP";
      }
    }

    /** The plant step, the alarm chain and the loop time of `loop()`. */
    method UpdateMonitor(plantT: real, t0Us: nat, endUs: nat)
      modifies this`t, this`lastAlarm, this`loopUs
      ensures Model() == Monitor(old(Model()), plantT, t0Us, endUs)
    {
      t := plantT;
      if t >= lcrit {
        lastAlarm := "CRIT";
      } else if t > lmax {
        lastAlarm := "HIGH";
      } else if t < lmin {
        lastAlarm := "LOW";
      } else {
        lastAlarm := "NONE";
      }
      loopUs := (endUs - t0Us) % Wrap;
    }
  }

  // ---------------------------------------------------------------- C strings

  /** The C string is a prefix of the storage that holds it. */
  lemma CStrPrefix(a: seq<char>)
    ensures CStr(a) <= a && '\0' !in CStr(a)
  {
  }

  /** A NUL at position `n` ends the C string there or earlier. */
  lemma CStrCut(a: seq<char>, n: nat)
    requires n < |a| && a[n] == '\0'
    ensures CStr(a) == CStr(a[..n])
  {
    var k := IndexOf(a, '\0');
    if k < n {
      assert a[..n][k] == '\0';
      assert a[..n][..k] == a[..k];
      IndexOfAt(a[..n], '\0', k);
    } else {
      assert k == n;
      assert a[..k] == a[..n];
    }
  }

  /** The C string starting `k` characters in is the rest of the C string. */
  lemma CStrFrom(a: seq<char>, k: nat)
    requires k <= |CStr(a)|
    ensures CStr(a[k..]) == CStr(a)[k..]
  {
    if '\0' in a {
      var j := IndexOf(a, '\0');
      assert a[k..][j - k] == '\0';
      assert a[k..][..j - k] == a[k..j];
      assert '\0' !in a[k..j] by {
        assert forall i :: k <= i < j ==> a[i] == a[..j][i];
      }
      IndexOfAt(a[k..], '\0', j - k);
    } else {
      assert '\0' !in a[k..] by {
        assert forall i :: 0 <= i < |a| - k ==> a[k..][i] == a[k + i];
      }
    }
  }

  /** `strncmp` up to the end of `s` finds all of `s` at the front: `s` starts the C string. */
  lemma CStrMatch(a: seq<char>, s: string)
    requires |s| <= |a| && a[..|s|] == s && '\0' !in s
    ensures s <= CStr(a)
  {
    if '\0' in a {
      var k := IndexOf(a, '\0');
      assert a[..k][..|s|] == s;
    }
  }

  /** `strncmp` finds a difference before the end of `s`: `s` does not start the C string. */
  lemma CStrMismatch(a: seq<char>, s: string, i: nat)
    requires i < |s| && i < |a| && a[..i] == s[..i] && a[i] != s[i] && '\0' !in s
    ensures !(s <= CStr(a))
  {
    CStrPrefix(a);
  }

  // ---------------------------------------------------------------- properties

  /** No command name holds a NUL, so `strncmp` compares all of it. */
  lemma NamesWithoutNul()
    ensures '\0' !in "START" && '\0' !in "STOP" && '\0' !in "RST_ESTOP" && '\0' !in "SET_SP="
    ensures '\0' !in "SET_LIMS=" && '\0' !in "MAN=" && '\0' !in "GET"
  {
  }

  /** Each command is recognised exactly when its name starts the text, whatever the
      order of the tests: no text starts with two of the names. */
  lemma ParseStart(text: string)
    ensures Parse(text) == Start <==> "START" <= text
  {
  }

  lemma ParseStop(text: string)
    ensures Parse(text) == Stop <==> "STOP" <= text
  {
    if "STOP" <= text {
      assert text[2] == 'O';
    }
  }

  lemma ParseResetEstop(text: string)
    ensures Parse(text) == ResetEstop <==> "RST_ESTOP" <= text
  {
    if "RST_ESTOP" <= text {
      assert text[0] == 'R';
    }
  }

  lemma ParseSetpoint(text: string)
    ensures Parse(text).SetSetpoint? <==> "SET_SP=" <= text
    ensures "SET_SP=" <= text ==> Parse(text) == SetSetpoint(Atof(text[7..]))
  {
    if "SET_SP=" <= text {
      assert text[1] == 'E';
    }
  }

  lemma ParseSetLimits(text: string)
    ensures Parse(text).SetLimits? <==> "SET_LIMS=" <= text
    ensures "SET_LIMS=" <= text ==> Parse(text) == SetLimits(ScanFloatTriple(text[9..]))
  {
    if "SET_LIMS=" <= text {
      assert text[1] == 'E' && text[4] == 'L';
      assert !("START" <= text) && !("STOP" <= text) && !("RST_ESTOP" <= text) && !("SET_SP=" <= text);
    }
  }

  lemma ParseManual(text: string)
    ensures Parse(text).Manual? <==> "MAN=" <= text
    ensures "MAN=" <= text ==> Parse(text) == Manual(ScanIntPair(text[4..]))
  {
    if "MAN=" <= text {
      assert text[0] == 'M';
    }
  }

  lemma ParseGet(text: string)
    ensures Parse(text) == Get <==> "GET" <= text
  {
    if "GET" <= text {
      assert text[0] == 'G';
    }
  }

  /** A text is refused exactly when none of the command names starts it. */
  lemma ParseUnknown(text: string)
    ensures Parse(text) == Unknown <==>
      !("START" <= text) && !("STOP" <= text) && !("RST_ESTOP" <= text) &&
      !("SET_SP=" <= text) && !("SET_LIMS=" <= text) && !("MAN=" <= text) && !("GET" <= text)
  {
    ParseStart(text);
    ParseStop(text);
    ParseResetEstop(text);
    ParseSetpoint(text);
    ParseSetLimits(text);
    ParseManual(text);
    ParseGet(text);
  }

  /** The outputs are always clamped into [0, 255], unchanged when in range, and
      nothing else changes; `allOff` leaves both at 0. */
  lemma OutputsClamped(c: Controller, h: int, f: int)
    ensures var r := WithOutputs(c, h, f);
      && 0 <= r.pwmHeater <= PwmMax && 0 <= r.pwmFan <= PwmMax
      && (0 <= h <= PwmMax ==> r.pwmHeater == h) && (0 <= f <= PwmMax ==> r.pwmFan == f)
      && r.(pwmHeater := c.pwmHeater, pwmFan := c.pwmFan) == c
    ensures OutputsOff(c).pwmHeater == 0 && OutputsOff(c).pwmFan == 0
  {
  }

  lemma AppendAssoc(a: string, b: string, c: string)
    ensures a + (b + c) == a + b + c
  {
  }

  /** An object's first member. */
  lemma OpenedFirst(key: string, value: string)
    ensures Opened([(key, value)]) == "{" + Quoted(key) + ":" + value
  {
    AppendAssoc("{", Quoted(key) + ":", value);
    AppendAssoc("{", Quoted(key), ":");
  }

  /** Appending a field to a record appends its key text and its value. */
  lemma OpenedAppend(fields: seq<(string, string)>, key: string, value: string)
    requires |fields| >= 1
    ensures Opened(fields + [(key, value)]) == Opened(fields) + KeyText(key) + value
  {
    assert (fields + [(key, value)])[..|fields|] == fields;
    var o := Opened(fields);
    var k := Quoted(key) + ":";
    AppendAssoc(",", Quoted(key), ":");
    AppendAssoc(o + ",", k, value);
    AppendAssoc(o, ",", k);
  }

  /** The literal text `sendTelemetry` prints before each value: the limits, ... */
  lemma LimitKeyTexts()
    ensures KeyText("sp") == ",\"sp\":" && KeyText("limMin") == ",\"limMin\":"
    ensures KeyText("limMax") == ",\"limMax\":" && KeyText("limCrit") == ",\"limCrit\":"
  {
  }

  /** ... the mode, the state and the outputs, ... */
  lemma StateKeyTexts()
    ensures KeyText("mode") + Quoted("BAD") == ",\"mode\":\"BAD\""
    ensures KeyText("state") + "\"" == ",\"state\":\"" && KeyText("heater") == ",\"heater\":"
    ensures KeyText("fan") == ",\"fan\":"
  {
  }

  /** ... the alarm, the e-stop and the times. */
  lemma AlarmKeyTexts()
    ensures KeyText("alarm") + "\"" == ",\"alarm\":\"" && KeyText("eStop") == ",\"eStop\":"
    ensures KeyText("dtEstopUs") == ",\"dtEstopUs\":" && KeyText("loopUs") == ",\"loopUs\":"
    ensures KeyText("tsMs") == ",\"tsMs\":"
  {
  }

  /** A quoted value printed as the key text with its opening quote, the value
      and the closing quote. */
  lemma QuotedText(key: string, value: string)
    ensures KeyText(key) + Quoted(value) == KeyText(key) + "\"" + value + "\""
  {
    AppendAssoc(KeyText(key), "\"" + value, "\"");
    AppendAssoc(KeyText(key), "\"", value);
  }

  // ---------------------------------------------------------------- behaviour

  /** What the buffer holds between commands: at most 95 characters, none of them `;`. */
  predicate Idle(r: Serial) {
    |r.pending| <= MaxStored && ';' !in r.pending
  }

  /** The characters a buffer of 95 keeps of `s`: its first 95. */
  function Kept(s: seq<char>): (k: seq<char>)
    ensures k <= s && |k| <= MaxStored
    ensures |s| <= MaxStored ==> k == s
  {
    if |s| <= MaxStored then s else s[..MaxStored]
  }

  /** A character read keeps the buffer idle; a `;` empties it and sends exactly one
      line, any other character sends nothing and changes no global. */
  lemma ReceiveIdle(r: Serial, ch: char, nowMs: nat)
    requires Idle(r)
    ensures Idle(Receive(r, ch, nowMs))
    ensures ch == ';' ==> Receive(r, ch, nowMs).pending == []
    ensures ch == ';' ==> |Receive(r, ch, nowMs).sent| == |r.sent| + 1
    ensures ch != ';' ==> Receive(r, ch, nowMs).sent == r.sent && Receive(r, ch, nowMs).c == r.c
  {
  }

  /** Any input keeps the buffer idle, keeps the lines already sent and sends one more
      line for each `;` in it. */
  lemma {:induction false} FeedIdle(r: Serial, input: string, nowMs: nat)
    requires Idle(r)
    ensures Idle(Feed(r, input, nowMs))
    ensures r.sent <= Feed(r, input, nowMs).sent
    ensures |Feed(r, input, nowMs).sent| == |r.sent| + Count(input, ';')
  {
    if input != [] {
      var front := input[..|input| - 1];
      FeedIdle(r, front, nowMs);
      ReceiveIdle(Feed(r, front, nowMs), input[|input| - 1], nowMs);
    }
  }

  /** Reading characters other than `;` only fills the buffer, up to 95 of them. */
  lemma {:induction false} FeedStores(r: Serial, input: string, nowMs: nat)
    requires |r.pending| <= MaxStored && ';' !in input
    ensures Feed(r, input, nowMs) == Serial(r.c, Kept(r.pending + input), r.sent)
  {
    if input != [] {
      var front := input[..|input| - 1];
      var ch := input[|input| - 1];
      assert ';' !in front by {
        assert forall i :: 0 <= i < |front| ==> front[i] == input[i];
      }
      FeedStores(r, front, nowMs);
      var p := Kept(r.pending + front);
      assert r.pending + input == (r.pending + front) + [ch];
      if |r.pending + front| < MaxStored {
        assert p + [ch] == r.pending + input;
      } else {
        assert Kept(r.pending + input) == p;
      }
    }
  }

  /** A NUL written after the text ends the C string there. */
  lemma TerminatedText(p: seq<char>)
    ensures CStr(p + ['\0']) == CStr(p)
  {
    CStrCut(p + ['\0'], |p|);
    assert (p + ['\0'])[..|p|] == p;
  }

  /** The `;` that ends a command is stored and stripped, or dropped when the buffer is
      full: either way the command text is what the buffer held before it. */
  lemma StoredTerminator(k: seq<char>)
    requires |k| <= MaxStored && ';' !in k
    ensures CommandText(Stored(k, ';')) == CStr(k)
  {
    if |k| < MaxStored {
      assert (k + [';'])[..|k|] == k;
      TerminatedText(k);
    }
  }

  /** A command and its `;`, read into an empty buffer: `handleCommand` runs on its first
      95 characters (up to any NUL), the buffer is emptied and its reply is the one line
      sent. */
  lemma FeedCommand(r: Serial, cmd: string, nowMs: nat)
    requires r.pending == [] && ';' !in cmd
    ensures Feed(r, cmd + [';'], nowMs) ==
      var (c, reply) := Handle(r.c, CStr(Kept(cmd)), nowMs);
      Serial(c, [], r.sent + [reply])
  {
    var input := cmd + [';'];
    assert input[..|input| - 1] == cmd;
    FeedStores(r, cmd, nowMs);
    assert r.pending + cmd == cmd;
    StoredTerminator(Kept(cmd));
  }

  /** A command never moves the temperature, the state, the alarm, the loop time or the
      e-stop time; only RST_ESTOP touches the latch, which it clears. */
  lemma ApplyKeeps(c: Controller, cmd: Command, nowMs: nat)
    ensures var c' := Apply(c, cmd, nowMs).0;
      c'.t == c.t && c'.lastState == c.lastState && c'.lastAlarm == c.lastAlarm &&
      c'.loopUs == c.loopUs && c'.tEstopUs == c.tEstopUs
    ensures Apply(c, cmd, nowMs).0.eStop == (c.eStop && cmd != ResetEstop)
  {
  }

  lemma HandleKeeps(c: Controller, text: string, nowMs: nat)
    ensures var c' := Handle(c, text, nowMs).0;
      c'.t == c.t && c'.lastState == c.lastState && c'.lastAlarm == c.lastAlarm &&
      c'.loopUs == c.loopUs && c'.tEstopUs == c.tEstopUs
    ensures Handle(c, text, nowMs).0.eStop == (c.eStop && !("RST_ESTOP" <= text))
  {
    ParseResetEstop(text);
    ApplyKeeps(c, Parse(text), nowMs);
  }

  /** START sets `running`; STOP clears it and turns both outputs off; RST_ESTOP clears
      the e-stop flag and its latency, and leaves `lastState` alone. Each answers ACK;. */
  lemma HandleRunCommands(c: Controller, text: string, nowMs: nat)
    ensures "START" <= text ==> Handle(c, text, nowMs) == (c.(running := true), Ack)
    ensures "STOP" <= text ==>
      Handle(c, text, nowMs) == (OutputsOff(c.(running := false)), Ack)
    ensures "RST_ESTOP" <= text ==>
      Handle(c, text, nowMs) == (c.(eStop := false, dtEstopUs := 0), Ack)
    ensures "RST_ESTOP" <= text ==> Handle(c, text, nowMs).0.lastState == c.lastState
  {
    ParseStart(text);
    ParseStop(text);
    ParseResetEstop(text);
  }

  /** Every command but GET answers ACK; or ERR;, and ERR; leaves the globals as they were. */
  lemma ApplyReplies(c: Controller, cmd: Command, nowMs: nat)
    ensures cmd != Get ==> Apply(c, cmd, nowMs).1 in {Ack, Err}
    ensures Apply(c, cmd, nowMs).1 == Err ==> Apply(c, cmd, nowMs).0 == c
  {
    assert Ack != Err by {
      assert Ack[0] != Err[0];
    }
  }

  lemma HandleReplies(c: Controller, text: string, nowMs: nat)
    ensures !("GET" <= text) ==> Handle(c, text, nowMs).1 in {Ack, Err}
    ensures Handle(c, text, nowMs).1 == Err ==> Handle(c, text, nowMs).0 == c
  {
    ParseGet(text);
    ApplyReplies(c, Parse(text), nowMs);
  }

  /** SET_LIMS= takes any three numbers `sscanf` reads, in whatever order they are, and
      answers ACK;; without three of them it answers ERR; and changes nothing. */
  lemma HandleSetLimits(c: Controller, text: string, nowMs: nat)
    requires "SET_LIMS=" <= text
    ensures Handle(c, text, nowMs).1 == Ack <==> ScanFloatTriple(text[9..]).Some?
    ensures ScanFloatTriple(text[9..]).Some? ==>
      var (a, b, d) := ScanFloatTriple(text[9..]).value;
      Handle(c, text, nowMs).0 == c.(lmin := a, lmax := b, lcrit := d)
    ensures ScanFloatTriple(text[9..]).None? ==> Handle(c, text, nowMs) == (c, Err)
  {
    ParseSetLimits(text);
  }

  /** MAN= sets both outputs, clamped, when `sscanf` reads two integers, whether the
      e-stop is latched or not; otherwise it answers ERR; and changes nothing. */
  lemma HandleManual(c: Controller, text: string, nowMs: nat)
    requires "MAN=" <= text
    ensures Handle(c, text, nowMs).1 == Ack <==> ScanIntPair(text[4..]).Some?
    ensures ScanIntPair(text[4..]).Some? ==>
      var (h, f) := ScanIntPair(text[4..]).value;
      Handle(c, text, nowMs).0 == WithOutputs(c, h, f)
    ensures ScanIntPair(text[4..]).None? ==> Handle(c, text, nowMs) == (c, Err)
  {
    ParseManual(text);
  }

  /** SET_SP= with no number after it is acknowledged, and sets the setpoint to 0. */
  lemma SetpointWithoutNumber(c: Controller, nowMs: nat)
    ensures Handle(c, "SET_SP=abc", nowMs) == (c.(setp := 0.0), Ack)
  {
    ParseSetpoint("SET_SP=abc");
    assert "SET_SP=abc"[7..] == "abc";
    assert LeadingSpace("abc") == 0 && LeadingDigits("abc") == 0;
    assert "abc"[0..] == "abc";
  }

  /** The alarm classes: CRIT at or above the critical limit, HIGH above the maximum,
      LOW below the minimum, NONE within; each class only under its own condition. */
  lemma AlarmClasses(t: real, lmin: real, lmax: real, lcrit: real)
    ensures ClassifyAlarm(t, lmin, lmax, lcrit) in {"CRIT", "HIGH", "LOW", "NONE"}
    ensures ClassifyAlarm(t, lmin, lmax, lcrit) == "CRIT" <==> t >= lcrit
    ensures ClassifyAlarm(t, lmin, lmax, lcrit) == "HIGH" <==> lmax < t < lcrit
    ensures ClassifyAlarm(t, lmin, lmax, lcrit) == "LOW" <==> t <= lmax && t < lmin && t < lcrit
    ensures ClassifyAlarm(t, lmin, lmax, lcrit) == "NONE" <==> lmin <= t <= lmax && t < lcrit
  {
    assert "CRIT"[0] != "HIGH"[0] && "CRIT"[0] != "LOW"[0] && "CRIT"[0] != "NONE"[0];
    assert "HIGH"[0] != "LOW"[0] && "HIGH"[0] != "NONE"[0] && "LOW"[0] != "NONE"[0];
  }

  /** Limits set out of order are not checked: with the minimum above the maximum, a
      temperature below the minimum is classed HIGH. */
  lemma InvertedLimits()
    ensures ClassifyAlarm(150.0, 200.0, 100.0, 240.0) == "HIGH"
  {
  }

  /** No serial input changes `lastState`. */
  lemma {:induction false} FeedKeepsState(r: Serial, input: string, nowMs: nat)
    ensures Feed(r, input, nowMs).c.lastState == r.c.lastState
  {
    if input != [] {
      var front := input[..|input| - 1];
      FeedKeepsState(r, front, nowMs);
      var p := Feed(r, front, nowMs);
      var q := Stored(p.pending, input[|input| - 1]);
      HandleKeeps(p.c, CommandText(q), nowMs);
    }
  }

  /** The state text only ever reads IDLE or E_STOP, and E_STOP for good once a pass has
      found the latch set: RST_ESTOP clears the latch but not the state. */
  lemma StateLatch(r: Serial, input: string, t0Us: nat, stopUs: nat, plantT: real, endUs: nat,
                   nowMs: nat)
    ensures var s := LoopPass(r, input, t0Us, stopUs, plantT, endUs, nowMs).c.lastState;
      s == "E_STOP" <==> r.c.lastState == "E_STOP" || Feed(r, input, nowMs).c.eStop
    ensures r.c.lastState in {"IDLE", "E_STOP"} ==>
      LoopPass(r, input, t0Us, stopUs, plantT, endUs, nowMs).c.lastState in {"IDLE", "E_STOP"}
  {
    FeedKeepsState(r, input, nowMs);
  }

  /** A pass that finds the latch set ends with both outputs off, whatever the commands
      of that pass did; otherwise the outputs are the ones the commands left. */
  lemma EStopOutputs(r: Serial, input: string, t0Us: nat, stopUs: nat, plantT: real,
                     endUs: nat, nowMs: nat)
    ensures var c := LoopPass(r, input, t0Us, stopUs, plantT, endUs, nowMs).c;
      var fed := Feed(r, input, nowMs).c;
      if fed.eStop then c.pwmHeater == 0 && c.pwmFan == 0
      else c.pwmHeater == fed.pwmHeater && c.pwmFan == fed.pwmFan
  {
  }

  /** `micros()` differences in 32-bit arithmetic: with both readings taken from the counter
      that wraps at 2^32, and less than 2^32 microseconds between them, the difference is
      the time that passed, across a wrap too. */
  lemma ElapsedAcrossWrap(startUs: nat, endUs: nat, elapsed: nat)
    requires startUs < Wrap && elapsed < Wrap && endUs == (startUs + elapsed) % Wrap
    ensures (endUs - startUs) % Wrap == elapsed
  {
    if startUs + elapsed >= Wrap {
      assert endUs == startUs + elapsed - Wrap;
    }
  }

  /** The telemetry record holds the fourteen keys in order, mode "BAD" and the latch as
      `true` or `false`. */
  lemma TelemetryRecord(c: Controller, nowMs: nat)
    ensures |Fields(c, nowMs)| == |TelemetryKeys|
    ensures forall i :: 0 <= i < |TelemetryKeys| ==> Fields(c, nowMs)[i].0 == TelemetryKeys[i]
    ensures Fields(c, nowMs)[5].1 == "\"BAD\""
    ensures Fields(c, nowMs)[10].1 == if c.eStop then "true" else "false"
  {
    var t, sp, lo, hi, cr := PrintFloat1(c.t), PrintFloat1(c.setp), PrintFloat1(c.lmin),
      PrintFloat1(c.lmax), PrintFloat1(c.lcrit);
    RecordKeys(t, sp, lo, hi, cr, c.lastState, IntToString(c.pwmHeater),
               IntToString(c.pwmFan), c.lastAlarm, BoolText(c.eStop), NatToString(c.dtEstopUs),
               NatToString(c.loopUs), NatToString(nowMs));
  }

  lemma RecordKeys(t: string, sp: string, limMin: string, limMax: string, limCrit: string,
                   state: string, heater: string, fan: string, alarm: string, eStop: string,
                   dtEstopUs: string, loopUs: string, tsMs: string)
    ensures var r := Record(t, sp, limMin, limMax, limCrit, state, heater, fan, alarm, eStop,
                            dtEstopUs, loopUs, tsMs);
      |r| == |TelemetryKeys| && (forall i :: 0 <= i < |TelemetryKeys| ==> r[i].0 == TelemetryKeys[i]) &&
      r[5].1 == "\"BAD\"" && r[10].1 == eStop
  {
  }

  /** An object's text starts with its opening brace. */
  lemma {:induction false} OpenedBrace(fields: seq<(string, string)>)
    requires |fields| >= 1
    ensures |Opened(fields)| >= 1 && Opened(fields)[0] == '{'
  {
    if |fields| > 1 {
      OpenedBrace(fields[..|fields| - 1]);
    }
  }
}
