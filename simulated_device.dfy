/**
 * The simulated furnace backend. One simulation cycle runs four phases in
 * order: the critical check (interlock with hysteresis, alarm), the actuator
 * control, the thermal update and the publication of a telemetry snapshot.
 * Text commands are accepted between cycles.
 *
 * The process state is a value (`Furnace`); each phase is a pure function on
 * it, and the class `SimulatedDevice` holds the same state in fields that its
 * methods update step by step.
 */
module SimulatedFurnace {
  import opened Wrappers
  import opened Text
  import opened Numbers
  import opened DeviceTelemetry

  const TempInicial: real := 1450.0
  const SetpointInicial: real := 1500.0
  const TempAlarme: real := 1600.0
  const TempCritica: real := 1750.0
  const IncrementoTemp: real := 5.0
  const DecrementoTemp: real := 8.0
  const PerdaAmbiente: real := 2.0
  /** Physical limits of the simulated plant. */
  const TempMinima: real := 25.0
  const TempMaxima: real := 1800.0
  /** Range `SetTemperature` clamps the set-point into. */
  const SetpointMinimo: real := 1000.0
  const SetpointMaximo: real := 1800.0
  /** Temperature `RESET_SYSTEM` restores. */
  const TempReset: real := 1450.0

  datatype Furnace = Furnace(
    temperatura: real,
    setpoint: real,
    macarico: bool,
    ventilador: bool,
    alarme: bool,
    interrupcao: bool,
    ativo: bool)

  /** The state the simulator is created in. */
  const Initial: Furnace := Furnace(TempInicial, SetpointInicial, false, false, false, false, true)

  /** The safety invariant: the system is active exactly when the interlock is off,
      the interlock implies the alarm, heater and fan are exclusive, and the
      temperature and set-point lie in their ranges. */
  predicate Safe(f: Furnace) {
    && f.ativo == !f.interrupcao
    && (f.interrupcao ==> f.alarme)
    && !(f.macarico && f.ventilador)
    && TempMinima <= f.temperatura <= TempMaxima
    && SetpointMinimo <= f.setpoint <= SetpointMaximo
  }

  function Min(a: real, b: real): real { if a <= b then a else b }
  function Max(a: real, b: real): real { if a >= b then a else b }

  /** `Math.Clamp(v, lo, hi)`. */
  function Clamp(v: real, lo: real, hi: real): (r: real)
    requires lo <= hi
    ensures lo <= r <= hi
    ensures lo <= v <= hi ==> r == v
  {
    if v < lo then lo else if v > hi then hi else v
  }

  // ---------------------------------------------------------------- phases

  /** `VerificarTemperaturaCritica`: five guarded updates applied in sequence. */
  function CriticalCheck(f: Furnace): Furnace {
    var f1 := if f.temperatura >= TempCritica && !f.interrupcao
              then f.(interrupcao := true, ativo := false) else f;
    var f2 := if f1.interrupcao && f1.temperatura <= f1.setpoint
              then f1.(interrupcao := false, ativo := true, alarme := false) else f1;
    var f3 := if !f2.interrupcao && f2.temperatura >= TempAlarme && !f2.alarme
              then f2.(alarme := true) else f2;
    var f4 := if !f3.interrupcao && f3.temperatura < TempAlarme && f3.alarme
              then f3.(alarme := false) else f3;
    if f4.interrupcao then f4.(alarme := true) else f4
  }

  /** `ControlarTemperatura`: fan only under interlock, heater only when active. */
  function Control(f: Furnace): Furnace {
    if f.interrupcao then f.(macarico := false, ventilador := true)
    else if f.ativo then f.(macarico := true, ventilador := false)
    else f.(macarico := false, ventilador := false)
  }

  /** `SimularTemperatura`: heating, cooling, ambient loss, then the physical limits. */
  function Thermal(f: Furnace): Furnace {
    var t1 := if f.macarico then f.temperatura + IncrementoTemp else f.temperatura;
    var t2 := if f.ventilador then t1 - DecrementoTemp else t1;
    var t3 := if !f.macarico && t2 > TempMinima then t2 - PerdaAmbiente else t2;
    var t4 := if t3 < TempMinima then TempMinima else t3;
    var t5 := if t4 > TempMaxima then TempMaxima else t4;
    f.(temperatura := t5)
  }

  /** The state label `GerarTelemetria` publishes. */
  function Label(f: Furnace): string {
    if f.interrupcao then "INTERRUPCAO CRITICA"
    else if f.alarme && f.macarico then "ALARME - AQUECENDO"
    else if f.macarico then "AQUECENDO"
    else if f.ventilador then "RESFRIANDO"
    else if !f.ativo then "INATIVO"
    else "MANTENDO"
  }

  /** The telemetry record built from the current state at instant `now`. */
  function Snapshot(f: Furnace, now: int): Telemetry {
    Telemetry(f.temperatura, f.setpoint, TempAlarme, TempCritica, f.macarico, f.ventilador,
              f.alarme, f.interrupcao, f.ativo, Label(f), now)
  }

  /** One pass of the simulation loop, without the publication. */
  function Cycle(f: Furnace): Furnace {
    Thermal(Control(CriticalCheck(f)))
  }

  /** The state after `n` uninterrupted applications of `step` (the simulation loop
      runs `Iterate(Cycle, f, n)`). */
  function Iterate(step: Furnace -> Furnace, f: Furnace, n: nat): Furnace {
    if n == 0 then f else step(Iterate(step, f, n - 1))
  }

  // ---------------------------------------------------------------- commands

  function Reset(f: Furnace): Furnace {
    f.(interrupcao := false, ativo := true, alarme := false, temperatura := TempReset)
  }

  function EmergencyStop(f: Furnace): Furnace {
    f.(interrupcao := true, ativo := false, macarico := false, ventilador := true, alarme := true)
  }

  /** `SetTemperature(command)`: the text after the only `=` must parse as a number;
      the new set-point is that number clamped into its range. */
  function SetTemperature(f: Furnace, command: string): (Furnace, string) {
    var parts := Split(command, '=');
    if |parts| == 2 then
      match TryParseDouble(parts[1])
      case Some(v) => (f.(setpoint := Clamp(v, SetpointMinimo, SetpointMaximo)), "SETPOINT_OK")
      case None => (f, "SETPOINT_ERROR")
    else (f, "SETPOINT_ERROR")
  }

  /** `SendAsync(command)`: the trimmed, upper-cased text is matched exactly; the
      set-point arm additionally asks the original text to contain `=`. */
  function Command(f: Furnace, command: string): (Furnace, string) {
    var cmd := ToUpperInvariant(Trim(command));
    if cmd == "GET_STATUS" then (f, "SIMULADOR_ATIVO")
    else if cmd == "RESET_SYSTEM" then (Reset(f), "RESET_OK")
    else if cmd == "SET_TEMP" && '=' in command then SetTemperature(f, command)
    else if cmd == "EMERGENCY_STOP" then (EmergencyStop(f), "EMERGENCY_STOP_OK")
    else (f, "OK")
  }

  // ---------------------------------------------------------------- the device

  class SimulatedDevice {
    var isRunning: bool
    var lastTelemetry: Option<Telemetry>
    /** Every snapshot handed to `TelemetryReceived`, oldest first. */
    var published: seq<Telemetry>

    var temperaturaAtual: real
    var setpoint: real
    var macaricoLigado: bool
    var ventiladorLigado: bool
    var alarmeAtivo: bool
    var interrupcaoCritica: bool
    var sistemaAtivo: bool

    /** The process state held in the fields. */
    function Model(): Furnace
      reads this
    {
      Furnace(temperaturaAtual, setpoint, macaricoLigado, ventiladorLigado, alarmeAtivo,
              interrupcaoCritica, sistemaAtivo)
    }

    constructor ()
      ensures Model() == Initial && !isRunning && lastTelemetry == None && published == []
    {
      isRunning := false;
      lastTelemetry := None;
      published := [];
      temperaturaAtual := TempInicial;
      setpoint := SetpointInicial;
      macaricoLigado := false;
      ventiladorLigado := false;
      alarmeAtivo := false;
      interrupcaoCritica := false;
      sistemaAtivo := true;
    }

    /** `StartAsync`: marks the simulation as running; a second start does nothing. */
    method StartAsync()
      modifies this`isRunning
      ensures isRunning
    {
      if isRunning { return; }
      isRunning := true;
    }

    /** `StopAsync`: the loop ends before its next pass. */
    method StopAsync()
      modifies this`isRunning
      ensures !isRunning
    {
      isRunning := false;
    }

    method VerificarTemperaturaCritica()
      modifies this
      ensures Model() == CriticalCheck(old(Model()))
      ensures isRunning == old(isRunning) && lastTelemetry == old(lastTelemetry)
      ensures published == old(published)
    {
      if temperaturaAtual >= TempCritica && !interrupcaoCritica {
        interrupcaoCritica := true;
        sistemaAtivo := false;
      }
      if interrupcaoCritica && temperaturaAtual <= setpoint {
        interrupcaoCritica := false;
        sistemaAtivo := true;
        alarmeAtivo := false;
      }
      if !interrupcaoCritica && temperaturaAtual >= TempAlarme && !alarmeAtivo {
        alarmeAtivo := true;
      }
      if !interrupcaoCritica && temperaturaAtual < TempAlarme && alarmeAtivo {
        alarmeAtivo := false;
      }
      if interrupcaoCritica {
        alarmeAtivo := true;
      }
    }

    method ControlarTemperatura()
      modifies this
      ensures Model() == Control(old(Model()))
      ensures isRunning == old(isRunning) && lastTelemetry == old(lastTelemetry)
      ensures published == old(published)
    {
      if interrupcaoCritica {
        macaricoLigado := false;
        ventiladorLigado := true;
        return;
      }
      if sistemaAtivo {
        macaricoLigado := true;
        ventiladorLigado := false;
      } else {
        macaricoLigado := false;
        ventiladorLigado := false;
      }
    }

    method SimularTemperatura()
      modifies this
      ensures Model() == Thermal(old(Model()))
      ensures isRunning == old(isRunning) && lastTelemetry == old(lastTelemetry)
      ensures published == old(published)
    {
      if macaricoLigado {
        temperaturaAtual := temperaturaAtual + IncrementoTemp;
      }
      if ventiladorLigado {
        temperaturaAtual := temperaturaAtual - DecrementoTemp;
      }
      if !macaricoLigado && temperaturaAtual > TempMinima {
        temperaturaAtual := temperaturaAtual - PerdaAmbiente;
      }
      if temperaturaAtual < TempMinima { temperaturaAtual := TempMinima; }
      if temperaturaAtual > TempMaxima { temperaturaAtual := TempMaxima; }
    }

    /** `GerarTelemetria`: builds the snapshot, keeps it as the last telemetry and
        publishes it. `now` stands for `DateTime.UtcNow`. */
    method GerarTelemetria(now: int)
      modifies this
      ensures Model() == old(Model()) && isRunning == old(isRunning)
      ensures lastTelemetry == Some(Snapshot(Model(), now))
      ensures published == old(published) + [Snapshot(Model(), now)]
    {
      var estadoAtual: string;
      if interrupcaoCritica {
        estadoAtual := "INTERRUPCAO CRITICA";
      } else if alarmeAtivo && macaricoLigado {
        estadoAtual := "ALARME - AQUECENDO";
      } else if macaricoLigado {
        estadoAtual := "AQUECENDO";
      } else if ventiladorLigado {
        estadoAtual := "RESFRIANDO";
      } else if !sistemaAtivo {
        estadoAtual := "INATIVO";
      } else {
        estadoAtual := "MANTENDO";
      }
      var telemetry := Telemetry(temperaturaAtual, setpoint, TempAlarme, TempCritica,
                                 macaricoLigado, ventiladorLigado, alarmeAtivo,
                                 interrupcaoCritica, sistemaAtivo, estadoAtual, now);
      lastTelemetry := Some(telemetry);
      published := published + [telemetry];
    }

    /** One iteration of `SimulationLoop`, which runs only while the device is running. */
    method Step(now: int)
      requires isRunning
      modifies this
      ensures Model() == Cycle(old(Model())) && isRunning
      ensures lastTelemetry == Some(Snapshot(Model(), now))
      ensures published == old(published) + [Snapshot(Model(), now)]
    {
      VerificarTemperaturaCritica();
      ControlarTemperatura();
      SimularTemperatura();
      GerarTelemetria(now);
    }

    method ResetSystem() returns (reply: string)
      modifies this
      ensures Model() == Reset(old(Model())) && reply == "RESET_OK"
      ensures isRunning == old(isRunning) && lastTelemetry == old(lastTelemetry)
      ensures published == old(published)
    {
      interrupcaoCritica := false;
      sistemaAtivo := true;
      alarmeAtivo := false;
      temperaturaAtual := TempReset;
      reply := "RESET_OK";
    }

    method SetTemperatureCommand(command: string) returns (reply: string)
      modifies this
      ensures (Model(), reply) == SetTemperature(old(Model()), command)
      ensures isRunning == old(isRunning) && lastTelemetry == old(lastTelemetry)
      ensures published == old(published)
    {
      var parts := Split(command, '=');
      if |parts| == 2 {
        var parsed := TryParseDouble(parts[1]);
        if parsed.Some? {
          setpoint := Clamp(parsed.value, SetpointMinimo, SetpointMaximo);
          return "SETPOINT_OK";
        }
      }
      reply := "SETPOINT_ERROR";
    }

    method EmergencyStopCommand() returns (reply: string)
      modifies this
      ensures Model() == EmergencyStop(old(Model())) && reply == "EMERGENCY_STOP_OK"
      ensures isRunning == old(isRunning) && lastTelemetry == old(lastTelemetry)
      ensures published == old(published)
    {
      interrupcaoCritica := true;
      sistemaAtivo := false;
      macaricoLigado := false;
      ventiladorLigado := true;
      alarmeAtivo := true;
      reply := "EMERGENCY_STOP_OK";
    }

    method SendAsync(command: string) returns (reply: string)
      modifies this
      ensures (Model(), reply) == Command(old(Model()), command)
      ensures isRunning == old(isRunning) && lastTelemetry == old(lastTelemetry)
      ensures published == old(published)
    {
      var cmd := ToUpperInvariant(Trim(command));
      if cmd == "GET_STATUS" {
        reply := "SIMULADOR_ATIVO";
      } else if cmd == "RESET_SYSTEM" {
        reply := ResetSystem();
      } else if cmd == "SET_TEMP" && '=' in command {
        reply := SetTemperatureCommand(command);
      } else if cmd == "EMERGENCY_STOP" {
        reply := EmergencyStopCommand();
      } else {
        reply := "OK";
      }
    }
  }

  // ---------------------------------------------------------------- properties

  /** The critical check: the interlock is on afterwards when it was on or the
      temperature reached 1750, unless the temperature is at or below the set-point;
      the alarm is then forced, otherwise it is exactly `temperature >= 1600`. */
  lemma CriticalCheckSpec(f: Furnace)
    ensures var r := CriticalCheck(f);
      && r.interrupcao == ((f.interrupcao || f.temperatura >= TempCritica)
                           && !(f.temperatura <= f.setpoint))
      && (r.interrupcao ==> r.alarme)
      && (!r.interrupcao ==> r.alarme == (f.temperatura >= TempAlarme))
      && r.ativo == (if (f.interrupcao || f.temperatura >= TempCritica)
                        && f.temperatura <= f.setpoint then true
                     else if !f.interrupcao && f.temperatura >= TempCritica then false
                     else f.ativo)
      && r.temperatura == f.temperatura && r.setpoint == f.setpoint
      && r.macarico == f.macarico && r.ventilador == f.ventilador
  {
  }

  /** Engagement: at 1750 or more the interlock engages and the system stops
      (for a set-point below the temperature, as every reachable one is). */
  lemma CriticalEngages(f: Furnace)
    requires !f.interrupcao && f.temperatura >= TempCritica && f.setpoint < f.temperatura
    ensures CriticalCheck(f).interrupcao && !CriticalCheck(f).ativo && CriticalCheck(f).alarme
  {
  }

  /** Release: under interlock, a temperature at or below the set-point clears it,
      restores the system and clears the alarm (the alarm check then reruns). */
  lemma CriticalReleases(f: Furnace)
    requires f.interrupcao && f.temperatura <= f.setpoint
    ensures var r := CriticalCheck(f);
      !r.interrupcao && r.ativo && r.alarme == (f.temperatura >= TempAlarme)
  {
  }

  /** Control: heater and fan are exclusive afterwards, the fan runs exactly under
      interlock and the heater exactly when active and not interlocked. */
  lemma ControlSpec(f: Furnace)
    ensures var r := Control(f);
      && !(r.macarico && r.ventilador)
      && r.ventilador == f.interrupcao
      && r.macarico == (!f.interrupcao && f.ativo)
      && r.(macarico := f.macarico, ventilador := f.ventilador) == f
  {
  }

  /** The thermal update stays within the physical limits and changes nothing else. */
  lemma ThermalBounds(f: Furnace)
    ensures TempMinima <= Thermal(f).temperatura <= TempMaxima
    ensures Thermal(f).(temperatura := f.temperatura) == f
  {
  }

  /** The thermal update by actuator state: +5 heating, -8 and -2 cooling,
      -2 idle, each clamped to the limits. */
  lemma ThermalCases(f: Furnace)
    requires TempMinima <= f.temperatura <= TempMaxima
    ensures var t := f.temperatura; var r := Thermal(f).temperatura;
      && (f.macarico && !f.ventilador ==> r == Min(t + 5.0, TempMaxima))
      && (!f.macarico && f.ventilador ==> r == Max(t - 10.0, TempMinima))
      && (!f.macarico && !f.ventilador ==> r == Max(t - 2.0, TempMinima))
      && (f.macarico && f.ventilador ==> r == Max(t - 3.0, TempMinima))
  {
  }

  /** The label follows the priority interlock > alarm while heating > heating >
      cooling > inactive > maintaining. */
  lemma LabelPriority(f: Furnace)
    ensures Label(f) == "INTERRUPCAO CRITICA" <==> f.interrupcao
    ensures Label(f) == "ALARME - AQUECENDO" <==> !f.interrupcao && f.alarme && f.macarico
    ensures Label(f) == "AQUECENDO" <==> !f.interrupcao && !f.alarme && f.macarico
    ensures Label(f) == "RESFRIANDO" <==> !f.interrupcao && !f.macarico && f.ventilador
    ensures Label(f) == "INATIVO"
        <==> !f.interrupcao && !f.macarico && !f.ventilador && !f.ativo
    ensures Label(f) == "MANTENDO"
        <==> !f.interrupcao && !f.macarico && !f.ventilador && f.ativo
  {
  }

  lemma InitialSafe()
    ensures Safe(Initial)
  {
  }

  /** A cycle preserves the safety invariant. */
  lemma CycleSafe(f: Furnace)
    requires Safe(f)
    ensures Safe(Cycle(f))
  {
    CriticalCheckSpec(f);
    var c := CriticalCheck(f);
    ControlSpec(c);
    ThermalBounds(Control(c));
  }

  /** Every command keeps the safety invariant. */
  lemma CommandSafe(f: Furnace, command: string)
    requires Safe(f)
    ensures Safe(Command(f, command).0)
  {
    var cmd := ToUpperInvariant(Trim(command));
    if cmd != "GET_STATUS" && cmd != "RESET_SYSTEM" && cmd == "SET_TEMP" && '=' in command {
      assert Command(f, command) == SetTemperature(f, command);
    }
  }

  /** The snapshot of a safe state satisfies the telemetry's own consistency rules. */
  lemma SnapshotConsistent(f: Furnace, now: int)
    requires Safe(f)
    ensures Consistent(Snapshot(f, now))
  {
  }

  /** Only three labels are ever published: after a cycle from a consistent state the
      actuators follow the flags, so "RESFRIANDO", "INATIVO" and "MANTENDO" cannot occur. */
  lemma PublishedLabels(f: Furnace, now: int)
    requires f.ativo == !f.interrupcao
    ensures Snapshot(Cycle(f), now).estado in
      ["INTERRUPCAO CRITICA", "ALARME - AQUECENDO", "AQUECENDO"]
  {
    CriticalCheckSpec(f);
    var c := CriticalCheck(f);
    ControlSpec(c);
    ThermalBounds(Control(c));
  }

  /** A text containing `=` never matches a command name, so it is answered "OK"
      and changes nothing: the set-point arm is unreachable. */
  lemma CommandWithEquals(f: Furnace, command: string)
    requires '=' in command
    ensures Command(f, command) == (f, "OK")
  {
    var cmd := ToUpperInvariant(Trim(command));
    TrimKeepsNonWhite(command, '=');
    var k :| 0 <= k < |Trim(command)| && Trim(command)[k] == '=';
    assert cmd[k] == '=';
    NoCommandName(cmd);
  }

  /** No command name holds `=`. */
  lemma NoCommandName(cmd: string)
    requires '=' in cmd
    ensures cmd != "GET_STATUS" && cmd != "RESET_SYSTEM" && cmd != "SET_TEMP"
      && cmd != "EMERGENCY_STOP"
  {
    assert '=' !in "GET_STATUS" && '=' !in "RESET_SYSTEM";
    assert '=' !in "SET_TEMP" && '=' !in "EMERGENCY_STOP";
  }

  /** The only text the set-point arm's name accepts holds no `=`, so the arm's guard
      is never true. */
  lemma SetTempArmUnreachable(command: string)
    requires ToUpperInvariant(Trim(command)) == "SET_TEMP"
    ensures '=' !in command
  {
    TrimKeepsNonWhite(command, '=');
    var t := Trim(command);
    assert forall k :: 0 <= k < |t| ==> UpperChar(t[k]) != '=';
  }

  /** The command names are matched whatever their case and surrounding white space:
      two commands that read the same once trimmed and upper-cased do the same thing,
      and each of the three names that can match does what it names. */
  lemma CommandCaseInsensitive(f: Furnace, command: string, other: string)
    ensures ToUpperInvariant(Trim(command)) == ToUpperInvariant(Trim(other)) ==>
      Command(f, command) == Command(f, other)
    ensures ToUpperInvariant(Trim(command)) == "GET_STATUS" ==>
      Command(f, command) == (f, "SIMULADOR_ATIVO")
    ensures ToUpperInvariant(Trim(command)) == "RESET_SYSTEM" ==>
      Command(f, command) == (Reset(f), "RESET_OK")
    ensures ToUpperInvariant(Trim(command)) == "EMERGENCY_STOP" ==>
      Command(f, command) == (EmergencyStop(f), "EMERGENCY_STOP_OK")
  {
    if ToUpperInvariant(Trim(command)) == "SET_TEMP" {
      SetTempArmUnreachable(command);
    }
    if ToUpperInvariant(Trim(other)) == "SET_TEMP" {
      SetTempArmUnreachable(other);
    }
  }

  /** A command is answered with one of four replies, never a set-point reply; the
      status query and any unrecognised text change nothing, and "OK" is exactly the
      answer to a text that is none of the three reachable command names. */
  lemma CommandReplies(f: Furnace, command: string)
    ensures var (g, reply) := Command(f, command);
      && reply in {"SIMULADOR_ATIVO", "RESET_OK", "EMERGENCY_STOP_OK", "OK"}
      && (reply == "SIMULADOR_ATIVO" || reply == "OK" ==> g == f)
      && (reply == "OK" <==>
          ToUpperInvariant(Trim(command)) !in {"GET_STATUS", "RESET_SYSTEM", "EMERGENCY_STOP"})
  {
    if ToUpperInvariant(Trim(command)) == "SET_TEMP" {
      SetTempArmUnreachable(command);
    }
  }

  /** `SetTemperature` accepts exactly one `=` followed by a number and clamps it;
      anything else is an error that leaves the state as it was. */
  lemma SetTemperatureSpec(f: Furnace, command: string)
    ensures var (g, reply) := SetTemperature(f, command);
      && (reply == "SETPOINT_OK" || reply == "SETPOINT_ERROR")
      && (reply == "SETPOINT_OK" <==>
            |Split(command, '=')| == 2 && TryParseDouble(Split(command, '=')[1]).Some?)
      && (reply == "SETPOINT_OK" ==>
            g == f.(setpoint := Clamp(TryParseDouble(Split(command, '=')[1]).value,
                                      SetpointMinimo, SetpointMaximo))
            && SetpointMinimo <= g.setpoint <= SetpointMaximo)
      && (reply == "SETPOINT_ERROR" ==> g == f)
  {
  }

  /** `SET_TEMP=<digits>` would set the set-point to the clamped value of the digits. */
  lemma SetTemperatureDigits(f: Furnace, n: nat)
    ensures SetTemperature(f, "SET_TEMP=" + NatToString(n))
         == (f.(setpoint := Clamp(n as real, SetpointMinimo, SetpointMaximo)), "SETPOINT_OK")
  {
    var d := NatToString(n);
    assert '=' !in d by {
      assert forall k :: 0 <= k < |d| ==> IsDigit(d[k]);
    }
    assert Join(["SET_TEMP", d], '=') == "SET_TEMP=" + d;
    SplitJoin(["SET_TEMP", d], '=');
    ParseNatToString(n);
  }

  /** Emergency stop engages the interlock whatever the temperature, and reset
      restores the fixed temperature with interlock and alarm clear. */
  lemma EmergencyAndReset(f: Furnace)
    ensures var e := EmergencyStop(f);
      e.interrupcao && !e.ativo && !e.macarico && e.ventilador && e.alarme
      && e.temperatura == f.temperatura && e.setpoint == f.setpoint
    ensures var r := Reset(f);
      !r.interrupcao && r.ativo && !r.alarme && r.temperatura == TempReset
      && r.setpoint == f.setpoint && r.macarico == f.macarico && r.ventilador == f.ventilador
  {
  }

  // ---------------------------------------------------------------- the run from start-up

  /** The state after `k` heating cycles from start-up, for `k <= 60`. */
  function Heating(k: nat): Furnace {
    Furnace(TempInicial + 5.0 * k as real, SetpointInicial, k > 0, false, k >= 31, false, true)
  }

  /** The state after the `m`-th cooling cycle under interlock, for `1 <= m <= 25`. */
  function Cooling(m: nat): Furnace {
    Furnace(TempCritica - 10.0 * m as real, SetpointInicial, false, true, true, true, false)
  }

  /** From start-up the furnace heats by 5 per cycle; the alarm is on from the 31st
      cycle, whose snapshot is the first above 1600. */
  lemma {:induction false} HeatingRun(k: nat)
    requires k <= 60
    ensures Iterate(Cycle, Initial, k) == Heating(k)
  {
    if k > 0 {
      HeatingRun(k - 1);
      assert Cycle(Heating(k - 1)) == Heating(k);
    }
  }

  /** The 61st cycle starts at 1750: the interlock engages and the fan cools by 10
      per cycle (8 by the fan, 2 of ambient loss) down to 1500. */
  lemma {:induction false} CoolingRun(m: nat)
    requires 1 <= m <= 25
    ensures Iterate(Cycle, Initial, 60 + m) == Cooling(m)
  {
    var prev := Iterate(Cycle, Initial, 59 + m);
    if m == 1 {
      HeatingRun(60);
      InterlockStep();
    } else {
      CoolingRun(m - 1);
      CoolingStep(m - 1);
    }
    assert Cycle(prev) == Cooling(m);
  }

  /** The 61st cycle: 1750 engages the interlock. */
  lemma InterlockStep()
    ensures Cycle(Heating(60)) == Cooling(1)
  {
  }

  /** One cooling cycle under interlock. */
  lemma CoolingStep(m: nat)
    requires 1 <= m < 25
    ensures Cycle(Cooling(m)) == Cooling(m + 1)
  {
  }

  /** The 86th cycle sees 1500, releases the interlock and heats again: the state is
      the one after the 11th cycle. */
  lemma ReleaseRun()
    ensures Iterate(Cycle, Initial, 86) == Heating(11) == Iterate(Cycle, Initial, 11)
  {
    CoolingRun(25);
    assert Cycle(Cooling(25)) == Heating(11);
    HeatingRun(11);
  }

  /** A state that recurs after `p` steps recurs every `p` steps from then on. */
  lemma {:induction false} Recurs(step: Furnace -> Furnace, f: Furnace, a: nat, p: nat, n: nat)
    requires Iterate(step, f, a + p) == Iterate(step, f, a) && n >= a
    ensures Iterate(step, f, n + p) == Iterate(step, f, n)
  {
    if n > a {
      Recurs(step, f, a, p, n - 1);
      assert Iterate(step, f, n - 1 + p) == Iterate(step, f, n - 1);
    }
  }

  /** The recurrence of ReleaseRun propagated to cycle `n`. */
  lemma PeriodicFrom(step: Furnace -> Furnace, f: Furnace, a: nat, p: nat, n: nat)
    requires step == Cycle && f == Initial && a == 11 && p == 75 && n >= a
    ensures Iterate(step, f, n + p) == Iterate(step, f, n)
  {
    ReleaseRun();
    Recurs(step, f, a, p, n);
  }

  /** From the 11th cycle on, the run from start-up repeats every 75 cycles. */
  lemma Period75(n: nat)
    requires n >= 11
    ensures Iterate(Cycle, Initial, n + 75) == Iterate(Cycle, Initial, n)
  {
    PeriodicFrom(Cycle, Initial, 11, 75, n);
  }

  /** The alarm is raised one cycle late: the snapshot that first shows 1600 still
      has the alarm off, because the check runs before the heating step. */
  lemma AlarmOneCycleLate(now: int)
    ensures Snapshot(Iterate(Cycle, Initial, 30), now).temperaturaAtual == TempAlarme
    ensures !Snapshot(Iterate(Cycle, Initial, 30), now).alarmeAtivo
    ensures Snapshot(Iterate(Cycle, Initial, 31), now).alarmeAtivo
  {
    HeatingRun(30);
    HeatingRun(31);
  }
}
