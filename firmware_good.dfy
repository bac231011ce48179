/**
 * The "good" furnace firmware: the same safety state machine as the simulator,
 * run over global variables by the Arduino `loop()`, one pass per second:
 * critical check, actuator control, thermal simulation, status line.
 *
 * It differs from the simulator in its constants and in two details: the
 * ambient loss is a literal 1 degree, and under interlock only the alarm pin
 * is driven HIGH, the alarm flag is not forced. Every constant is a whole
 * number and every update adds or subtracts one, so the `float` temperature
 * is modelled as an `int`. Pins are `true` for HIGH.
 */
module FornoLabGood {
  import opened Numbers
  import Text

  const TempAmbiente: int := 25
  const TempMaxima: int := 1800
  const TempSetpoint: int := 1500
  const TempAlarme: int := 1600
  const TempCritica: int := 1750
  const IncrementoTemp: int := 5
  const DecrementoTemp: int := 8
  /** The loss the thermal simulation applies; the declared `PERDA_AMBIENTE` (2) is unused. */
  const PerdaNatural: int := 1
  const TempInicial: int := 1400

  datatype Globals = Globals(
    temperatura: int,
    ativo: bool,
    alarme: bool,
    interrupcao: bool,
    macarico: bool,
    ventilador: bool,
    pinMacarico: bool,
    pinVentilador: bool,
    pinAlarme: bool)

  /** The globals after their initialisers and `setup()`, which writes every pin LOW. */
  const Initial: Globals := Globals(TempInicial, true, false, false, false, false, false, false, false)

  // ---------------------------------------------------------------- phases

  /** `verificar_temperatura_critica`: five guarded updates in sequence. */
  function Check(g: Globals): Globals {
    HoldPin(AlarmOff(AlarmOn(Release(Engage(g)))))
  }

  /** At 1750 or more the interlock engages and the system stops. */
  function Engage(g: Globals): Globals {
    if g.temperatura >= TempCritica && !g.interrupcao
    then g.(interrupcao := true, ativo := false) else g
  }

  /** Under interlock, at the set-point or below, the interlock clears, the system
      restarts and the alarm flag is cleared. */
  function Release(g: Globals): Globals {
    if g.interrupcao && g.temperatura <= TempSetpoint
    then g.(interrupcao := false, ativo := true, alarme := false) else g
  }

  /** Outside the interlock, at 1600 or more, a clear alarm is raised and its pin set. */
  function AlarmOn(g: Globals): Globals {
    if !g.interrupcao && g.temperatura >= TempAlarme && !g.alarme
    then g.(alarme := true, pinAlarme := true) else g
  }

  /** Outside the interlock, below 1600, a raised alarm is cleared and its pin reset. */
  function AlarmOff(g: Globals): Globals {
    if !g.interrupcao && g.temperatura < TempAlarme && g.alarme
    then g.(alarme := false, pinAlarme := false) else g
  }

  /** Under interlock the alarm pin is driven HIGH; the flag is not touched. */
  function HoldPin(g: Globals): Globals {
    if g.interrupcao then g.(pinAlarme := true) else g
  }

  /** `controlar_temperatura`: fan only under interlock, heater only when active;
      each flag is written to its pin. */
  function Control(g: Globals): Globals {
    if g.interrupcao
    then g.(macarico := false, ventilador := true, pinMacarico := false, pinVentilador := true)
    else if g.ativo
    then g.(macarico := true, ventilador := false, pinMacarico := true, pinVentilador := false)
    else g.(macarico := false, ventilador := false, pinMacarico := false, pinVentilador := false)
  }

  /** `simular_temperatura`: heating, cooling, the natural loss, then the physical limits. */
  function Simulate(g: Globals): Globals {
    var t1 := if g.macarico then g.temperatura + IncrementoTemp else g.temperatura;
    var t2 := if g.ventilador then t1 - DecrementoTemp else t1;
    var t3 := if !g.macarico && t2 > TempAmbiente then t2 - PerdaNatural else t2;
    var t4 := if t3 < TempAmbiente then TempAmbiente else t3;
    var t5 := if t4 > TempMaxima then TempMaxima else t4;
    g.(temperatura := t5)
  }

  const HeatNote: string := ">>> AQUECENDO +5C "
  const CoolNote: string := ">>> RESFRIANDO -8C "
  const LossNote: string := ">>> PERDA NATURAL -1C "

  /** What `simular_temperatura` prints, with no line ending, for the actuators it finds:
      a message for the heater, one for the fan, and one for the natural loss when
      neither runs and the furnace is above ambient. */
  function Narration(g: Globals): string {
    Notes(g.macarico, g.ventilador, !g.macarico && !g.ventilador && g.temperatura > TempAmbiente)
  }

  /** The messages printed, in order, when the heating, cooling and loss branches print. */
  function Notes(heat: bool, cool: bool, loss: bool): string {
    (if heat then HeatNote else "") + (if cool then CoolNote else "") + (if loss then LossNote else "")
  }

  /** The state part of one `loop()` pass. */
  function Pass(g: Globals): Globals {
    Simulate(Control(Check(g)))
  }

  /** The state after `n` passes of `step` (the firmware runs `Iterate(Pass, Initial, n)`). */
  function Iterate(step: Globals -> Globals, g: Globals, n: nat): Globals {
    if n == 0 then g else step(Iterate(step, g, n - 1))
  }

  // ---------------------------------------------------------------- the status line

  function OnOff(b: bool): string {
    if b then "ON" else "OFF"
  }

  /** The phrase `exibir_status` prints for the current actuators. */
  function Phrase(g: Globals): string {
    if g.interrupcao then "*** INTERRUPCAO CRITICA ***"
    else if g.macarico then "AQUECENDO (+5C)"
    else if g.ventilador then "RESFRIANDO (-8C)"
    else "MANTENDO (-1C)"
  }

  const AlarmBanner: string := " *** ALARME ***"

  /** The part of the status line before the alarm tag. */
  function Head(temp: string, sp: string, g: Globals): string {
    "TEMP: " + temp + "C | SP: " + sp + "C | " + Phrase(g)
    + " | M:" + OnOff(g.macarico) + " V:" + OnOff(g.ventilador)
  }

  function AlarmTag(alarme: bool): string {
    " A:" + OnOff(alarme)
  }

  /** The banner `exibir_status` appends while 1600 <= temperature < 1750. */
  function Banner(g: Globals): string {
    if TempAlarme <= g.temperatura < TempCritica then AlarmBanner else ""
  }

  /** The line `exibir_status` prints around the rendered temperature and set-point,
      without the line ending `println` adds. */
  function Render(temp: string, sp: string, g: Globals): string {
    Head(temp, sp, g) + AlarmTag(g.alarme) + Banner(g)
  }

  /** The status line: the temperature with one decimal, the set-point with none. */
  function StatusLine(g: Globals): string {
    Render(PrintFloat1(g.temperatura as real), PrintFloat0(TempSetpoint as real), g)
  }

  /** The line one `loop()` pass from `g` ends with `println`: the simulation's messages,
      then the status of the state the pass reaches. */
  function PassLine(g: Globals): string {
    Narration(Control(Check(g))) + StatusLine(Pass(g))
  }

  // ---------------------------------------------------------------- the firmware

  class GoodFirmware {
    var temperaturaAtual: int
    var sistemaAtivo: bool
    var alarmeAtivo: bool
    var interrupcaoCritica: bool
    var macaricoLigado: bool
    var ventiladorLigado: bool
    var pinMacarico: bool
    var pinVentilador: bool
    var pinAlarme: bool
    /** The status lines printed so far, oldest first, each with the text printed
        before it on the same line. */
    var statusLines: seq<string>
    /** What has been printed since the last status line, with no line ending yet. */
    var pending: string

    function Model(): Globals
      reads this`temperaturaAtual, this`sistemaAtivo, this`alarmeAtivo, this`interrupcaoCritica
      reads this`macaricoLigado, this`ventiladorLigado, this`pinMacarico, this`pinVentilador
      reads this`pinAlarme
    {
      Globals(temperaturaAtual, sistemaAtivo, alarmeAtivo, interrupcaoCritica, macaricoLigado,
              ventiladorLigado, pinMacarico, pinVentilador, pinAlarme)
    }

    /** The global initialisers followed by `setup()`. */
    constructor ()
      ensures Model() == Initial && statusLines == [] && pending == ""
    {
      temperaturaAtual := TempInicial;
      sistemaAtivo := true;
      alarmeAtivo := false;
      interrupcaoCritica := false;
      macaricoLigado := false;
      ventiladorLigado := false;
      pinMacarico := false;
      pinVentilador := false;
      pinAlarme := false;
      statusLines := [];
      pending := "";
    }

    method VerificarTemperaturaCritica()
      modifies this
      ensures Model() == Check(old(Model()))
      ensures statusLines == old(statusLines) && pending == old(pending)
    {
      if temperaturaAtual >= TempCritica && !interrupcaoCritica {
        interrupcaoCritica := true;
        sistemaAtivo := false;
      }
      if interrupcaoCritica && temperaturaAtual <= TempSetpoint {
        interrupcaoCritica := false;
        sistemaAtivo := true;
        alarmeAtivo := false;
      }
      if !interrupcaoCritica && temperaturaAtual >= TempAlarme && !alarmeAtivo {
        alarmeAtivo := true;
        pinAlarme := true;
      }
      if !interrupcaoCritica && temperaturaAtual < TempAlarme && alarmeAtivo {
        alarmeAtivo := false;
        pinAlarme := false;
      }
      if interrupcaoCritica {
        pinAlarme := true;
      }
    }

    method ControlarTemperatura()
      modifies this
      ensures Model() == Control(old(Model()))
      ensures statusLines == old(statusLines) && pending == old(pending)
    {
      if interrupcaoCritica {
        macaricoLigado := false;
        ventiladorLigado := true;
        pinMacarico := false;
        pinVentilador := true;
        return;
      }
      if sistemaAtivo {
        macaricoLigado := true;
        ventiladorLigado := false;
        pinMacarico := true;
        pinVentilador := false;
      } else {
        macaricoLigado := false;
        ventiladorLigado := false;
        pinMacarico := false;
        pinVentilador := false;
      }
    }

    method SimularTemperatura()
      modifies this
      ensures Model() == Simulate(old(Model()))
      ensures statusLines == old(statusLines) && pending == old(pending) + Narration(old(Model()))
    {
      // The branches of the source, on a local copy of the temperature; `heat`, `cool`
      // and `loss` say which of them print their message.
      var t := temperaturaAtual;
      var heat, cool, loss := false, false, false;
      if macaricoLigado {
        t := t + IncrementoTemp;
        heat := true;
      }
      if ventiladorLigado {
        t := t - DecrementoTemp;
        cool := true;
      }
      if !macaricoLigado && t > TempAmbiente {
        t := t - PerdaNatural;
        if !ventiladorLigado {
          loss := true;
        }
      }
      if t < TempAmbiente { t := TempAmbiente; }
      if t > TempMaxima { t := TempMaxima; }
      temperaturaAtual := t;
      pending := pending + Notes(heat, cool, loss);
    }

    method ExibirStatus()
      modifies this`statusLines, this`pending
      ensures Model() == old(Model())
      ensures statusLines == old(statusLines) + [old(pending) + StatusLine(old(Model()))]
      ensures pending == ""
    {
      var line := StatusText();
      statusLines := statusLines + [pending + line];
      pending := "";
    }

    /** The text `exibir_status` prints, piece by piece, before `println` ends it. */
    method StatusText() returns (line: string)
      ensures line == StatusLine(Model())
    {
      ghost var g := Model();
      var temp := PrintFloat1(temperaturaAtual as real);
      var sp := PrintFloat0(TempSetpoint as real);
      var phrase: string;
      if interrupcaoCritica {
        phrase := "*** INTERRUPCAO CRITICA ***";
        assert phrase == Phrase(g);
      } else if macaricoLigado {
        phrase := "AQUECENDO (+5C)";
        assert phrase == Phrase(g);
      } else if ventiladorLigado {
        phrase := "RESFRIANDO (-8C)";
        assert phrase == Phrase(g);
      } else {
        phrase := "MANTENDO (-1C)";
        assert phrase == Phrase(g);
      }
      var banner: string := "";
      if temperaturaAtual >= TempAlarme && temperaturaAtual < TempCritica {
        banner := AlarmBanner;
      }
      assert banner == Banner(g);
      line := "TEMP: " + temp + "C | SP: " + sp + "C | " + phrase
              + " | M:" + OnOff(macaricoLigado) + " V:" + OnOff(ventiladorLigado);
      assert line == Head(temp, sp, g);
      line := line + AlarmTag(alarmeAtivo) + banner;
    }

    /** One `loop()` pass; the one-second delay is not modelled. */
    method Loop()
      modifies this
      ensures Model() == Pass(old(Model()))
      ensures statusLines == old(statusLines) + [old(pending) + PassLine(old(Model()))]
      ensures pending == ""
    {
      ghost var g := Model();
      ghost var start := pending;
      VerificarTemperaturaCritica();
      ControlarTemperatura();
      SimularTemperatura();
      ExibirStatus();
      Text.Associative(start, Narration(Control(Check(g))), StatusLine(Pass(g)));
    }
  }

  // ---------------------------------------------------------------- properties

  /** The critical check's interlock: on afterwards when it was on or the temperature
      reached 1750, unless the temperature is at most 1500; the system is restored on
      release, stopped on engagement and otherwise left as it was. */
  lemma CheckInterlock(g: Globals)
    ensures var r := Check(g); var t := g.temperatura;
      && r.interrupcao == ((g.interrupcao || t >= TempCritica) && !(t <= TempSetpoint))
      && r.ativo == (if (g.interrupcao || t >= TempCritica) && t <= TempSetpoint then true
                     else if !g.interrupcao && t >= TempCritica then false
                     else g.ativo)
  {
    var t := g.temperatura;
    if g.interrupcao && t <= TempSetpoint {
      assert Engage(g) == g;
    } else if g.interrupcao {
      assert Release(Engage(g)) == g;
    } else if t >= TempCritica {
      var e := Engage(g);
      assert Release(e) == e;
    } else {
      assert Release(Engage(g)) == g;
    }
  }

  /** The critical check's alarm: outside the interlock the flag is exactly
      `temperature >= 1600`; under it the flag is left as it was and only the pin is
      driven HIGH. The temperature and the actuators are not touched. */
  lemma CheckAlarm(g: Globals)
    ensures var r := Check(g);
      && (!r.interrupcao ==> r.alarme == (g.temperatura >= TempAlarme))
      && (r.interrupcao ==> r.alarme == g.alarme && r.pinAlarme)
      && r.temperatura == g.temperatura && r.macarico == g.macarico
      && r.ventilador == g.ventilador
      && r.pinMacarico == g.pinMacarico && r.pinVentilador == g.pinVentilador
  {
    var t := g.temperatura;
    if g.interrupcao && t <= TempSetpoint {
      var r := Release(g);
      assert Engage(g) == g && !r.alarme;
      assert AlarmOn(r) == r && AlarmOff(r) == r && HoldPin(r) == r;
    } else if g.interrupcao {
      assert Release(Engage(g)) == g && AlarmOn(g) == g && AlarmOff(g) == g;
    } else if t >= TempCritica {
      var e := Engage(g);
      assert Release(e) == e && AlarmOn(e) == e && AlarmOff(e) == e;
    } else {
      assert Release(Engage(g)) == g;
    }
  }

  /** The check keeps the system active exactly when the interlock is off. */
  lemma CheckKeepsActive(g: Globals)
    requires g.ativo == !g.interrupcao
    ensures Check(g).ativo == !Check(g).interrupcao
  {
    CheckInterlock(g);
  }

  /** Release leaves the alarm pin as it was while it clears the alarm flag: the pin
      is written LOW only when a set flag is cleared. */
  lemma ReleaseKeepsPin(g: Globals)
    requires g.interrupcao && g.temperatura <= TempSetpoint
    ensures var r := Check(g);
      !r.interrupcao && r.ativo && !r.alarme && r.pinAlarme == g.pinAlarme
  {
  }

  /** Control: fan only under interlock, heater only when active, both off otherwise;
      the pins follow the flags and nothing else changes. */
  lemma ControlSpec(g: Globals)
    ensures var r := Control(g);
      && !(r.macarico && r.ventilador)
      && r.ventilador == g.interrupcao
      && r.macarico == (!g.interrupcao && g.ativo)
      && r.pinMacarico == r.macarico && r.pinVentilador == r.ventilador
      && r.(macarico := g.macarico, ventilador := g.ventilador,
            pinMacarico := g.pinMacarico, pinVentilador := g.pinVentilador) == g
  {
  }

  /** The thermal simulation stays within [25, 1800] and changes nothing else. */
  lemma SimulateBounds(g: Globals)
    ensures TempAmbiente <= Simulate(g).temperatura <= TempMaxima
    ensures Simulate(g).(temperatura := g.temperatura) == g
  {
  }

  /** The thermal simulation by actuator state: +5 heating, -8 and -1 cooling,
      -1 idle, each clamped to the limits. */
  lemma SimulateCases(g: Globals)
    requires TempAmbiente <= g.temperatura <= TempMaxima
    ensures var t := g.temperatura; var r := Simulate(g).temperatura;
      && (g.macarico && !g.ventilador ==> r == if t + 5 > TempMaxima then TempMaxima else t + 5)
      && (!g.macarico && g.ventilador ==> r == if t - 9 < TempAmbiente then TempAmbiente else t - 9)
      && (!g.macarico && !g.ventilador ==> r == if t - 1 < TempAmbiente then TempAmbiente else t - 1)
      && (g.macarico && g.ventilador ==> r == if t - 3 < TempAmbiente then TempAmbiente else t - 3)
  {
  }

  /** The invariant of every state `loop()` reaches: active exactly without interlock;
      under interlock the alarm flag and pin are on; otherwise the flag says whether
      the last check saw 1600, which the heating step has since raised by 5; a set flag
      has its pin HIGH; the actuator pins follow their flags; heater and fan exclusive;
      the temperature within its limits. */
  predicate Reachable(g: Globals) {
    && g.ativo == !g.interrupcao
    && (g.interrupcao ==> g.alarme && g.pinAlarme)
    && (!g.interrupcao ==> (g.alarme <==> g.temperatura >= TempAlarme + IncrementoTemp))
    && (g.alarme ==> g.pinAlarme)
    && g.pinMacarico == g.macarico && g.pinVentilador == g.ventilador
    && !(g.macarico && g.ventilador)
    && TempAmbiente <= g.temperatura <= TempMaxima
  }

  lemma InitialReachable()
    ensures Reachable(Initial)
  {
  }

  /** Every pass keeps the invariant, so on every reachable state the interlock
      implies the alarm flag even though the check never forces it. */
  lemma PassReachable(g: Globals)
    requires Reachable(g)
    ensures Reachable(Pass(g))
  {
    CheckInterlock(g);
    CheckAlarm(g);
    var c := Check(g);
    ControlSpec(c);
    SimulateCases(Control(c));
    SimulateBounds(Control(c));
  }

  /** The status phrase follows the priority interlock > heating > cooling > maintaining. */
  lemma PhrasePriority(g: Globals)
    ensures Phrase(g) == "*** INTERRUPCAO CRITICA ***" <==> g.interrupcao
    ensures Phrase(g) == "AQUECENDO (+5C)" <==> !g.interrupcao && g.macarico
    ensures Phrase(g) == "RESFRIANDO (-8C)" <==> !g.interrupcao && !g.macarico && g.ventilador
    ensures Phrase(g) == "MANTENDO (-1C)" <==> !g.interrupcao && !g.macarico && !g.ventilador
  {
  }

  /** The status line ends in the alarm banner exactly when 1600 <= temperature < 1750;
      otherwise it ends with the alarm flag's ` A:ON` or ` A:OFF`. */
  lemma StatusBannerIff(temp: string, sp: string, g: Globals)
    ensures var line := Render(temp, sp, g);
      |line| >= |AlarmBanner| &&
      (line[|line| - |AlarmBanner|..] == AlarmBanner <==>
         TempAlarme <= g.temperatura < TempCritica)
    ensures !(TempAlarme <= g.temperatura < TempCritica) ==>
      var line := Render(temp, sp, g); var a := AlarmTag(g.alarme);
      |line| >= |a| && line[|line| - |a|..] == a
  {
    var line := Render(temp, sp, g);
    var h := Head(temp, sp, g);
    var a := AlarmTag(g.alarme);
    if TempAlarme <= g.temperatura < TempCritica {
      assert line == (h + a) + AlarmBanner;
      assert line[|h + a|..] == AlarmBanner;
    } else {
      assert line == h + a;
      assert line[|h|..] == a;
      assert line[|line| - 1] == a[|a| - 1];
    }
  }

  /** `print(1500.0, 0)` writes `1500`. */
  lemma SetpointText()
    ensures PrintFloat0(TempSetpoint as real) == "1500"
  {
    PrintWholeNumber0(TempSetpoint);
    assert NatToString(1) == "1";
    assert NatToString(15) == NatToString(1) + "5";
    assert NatToString(150) == NatToString(15) + "0";
    assert NatToString(1500) == NatToString(150) + "0";
  }

  /** With a whole temperature in range the line reads `TEMP: <digits>.0C | SP: 1500C | ...`. */
  lemma StatusLineDigits(g: Globals)
    requires TempAmbiente <= g.temperatura <= TempMaxima
    ensures StatusLine(g) == Render(NatToString(g.temperatura) + ".0", "1500", g)
  {
    PrintWholeNumber(g.temperatura);
    SetpointText();
  }

  /** `s` holds none of the characters the back end splits on: `\n` between lines,
      `;` between fields and `=` within one. */
  predicate NoFieldChars(s: string) {
    forall i :: 0 <= i < |s| ==> s[i] != '=' && s[i] != ';' && s[i] != '\n'
  }

  lemma NoFieldCharsConcat(a: string, b: string)
    requires NoFieldChars(a) && NoFieldChars(b)
    ensures NoFieldChars(a + b)
  {
    assert forall i :: |a| <= i < |a + b| ==> (a + b)[i] == b[i - |a|];
  }

  /** The literal pieces of the status line. */
  lemma PiecesNoFields()
    ensures NoFieldChars("*** INTERRUPCAO CRITICA ***") && NoFieldChars("AQUECENDO (+5C)")
    ensures NoFieldChars("RESFRIANDO (-8C)") && NoFieldChars("MANTENDO (-1C)")
    ensures NoFieldChars("TEMP: ") && NoFieldChars("C | SP: ") && NoFieldChars("C | ")
    ensures NoFieldChars(" | M:") && NoFieldChars(" V:") && NoFieldChars(" A:")
    ensures NoFieldChars("ON") && NoFieldChars("OFF") && NoFieldChars(AlarmBanner)
  {
  }

  lemma PhraseNoFields(g: Globals)
    ensures NoFieldChars(Phrase(g)) && NoFieldChars(OnOff(g.macarico))
    ensures NoFieldChars(OnOff(g.ventilador)) && NoFieldChars(Banner(g))
    ensures NoFieldChars(AlarmTag(g.alarme))
  {
    PiecesNoFields();
    NoFieldCharsConcat(" A:", OnOff(g.alarme));
  }

  /** The fixed parts of the status line hold no `=` and no `;`. */
  lemma RenderNoFields(temp: string, sp: string, g: Globals)
    requires NoFieldChars(temp) && NoFieldChars(sp)
    ensures NoFieldChars(Render(temp, sp, g))
  {
    PhraseNoFields(g);
    PiecesNoFields();
    var s1 := "TEMP: " + temp;
    NoFieldCharsConcat("TEMP: ", temp);
    NoFieldCharsConcat(s1, "C | SP: ");
    NoFieldCharsConcat(s1 + "C | SP: ", sp);
    var s2 := s1 + "C | SP: " + sp;
    NoFieldCharsConcat(s2, "C | ");
    NoFieldCharsConcat(s2 + "C | ", Phrase(g));
    var s3 := s2 + "C | " + Phrase(g);
    NoFieldCharsConcat(s3, " | M:");
    NoFieldCharsConcat(s3 + " | M:", OnOff(g.macarico));
    var s4 := s3 + " | M:" + OnOff(g.macarico);
    NoFieldCharsConcat(s4, " V:");
    NoFieldCharsConcat(s4 + " V:", OnOff(g.ventilador));
    var h := Head(temp, sp, g);
    NoFieldCharsConcat(h, AlarmTag(g.alarme));
    NoFieldCharsConcat(h + AlarmTag(g.alarme), Banner(g));
  }

  /** The status line holds no `=`, no `;` and no `\n`: it is one line and carries no
      key=value field. */
  lemma StatusLineNoFields(g: Globals)
    ensures NoFieldChars(StatusLine(g)) && StatusLine(g)[0] == 'T'
    ensures '=' !in StatusLine(g) && ';' !in StatusLine(g) && '\n' !in StatusLine(g)
  {
    var p := PrintFloat1(g.temperatura as real);
    var q := PrintFloat0(TempSetpoint as real);
    PrintFloat1Chars(g.temperatura as real);
    PrintFloat0Chars(TempSetpoint as real);
    RenderNoFields(p, q, g);
    var line := StatusLine(g);
    assert forall i :: 0 <= i < |line| ==> line[i] != '=' && line[i] != ';' && line[i] != '\n';
  }

  /** On every reachable state the simulation announces the heater, or under interlock
      the fan, in step with the status phrase that follows it; the natural-loss message
      is never printed, since a reachable state always runs one of the two. */
  lemma PassNarration(g: Globals)
    requires Reachable(g)
    ensures var c := Control(Check(g));
      Narration(c) == if Check(g).interrupcao then CoolNote else HeatNote
    ensures Narration(Control(Check(g))) == CoolNote <==>
      Phrase(Pass(g)) == "*** INTERRUPCAO CRITICA ***"
    ensures Narration(Control(Check(g))) == HeatNote <==> Phrase(Pass(g)) == "AQUECENDO (+5C)"
  {
    var c := Check(g);
    CheckKeepsActive(g);
    ControlSpec(c);
    PhrasePriority(Pass(g));
  }

  /** The messages hold none of the characters the back end splits on, and each
      begins with `>`. */
  lemma NarrationNoFields(g: Globals)
    ensures NoFieldChars(Narration(g))
    ensures Narration(g) != [] ==> Narration(g)[0] == '>'
  {
    var h := if g.macarico then HeatNote else "";
    var v := if g.ventilador then CoolNote else "";
    var l := if !g.macarico && !g.ventilador && g.temperatura > TempAmbiente
             then LossNote else "";
    NoFieldCharsConcat(h, v);
    NoFieldCharsConcat(h + v, l);
  }

  lemma NoFieldCharsAbsent(s: string)
    requires NoFieldChars(s)
    ensures '=' !in s && ';' !in s && '\n' !in s
  {
  }

  /** The line a pass prints is one line, not blank, with no `=` and no `;`: the
      messages in front of the status hold none either. */
  lemma PassLineNoFields(g: Globals)
    ensures var line := PassLine(g);
      && '=' !in line && ';' !in line && '\n' !in line
      && |line| > 0 && (line[0] == '>' || line[0] == 'T')
  {
    var n := Narration(Control(Check(g)));
    var status := StatusLine(Pass(g));
    NarrationNoFields(Control(Check(g)));
    StatusLineNoFields(Pass(g));
    NoFieldCharsConcat(n, status);
    NoFieldCharsAbsent(n + status);
    assert (n + status)[0] == if n == [] then status[0] else n[0];
  }

  // ---------------------------------------------------------------- the run from start-up

  /** The globals after `k` heating passes from start-up, for `k <= 70`. */
  function Heating(k: nat): Globals {
    Globals(TempInicial + 5 * k, true, k >= 41, false, k > 0, false, k > 0, false, k >= 41)
  }

  /** The globals after the `m`-th cooling pass under interlock, for `1 <= m <= 28`. */
  function Cooling(m: nat): Globals {
    Globals(TempCritica - 9 * m, false, true, true, false, true, false, true, true)
  }

  /** From start-up the firmware heats by 5 per pass; the 41st pass sees 1600 and
      raises the alarm. */
  lemma {:induction false} HeatingRun(k: nat)
    requires k <= 70
    ensures Iterate(Pass, Initial, k) == Heating(k)
  {
    if k > 0 {
      HeatingRun(k - 1);
      assert Pass(Heating(k - 1)) == Heating(k);
    }
  }

  /** The 71st pass sees 1750: the interlock engages and the fan cools by 9 per pass
      (8 by the fan, 1 of natural loss). */
  lemma {:induction false} CoolingRun(m: nat)
    requires 1 <= m <= 28
    ensures Iterate(Pass, Initial, 70 + m) == Cooling(m)
  {
    if m == 1 {
      HeatingRun(70);
      InterlockStep();
    } else {
      CoolingRun(m - 1);
      CoolingStep(m - 1);
    }
  }

  /** The 71st pass: the check engages the interlock, control runs the fan alone. */
  lemma InterlockStep()
    ensures Pass(Heating(70)) == Cooling(1)
  {
    var c := Check(Heating(70));
    assert c == Heating(70).(interrupcao := true, ativo := false);
    assert Control(c) == Cooling(1).(temperatura := TempCritica);
  }

  /** One cooling pass under interlock, above the set-point. */
  lemma CoolingStep(m: nat)
    requires 1 <= m < 28
    ensures Pass(Cooling(m)) == Cooling(m + 1)
  {
    assert Check(Cooling(m)) == Cooling(m);
    assert Control(Cooling(m)) == Cooling(m);
  }

  /** `print(1405.0, 1)` writes `1405.0`. */
  lemma FirstTemperatureText()
    ensures PrintFloat1(1405 as real) == "1405.0"
  {
    PrintWholeNumber(1405);
    assert NatToString(1) == "1";
    assert NatToString(14) == NatToString(1) + "4";
    assert NatToString(140) == NatToString(14) + "0";
    assert NatToString(1405) == NatToString(140) + "5";
  }

  /** The first line the firmware prints after its banner: the heating message, then
      the status of the first pass, 1405 degrees, on the same line. */
  lemma FirstLine()
    ensures PassLine(Initial) == HeatNote + Render("1405.0", "1500", Heating(1))
  {
    assert Pass(Initial) == Heating(1);
    assert Narration(Control(Check(Initial))) == HeatNote;
    assert Heating(1).temperatura == 1405;
    FirstTemperatureText();
    SetpointText();
  }

  /** The globals after the 99th pass. */
  const Released: Globals := Globals(1503, true, false, false, true, false, true, false, true)

  /** The 99th pass sees 1498, releases the interlock and heats again; the alarm flag
      is then off while the alarm pin stays HIGH. */
  lemma ReleaseRun()
    ensures Iterate(Pass, Initial, 99) == Released
    ensures Released.macarico && !Released.alarme && Released.pinAlarme
  {
    CoolingRun(28);
    assert Pass(Cooling(28)) == Released;
  }
}
