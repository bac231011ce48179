/** The colour rules and update guards of the SCADA dashboard: the gauge and state
    colours and the 100-point trend window of `ScadaCharts`, and the temperature chart
    of `ScadaChart`. Plotly and the document are not modelled; a plot is the data its
    traces hold, and a JavaScript number is a `real`. */
module Dashboard {
  import opened Wrappers
  import opened Text
  import opened SimulatedFurnace

  // ---------------------------------------------------------------- gauge colour

  const GaugeCritical := "#ff3366"
  const GaugeAlarm := "#ff9500"
  const GaugeNormal := "#00ff88"
  const GaugeHeating := "#00d4ff"

  /** `getGaugeColor`: the first band whose lower bound the temperature reaches. */
  function GaugeColor(temperature: real): string {
    if temperature >= 1750.0 then GaugeCritical
    else if temperature >= 1600.0 then GaugeAlarm
    else if temperature >= 1400.0 then GaugeNormal
    else GaugeHeating
  }

  /** How severe a gauge colour is, from heating up (0) to critical (3). */
  function GaugeSeverity(color: string): nat {
    if color == GaugeCritical then 3
    else if color == GaugeAlarm then 2
    else if color == GaugeNormal then 1
    else 0
  }

  /** The four gauge colours differ from one another. */
  lemma GaugeColorsDistinct()
    ensures GaugeCritical != GaugeAlarm && GaugeCritical != GaugeNormal
    ensures GaugeCritical != GaugeHeating && GaugeAlarm != GaugeNormal
    ensures GaugeAlarm != GaugeHeating && GaugeNormal != GaugeHeating
  {
    assert GaugeCritical[3] != GaugeAlarm[3] && GaugeNormal[3] != GaugeHeating[3];
    assert GaugeCritical[1] != GaugeNormal[1] && GaugeCritical[1] != GaugeHeating[1];
    assert GaugeAlarm[1] != GaugeNormal[1] && GaugeAlarm[1] != GaugeHeating[1];
  }

  /** Each colour is shown exactly on its band: 1750 and above, [1600, 1750),
      [1400, 1600) and below 1400. */
  lemma GaugeBands(temperature: real)
    ensures GaugeColor(temperature) == GaugeCritical <==> temperature >= 1750.0
    ensures GaugeColor(temperature) == GaugeAlarm <==> 1600.0 <= temperature < 1750.0
    ensures GaugeColor(temperature) == GaugeNormal <==> 1400.0 <= temperature < 1600.0
    ensures GaugeColor(temperature) == GaugeHeating <==> temperature < 1400.0
  {
    GaugeColorsDistinct();
  }

  /** A hotter reading never shows a less severe colour. */
  lemma GaugeMonotone(t1: real, t2: real)
    requires t1 <= t2
    ensures GaugeSeverity(GaugeColor(t1)) <= GaugeSeverity(GaugeColor(t2))
  {
    GaugeColorsDistinct();
  }

  // ---------------------------------------------------------------- state colour

  const StateCritical := "#ff3366"
  const StateAlarm := "#ff9500"
  const StateRunning := "#00ff88"
  const StateCooling := "#00d4ff"
  const StateDefault := "#607d8b"

  /** One of two words occurs in `l`. */
  predicate Mentions(l: string, a: string, b: string) {
    Contains(l, a) || Contains(l, b)
  }

  /** `getStateColor`: the label is lower-cased, then looked up word by word in order
      of priority. */
  function StateColor(state: string): string {
    LowerStateColor(ToLowerCase(state))
  }

  /** The word lookup of `getStateColor`, on the lower-cased label. */
  function LowerStateColor(l: string): string {
    if Mentions(l, "critica", "emergency") then StateCritical
    else if Mentions(l, "alarme", "warning") then StateAlarm
    else if Mentions(l, "aquecendo", "heating") then StateRunning
    else if Mentions(l, "resfriando", "cooling") then StateCooling
    else if Mentions(l, "mantendo", "normal") then StateRunning
    else StateDefault
  }

  /** The four state colours differ from one another. */
  lemma StateColorsDistinct()
    ensures StateCritical != StateAlarm && StateCritical != StateRunning
    ensures StateCritical != StateCooling && StateCritical != StateDefault
    ensures StateAlarm != StateRunning && StateAlarm != StateCooling
    ensures StateAlarm != StateDefault && StateRunning != StateCooling
    ensures StateRunning != StateDefault && StateCooling != StateDefault
  {
    assert StateCritical[3] != StateAlarm[3] && StateRunning[3] != StateCooling[3];
    assert StateCritical[1] != StateRunning[1] && StateCritical[1] != StateCooling[1];
    assert StateAlarm[1] != StateRunning[1] && StateAlarm[1] != StateCooling[1];
    assert StateCritical[1] != StateDefault[1] && StateAlarm[1] != StateDefault[1];
    assert StateRunning[1] != StateDefault[1] && StateCooling[1] != StateDefault[1];
  }

  /** The priority order, as one condition per colour: an emergency outranks an alarm,
      an alarm outranks heating, heating outranks cooling and cooling outranks holding;
      a label with none of the words is grey. */
  lemma StatePriority(state: string)
    ensures var l := ToLowerCase(state);
      var critical := Mentions(l, "critica", "emergency");
      var alarm := Mentions(l, "alarme", "warning");
      var heating := Mentions(l, "aquecendo", "heating");
      var cooling := Mentions(l, "resfriando", "cooling");
      var holding := Mentions(l, "mantendo", "normal");
      && (StateColor(state) == StateCritical <==> critical)
      && (StateColor(state) == StateAlarm <==> !critical && alarm)
      && (StateColor(state) == StateRunning <==>
            !critical && !alarm && (heating || (!cooling && holding)))
      && (StateColor(state) == StateCooling <==> !critical && !alarm && !heating && cooling)
      && (StateColor(state) == StateDefault <==>
            !critical && !alarm && !heating && !cooling && !holding)
  {
    StateColorsDistinct();
  }

  /** Case does not matter: a label and its lower-cased form have the same colour. */
  lemma StateColorIgnoresCase(state: string)
    ensures StateColor(ToLowerCase(state)) == StateColor(state)
  {
    LowerIdempotent(state);
  }

  /** A word holding a character that the label lacks does not occur in the label. */
  lemma {:induction false} AbsentChar(s: string, sub: string, c: char)
    requires c in sub && c !in s
    ensures !Contains(s, sub)
    decreases |s|
  {
    if |s| > 0 {
      assert c !in s[1..] by {
        assert forall j :: 0 <= j < |s| - 1 ==> s[1..][j] == s[j + 1];
      }
      AbsentChar(s[1..], sub, c);
    }
  }

  /** A word that starts the label occurs in it. */
  lemma StartsWith(s: string, sub: string)
    requires sub <= s
    ensures Contains(s, sub)
  {
  }

  lemma LowerCritical()
    ensures ToLowerCase("INTERRUPCAO CRITICA") == "interrupcao critica"
  {
  }

  lemma LowerAlarmHeating()
    ensures ToLowerCase("ALARME - AQUECENDO") == "alarme - aquecendo"
  {
  }

  lemma LowerHeating()
    ensures ToLowerCase("AQUECENDO") == "aquecendo"
  {
  }

  lemma LowerCooling()
    ensures ToLowerCase("RESFRIANDO") == "resfriando"
  {
  }

  lemma LowerIdle()
    ensures ToLowerCase("INATIVO") == "inativo"
  {
  }

  lemma LowerHolding()
    ensures ToLowerCase("MANTENDO") == "mantendo"
  {
  }

  /** The critical interlock label is red. */
  lemma CriticalLabelColor(name: string)
    requires name == "INTERRUPCAO CRITICA"
    ensures StateColor(name) == StateCritical
  {
    LowerCritical();
    var l := ToLowerCase(name);
    assert l == "interrupcao critica";
    assert l[12..19] == "critica";
    assert OccursAt(l, "critica", 12);
    ContainsAt(l, "critica");
    assert Mentions(l, "critica", "emergency");
  }

  lemma AlarmHeatingText(l: string)
    requires 'i' !in l && 'y' !in l
    requires "alarme" <= l
    ensures LowerStateColor(l) == StateAlarm
  {
    AbsentChar(l, "critica", 'i');
    AbsentChar(l, "emergency", 'y');
    StartsWith(l, "alarme");
  }

  /** Heating with the alarm on is orange, not green: the alarm word outranks the
      heating word. */
  lemma AlarmHeatingLabelColor(name: string)
    requires name == "ALARME - AQUECENDO"
    ensures StateColor(name) == StateAlarm
  {
    LowerAlarmHeating();
    AlarmHeatingText(ToLowerCase(name));
  }

  lemma HeatingText(l: string)
    requires 'i' !in l && 'y' !in l && 'l' !in l && 'w' !in l
    requires "aquecendo" <= l
    ensures LowerStateColor(l) == StateRunning
  {
    AbsentChar(l, "critica", 'i');
    AbsentChar(l, "emergency", 'y');
    AbsentChar(l, "alarme", 'l');
    AbsentChar(l, "warning", 'w');
    StartsWith(l, "aquecendo");
  }

  /** The heating label is green. */
  lemma HeatingLabelColor(name: string)
    requires name == "AQUECENDO"
    ensures StateColor(name) == StateRunning
  {
    LowerHeating();
    HeatingText(ToLowerCase(name));
  }

  lemma CoolingText(l: string)
    requires 'c' !in l && 'm' !in l && 'l' !in l && 'w' !in l && 'q' !in l && 'h' !in l
    requires "resfriando" <= l
    ensures LowerStateColor(l) == StateCooling
  {
    AbsentChar(l, "critica", 'c');
    AbsentChar(l, "emergency", 'm');
    AbsentChar(l, "alarme", 'l');
    AbsentChar(l, "warning", 'w');
    AbsentChar(l, "aquecendo", 'q');
    AbsentChar(l, "heating", 'h');
    StartsWith(l, "resfriando");
  }

  /** The cooling label is blue. */
  lemma CoolingLabelColor(name: string)
    requires name == "RESFRIANDO"
    ensures StateColor(name) == StateCooling
  {
    LowerCooling();
    CoolingText(ToLowerCase(name));
  }

  lemma IdleText(l: string)
    requires 'c' !in l && 'e' !in l && 'l' !in l && 'w' !in l && 'q' !in l && 'h' !in l && 'r' !in l && 'm' !in l
    ensures LowerStateColor(l) == StateDefault
  {
    AbsentChar(l, "critica", 'c');
    AbsentChar(l, "emergency", 'e');
    AbsentChar(l, "alarme", 'l');
    AbsentChar(l, "warning", 'w');
    AbsentChar(l, "aquecendo", 'q');
    AbsentChar(l, "heating", 'h');
    AbsentChar(l, "resfriando", 'r');
    AbsentChar(l, "cooling", 'c');
    AbsentChar(l, "mantendo", 'm');
    AbsentChar(l, "normal", 'r');
  }

  /** The inactive label holds none of the words and is grey. */
  lemma IdleLabelColor(name: string)
    requires name == "INATIVO"
    ensures StateColor(name) == StateDefault
  {
    LowerIdle();
    IdleText(ToLowerCase(name));
  }

  lemma HoldingText(l: string)
    requires 'c' !in l && 'r' !in l && 'l' !in l && 'w' !in l && 'q' !in l && 'h' !in l
    requires "mantendo" <= l
    ensures LowerStateColor(l) == StateRunning
  {
    AbsentChar(l, "critica", 'c');
    AbsentChar(l, "emergency", 'r');
    AbsentChar(l, "alarme", 'l');
    AbsentChar(l, "warning", 'w');
    AbsentChar(l, "aquecendo", 'q');
    AbsentChar(l, "heating", 'h');
    AbsentChar(l, "resfriando", 'r');
    AbsentChar(l, "cooling", 'c');
    StartsWith(l, "mantendo");
  }

  /** The holding label is green. */
  lemma HoldingLabelColor(name: string)
    requires name == "MANTENDO"
    ensures StateColor(name) == StateRunning
  {
    LowerHolding();
    HoldingText(ToLowerCase(name));
  }

  /** The colour the state chart shows for each label the simulator publishes: red for
      the interlock, orange for an alarm while heating, green for heating and for
      holding, blue for cooling and grey when inactive. */
  lemma SimulatorLabelColors(f: Furnace)
    ensures StateColor(Label(f)) ==
      if f.interrupcao then StateCritical
      else if f.alarme && f.macarico then StateAlarm
      else if f.macarico then StateRunning
      else if f.ventilador then StateCooling
      else if !f.ativo then StateDefault
      else StateRunning
  {
    if f.interrupcao {
      CriticalLabelColor(Label(f));
    } else if f.alarme && f.macarico {
      AlarmHeatingLabelColor(Label(f));
    } else if f.macarico {
      HeatingLabelColor(Label(f));
    } else if f.ventilador {
      CoolingLabelColor(Label(f));
    } else if !f.ativo {
      IdleLabelColor(Label(f));
    } else {
      HoldingLabelColor(Label(f));
    }
  }

  /** No label a furnace in a safe state publishes is grey: an inactive furnace is in
      the interlock, and that label is red. */
  lemma SafeLabelsNotGrey(f: Furnace)
    requires Safe(f)
    ensures StateColor(Label(f)) != StateDefault
  {
    SimulatorLabelColors(f);
    StateColorsDistinct();
  }

  // ---------------------------------------------------------------- trend window

  /** The number of trend points the x-axis shows at most. */
  const TrendPoints := 100

  /** The trend chart: the time axis and the four traces (temperature, set-point, alarm
      and critical thresholds), and the x-range last set. */
  datatype Trend = Trend(
    x: seq<int>,
    temperature: seq<real>,
    setpoint: seq<real>,
    alarm: seq<real>,
    critical: seq<real>,
    range: Option<(int, int)>)

  /** The x-range `updateTrendChart` sets: the times of the points at `len - 100` and
      `len - 1`, once there are more than 100 points; otherwise none. */
  function TrendRange(x: seq<int>): Option<(int, int)> {
    if |x| > TrendPoints then Some((x[|x| - TrendPoints], x[|x| - 1])) else None
  }

  /** `updateTrendChart`: with no chart element, `initTrendChart` is called, and its
      `Plotly.newPlot` on an id no element has creates nothing, so the chart stays
      missing and the point is dropped; otherwise one point is appended to each trace
      and, past 100 points, the x-range is set to the last 100. */
  function UpdateTrend(chart: Option<Trend>, time: int, temperature: real, setpoint: real,
                       alarmTemp: real, criticalTemp: real): Option<Trend>
  {
    match chart
    case None => None
    case Some(tr) =>
      var x := tr.x + [time];
      Some(Trend(x, tr.temperature + [temperature], tr.setpoint + [setpoint],
                 tr.alarm + [alarmTemp], tr.critical + [criticalTemp],
                 if |x| > TrendPoints then TrendRange(x) else tr.range))
  }

  /** Past 100 points, the range runs from the first to the last of exactly the last
      100 points; when the times only grow, every one of those points lies in it and
      every earlier point lies at or before its start. */
  lemma {:induction false} TrendWindow(x: seq<int>)
    requires |x| > TrendPoints
    requires forall i, j :: 0 <= i <= j < |x| ==> x[i] <= x[j]
    ensures TrendRange(x).Some?
    ensures var (lo, hi) := TrendRange(x).value;
      && |x[|x| - TrendPoints..]| == TrendPoints
      && lo == x[|x| - TrendPoints..][0] && hi == x[|x| - TrendPoints..][TrendPoints - 1]
      && (forall i :: |x| - TrendPoints <= i < |x| ==> lo <= x[i] <= hi)
      && (forall i :: 0 <= i < |x| - TrendPoints ==> x[i] <= lo)
  {
  }

  /** An update keeps the traces the same length as the time axis, appends the new
      point at the end of each, and keeps every earlier point. */
  lemma TrendAppends(tr: Trend, time: int, temperature: real, setpoint: real,
                     alarmTemp: real, criticalTemp: real)
    requires |tr.temperature| == |tr.setpoint| == |tr.alarm| == |tr.critical| == |tr.x|
    ensures var tr' := UpdateTrend(Some(tr), time, temperature, setpoint, alarmTemp,
                                   criticalTemp).value;
      && |tr'.x| == |tr.x| + 1
      && |tr'.temperature| == |tr'.setpoint| == |tr'.alarm| == |tr'.critical| == |tr'.x|
      && tr'.x[..|tr.x|] == tr.x && tr'.temperature[..|tr.x|] == tr.temperature
      && tr'.x[|tr.x|] == time && tr'.temperature[|tr.x|] == temperature
      && tr'.setpoint[|tr.x|] == setpoint && tr'.alarm[|tr.x|] == alarmTemp
      && tr'.critical[|tr.x|] == criticalTemp
      && (|tr'.x| > TrendPoints ==> tr'.range == TrendRange(tr'.x))
      && (|tr'.x| <= TrendPoints ==> tr'.range == tr.range)
  {
    assert (tr.x + [time])[..|tr.x|] == tr.x;
    assert (tr.temperature + [temperature])[..|tr.x|] == tr.temperature;
  }

  /** The updates of a run of points, in order. */
  function UpdateTrendAll(chart: Option<Trend>, points: seq<(int, real, real, real, real)>)
    : Option<Trend>
    decreases |points|
  {
    if points == [] then chart
    else
      var (time, temperature, setpoint, alarmTemp, criticalTemp) := points[|points| - 1];
      UpdateTrend(UpdateTrendAll(chart, points[..|points| - 1]), time, temperature, setpoint,
                  alarmTemp, criticalTemp)
  }

  /** A missing chart element stays missing: however many points arrive, none is
      plotted and no chart appears. */
  lemma {:induction false} TrendMissing(points: seq<(int, real, real, real, real)>)
    ensures UpdateTrendAll(None, points) == None
    decreases |points|
  {
    if points != [] {
      TrendMissing(points[..|points| - 1]);
    }
  }

  /** An existing chart gets one point per update: the time axis grows by the number of
      points and ends with their times, in order. */
  lemma {:induction false} TrendGrows(tr: Trend, points: seq<(int, real, real, real, real)>)
    ensures UpdateTrendAll(Some(tr), points).Some?
    ensures UpdateTrendAll(Some(tr), points).value.x ==
            tr.x + seq(|points|, i requires 0 <= i < |points| => points[i].0)
    decreases |points|
  {
    if points != [] {
      var front := points[..|points| - 1];
      TrendGrows(tr, front);
      var times := seq(|points|, i requires 0 <= i < |points| => points[i].0);
      var frontTimes := seq(|front|, i requires 0 <= i < |front| => front[i].0);
      assert times == frontTimes + [points[|points| - 1].0];
    }
  }

  // ---------------------------------------------------------------- temperature chart

  const MarkerCritical := "#e74c3c"
  const MarkerAlarm := "#f39c12"
  const MarkerNormal := "#27ae60"

  /** The marker colour of one reading, in `updateTemperatureChart` and
      `addTemperaturePoint` alike. */
  function MarkerColor(temperature: real): string {
    if temperature >= 1800.0 then MarkerCritical
    else if temperature >= 1700.0 then MarkerAlarm
    else MarkerNormal
  }

  /** `temperatures.map(...)`: one marker colour per reading. */
  function Colors(temperatures: seq<real>): (r: seq<string>)
    ensures |r| == |temperatures|
    ensures forall i :: 0 <= i < |r| ==> r[i] == MarkerColor(temperatures[i])
  {
    if temperatures == [] then []
    else [MarkerColor(temperatures[0])] + Colors(temperatures[1..])
  }

  /** Each marker colour is shown exactly on its band. */
  lemma MarkerBands(temperature: real)
    ensures MarkerColor(temperature) == MarkerCritical <==> temperature >= 1800.0
    ensures MarkerColor(temperature) == MarkerAlarm <==> 1700.0 <= temperature < 1800.0
    ensures MarkerColor(temperature) == MarkerNormal <==> temperature < 1700.0
  {
    assert MarkerCritical[1] != MarkerAlarm[1] && MarkerCritical[1] != MarkerNormal[1];
    assert MarkerAlarm[1] != MarkerNormal[1];
  }

  /** Colouring readings in two parts gives the colours of the whole. */
  lemma {:induction false} ColorsConcat(a: seq<real>, b: seq<real>)
    ensures Colors(a + b) == Colors(a) + Colors(b)
  {
    var c := Colors(a + b);
    assert |c| == |Colors(a) + Colors(b)|;
    forall i | 0 <= i < |c|
      ensures c[i] == (Colors(a) + Colors(b))[i]
    {
      if i < |a| {
        assert (a + b)[i] == a[i];
      } else {
        assert (a + b)[i] == b[i - |a|];
      }
    }
  }

  /** The gauge and the chart do not share their thresholds: at 1760 the gauge is
      already critical while the chart marker is still the alarm colour. */
  lemma ThresholdsDiffer()
    ensures GaugeColor(1760.0) == GaugeCritical && MarkerColor(1760.0) == MarkerAlarm
    ensures forall t :: MarkerColor(t) == MarkerCritical ==> GaugeColor(t) == GaugeCritical
  {
    forall t | MarkerColor(t) == MarkerCritical
      ensures GaugeColor(t) == GaugeCritical
    {
      MarkerBands(t);
    }
  }

  /** The temperature chart's single trace and its x-range. */
  datatype Plot = Plot(x: seq<int>, y: seq<real>, markers: seq<string>,
                       range: Option<(int, int)>)

  /** `ScadaChart`: the id of the chart `initTemperatureChart` created, if any, and the
      plot it draws. */
  datatype ScadaChart = ScadaChart(currentChart: Option<string>, plot: Plot)

  /** `ScadaChart` before any chart is created. */
  const NoChart := ScadaChart(None, Plot([], [], [], None))

  /** `initTemperatureChart(id)`: an empty plot, remembered under `id`. */
  function InitTemperatureChart(id: string): ScadaChart {
    ScadaChart(Some(id), Plot([], [], [], None))
  }

  /** `!this.currentChart`: no id, or the empty id, which JavaScript takes as false. */
  predicate Initialised(c: ScadaChart) {
    c.currentChart.Some? && c.currentChart.value != ""
  }

  /** `updateTemperatureChart`: with missing or empty timestamps the plot is left as it was;
      otherwise it is redrawn from the readings, coloured by band. */
  function UpdateTemperatureChart(p: Plot, timestamps: Option<seq<int>>,
                                  temperatures: seq<real>): Plot
  {
    match timestamps
    case None => p
    case Some(ts) =>
      if |ts| == 0 then p else Plot(ts, temperatures, Colors(temperatures), p.range)
  }

  /** A window of five minutes, in milliseconds. */
  const FiveMinutesMs := 300000

  /** `addTemperaturePoint`: with no chart nothing happens; otherwise the point is
      appended and the x-range set to the five minutes before `nowMs`. The marker colour
      it computes is not passed on, so the marker colours are left as they were. */
  function AddTemperaturePoint(c: ScadaChart, timestamp: int, temperature: real,
                               nowMs: int): ScadaChart
  {
    if !Initialised(c) then c
    else
      var p := c.plot;
      c.(plot := Plot(p.x + [timestamp], p.y + [temperature], p.markers,
                      Some((nowMs - FiveMinutesMs, nowMs))))
  }

  /** Missing or empty timestamps change nothing; otherwise the plot shows the
      timestamps against the readings, with one marker per reading coloured by band. */
  lemma UpdateGuard(p: Plot, timestamps: Option<seq<int>>, temperatures: seq<real>)
    ensures (timestamps == None || timestamps == Some([])) ==>
            UpdateTemperatureChart(p, timestamps, temperatures) == p
    ensures timestamps.Some? && |timestamps.value| > 0 ==>
      var p' := UpdateTemperatureChart(p, timestamps, temperatures);
      && p'.x == timestamps.value && p'.y == temperatures && p'.range == p.range
      && |p'.markers| == |temperatures|
      && forall i :: 0 <= i < |temperatures| ==> p'.markers[i] == MarkerColor(temperatures[i])
  {
  }

  /** Before a chart is created, or under the empty id, adding a point does nothing;
      after, the point is appended, every earlier point kept, the range is the last five
      minutes, and the marker colours stay as they were. */
  lemma AddGuard(c: ScadaChart, timestamp: int, temperature: real, nowMs: int)
    ensures !Initialised(c) ==> AddTemperaturePoint(c, timestamp, temperature, nowMs) == c
    ensures Initialised(c) ==>
      var c' := AddTemperaturePoint(c, timestamp, temperature, nowMs);
      && c'.currentChart == c.currentChart
      && c'.plot.x == c.plot.x + [timestamp] && c'.plot.y == c.plot.y + [temperature]
      && c'.plot.markers == c.plot.markers
      && c'.plot.range == Some((nowMs - FiveMinutesMs, nowMs))
      && c'.plot.range.value.1 - c'.plot.range.value.0 == FiveMinutesMs
  {
  }

  /** Adding points to a chart never colours them: after a redraw, points added later
      leave the markers covering only the readings of the redraw. */
  lemma AddedPointsUncoloured(id: string, ts: seq<int>, temps: seq<real>,
                              timestamp: int, temperature: real, nowMs: int)
    requires id != "" && |ts| > 0
    ensures var c := InitTemperatureChart(id);
      var c1 := c.(plot := UpdateTemperatureChart(c.plot, Some(ts), temps));
      var c2 := AddTemperaturePoint(c1, timestamp, temperature, nowMs);
      && c2.plot.markers == Colors(temps)
      && |c2.plot.y| == |temps| + 1 && |c2.plot.markers| == |temps|
  {
  }

  /** Nothing is added before `initTemperatureChart`. */
  lemma NothingBeforeInit(timestamp: int, temperature: real, nowMs: int)
    ensures AddTemperaturePoint(NoChart, timestamp, temperature, nowMs) == NoChart
    ensures !Initialised(InitTemperatureChart(""))
    ensures forall id :: id != "" ==> Initialised(InitTemperatureChart(id))
  {
  }
}
