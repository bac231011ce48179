/**
 * The telemetry record the device contract publishes: one snapshot of the
 * furnace's process values, actuators, safety flags and state label.
 * Temperatures are in degrees Celsius; the timestamp is the capture instant
 * as an opaque integer.
 */
module DeviceTelemetry {

  datatype Telemetry = Telemetry(
    temperaturaAtual: real,
    setPoint: real,
    temperaturaAlarme: real,
    temperaturaCritica: real,
    macaricoLigado: bool,
    ventiladorLigado: bool,
    alarmeAtivo: bool,
    interrupcaoCritica: bool,
    sistemaAtivo: bool,
    estado: string,
    timestamp: int)

  /** The relations a snapshot of a consistent furnace satisfies: the alarm limit is
      below the critical limit, the interlock implies the alarm and an inactive
      system, and heater and fan are never on together. */
  predicate Consistent(t: Telemetry) {
    && t.temperaturaAlarme < t.temperaturaCritica
    && (t.interrupcaoCritica ==> t.alarmeAtivo && !t.sistemaAtivo)
    && !(t.macaricoLigado && t.ventiladorLigado)
  }
}
