/** The machine signal records that both the session dashboard and the daily-vector script read. */
module Records {
  import opened Wrappers

  /** Value type 11 is a discrete signal (its value is in Text), 17 an analog one (its value is in Double). */
  const DiscreteType := 11
  const AnalogType := 17

  /**
    One row of the signal log: the minute timestamp (Event time), the signal name, the value
    type code, and the Text and Double cells as numbers; None stands for an empty cell, and
    for a non-numeric one only where the dashboard's loader coerces it to NaN.
  */
  datatype SignalRecord = SignalRecord(
    time: int,
    signal: string,
    valueType: int,
    text: Option<real>,
    double: Option<real>)

  function TimeOf(r: SignalRecord): int { r.time }
  function SignalOf(r: SignalRecord): string { r.signal }
  predicate IsDiscrete(r: SignalRecord) { r.valueType == DiscreteType }
  predicate IsAnalog(r: SignalRecord) { r.valueType == AnalogType }
}
