/** SymbolProperties: the record every instrument symbol carries. The input
    and analog-display kinds add a numeric Value, kept here as an optional
    field. */
module Symbols {
  import opened Wrappers
  import opened Bytes

  datatype SymbolProperties = SymbolProperties(
    name: string,
    isSelected: bool,
    isEnabled: bool,
    hasCommLoss: bool,
    hasCrossFilter: bool,
    alarmState: Int32,
    alarmBlink: bool,
    rotation: Int32,
    x: Option<Bits64>,
    y: Option<Bits64>,
    mirrorX: bool,
    mirrorY: bool,
    value: Option<Bits64>)

  /** A symbol as its constructor leaves it: enabled, everything else off,
      no position, no value. */
  function NewSymbol(name: string): (s: SymbolProperties)
    ensures s.name == name && s.isEnabled
    ensures !s.isSelected && !s.hasCommLoss && !s.hasCrossFilter && !s.alarmBlink && !s.mirrorX && !s.mirrorY
    ensures s.alarmState == 0 && s.rotation == 0
    ensures s.x.None? && s.y.None? && s.value.None?
  {
    SymbolProperties(name, false, true, false, false, 0, false, 0, None, None, false, false, None)
  }

  /** The bit pattern of the double 50.0. */
  const Fifty: Bits64 := 0x4049_0000_0000_0000
}
