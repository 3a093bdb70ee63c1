/** SymbolWrapper: the frame drawn around every symbol. Its effective state
    comes from the bound SymbolProperties when there is one and from its own
    parameters (or fixed defaults) otherwise; three builders turn that state
    into CSS text. */
module SymbolWrapper {
  import opened Wrappers
  import opened Bytes
  import opened Symbols
  import opened Text

  /** The component parameters. Coordinates are doubles, kept as bit
      patterns. */
  datatype WrapperParams = WrapperParams(
    symbol: Option<SymbolProperties>,
    hasCrossFilter: bool,
    size: Option<Int32>,
    width: Option<Int32>,
    height: Option<Int32>,
    rotation: Int32,
    x: Option<Bits64>,
    y: Option<Bits64>,
    mirrorX: bool,
    mirrorY: bool)

  const DefaultExtent: Int32 := 100

  // `Symbol?.F ?? default`: the symbol's value when bound, the default
  // otherwise.

  function EffectiveIsSelected(p: WrapperParams): bool {
    match p.symbol case Some(s) => s.isSelected case None => false
  }

  function EffectiveIsEnabled(p: WrapperParams): bool {
    match p.symbol case Some(s) => s.isEnabled case None => true
  }

  function EffectiveHasCommLoss(p: WrapperParams): bool {
    match p.symbol case Some(s) => s.hasCommLoss case None => false
  }

  function EffectiveHasCrossFilter(p: WrapperParams): bool {
    match p.symbol case Some(s) => s.hasCrossFilter case None => p.hasCrossFilter
  }

  function EffectiveAlarmState(p: WrapperParams): Int32 {
    match p.symbol case Some(s) => s.alarmState case None => 0
  }

  function EffectiveAlarmBlink(p: WrapperParams): bool {
    match p.symbol case Some(s) => s.alarmBlink case None => false
  }

  /** `Width ?? Size ?? 100`, and the same for the height. */
  function ActualWidth(p: WrapperParams): Int32 {
    p.width.OrElse(p.size.OrElse(DefaultExtent))
  }

  function ActualHeight(p: WrapperParams): Int32 {
    p.height.OrElse(p.size.OrElse(DefaultExtent))
  }

  /** The coordinates are nullable on the symbol too, so a bound symbol
      without a coordinate falls back to the parameter. */
  function EffectiveX(p: WrapperParams): Option<Bits64> {
    if p.symbol.Some? && p.symbol.value.x.Some? then p.symbol.value.x else p.x
  }

  function EffectiveY(p: WrapperParams): Option<Bits64> {
    if p.symbol.Some? && p.symbol.value.y.Some? then p.symbol.value.y else p.y
  }

  /** The extent falls back from the explicit dimension to Size to 100. */
  lemma ExtentFallbacks(p: WrapperParams)
    ensures p.width.Some? ==> ActualWidth(p) == p.width.value
    ensures p.height.Some? ==> ActualHeight(p) == p.height.value
    ensures p.width.None? && p.size.Some? ==> ActualWidth(p) == p.size.value
    ensures p.height.None? && p.size.Some? ==> ActualHeight(p) == p.size.value
    ensures p.width.None? && p.size.None? ==> ActualWidth(p) == DefaultExtent
    ensures p.height.None? && p.size.None? ==> ActualHeight(p) == DefaultExtent
    ensures p.width.None? && p.height.None? ==> ActualWidth(p) == ActualHeight(p)
  {
  }

  /** A coordinate comes from the bound symbol when it has one, from the
      parameter otherwise; it is known iff either of them knows it. */
  lemma CoordinateFallbacks(p: WrapperParams)
    ensures p.symbol.Some? && p.symbol.value.x.Some? ==> EffectiveX(p) == p.symbol.value.x
    ensures p.symbol.Some? && p.symbol.value.y.Some? ==> EffectiveY(p) == p.symbol.value.y
    ensures (p.symbol.None? || p.symbol.value.x.None?) ==> EffectiveX(p) == p.x
    ensures (p.symbol.None? || p.symbol.value.y.None?) ==> EffectiveY(p) == p.y
    ensures EffectiveX(p).Some? <==> (p.symbol.Some? && p.symbol.value.x.Some?) || p.x.Some?
    ensures EffectiveY(p).Some? <==> (p.symbol.Some? && p.symbol.value.y.Some?) || p.y.Some?
  {
  }

  /** Rotation and mirroring are plain fields on the symbol: a bound symbol
      always decides them. */
  function EffectiveRotation(p: WrapperParams): Int32 {
    match p.symbol case Some(s) => s.rotation case None => p.rotation
  }

  function EffectiveMirrorX(p: WrapperParams): bool {
    match p.symbol case Some(s) => s.mirrorX case None => p.mirrorX
  }

  function EffectiveMirrorY(p: WrapperParams): bool {
    match p.symbol case Some(s) => s.mirrorY case None => p.mirrorY
  }

  /** With a bound symbol every state flag is the symbol's, and the wrapper's
      own rotation and mirror parameters are ignored. */
  lemma BoundSymbolDecides(p: WrapperParams, rotation: Int32, mirrorX: bool, mirrorY: bool, hasCrossFilter: bool)
    requires p.symbol.Some?
    ensures var q := p.(rotation := rotation, mirrorX := mirrorX, mirrorY := mirrorY, hasCrossFilter := hasCrossFilter);
      && EffectiveRotation(q) == EffectiveRotation(p) == p.symbol.value.rotation
      && EffectiveMirrorX(q) == EffectiveMirrorX(p) == p.symbol.value.mirrorX
      && EffectiveMirrorY(q) == EffectiveMirrorY(p) == p.symbol.value.mirrorY
      && EffectiveHasCrossFilter(q) == EffectiveHasCrossFilter(p) == p.symbol.value.hasCrossFilter
      && EffectiveIsSelected(p) == p.symbol.value.isSelected
      && EffectiveIsEnabled(p) == p.symbol.value.isEnabled
      && EffectiveHasCommLoss(p) == p.symbol.value.hasCommLoss
      && EffectiveAlarmState(p) == p.symbol.value.alarmState
      && EffectiveAlarmBlink(p) == p.symbol.value.alarmBlink
  {
  }

  /** Without a symbol the wrapper looks like one bound to a newly made
      symbol that carries the wrapper's own layout parameters. */
  lemma DefaultsAreNewSymbol(p: WrapperParams, name: string)
    requires p.symbol.None?
    ensures var q := p.(symbol := Some(NewSymbol(name).(hasCrossFilter := p.hasCrossFilter,
                          rotation := p.rotation, mirrorX := p.mirrorX, mirrorY := p.mirrorY)));
      && EffectiveIsSelected(q) == EffectiveIsSelected(p) && EffectiveIsEnabled(q) == EffectiveIsEnabled(p)
      && EffectiveHasCommLoss(q) == EffectiveHasCommLoss(p) && EffectiveHasCrossFilter(q) == EffectiveHasCrossFilter(p)
      && EffectiveAlarmState(q) == EffectiveAlarmState(p) && EffectiveAlarmBlink(q) == EffectiveAlarmBlink(p)
      && EffectiveX(q) == EffectiveX(p) && EffectiveY(q) == EffectiveY(p)
      && EffectiveRotation(q) == EffectiveRotation(p)
      && EffectiveMirrorX(q) == EffectiveMirrorX(p) && EffectiveMirrorY(q) == EffectiveMirrorY(p)
  {
  }

  // ---------------------------------------------------------------------------
  // Style builders. `coordText` is the culture's text for a double, which is
  // not modelled; the bit pattern 0 is the double 0.


  function SizeStyle(p: WrapperParams): string {
    "width: " + IntToString(ActualWidth(p)) + "px; height: " + IntToString(ActualHeight(p)) + "px;"
  }

  const RelativeSuffix: string := " position: relative;"

  /** GetRootStyle: the size, then absolute placement when either coordinate
      is known (a missing one at 0), else relative placement. */
  function GetRootStyle(p: WrapperParams, coordText: Bits64 -> string): (r: string)
    ensures |r| >= |SizeStyle(p)| && r[..|SizeStyle(p)|] == SizeStyle(p)
    ensures (EffectiveX(p).Some? || EffectiveY(p).Some?) ==>
      r[|SizeStyle(p)|..] == " position: absolute; left: " + coordText(EffectiveX(p).OrElse(ZeroDouble))
                             + "px; top: " + coordText(EffectiveY(p).OrElse(ZeroDouble)) + "px;"
    ensures EffectiveX(p).None? && EffectiveY(p).None? ==> r == SizeStyle(p) + RelativeSuffix
  {
    var style := SizeStyle(p);
    var placement :=
      if EffectiveX(p).Some? || EffectiveY(p).Some? then
        " position: absolute; left: " + coordText(EffectiveX(p).OrElse(ZeroDouble))
          + "px; top: " + coordText(EffectiveY(p).OrElse(ZeroDouble)) + "px;"
      else
        RelativeSuffix;
    SplitConcat(style, placement);
    style + placement
  }

  lemma SplitConcat(a: string, b: string)
    ensures (a + b)[..|a|] == a && (a + b)[|a|..] == b
  {
  }

  predicate EndsWith(s: string, suffix: string) {
    |suffix| <= |s| && s[|s| - |suffix|..] == suffix
  }

  /** Relative placement iff neither coordinate is known. */
  lemma RootStyleRelative(p: WrapperParams, coordText: Bits64 -> string)
    ensures EndsWith(GetRootStyle(p, coordText), RelativeSuffix) <==> EffectiveX(p).None? && EffectiveY(p).None?
  {
    var r := GetRootStyle(p, coordText);
    if EffectiveX(p).Some? || EffectiveY(p).Some? {
      assert r[|r| - 1] == ';' && r[|r| - 2] == 'x';
      assert RelativeSuffix[|RelativeSuffix| - 2] == 'e';
    }
  }

  /** The rotate part, when the rotation is not 0. */
  function RotatePart(rotation: Int32): string {
    if rotation != 0 then "rotate(" + IntToString(rotation) + "deg) " else ""
  }

  /** The transform list: rotate, scaleX(-1), scaleY(-1), in that order,
      each followed by a space, each present only when needed. */
  function TransformParts(rotation: Int32, mirrorX: bool, mirrorY: bool): (t: string)
    ensures t == "" <==> rotation == 0 && !mirrorX && !mirrorY
  {
    RotatePart(rotation) + (if mirrorX then "scaleX(-1) " else "") + (if mirrorY then "scaleY(-1) " else "")
  }

  /** GetRotationStyle: the effective transform, or nothing when there is
      none. */
  function GetRotationStyle(p: WrapperParams): (r: string)
    ensures r == "" <==> EffectiveRotation(p) == 0 && !EffectiveMirrorX(p) && !EffectiveMirrorY(p)
    ensures r != "" ==>
      r == "transform: " + TransformParts(EffectiveRotation(p), EffectiveMirrorX(p), EffectiveMirrorY(p))
           + "; transform-origin: center;"
  {
    var transform := TransformParts(EffectiveRotation(p), EffectiveMirrorX(p), EffectiveMirrorY(p));
    if transform != "" then "transform: " + transform + "; transform-origin: center;" else ""
  }

  /** Every part of a transform list ends with a space, so the list does. */
  lemma TransformPartsSpaced(rotation: Int32, mirrorX: bool, mirrorY: bool)
    requires TransformParts(rotation, mirrorX, mirrorY) != ""
    ensures EndsWith(TransformParts(rotation, mirrorX, mirrorY), " ")
  {
    var t := TransformParts(rotation, mirrorX, mirrorY);
    assert t[|t| - 1] == ' ';
  }

  const MirrorPrefix: string := "width: 100%; height: 100%;"

  /** GetMirrorStyle: full size, and the wrapper's own mirror parameters as a
      transform. */
  function GetMirrorStyle(p: WrapperParams): (r: string)
    ensures |r| >= |MirrorPrefix| && r[..|MirrorPrefix|] == MirrorPrefix
    ensures r == MirrorPrefix <==> !p.mirrorX && !p.mirrorY
    ensures p.mirrorX && !p.mirrorY ==> r == MirrorPrefix + " transform:" + " scaleX(-1)" + "; transform-origin: center;"
    ensures !p.mirrorX && p.mirrorY ==> r == MirrorPrefix + " transform:" + " scaleY(-1)" + "; transform-origin: center;"
    ensures p.mirrorX && p.mirrorY ==>
      r == MirrorPrefix + " transform:" + " scaleX(-1)" + " scaleY(-1)" + "; transform-origin: center;"
  {
    var transform := (if p.mirrorX then " scaleX(-1)" else "") + (if p.mirrorY then " scaleY(-1)" else "");
    MirrorPrefix + (if transform == "" then "" else " transform:" + transform + "; transform-origin: center;")
  }

  /** GetMirrorStyle reads only the wrapper's parameters, never the bound
      symbol's mirror flags. */
  lemma MirrorStyleIgnoresSymbol(p: WrapperParams, symbol: Option<SymbolProperties>)
    ensures GetMirrorStyle(p.(symbol := symbol)) == GetMirrorStyle(p)
  {
  }

  /** A symbol's own mirroring can appear in both builders: Pump 2 on the
      Supervision page, bound with no mirror parameters, is flipped by the
      rotation style only. */
  lemma MirroredSymbolStyles(p: WrapperParams)
    requires p.symbol.Some? && p.symbol.value.mirrorX && !p.symbol.value.mirrorY && p.symbol.value.rotation == 0
    requires !p.mirrorX && !p.mirrorY
    ensures GetRotationStyle(p) == "transform: " + "scaleX(-1) " + "; transform-origin: center;"
    ensures GetMirrorStyle(p) == MirrorPrefix
  {
    assert EffectiveRotation(p) == 0 && EffectiveMirrorX(p) && !EffectiveMirrorY(p);
    var t := TransformParts(0, true, false);
    assert t == "scaleX(-1) ";
  }
}
