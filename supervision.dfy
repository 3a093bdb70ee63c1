/** The Supervision page: eleven symbols, the packet-arrival handler, the
    comm-loss watchdog and the control-panel actions.

    Time is a DateTime tick count (100 ns) passed to each callback. The
    watchdog's decision logic is given first as functions on a small state;
    the page's callbacks are proved to follow it. */
module Supervision {
  import opened Wrappers
  import opened Bytes
  import opened Packet
  import opened Symbols

  // ---------------------------------------------------------------------------
  // Symbols of the page, in the order UpdateCommLossState lists them

  const SymbolCount: nat := 11
  type SymbolId = i: int | 0 <= i < 11

  const Pump1: SymbolId := 0
  const Pump2: SymbolId := 1
  const Valve1: SymbolId := 2
  const Valve2: SymbolId := 3
  const Fan1: SymbolId := 4
  const Fan2: SymbolId := 5
  const Motor1: SymbolId := 6
  const Motor2: SymbolId := 7
  const Input1: SymbolId := 8
  const Progress1: SymbolId := 9
  const Compass1: SymbolId := 10

  /** The page's eleven symbols as its property initialisers create them. */
  function InitialSymbols(): (s: seq<SymbolProperties>)
    ensures |s| == SymbolCount
  {
    [ NewSymbol("Pump 1"), NewSymbol("Pump 2").(mirrorX := true),
      NewSymbol("Valve 1"), NewSymbol("Valve 2"),
      NewSymbol("Fan 1"), NewSymbol("Fan 2"),
      NewSymbol("Motor 1"), NewSymbol("Motor 2"),
      NewSymbol("Input 1").(value := Some(Fifty)),
      NewSymbol("Progress 1").(value := Some(Fifty)),
      NewSymbol("Compass 1") ]
  }

  /** Each constant names the symbol of the same name. */
  lemma InitialSymbolNames()
    ensures var s := InitialSymbols();
      && s[Pump1].name == "Pump 1" && s[Pump2].name == "Pump 2"
      && s[Valve1].name == "Valve 1" && s[Valve2].name == "Valve 2"
      && s[Fan1].name == "Fan 1" && s[Fan2].name == "Fan 2"
      && s[Motor1].name == "Motor 1" && s[Motor2].name == "Motor 2"
      && s[Input1].name == "Input 1" && s[Progress1].name == "Progress 1"
      && s[Compass1].name == "Compass 1"
  {
  }

  /** Only Pump 2 is mirrored, only Input 1 and Progress 1 hold a value (50),
      and every symbol is otherwise as its constructor leaves it. */
  lemma InitialSymbolsConfigured()
    ensures forall i: SymbolId :: InitialSymbols()[i].mirrorX <==> i == Pump2
    ensures forall i: SymbolId ::
      InitialSymbols()[i].value == (if i == Input1 || i == Progress1 then Some(Fifty) else None)
    ensures forall i: SymbolId :: var s := InitialSymbols()[i];
      s == NewSymbol(s.name).(mirrorX := s.mirrorX, value := s.value)
  {
    var s := InitialSymbols();
    forall i: SymbolId
      ensures s[i].mirrorX <==> i == Pump2
      ensures s[i].value == (if i == Input1 || i == Progress1 then Some(Fifty) else None)
      ensures s[i] == NewSymbol(s[i].name).(mirrorX := s[i].mirrorX, value := s[i].value)
    {
      if i == Pump2 {
        assert s[i] == NewSymbol("Pump 2").(mirrorX := true);
      } else if i == Input1 {
        assert s[i] == NewSymbol("Input 1").(value := Some(Fifty));
      } else if i == Progress1 {
        assert s[i] == NewSymbol("Progress 1").(value := Some(Fifty));
      } else {
        assert s[i] == NewSymbol(s[i].name);
      }
    }
  }

  // ---------------------------------------------------------------------------
  // Watchdog logic

  const TicksPerSecond: int := 10_000_000
  /** `timeSinceLastPacket.TotalSeconds > 3`. */
  const CommLossTimeout: int := 3 * TicksPerSecond
  /** The callback period of the watchdog timer, in milliseconds, and in ticks. */
  const WatchdogPeriodMs: int := 1000
  const WatchdogPeriod: int := WatchdogPeriodMs * (TicksPerSecond / 1000)

  datatype Watchdog = Watchdog(lastPacketTime: int, isCommLoss: bool)

  /** The state after a callback, and the argument UpdateCommLossState was
      called with, if it was called. */
  datatype Step = Step(state: Watchdog, update: Option<bool>)

  /** HandleUdpData's effect on the watchdog: the arrival time is recorded and
      a loss is cleared at once. */
  function OnArrival(w: Watchdog, now: int): (r: Step)
    ensures r.state.lastPacketTime == now && !r.state.isCommLoss
    ensures r.update.Some? <==> w.isCommLoss
    ensures r.update.Some? ==> r.update.value == false
  {
    if w.isCommLoss then Step(Watchdog(now, false), Some(false))
    else Step(Watchdog(now, false), None)
  }

  /** WatchdogCallback: loss iff more than three seconds have passed since the
      last packet; only a change is propagated. */
  function OnTick(w: Watchdog, now: int): (r: Step)
    ensures r.state.lastPacketTime == w.lastPacketTime
    ensures r.state.isCommLoss <==> now - w.lastPacketTime > CommLossTimeout
    ensures r.update.Some? <==> r.state.isCommLoss != w.isCommLoss
    ensures r.update.Some? ==> r.update.value == r.state.isCommLoss
  {
    var shouldBeCommLoss := now - w.lastPacketTime > CommLossTimeout;
    if w.isCommLoss != shouldBeCommLoss then Step(w.(isCommLoss := shouldBeCommLoss), Some(shouldBeCommLoss))
    else Step(w, None)
  }

  /** A second tick at the same time finds nothing to change: ticks within
      one regime notify nothing. */
  lemma OnTickSettles(w: Watchdog, now: int, later: int)
    requires later >= now
    requires OnTick(w, now).state.isCommLoss
    ensures OnTick(OnTick(w, now).state, later) == Step(OnTick(w, now).state, None)
  {
  }

  datatype WatchdogEvent = Arrival(time: int) | Tick(time: int)

  function Apply(w: Watchdog, e: WatchdogEvent): Step {
    match e
    case Arrival(t) => OnArrival(w, t)
    case Tick(t) => OnTick(w, t)
  }

  function AsSeq(update: Option<bool>): seq<bool> {
    match update
    case Some(b) => [b]
    case None => []
  }

  /** The final state and every UpdateCommLossState argument, in order. */
  datatype Trace = Trace(state: Watchdog, updates: seq<bool>)

  function Run(w: Watchdog, events: seq<WatchdogEvent>): Trace
    decreases |events|
  {
    if events == [] then Trace(w, [])
    else
      var step := Apply(w, events[0]);
      var rest := Run(step.state, events[1..]);
      Trace(rest.state, AsSeq(step.update) + rest.updates)
  }

  /** Updates only report changes: they alternate, starting with the opposite
      of the initial flag, and the final flag is the last one reported. */
  predicate Alternating(start: bool, updates: seq<bool>) {
    forall i :: 0 <= i < |updates| ==> updates[i] == (if i % 2 == 0 then !start else start)
  }

  lemma {:induction false} RunAlternates(w: Watchdog, events: seq<WatchdogEvent>)
    ensures Alternating(w.isCommLoss, Run(w, events).updates)
    ensures Run(w, events).state.isCommLoss ==
      (if |Run(w, events).updates| % 2 == 0 then w.isCommLoss else !w.isCommLoss)
    decreases |events|
  {
    if events != [] {
      var step := Apply(w, events[0]);
      RunAlternates(step.state, events[1..]);
      var rest := Run(step.state, events[1..]).updates;
      if step.update.Some? {
        assert step.state.isCommLoss == !w.isCommLoss;
        var all := [step.update.value] + rest;
        forall i | 0 <= i < |all|
          ensures all[i] == (if i % 2 == 0 then !w.isCommLoss else w.isCommLoss)
        {
          if i > 0 {
            assert all[i] == rest[i - 1];
          }
        }
      } else {
        assert step.state.isCommLoss == w.isCommLoss;
        assert AsSeq(step.update) + rest == rest;
      }
    }
  }

  /** A run over two event lists is the second run started where the first
      one ended. */
  lemma {:induction false} RunAppend(w: Watchdog, a: seq<WatchdogEvent>, b: seq<WatchdogEvent>)
    ensures Run(w, a + b) == Trace(Run(Run(w, a).state, b).state, Run(w, a).updates + Run(Run(w, a).state, b).updates)
    decreases |a|
  {
    if a == [] {
      assert a + b == b;
    } else {
      var step := Apply(w, a[0]);
      assert (a + b)[0] == a[0] && (a + b)[1..] == a[1..] + b;
      RunAppend(step.state, a[1..], b);
    }
  }

  predicate TicksInOrder(events: seq<WatchdogEvent>) {
    && (forall i :: 0 <= i < |events| ==> events[i].Tick?)
    && (forall i, j :: 0 <= i < j < |events| ==> events[i].time <= events[j].time)
  }

  /** In loss, ticks that all come more than three seconds after the last
      packet report nothing. */
  lemma {:induction false} TicksInLossSilent(t0: int, events: seq<WatchdogEvent>)
    requires forall i :: 0 <= i < |events| ==> events[i].Tick? && events[i].time - t0 > CommLossTimeout
    ensures Run(Watchdog(t0, true), events) == Trace(Watchdog(t0, true), [])
    decreases |events|
  {
    if events != [] {
      TicksInLossSilent(t0, events[1..]);
    }
  }

  /** Debounce: after a packet at t0 with no loss, a run of ticks in time order
      reports loss exactly once, iff the last tick is more than three seconds
      after t0, and reports nothing else. */
  lemma {:induction false} DebouncedLoss(t0: int, events: seq<WatchdogEvent>)
    requires TicksInOrder(events)
    ensures Run(Watchdog(t0, false), events) ==
      if |events| > 0 && events[|events| - 1].time - t0 > CommLossTimeout
      then Trace(Watchdog(t0, true), [true])
      else Trace(Watchdog(t0, false), [])
    decreases |events|
  {
    if events != [] {
      var t := events[0].time;
      var tail := events[1..];
      if t - t0 > CommLossTimeout {
        assert Apply(Watchdog(t0, false), events[0]) == Step(Watchdog(t0, true), Some(true));
        TicksInLossSilent(t0, tail);
        assert events[|events| - 1].time >= t;
      } else {
        assert Apply(Watchdog(t0, false), events[0]) == Step(Watchdog(t0, false), None);
        assert TicksInOrder(tail);
        DebouncedLoss(t0, tail);
        if |events| == 1 {
          assert tail == [];
        } else {
          assert tail[|tail| - 1] == events[|events| - 1];
        }
      }
    }
  }

  // ---------------------------------------------------------------------------
  // The page's symbol updates, as functions on the symbol list

  /** `HasCommLoss = b` applied to a symbol when UpdateCommLossState(b) ran. */
  function LossApplied(s: SymbolProperties, update: Option<bool>): SymbolProperties {
    match update
    case Some(b) => s.(hasCommLoss := b)
    case None => s
  }

  /** Every symbol after UpdateCommLossState(b) if `update` is Some(b). */
  function WithLoss(syms: seq<SymbolProperties>, update: Option<bool>): (r: seq<SymbolProperties>)
    ensures |r| == |syms|
    ensures forall i :: 0 <= i < |syms| ==> r[i] == LossApplied(syms[i], update)
  {
    seq(|syms|, i requires 0 <= i < |syms| => LossApplied(syms[i], update))
  }

  /** `data.Pump1Value > 0` on the double's bit pattern: the positive
      subnormals, normals and +infinity; zeros, negatives and NaN are not. */
  predicate IsPositive(d: Bits64) {
    0 < d <= 0x7FF0_0000_0000_0000
  }

  /** The packet's mapping onto the symbols: Pump1 is enabled iff the pump-1
      value is positive and takes a positive alarm state, Input1 shows the
      input-1 value, and no other symbol changes. */
  function WithPacket(syms: seq<SymbolProperties>, data: UdpPacketData): (r: seq<SymbolProperties>)
    requires |syms| == SymbolCount
    ensures |r| == SymbolCount
    ensures r[Pump1].isEnabled <==> IsPositive(data.pump1Value)
    ensures r[Pump1].alarmState == if data.alarmState > 0 then data.alarmState else syms[Pump1].alarmState
    ensures r[Pump1] == syms[Pump1].(isEnabled := r[Pump1].isEnabled, alarmState := r[Pump1].alarmState)
    ensures r[Input1] == syms[Input1].(value := Some(data.input1Value))
    ensures forall i :: 0 <= i < SymbolCount && i != Pump1 && i != Input1 ==> r[i] == syms[i]
  {
    var enabled := syms[Pump1 := syms[Pump1].(isEnabled := IsPositive(data.pump1Value))];
    var shown := enabled[Input1 := enabled[Input1].(value := Some(data.input1Value))];
    if data.alarmState > 0 then shown[Pump1 := shown[Pump1].(alarmState := data.alarmState)] else shown
  }

  /** `IsSelected = false` on one symbol. */
  function Deselect(syms: seq<SymbolProperties>, i: SymbolId): (r: seq<SymbolProperties>)
    requires |syms| == SymbolCount
    ensures |r| == SymbolCount
    ensures forall j :: 0 <= j < SymbolCount ==> r[j] == if j == i then syms[j].(isSelected := false) else syms[j]
  {
    syms[i := syms[i].(isSelected := false)]
  }

  /** The symbols below `k` are deselected, the others unchanged. */
  ghost predicate DeselectedBelow(orig: seq<SymbolProperties>, syms: seq<SymbolProperties>, k: nat)
  {
    && |orig| == |syms| == SymbolCount
    && (forall j :: 0 <= j < k && j < SymbolCount ==> syms[j] == orig[j].(isSelected := false))
    && (forall j :: k <= j < SymbolCount ==> syms[j] == orig[j])
  }

  lemma DeselectStep(orig: seq<SymbolProperties>, syms: seq<SymbolProperties>, k: SymbolId)
    requires DeselectedBelow(orig, syms, k)
    ensures DeselectedBelow(orig, Deselect(syms, k), k + 1)
  {
  }

  lemma DeselectedAllButCompass(orig: seq<SymbolProperties>, syms: seq<SymbolProperties>)
    requires DeselectedBelow(orig, syms, Compass1)
    ensures syms == Deselected(orig)
  {
  }

  /** ClearSelection's effect: every symbol but Compass1 is deselected. */
  function Deselected(syms: seq<SymbolProperties>): (r: seq<SymbolProperties>)
    ensures |r| == |syms|
    ensures forall i :: 0 <= i < |syms| ==>
      r[i] == (if i != Compass1 then syms[i].(isSelected := false) else syms[i])
  {
    seq(|syms|, i requires 0 <= i < |syms| => if i != Compass1 then syms[i].(isSelected := false) else syms[i])
  }

  /** The symbols after Select(id). */
  function Selected(syms: seq<SymbolProperties>, id: SymbolId): (r: seq<SymbolProperties>)
    requires |syms| == SymbolCount
    ensures |r| == SymbolCount
  {
    Deselected(syms)[id := syms[id].(isSelected := true)]
  }

  /** What Select leaves: the chosen symbol selected, the other symbols
      ClearSelection names deselected, and Compass1, unless it is the chosen
      one, as it was, so a selected Compass1 stays selected. Only selection
      flags change. */
  lemma SelectionAfterSelect(syms: seq<SymbolProperties>, id: SymbolId)
    requires |syms| == SymbolCount
    ensures Selected(syms, id)[id].isSelected
    ensures forall i :: 0 <= i < SymbolCount && i != id && i != Compass1 ==> !Selected(syms, id)[i].isSelected
    ensures id != Compass1 ==> Selected(syms, id)[Compass1] == syms[Compass1]
    ensures forall i :: 0 <= i < SymbolCount ==> Selected(syms, id)[i] == syms[i].(isSelected := Selected(syms, id)[i].isSelected)
  {
    var r := Selected(syms, id);
    forall i | 0 <= i < SymbolCount
      ensures r[i] == syms[i].(isSelected := r[i].isSelected)
    {
      if i == id {
        assert r[i] == syms[i].(isSelected := true);
      } else {
        assert r[i] == Deselected(syms)[i];
      }
    }
  }

  /** Select marks the symbol before clearing and marks it again after:
      the first mark makes no difference. */
  lemma MarkThenSelect(syms: seq<SymbolProperties>, id: SymbolId)
    requires |syms| == SymbolCount
    ensures var marked := syms[id := syms[id].(isSelected := true)];
      Deselected(marked)[id := Deselected(marked)[id].(isSelected := true)] == Selected(syms, id)
  {
    var marked := syms[id := syms[id].(isSelected := true)];
    var r := Deselected(marked)[id := Deselected(marked)[id].(isSelected := true)];
    forall i | 0 <= i < SymbolCount
      ensures r[i] == Selected(syms, id)[i]
    {
      if i != id {
        assert marked[i] == syms[i];
      }
    }
  }

  /** The ten `IsSelected = false` statements of ClearSelection, one symbol
      after the other: together they deselect every symbol but Compass1. */
  method ClearNamed(s0: seq<SymbolProperties>) returns (s: seq<SymbolProperties>)
    requires |s0| == SymbolCount
    ensures s == Deselected(s0)
  {
      s := s0;
      assert DeselectedBelow(s0, s, 0);
      DeselectStep(s0, s, Pump1); s := Deselect(s, Pump1);
      DeselectStep(s0, s, Pump2); s := Deselect(s, Pump2);
      DeselectStep(s0, s, Valve1); s := Deselect(s, Valve1);
      DeselectStep(s0, s, Valve2); s := Deselect(s, Valve2);
      DeselectStep(s0, s, Fan1); s := Deselect(s, Fan1);
      DeselectStep(s0, s, Fan2); s := Deselect(s, Fan2);
      DeselectStep(s0, s, Motor1); s := Deselect(s, Motor1);
      DeselectStep(s0, s, Motor2); s := Deselect(s, Motor2);
      DeselectStep(s0, s, Input1); s := Deselect(s, Input1);
      DeselectStep(s0, s, Progress1); s := Deselect(s, Progress1);
      DeselectedAllButCompass(s0, s);
  }

  class SupervisionPage {
    var lastPacketTime: int
    var isCommLoss: bool
    var symbols: seq<SymbolProperties>
    var selectedSymbol: Option<SymbolId>
    var isModalVisible: bool
    var targetSettingsId: Option<string>
    /** Arguments of the UpdateCommLossState calls, oldest first. */
    var commLossUpdates: seq<bool>
    /** InvokeAsync(StateHasChanged) requests. */
    var renderRequests: nat

    ghost predicate Valid()
      reads this
    {
      |symbols| == SymbolCount
    }

    function State(): Watchdog
      reads this
    {
      Watchdog(lastPacketTime, isCommLoss)
    }

    /** The page as constructed at time `now`: no loss, the packet clock
        started at construction. */
    constructor (now: int)
      ensures Valid()
      ensures State() == Watchdog(now, false)
      ensures symbols == InitialSymbols() && selectedSymbol.None?
      ensures !isModalVisible && targetSettingsId.None?
      ensures commLossUpdates == [] && renderRequests == 0
    {
      lastPacketTime, isCommLoss := now, false;
      symbols := InitialSymbols();
      selectedSymbol := None;
      isModalVisible, targetSettingsId := false, None;
      commLossUpdates, renderRequests := [], 0;
    }

    /** UpdateCommLossState: HasCommLoss = isLoss on every symbol. */
    method UpdateCommLossState(isLoss: bool)
      requires Valid()
      modifies this
      ensures Valid()
      ensures symbols == WithLoss(old(symbols), Some(isLoss))
      ensures commLossUpdates == old(commLossUpdates) + [isLoss]
      ensures State() == old(State()) && renderRequests == old(renderRequests)
      ensures selectedSymbol == old(selectedSymbol)
      ensures isModalVisible == old(isModalVisible) && targetSettingsId == old(targetSettingsId)
    {
      var updated := symbols;
      for i := 0 to |updated|
        invariant |updated| == |symbols|
        invariant forall j :: 0 <= j < i ==> updated[j] == symbols[j].(hasCommLoss := isLoss)
        invariant forall j :: i <= j < |updated| ==> updated[j] == symbols[j]
      {
        updated := updated[i := updated[i].(hasCommLoss := isLoss)];
      }
      symbols := updated;
      commLossUpdates := commLossUpdates + [isLoss];
    }

    /** HandleUdpData(data) at time `now`. */
    method HandleUdpData(now: int, data: UdpPacketData)
      requires Valid()
      modifies this
      ensures Valid()
      ensures State() == OnArrival(old(State()), now).state
      ensures commLossUpdates == old(commLossUpdates) + AsSeq(OnArrival(old(State()), now).update)
      ensures symbols == WithPacket(WithLoss(old(symbols), OnArrival(old(State()), now).update), data)
      ensures renderRequests == old(renderRequests) + 1
      ensures selectedSymbol == old(selectedSymbol)
      ensures isModalVisible == old(isModalVisible) && targetSettingsId == old(targetSettingsId)
    {
      ghost var step := OnArrival(State(), now);
      lastPacketTime := now;
      if isCommLoss {
        isCommLoss := false;
        UpdateCommLossState(false);
      } else {
        assert WithLoss(symbols, None) == symbols;
      }
      ghost var cleared := symbols;
      assert cleared == WithLoss(old(symbols), step.update);
      assert commLossUpdates == old(commLossUpdates) + AsSeq(step.update);
      symbols := symbols[Pump1 := symbols[Pump1].(isEnabled := IsPositive(data.pump1Value))];
      symbols := symbols[Input1 := symbols[Input1].(value := Some(data.input1Value))];
      if data.alarmState > 0 {
        symbols := symbols[Pump1 := symbols[Pump1].(alarmState := data.alarmState)];
      }
      assert symbols == WithPacket(cleared, data);
      renderRequests := renderRequests + 1;
    }

    /** WatchdogCallback at time `now`. */
    method WatchdogCallback(now: int)
      requires Valid()
      modifies this
      ensures Valid()
      ensures State() == OnTick(old(State()), now).state
      ensures commLossUpdates == old(commLossUpdates) + AsSeq(OnTick(old(State()), now).update)
      ensures symbols == WithLoss(old(symbols), OnTick(old(State()), now).update)
      ensures renderRequests == old(renderRequests) + |AsSeq(OnTick(old(State()), now).update)|
      ensures selectedSymbol == old(selectedSymbol)
      ensures isModalVisible == old(isModalVisible) && targetSettingsId == old(targetSettingsId)
    {
      var shouldBeCommLoss := now - lastPacketTime > CommLossTimeout;
      if isCommLoss != shouldBeCommLoss {
        isCommLoss := shouldBeCommLoss;
        UpdateCommLossState(isCommLoss);
        renderRequests := renderRequests + 1;
      } else {
        assert WithLoss(symbols, None) == symbols;
      }
    }

    /** ClearSelection: IsSelected = false on every symbol but Compass1. */
    method ClearSelection()
      requires Valid()
      modifies this
      ensures Valid()
      ensures symbols == Deselected(old(symbols))
      ensures State() == old(State()) && selectedSymbol == old(selectedSymbol)
      ensures commLossUpdates == old(commLossUpdates) && renderRequests == old(renderRequests)
      ensures isModalVisible == old(isModalVisible) && targetSettingsId == old(targetSettingsId)
    {
      symbols := ClearNamed(symbols);
    }

    /** Select(symbol): it becomes the selected symbol, and every other
        symbol ClearSelection names is deselected. */
    method Select(id: SymbolId)
      requires Valid()
      modifies this
      ensures Valid()
      ensures selectedSymbol == Some(id)
      ensures symbols == Selected(old(symbols), id)
      ensures State() == old(State())
      ensures commLossUpdates == old(commLossUpdates) && renderRequests == old(renderRequests)
      ensures isModalVisible == old(isModalVisible) && targetSettingsId == old(targetSettingsId)
    {
      selectedSymbol := Some(id);
      MarkThenSelect(symbols, id);
      symbols := symbols[id := symbols[id].(isSelected := true)];
      ClearSelection();
      symbols := symbols[id := symbols[id].(isSelected := true)];
    }

    /** SetAlarmState(state): on the selected symbol, if any. */
    method SetAlarmState(state: Int32)
      requires Valid()
      modifies this
      ensures Valid()
      ensures symbols == match old(selectedSymbol)
                         case Some(id) => old(symbols)[id := old(symbols[id]).(alarmState := state)]
                         case None => old(symbols)
      ensures State() == old(State()) && selectedSymbol == old(selectedSymbol)
      ensures commLossUpdates == old(commLossUpdates) && renderRequests == old(renderRequests)
      ensures isModalVisible == old(isModalVisible) && targetSettingsId == old(targetSettingsId)
    {
      if selectedSymbol.Some? {
        var id := selectedSymbol.value;
        symbols := symbols[id := symbols[id].(alarmState := state)];
      }
    }

    /** GetAlarmState(): the selected symbol's alarm, 0 without a selection. */
    function GetAlarmState(): (a: Int32)
      requires Valid()
      reads this
      ensures selectedSymbol.None? ==> a == 0
      ensures selectedSymbol.Some? ==> a == symbols[selectedSymbol.value].alarmState
    {
      match selectedSymbol
      case Some(id) => symbols[id].alarmState
      case None => 0
    }

    /** SetAlarmBlink(blink): on the selected symbol, if any. */
    method SetAlarmBlink(blink: bool)
      requires Valid()
      modifies this
      ensures Valid()
      ensures symbols == match old(selectedSymbol)
                         case Some(id) => old(symbols)[id := old(symbols[id]).(alarmBlink := blink)]
                         case None => old(symbols)
      ensures State() == old(State()) && selectedSymbol == old(selectedSymbol)
      ensures commLossUpdates == old(commLossUpdates) && renderRequests == old(renderRequests)
      ensures isModalVisible == old(isModalVisible) && targetSettingsId == old(targetSettingsId)
    {
      if selectedSymbol.Some? {
        var id := selectedSymbol.value;
        symbols := symbols[id := symbols[id].(alarmBlink := blink)];
      }
    }

    /** GetAlarmBlink(): the selected symbol's blink flag, false without a
        selection. */
    function GetAlarmBlink(): (b: bool)
      requires Valid()
      reads this
      ensures selectedSymbol.None? ==> !b
      ensures selectedSymbol.Some? ==> b == symbols[selectedSymbol.value].alarmBlink
    {
      match selectedSymbol
      case Some(id) => symbols[id].alarmBlink
      case None => false
    }

    /** ToggleEnable(): flips IsEnabled of the selected symbol, if any. */
    method ToggleEnable()
      requires Valid()
      modifies this
      ensures Valid()
      ensures symbols == match old(selectedSymbol)
                         case Some(id) => old(symbols)[id := old(symbols[id]).(isEnabled := !old(symbols[id].isEnabled))]
                         case None => old(symbols)
      ensures State() == old(State()) && selectedSymbol == old(selectedSymbol)
      ensures commLossUpdates == old(commLossUpdates) && renderRequests == old(renderRequests)
      ensures isModalVisible == old(isModalVisible) && targetSettingsId == old(targetSettingsId)
    {
      if selectedSymbol.Some? {
        var id := selectedSymbol.value;
        symbols := symbols[id := symbols[id].(isEnabled := !symbols[id].isEnabled)];
      }
    }

    /** ToggleCommLoss(): flips HasCommLoss of the selected symbol, if any;
        the watchdog state is not touched. */
    method ToggleCommLoss()
      requires Valid()
      modifies this
      ensures Valid()
      ensures symbols == match old(selectedSymbol)
                         case Some(id) => old(symbols)[id := old(symbols[id]).(hasCommLoss := !old(symbols[id].hasCommLoss))]
                         case None => old(symbols)
      ensures State() == old(State()) && selectedSymbol == old(selectedSymbol)
      ensures commLossUpdates == old(commLossUpdates) && renderRequests == old(renderRequests)
      ensures isModalVisible == old(isModalVisible) && targetSettingsId == old(targetSettingsId)
    {
      if selectedSymbol.Some? {
        var id := selectedSymbol.value;
        symbols := symbols[id := symbols[id].(hasCommLoss := !symbols[id].hasCommLoss)];
      }
    }

    /** OpenSettings(symbol): remember its name and show the dialog. */
    method OpenSettings(id: SymbolId)
      requires Valid()
      modifies this
      ensures Valid()
      ensures isModalVisible && targetSettingsId == Some(old(symbols[id].name))
      ensures symbols == old(symbols) && State() == old(State()) && selectedSymbol == old(selectedSymbol)
      ensures commLossUpdates == old(commLossUpdates) && renderRequests == old(renderRequests)
    {
      targetSettingsId := Some(symbols[id].name);
      isModalVisible := true;
    }

    /** OnConfirmSettings and OnCancelSettings both hide the dialog. */
    method CloseSettings()
      requires Valid()
      modifies this
      ensures Valid()
      ensures !isModalVisible && targetSettingsId == old(targetSettingsId)
      ensures symbols == old(symbols) && State() == old(State()) && selectedSymbol == old(selectedSymbol)
      ensures commLossUpdates == old(commLossUpdates) && renderRequests == old(renderRequests)
    {
      isModalVisible := false;
    }
  }

  /** Packets stop at time 0 and the timer fires every second from the third:
      loss is reported at the fourth second, not at the third, nothing more
      at the fifth, and a packet clears it. */
  lemma WatchdogTimeline()
    ensures Run(Watchdog(0, false),
                [Tick(3 * WatchdogPeriod), Tick(4 * WatchdogPeriod), Tick(5 * WatchdogPeriod),
                 Arrival(5 * WatchdogPeriod + 1)])
            == Trace(Watchdog(5 * WatchdogPeriod + 1, false), [true, false])
    ensures Run(Watchdog(0, false), [Tick(3 * WatchdogPeriod)]) == Trace(Watchdog(0, false), [])
    ensures Run(Watchdog(0, false), [Tick(3 * WatchdogPeriod), Tick(4 * WatchdogPeriod)])
            == Trace(Watchdog(0, true), [true])
  {
    var t3, t4, t5, a := Tick(3 * WatchdogPeriod), Tick(4 * WatchdogPeriod), Tick(5 * WatchdogPeriod),
                         Arrival(5 * WatchdogPeriod + 1);
    assert [t3][1..] == [] && [t4][1..] == [];
    assert Run(Watchdog(0, false), [t4]) == Trace(Watchdog(0, true), [true]);
    assert [t3, t4][1..] == [t4];
    var cleared := Watchdog(5 * WatchdogPeriod + 1, false);
    var lost := Watchdog(0, true);
    assert Run(lost, [a]) == Trace(cleared, [false]) by {
      assert [a][1..] == [];
    }
    assert Run(lost, [t5, a]) == Trace(cleared, [false]) by {
      assert [t5, a][1..] == [a];
    }
    assert Run(Watchdog(0, false), [t4, t5, a]) == Trace(cleared, [true, false]) by {
      assert [t4, t5, a][1..] == [t5, a];
    }
    assert [t3, t4, t5, a][1..] == [t4, t5, a];
  }

  /** A page whose packets stop: exactly three seconds is not yet a loss; one
      more tick marks every symbol. */
  method CommLossScenario()
  {
    var page := new SupervisionPage(0);
    page.WatchdogCallback(3 * WatchdogPeriod);
    assert page.commLossUpdates == [] && !page.isCommLoss;
    page.WatchdogCallback(4 * WatchdogPeriod);
    assert page.commLossUpdates == [true] && page.isCommLoss;
    assert forall i: SymbolId :: page.symbols[i].hasCommLoss;
  }

  /** A page in loss: the next packet clears every symbol at once. */
  method RecoveryScenario(data: UdpPacketData)
  {
    var page := new SupervisionPage(0);
    page.WatchdogCallback(4 * WatchdogPeriod);
    assert page.isCommLoss;
    page.HandleUdpData(5 * WatchdogPeriod, data);
    assert page.commLossUpdates == [true, false] && !page.isCommLoss;
    assert forall i: SymbolId :: !page.symbols[i].hasCommLoss;
  }

  /** Without a selection the panel actions change nothing; on a selected
      symbol two toggles restore it. */
  method PanelScenario()
  {
    var page := new SupervisionPage(0);
    page.ToggleEnable();
    page.SetAlarmState(2);
    assert page.symbols == InitialSymbols() && page.GetAlarmState() == 0;
    page.Select(Valve1);
    page.SetAlarmState(2);
    assert page.GetAlarmState() == 2;
    var before := page.symbols;
    page.ToggleEnable();
    page.ToggleEnable();
    assert page.symbols == before;
  }
}
