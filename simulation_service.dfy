/** SimulationService: a motor speed and a tank level that wander in
    [0, 100], a valve toggled at random and an alarm derived from the speed.

    The values are doubles in the service, but they start at 0 and 50 and
    change by whole numbers, so they are integers here. Each timer tick's
    random draws are parameters whose types are the draws' ranges. */
module SimulationService {

  /** `Next(-2, 3)`: the upper bound is exclusive. */
  type SpeedDraw = d: int | -2 <= d <= 2
  /** `Next(-1, 2)`. */
  type LevelDraw = d: int | -1 <= d <= 1
  /** `Next(0, 50)`. */
  type ValveDraw = d: int | 0 <= d < 50

  const MinValue: int := 0
  const MaxValue: int := 100

  /** Math.Clamp(x, 0, 100). */
  function Clamp(x: int): (r: int)
    ensures MinValue <= r <= MaxValue
    ensures MinValue <= x <= MaxValue ==> r == x
    ensures x < MinValue ==> r == MinValue
    ensures x > MaxValue ==> r == MaxValue
  {
    if x < MinValue then MinValue else if x > MaxValue then MaxValue else x
  }

  /** 0 = none, 1 = warning (above 75), 2 = error (above 90). */
  function AlarmFor(speed: int): (a: int)
    ensures a == 2 <==> speed > 90
    ensures a == 1 <==> 75 < speed <= 90
    ensures a == 0 <==> speed <= 75
  {
    if speed > 90 then 2 else if speed > 75 then 1 else 0
  }

  datatype SimState = SimState(motorSpeed: int, tankLevel: int, isValveOpen: bool, alarmState: int)

  const Initial := SimState(0, 50, false, 0)

  predicate InRange(s: SimState) {
    MinValue <= s.motorSpeed <= MaxValue && MinValue <= s.tankLevel <= MaxValue
  }

  /** One OnTimerElapsed step, with its three draws. */
  function Tick(s: SimState, speed: SpeedDraw, level: LevelDraw, valve: ValveDraw): SimState {
    var motorSpeed := Clamp(s.motorSpeed + speed);
    SimState(motorSpeed, Clamp(s.tankLevel + level),
             if valve == 0 then !s.isValveOpen else s.isValveOpen,
             AlarmFor(motorSpeed))
  }

  /** What a tick changes, from any state: both values land in [0, 100], a
      value in range moves by at most its draw's bound, the valve flips iff
      its draw is 0, and the alarm classifies the new speed. */
  lemma TickProperties(s: SimState, speed: SpeedDraw, level: LevelDraw, valve: ValveDraw)
    ensures InRange(Tick(s, speed, level, valve))
    ensures InRange(s) ==> -2 <= Tick(s, speed, level, valve).motorSpeed - s.motorSpeed <= 2
    ensures InRange(s) ==> -1 <= Tick(s, speed, level, valve).tankLevel - s.tankLevel <= 1
    ensures Tick(s, speed, level, valve).isValveOpen != s.isValveOpen <==> valve == 0
    ensures Tick(s, speed, level, valve).alarmState == AlarmFor(Tick(s, speed, level, valve).motorSpeed)
  {
  }

  datatype Draws = Draws(speed: SpeedDraw, level: LevelDraw, valve: ValveDraw)

  function Simulate(s: SimState, draws: seq<Draws>): SimState
    decreases |draws|
  {
    if draws == [] then s
    else
      var d := draws[|draws| - 1];
      Tick(Simulate(s, draws[..|draws| - 1]), d.speed, d.level, d.valve)
  }

  /** Any sequence of ticks from the initial state stays in range, and after
      at least one tick the alarm agrees with the speed. */
  lemma {:induction false} SimulateInRange(draws: seq<Draws>)
    ensures InRange(Simulate(Initial, draws))
    ensures draws != [] ==> Simulate(Initial, draws).alarmState == AlarmFor(Simulate(Initial, draws).motorSpeed)
    ensures Simulate(Initial, draws).motorSpeed <= 2 * |draws|
    decreases |draws|
  {
    if draws != [] {
      SimulateInRange(draws[..|draws| - 1]);
    }
  }

  class Simulation {
    var motorSpeed: int
    var tankLevel: int
    var isValveOpen: bool
    var alarmState: int
    /** Number of OnChange notifications raised. */
    var changeEvents: nat

    function State(): SimState
      reads this
    {
      SimState(motorSpeed, tankLevel, isValveOpen, alarmState)
    }

    constructor ()
      ensures State() == Initial && InRange(State()) && changeEvents == 0
    {
      motorSpeed, tankLevel, isValveOpen, alarmState := 0, 50, false, 0;
      changeEvents := 0;
    }

    /** OnTimerElapsed with the tick's draws, notifying once at the end. */
    method OnTimerElapsed(speed: SpeedDraw, level: LevelDraw, valve: ValveDraw)
      modifies this
      ensures State() == Tick(old(State()), speed, level, valve)
      ensures changeEvents == old(changeEvents) + 1
    {
      motorSpeed := Clamp(motorSpeed + speed);
      tankLevel := Clamp(tankLevel + level);
      if valve == 0 {
        isValveOpen := !isValveOpen;
      }
      if motorSpeed > 90 {
        alarmState := 2;
      } else if motorSpeed > 75 {
        alarmState := 1;
      } else {
        alarmState := 0;
      }
      changeEvents := changeEvents + 1;
    }
  }
}
