/** The interactive counter: buttons that step, reset and auto-increment a count, with a short
    animation flag after each manual step. Each handler reports one interaction. */
module InteractiveCounter {
  import opened Common

  /** The component's three state variables. */
  datatype CounterState = CounterState(count: int, isAnimating: bool, autoIncrement: bool)

  /** What can happen to the counter: the four buttons, a tick of the one-second interval and the
      end of the 200 ms animation timeout. */
  datatype Action = Increment | Decrement | Reset | ToggleAuto | Tick | AnimationEnd

  const Initial := CounterState(0, false, false)

  /** The state after an action. The interval only exists while auto-increment is on, so a tick
      while it is off changes nothing. */
  function Step(s: CounterState, a: Action): CounterState {
    match a
    case Increment => s.(count := s.count + 1, isAnimating := true)
    case Decrement => s.(count := s.count - 1, isAnimating := true)
    case Reset => s.(count := 0, autoIncrement := false)
    case ToggleAuto => s.(autoIncrement := !s.autoIncrement)
    case Tick => if s.autoIncrement then s.(count := s.count + 1) else s
    case AnimationEnd => s.(isAnimating := false)
  }

  /** The interaction an action reports to the page, if any. */
  function Reported(s: CounterState, a: Action): Option<string> {
    match a
    case Increment => Some("increment")
    case Decrement => Some("decrement")
    case Reset => Some("reset")
    case ToggleAuto => Some("toggle-auto")
    case Tick => if s.autoIncrement then Some("auto-increment") else None
    case AnimationEnd => None
  }

  /** Increment and decrement move the count by one in opposite directions and start the animation;
      nothing else is touched. */
  lemma StepsMoveByOne(s: CounterState)
    ensures Step(s, Increment).count == s.count + 1 && Step(s, Decrement).count == s.count - 1
    ensures Step(s, Increment).isAnimating && Step(s, Decrement).isAnimating
    ensures Step(s, Increment).autoIncrement == s.autoIncrement == Step(s, Decrement).autoIncrement
  {
  }

  /** An increment followed by a decrement restores the count (and leaves the animation on). */
  lemma IncrementThenDecrement(s: CounterState)
    ensures Step(Step(s, Increment), Decrement) == s.(isAnimating := true)
  {
  }

  /** Reset reaches count 0 with auto-increment off from any state, and a second reset changes
      nothing. */
  lemma ResetIsIdempotent(s: CounterState)
    ensures Step(s, Reset).count == 0 && !Step(s, Reset).autoIncrement
    ensures Step(Step(s, Reset), Reset) == Step(s, Reset)
  {
  }

  /** Toggling auto-increment twice restores the state. */
  lemma ToggleTwice(s: CounterState)
    ensures Step(s, ToggleAuto).autoIncrement != s.autoIncrement
    ensures Step(Step(s, ToggleAuto), ToggleAuto) == s
  {
  }

  /** A tick raises the count exactly when auto-increment is on, and reports exactly then. */
  lemma TickOnlyWhileAuto(s: CounterState)
    ensures Step(s, Tick).count != s.count <==> s.autoIncrement
    ensures Reported(s, Tick).Some? <==> s.autoIncrement
    ensures Step(s, Tick).count - s.count in {0, 1}
  {
  }

  /** The four buttons each report exactly one interaction; the animation timeout reports none. */
  lemma ButtonsReportOnce(s: CounterState, a: Action)
    ensures Reported(s, a).Some? <==> a != AnimationEnd && (a == Tick ==> s.autoIncrement)
  {
  }

  /** Number of actions in `actions` that can raise the count: increments and ticks. */
  function Ups(actions: seq<Action>): nat {
    if actions == [] then 0
    else (if actions[0] in {Increment, Tick} then 1 else 0) + Ups(actions[1..])
  }

  function Downs(actions: seq<Action>): nat {
    if actions == [] then 0
    else (if actions[0] == Decrement then 1 else 0) + Downs(actions[1..])
  }

  function Run(s: CounterState, actions: seq<Action>): CounterState
    decreases |actions|
  {
    if actions == [] then s else Run(Step(s, actions[0]), actions[1..])
  }

  /** Without a reset, the count never moves further than the increments, ticks and decrements
      allow. */
  lemma {:induction false} RunWithoutReset(s: CounterState, actions: seq<Action>)
    requires Reset !in actions
    ensures s.count - Downs(actions) <= Run(s, actions).count <= s.count + Ups(actions)
    decreases |actions|
  {
    if actions != [] {
      assert Reset !in actions[1..] by { assert forall a :: a in actions[1..] ==> a in actions; }
      RunWithoutReset(Step(s, actions[0]), actions[1..]);
    }
  }

  /** The component, with one field per state variable. */
  class Counter {
    var count: int
    var isAnimating: bool
    var autoIncrement: bool

    constructor ()
      ensures State() == Initial
    {
      count, isAnimating, autoIncrement := 0, false, false;
    }

    function State(): CounterState
      reads this
    {
      CounterState(count, isAnimating, autoIncrement)
    }

    /** `handleIncrement` */
    method HandleIncrement() returns (event: string)
      modifies this
      ensures State() == Step(old(State()), Increment)
      ensures Some(event) == Reported(old(State()), Increment)
    {
      count := count + 1;
      isAnimating := true;
      event := "increment";
    }

    /** `handleDecrement` */
    method HandleDecrement() returns (event: string)
      modifies this
      ensures State() == Step(old(State()), Decrement)
      ensures Some(event) == Reported(old(State()), Decrement)
    {
      count := count - 1;
      isAnimating := true;
      event := "decrement";
    }

    /** `handleReset` */
    method HandleReset() returns (event: string)
      modifies this
      ensures State() == Step(old(State()), Reset)
      ensures Some(event) == Reported(old(State()), Reset)
    {
      count := 0;
      autoIncrement := false;
      event := "reset";
    }

    /** `toggleAutoIncrement` */
    method ToggleAutoIncrement() returns (event: string)
      modifies this
      ensures State() == Step(old(State()), ToggleAuto)
      ensures Some(event) == Reported(old(State()), ToggleAuto)
    {
      autoIncrement := !autoIncrement;
      event := "toggle-auto";
    }

    /** One firing of the interval, which is installed only while auto-increment is on. */
    method IntervalTick() returns (event: Option<string>)
      modifies this
      ensures State() == Step(old(State()), Tick)
      ensures event == Reported(old(State()), Tick)
    {
      if autoIncrement {
        count := count + 1;
        event := Some("auto-increment");
      } else {
        event := None;
      }
    }

    /** The 200 ms timeout after a step. */
    method AnimationTimeout()
      modifies this
      ensures State() == Step(old(State()), AnimationEnd)
    {
      isAnimating := false;
    }
  }
}
