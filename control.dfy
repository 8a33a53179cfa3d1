/** The interactive control state both front ends keep beside the
    simulator: the pause flag, the update rate and the commands that keys
    trigger, with the pause-gated generation step of the run loops. */
module Control {
  import opened LifeRules
  import opened Simulation

  datatype Option<T> = None | Some(value: T)

  // The simulation configuration table.
  const MinSpeed: int := 1
  const MaxSpeed: int := 60
  const SpeedIncrement: nat := 5
  const DefaultFps: int := 10
  /** The text front end moves the rate by one per key press. */
  const TextSpeedStep: nat := 1

  function Min(a: int, b: int): int { if a <= b then a else b }
  function Max(a: int, b: int): int { if a >= b then a else b }

  predicate RateInRange(rate: int) { MinSpeed <= rate <= MaxSpeed }

  /** The rate after one speed-up by `step`: never above the maximum. */
  function Faster(rate: int, step: nat): (r: int)
    ensures r <= MaxSpeed
    ensures r == MaxSpeed || r == rate + step
    ensures rate <= MaxSpeed ==> rate <= r
    ensures rate + step <= MaxSpeed ==> r == rate + step
  {
    Min(MaxSpeed, rate + step)
  }

  /** The rate after one slow-down by `step`: never below the minimum. */
  function Slower(rate: int, step: nat): (r: int)
    ensures MinSpeed <= r
    ensures r == MinSpeed || r == rate - step
    ensures MinSpeed <= rate ==> r <= rate
    ensures MinSpeed <= rate - step ==> r == rate - step
  {
    Max(MinSpeed, rate - step)
  }

  /** Both speed commands keep a rate inside [MinSpeed, MaxSpeed], whatever the step. */
  lemma SpeedStaysInRange(rate: int, step: nat)
    requires RateInRange(rate)
    ensures RateInRange(Faster(rate, step)) && RateInRange(Slower(rate, step))
  {
  }

  /** Once at a bound, further presses in that direction change nothing. */
  lemma SpeedIdempotentAtBounds(step: nat)
    ensures Faster(MaxSpeed, step) == MaxSpeed
    ensures Slower(MinSpeed, step) == MinSpeed
  {
  }

  /** Away from the bounds, a slow-down undoes a speed-up of the same step. */
  lemma SlowerUndoesFaster(rate: int, step: nat)
    requires MinSpeed + step <= rate + step <= MaxSpeed
    ensures Slower(Faster(rate, step), step) == rate
  {
  }

  /** The rate after `n` speed-ups in a row. */
  function FasterTimes(rate: int, step: nat, n: nat): int
    decreases n
  {
    if n == 0 then rate else FasterTimes(Faster(rate, step), step, n - 1)
  }

  /** The rate after `n` slow-downs in a row. */
  function SlowerTimes(rate: int, step: nat, n: nat): int
    decreases n
  {
    if n == 0 then rate else SlowerTimes(Slower(rate, step), step, n - 1)
  }

  lemma {:induction false} FasterTimesFromMax(step: nat, n: nat)
    ensures FasterTimes(MaxSpeed, step, n) == MaxSpeed
  {
    if n > 0 {
      FasterTimesFromMax(step, n - 1);
    }
  }

  lemma {:induction false} SlowerTimesFromMin(step: nat, n: nat)
    ensures SlowerTimes(MinSpeed, step, n) == MinSpeed
  {
    if n > 0 {
      SlowerTimesFromMin(step, n - 1);
    }
  }

  /** Pressing speed-up often enough pins the rate at the maximum. */
  lemma {:induction false} RepeatedFasterPinsAtMax(rate: int, step: nat, n: nat)
    requires RateInRange(rate) && step >= 1
    requires n >= MaxSpeed - rate
    ensures FasterTimes(rate, step, n) == MaxSpeed
    decreases n
  {
    if rate == MaxSpeed {
      FasterTimesFromMax(step, n);
    } else {
      RepeatedFasterPinsAtMax(Faster(rate, step), step, n - 1);
    }
  }

  /** Pressing slow-down often enough pins the rate at the minimum. */
  lemma {:induction false} RepeatedSlowerPinsAtMin(rate: int, step: nat, n: nat)
    requires RateInRange(rate) && step >= 1
    requires n >= rate - MinSpeed
    ensures SlowerTimes(rate, step, n) == MinSpeed
    decreases n
  {
    if rate == MinSpeed {
      SlowerTimesFromMin(step, n);
    } else {
      RepeatedSlowerPinsAtMin(Slower(rate, step), step, n - 1);
    }
  }

  // ---------------------------------------------------------------------
  // Session state and commands

  /** What a front end holds: the simulator's grid, the pause flag and the rate. */
  datatype Session = Session(rows: nat, cols: nat, grid: Cells, paused: bool, rate: int)

  /** The invariant every reachable session keeps. */
  predicate ValidSession(s: Session) {
    IsBinary(s.grid, s.rows, s.cols) && RateInRange(s.rate)
  }

  /** The commands a key press can issue; the speed commands carry the
      front end's step. */
  datatype Command = TogglePause | ResetRandom | Clear | SpeedUp(step: nat) | SpeedDown(step: nat)

  /** The effect of one command. Only a reset draws random bits. */
  function Apply(s: Session, cmd: Command, draw: Draw): (t: Session)
    requires IsGrid(s.grid, s.rows, s.cols)
    ensures t.rows == s.rows && t.cols == s.cols && IsGrid(t.grid, t.rows, t.cols)
    ensures t.paused != s.paused <==> cmd.TogglePause?
    ensures t.rate != s.rate ==> cmd.SpeedUp? || cmd.SpeedDown?
    ensures t.grid != s.grid ==> cmd.ResetRandom? || cmd.Clear?
  {
    match cmd
    case TogglePause => s.(paused := !s.paused)
    case ResetRandom => s.(grid := Created(s.rows, s.cols, true, draw))
    case Clear => s.(grid := Created(s.rows, s.cols, false, draw))
    case SpeedUp(step) => s.(rate := Faster(s.rate, step))
    case SpeedDown(step) => s.(rate := Slower(s.rate, step))
  }

  /** The loop's gated step: a new generation unless paused. */
  function Advance(s: Session): (t: Session)
    requires IsGrid(s.grid, s.rows, s.cols)
    ensures t.rows == s.rows && t.cols == s.cols && t.paused == s.paused && t.rate == s.rate
    ensures s.paused ==> t == s
    ensures !s.paused ==> t.grid == Next(s.grid, s.rows, s.cols)
  {
    if s.paused then s else s.(grid := Next(s.grid, s.rows, s.cols))
  }

  /** A key that maps to no command leaves the session as it is. */
  function ApplyKey(s: Session, cmd: Option<Command>, draw: Draw): (t: Session)
    requires IsGrid(s.grid, s.rows, s.cols)
    ensures t.rows == s.rows && t.cols == s.cols
    ensures cmd.None? ==> t == s
    ensures t.paused != s.paused <==> cmd == Some(TogglePause)
  {
    match cmd
    case None => s
    case Some(c) => Apply(s, c, draw)
  }

  /** Every command and every tick keeps the session invariant: the grid
      keeps its shape and its 0/1 cells, and the rate stays in range. */
  lemma CommandsKeepValid(s: Session, cmd: Command, draw: Draw)
    requires ValidSession(s)
    ensures ValidSession(Apply(s, cmd, draw))
    ensures ValidSession(Advance(s))
  {
  }

  /** Toggling pause twice restores the session. */
  lemma ToggleTwiceRestores(s: Session, d1: Draw, d2: Draw)
    requires IsGrid(s.grid, s.rows, s.cols)
    ensures Apply(Apply(s, TogglePause, d1), TogglePause, d2) == s
  {
  }

  /** Reset and clear replace only the grid: same shape, same pause flag and
      rate; clear leaves every cell dead, reset leaves every cell 0 or 1. */
  lemma ResetAndClearKeepControls(s: Session, draw: Draw)
    requires IsGrid(s.grid, s.rows, s.cols)
    ensures var t := Apply(s, ResetRandom, draw);
            t.paused == s.paused && t.rate == s.rate && IsBinary(t.grid, s.rows, s.cols)
    ensures var t := Apply(s, Clear, draw);
            t.paused == s.paused && t.rate == s.rate && t.grid == Zeroed(s.rows, s.cols)
  {
  }

  /** A tick while paused is a no-op, and stays one however often it repeats. */
  lemma PausedTickIsNoOp(s: Session)
    requires IsGrid(s.grid, s.rows, s.cols) && s.paused
    ensures Advance(Advance(s)) == s
  {
  }

  /** After a clear, the next tick leaves the grid cleared, whether the
      session is paused or running. */
  lemma ClearedSessionStaysClear(s: Session, draw: Draw)
    requires IsGrid(s.grid, s.rows, s.cols)
    ensures Advance(Apply(s, Clear, draw)).grid == Zeroed(s.rows, s.cols)
  {
    ZeroedIsFixedPoint(s.rows, s.cols);
  }

  // ---------------------------------------------------------------------
  // Key bindings

  const Escape: char := '\U{1B}'

  /** The text front end's bindings. Escape ends the loop, which is not
      session state, so it maps to no command. */
  function TextKeyCommand(key: Option<char>): (c: Option<Command>)
    ensures c.Some? && c.value.SpeedUp? ==> c.value.step == TextSpeedStep
    ensures c.Some? && c.value.SpeedDown? ==> c.value.step == TextSpeedStep
  {
    match key
    case None => None
    case Some(k) =>
      if k == ' ' then Some(TogglePause)
      else if k == 'r' || k == 'R' then Some(ResetRandom)
      else if k == 'c' || k == 'C' then Some(Clear)
      else if k == Escape then None
      else if k == '+' || k == '=' then Some(SpeedUp(TextSpeedStep))
      else if k == '-' then Some(SpeedDown(TextSpeedStep))
      else None
  }

  /** The keys the graphical front end distinguishes: one constructor per
      named pygame key, and `KOther` for every other key code. */
  datatype GuiKey = KSpace | KR | KC | KUp | KPlus | KKpPlus | KDown | KMinus | KKpMinus | KEscape | KOther(code: int)

  /** The graphical front end's bindings. */
  function GuiKeyCommand(key: GuiKey): (c: Option<Command>)
    ensures c.Some? && c.value.SpeedUp? ==> c.value.step == SpeedIncrement
    ensures c.Some? && c.value.SpeedDown? ==> c.value.step == SpeedIncrement
  {
    match key
    case KSpace => Some(TogglePause)
    case KR => Some(ResetRandom)
    case KC => Some(Clear)
    case KUp | KPlus | KKpPlus => Some(SpeedUp(SpeedIncrement))
    case KDown | KMinus | KKpMinus => Some(SpeedDown(SpeedIncrement))
    case KEscape | KOther(_) => None
  }

  /** The complete text key map: which characters trigger which command;
      every other character, Escape included, triggers none. */
  lemma TextBindings()
    ensures forall k: char :: TextKeyCommand(Some(k)) == Some(TogglePause) <==> k == ' '
    ensures forall k: char :: TextKeyCommand(Some(k)) == Some(ResetRandom) <==> k == 'r' || k == 'R'
    ensures forall k: char :: TextKeyCommand(Some(k)) == Some(Clear) <==> k == 'c' || k == 'C'
    ensures forall k: char :: TextKeyCommand(Some(k)) == Some(SpeedUp(1)) <==> k == '+' || k == '='
    ensures forall k: char :: TextKeyCommand(Some(k)) == Some(SpeedDown(1)) <==> k == '-'
    ensures forall k: char :: TextKeyCommand(Some(k)).None? <==> k !in {' ', 'r', 'R', 'c', 'C', '+', '=', '-'}
  {
  }

  /** The complete graphical key map, with the configured speed step. */
  lemma GuiBindings()
    ensures forall k :: GuiKeyCommand(k) == Some(TogglePause) <==> k == KSpace
    ensures forall k :: GuiKeyCommand(k) == Some(ResetRandom) <==> k == KR
    ensures forall k :: GuiKeyCommand(k) == Some(Clear) <==> k == KC
    ensures forall k :: GuiKeyCommand(k) == Some(SpeedUp(5)) <==> k == KUp || k == KPlus || k == KKpPlus
    ensures forall k :: GuiKeyCommand(k) == Some(SpeedDown(5)) <==> k == KDown || k == KMinus || k == KKpMinus
    ensures forall k :: GuiKeyCommand(k).None? <==> k == KEscape || k.KOther?
  {
  }

  /** The two front ends issue the same commands and differ only in the
      speed step; `=`, `R` and `C` are text-only keys, the arrow and keypad
      keys GUI-only. */
  lemma FrontEndsDifferOnlyInStep()
    ensures TextKeyCommand(Some(' ')) == GuiKeyCommand(KSpace) == Some(TogglePause)
    ensures TextKeyCommand(Some('r')) == TextKeyCommand(Some('R')) == GuiKeyCommand(KR) == Some(ResetRandom)
    ensures TextKeyCommand(Some('c')) == TextKeyCommand(Some('C')) == GuiKeyCommand(KC) == Some(Clear)
    ensures forall k :: k in {'+', '='} ==> TextKeyCommand(Some(k)) == Some(SpeedUp(1))
    ensures forall k :: k in {KUp, KPlus, KKpPlus} ==> GuiKeyCommand(k) == Some(SpeedUp(5))
    ensures TextKeyCommand(Some('-')) == Some(SpeedDown(1))
    ensures forall k :: k in {KDown, KMinus, KKpMinus} ==> GuiKeyCommand(k) == Some(SpeedDown(5))
  {
  }

  /** One pass of the text loop: read a key, then the gated tick. */
  function TextRound(s: Session, key: Option<char>, draw: Draw): (t: Session)
    requires IsGrid(s.grid, s.rows, s.cols)
    ensures t.rows == s.rows && t.cols == s.cols
    ensures key.None? ==> t == Advance(s)
    ensures t.paused != s.paused <==> key == Some(' ')
  {
    Advance(ApplyKey(s, TextKeyCommand(key), draw))
  }

  /** The key is handled before the tick: pausing in a round already holds
      that round's generation back, and resuming lets it run. */
  lemma PauseTakesEffectInSameRound(s: Session, draw: Draw)
    requires IsGrid(s.grid, s.rows, s.cols)
    ensures !s.paused ==> TextRound(s, Some(' '), draw) == s.(paused := true)
    ensures s.paused ==> TextRound(s, Some(' '), draw) == s.(paused := false, grid := Next(s.grid, s.rows, s.cols))
  {
  }

  // ---------------------------------------------------------------------
  // The controller object

  /** A front end's control state around a shared simulator. */
  class Controller {
    const sim: LifeSimulator
    var paused: bool
    var rate: int

    ghost predicate Valid()
      reads this, sim, sim.grid
    {
      sim.Valid() && RateInRange(rate)
    }

    /** The session this object represents. */
    ghost function State(): Session
      reads this, sim, sim.grid
    {
      Session(sim.rows, sim.cols, sim.Cells(), paused, rate)
    }

    /** A front end starts running, at the default rate. */
    constructor (sim: LifeSimulator)
      requires sim.Valid()
      ensures Valid() && this.sim == sim
      ensures State() == Session(sim.rows, sim.cols, sim.Cells(), false, DefaultFps)
    {
      this.sim := sim;
      paused, rate := false, DefaultFps;
    }

    /** Carries out one command on the control state and the simulator's grid. */
    method Execute(cmd: Command, draw: Draw)
      requires Valid()
      modifies this, sim
      ensures Valid() && State() == Apply(old(State()), cmd, draw)
    {
      match cmd
      case TogglePause =>
        paused := !paused;
      case ResetRandom =>
        sim.grid := LifeSimulator.CreateGrid(sim.rows, sim.cols, true, draw);
      case Clear =>
        sim.grid := LifeSimulator.CreateGrid(sim.rows, sim.cols, false, draw);
      case SpeedUp(step) =>
        rate := Min(MaxSpeed, rate + step);
      case SpeedDown(step) =>
        rate := Max(MinSpeed, rate - step);
    }

    /** The text front end's key handling; `None` is "no key pending". */
    method HandleTextInput(key: Option<char>, draw: Draw)
      requires Valid()
      modifies this, sim
      ensures Valid() && State() == ApplyKey(old(State()), TextKeyCommand(key), draw)
    {
      var cmd := TextKeyCommand(key);
      if cmd.Some? {
        Execute(cmd.value, draw);
      }
    }

    /** The graphical front end's key handling. */
    method HandleGuiKeydown(key: GuiKey, draw: Draw)
      requires Valid()
      modifies this, sim
      ensures Valid() && State() == ApplyKey(old(State()), GuiKeyCommand(key), draw)
    {
      var cmd := GuiKeyCommand(key);
      if cmd.Some? {
        Execute(cmd.value, draw);
      }
    }

    /** The body of the run loops after input: a generation unless paused. */
    method Tick()
      requires Valid()
      modifies sim
      ensures Valid() && State() == Advance(old(State()))
    {
      if !paused {
        sim.NextGeneration();
      }
    }

    /** One pass of the text loop, display and sleep aside. */
    method TextIteration(key: Option<char>, draw: Draw)
      requires Valid()
      modifies this, sim
      ensures Valid() && State() == TextRound(old(State()), key, draw)
    {
      HandleTextInput(key, draw);
      Tick();
    }
  }
}
