/** The per-building state machines of the game field
    (controller_modules/controller/src/buildings.py): a fire building whose
    fire level falls by one per successful douse while its score rises, and a
    two-state heater.

    Both run on a small state-machine library whose semantics are modelled
    directly: the current state's handler for the event runs first, then the
    transition table is consulted; with no transition nothing else happens,
    otherwise the target state is entered and its "enter" handler runs. */
module Buildings {
  import opened Common

  datatype FireState = Idle | OnFire | Extinguished

  /** The events both building machines understand. `FireExtinguished` is
      only ever sent by the fire building to itself. */
  datatype BuildingEvent = Ignition | FireDoused | FireExtinguished | ResetEvent

  const FIRE_DOUSE_AMOUNT: int := 1
  const DEFAULT_INITIAL_FIRE_LEVEL: int := 16

  /** The state names the machine reports, read by the status publisher. */
  function FireStateName(s: FireState): (name: string)
    ensures name == "idle_state" <==> s == Idle
    ensures name == "on_fire_state" <==> s == OnFire
    ensures name == "extinguished_state" <==> s == Extinguished
  {
    match s
    case Idle => "idle_state"
    case OnFire => "on_fire_state"
    case Extinguished => "extinguished_state"
  }

  /** Everything a fire building holds at one moment. `pendingIgnitions`
      counts the one-second re-ignition timers started by entering
      extinguished that have not fired yet. */
  datatype FireView = FireView(
    initial: int,
    state: FireState,
    level: int,
    score: int,
    autoIgnite: bool,
    pendingIgnitions: nat)

  /** The invariant the machine keeps: score never negative, idle means a
      cleared building, and for a positive initial level the fire level stays
      within [0, initial] and is positive exactly while the building burns. */
  ghost predicate FireInv(f: FireView)
  {
    && f.score >= 0
    && (f.state == Idle ==> f.level == 0 && f.score == 0)
    && (f.initial >= 1 ==>
          0 <= f.level <= f.initial && (f.level > 0 <==> f.state == OnFire))
  }

  /** The transition table: ignition from idle or extinguished, reset from
      burning or extinguished, and the internal extinguish edge. */
  function FireTransition(s: FireState, e: BuildingEvent): (t: Option<FireState>)
    ensures t == Some(OnFire) <==> e == Ignition && s != OnFire
    ensures t == Some(Idle) <==> e == ResetEvent && s != Idle
    ensures t == Some(Extinguished) <==> e == FireExtinguished && s == OnFire
  {
    match (s, e)
    case (Idle, Ignition) => Some(OnFire)
    case (Extinguished, Ignition) => Some(OnFire)
    case (OnFire, ResetEvent) => Some(Idle)
    case (Extinguished, ResetEvent) => Some(Idle)
    case (OnFire, FireExtinguished) => Some(Extinguished)
    case _ => None
  }

  /** The "enter" handlers: idle clears score and level, burning restores
      the initial level, extinguished arms a re-ignition when auto-ignite is
      on. */
  function EnterFire(f: FireView): FireView
  {
    match f.state
    case Idle => f.(score := 0, level := 0)
    case OnFire => f.(level := f.initial)
    case Extinguished =>
      if f.autoIgnite then f.(pendingIgnitions := f.pendingIgnitions + 1) else f
  }

  /** Consult the table for the current state; with a transition, change
      state and run the target's enter handler. */
  function Transit(f: FireView, e: BuildingEvent): FireView
  {
    match FireTransition(f.state, e)
    case None => f
    case Some(t) => EnterFire(f.(state := t))
  }

  /** The douse handler, installed only in the burning state: with enough
      fire left it moves one unit from the level to the score, and when the
      fire is out it sends itself the extinguish event (which no state has a
      handler for, so only the table acts on it). */
  function DousedAction(f: FireView): FireView
  {
    if f.state == OnFire && f.level >= FIRE_DOUSE_AMOUNT then
      var g := f.(level := f.level - FIRE_DOUSE_AMOUNT, score := f.score + FIRE_DOUSE_AMOUNT);
      if g.level <= 0 then Transit(g, FireExtinguished) else g
    else
      f
  }

  /** One dispatch: handler first, then the table. Every event but the
      internal extinguish edge keeps the invariant. */
  function FireDispatch(f: FireView, e: BuildingEvent): (g: FireView)
    ensures FireInv(f) && e != FireExtinguished ==> FireInv(g)
    ensures g.initial == f.initial
  {
    var handled := if f.state == OnFire && e == FireDoused then DousedAction(f) else f;
    Transit(handled, e)
  }

  /** `ignite`: a building that is not burning catches fire at its initial
      level keeping its score; a burning building is left alone. */
  function AfterIgnite(f: FireView): (g: FireView)
    ensures f.state != OnFire ==>
              g == f.(state := OnFire, level := f.initial)
    ensures f.state == OnFire ==> g == f
  {
    FireDispatch(f, Ignition)
  }

  /** `douse_fire`: only a burning building with fire left reacts; it loses
      one level and gains one point, and becomes extinguished exactly when the
      level reaches zero, arming a re-ignition when auto-ignite is on. */
  function AfterDouse(f: FireView): (g: FireView)
    ensures f.state != OnFire || f.level < FIRE_DOUSE_AMOUNT ==> g == f
    ensures f.state == OnFire && f.level >= FIRE_DOUSE_AMOUNT ==>
              && g.level == f.level - 1
              && g.score == f.score + 1
              && g.autoIgnite == f.autoIgnite
              && (g.state == Extinguished <==> g.level <= 0)
              && (g.state != Extinguished ==> g.state == OnFire)
              && g.pendingIgnitions ==
                   f.pendingIgnitions + (if g.level <= 0 && f.autoIgnite then 1 else 0)
  {
    FireDispatch(f, FireDoused)
  }

  /** `reset`: a burning or extinguished building returns to idle with score
      and level cleared; an idle one is left alone. Re-ignitions already
      armed stay armed. */
  function AfterReset(f: FireView): (g: FireView)
    ensures f.state != Idle ==> g == f.(state := Idle, level := 0, score := 0)
    ensures f.state == Idle ==> g == f
  {
    FireDispatch(f, ResetEvent)
  }

  /** The armed re-ignition timer firing: it sends an ignition whatever the
      building's state or auto-ignite flag is by then. */
  function AfterReignite(f: FireView): (g: FireView)
    requires f.pendingIgnitions > 0
    ensures g.pendingIgnitions == f.pendingIgnitions - 1
    ensures g.state == OnFire
    ensures f.state != OnFire ==> g.level == f.initial
    ensures g.score == f.score
  {
    AfterIgnite(f.(pendingIgnitions := f.pendingIgnitions - 1))
  }

  /** `n` successive douses. */
  function Douses(f: FireView, n: nat): FireView
    decreases n
  {
    if n == 0 then f else Douses(AfterDouse(f), n - 1)
  }

  /** Dousing a burning building `n` times, `n` no more than its level,
      lowers the level by `n` and raises the score by `n`; it is still burning
      until the `n`-th douse takes the last unit, which extinguishes it and
      arms exactly one re-ignition if auto-ignite is on. */
  lemma {:induction false} DousesFromBurning(f: FireView, n: nat)
    requires f.state == OnFire && 1 <= f.level && n <= f.level
    ensures Douses(f, n).level == f.level - n
    ensures Douses(f, n).score == f.score + n
    ensures Douses(f, n).state == (if n < f.level then OnFire else Extinguished)
    ensures Douses(f, n).pendingIgnitions ==
              f.pendingIgnitions + (if n == f.level && f.autoIgnite then 1 else 0)
    ensures Douses(f, n).autoIgnite == f.autoIgnite
    decreases n
  {
    if n > 0 {
      var g := AfterDouse(f);
      if f.level == 1 {
        assert g.state == Extinguished && g.level == 0;
        assert Douses(g, n - 1) == g;
      } else {
        DousesFromBurning(g, n - 1);
      }
    }
  }

  /** The douse scenario from any building that is not burning: ignite it,
      then douse `n <= initial` times. The score is not cleared by ignition,
      only by reset. */
  lemma IgniteThenDouse(f: FireView, n: nat)
    requires f.state != OnFire && f.initial >= 1 && n <= f.initial
    ensures Douses(AfterIgnite(f), n).level == f.initial - n
    ensures Douses(AfterIgnite(f), n).score == f.score + n
    ensures Douses(AfterIgnite(f), n).state == (if n < f.initial then OnFire else Extinguished)
  {
    DousesFromBurning(AfterIgnite(f), n);
  }

  /** An extinguished building stays put however often it is doused. */
  lemma {:induction false} DousesWhileOut(f: FireView, n: nat)
    requires f.state != OnFire
    ensures Douses(f, n) == f
    decreases n
  {
    if n > 0 {
      DousesWhileOut(AfterDouse(f), n - 1);
    }
  }

  /** A re-ignition armed before a reset still fires afterwards: reset does
      not disarm it, so a building reset to idle can catch fire again. */
  lemma PendingIgnitionSurvivesReset(f: FireView)
    requires f.state == Extinguished && f.pendingIgnitions > 0
    ensures AfterReset(f).pendingIgnitions == f.pendingIgnitions
    ensures AfterReignite(AfterReset(f)).state == OnFire
    ensures AfterReignite(AfterReset(f)).level == f.initial
  {
  }

  /** A fire building. The fields are the source's; `pendingIgnitions`
      stands for the detached one-shot timers that re-ignite it. */
  class FireBuildingModel {
    const name: string
    const initialFireLevel: int
    var currentFireLevel: int
    var score: int
    var autoIgnite: bool
    var state: FireState
    var pendingIgnitions: nat

    function View(): FireView
      reads this
    {
      FireView(initialFireLevel, state, currentFireLevel, score, autoIgnite, pendingIgnitions)
    }

    ghost predicate Valid()
      reads this
    {
      FireInv(View())
    }

    /** A new building is idle, not burning, with no score; the state
        machine's initial state is entered without running its handler. */
    constructor (name: string, initialFireLevel: int)
      ensures this.name == name
      ensures View() == FireView(initialFireLevel, Idle, 0, 0, false, 0)
      ensures Valid()
    {
      this.name := name;
      this.initialFireLevel := initialFireLevel;
      currentFireLevel := 0;
      score := 0;
      autoIgnite := false;
      state := Idle;
      pendingIgnitions := 0;
    }

    /** The enter handlers of the three states. */
    method EnterState()
      modifies this
      ensures View() == EnterFire(old(View()))
    {
      match state
      case Idle =>
        score := 0;
        currentFireLevel := 0;
      case OnFire =>
        currentFireLevel := initialFireLevel;
      case Extinguished =>
        if autoIgnite {
          pendingIgnitions := pendingIgnitions + 1;
        }
    }

    method TransitOn(e: BuildingEvent)
      modifies this
      ensures View() == Transit(old(View()), e)
    {
      var t := FireTransition(state, e);
      if t.Some? {
        state := t.value;
        EnterState();
      }
    }

    method FireDousedAction()
      modifies this
      ensures View() == DousedAction(old(View()))
    {
      if state == OnFire && currentFireLevel >= FIRE_DOUSE_AMOUNT {
        currentFireLevel := currentFireLevel - FIRE_DOUSE_AMOUNT;
        score := score + FIRE_DOUSE_AMOUNT;
        if currentFireLevel <= 0 {
          TransitOn(FireExtinguished);
        }
      }
    }

    /** The state machine's dispatch. Only the building itself sends the
        extinguish event, from its douse handler. */
    method Dispatch(e: BuildingEvent)
      requires Valid()
      modifies this
      ensures e != FireExtinguished ==> Valid()
      ensures View() == FireDispatch(old(View()), e)
    {
      if state == OnFire && e == FireDoused {
        FireDousedAction();
      }
      TransitOn(e);
    }

    method DouseFire()
      requires Valid()
      modifies this
      ensures Valid()
      ensures View() == AfterDouse(old(View()))
    {
      Dispatch(FireDoused);
    }

    method Ignite()
      requires Valid()
      modifies this
      ensures Valid()
      ensures View() == AfterIgnite(old(View()))
    {
      Dispatch(Ignition);
    }

    method Reset()
      requires Valid()
      modifies this
      ensures Valid()
      ensures View() == AfterReset(old(View()))
    {
      Dispatch(ResetEvent);
    }

    /** One armed re-ignition timer runs out and dispatches an ignition. */
    method ReignitionFires()
      requires Valid() && pendingIgnitions > 0
      modifies this
      ensures Valid()
      ensures View() == AfterReignite(old(View()))
    {
      pendingIgnitions := pendingIgnitions - 1;
      Dispatch(Ignition);
    }

    /** `get_fire_level`: within [0, initial] for a building keeping the
        invariant with a positive initial level, and zero unless burning. */
    method GetFireLevel() returns (level: int)
      ensures level == currentFireLevel
      ensures Valid() && initialFireLevel >= 1 ==>
                0 <= level <= initialFireLevel && (level > 0 <==> state == OnFire)
    {
      level := currentFireLevel;
    }
  }

  datatype HeaterState = HeaterIdle | HeaterOnFire

  function HeaterStateName(s: HeaterState): (name: string)
    ensures name == "on_fire_state" <==> s == HeaterOnFire
    ensures name == "idle_state" <==> s == HeaterIdle
  {
    match s
    case HeaterIdle => "idle_state"
    case HeaterOnFire => "on_fire_state"
  }

  /** The heater's table: ignition lights an idle heater, reset puts out a
      burning one; it has no handlers, so every other event is ignored. */
  function HeaterDispatch(s: HeaterState, e: BuildingEvent): (t: HeaterState)
    ensures t == HeaterOnFire <==>
              (s == HeaterIdle && e == Ignition) || (s == HeaterOnFire && e != ResetEvent)
  {
    match (s, e)
    case (HeaterIdle, Ignition) => HeaterOnFire
    case (HeaterOnFire, ResetEvent) => HeaterIdle
    case _ => s
  }

  /** A heater building: only its machine state. */
  class HeaterBuildingModel {
    const name: string
    var state: HeaterState

    constructor (name: string)
      ensures this.name == name && state == HeaterIdle
    {
      this.name := name;
      state := HeaterIdle;
    }

    method Dispatch(e: BuildingEvent)
      modifies this
      ensures state == HeaterDispatch(old(state), e)
    {
      if state == HeaterIdle && e == Ignition {
        state := HeaterOnFire;
      } else if state == HeaterOnFire && e == ResetEvent {
        state := HeaterIdle;
      }
    }
  }
}
