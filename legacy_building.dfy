/** The earlier building machine (controller_modules/controller/building.py):
    the same three states as the current fire building, but the douse
    handler lowers the level without a lower bound and keeps no score, and
    the move to extinguished is a guarded edge of the table itself rather
    than an event the handler sends. */
module LegacyBuilding {
  import opened Common
  import opened Buildings

  const LEGACY_DOUSE_AMOUNT := 1

  /** The fields of an earlier building. */
  datatype LegacyView = LegacyView(initial: int, state: FireState, level: int)

  /** The guard of the on_fire -> extinguished edge. */
  predicate ExtinguishedCheck(v: LegacyView)
  {
    v.level <= 0
  }

  /** The table: ignition from idle or extinguished, reset from burning or
      extinguished, and a douse from burning when the guard holds. */
  function LegacyTransition(v: LegacyView, e: BuildingEvent): (t: Option<FireState>)
    ensures t == Some(OnFire) <==> e == Ignition && v.state != OnFire
    ensures t == Some(Buildings.Idle) <==> e == ResetEvent && v.state != Buildings.Idle
    ensures t == Some(Extinguished) <==> e == FireDoused && v.state == OnFire && v.level <= 0
  {
    match (v.state, e)
    case (Idle, Ignition) => Some(OnFire)
    case (Extinguished, Ignition) => Some(OnFire)
    case (OnFire, ResetEvent) => Some(Buildings.Idle)
    case (Extinguished, ResetEvent) => Some(Buildings.Idle)
    case (OnFire, FireDoused) => if ExtinguishedCheck(v) then Some(Extinguished) else None
    case _ => None
  }

  /** One dispatch: the burning state's douse handler, then the table, then
      the burning state's enter handler, which restores the initial level. */
  function LegacyDispatch(v: LegacyView, e: BuildingEvent): LegacyView
  {
    var handled :=
      if v.state == OnFire && e == FireDoused then v.(level := v.level - LEGACY_DOUSE_AMOUNT) else v;
    match LegacyTransition(handled, e)
    case None => handled
    case Some(t) => if t == OnFire then handled.(state := t, level := handled.initial) else handled.(state := t)
  }

  /** A new building: idle, with its level already at the initial level. */
  function NewLegacy(initial: int): (v: LegacyView)
    ensures v.state == Buildings.Idle && v.level == v.initial == initial
  {
    LegacyView(initial, Buildings.Idle, initial)
  }

  /** `ignite`: a building that is not burning catches fire at its initial
      level; a burning one is left alone. */
  function LegacyIgnite(v: LegacyView): (w: LegacyView)
    ensures v.state != OnFire ==> w == v.(state := OnFire, level := v.initial)
    ensures v.state == OnFire ==> w == v
  {
    LegacyDispatch(v, Ignition)
  }

  /** `douse_fire`: a burning building loses one level with no lower bound
      and no score, and is extinguished exactly when the new level is at
      most zero; any other building is left alone. */
  function LegacyDouse(v: LegacyView): (w: LegacyView)
    ensures v.state == OnFire ==>
              && w.level == v.level - 1 && w.initial == v.initial
              && (w.state == Extinguished <==> w.level <= 0)
              && (w.state != Extinguished ==> w.state == OnFire)
    ensures v.state != OnFire ==> w == v
  {
    LegacyDispatch(v, FireDoused)
  }

  /** `reset`: a burning or extinguished building returns to idle keeping
      its level; an idle one is left alone. */
  function LegacyReset(v: LegacyView): (w: LegacyView)
    ensures v.state != Buildings.Idle ==> w == v.(state := Buildings.Idle)
    ensures v.state == Buildings.Idle ==> w == v
  {
    LegacyDispatch(v, ResetEvent)
  }

  /** What the earlier machine keeps for a positive initial level: the
      level stays at most the initial level, is at least 1 while burning and
      exactly 0 once extinguished. */
  ghost predicate LegacyInv(v: LegacyView)
  {
    v.initial >= 1 ==>
      && v.level <= v.initial
      && (v.state == OnFire ==> v.level >= 1)
      && (v.state == Extinguished ==> v.level == 0)
  }

  /** Every dispatch keeps the invariant, and a new building has it. */
  lemma LegacyInvariant(v: LegacyView, e: BuildingEvent, initial: int)
    ensures LegacyInv(NewLegacy(initial))
    ensures LegacyInv(v) ==> LegacyInv(LegacyDispatch(v, e))
  {
  }

  /** `n` douses in a row. */
  function LegacyDouses(v: LegacyView, n: nat): LegacyView
    decreases n
  {
    if n == 0 then v else LegacyDouses(LegacyDouse(v), n - 1)
  }

  /** An ignition of a building that is not burning, followed by `n`
      douses: burning at `initial - n` while
      `n` is below the initial level, extinguished at level 0 from the
      initial level's douse on, since an extinguished building ignores
      further douses. The module's demonstration (ignite, then 16 douses of
      a default building) therefore ends extinguished at level 0. */
  lemma {:induction false} IgniteThenLegacyDouses(v: LegacyView, n: nat)
    requires v.initial >= 1 && v.state != OnFire
    ensures var w := LegacyDouses(LegacyIgnite(v), n);
            && w.initial == v.initial
            && (n < v.initial ==> w.state == OnFire && w.level == v.initial - n)
            && (n >= v.initial ==> w.state == Extinguished && w.level == 0)
    decreases n
  {
    if n > 0 {
      IgniteThenLegacyDouses(v, n - 1);
      LegacyDousesLast(LegacyIgnite(v), n - 1);
    }
  }

  /** The last of `n + 1` douses. */
  lemma {:induction false} LegacyDousesLast(v: LegacyView, n: nat)
    ensures LegacyDouses(v, n + 1) == LegacyDouse(LegacyDouses(v, n))
    decreases n
  {
    if n > 0 {
      LegacyDousesLast(LegacyDouse(v), n - 1);
    }
  }

  lemma DemonstrationEndsExtinguished()
    ensures LegacyDouses(LegacyIgnite(NewLegacy(DEFAULT_INITIAL_FIRE_LEVEL)), 16)
              == LegacyView(DEFAULT_INITIAL_FIRE_LEVEL, Extinguished, 0)
  {
    IgniteThenLegacyDouses(NewLegacy(DEFAULT_INITIAL_FIRE_LEVEL), 16);
  }

  /** An earlier building object. */
  class Building {
    const name: string
    const fireDouseAmount: int
    const initialFireLevel: int
    var currentFireLevel: int
    var state: FireState

    function View(): LegacyView
      reads this
    {
      LegacyView(initialFireLevel, state, currentFireLevel)
    }

    constructor (name: string, initialFireLevel: int)
      ensures this.name == name && fireDouseAmount == LEGACY_DOUSE_AMOUNT
      ensures View() == NewLegacy(initialFireLevel)
    {
      this.name := name;
      fireDouseAmount := LEGACY_DOUSE_AMOUNT;
      this.initialFireLevel := initialFireLevel;
      currentFireLevel := initialFireLevel;
      state := Buildings.Idle;
    }

    method OnFireEnter()
      modifies this
      ensures View() == old(View()).(level := initialFireLevel)
    {
      currentFireLevel := initialFireLevel;
    }

    method FireDousedAction()
      requires fireDouseAmount == LEGACY_DOUSE_AMOUNT
      modifies this
      ensures old(state) == OnFire ==> View() == old(View()).(level := old(currentFireLevel) - 1)
      ensures old(state) != OnFire ==> View() == old(View())
    {
      if state == OnFire {
        currentFireLevel := currentFireLevel - fireDouseAmount;
      }
    }

    method Dispatch(e: BuildingEvent)
      requires fireDouseAmount == LEGACY_DOUSE_AMOUNT
      modifies this
      ensures View() == LegacyDispatch(old(View()), e)
    {
      if state == OnFire && e == FireDoused {
        FireDousedAction();
      }
      var t := LegacyTransition(View(), e);
      if t.Some? {
        state := t.value;
        if t.value == OnFire {
          OnFireEnter();
        }
      }
    }

    method DouseFire()
      requires fireDouseAmount == LEGACY_DOUSE_AMOUNT
      modifies this
      ensures View() == LegacyDouse(old(View()))
    {
      Dispatch(FireDoused);
    }

    method Ignite()
      requires fireDouseAmount == LEGACY_DOUSE_AMOUNT
      modifies this
      ensures View() == LegacyIgnite(old(View()))
    {
      Dispatch(Ignition);
    }

    method Reset()
      requires fireDouseAmount == LEGACY_DOUSE_AMOUNT
      modifies this
      ensures View() == LegacyReset(old(View()))
    {
      Dispatch(ResetEvent);
    }
  }
}
