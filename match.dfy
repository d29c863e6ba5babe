/** The match engine (controller_modules/controller/src/match.py): a
    six-phase state machine that arms two countdown timers, ignites and
    resets the fire buildings, picks a hotspot heater, and sums the score.

    Each timer's one-second thread becomes an explicit `Tick`, and the
    callback it would run becomes the event name the tick returns, which the
    engine then dispatches. Match events are the raw names the operator
    interface sends. */
module Match {
  import opened Common
  import opened Buildings

  // ---------------------------------------------------------------------
  // Countdown timer
  // ---------------------------------------------------------------------

  /** The fields of a timer: seconds remaining, whether it counts, and the
      event its callback dispatches (`None` for a pure countdown). */
  datatype TimerView = TimerView(remaining: int, enabled: bool, callback: Option<string>)

  /** One iteration of the timer thread's loop. While enabled it counts one
      second down (never below zero); at zero, a timer with a callback
      disables itself and fires it, and a timer without one stays enabled at
      zero. */
  function TimerTick(t: TimerView): (r: (TimerView, Option<string>))
    ensures !t.enabled ==> r == (t, None)
    ensures t.enabled && t.remaining >= 1 ==> r.0.remaining == t.remaining - 1
    ensures t.enabled && t.remaining < 1 ==> r.0.remaining == t.remaining
    ensures t.remaining >= 0 ==> r.0.remaining >= 0
    ensures r.0.callback == t.callback
    ensures r.1.Some? <==>
              t.enabled && t.callback.Some? && (t.remaining == 0 || t.remaining == 1)
    ensures r.1.Some? ==> r.1 == t.callback && !r.0.enabled
    ensures r.1.None? ==> r.0.enabled == t.enabled
  {
    if !t.enabled then (t, None)
    else
      var counted := if t.remaining >= 1 then t.(remaining := t.remaining - 1) else t;
      if counted.remaining == 0 && counted.callback.Some? then
        (counted.(enabled := false), counted.callback)
      else
        (counted, None)
  }

  /** `n` ticks of one timer, with the events fired along the way. */
  function TimerRun(t: TimerView, n: nat): (TimerView, seq<string>)
    decreases n
  {
    if n == 0 then (t, [])
    else
      var step := TimerTick(t);
      var rest := TimerRun(step.0, n - 1);
      (rest.0, (if step.1.Some? then [step.1.value] else []) + rest.1)
  }

  /** A disabled timer stays as it is and fires nothing. */
  lemma {:induction false} DisabledTimerIsIdle(t: TimerView, n: nat)
    requires !t.enabled
    ensures TimerRun(t, n) == (t, [])
    decreases n
  {
    if n > 0 {
      var none: seq<string> := [];
      assert TimerTick(t) == (t, None);
      DisabledTimerIsIdle(t, n - 1);
      assert TimerRun(t, n) == (t, none + none);
      assert none + none == none;
    }
  }

  /** An armed timer with `d >= 1` seconds and a callback counts down for
      `d - 1` ticks without firing, fires its callback exactly once on tick
      `d`, and from then on stays disabled at zero: once per arming. */
  lemma {:induction false} ArmedTimerFiresOnce(t: TimerView, n: nat)
    requires t.enabled && t.callback.Some? && t.remaining >= 1
    ensures n < t.remaining ==> TimerRun(t, n) == (t.(remaining := t.remaining - n), [])
    ensures n >= t.remaining ==>
              TimerRun(t, n) == (t.(remaining := 0, enabled := false), [t.callback.value])
    decreases n
  {
    if n > 0 {
      var t1 := t.(remaining := t.remaining - 1);
      var none: seq<string> := [];
      if t.remaining == 1 {
        assert TimerTick(t) == (t1.(enabled := false), t.callback);
        DisabledTimerIsIdle(t1.(enabled := false), n - 1);
        assert TimerRun(t, n) == (t1.(enabled := false), [t.callback.value] + none);
        assert [t.callback.value] + none == [t.callback.value];
      } else {
        assert TimerTick(t) == (t1, None);
        ArmedTimerFiresOnce(t1, n - 1);
        var rest := TimerRun(t1, n - 1);
        assert TimerRun(t, n) == (rest.0, none + rest.1);
        assert none + rest.1 == rest.1;
      }
    }
  }

  /** `set_timeout`: disable and load a new duration. */
  function Reload(t: TimerView, time: int): TimerView
  {
    t.(enabled := false, remaining := time)
  }

  /** The arming sequence of the phase handlers: install the callback, load
      the duration, start. */
  function Arm(t: TimerView, time: int, callback: Option<string>): (a: TimerView)
    ensures a == TimerView(time, true, callback)
  {
    Reload(t.(callback := callback), time).(enabled := true)
  }

  /** A countdown timer. */
  class Timer {
    var timeRemaining: int
    var enabled: bool
    var callback: Option<string>

    function View(): TimerView
      reads this
    {
      TimerView(timeRemaining, enabled, callback)
    }

    constructor ()
      ensures View() == TimerView(0, false, None)
    {
      timeRemaining := 0;
      enabled := false;
      callback := None;
    }

    method Start()
      modifies this
      ensures View() == old(View()).(enabled := true)
    {
      enabled := true;
    }

    method Pause()
      modifies this
      ensures View() == old(View()).(enabled := false)
    {
      enabled := false;
    }

    method Reset()
      modifies this
      ensures View() == old(View()).(enabled := false, remaining := 0)
    {
      enabled := false;
      timeRemaining := 0;
    }

    method SetTimeout(time: int)
      modifies this
      ensures View() == Reload(old(View()), time)
    {
      enabled := false;
      timeRemaining := time;
    }

    /** One iteration of the timer thread; returns the callback's event when
        it fires. */
    method Tick() returns (fired: Option<string>)
      modifies this
      ensures (View(), fired) == TimerTick(old(View()))
    {
      fired := None;
      if enabled {
        if timeRemaining >= 1 {
          timeRemaining := timeRemaining - 1;
        }
        if timeRemaining == 0 {
          if callback.Some? {
            enabled := false;
            fired := callback;
          }
        }
      }
    }
  }

  // ---------------------------------------------------------------------
  // Phases and the transition table
  // ---------------------------------------------------------------------

  datatype Phase = Idle | Staging | Phase1 | Phase2 | Phase3 | PostMatch

  const NEW_MATCH := "new_match_event"
  const MATCH_START := "match_start_event"
  const PHASE_I_TIMEOUT := "phase_i_timeout_event"
  const PHASE_II_TIMEOUT := "phase_ii_timeout_event"
  const PHASE_III_TIMEOUT := "phase_iii_timeout_event"
  const MATCH_END := "match_end_event"
  const RESET_MATCH := "reset_match_event"
  const RANDOMIZE_HOTSPOT := "randomize_hotspot_event"

  const PHASE_I_DURATION := 10
  const PHASE_II_DURATION := 10
  const PHASE_III_DURATION := 90
  const MATCH_DURATION := PHASE_I_DURATION + PHASE_II_DURATION + PHASE_III_DURATION

  const FIRE_BUILDING_LEVEL := DEFAULT_INITIAL_FIRE_LEVEL

  /** The state names the machine reports; each phase has its own. */
  function PhaseName(p: Phase): (name: string)
    ensures |name| > 6 && name[|name| - 6..] == "_state"
  {
    match p
    case Idle => "idle_state"
    case Staging => "staging_state"
    case Phase1 => "phase_1_state"
    case Phase2 => "phase_2_state"
    case Phase3 => "phase_3_state"
    case PostMatch => "post_match_state"
  }

  /** Different phases report different names. */
  lemma PhaseNamesDistinct(p: Phase, q: Phase)
    requires p != q
    ensures PhaseName(p) != PhaseName(q)
  {
  }

  /** Every edge of the match, as a table. */
  const MATCH_EDGES: map<(Phase, string), Phase> := map[
    (Phase.Idle, NEW_MATCH) := Staging,
    (Staging, MATCH_START) := Phase1,
    (Phase1, PHASE_I_TIMEOUT) := Phase2,
    (Phase2, PHASE_II_TIMEOUT) := Phase3,
    (Phase3, PHASE_III_TIMEOUT) := PostMatch,
    (Phase1, MATCH_END) := PostMatch,
    (Phase2, MATCH_END) := PostMatch,
    (Phase3, MATCH_END) := PostMatch,
    (Staging, RESET_MATCH) := Phase.Idle,
    (PostMatch, RESET_MATCH) := Phase.Idle]

  /** The transition lookup of the match machine: exactly the listed edges,
      and any other (phase, event) pair has no transition. */
  function PhaseTransition(p: Phase, e: string): (t: Option<Phase>)
    ensures t.Some? <==> (p, e) in MATCH_EDGES
    ensures t.Some? ==> t.value == MATCH_EDGES[(p, e)]
  {
    match p
    case Idle => if e == NEW_MATCH then Some(Staging) else None
    case Staging =>
      if e == MATCH_START then Some(Phase1)
      else if e == RESET_MATCH then Some(Phase.Idle)
      else None
    case Phase1 =>
      if e == PHASE_I_TIMEOUT then Some(Phase2)
      else if e == MATCH_END then Some(PostMatch)
      else None
    case Phase2 =>
      if e == PHASE_II_TIMEOUT then Some(Phase3)
      else if e == MATCH_END then Some(PostMatch)
      else None
    case Phase3 =>
      if e == PHASE_III_TIMEOUT then Some(PostMatch)
      else if e == MATCH_END then Some(PostMatch)
      else None
    case PostMatch => if e == RESET_MATCH then Some(Phase.Idle) else None
  }

  // ---------------------------------------------------------------------
  // The match as a value, and its handlers
  // ---------------------------------------------------------------------

  /** Everything the match holds at one moment: its phase, the hotspot
      (`None` before the first entry to idle), both timers, the fire
      buildings in creation order and the heater names. */
  datatype MatchView = MatchView(
    phase: Phase,
    hotspot: Option<string>,
    phaseTimer: TimerView,
    matchTimer: TimerView,
    fires: seq<FireView>,
    heaters: seq<string>)

  /** What entering idle does to one fire building. */
  function ClearedForIdle(f: FireView): FireView
  {
    AfterReset(f.(autoIgnite := false))
  }

  /** What entering phase 3 does to one fire building. */
  function LitForPhase3(f: FireView): FireView
  {
    AfterIgnite(f).(autoIgnite := true)
  }

  /** Entering idle: the hotspot is cleared, and every fire building loses
      auto-ignite and is reset to idle; a building that keeps the building
      invariant ends unlit and scoreless. */
  function EnterIdle(m: MatchView): (r: MatchView)
    ensures r.hotspot == Some("")
    ensures r.phase == m.phase && r.heaters == m.heaters
    ensures r.phaseTimer == m.phaseTimer && r.matchTimer == m.matchTimer
    ensures |r.fires| == |m.fires|
    ensures forall i :: 0 <= i < |r.fires| ==>
              && r.fires[i].state == Buildings.Idle
              && (FireInv(m.fires[i]) ==> r.fires[i].level == 0 && r.fires[i].score == 0)
              && !r.fires[i].autoIgnite
              && r.fires[i].initial == m.fires[i].initial
              && r.fires[i].pendingIgnitions == m.fires[i].pendingIgnitions
  {
    m.(hotspot := Some(""),
       fires := seq(|m.fires|, i requires 0 <= i < |m.fires| => ClearedForIdle(m.fires[i])))
  }

  /** Entering phase 1: the phase timer counts the first phase down to its
      timeout event, and the match timer counts the whole match with no
      callback. */
  function EnterPhase1(m: MatchView): (r: MatchView)
    ensures r.phaseTimer == TimerView(PHASE_I_DURATION, true, Some(PHASE_I_TIMEOUT))
    ensures r.matchTimer == TimerView(110, true, None)
    ensures r == m.(phaseTimer := r.phaseTimer, matchTimer := r.matchTimer)
  {
    m.(phaseTimer := Arm(m.phaseTimer, PHASE_I_DURATION, Some(PHASE_I_TIMEOUT)),
       matchTimer := Arm(m.matchTimer, MATCH_DURATION, None))
  }

  /** Entering phase 2 re-arms only the phase timer. */
  function EnterPhase2(m: MatchView): (r: MatchView)
    ensures r == m.(phaseTimer := TimerView(PHASE_II_DURATION, true, Some(PHASE_II_TIMEOUT)))
  {
    m.(phaseTimer := Arm(m.phaseTimer, PHASE_II_DURATION, Some(PHASE_II_TIMEOUT)))
  }

  /** Entering phase 3 re-arms the phase timer and sets every fire building
      burning at its initial level with auto-ignite on; scores carry over. */
  function EnterPhase3(m: MatchView): (r: MatchView)
    ensures r.phaseTimer == TimerView(PHASE_III_DURATION, true, Some(PHASE_III_TIMEOUT))
    ensures r.phase == m.phase && r.hotspot == m.hotspot && r.heaters == m.heaters
    ensures r.matchTimer == m.matchTimer
    ensures |r.fires| == |m.fires|
    ensures forall i :: 0 <= i < |r.fires| ==>
              && r.fires[i].state == OnFire
              && r.fires[i].autoIgnite
              && r.fires[i].score == m.fires[i].score
              && (m.fires[i].state != OnFire ==> r.fires[i].level == m.fires[i].initial)
              && (m.fires[i].state == OnFire ==> r.fires[i].level == m.fires[i].level)
              && r.fires[i].initial == m.fires[i].initial
              && r.fires[i].pendingIgnitions == m.fires[i].pendingIgnitions
  {
    m.(phaseTimer := Arm(m.phaseTimer, PHASE_III_DURATION, Some(PHASE_III_TIMEOUT)),
       fires := seq(|m.fires|, i requires 0 <= i < |m.fires| => LitForPhase3(m.fires[i])))
  }

  /** The "enter" handler of phase `p`; staging and post-match have none. */
  function EnterPhase(m: MatchView, p: Phase): MatchView
  {
    match p
    case Idle => EnterIdle(m)
    case Phase1 => EnterPhase1(m)
    case Phase2 => EnterPhase2(m)
    case Phase3 => EnterPhase3(m)
    case _ => m
  }

  /** The "exit" handler of phase `p`: leaving phase 3 resets the match
      timer; no other phase has one. */
  function ExitPhase(m: MatchView, p: Phase): (r: MatchView)
    ensures p == Phase3 ==> r == m.(matchTimer := m.matchTimer.(enabled := false, remaining := 0))
    ensures p != Phase3 ==> r == m
  {
    if p == Phase3 then m.(matchTimer := m.matchTimer.(enabled := false, remaining := 0)) else m
  }

  /** The staging handler for `randomize_hotspot_event`: the hotspot becomes
      the heater at the chosen position; with no heaters the choice raises
      and nothing changes. `pick` stands for the random choice. */
  function RandomizeHotspot(m: MatchView, pick: nat): (r: Option<MatchView>)
    ensures r.None? <==> m.heaters == []
    ensures r.Some? ==> r.value == m.(hotspot := r.value.hotspot)
    ensures r.Some? ==> r.value.hotspot.Some? && r.value.hotspot.value in m.heaters
  {
    if m.heaters == [] then None
    else Some(m.(hotspot := Some(m.heaters[pick % |m.heaters|])))
  }

  /** The current phase's handler for an event name, if it has one: every
      phase with an enter (exit) handler runs it for an event literally named
      "enter" ("exit"), and staging handles the hotspot draw. */
  function Handle(m: MatchView, e: string, pick: nat): Option<MatchView>
  {
    if e == "enter" then Some(EnterPhase(m, m.phase))
    else if e == "exit" then Some(ExitPhase(m, m.phase))
    else if m.phase == Staging && e == RANDOMIZE_HOTSPOT then RandomizeHotspot(m, pick)
    else Some(m)
  }

  /** One dispatch of the match machine: handler, then table, then the old
      phase's exit and the new phase's enter handler. `None` when the
      handler raised. */
  function MatchDispatch(m: MatchView, e: string, pick: nat): (r: Option<MatchView>)
    ensures r.None? <==> m.phase == Staging && e == RANDOMIZE_HOTSPOT && m.heaters == []
    ensures r.Some? ==>
              r.value.phase == (match PhaseTransition(m.phase, e)
                                case Some(t) => t
                                case None => m.phase)
    ensures r.Some? ==> r.value.heaters == m.heaters && |r.value.fires| == |m.fires|
  {
    match Handle(m, e, pick)
    case None => None
    case Some(h) =>
      match PhaseTransition(h.phase, e)
      case None => Some(h)
      case Some(t) => Some(EnterPhase(ExitPhase(h, h.phase).(phase := t), t))
  }

  /** One iteration of the phase timer's thread, dispatching the fired
      callback. */
  function TickPhaseTimer(m: MatchView, pick: nat): Option<MatchView>
  {
    var (t, fired) := TimerTick(m.phaseTimer);
    var m1 := m.(phaseTimer := t);
    if fired.Some? then MatchDispatch(m1, fired.value, pick) else Some(m1)
  }

  /** `n` iterations of the phase timer's thread. */
  function PhaseTicks(m: MatchView, n: nat): Option<MatchView>
    decreases n
  {
    if n == 0 then Some(m)
    else
      match TickPhaseTimer(m, 0)
      case None => None
      case Some(m1) => PhaseTicks(m1, n - 1)
  }

  /** Phase 1 ends by itself: once the phase timer armed on entry has run
      for its whole duration the match is in phase 2, with the phase timer
      re-armed for the second phase. */
  lemma {:induction false} PhaseOneTimesOut(m: MatchView, n: nat)
    requires m.phase == Phase1
    requires m.phaseTimer == TimerView(n, true, Some(PHASE_I_TIMEOUT)) && n >= 1
    ensures PhaseTicks(m, n).Some?
    ensures PhaseTicks(m, n).value.phase == Phase2
    ensures PhaseTicks(m, n).value.phaseTimer ==
              TimerView(PHASE_II_DURATION, true, Some(PHASE_II_TIMEOUT))
    decreases n
  {
    var (t, fired) := TimerTick(m.phaseTimer);
    var m1 := m.(phaseTimer := t);
    if n == 1 {
      assert fired == Some(PHASE_I_TIMEOUT);
      assert TickPhaseTimer(m, 0) == MatchDispatch(m1, PHASE_I_TIMEOUT, 0);
      assert PhaseTicks(m, 1) == TickPhaseTimer(m, 0);
    } else {
      assert fired.None?;
      assert TickPhaseTimer(m, 0) == Some(m1);
      PhaseOneTimesOut(m1, n - 1);
    }
  }

  /** Starting a match from the staging phase leads, with no further input,
      to phase 2 after the phase-1 duration. */
  lemma StartThenWait(m: MatchView)
    requires m.phase == Staging
    ensures MatchDispatch(m, MATCH_START, 0).Some?
    ensures PhaseTicks(MatchDispatch(m, MATCH_START, 0).value, PHASE_I_DURATION).Some?
    ensures PhaseTicks(MatchDispatch(m, MATCH_START, 0).value, PHASE_I_DURATION).value.phase == Phase2
  {
    PhaseOneTimesOut(MatchDispatch(m, MATCH_START, 0).value, PHASE_I_DURATION);
  }

  /** A reset from staging or post-match gives an idle match with the
      hotspot cleared and every fire building idle, unlit, scoreless and
      without auto-ignite. */
  lemma ResetMatchClearsField(m: MatchView)
    requires m.phase == Staging || m.phase == PostMatch
    requires forall i :: 0 <= i < |m.fires| ==> FireInv(m.fires[i])
    ensures MatchDispatch(m, RESET_MATCH, 0).Some?
    ensures var r := MatchDispatch(m, RESET_MATCH, 0).value;
            && r.phase == Phase.Idle && r.hotspot == Some("")
            && forall i :: 0 <= i < |r.fires| ==>
                 r.fires[i].state == Buildings.Idle && r.fires[i].score == 0
                 && r.fires[i].level == 0 && !r.fires[i].autoIgnite
  {
  }

  /** The running total over the fire buildings, accumulated in order. */
  function TotalScore(fs: seq<FireView>): (total: int)
    ensures (forall i :: 0 <= i < |fs| ==> fs[i].score >= 0) ==> total >= 0
  {
    if fs == [] then 0 else TotalScore(fs[..|fs| - 1]) + fs[|fs| - 1].score
  }

  /** The position of the first occurrence of `x` in `s`. */
  function FirstIndex(s: seq<string>, x: string): (k: nat)
    requires x in s
    ensures k < |s| && s[k] == x && x !in s[..k]
  {
    if s[0] == x then 0
    else
      var k := 1 + FirstIndex(s[1..], x);
      assert s[..k] == [s[0]] + s[1..][..k - 1];
      k
  }

  /** An occurrence with no earlier one is the first occurrence. */
  lemma FirstIndexUnique(s: seq<string>, x: string, k: nat)
    requires k < |s| && s[k] == x && x !in s[..k]
    ensures FirstIndex(s, x) == k
  {
  }

  /** A name that occurs in a prefix first occurs at the same place in the
      whole sequence. */
  lemma FirstIndexPrefix(s: seq<string>, n: nat, x: string)
    requires n <= |s| && x in s[..n]
    ensures FirstIndex(s[..n], x) == FirstIndex(s, x)
  {
    var f := FirstIndex(s[..n], x);
    assert s[..n][..f] == s[..f];
    FirstIndexUnique(s, x, f);
  }

  /** Names with repeats dropped, keeping the first occurrence: the keys of
      a dictionary filled in this order, ordered by where each name first
      appears. */
  function Dedup(names: seq<string>): (keys: seq<string>)
    ensures forall x :: x in keys <==> x in names
    ensures forall i, j :: 0 <= i < j < |keys| ==> keys[i] != keys[j]
    ensures forall i, j :: 0 <= i < j < |keys| ==>
              FirstIndex(names, keys[i]) < FirstIndex(names, keys[j])
  {
    if names == [] then []
    else
      var n := |names| - 1;
      var front := Dedup(names[..n]);
      var last := names[n];
      assert forall x :: x in names <==> x in names[..n] || x == last;
      assert forall x :: x in front ==> FirstIndex(names, x) == FirstIndex(names[..n], x) < n by {
        forall x | x in front
          ensures FirstIndex(names, x) == FirstIndex(names[..n], x) < n
        {
          FirstIndexPrefix(names, n, x);
        }
      }
      if last in front then front
      else
        FirstIndexUnique(names, last, n);
        front + [last]
  }

  // ---------------------------------------------------------------------
  // The match object
  // ---------------------------------------------------------------------

  method NewFireBuildings(names: seq<string>) returns (bs: seq<FireBuildingModel>)
    ensures |bs| == |names|
    ensures forall i :: 0 <= i < |bs| ==> fresh(bs[i])
    ensures forall i, j :: 0 <= i < j < |bs| ==> bs[i] != bs[j]
    ensures forall i :: 0 <= i < |bs| ==>
              bs[i].name == names[i] && bs[i].initialFireLevel == FIRE_BUILDING_LEVEL
              && bs[i].View() == FireView(FIRE_BUILDING_LEVEL, Buildings.Idle, 0, 0, false, 0)
  {
    bs := [];
    var i := 0;
    while i < |names|
      invariant 0 <= i <= |names| && |bs| == i
      invariant forall k :: 0 <= k < |bs| ==> fresh(bs[k])
      invariant forall k, l :: 0 <= k < l < |bs| ==> bs[k] != bs[l]
      invariant forall k :: 0 <= k < |bs| ==>
                  bs[k].name == names[k] && bs[k].initialFireLevel == FIRE_BUILDING_LEVEL
                  && bs[k].View() == FireView(FIRE_BUILDING_LEVEL, Buildings.Idle, 0, 0, false, 0)
    {
      var b := new FireBuildingModel(names[i], FIRE_BUILDING_LEVEL);
      bs := bs + [b];
      i := i + 1;
    }
  }

  method NewHeaterBuildings(names: seq<string>) returns (hs: seq<HeaterBuildingModel>)
    ensures |hs| == |names|
    ensures forall i :: 0 <= i < |hs| ==> fresh(hs[i])
    ensures forall i :: 0 <= i < |hs| ==> hs[i].name == names[i] && hs[i].state == HeaterIdle
  {
    hs := [];
    var i := 0;
    while i < |names|
      invariant 0 <= i <= |names| && |hs| == i
      invariant forall k :: 0 <= k < |hs| ==> fresh(hs[k])
      invariant forall k :: 0 <= k < |hs| ==> hs[k].name == names[k] && hs[k].state == HeaterIdle
    {
      var h := new HeaterBuildingModel(names[i]);
      hs := hs + [h];
      i := i + 1;
    }
  }

  class MatchModel {
    const fireBuildings: seq<FireBuildingModel>
    const heaterBuildings: seq<HeaterBuildingModel>
    const phaseTimer: Timer
    const matchTimer: Timer
    var phase: Phase
    var hotspot: Option<string>

    function FireViews(): seq<FireView>
      reads fireBuildings
    {
      seq(|fireBuildings|, i requires 0 <= i < |fireBuildings| reads fireBuildings =>
            fireBuildings[i].View())
    }

    function HeaterNames(): seq<string>
    {
      seq(|heaterBuildings|, i requires 0 <= i < |heaterBuildings| => heaterBuildings[i].name)
    }

    function View(): MatchView
      reads this, fireBuildings, phaseTimer, matchTimer
    {
      MatchView(phase, hotspot, phaseTimer.View(), matchTimer.View(), FireViews(), HeaterNames())
    }

    /** How the objects are wired: two distinct timers and one distinct
        building object per name, each created at the default level. */
    predicate Wired()
    {
      && phaseTimer != matchTimer
      && (forall i, j :: 0 <= i < j < |fireBuildings| ==> fireBuildings[i] != fireBuildings[j])
      && (forall i :: 0 <= i < |fireBuildings| ==>
            fireBuildings[i].initialFireLevel == FIRE_BUILDING_LEVEL)
    }

    ghost predicate Valid()
      reads this, fireBuildings
    {
      && Wired()
      && (forall i :: 0 <= i < |fireBuildings| ==> fireBuildings[i].Valid())
      && (hotspot.Some? && hotspot.value != "" ==> hotspot.value in HeaterNames())
    }

    /** One fire building per distinct name, one heater per distinct name,
        two idle timers, phase idle and no hotspot yet; the initial phase is
        entered without running its handler. */
    constructor (fireNames: seq<string>, heaterNames: seq<string>)
      ensures Valid()
      ensures View() == MatchView(Phase.Idle, None, TimerView(0, false, None), TimerView(0, false, None),
                                  seq(|Dedup(fireNames)|, _ => FireView(FIRE_BUILDING_LEVEL, Buildings.Idle, 0, 0, false, 0)),
                                  Dedup(heaterNames))
    {
      var fs := NewFireBuildings(Dedup(fireNames));
      var hs := NewHeaterBuildings(Dedup(heaterNames));
      var pt := new Timer();
      var mt := new Timer();
      fireBuildings := fs;
      heaterBuildings := hs;
      phaseTimer := pt;
      matchTimer := mt;
      phase := Phase.Idle;
      hotspot := None;
      new;
      assert HeaterNames() == Dedup(heaterNames);
      assert FireViews() == seq(|Dedup(fireNames)|, _ => FireView(FIRE_BUILDING_LEVEL, Buildings.Idle, 0, 0, false, 0));
    }

    method IdleEnter()
      requires Valid()
      modifies this, fireBuildings
      ensures Valid()
      ensures View() == EnterIdle(old(View()))
    {
      hotspot := Some("");
      var i := 0;
      while i < |fireBuildings|
        invariant 0 <= i <= |fireBuildings|
        invariant phase == old(phase) && hotspot == Some("")
        invariant forall j :: 0 <= j < |fireBuildings| ==>
                    && fireBuildings[j].Valid()
                    && fireBuildings[j].View() ==
                         if j < i then ClearedForIdle(old(fireBuildings[j].View())) else old(fireBuildings[j].View())
      {
        var b := fireBuildings[i];
        b.autoIgnite := false;
        b.Reset();
        assert forall j :: 0 <= j < |fireBuildings| && j != i ==> fireBuildings[j] != b;
        i := i + 1;
      }
      assert FireViews() == EnterIdle(old(View())).fires;
    }

    method PhaseOneEnter()
      requires Valid()
      modifies phaseTimer, matchTimer
      ensures View() == EnterPhase1(old(View()))
    {
      phaseTimer.callback := Some(PHASE_I_TIMEOUT);
      phaseTimer.SetTimeout(PHASE_I_DURATION);
      phaseTimer.Start();
      matchTimer.callback := None;
      matchTimer.SetTimeout(PHASE_I_DURATION + PHASE_II_DURATION + PHASE_III_DURATION);
      matchTimer.Start();
    }

    method PhaseTwoEnter()
      requires Valid()
      modifies phaseTimer
      ensures View() == EnterPhase2(old(View()))
    {
      phaseTimer.callback := Some(PHASE_II_TIMEOUT);
      phaseTimer.SetTimeout(PHASE_II_DURATION);
      phaseTimer.Start();
    }

    method PhaseThreeEnter()
      requires Valid()
      modifies phaseTimer, fireBuildings
      ensures Valid()
      ensures View() == EnterPhase3(old(View()))
    {
      phaseTimer.callback := Some(PHASE_III_TIMEOUT);
      phaseTimer.SetTimeout(PHASE_III_DURATION);
      phaseTimer.Start();
      var i := 0;
      while i < |fireBuildings|
        invariant 0 <= i <= |fireBuildings|
        invariant phaseTimer.View() == TimerView(PHASE_III_DURATION, true, Some(PHASE_III_TIMEOUT))
        invariant forall j :: 0 <= j < |fireBuildings| ==>
                    && fireBuildings[j].Valid()
                    && fireBuildings[j].View() ==
                         if j < i then LitForPhase3(old(fireBuildings[j].View())) else old(fireBuildings[j].View())
      {
        var b := fireBuildings[i];
        b.Ignite();
        b.autoIgnite := true;
        assert forall j :: 0 <= j < |fireBuildings| && j != i ==> fireBuildings[j] != b;
        i := i + 1;
      }
      assert FireViews() == EnterPhase3(old(View())).fires;
    }

    method PhaseThreeExit()
      requires Valid()
      modifies matchTimer
      ensures Valid()
      ensures View() == ExitPhase(old(View()), Phase3)
    {
      matchTimer.Reset();
    }

    method EnterHandler(p: Phase)
      requires Valid()
      modifies this, fireBuildings, phaseTimer, matchTimer
      ensures Valid()
      ensures View() == EnterPhase(old(View()), p)
    {
      match p
      case Idle => IdleEnter();
      case Phase1 => PhaseOneEnter();
      case Phase2 => PhaseTwoEnter();
      case Phase3 => PhaseThreeEnter();
      case _ =>
    }

    method ExitHandler(p: Phase)
      requires Valid()
      modifies matchTimer
      ensures Valid()
      ensures View() == ExitPhase(old(View()), p)
    {
      if p == Phase3 {
        PhaseThreeExit();
      }
    }

    /** The random draw of the staging handler; reports `false` when
        there is no heater to draw from. */
    method RandomizeHotspotAction() returns (ok: bool, ghost pick: nat)
      requires Valid()
      modifies this`hotspot
      ensures Valid()
      ensures RandomizeHotspot(old(View()), pick) == if ok then Some(View()) else None
    {
      if |heaterBuildings| == 0 {
        return false, 0;
      }
      ghost var before := View();
      var k :| 0 <= k < |heaterBuildings|;
      assert HeaterNames()[k % |heaterBuildings|] == heaterBuildings[k].name;
      hotspot := Some(heaterBuildings[k].name);
      assert FireViews() == before.fires;
      assert View() == before.(hotspot := hotspot);
      ok, pick := true, k;
    }

    /** The current phase's handler for `e`, the first half of a dispatch. */
    method HandleEvent(e: string) returns (ok: bool, ghost pick: nat)
      requires Valid()
      modifies this, fireBuildings, phaseTimer, matchTimer
      ensures Valid()
      ensures Handle(old(View()), e, pick) == if ok then Some(View()) else None
    {
      ok, pick := true, 0;
      if e == "enter" {
        EnterHandler(phase);
      } else if e == "exit" {
        ExitHandler(phase);
      } else if phase == Staging && e == RANDOMIZE_HOTSPOT {
        ok, pick := RandomizeHotspotAction();
      }
    }

    /** A transition to `t`: the old phase's exit handler, the new phase,
        then its enter handler. */
    method TakeTransition(t: Phase)
      requires Valid()
      modifies this, fireBuildings, phaseTimer, matchTimer
      ensures Valid()
      ensures View() == EnterPhase(ExitPhase(old(View()), old(phase)).(phase := t), t)
    {
      ExitHandler(phase);
      ghost var x := View();
      phase := t;
      assert View() == x.(phase := t);
      EnterHandler(t);
    }

    /** The match machine's dispatch. `ok` is false when the handler raised,
        in which case nothing changed. */
    method Dispatch(e: string) returns (ok: bool, ghost pick: nat)
      requires Valid()
      modifies this, fireBuildings, phaseTimer, matchTimer
      ensures Valid()
      ensures MatchDispatch(old(View()), e, pick) == if ok then Some(View()) else None
    {
      ok, pick := HandleEvent(e);
      if !ok {
        return;
      }
      var t := PhaseTransition(phase, e);
      if t.Some? {
        TakeTransition(t.value);
      }
    }

    /** One iteration of the phase timer's thread. */
    method PhaseTimerTick() returns (ok: bool, ghost pick: nat)
      requires Valid()
      modifies this, fireBuildings, phaseTimer, matchTimer
      ensures Valid()
      ensures TickPhaseTimer(old(View()), pick) == if ok then Some(View()) else None
    {
      var fired := phaseTimer.Tick();
      ok, pick := true, 0;
      if fired.Some? {
        ok, pick := Dispatch(fired.value);
      }
    }

    /** Sum of the fire buildings' scores, accumulated in order. */
    method CalculateScore() returns (score: int)
      requires Valid()
      ensures score == TotalScore(View().fires)
      ensures score >= 0
    {
      score := 0;
      var i := 0;
      while i < |fireBuildings|
        invariant 0 <= i <= |fireBuildings|
        invariant score == TotalScore(FireViews()[..i])
      {
        assert FireViews()[..i + 1][..i] == FireViews()[..i];
        score := score + fireBuildings[i].score;
        i := i + 1;
      }
      assert FireViews()[..i] == FireViews();
    }
  }
}
