/** The earlier match machine (controller_modules/controller/match.py): six
    phases in one cycle, no early exit, and each of the three phases starts a
    sleeper thread on entry that dispatches the phase's timeout event after
    90 seconds. The sleepers are modelled as a queue of pending timeout
    events; since every sleeper waits the same 90 seconds and they are started
    one after another, they fire in the order they were scheduled. */
module LegacyMatch {
  import opened Common
  import opened Match

  const LEGACY_NEW_MATCH := "new_match_event"
  const LEGACY_MATCH_START := "match_start_event"
  const PHASE_1_TIMEOUT := "phase_1_timeout_event"
  const PHASE_2_TIMEOUT := "phase_2_timeout_event"
  const PHASE_3_TIMEOUT := "phase_3_timeout_event"
  const LEGACY_MATCH_RESET := "match_reset_event"

  /** Every phase sleeper waits this many seconds. */
  const LEGACY_PHASE_SECONDS := 90

  /** The earlier match's fields: the score (never changed after
      construction), the phase, and the timeout events whose sleepers have
      not fired yet, oldest first. */
  datatype LegacyMatchView = LegacyMatchView(score: int, phase: Phase, pending: seq<string>)

  /** The six edges of the earlier match. */
  const LEGACY_EDGES: map<(Phase, string), Phase> := map[
    (Phase.Idle, LEGACY_NEW_MATCH) := Staging,
    (Staging, LEGACY_MATCH_START) := Phase1,
    (Phase1, PHASE_1_TIMEOUT) := Phase2,
    (Phase2, PHASE_2_TIMEOUT) := Phase3,
    (Phase3, PHASE_3_TIMEOUT) := PostMatch,
    (PostMatch, LEGACY_MATCH_RESET) := Phase.Idle]

  /** The transition lookup: exactly the six edges, nothing else. */
  function LegacyTransition(p: Phase, e: string): (t: Option<Phase>)
    ensures t.Some? <==> (p, e) in LEGACY_EDGES
    ensures t.Some? ==> t.value == LEGACY_EDGES[(p, e)]
  {
    match p
    case Idle => if e == LEGACY_NEW_MATCH then Some(Staging) else None
    case Staging => if e == LEGACY_MATCH_START then Some(Phase1) else None
    case Phase1 => if e == PHASE_1_TIMEOUT then Some(Phase2) else None
    case Phase2 => if e == PHASE_2_TIMEOUT then Some(Phase3) else None
    case Phase3 => if e == PHASE_3_TIMEOUT then Some(PostMatch) else None
    case PostMatch => if e == LEGACY_MATCH_RESET then Some(Phase.Idle) else None
  }

  /** The position of a phase in the cycle. */
  function Rank(p: Phase): nat
  {
    match p
    case Idle => 0
    case Staging => 1
    case Phase1 => 2
    case Phase2 => 3
    case Phase3 => 4
    case PostMatch => 5
  }

  /** The table is a single cycle: every edge goes one step forward, and the
      only way back to idle is the reset after the match; in particular no
      phase can leave early and staging cannot return to idle. */
  lemma EdgesFormOneCycle(p: Phase, e: string)
    ensures LegacyTransition(p, e).Some? ==>
              Rank(LegacyTransition(p, e).value) == (Rank(p) + 1) % 6
    ensures LegacyTransition(p, e) == Some(Phase.Idle) <==> p == PostMatch && e == LEGACY_MATCH_RESET
  {
  }

  /** The timeout event a phase's enter handler schedules, if it has one. */
  function TimeoutOf(p: Phase): (e: Option<string>)
    ensures e.Some? <==> p in {Phase1, Phase2, Phase3}
    ensures e.Some? ==> LegacyTransition(p, e.value).Some?
  {
    match p
    case Phase1 => Some(PHASE_1_TIMEOUT)
    case Phase2 => Some(PHASE_2_TIMEOUT)
    case Phase3 => Some(PHASE_3_TIMEOUT)
    case _ => None
  }

  /** The enter handler of phase `p`: start its sleeper. */
  function LegacyEnter(v: LegacyMatchView, p: Phase): (w: LegacyMatchView)
    ensures w.score == v.score && w.phase == v.phase
    ensures TimeoutOf(p).Some? ==> w.pending == v.pending + [TimeoutOf(p).value]
    ensures TimeoutOf(p).None? ==> w == v
  {
    match TimeoutOf(p)
    case Some(t) => v.(pending := v.pending + [t])
    case None => v
  }

  /** One dispatch: the current phase handles an event literally named
      "enter" with its own enter handler (there are no other handlers), then
      the table moves the phase and the new phase's enter handler runs. */
  function LegacyMatchDispatch(v: LegacyMatchView, e: string): (w: LegacyMatchView)
    ensures w.score == v.score
    ensures LegacyTransition(v.phase, e).None? ==> w.phase == v.phase
    ensures LegacyTransition(v.phase, e).Some? ==> w.phase == LegacyTransition(v.phase, e).value
    ensures e != "enter" && LegacyTransition(v.phase, e).None? ==> w == v
    ensures e != "enter" && LegacyTransition(v.phase, e).Some? ==>
              w.pending == v.pending + (match TimeoutOf(w.phase)
                                        case Some(t) => [t]
                                        case None => [])
  {
    var h := if e == "enter" then LegacyEnter(v, v.phase) else v;
    match LegacyTransition(h.phase, e)
    case None => h
    case Some(t) => LegacyEnter(h.(phase := t), t)
  }

  /** A new match: score 0, idle (initialising does not run an enter
      handler), nothing scheduled. */
  function NewLegacyMatch(): (v: LegacyMatchView)
    ensures v.phase == Phase.Idle && v.pending == [] && v.score == 0
  {
    LegacyMatchView(0, Phase.Idle, [])
  }

  /** The oldest sleeper wakes up and dispatches its event. */
  function LegacyTimerFires(v: LegacyMatchView): (w: LegacyMatchView)
    requires v.pending != []
    ensures w == LegacyMatchDispatch(v.(pending := v.pending[1..]), v.pending[0])
  {
    LegacyMatchDispatch(v.(pending := v.pending[1..]), v.pending[0])
  }

  /** The phase and its sleepers agree: a timed phase has exactly its own
      timeout pending, any other phase has nothing pending. */
  ghost predicate Synced(v: LegacyMatchView)
  {
    match TimeoutOf(v.phase)
    case Some(t) => v.pending == [t]
    case None => v.pending == []
  }

  /** A sequence of dispatched events. */
  function LegacySteps(v: LegacyMatchView, events: seq<string>): LegacyMatchView
    decreases |events|
  {
    if events == [] then v else LegacySteps(LegacyMatchDispatch(v, events[0]), events[1..])
  }

  /** An event from outside the machine: neither a raw "enter" nor a
      timeout event, which only the sleepers send. */
  predicate External(e: string)
  {
    e != "enter" && e != PHASE_1_TIMEOUT && e != PHASE_2_TIMEOUT && e != PHASE_3_TIMEOUT
  }

  /** A new match is synced, and external events keep it so, however many
      and in whatever order they arrive. (A timeout event dispatched from
      outside would advance the phase and leave the earlier sleeper
      scheduled.) */
  lemma {:induction false} StepsKeepSynced(v: LegacyMatchView, events: seq<string>)
    requires Synced(v)
    requires forall k :: 0 <= k < |events| ==> External(events[k])
    ensures Synced(NewLegacyMatch())
    ensures Synced(LegacySteps(v, events))
    decreases |events|
  {
    if events != [] {
      assert External(events[0]);
      var w := LegacyMatchDispatch(v, events[0]);
      assert Synced(w) by {
        if LegacyTransition(v.phase, events[0]).Some? {
          assert TimeoutOf(v.phase).None? && v.pending == [];
        }
      }
      assert forall k :: 0 <= k < |events[1..]| ==> events[1..][k] == events[k + 1];
      StepsKeepSynced(w, events[1..]);
    }
  }

  /** `n` sleepers firing one after another. */
  function LegacyFires(v: LegacyMatchView, n: nat): (w: Option<LegacyMatchView>)
    decreases n
  {
    if n == 0 then Some(v)
    else if v.pending == [] then None
    else LegacyFires(LegacyTimerFires(v), n - 1)
  }

  /** How many timed phases remain from `p`, itself included. */
  function PhasesLeft(p: Phase): nat
  {
    match p
    case Phase1 => 3
    case Phase2 => 2
    case Phase3 => 1
    case _ => 0
  }

  /** Once a synced match is in a timed phase, its sleepers alone carry it
      to the post-match phase, each firing exactly once, and nothing is left
      scheduled. */
  lemma {:induction false} SleepersFinishMatch(v: LegacyMatchView)
    requires Synced(v) && TimeoutOf(v.phase).Some?
    ensures LegacyFires(v, PhasesLeft(v.phase)) == Some(v.(phase := PostMatch, pending := []))
    decreases PhasesLeft(v.phase)
  {
    var w := LegacyTimerFires(v);
    if v.phase != Phase3 {
      assert Synced(w) && TimeoutOf(w.phase).Some?;
      assert PhasesLeft(w.phase) == PhasesLeft(v.phase) - 1;
      SleepersFinishMatch(w);
      assert w.(phase := PostMatch, pending := []) == v.(phase := PostMatch, pending := []);
    } else {
      assert w == v.(phase := PostMatch, pending := []);
    }
  }

  /** The whole earlier match: a new match, then a new-match and a
      match-start event, then its three sleepers, ends after the match with
      nothing scheduled; the reset returns it to idle. */
  lemma WholeLegacyMatch()
    ensures var started := LegacySteps(NewLegacyMatch(), [LEGACY_NEW_MATCH, LEGACY_MATCH_START]);
            && started == LegacyMatchView(0, Phase1, [PHASE_1_TIMEOUT])
            && LegacyFires(started, 3) == Some(LegacyMatchView(0, PostMatch, []))
            && LegacyMatchDispatch(LegacyMatchView(0, PostMatch, []), LEGACY_MATCH_RESET) == NewLegacyMatch()
  {
    var staged := LegacyMatchDispatch(NewLegacyMatch(), LEGACY_NEW_MATCH);
    assert staged == LegacyMatchView(0, Staging, []);
    var started := LegacyMatchDispatch(staged, LEGACY_MATCH_START);
    assert started == LegacyMatchView(0, Phase1, [PHASE_1_TIMEOUT]);
    assert [LEGACY_NEW_MATCH, LEGACY_MATCH_START][1..] == [LEGACY_MATCH_START];
    assert LegacySteps(NewLegacyMatch(), [LEGACY_NEW_MATCH, LEGACY_MATCH_START])
        == LegacySteps(staged, [LEGACY_MATCH_START])
        == LegacySteps(started, []);
    SleepersFinishMatch(started);
  }

  /** An earlier match object. */
  class LegacyMatchModel {
    var score: int
    var phase: Phase
    var pending: seq<string>

    function View(): LegacyMatchView
      reads this
    {
      LegacyMatchView(score, phase, pending)
    }

    constructor ()
      ensures View() == NewLegacyMatch()
    {
      score := 0;
      phase := Phase.Idle;
      pending := [];
    }

    /** `phase_one_enter`: start the phase-1 sleeper. */
    method PhaseOneEnter()
      modifies this
      ensures View() == old(View()).(pending := old(pending) + [PHASE_1_TIMEOUT])
    {
      pending := pending + [PHASE_1_TIMEOUT];
    }

    /** `phase_two_enter`: start the phase-2 sleeper. */
    method PhaseTwoEnter()
      modifies this
      ensures View() == old(View()).(pending := old(pending) + [PHASE_2_TIMEOUT])
    {
      pending := pending + [PHASE_2_TIMEOUT];
    }

    /** `phase_three_enter`: start the phase-3 sleeper. */
    method PhaseThreeEnter()
      modifies this
      ensures View() == old(View()).(pending := old(pending) + [PHASE_3_TIMEOUT])
    {
      pending := pending + [PHASE_3_TIMEOUT];
    }

    /** The enter handler of the current phase, if it has one. */
    method EnterHandler()
      modifies this
      ensures View() == LegacyEnter(old(View()), old(phase))
    {
      match phase
      case Phase1 => PhaseOneEnter();
      case Phase2 => PhaseTwoEnter();
      case Phase3 => PhaseThreeEnter();
      case _ =>
    }

    /** `dispatch`. */
    method Dispatch(e: string)
      modifies this
      ensures View() == LegacyMatchDispatch(old(View()), e)
    {
      if e == "enter" {
        EnterHandler();
      }
      var t := LegacyTransition(phase, e);
      if t.Some? {
        phase := t.value;
        EnterHandler();
      }
    }

    /** `timer`: the oldest sleeper wakes and dispatches its event. */
    method TimerFires()
      requires pending != []
      modifies this
      ensures View() == LegacyTimerFires(old(View()))
    {
      var e := pending[0];
      pending := pending[1..];
      Dispatch(e);
    }
  }
}
