/** The controller's routing and decision logic (controller_modules/controller/src/
    controller.py): routing of incoming MQTT events, the 30-pixel progress
    bar of a fire building, the relay decisions and the state labels shown
    on the operator interface. Publishing itself is not modelled; each
    decision is a value the publisher would send. */
module Controller {
  import opened Common
  import opened Buildings
  import opened Match

  // ---------------------------------------------------------------------
  // Topic splitting
  // ---------------------------------------------------------------------

  /** `parts` glued back together with `sep` between neighbours. */
  function Join(parts: seq<string>, sep: char): string
    requires |parts| >= 1
  {
    if |parts| == 1 then parts[0] else parts[0] + [sep] + Join(parts[1..], sep)
  }

  /** `s.split(sep)` for a one-character separator: the pieces between
      separators, empty pieces included. */
  function Split(s: string, sep: char): (parts: seq<string>)
    ensures |parts| >= 1
  {
    if s == [] then [[]]
    else
      var rest := Split(s[1..], sep);
      if s[0] == sep then [[]] + rest
      else [[s[0]] + rest[0]] + rest[1..]
  }

  /** No piece of a split holds the separator. */
  lemma {:induction false} SplitPiecesFree(s: string, sep: char)
    ensures forall i :: 0 <= i < |Split(s, sep)| ==> sep !in Split(s, sep)[i]
  {
    if s != [] {
      SplitPiecesFree(s[1..], sep);
      var rest := Split(s[1..], sep);
      if s[0] != sep {
        var parts := Split(s, sep);
        forall i | 0 <= i < |parts|
          ensures sep !in parts[i]
        {
          if i > 0 {
            assert parts[i] == rest[i];
          } else {
            assert parts[0] == [s[0]] + rest[0];
          }
        }
      }
    }
  }

  /** A split has one piece more than `s` has separators. */
  lemma {:induction false} SplitCount(s: string, sep: char)
    ensures |Split(s, sep)| == 1 + multiset(s)[sep]
  {
    if s != [] {
      SplitCount(s[1..], sep);
      assert s == [s[0]] + s[1..];
      assert multiset(s) == multiset{s[0]} + multiset(s[1..]);
    }
  }

  /** Joining the pieces of a split gives the string back. */
  lemma {:induction false} JoinSplit(s: string, sep: char)
    ensures Join(Split(s, sep), sep) == s
  {
    if s != [] {
      JoinSplit(s[1..], sep);
      var rest := Split(s[1..], sep);
      assert s == [s[0]] + s[1..];
      if s[0] == sep {
        assert Split(s, sep) == [[]] + rest;
        assert Join([[]] + rest, sep) == [] + [sep] + Join(rest, sep);
      } else {
        var parts := [[s[0]] + rest[0]] + rest[1..];
        assert Split(s, sep) == parts;
        assert parts[1..] == rest[1..];
        if |rest| > 1 {
          assert Join(rest, sep) == rest[0] + [sep] + Join(rest[1..], sep);
          assert Join(parts, sep) == [s[0]] + rest[0] + [sep] + Join(rest[1..], sep);
        } else {
          assert Join(parts, sep) == [s[0]] + rest[0];
        }
      }
    }
  }

  /** A piece without a separator splits into itself. */
  lemma {:induction false} SplitPiece(a: string, sep: char)
    requires sep !in a
    ensures Split(a, sep) == [a]
  {
    if a != [] {
      assert sep !in a[1..] by {
        assert forall c :: c in a[1..] ==> c in a;
      }
      SplitPiece(a[1..], sep);
      assert a[0] != sep by {
        assert a[0] in a;
      }
      assert [a[0]] + a[1..] == a;
    }
  }

  /** Splitting past a first separator-free piece. */
  lemma {:induction false} SplitAfterPiece(a: string, sep: char, b: string)
    requires sep !in a
    ensures Split(a + [sep] + b, sep) == [a] + Split(b, sep)
  {
    var s := a + [sep] + b;
    if a == [] {
      assert s == [sep] + b;
      assert s[1..] == b;
    } else {
      assert sep !in a[1..] by {
        assert forall c :: c in a[1..] ==> c in a;
      }
      SplitAfterPiece(a[1..], sep, b);
      assert s[1..] == a[1..] + [sep] + b;
      assert s[0] == a[0] && a[0] != sep by {
        assert a[0] in a;
      }
      var rest := Split(s[1..], sep);
      assert rest == [a[1..]] + Split(b, sep);
      assert Split(s, sep) == [[a[0]] + rest[0]] + rest[1..];
      assert [a[0]] + a[1..] == a;
      assert rest[1..] == Split(b, sep);
    }
  }

  /** Joining separator-free pieces and splitting again gives the pieces
      back: together with `Split`'s own contract, the two are inverse. */
  lemma {:induction false} SplitJoin(parts: seq<string>, sep: char)
    requires |parts| >= 1
    requires forall i :: 0 <= i < |parts| ==> sep !in parts[i]
    ensures Split(Join(parts, sep), sep) == parts
  {
    if |parts| == 1 {
      SplitPiece(parts[0], sep);
    } else {
      SplitJoin(parts[1..], sep);
      SplitAfterPiece(parts[0], sep, Join(parts[1..], sep));
      assert [parts[0]] + parts[1..] == parts;
    }
  }

  // ---------------------------------------------------------------------
  // Event routing
  // ---------------------------------------------------------------------

  const BALL_BUILDINGS: seq<string> := ["2", "6", "5"]
  const LASER_BUILDINGS: seq<string> := ["1", "4", "3"]
  const HEATER_BUILDINGS: seq<string> := ["7", "8", "9"]
  const BUILDING_IDS: seq<string> := BALL_BUILDINGS + LASER_BUILDINGS + HEATER_BUILDINGS
  const DETECTORS: seq<string> := ["laser_detector", "ball_detector"]

  /** The JSON payload of an event; a key that is absent is `None`. */
  datatype Message = Message(eventType: Option<string>, data: Option<string>)

  /** What handling one event leads to. `TopicTooShort` is the index error
      raised when the topic has fewer than three levels. */
  datatype Action =
    | DouseFire(building: string)
    | ToggleUi(data: Option<string>)
    | DispatchMatch(event: string)
    | NoAction
    | TopicTooShort

  /** `handle_events`: a hit reported by a detector of a known building
      douses that building, the operator interface's events are toggles or
      match events, and everything else is ignored. */
  function Route(topic: string, msg: Message): (a: Action)
    ensures a == TopicTooShort <==> |Split(topic, '/')| < 3
    ensures a.DouseFire? <==>
              var parts := Split(topic, '/');
              && |parts| >= 3
              && parts[0] in BUILDING_IDS
              && parts[2] in DETECTORS
              && msg.eventType == Some("hit")
    ensures a.DouseFire? ==> a.building == Split(topic, '/')[0]
    ensures a.ToggleUi? <==>
              |Split(topic, '/')| >= 3 && Split(topic, '/')[0] == "ui"
              && msg.eventType == Some("ui_toggle")
    ensures a.ToggleUi? ==> a.data == msg.data
    ensures a.DispatchMatch? <==>
              |Split(topic, '/')| >= 3 && Split(topic, '/')[0] == "ui"
              && msg.eventType.Some? && msg.eventType.value != "ui_toggle"
    ensures a.DispatchMatch? ==> Some(a.event) == msg.eventType
  {
    var parts := Split(topic, '/');
    if |parts| < 3 then TopicTooShort
    else
      var source := parts[0];
      var subsystem := parts[2];
      if source in BUILDING_IDS then
        if subsystem in DETECTORS && msg.eventType == Some("hit") then DouseFire(source)
        else NoAction
      else if source == "ui" then
        match msg.eventType
        case None => NoAction
        case Some(t) => if t == "ui_toggle" then ToggleUi(msg.data) else DispatchMatch(t)
      else NoAction
  }

  /** A hit that a known building's detector publishes on any topic
      `<id>/<level>/<detector>[/...]` douses exactly that building, and the
      same hit from an unknown source douses nothing. */
  lemma {:induction false} DetectorHitDouses(levels: seq<string>, data: Option<string>)
    requires |levels| >= 3 && levels[2] in DETECTORS
    requires forall i :: 0 <= i < |levels| ==> '/' !in levels[i]
    ensures levels[0] in BUILDING_IDS ==>
              Route(Join(levels, '/'), Message(Some("hit"), data)) == DouseFire(levels[0])
    ensures levels[0] !in BUILDING_IDS ==>
              !Route(Join(levels, '/'), Message(Some("hit"), data)).DouseFire?
  {
    SplitJoin(levels, '/');
  }

  // ---------------------------------------------------------------------
  // Progress bar
  // ---------------------------------------------------------------------

  const STRIP_LEN := 30
  const OFF := Rgb(0, 0, 0)
  const BLUE := Rgb(0, 0, 255)

  /** Pixels per unit of fire: small fires are drawn twice as wide. */
  function PixelsPerLevel(init: int): int
  {
    if init <= 8 then 2 else 1
  }

  /** The lengths of the first window's run from the start of the strip and
      the second window's run from its end. Python's floor division by 2
      agrees with Dafny's `/` on every integer. */
  function Spans(level: int, init: int): (int, int)
  {
    var ppf := PixelsPerLevel(init);
    if level > init / 2 then ((init / 2) * ppf, (level - init / 2) * ppf)
    else (level * ppf, 0)
  }

  /** The strip `generate_LED_dict` returns, `None` where it raises an index
      error: the first run overflows the strip when longer than 30, and the
      second, written with negative indices that wrap once, when longer
      than 60. Otherwise pixel `j` is blue exactly when it lies in the first
      run or in the second. */
  function LedBar(level: int, init: int): (r: Option<seq<Rgb>>)
    ensures r.None? <==> Spans(level, init).0 > STRIP_LEN || Spans(level, init).1 > 2 * STRIP_LEN
    ensures r.Some? ==> |r.value| == STRIP_LEN
    ensures r.Some? ==> forall j :: 0 <= j < STRIP_LEN ==> r.value[j] in {OFF, BLUE}
    ensures r.Some? ==> forall j :: 0 <= j < STRIP_LEN ==>
              (r.value[j] == BLUE <==>
                 j < Spans(level, init).0 || j >= STRIP_LEN - Spans(level, init).1)
  {
    var (left, right) := Spans(level, init);
    if left > STRIP_LEN || right > 2 * STRIP_LEN then None
    else Some(seq(STRIP_LEN, j => if j < left || j >= STRIP_LEN - right then BLUE else OFF))
  }

  /** `generate_LED_dict`: start with 30 dark pixels, paint the first run
      upwards from index 0, then the second downwards from index 29 with
      Python's negative-index wrap-around. */
  method GenerateLedDict(fireLevel: int, initialFireLevel: int) returns (pixels: Option<seq<Rgb>>)
    ensures pixels == LedBar(fireLevel, initialFireLevel)
  {
    var data: seq<Rgb> := [];
    var i := 0;
    while i < STRIP_LEN
      invariant 0 <= i <= STRIP_LEN && |data| == i
      invariant forall j :: 0 <= j < i ==> data[j] == OFF
    {
      data := data + [OFF];
      i := i + 1;
    }
    var ppf := if initialFireLevel <= 8 then 2 else 1;
    var left, right;
    if fireLevel > initialFireLevel / 2 {
      left := (initialFireLevel / 2) * ppf;
      right := (fireLevel - initialFireLevel / 2) * ppf;
    } else {
      left := fireLevel * ppf;
      right := 0;
    }
    assert (left, right) == Spans(fireLevel, initialFireLevel);
    if left > 0 {
      i := 0;
      while i < left
        invariant 0 <= i <= left && i <= STRIP_LEN && |data| == STRIP_LEN
        invariant forall j :: 0 <= j < STRIP_LEN ==> data[j] == if j < i then BLUE else OFF
      {
        if i >= STRIP_LEN {
          return None;
        }
        data := data[i := BLUE];
        i := i + 1;
      }
    }
    var lit := if left > 0 then left else 0;
    if right > 0 {
      i := STRIP_LEN - 1;
      while i > STRIP_LEN - 1 - right
        invariant STRIP_LEN - 1 - right <= i <= STRIP_LEN - 1 && i >= -STRIP_LEN - 1
        invariant |data| == STRIP_LEN
        invariant forall j :: 0 <= j < STRIP_LEN ==>
                    data[j] == if j < lit || j > i then BLUE else OFF
      {
        if i < -STRIP_LEN {
          return None;
        }
        var index := if i < 0 then i + STRIP_LEN else i;
        data := data[index := BLUE];
        i := i - 1;
      }
    }
    if right > 2 * STRIP_LEN {
      assert false;
    }
    assert data == seq(STRIP_LEN, j => if j < left || j >= STRIP_LEN - right then BLUE else OFF);
    pixels := Some(data);
  }

  /** Number of blue pixels. */
  function BlueCount(px: seq<Rgb>): nat
  {
    multiset(px)[BLUE]
  }

  /** Blue pixels in the first `n` positions of a bar with runs `left`
      and `right` that do not overlap. */
  lemma {:induction false} BlueCountPrefix(px: seq<Rgb>, left: int, right: int, n: nat)
    requires |px| == STRIP_LEN && 0 <= left && 0 <= right && left + right <= STRIP_LEN
    requires forall j :: 0 <= j < STRIP_LEN ==>
               (px[j] == BLUE <==> j < left || j >= STRIP_LEN - right)
    requires n <= STRIP_LEN
    ensures BlueCount(px[..n]) ==
              (if n < left then n else left)
              + (if n > STRIP_LEN - right then n - (STRIP_LEN - right) else 0)
  {
    if n > 0 {
      BlueCountPrefix(px, left, right, n - 1);
      assert px[..n] == px[..n - 1] + [px[n - 1]];
    }
  }

  /** Within the strip, the bar shows exactly `level * ppf` blue pixels for
      every level between zero and the initial level. */
  lemma BarShowsLevel(level: int, init: int)
    requires 0 <= level <= init && init * PixelsPerLevel(init) <= STRIP_LEN
    ensures LedBar(level, init).Some?
    ensures BlueCount(LedBar(level, init).value) == level * PixelsPerLevel(init)
  {
    var ppf := PixelsPerLevel(init);
    var (left, right) := Spans(level, init);
    assert left + right == level * ppf;
    assert level * ppf <= init * ppf;
    var px := LedBar(level, init).value;
    BlueCountPrefix(px, left, right, STRIP_LEN);
    assert px[..STRIP_LEN] == px;
  }

  /** The second window's run lights only above half the initial level,
      and then the first run has its full half-length; an unlit building
      shows a dark strip. */
  lemma SecondRunAboveHalf(level: int, init: int)
    ensures Spans(level, init).1 > 0 ==>
              level > init / 2 && Spans(level, init).0 == (init / 2) * PixelsPerLevel(init)
    ensures level == 0 && init >= 0 ==>
              LedBar(level, init) == Some(seq(STRIP_LEN, _ => OFF))
  {
    if level == 0 && init >= 0 {
      assert Spans(level, init) == (0, 0);
      var px := LedBar(level, init).value;
      assert forall j :: 0 <= j < STRIP_LEN ==> px[j] == OFF;
      assert px == seq(STRIP_LEN, _ => OFF);
    }
  }

  // ---------------------------------------------------------------------
  // Relays
  // ---------------------------------------------------------------------

  /** The window relays of a fire building: both on above half of the
      initial level (true division, hence `2 * level > init`), only the
      first on for a smaller positive level, both off otherwise. */
  function WindowRelays(level: int, init: int): (w: (bool, bool))
    ensures w.1 ==> w.0
    ensures w.1 <==> 2 * level > init
    ensures w.0 <==> 2 * level > init || level > 0
  {
    if 2 * level > init then (true, true)
    else if level > 0 then (true, false)
    else (false, false)
  }

  /** The window relays agree with the progress bar: the first window burns
      when any pixel is lit, which shows at one end of the strip, and the
      second exactly when the last pixel belongs to the second run. */
  lemma WindowsMatchBar(level: int, init: int)
    requires 0 <= level <= init && init * PixelsPerLevel(init) <= STRIP_LEN
    ensures LedBar(level, init).Some?
    ensures var px := LedBar(level, init).value;
            && (WindowRelays(level, init).0 <==> px[0] == BLUE || px[STRIP_LEN - 1] == BLUE)
            && (WindowRelays(level, init).1 <==> Spans(level, init).1 > 0)
  {
    var ppf := PixelsPerLevel(init);
    var (left, right) := Spans(level, init);
    assert level * ppf <= init * ppf;
    if level > init / 2 {
      assert right >= ppf;
    } else {
      assert right == 0;
      assert left < STRIP_LEN by {
        if init > 0 {
          assert level < init;
          assert level * ppf < init * ppf;
        }
      }
    }
  }

  /** The hopper relay: on only during phase 3. */
  function HopperRelay(p: Phase): (on: bool)
    ensures on <==> p == Phase3
  {
    PhaseName(p) == "phase_3_state"
  }

  /** A heater's relay: on exactly while the heater burns. */
  function HeaterRelay(s: HeaterState): (on: bool)
    ensures on <==> s == HeaterOnFire
  {
    HeaterStateName(s) == "on_fire_state"
  }

  // ---------------------------------------------------------------------
  // Labels
  // ---------------------------------------------------------------------

  const MATCH_LABELS: map<string, string> := map[
    "phase_1_state" := "Phase 1",
    "phase_2_state" := "Phase 2",
    "phase_3_state" := "Phase 3",
    "idle_state" := "Idle",
    "staging_state" := "Staging/Preheat",
    "post_match_state" := "End Game"]

  const BUILDING_LABELS: map<string, string> := map[
    "idle_state" := "Idle",
    "on_fire_state" := "Burning",
    "extinguished_state" := "Extinguished"]

  /** The match-state label of `publish_game_state`: the six known state
      names get their display text, any other name is shown as it is. */
  function MatchStateLabel(state: string): (shown: string)
    ensures state in MATCH_LABELS ==> shown == MATCH_LABELS[state]
    ensures state !in MATCH_LABELS ==> shown == state
  {
    if state == "phase_1_state" then "Phase 1"
    else if state == "phase_2_state" then "Phase 2"
    else if state == "phase_3_state" then "Phase 3"
    else if state == "idle_state" then "Idle"
    else if state == "staging_state" then "Staging/Preheat"
    else if state == "post_match_state" then "End Game"
    else state
  }

  /** The building-state label of `publish_building_table`. */
  function BuildingStateLabel(state: string): (shown: string)
    ensures state in BUILDING_LABELS ==> shown == BUILDING_LABELS[state]
    ensures state !in BUILDING_LABELS ==> shown == state
  {
    if state == "idle_state" then "Idle"
    else if state == "on_fire_state" then "Burning"
    else if state == "extinguished_state" then "Extinguished"
    else state
  }

  /** Every match phase is labelled, and distinct phases get distinct
      labels, so the operator interface can tell them apart. */
  lemma MatchLabelsDistinguishPhases(p: Phase, q: Phase)
    ensures PhaseName(p) in MATCH_LABELS
    ensures p != q ==> MatchStateLabel(PhaseName(p)) != MatchStateLabel(PhaseName(q))
  {
  }

  /** Every fire-building state is labelled, and distinct states get
      distinct labels. */
  lemma BuildingLabelsDistinguishStates(s: FireState, t: FireState)
    ensures FireStateName(s) in BUILDING_LABELS
    ensures s != t ==> BuildingStateLabel(FireStateName(s)) != BuildingStateLabel(FireStateName(t))
  {
  }
}
