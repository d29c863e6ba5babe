/** The ball-drop detector of the building firmware
    (buildings/arduino/src/BallDetect.cpp): a pin, a debounced trigger
    recorded by the interrupt, and a latch that the main loop consumes.
    The millisecond clock is a parameter of each trigger. */
module BallDetection {
  import opened Common

  /** The detector's fields. */
  datatype DetectorView = DetectorView(pin: int, hasTriggered: bool, sensorState: int, lastTrigger: u32)

  /** `ball_trigger_interrupt` at millisecond `now`: accepted more than
      `maxWait` ms after the last accepted trigger, when it latches a ball,
      marks the sensor and becomes the new reference; otherwise no field
      changes. */
  function Trigger(v: DetectorView, now: u32, maxWait: u32): (w: DetectorView)
    ensures Accepts(now, v.lastTrigger, maxWait) ==>
              w == v.(hasTriggered := true, sensorState := 1, lastTrigger := now)
    ensures !Accepts(now, v.lastTrigger, maxWait) ==> w == v
  {
    if Sub32(now, v.lastTrigger) > maxWait then
      v.(hasTriggered := true, sensorState := 1, lastTrigger := now)
    else v
  }

  /** `ball_detect`: reports the latch and leaves it clear. */
  function Detect(v: DetectorView): (r: (DetectorView, bool))
    ensures r.1 == v.hasTriggered
    ensures r.0 == v.(hasTriggered := false)
  {
    if v.hasTriggered then (v.(hasTriggered := false), true) else (v, false)
  }

  /** The calls a detector receives. */
  datatype DetectorCall = BallInit(pin: int) | TriggerAt(now: u32) | BallDetect

  /** A sequence of calls: the final fields and what each `ball_detect`
      reported, in order. */
  function Run(v: DetectorView, calls: seq<DetectorCall>, maxWait: u32): (DetectorView, seq<bool>)
    decreases |calls|
  {
    if calls == [] then (v, [])
    else
      match calls[0]
      case BallInit(p) => Run(v.(pin := p), calls[1..], maxWait)
      case TriggerAt(now) => Run(Trigger(v, now, maxWait), calls[1..], maxWait)
      case BallDetect =>
        var d := Detect(v);
        var rest := Run(d.0, calls[1..], maxWait);
        (rest.0, [d.1] + rest.1)
  }

  /** The pin of the latest `ball_init` in `calls`, or `pin` without one. */
  function LastPin(pin: int, calls: seq<DetectorCall>): int
    decreases |calls|
  {
    if calls == [] then pin
    else LastPin(if calls[0].BallInit? then calls[0].pin else pin, calls[1..])
  }

  /** `get_pin` returns the pin most recently passed to `ball_init`,
      whatever triggers and detections happened since. */
  lemma {:induction false} PinIsLastInit(v: DetectorView, calls: seq<DetectorCall>, maxWait: u32)
    ensures Run(v, calls, maxWait).0.pin == LastPin(v.pin, calls)
    decreases |calls|
  {
    if calls != [] {
      match calls[0]
      case BallInit(p) => PinIsLastInit(v.(pin := p), calls[1..], maxWait);
      case TriggerAt(now) => PinIsLastInit(Trigger(v, now, maxWait), calls[1..], maxWait);
      case BallDetect => PinIsLastInit(Detect(v).0, calls[1..], maxWait);
    }
  }

  /** Triggers that all come within `maxWait` of the last accepted one. */
  predicate AllRejected(calls: seq<DetectorCall>, lastTrigger: u32, maxWait: u32)
  {
    forall k :: 0 <= k < |calls| && calls[k].TriggerAt? ==>
      !Accepts(calls[k].now, lastTrigger, maxWait)
  }

  /** Consume once: after a `ball_detect` has cleared the latch, no later
      `ball_detect` reports a ball until a trigger is accepted, and the
      reference time stays that of the last accepted trigger. */
  lemma {:induction false} NoBallWithoutAcceptedTrigger(v: DetectorView, calls: seq<DetectorCall>, maxWait: u32)
    requires !v.hasTriggered
    requires AllRejected(calls, v.lastTrigger, maxWait)
    ensures var r := Run(v, calls, maxWait);
            && !r.0.hasTriggered && r.0.lastTrigger == v.lastTrigger
            && forall k :: 0 <= k < |r.1| ==> !r.1[k]
    decreases |calls|
  {
    if calls != [] {
      assert AllRejected(calls[1..], v.lastTrigger, maxWait) by {
        forall k | 0 <= k < |calls[1..]| && calls[1..][k].TriggerAt?
          ensures !Accepts(calls[1..][k].now, v.lastTrigger, maxWait)
        {
          assert calls[1..][k] == calls[k + 1];
        }
      }
      match calls[0]
      case BallInit(p) => NoBallWithoutAcceptedTrigger(v.(pin := p), calls[1..], maxWait);
      case TriggerAt(now) =>
        assert !Accepts(now, v.lastTrigger, maxWait) by {
          assert calls[0].TriggerAt?;
        }
        NoBallWithoutAcceptedTrigger(v, calls[1..], maxWait);
      case BallDetect =>
        NoBallWithoutAcceptedTrigger(v, calls[1..], maxWait);
    }
  }

  /** Two detections with nothing accepted between them: the second
      reports no ball, whatever the first reported. */
  lemma SecondDetectIsFalse(v: DetectorView, between: seq<DetectorCall>, maxWait: u32)
    requires AllRejected(between, v.lastTrigger, maxWait)
    ensures var r := Run(v, [BallDetect] + between + [BallDetect], maxWait);
            |r.1| >= 1 && !r.1[|r.1| - 1]
  {
    var calls := [BallDetect] + between + [BallDetect];
    var d := Detect(v).0;
    assert calls[1..] == between + [BallDetect];
    assert (between + [BallDetect])[..|between|] == between;
    NoBallWithoutAcceptedTrigger(d, between, maxWait);
    ReportsLastDetect(d, between + [BallDetect], maxWait);
  }

  /** The final `ball_detect` of a run reports exactly the latch as the
      calls before it left it. */
  lemma {:induction false} ReportsLastDetect(v: DetectorView, calls: seq<DetectorCall>, maxWait: u32)
    requires calls != [] && calls[|calls| - 1] == BallDetect
    ensures var r := Run(v, calls, maxWait).1;
            |r| >= 1 && r[|r| - 1] == Run(v, calls[..|calls| - 1], maxWait).0.hasTriggered
    decreases |calls|
  {
    if |calls| > 1 {
      var front := calls[..|calls| - 1];
      assert calls[1..][|calls[1..]| - 1] == BallDetect;
      assert calls[1..][..|calls[1..]| - 1] == front[1..];
      assert front != [] && front[0] == calls[0];
      match calls[0]
      case BallInit(p) => ReportsLastDetect(v.(pin := p), calls[1..], maxWait);
      case TriggerAt(now) => ReportsLastDetect(Trigger(v, now, maxWait), calls[1..], maxWait);
      case BallDetect => ReportsLastDetect(Detect(v).0, calls[1..], maxWait);
    }
  }

  /** A detector object. `maxWait` is the debounce window, defined in the
      detector's header. */
  class BallDetector {
    const maxWait: u32
    var pin: int
    var hasTriggered: bool
    var sensorState: int
    var lastTrigger: u32

    function View(): DetectorView
      reads this
    {
      DetectorView(pin, hasTriggered, sensorState, lastTrigger)
    }

    /** The constructor sets no field; the initial values are parameters. */
    constructor (maxWait: u32, initial: DetectorView)
      ensures this.maxWait == maxWait && View() == initial
    {
      this.maxWait := maxWait;
      pin := initial.pin;
      hasTriggered := initial.hasTriggered;
      sensorState := initial.sensorState;
      lastTrigger := initial.lastTrigger;
    }

    /** `ball_init`: remember the pin (the pull-up set-up is hardware). */
    method BallInit(p: int)
      modifies this
      ensures View() == old(View()).(pin := p)
    {
      pin := p;
    }

    method GetPin() returns (p: int)
      ensures p == pin
    {
      p := pin;
    }

    method BallTriggerInterrupt(now: u32)
      modifies this
      ensures View() == Trigger(old(View()), now, maxWait)
    {
      if Sub32(now, lastTrigger) > maxWait {
        hasTriggered := true;
        sensorState := 1;
        lastTrigger := now;
      }
    }

    method BallDetect() returns (seen: bool)
      modifies this
      ensures (View(), seen) == Detect(old(View()))
    {
      if hasTriggered {
        hasTriggered := false;
        return true;
      } else {
        return false;
      }
    }
  }
}
