/**
  The motion controller of servo_control.py: angle clamping, the
  angle-to-duty conversion, `set_angle` against a PWM driver that may fail,
  the sweep lifecycle flags, and `cleanup`.

  The PWM driver is abstract: each duty-cycle write either succeeds or
  raises, and the caller says which (`writeOk`). Locks, sleeps and the
  worker thread are not modelled; a sweep worker's whole run is one step,
  `RunWorker`, that applies its targets in order.
 */
module ServoControl {
  import opened Common
  import Sweep

  /** The position the controller reports before any move (line 44). */
  const InitialAngle: real := 90.0

  /** Which event a sweep worker polls for cancellation (line 191). */
  datatype StopSource = InternalEvent | CallerEvent

  /** The worker `sweep_thread` refers to, if it is alive. */
  datatype SweepSlot = Idle | Running(watch: StopSource)

  /**
    The controller's state. `duty` is the duty cycle the PWM is currently
    driving; `strays` counts sweep workers still running that `sweep_thread`
    no longer refers to.
   */
  datatype Servo = Servo(
    currentAngle: real,
    initialized: bool,
    hasPwm: bool,
    duty: real,
    minDuty: real,
    maxDuty: real,
    sweep: SweepSlot,
    strays: nat)

  /** `max(0, min(180, angle))`. */
  function Clamp(angle: real): (r: real)
    ensures 0.0 <= r <= 180.0
    ensures 0.0 <= angle <= 180.0 ==> r == angle
    ensures angle < 0.0 ==> r == 0.0
    ensures angle > 180.0 ==> r == 180.0
  {
    if angle < 0.0 then 0.0 else if angle > 180.0 then 180.0 else angle
  }

  lemma ScaleBounds(f: real, w: real)
    requires 0.0 <= f <= 1.0
    ensures w >= 0.0 ==> 0.0 <= f * w <= w
  {
    if w >= 0.0 {
      assert (1.0 - f) * w >= 0.0;
    }
  }

  /**
    `angle_to_duty` (lines 97-112): the clamped angle mapped linearly from
    [0, 180] onto [minDuty, maxDuty].
   */
  function AngleToDuty(minDuty: real, maxDuty: real, angle: real): (d: real)
    ensures angle <= 0.0 ==> d == minDuty
    ensures angle >= 180.0 ==> d == maxDuty
    ensures minDuty <= maxDuty ==> minDuty <= d <= maxDuty
  {
    var f := Clamp(angle) / 180.0;
    var w := maxDuty - minDuty;
    ScaleBounds(f, w);
    assert angle <= 0.0 ==> f == 0.0;
    assert angle >= 180.0 ==> f == 1.0 && f * w == w;
    minDuty + f * w
  }

  /** The angle a duty cycle stands for: the inverse of `AngleToDuty`. */
  function DutyToAngle(minDuty: real, maxDuty: real, duty: real): real
    requires minDuty < maxDuty
  {
    (duty - minDuty) / (maxDuty - minDuty) * 180.0
  }

  /** On [0, 180] the conversion loses nothing: the duty cycle determines the angle. */
  lemma DutyRoundTrip(minDuty: real, maxDuty: real, angle: real)
    requires minDuty < maxDuty && 0.0 <= angle <= 180.0
    ensures DutyToAngle(minDuty, maxDuty, AngleToDuty(minDuty, maxDuty, angle)) == angle
  {
    var w := maxDuty - minDuty;
    var d := AngleToDuty(minDuty, maxDuty, angle);
    assert d - minDuty == (angle / 180.0) * w;
    assert (d - minDuty) / w == angle / 180.0;
  }

  lemma NonNegativeProduct(a: real, b: real)
    requires a >= 0.0 && b >= 0.0
    ensures a * b >= 0.0
  {
  }

  /** A larger angle never gives a smaller duty cycle. */
  lemma AngleToDutyMonotone(minDuty: real, maxDuty: real, a: real, b: real)
    requires minDuty <= maxDuty && a <= b
    ensures AngleToDuty(minDuty, maxDuty, a) <= AngleToDuty(minDuty, maxDuty, b)
  {
    var fa, fb := Clamp(a) / 180.0, Clamp(b) / 180.0;
    var w := maxDuty - minDuty;
    assert fa <= fb;
    NonNegativeProduct(fb - fa, w);
    assert fb * w == fa * w + (fb - fa) * w;
    assert AngleToDuty(minDuty, maxDuty, a) == minDuty + fa * w;
    assert AngleToDuty(minDuty, maxDuty, b) == minDuty + fb * w;
  }

  /**
    The controller's invariant: the reported angle is within [0, 180], an
    initialized controller has a PWM that is driving exactly the duty cycle
    of the reported angle, and no sweep worker has been left running
    unreferenced.
   */
  predicate Valid(s: Servo) {
    && 0.0 <= s.currentAngle <= 180.0
    && (s.initialized ==> s.hasPwm && s.duty == AngleToDuty(s.minDuty, s.maxDuty, s.currentAngle))
    && s.strays == 0
  }

  datatype Move = Move(ok: bool, servo: Servo)

  /**
    `set_angle` (lines 114-156). It refuses an uninitialized controller and
    one without a PWM. Otherwise it writes the duty cycle of the clamped
    angle and, only if that write did not raise, records the clamped angle.
    On any failure nothing changes.
   */
  function SetAngle(s: Servo, angle: real, writeOk: bool): (m: Move)
    ensures m.ok <==> s.initialized && s.hasPwm && writeOk
    ensures !m.ok ==> m.servo == s
    ensures m.ok ==> m.servo.currentAngle == Clamp(angle) && 0.0 <= m.servo.currentAngle <= 180.0
    ensures m.servo.initialized == s.initialized && m.servo.hasPwm == s.hasPwm
    ensures m.servo.sweep == s.sweep && m.servo.strays == s.strays
    ensures Valid(s) ==> Valid(m.servo)
  {
    if !s.initialized then Move(false, s)
    else
      var a := Clamp(angle);
      var d := AngleToDuty(s.minDuty, s.maxDuty, a);
      if !s.hasPwm then Move(false, s)
      else if !writeOk then Move(false, s)
      else Move(true, s.(duty := d, currentAngle := a))
  }

  /** The examples the controller promises: -10 is stored as 0 and 999 as 180. */
  lemma SetAngleClampsExamples(s: Servo)
    requires s.initialized && s.hasPwm
    ensures SetAngle(s, -10.0, true).servo.currentAngle == 0.0
    ensures SetAngle(s, 999.0, true).servo.currentAngle == 180.0
  {
  }

  predicate IsSweeping(s: Servo) {
    s.sweep.Running?
  }

  /**
    `stop_sweep` (lines 234-241) as written: it sets only the internal
    event. A worker that polls a caller-supplied event does not see it, the
    bounded join gives up, and the worker keeps running.
   */
  function StopSweepAsWritten(s: Servo): (r: Servo)
    ensures r.currentAngle == s.currentAngle && r.initialized == s.initialized
    ensures s.sweep == Running(CallerEvent) ==> IsSweeping(r)
    ensures s.sweep != Running(CallerEvent) ==> !IsSweeping(r)
  {
    match s.sweep
    case Idle => s
    case Running(InternalEvent) => s.(sweep := Idle)
    case Running(CallerEvent) => s
  }

  /**
    `stop_sweep` with the event the running worker actually polls: every
    live sweep is cancelled and joined, and a second call changes nothing.
   */
  function StopSweep(s: Servo): (r: Servo)
    ensures !IsSweeping(r)
    ensures !IsSweeping(s) ==> r == s
    ensures r.currentAngle == s.currentAngle && r.initialized == s.initialized && r.duty == s.duty
    ensures Valid(s) ==> Valid(r)
  {
    s.(sweep := Idle)
  }

  /**
    `sweep` (lines 167-232) as written: nothing happens on an uninitialized
    controller; otherwise the previous sweep is stopped as written, and a new
    worker is started. A previous worker that survived the stop is left
    running unreferenced.
   */
  function StartSweepAsWritten(s: Servo, watch: StopSource): (r: Servo)
    ensures !s.initialized ==> r == s
    ensures s.initialized ==> r.sweep == Running(watch)
    ensures s.initialized && s.sweep == Running(CallerEvent) ==> r.strays == s.strays + 1
  {
    if !s.initialized then s
    else
      var t := StopSweepAsWritten(s);
      t.(sweep := Running(watch), strays := t.strays + if IsSweeping(t) then 1 else 0)
  }

  /**
    `sweep` with the corrected stop: on an initialized controller the
    previous sweep is cancelled and exactly one new worker runs.
   */
  function StartSweep(s: Servo, watch: StopSource): (r: Servo)
    ensures !s.initialized ==> r == s
    ensures s.initialized ==> r == s.(sweep := Running(watch))
    ensures Valid(s) ==> Valid(r)
  {
    if !s.initialized then s else StopSweep(s).(sweep := Running(watch))
  }

  /**
    The discrepancy in `stop_sweep`: once a sweep runs on a caller's event
    (as the CALIBRAR command starts it), stopping leaves it running, and the
    next sweep leaves the old worker running beside the new one.
   */
  lemma StopMissesCallerSweep(s: Servo)
    requires s.initialized
    ensures var c := StartSweepAsWritten(s, CallerEvent);
      && IsSweeping(StopSweepAsWritten(c))
      && StartSweepAsWritten(StopSweepAsWritten(c), InternalEvent).strays == c.strays + 1
  {
  }

  /**
    The corrected stop differs from the one as written only on a sweep that
    polls a caller's event; the HTTP server never starts one.
   */
  lemma StopAgreesWithoutCallerSweep(s: Servo)
    ensures StopSweepAsWritten(s) == StopSweep(s) <==> s.sweep != Running(CallerEvent)
  {
  }

  /** With the corrected stop, the same sequence stops the sweep and leaves no stray worker. */
  lemma StopCancelsCallerSweep(s: Servo)
    requires s.initialized
    ensures var c := StartSweep(s, CallerEvent);
      && !IsSweeping(StopSweep(c))
      && StartSweep(StopSweep(c), InternalEvent).strays == s.strays
  {
  }

  /**
    The effect of `set_angle` on each target in turn; write number `n + j`
    is the one for `targets[j]`.
   */
  function ApplyTargets(s: Servo, targets: seq<real>, writeOk: nat -> bool, n: nat): (r: Servo)
    ensures r.initialized == s.initialized && r.hasPwm == s.hasPwm
    ensures r.sweep == s.sweep && r.strays == s.strays
    ensures !(s.initialized && s.hasPwm) ==> r == s
    ensures Valid(s) ==> Valid(r)
    decreases |targets|
  {
    if targets == [] then s
    else ApplyTargets(SetAngle(s, targets[0], writeOk(n)).servo, targets[1..], writeOk, n + 1)
  }

  /** After the targets, the angle is that of the last target, when its write succeeded. */
  lemma {:induction false} ApplyTargetsEndsAtLast(s: Servo, targets: seq<real>, writeOk: nat -> bool, n: nat)
    requires s.initialized && s.hasPwm && targets != []
    requires writeOk(n + |targets| - 1)
    ensures ApplyTargets(s, targets, writeOk, n).currentAngle == Clamp(targets[|targets| - 1])
    decreases |targets|
  {
    if |targets| > 1 {
      ApplyTargetsEndsAtLast(SetAngle(s, targets[0], writeOk(n)).servo, targets[1..], writeOk, n + 1);
    }
  }

  /**
    The whole life of the worker `sweep_thread` refers to: it issues the
    targets of its sweep, cut short at check `cancel` if the stop event is
    seen, and then exits.
   */
  function RunWorker(s: Servo, from: real, to: real, step: real, cancel: Option<nat>, writeOk: nat -> bool): (r: Servo)
    requires step > 0.0
    ensures !IsSweeping(s) ==> r == s
    ensures !IsSweeping(r)
    ensures r.initialized == s.initialized
    ensures Valid(s) ==> Valid(r)
  {
    if !IsSweeping(s) then s
    else ApplyTargets(s, Sweep.Targets(from, to, step, cancel), writeOk, 0).(sweep := Idle)
  }

  /**
    A sweep that is neither cancelled nor hindered by a failed write leaves
    the controller at the (clamped) endpoint, whatever the step size.
   */
  lemma SweepEndsAtTarget(s: Servo, from: real, to: real, step: real, writeOk: nat -> bool)
    requires step > 0.0 && s.initialized && s.hasPwm && IsSweeping(s)
    requires forall i: nat :: writeOk(i)
    ensures RunWorker(s, from, to, step, None, writeOk).currentAngle == Clamp(to)
  {
    var ts := Sweep.Targets(from, to, step, None);
    Sweep.SweepReachesEndpoint(from, to, step);
    ApplyTargetsEndsAtLast(s, ts, writeOk, 0);
  }

  /**
    `cleanup` (lines 252-270): stop any sweep, release the PWM and mark the
    controller uninitialized. The PWM reference itself is kept.
   */
  function Cleanup(s: Servo): (r: Servo)
    ensures !r.initialized && !IsSweeping(r)
    ensures r.currentAngle == s.currentAngle && r.hasPwm == s.hasPwm
    ensures Valid(s) ==> Valid(r)
  {
    StopSweep(s).(initialized := false)
  }

  /** After `cleanup` every move is refused and no sweep can start. */
  lemma CleanupIsTerminal(s: Servo, angle: real, writeOk: bool, watch: StopSource)
    ensures var c := Cleanup(s);
      && !SetAngle(c, angle, writeOk).ok
      && SetAngle(c, angle, writeOk).servo == c
      && StartSweep(c, watch) == c
  {
  }

  /** How far the GPIO set-up in `__init__` gets (lines 51-74). */
  datatype Hardware =
    | NoGpio              // RPi.GPIO could not be imported
    | SetupFails          // GPIO.setup or the PWM constructor raised
    | StartFails          // the PWM object exists but `start(0)` raised
    | Started(moveOk: bool)  // the PWM runs; `moveOk` is the fate of the first duty write

  /** The controller before the GPIO set-up: angle 90, no PWM, not initialized. */
  function Unconfigured(minDuty: real, maxDuty: real): Servo {
    Servo(InitialAngle, false, false, 0.0, minDuty, maxDuty, Idle, 0)
  }

  /**
    `__init__` as written. The move to 90 degrees at line 65 runs before
    `is_initialized` is set at line 67, so `set_angle` refuses it and the
    PWM keeps the duty cycle 0 it was started with.
   */
  function NewServoAsWritten(minDuty: real, maxDuty: real, hw: Hardware): (s: Servo)
    ensures s.currentAngle == InitialAngle && !IsSweeping(s)
    ensures s.initialized <==> hw.Started?
  {
    var base := Unconfigured(minDuty, maxDuty);
    match hw
    case NoGpio => base
    case SetupFails => base
    case StartFails => base.(hasPwm := true)
    case Started(moveOk) =>
      var m := SetAngle(base.(hasPwm := true), InitialAngle, moveOk);
      m.servo.(initialized := true)
  }

  /** The as-written constructor reports 90 degrees while driving duty cycle 0. */
  lemma InitialMoveIsRefused(moveOk: bool)
    ensures var s := NewServoAsWritten(2.5, 12.5, Started(moveOk));
      s.initialized && s.currentAngle == 90.0 && s.duty == 0.0 && !Valid(s)
  {
    var s := NewServoAsWritten(2.5, 12.5, Started(moveOk));
    assert AngleToDuty(2.5, 12.5, 90.0) == 7.5;
  }

  /**
    `__init__` with the initial move applied: the controller counts as
    initialized only once the PWM is driving the duty cycle of 90 degrees.
    When that first write raises, the corrected constructor reports the
    controller uninitialized. That branch is a choice of the correction: in
    the source `set_angle` swallows the exception (lines 154-156), so no
    handler of `__init__` ever sees it.
   */
  function NewServo(minDuty: real, maxDuty: real, hw: Hardware): (s: Servo)
    ensures Valid(s)
    ensures s.currentAngle == InitialAngle && !IsSweeping(s)
    ensures s.initialized <==> hw == Started(true)
  {
    var base := Unconfigured(minDuty, maxDuty);
    match hw
    case NoGpio => base
    case SetupFails => base
    case StartFails => base.(hasPwm := true)
    case Started(moveOk) =>
      var m := SetAngle(base.(hasPwm := true, initialized := true), InitialAngle, moveOk);
      if m.ok then m.servo else base.(hasPwm := true)
  }
}
