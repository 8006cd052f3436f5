/**
  The sequence of `set_angle` targets the background sweep worker issues
  (servo_control.py, `sweep_worker`). Threads and sleeps are not modelled:
  the worker is the pure list of targets it passes to `set_angle`, in order.

  The stop event is checked before every stepped target and once more before
  the final endpoint. Checks are numbered from 0 in the order they happen, so
  check `i` guards target `i` and the endpoint check comes last. Cancellation
  is given as the index of the first check that finds the event set; the
  event stays set from then on. `None` means the worker never sees it.
 */
module Sweep {
  import opened Common

  lemma ZeroProduct(x: real, s: real)
    requires s > 0.0 && x * s == 0.0
    ensures x == 0.0
  {
  }

  /** Each step brings the remaining distance, measured in steps, down by one. */
  lemma QuotientDrop(gap: real, step: real)
    requires step > 0.0
    ensures (gap - step) / step == gap / step - 1.0
  {
    var q := gap / step;
    var p := (gap - step) / step;
    assert q * step == gap;
    assert p * step == gap - step;
    assert (p - (q - 1.0)) * step == p * step - q * step + step;
    ZeroProduct(p - (q - 1.0), step);
  }

  /** Has the worker seen the stop event by check number `check`? */
  predicate Stopped(cancel: Option<nat>, check: nat) {
    cancel.Some? && cancel.value <= check
  }

  /**
    The ascending branch (`from_angle < to_angle`): issue `cur` while
    `cur <= to` and the event is clear, stepping up by `step`; then issue
    `to` itself unless the event is set.
   */
  function Ascend(cur: real, to: real, step: real, check: nat, cancel: Option<nat>): seq<real>
    requires step > 0.0
    decreases (to - cur) / step
  {
    if cur <= to && !Stopped(cancel, check) then
      QuotientDrop(to - cur, step);
      [cur] + Ascend(cur + step, to, step, check + 1, cancel)
    else if Stopped(cancel, check) then []
    else [to]
  }

  /**
    The descending branch (`from_angle >= to_angle`): issue `cur` while
    `cur >= to` and the event is clear, stepping down by `step`; then issue
    `to` unless the event is set.
   */
  function Descend(cur: real, to: real, step: real, check: nat, cancel: Option<nat>): seq<real>
    requires step > 0.0
    decreases (cur - to) / step
  {
    if cur >= to && !Stopped(cancel, check) then
      QuotientDrop(cur - to, step);
      [cur] + Descend(cur - step, to, step, check + 1, cancel)
    else if Stopped(cancel, check) then []
    else [to]
  }

  /** Every target the worker issues, in order. */
  function Targets(from: real, to: real, step: real, cancel: Option<nat>): seq<real>
    requires step > 0.0
  {
    if from < to then Ascend(from, to, step, 0, cancel) else Descend(from, to, step, 0, cancel)
  }

  function Min(a: int, b: int): int {
    if a <= b then a else b
  }

  /**
    `r` is an uncancelled ascending sweep from `cur`: the points `cur + i * step`
    that do not pass `to`, then `to` itself, with the next step past it.
   */
  predicate UpShape(r: seq<real>, cur: real, to: real, step: real) {
    && |r| >= 1
    && r[|r| - 1] == to
    && (forall i :: 0 <= i < |r| - 1 ==> r[i] == cur + i as real * step && cur <= r[i] <= to)
    && cur + (|r| - 1) as real * step > to
  }

  /** The descending counterpart of `UpShape`. */
  predicate DownShape(r: seq<real>, cur: real, to: real, step: real) {
    && |r| >= 1
    && r[|r| - 1] == to
    && (forall i :: 0 <= i < |r| - 1 ==> r[i] == cur - i as real * step && to <= r[i] <= cur)
    && cur - (|r| - 1) as real * step < to
  }

  /** One step and then `i - 1` more is `i` steps. */
  lemma StepUp(cur: real, step: real, i: int)
    ensures (cur + step) + (i - 1) as real * step == cur + i as real * step
  {
  }

  /** The descending counterpart of `StepUp`. */
  lemma StepDown(cur: real, step: real, i: int)
    ensures (cur - step) - (i - 1) as real * step == cur - i as real * step
  {
  }

  /** Point `i` of `[cur] + t` is point `i - 1` of `t`, one step further from `cur`. */
  lemma ShiftUpAt(cur: real, to: real, step: real, t: seq<real>, i: int)
    requires step > 0.0 && 0 < i < |t|
    requires t[i - 1] == (cur + step) + (i - 1) as real * step && cur + step <= t[i - 1] <= to
    ensures ([cur] + t)[i] == cur + i as real * step && cur <= ([cur] + t)[i] <= to
  {
    StepUp(cur, step, i);
  }

  /** The descending counterpart of `ShiftUpAt`. */
  lemma ShiftDownAt(cur: real, to: real, step: real, t: seq<real>, i: int)
    requires step > 0.0 && 0 < i < |t|
    requires t[i - 1] == (cur - step) - (i - 1) as real * step && to <= t[i - 1] <= cur - step
    ensures ([cur] + t)[i] == cur - i as real * step && to <= ([cur] + t)[i] <= cur
  {
    StepDown(cur, step, i);
  }

  /** Putting `cur` in front of the sweep that starts one step up keeps the shape. */
  lemma ShiftUp(cur: real, to: real, step: real, t: seq<real>)
    requires step > 0.0 && cur <= to
    requires UpShape(t, cur + step, to, step)
    ensures UpShape([cur] + t, cur, to, step)
  {
    var r := [cur] + t;
    forall i | 0 <= i < |r| - 1
      ensures r[i] == cur + i as real * step && cur <= r[i] <= to
    {
      if i > 0 {
        ShiftUpAt(cur, to, step, t, i);
      }
    }
    StepUp(cur, step, |t|);
    assert r[|r| - 1] == t[|t| - 1];
  }

  /** The descending counterpart of `ShiftUp`. */
  lemma ShiftDown(cur: real, to: real, step: real, t: seq<real>)
    requires step > 0.0 && cur >= to
    requires DownShape(t, cur - step, to, step)
    ensures DownShape([cur] + t, cur, to, step)
  {
    var r := [cur] + t;
    forall i | 0 <= i < |r| - 1
      ensures r[i] == cur - i as real * step && to <= r[i] <= cur
    {
      if i > 0 {
        ShiftDownAt(cur, to, step, t, i);
      }
    }
    StepDown(cur, step, |t|);
    assert r[|r| - 1] == t[|t| - 1];
  }

  /** Without cancellation the ascending branch has the ascending shape. */
  lemma {:induction false} AscendShape(cur: real, to: real, step: real, check: nat)
    requires step > 0.0
    ensures UpShape(Ascend(cur, to, step, check, None), cur, to, step)
    decreases (to - cur) / step
  {
    var r := Ascend(cur, to, step, check, None);
    if cur <= to {
      QuotientDrop(to - cur, step);
      AscendShape(cur + step, to, step, check + 1);
      var t := Ascend(cur + step, to, step, check + 1, None);
      assert r == [cur] + t;
      ShiftUp(cur, to, step, t);
    } else {
      assert r == [to];
    }
  }

  /** The descending counterpart of `AscendShape`. */
  lemma {:induction false} DescendShape(cur: real, to: real, step: real, check: nat)
    requires step > 0.0
    ensures DownShape(Descend(cur, to, step, check, None), cur, to, step)
    decreases (cur - to) / step
  {
    var r := Descend(cur, to, step, check, None);
    if cur >= to {
      QuotientDrop(cur - to, step);
      DescendShape(cur - step, to, step, check + 1);
      var t := Descend(cur - step, to, step, check + 1, None);
      assert r == [cur] + t;
      ShiftDown(cur, to, step, t);
    } else {
      assert r == [to];
    }
  }

  /**
    An uncancelled sweep always ends exactly at `to`, and every earlier
    target is `from` moved by a whole number of steps toward `to` without
    passing it; the next step would have passed it.
   */
  lemma SweepReachesEndpoint(from: real, to: real, step: real)
    requires step > 0.0
    ensures var r := Targets(from, to, step, None);
      && |r| >= 1
      && r[|r| - 1] == to
      && (from < to ==>
            (forall i :: 0 <= i < |r| - 1 ==> r[i] == from + i as real * step && from <= r[i] <= to)
            && from + (|r| - 1) as real * step > to)
      && (from >= to ==>
            (forall i :: 0 <= i < |r| - 1 ==> r[i] == from - i as real * step && to <= r[i] <= from)
            && from - (|r| - 1) as real * step < to)
  {
    if from < to {
      SweepUp(from, to, step);
    } else {
      SweepDown(from, to, step);
    }
  }

  /** The ascending half of `SweepReachesEndpoint`. */
  lemma SweepUp(from: real, to: real, step: real)
    requires step > 0.0 && from < to
    ensures var r := Targets(from, to, step, None);
      && |r| >= 1
      && r[|r| - 1] == to
      && (forall i :: 0 <= i < |r| - 1 ==> r[i] == from + i as real * step && from <= r[i] <= to)
      && from + (|r| - 1) as real * step > to
  {
    assert Targets(from, to, step, None) == Ascend(from, to, step, 0, None);
    AscendShape(from, to, step, 0);
  }

  /** The descending half of `SweepReachesEndpoint`. */
  lemma SweepDown(from: real, to: real, step: real)
    requires step > 0.0 && from >= to
    ensures var r := Targets(from, to, step, None);
      && |r| >= 1
      && r[|r| - 1] == to
      && (forall i :: 0 <= i < |r| - 1 ==> r[i] == from - i as real * step && to <= r[i] <= from)
      && from - (|r| - 1) as real * step < to
  {
    assert Targets(from, to, step, None) == Descend(from, to, step, 0, None);
    DescendShape(from, to, step, 0);
  }

  /**
    Cancellation cuts the ascending list short: once the event is seen no
    further target is issued and the endpoint is not forced.
   */
  lemma {:induction false} AscendCancelled(cur: real, to: real, step: real, check: nat, k: nat)
    requires step > 0.0
    ensures var full := Ascend(cur, to, step, check, None);
      Ascend(cur, to, step, check, Some(k)) == full[..if k <= check then 0 else Min(k - check, |full|)]
    decreases (to - cur) / step
  {
    if cur <= to && k > check {
      QuotientDrop(to - cur, step);
      AscendCancelled(cur + step, to, step, check + 1, k);
    }
  }

  lemma {:induction false} DescendCancelled(cur: real, to: real, step: real, check: nat, k: nat)
    requires step > 0.0
    ensures var full := Descend(cur, to, step, check, None);
      Descend(cur, to, step, check, Some(k)) == full[..if k <= check then 0 else Min(k - check, |full|)]
    decreases (cur - to) / step
  {
    if cur >= to && k > check {
      QuotientDrop(cur - to, step);
      DescendCancelled(cur - step, to, step, check + 1, k);
    }
  }

  /**
    A sweep whose stop event is first seen at check `k` issues exactly the
    first `k` targets of the uncancelled sweep (all of them when `k` is past
    the endpoint check).
   */
  lemma SweepCancelIsPrefix(from: real, to: real, step: real, k: nat)
    requires step > 0.0
    ensures var full := Targets(from, to, step, None);
      Targets(from, to, step, Some(k)) == full[..Min(k, |full|)]
  {
    if from < to {
      AscendCancelled(from, to, step, 0, k);
    } else {
      DescendCancelled(from, to, step, 0, k);
    }
  }

  /** The worked example: 0 to 100 in steps of 30 visits 0, 30, 60, 90, then 100. */
  lemma SweepExampleForcesEndpoint()
    ensures Targets(0.0, 100.0, 30.0, None) == [0.0, 30.0, 60.0, 90.0, 100.0]
  {
    QuotientDrop(100.0, 30.0);
    QuotientDrop(70.0, 30.0);
    QuotientDrop(40.0, 30.0);
    QuotientDrop(10.0, 30.0);
    assert Ascend(120.0, 100.0, 30.0, 4, None) == [100.0];
    assert Ascend(90.0, 100.0, 30.0, 3, None) == [90.0, 100.0];
    assert Ascend(60.0, 100.0, 30.0, 2, None) == [60.0, 90.0, 100.0];
    assert Ascend(30.0, 100.0, 30.0, 1, None) == [30.0, 60.0, 90.0, 100.0];
  }

  /** A sweep to its own start issues the start and then the endpoint: two moves. */
  lemma SweepInPlace(a: real, step: real)
    requires step > 0.0
    ensures Targets(a, a, step, None) == [a, a]
  {
    QuotientDrop(0.0, step);
    assert Descend(a - step, a, step, 1, None) == [a];
  }
}
