/** Absolute time anchoring of periodic loops: each pass works first, then sleeps until its next target. */
module TimeAnchor {
  import opened Numeric

  datatype Next = Next(delay: real, anchor: real, completed: nat)

  /** `anchor + completed * interval`, the time the pass was meant to begin. */
  function Target(anchor: real, completed: nat, interval: real): real {
    anchor + Times(completed, interval)
  }

  function NextTickDelay(anchor: real, completed: nat, interval: real, now: real): Next {
    var delay := Target(anchor, completed + 1, interval) - now;
    if delay > 0.0 then Next(delay, anchor, completed + 1)
    else if delay <= -interval then Next(0.0, now, 0)
    else Next(0.0, anchor, completed + 1)
  }

  /** One pass of a loop: when its work began, when the clock was read after it, and the state it read it with. */
  datatype Pass = Pass(begin: real, read: real, anchor: real, completed: nat) {
    function After(interval: real): Next {
      NextTickDelay(anchor, completed, interval, read)
    }

    function Aim(interval: real): real {
      Target(anchor, completed, interval)
    }
  }

  /** Work takes any time, the clock never runs back, and a sleep is at least as long as asked. */
  ghost predicate Looping(interval: real, run: seq<Pass>) {
    && interval > 0.0
    && (run != [] ==> run[0].completed == 0 && run[0].anchor <= run[0].begin)
    && (forall i :: 0 <= i < |run| ==> run[i].begin <= run[i].read)
    && (forall i :: 0 <= i < |run| - 1 ==> Follows(interval, run[i], run[i + 1]))
  }

  ghost predicate Follows(interval: real, p: Pass, q: Pass) {
    var next := p.After(interval);
    q.anchor == next.anchor && q.completed == next.completed && q.begin >= p.read + next.delay
  }

  /** No pass begins before its target. */
  lemma {:induction false} NeverEarly(interval: real, run: seq<Pass>, i: nat)
    requires Looping(interval, run) && i < |run|
    ensures run[i].Aim(interval) <= run[i].begin
  {
    hide Times;
    TimesNext(0, interval);
    if i > 0 {
      NeverEarly(interval, run, i - 1);
      assert Follows(interval, run[i - 1], run[i]);
    }
  }

  lemma DelayRange(interval: real, run: seq<Pass>, i: nat)
    requires Looping(interval, run) && i < |run|
    ensures 0.0 <= run[i].After(interval).delay <= interval
  {
    hide Times;
    NeverEarly(interval, run, i);
    TimesNext(run[i].completed, interval);
  }

  /** Targets move on by at least an interval a pass; by exactly one when the anchor is kept. */
  lemma AimStep(interval: real, run: seq<Pass>, i: nat)
    requires Looping(interval, run) && i + 1 < |run|
    ensures run[i + 1].Aim(interval) >= run[i].Aim(interval) + interval
    ensures run[i].Aim(interval) + interval > run[i].read - interval ==>
      run[i + 1].anchor == run[i].anchor && run[i + 1].completed == run[i].completed + 1
    ensures run[i + 1].Aim(interval) > run[i].begin - interval
  {
    hide Times;
    assert Follows(interval, run[i], run[i + 1]);
    TimesNext(run[i].completed, interval);
    TimesNext(0, interval);
  }

  lemma {:induction false} AimSteps(interval: real, run: seq<Pass>, i: nat, j: nat)
    requires Looping(interval, run) && i <= j < |run|
    ensures run[j].Aim(interval) >= run[i].Aim(interval) + Times(j - i, interval)
    decreases j
  {
    hide Times, Looping, Target;
    TimesNext(0, interval);
    if i < j {
      AimSteps(interval, run, i, j - 1);
      AimStep(interval, run, j - 1);
      TimesNext(j - 1 - i, interval);
    }
  }

  /** Without a reset the pass j - i later aims at exactly j - i intervals later. */
  lemma {:induction false} NoDrift(interval: real, run: seq<Pass>, i: nat, j: nat)
    requires Looping(interval, run) && i <= j < |run|
    requires forall k :: i <= k < j ==> run[k].Aim(interval) + interval > run[k].read - interval
    ensures run[j].anchor == run[i].anchor && run[j].completed == run[i].completed + (j - i)
    ensures run[j].Aim(interval) == run[i].Aim(interval) + Times(j - i, interval)
    decreases j
  {
    hide Times, Looping;
    TimesNext(0, interval);
    if i < j {
      NoDrift(interval, run, i, j - 1);
      AimStep(interval, run, j - 1);
      TimesNext(j - 1 - i, interval);
      TimesNext(run[j - 1].completed, interval);
    }
  }

  /** However long the work takes, passes i to j span more than j - i - 2 intervals: a run spanning time D has
      fewer than D / interval + 3 passes. */
  lemma RateBound(interval: real, run: seq<Pass>, i: nat, j: nat)
    requires Looping(interval, run) && i <= j < |run|
    ensures (j - i + 1) as real < (run[j].begin - run[i].begin) / interval + 3.0
  {
    hide Times;
    var span := run[j].begin - run[i].begin;
    NeverEarly(interval, run, j);
    if i < j {
      AimStep(interval, run, i);
      AimSteps(interval, run, i + 1, j);
      assert span > Times(j - i - 1, interval) - interval;
    } else {
      assert span == 0.0;
    }
    RateOf(j - i, interval, span);
  }

  lemma RateOf(k: nat, interval: real, span: real)
    requires interval > 0.0
    requires if k == 0 then span >= 0.0 else span > Times(k - 1, interval) - interval
    ensures (k + 1) as real < span / interval + 3.0
  {
    DivMono(0.0, span, interval);
    if k > 0 {
      var low := Times(k - 1, interval) - interval;
      assert low == ((k - 2) as real) * interval;
      DivOf(low, interval, (k - 2) as real);
      StrictDiv(low, span, interval);
    }
  }

  lemma StrictDiv(x: real, y: real, k: real)
    requires k > 0.0 && x < y
    ensures x / k < y / k
  {
    assert y / k - x / k == (y - x) / k;
  }

  /** Sleeps as long as asked and work that takes no time: pass i begins at exactly anchor + i intervals. */
  ghost predicate OnTime(interval: real, run: seq<Pass>) {
    && (run != [] ==> run[0].begin == run[0].anchor)
    && (forall i :: 0 <= i < |run| ==> run[i].read == run[i].begin)
    && (forall i :: 0 <= i < |run| - 1 ==> run[i + 1].begin == run[i].read + run[i].After(interval).delay)
  }

  lemma {:induction false} ExactTicks(interval: real, run: seq<Pass>, i: nat)
    requires Looping(interval, run) && OnTime(interval, run) && i < |run|
    ensures run[i].completed == i && run[i].anchor == run[0].anchor
    ensures run[i].begin == Target(run[0].anchor, i, interval)
  {
    hide Times;
    TimesNext(0, interval);
    if i > 0 {
      ExactTicks(interval, run, i - 1);
      assert Follows(interval, run[i - 1], run[i]);
      TimesNext(i - 1, interval);
    }
  }
}
