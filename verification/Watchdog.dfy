/** The communication watchdog: touched by requests, checked by a time-anchored loop. */
module Watchdog {
  import opened Numeric
  import opened TimeAnchor

  datatype Config = Config(timeout: real, checkInterval: real) {
    ghost predicate Valid() {
      timeout > 0.0 && checkInterval > 0.0
    }
  }

  datatype State = State(lastComm: real, timedOut: bool)

  datatype Callback = OnTimeout | OnRecover

  datatype Event = Touch(at: real) | Check(at: real)

  /** What one check decides. */
  function Checked(cfg: Config, s: State, now: real): (State, Option<Callback>) {
    if now - s.lastComm > cfg.timeout && !s.timedOut then (s.(timedOut := true), Some(OnTimeout))
    else if now - s.lastComm <= cfg.timeout && s.timedOut then (s.(timedOut := false), Some(OnRecover))
    else (s, None)
  }

  datatype Trace = Trace(state: State, callbacks: seq<Callback>)

  function Happened(cfg: Config, t: Trace, e: Event): Trace {
    match e
    case Touch(at) => Trace(t.state.(lastComm := at), t.callbacks)
    case Check(at) =>
      var (s, cb) := Checked(cfg, t.state, at);
      Trace(s, t.callbacks + if cb.Some? then [cb.value] else [])
  }

  /** The state and the callbacks so far, after starting at a given time. */
  function After(cfg: Config, start: real, es: seq<Event>): Trace {
    if es == [] then Trace(State(start, false), [])
    else Happened(cfg, After(cfg, start, es[..|es| - 1]), es[|es| - 1])
  }

  class CommunicationWatchdog {
    const config: Config
    var lastComm: real
    var timedOut: bool

    function View(): State
      reads this
    {
      State(lastComm, timedOut)
    }

    constructor (config: Config, now: real)
      ensures this.config == config && View() == State(now, false)
    {
      this.config, lastComm, timedOut := config, now, false;
    }

    method Start(now: real)
      modifies this
      ensures View() == State(now, false)
    {
      lastComm, timedOut := now, false;
    }

    method Touch(now: real)
      modifies this
      ensures View() == old(View()).(lastComm := now)
    {
      lastComm := now;
    }

    /** The body of `_check_loop` up to its sleep. */
    method CheckNow(now: real) returns (callback: Option<Callback>)
      modifies this
      ensures (View(), callback) == Checked(config, old(View()), now)
      ensures timedOut <==> now - lastComm > config.timeout
      ensures callback.Some? <==> timedOut != old(timedOut)
      ensures lastComm == old(lastComm)
    {
      var elapsed := now - lastComm;
      callback := None;
      if elapsed > config.timeout && !timedOut {
        timedOut := true;
        callback := Some(OnTimeout);
      } else if elapsed <= config.timeout && timedOut {
        timedOut := false;
        callback := Some(OnRecover);
      }
    }

    /** Any interleaving of requests and checks. */
    method Live(start: real, es: seq<Event>) returns (callbacks: seq<Callback>)
      modifies this
      ensures Trace(View(), callbacks) == After(config, start, es)
    {
      Start(start);
      callbacks := [];
      var i := 0;
      while i < |es|
        invariant i <= |es| && Trace(View(), callbacks) == After(config, start, es[..i])
      {
        assert es[..i + 1][..i] == es[..i];
        match es[i] {
          case Touch(at) => Touch(at);
          case Check(at) =>
            var callback := CheckNow(at);
            callbacks := callbacks + if callback.Some? then [callback.value] else [];
        }
        i := i + 1;
      }
      assert es[..i] == es;
    }
  }

  // ---- Callbacks alternate ----

  /** Timeout first, then each callback undoes the one before; the flag tells which came last. */
  lemma {:induction false} CallbacksAlternate(cfg: Config, start: real, es: seq<Event>)
    ensures var t := After(cfg, start, es);
      && (forall i :: 0 <= i < |t.callbacks| ==> t.callbacks[i] == if i % 2 == 0 then OnTimeout else OnRecover)
      && (t.state.timedOut <==> |t.callbacks| % 2 == 1)
  {
    if es != [] {
      CallbacksAlternate(cfg, start, es[..|es| - 1]);
    }
  }

  // ---- Detection latency ----

  ghost predicate Silent(es: seq<Event>, from: nat) {
    forall i :: from <= i < |es| ==> es[i].Check?
  }

  ghost predicate InOrder(start: real, es: seq<Event>) {
    && (forall i :: 0 <= i < |es| ==> start <= es[i].at)
    && (forall i, j :: 0 <= i <= j < |es| ==> es[i].at <= es[j].at)
  }

  /** The time of the last request, or the start. */
  function LastTouch(start: real, es: seq<Event>): real {
    if es == [] then start
    else if es[|es| - 1].Touch? then es[|es| - 1].at
    else LastTouch(start, es[..|es| - 1])
  }

  lemma {:induction false} LastCommIsLastTouch(cfg: Config, start: real, es: seq<Event>)
    ensures After(cfg, start, es).state.lastComm == LastTouch(start, es)
  {
    if es != [] {
      LastCommIsLastTouch(cfg, start, es[..|es| - 1]);
    }
  }

  /** A check later than the timeout after the last request leaves the flag up, and later checks keep it up. */
  lemma {:induction false} LateCheckFlags(cfg: Config, start: real, es: seq<Event>, i: nat)
    requires InOrder(start, es) && i < |es| && es[i].Check? && Silent(es, i)
    requires es[i].at > LastTouch(start, es) + cfg.timeout
    ensures After(cfg, start, es).state.timedOut
    decreases |es|
  {
    var front := es[..|es| - 1];
    LastCommIsLastTouch(cfg, start, front);
    assert LastTouch(start, es) == LastTouch(start, front);
    if i < |es| - 1 {
      assert es[i].at <= es[|es| - 1].at;
      LateCheckFlags(cfg, start, front, i);
    }
  }

  /** The times at which the loop checks, and the touches, up to time `end`, merged into one timeline. */
  ghost predicate Timeline(run: seq<Pass>, end: real, es: seq<Event>) {
    && (forall e :: e in es && e.Check? ==> exists k :: 0 <= k < |run| && e.at == run[k].begin)
    && (forall k :: 0 <= k < |run| && run[k].begin <= end ==> Check(run[k].begin) in es)
  }

  lemma {:induction false} TouchesBefore(start: real, es: seq<Event>, i: nat)
    requires InOrder(start, es) && i < |es| && es[i].at > LastTouch(start, es)
    ensures Silent(es, i)
    decreases |es|
  {
    if |es| > 1 && es[|es| - 1].Check? && i < |es| - 1 {
      TouchesBefore(start, es[..|es| - 1], i);
      assert forall j :: i <= j < |es| - 1 ==> es[j] == es[..|es| - 1][j];
    }
  }

  lemma {:induction false} TouchedAfterStart(start: real, es: seq<Event>)
    requires InOrder(start, es)
    ensures LastTouch(start, es) >= start
  {
    if es != [] && es[|es| - 1].Check? {
      TouchedAfterStart(start, es[..|es| - 1]);
    }
  }

  /** Some check falls between the timeout and one check interval later. */
  lemma CheckInTime(cfg: Config, start: real, last: real, run: seq<Pass>) returns (k: nat)
    requires cfg.Valid() && Looping(cfg.checkInterval, run) && OnTime(cfg.checkInterval, run)
    requires run != [] && run[0].anchor == start <= last
    requires run[|run| - 1].begin > last + cfg.timeout
    ensures k < |run| && last + cfg.timeout < run[k].begin <= last + cfg.timeout + cfg.checkInterval
  {
    hide Looping, OnTime;
    k := 0;
    ExactTicks(cfg.checkInterval, run, 0);
    TimesNext(0, cfg.checkInterval);
    while run[k].begin <= last + cfg.timeout
      invariant k < |run| && (k > 0 ==> run[k - 1].begin <= last + cfg.timeout)
      invariant k == 0 ==> run[k].begin == start
      decreases |run| - k
    {
      k := k + 1;
    }
    ExactTicks(cfg.checkInterval, run, k);
    if k > 0 {
      ExactTicks(cfg.checkInterval, run, k - 1);
      TimesNext(k - 1, cfg.checkInterval);
    }
  }

  /** Silence is flagged at most one check interval after the timeout: if the last request was at time T and the
      loop has run until `end`, at or after T + timeout + check interval, the watchdog is timed out. */
  lemma SilenceFlagged(cfg: Config, start: real, run: seq<Pass>, es: seq<Event>, end: real)
    requires cfg.Valid() && Looping(cfg.checkInterval, run) && OnTime(cfg.checkInterval, run)
    requires run != [] && run[0].anchor == start
    requires run[|run| - 1].begin + cfg.checkInterval > end
    requires InOrder(start, es) && Timeline(run, end, es)
    requires end >= LastTouch(start, es) + cfg.timeout + cfg.checkInterval
    ensures After(cfg, start, es).state.timedOut
  {
    var last := LastTouch(start, es);
    TouchedAfterStart(start, es);
    var k := CheckInTime(cfg, start, last, run);
    hide Looping, OnTime, After, LastTouch;
    assert Check(run[k].begin) in es;
    var i :| 0 <= i < |es| && es[i] == Check(run[k].begin);
    TouchesBefore(start, es, i);
    LateCheckFlags(cfg, start, es, i);
  }

  /** Conversely, the flag is never up without such silence: at a check, a request within the timeout lowers it. */
  lemma FlagMeansSilence(cfg: Config, start: real, es: seq<Event>)
    requires es != [] && es[|es| - 1].Check?
    ensures After(cfg, start, es).state.timedOut <==> es[|es| - 1].at - LastTouch(start, es) > cfg.timeout
  {
    LastCommIsLastTouch(cfg, start, es[..|es| - 1]);
  }
}
