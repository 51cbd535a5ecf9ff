/** The circuit breaker of a provider: what its lazily reset state says about the history of
    failures, successes and availability checks. */
module Breaker {
  import opened Domain

  datatype Config = Config(threshold: int, cooldown: int)

  datatype State = State(failures: int, lastFailure: int, open: bool, cooldown: int)

  const DEFAULT := Config(5, 60_000_000_000)

  /** What happened to one provider; a failure is recorded under the configuration of its time. */
  datatype Event = Fail(at: int, cfg: Config) | Success | Check(at: int)

  // ---- The state machine of one provider ----

  function OnFailure(st: Option<State>, now: int, cfg: Config): State {
    match st
    // The first failure does not record its time and never opens.
    case None => State(1, 0, false, cfg.cooldown)
    case Some(b) =>
      b.(failures := b.failures + 1, lastFailure := now, open := b.open || b.failures + 1 >= cfg.threshold)
  }

  predicate Admits(st: Option<State>, now: int) {
    st.None? || !st.value.open || now - st.value.lastFailure > st.value.cooldown
  }

  function OnSuccess(st: Option<State>): Option<State> {
    match st
    case None => None
    case Some(b) => Some(b.(failures := 0, open := false))
  }

  function OnCheck(st: Option<State>, now: int): Option<State> {
    match st
    case None => None
    case Some(b) => if b.open && now - b.lastFailure > b.cooldown then Some(b.(open := false, failures := 0)) else st
  }

  /** The state after a history. */
  function Replay(h: seq<Event>): Option<State> {
    if |h| == 0 then None else
    match h[|h| - 1]
    case Fail(at, cfg) => Some(OnFailure(Replay(h[..|h| - 1]), at, cfg))
    case Success => OnSuccess(Replay(h[..|h| - 1]))
    case Check(at) => OnCheck(Replay(h[..|h| - 1]), at)
  }

  // ---- The history specification ----

  /** Failures from position r of the history on. */
  function FailsFrom(h: seq<Event>, r: nat): nat {
    if |h| <= r then 0 else FailsFrom(h[..|h| - 1], r) + if h[|h| - 1].Fail? then 1 else 0
  }

  /** The time of the latest failure. */
  function LastFail(h: seq<Event>): int {
    if |h| == 0 then 0 else if h[|h| - 1].Fail? then h[|h| - 1].at else LastFail(h[..|h| - 1])
  }

  /** The position after the latest reset: a success, or a check that found the cooldown over. */
  function ResetPoint(h: seq<Event>, cfg: Config): nat
    decreases |h|, 0
  {
    if |h| == 0 then 0
    else if h[|h| - 1].Success? ||
            (h[|h| - 1].Check? && Tripped(h[..|h| - 1], cfg) && h[|h| - 1].at - LastFail(h[..|h| - 1]) > cfg.cooldown)
    then |h|
    else ResetPoint(h[..|h| - 1], cfg)
  }

  /** At least threshold failures followed the latest reset. */
  predicate Tripped(h: seq<Event>, cfg: Config)
    decreases |h|, 1
  {
    FailsFrom(h, ResetPoint(h, cfg)) >= cfg.threshold
  }

  /** The specification: tripped, and the latest failure lies within the cooldown. */
  predicate Refuses(h: seq<Event>, cfg: Config, now: int) {
    Tripped(h, cfg) && now - LastFail(h) <= cfg.cooldown
  }

  predicate Fixed(h: seq<Event>, cfg: Config) {
    forall i :: 0 <= i < |h| && h[i].Fail? ==> h[i].cfg == cfg
  }

  // ---- Refinement ----

  lemma {:induction false} FewerFails(h: seq<Event>, r: nat)
    ensures FailsFrom(h, r) <= FailsFrom(h, 0)
  {
    if |h| == 0 {
    } else {
      FewerFails(h[..|h| - 1], r);
    }
  }

  lemma {:induction false} ResetInRange(h: seq<Event>, cfg: Config)
    ensures ResetPoint(h, cfg) <= |h|
  {
    if |h| == 0 {
    } else {
      ResetInRange(h[..|h| - 1], cfg);
    }
  }

  lemma FixedPrefix(h: seq<Event>, cfg: Config)
    requires Fixed(h, cfg) && |h| > 0
    ensures Fixed(h[..|h| - 1], cfg)
  {
    var p := h[..|h| - 1];
    forall i | 0 <= i < |p| && p[i].Fail? ensures p[i].cfg == cfg {
      assert h[i] == p[i];
    }
  }

  /** For any configuration: a provider has a state once it has failed, and the state remembers the
      latest failure from the second one on. */
  lemma {:induction false} StateRemembers(h: seq<Event>, cfg: Config)
    requires Fixed(h, cfg)
    ensures Replay(h).None? <==> FailsFrom(h, 0) == 0
    ensures Replay(h).Some? ==> Replay(h).value.cooldown == cfg.cooldown
    ensures FailsFrom(h, 0) >= 2 ==> Replay(h).Some? && Replay(h).value.lastFailure == LastFail(h)
    ensures Replay(h).Some? && Replay(h).value.open ==> FailsFrom(h, 0) >= 2
  {
    if |h| == 0 {
    } else {
      FixedPrefix(h, cfg);
      StateRemembers(h[..|h| - 1], cfg);
    }
  }

  /** With a threshold of at least two the counter and the flag are the history's. */
  lemma {:induction false} StateCounts(h: seq<Event>, cfg: Config)
    requires Fixed(h, cfg) && cfg.threshold >= 2
    ensures Replay(h).None? ==> FailsFrom(h, ResetPoint(h, cfg)) == 0
    ensures Replay(h).Some? ==> Replay(h).value.failures == FailsFrom(h, ResetPoint(h, cfg))
    ensures Replay(h).Some? ==> (Replay(h).value.open <==> Tripped(h, cfg))
  {
    if |h| == 0 {
    } else {
      var p := h[..|h| - 1];
      FixedPrefix(h, cfg);
      StateCounts(p, cfg);
      StateRemembers(p, cfg);
      ResetInRange(p, cfg);
      FewerFails(p, ResetPoint(p, cfg));
    }
  }

  /** With a threshold of at least two the breaker refuses exactly as the history says. */
  lemma RefinesHistory(h: seq<Event>, cfg: Config, now: int)
    requires Fixed(h, cfg) && cfg.threshold >= 2
    ensures Admits(Replay(h), now) <==> !Refuses(h, cfg, now)
  {
    StateCounts(h, cfg);
    StateRemembers(h, cfg);
    FewerFails(h, ResetPoint(h, cfg));
  }

  /** A threshold of at least two is exactly what the refinement needs: below it the very first
      failure should already be refused, and is not. */
  lemma RefinesHistoryIff(cfg: Config)
    ensures (forall h, now :: Fixed(h, cfg) ==> (Admits(Replay(h), now) <==> !Refuses(h, cfg, now))) <==>
            cfg.threshold >= 2
  {
    if cfg.threshold >= 2 {
      forall h, now | Fixed(h, cfg) ensures Admits(Replay(h), now) <==> !Refuses(h, cfg, now) {
        RefinesHistory(h, cfg, now);
      }
    } else {
      var h := [Fail(0, cfg)];
      assert h[..|h| - 1] == [];
      assert LastFail(h) == 0 && ResetPoint(h, cfg) == 0 && FailsFrom(h, 0) == 1;
      assert Fixed(h, cfg) && Admits(Replay(h), cfg.cooldown) && Refuses(h, cfg, cfg.cooldown);
    }
  }

  /** Whatever the threshold, once the cooldown has passed since the latest failure the provider is
      admitted. */
  lemma CooldownAlwaysReadmits(h: seq<Event>, cfg: Config, now: int)
    requires Fixed(h, cfg) && now - LastFail(h) > cfg.cooldown
    ensures Admits(Replay(h), now)
  {
    StateRemembers(h, cfg);
  }

  /** Whatever came before, threshold failures in a row trip the breaker. */
  lemma {:induction false} StreakTrips(h: seq<Event>, streak: seq<Event>, cfg: Config)
    requires forall i :: 0 <= i < |streak| ==> streak[i].Fail?
    ensures FailsFrom(h + streak, ResetPoint(h + streak, cfg)) >= |streak|
    ensures |streak| >= cfg.threshold ==> Tripped(h + streak, cfg)
  {
    if |streak| == 0 {
    } else {
      var n := |streak| - 1;
      StreakTrips(h, streak[..n], cfg);
      ResetInRange(h + streak[..n], cfg);
      assert (h + streak)[..|h + streak| - 1] == h + streak[..n];
      assert (h + streak)[|h + streak| - 1] == streak[n];
    }
  }

  /** The first failure of a history. */
  function FirstFail(h: seq<Event>): Option<Event> {
    if |h| == 0 then None
    else if FirstFail(h[..|h| - 1]).Some? then FirstFail(h[..|h| - 1])
    else if h[|h| - 1].Fail? then Some(h[|h| - 1])
    else None
  }

  /** Whatever is configured later, a provider keeps the cooldown that was configured when it first
      failed; only the threshold follows the configuration. */
  lemma {:induction false} CooldownIsFrozen(h: seq<Event>)
    ensures Replay(h).Some? <==> FirstFail(h).Some?
    ensures FirstFail(h).Some? ==>
              FirstFail(h).value.Fail? && Replay(h).value.cooldown == FirstFail(h).value.cfg.cooldown
  {
    if |h| == 0 {
    } else {
      CooldownIsFrozen(h[..|h| - 1]);
    }
  }

  // ---- The breaker object ----

  function At(states: map<string, State>, psp: string): Option<State> {
    if psp in states then Some(states[psp]) else None
  }

  function ConfigOf(thresholds: map<string, Config>, psp: string): Config {
    if psp in thresholds then thresholds[psp] else DEFAULT
  }

  function Past(history: map<string, seq<Event>>, psp: string): seq<Event> {
    if psp in history then history[psp] else []
  }

  function Logged(history: map<string, seq<Event>>, psp: string, e: Event): map<string, seq<Event>> {
    history[psp := Past(history, psp) + [e]]
  }

  ghost predicate Agrees(states: map<string, State>, history: map<string, seq<Event>>) {
    forall psp :: At(states, psp) == Replay(Past(history, psp))
  }

  function Next(st: Option<State>, e: Event): Option<State> {
    match e
    case Fail(at, cfg) => Some(OnFailure(st, at, cfg))
    case Success => OnSuccess(st)
    case Check(at) => OnCheck(st, at)
  }

  lemma AgreesNext(
    states: map<string, State>,
    states': map<string, State>,
    history: map<string, seq<Event>>,
    psp: string,
    e: Event)
    requires Agrees(states, history)
    requires At(states', psp) == Next(At(states, psp), e)
    requires forall p :: p != psp ==> At(states', p) == At(states, p)
    ensures Agrees(states', Logged(history, psp, e))
  {
    var h := Past(history, psp);
    assert (h + [e])[..|h + [e]| - 1] == h;
    forall p ensures At(states', p) == Replay(Past(Logged(history, psp, e), p)) {
      assert At(states, p) == Replay(Past(history, p));
    }
  }

  class CircuitBreaker {
    var states: map<string, State>
    var thresholds: map<string, Config>
    ghost var history: map<string, seq<Event>>

    ghost predicate Valid()
      reads this
    {
      Agrees(states, history)
    }

    constructor ()
      ensures Valid() && states == map[] && thresholds == map[] && history == map[]
    {
      states, thresholds, history := map[], map[], map[];
    }

    method SetConfig(psp: string, threshold: int, cooldown: int)
      requires Valid()
      modifies this`thresholds
      ensures Valid() && thresholds == old(thresholds)[psp := Config(threshold, cooldown)]
      ensures forall p, now :: Admits(At(states, p), now) <==> Admits(old(At(states, p)), now)
    {
      thresholds := thresholds[psp := Config(threshold, cooldown)];
    }

    method RecordFailure(psp: string, now: int)
      requires Valid()
      modifies this`states, this`history
      ensures Valid() && history == Logged(old(history), psp, Fail(now, ConfigOf(thresholds, psp)))
      ensures psp in history && history[psp] == old(Past(history, psp)) +
                [Fail(now, if psp in thresholds then thresholds[psp] else Config(5, 60_000_000_000))]
    {
      var cfg := ConfigOf(thresholds, psp);
      ghost var before := states;
      if psp !in states {
        states := states[psp := State(1, 0, false, cfg.cooldown)];
      } else {
        var state := states[psp];
        state := state.(failures := state.failures + 1, lastFailure := now);
        if state.failures >= cfg.threshold && !state.open {
          state := state.(open := true);
        }
        states := states[psp := state];
      }
      AgreesNext(before, states, history, psp, Fail(now, cfg));
      history := Logged(history, psp, Fail(now, cfg));
    }

    method RecordSuccess(psp: string)
      requires Valid()
      modifies this`states, this`history
      ensures Valid() && history == Logged(old(history), psp, Success)
    {
      ghost var before := states;
      if psp in states {
        states := states[psp := states[psp].(failures := 0, open := false)];
      }
      AgreesNext(before, states, history, psp, Success);
      history := Logged(history, psp, Success);
    }

    /** Answers as the history says, resets lazily, and answers the same again at the same time. */
    method IsAvailable(psp: string, now: int) returns (ok: bool)
      requires Valid()
      modifies this`states, this`history
      ensures Valid() && history == Logged(old(history), psp, Check(now))
      ensures ok <==> Admits(old(At(states, psp)), now)
      ensures var h, cfg := old(Past(history, psp)), ConfigOf(thresholds, psp);
              Fixed(h, cfg) && cfg.threshold >= 2 ==> (ok <==> !Refuses(h, cfg, now))
      ensures forall p :: Admits(At(states, p), now) <==> Admits(old(At(states, p)), now)
    {
      ghost var before, h, cfg := states, Past(history, psp), ConfigOf(thresholds, psp);
      if Fixed(h, cfg) && cfg.threshold >= 2 {
        RefinesHistory(h, cfg, now);
      }
      assert At(states, psp) == Replay(h);
      if psp !in states || !states[psp].open {
        ok := true;
      } else if now - states[psp].lastFailure > states[psp].cooldown {
        states := states[psp := states[psp].(open := false, failures := 0)];
        ok := true;
      } else {
        ok := false;
      }
      AgreesNext(before, states, history, psp, Check(now));
      history := Logged(history, psp, Check(now));
    }
  }
}
