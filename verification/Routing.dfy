/** Rule-based routing on top of the circuit breaker, and the choice of a registered connector. */
module Routing {
  import opened Domain
  import opened Breaker

  datatype Condition = Condition(currency: string, method_: string, country: string, merchant: string)

  datatype Rule = Rule(conditions: Condition, primary: string, fallbacks: seq<string>, enabled: bool)

  datatype RouteRequest = RouteRequest(merchant: string, currency: string, country: string, method_: string)

  datatype RouteResult = Routed(primary: string, fallbacks: seq<string>) | NoConnector | NoRule

  predicate MatchCondition(c: Condition, req: RouteRequest) {
    (c.currency != "" ==> c.currency == req.currency) &&
    (c.method_ != "" ==> c.method_ == req.method_) &&
    (c.country != "" ==> c.country == req.country) &&
    (c.merchant != "" ==> c.merchant == req.merchant)
  }

  predicate Applies(r: Rule, req: RouteRequest, excluded: set<string>) {
    r.enabled && MatchCondition(r.conditions, req) && r.primary !in excluded
  }

  /** The rule that answers: the first enabled matching one whose primary is not excluded. */
  predicate Answers(rules: seq<Rule>, i: nat, req: RouteRequest, excluded: set<string>) {
    i < |rules| && Applies(rules[i], req, excluded) && forall j :: 0 <= j < i ==> !Applies(rules[j], req, excluded)
  }

  predicate Usable(psp: string, excluded: set<string>, states: map<string, State>, now: int) {
    psp !in excluded && Admits(At(states, psp), now)
  }

  /** The usable fallbacks, in rule order. */
  function Keep(fbs: seq<string>, excluded: set<string>, states: map<string, State>, now: int): seq<string> {
    if |fbs| == 0 then []
    else Keep(fbs[..|fbs| - 1], excluded, states, now) +
         if Usable(fbs[|fbs| - 1], excluded, states, now) then [fbs[|fbs| - 1]] else []
  }

  /** Exactly the usable ones are kept. */
  lemma {:induction false} KeepExactly(
    fbs: seq<string>,
    excluded: set<string>,
    states: map<string, State>,
    now: int,
    psp: string)
    ensures psp in Keep(fbs, excluded, states, now) <==> psp in fbs && Usable(psp, excluded, states, now)
  {
    if |fbs| == 0 {
    } else {
      KeepExactly(fbs[..|fbs| - 1], excluded, states, now, psp);
      assert psp in fbs <==> psp in fbs[..|fbs| - 1] || psp == fbs[|fbs| - 1];
    }
  }

  /** What a rule answers under a breaker state. */
  predicate AnswerOf(r: Rule, excluded: set<string>, states: map<string, State>, now: int, result: RouteResult) {
    var fbs := Keep(r.fallbacks, excluded, states, now);
    if Usable(r.primary, excluded, states, now) then result == Routed(r.primary, fbs)
    else if |fbs| > 0 then result == Routed(fbs[0], [])
    else result == NoConnector
  }

  /** The decision for a request under a breaker state names this provider. */
  ghost predicate Offers(
    rules: seq<Rule>,
    req: RouteRequest,
    excluded: set<string>,
    states: map<string, State>,
    now: int,
    psp: string)
  {
    exists i: nat, p, fbs :: Answers(rules, i, req, excluded) &&
      AnswerOf(rules[i], excluded, states, now, Routed(p, fbs)) && (psp == p || psp in fbs)
  }

  lemma FirstIsUnique(rules: seq<Rule>, i: nat, k: nat, req: RouteRequest, excluded: set<string>)
    requires Answers(rules, i, req, excluded) && Answers(rules, k, req, excluded)
    ensures i == k
  {
  }

  /** One decision at most: the named providers are exactly those of the result. */
  lemma OffersIff(
    rules: seq<Rule>,
    req: RouteRequest,
    excluded: set<string>,
    states: map<string, State>,
    now: int,
    result: RouteResult,
    psp: string)
    requires result.NoRule? ==> forall j :: 0 <= j < |rules| ==> !Applies(rules[j], req, excluded)
    requires !result.NoRule? ==>
               exists i: nat :: Answers(rules, i, req, excluded) && AnswerOf(rules[i], excluded, states, now, result)
    ensures Offers(rules, req, excluded, states, now, psp) <==>
            result.Routed? && (psp == result.primary || psp in result.fallbacks)
  {
    if !result.NoRule? {
      var i: nat :| Answers(rules, i, req, excluded) && AnswerOf(rules[i], excluded, states, now, result);
      forall k: nat | Answers(rules, k, req, excluded) ensures k == i {
        FirstIsUnique(rules, i, k, req, excluded);
      }
    }
  }

  lemma {:induction false} KeepPrefix(
    fbs: seq<string>,
    k: nat,
    excluded: set<string>,
    states: map<string, State>,
    now: int)
    requires k <= |fbs|
    ensures Keep(fbs[..k], excluded, states, now) <= Keep(fbs, excluded, states, now)
  {
    if k < |fbs| {
      KeepPrefix(fbs[..|fbs| - 1], k, excluded, states, now);
      assert fbs[..|fbs| - 1][..k] == fbs[..k];
    } else {
      assert fbs[..k] == fbs;
    }
  }

  /** One sequence is the other with elements left out. */
  predicate IsSubsequence(xs: seq<string>, ys: seq<string>) {
    |xs| == 0 ||
    (|ys| > 0 &&
     ((xs[|xs| - 1] == ys[|ys| - 1] && IsSubsequence(xs[..|xs| - 1], ys[..|ys| - 1])) ||
      IsSubsequence(xs, ys[..|ys| - 1])))
  }

  /** The fallbacks kept are those of the rule in its order, each as often as the rule names it if it is
      not excluded and the breaker admits it, and never otherwise. */
  ghost predicate Filters(
    kept: seq<string>,
    fbs: seq<string>,
    excluded: set<string>,
    states: map<string, State>,
    now: int)
  {
    IsSubsequence(kept, fbs) &&
    forall p :: multiset(kept)[p] == if p !in excluded && Admits(At(states, p), now) then multiset(fbs)[p] else 0
  }

  lemma {:induction false} KeepInOrder(fbs: seq<string>, excluded: set<string>, states: map<string, State>, now: int)
    ensures IsSubsequence(Keep(fbs, excluded, states, now), fbs)
  {
    if |fbs| == 0 {
    } else {
      var init, last := fbs[..|fbs| - 1], fbs[|fbs| - 1];
      var kept := Keep(init, excluded, states, now);
      KeepInOrder(init, excluded, states, now);
      assert (kept + [last])[..|kept|] == kept && kept + [] == kept;
    }
  }

  lemma {:induction false} KeepCounts(
    fbs: seq<string>,
    excluded: set<string>,
    states: map<string, State>,
    now: int,
    p: string)
    ensures multiset(Keep(fbs, excluded, states, now))[p] ==
            if p !in excluded && Admits(At(states, p), now) then multiset(fbs)[p] else 0
  {
    if |fbs| == 0 {
    } else {
      var init := fbs[..|fbs| - 1];
      KeepCounts(init, excluded, states, now, p);
      assert fbs == init + [fbs[|fbs| - 1]];
    }
  }

  lemma KeepFilters(fbs: seq<string>, excluded: set<string>, states: map<string, State>, now: int)
    ensures Filters(Keep(fbs, excluded, states, now), fbs, excluded, states, now)
  {
    KeepInOrder(fbs, excluded, states, now);
    forall p
      ensures multiset(Keep(fbs, excluded, states, now))[p] ==
              if p !in excluded && Admits(At(states, p), now) then multiset(fbs)[p] else 0
    {
      KeepCounts(fbs, excluded, states, now, p);
    }
  }

  /** The first fallback that is not excluded and that the breaker admits. */
  predicate FirstUsable(fbs: seq<string>, k: nat, excluded: set<string>, states: map<string, State>, now: int) {
    k < |fbs| && fbs[k] !in excluded && Admits(At(states, fbs[k]), now) &&
    forall j :: 0 <= j < k ==> fbs[j] in excluded || !Admits(At(states, fbs[j]), now)
  }

  lemma {:induction false} KeepFirst(fbs: seq<string>, excluded: set<string>, states: map<string, State>, now: int)
    ensures var kept := Keep(fbs, excluded, states, now);
            if |kept| == 0 then forall fb :: fb in fbs ==> fb in excluded || !Admits(At(states, fb), now)
            else exists k: nat :: FirstUsable(fbs, k, excluded, states, now) && fbs[k] == kept[0]
  {
    if |fbs| == 0 {
    } else {
      var init := fbs[..|fbs| - 1];
      KeepFirst(init, excluded, states, now);
      if |Keep(init, excluded, states, now)| == 0 {
        assert forall j :: 0 <= j < |init| ==> fbs[j] in init;
        if Usable(fbs[|init|], excluded, states, now) {
          assert FirstUsable(fbs, |init|, excluded, states, now);
        }
      } else {
        var k: nat :| FirstUsable(init, k, excluded, states, now) && init[k] == Keep(init, excluded, states, now)[0];
        assert FirstUsable(fbs, k, excluded, states, now);
      }
    }
  }

  /** What a rule is written for: each of its four fields is empty or the request's, and it is on. */
  ghost predicate Fits(r: Rule, req: RouteRequest) {
    var c := r.conditions;
    r.enabled &&
    (c.currency == "" || c.currency == req.currency) && (c.method_ == "" || c.method_ == req.method_) &&
    (c.country == "" || c.country == req.country) && (c.merchant == "" || c.merchant == req.merchant)
  }

  lemma AppliesIffFits(r: Rule, req: RouteRequest, excluded: set<string>)
    ensures Applies(r, req, excluded) <==> Fits(r, req) && r.primary !in excluded
  {
  }

  /** What a rule decides: its primary with the fallbacks that can be used, if the breaker admits the
      primary; else the first fallback that can be used, alone; else no connector. */
  ghost predicate Decides(r: Rule, excluded: set<string>, states: map<string, State>, now: int, result: RouteResult) {
    if r.primary !in excluded && Admits(At(states, r.primary), now) then
      result.Routed? && result.primary == r.primary && Filters(result.fallbacks, r.fallbacks, excluded, states, now)
    else if exists fb :: fb in r.fallbacks && fb !in excluded && Admits(At(states, fb), now) then
      result.Routed? && result.fallbacks == [] &&
      exists k: nat :: FirstUsable(r.fallbacks, k, excluded, states, now) && r.fallbacks[k] == result.primary
    else result == NoConnector
  }

  lemma AnswerDecides(r: Rule, excluded: set<string>, states: map<string, State>, now: int, result: RouteResult)
    requires AnswerOf(r, excluded, states, now, result)
    ensures Decides(r, excluded, states, now, result)
  {
    KeepFilters(r.fallbacks, excluded, states, now);
    KeepFirst(r.fallbacks, excluded, states, now);
  }

  function DefaultRules(): seq<Rule> {
    [Rule(Condition("KES", "mpesa_stk", "", ""), "mpesa", [], true),
     Rule(Condition("", "card", "", ""), "paystack", [], true)]
  }

  /** Under the default rules M-Pesa is offered exactly for its push payments in shillings and Paystack
      exactly for cards, while the breaker admits them, and nothing else ever. */
  lemma DefaultRouting(req: RouteRequest, states: map<string, State>, now: int, psp: string)
    ensures Offers(DefaultRules(), req, {}, states, now, psp) <==>
            Admits(At(states, psp), now) &&
            ((psp == "mpesa" && req.currency == "KES" && req.method_ == "mpesa_stk") ||
             (psp == "paystack" && req.method_ == "card"))
  {
    var rules := DefaultRules();
    if req.currency == "KES" && req.method_ == "mpesa_stk" {
      assert Answers(rules, 0, req, {});
      DefaultAnswer(rules, 0, req, states, now, psp);
    } else if req.method_ == "card" {
      assert Answers(rules, 1, req, {});
      DefaultAnswer(rules, 1, req, states, now, psp);
    } else {
      assert !Applies(rules[0], req, {}) && !Applies(rules[1], req, {});
    }
  }

  lemma DefaultAnswer(rules: seq<Rule>, i: nat, req: RouteRequest, states: map<string, State>, now: int, psp: string)
    requires Answers(rules, i, req, {}) && rules[i].fallbacks == []
    ensures Offers(rules, req, {}, states, now, psp) <==> psp == rules[i].primary && Admits(At(states, psp), now)
  {
    var r := rules[i];
    var result := if Usable(r.primary, {}, states, now) then Routed(r.primary, []) else NoConnector;
    assert AnswerOf(r, {}, states, now, result);
    OffersIff(rules, req, {}, states, now, result, psp);
  }

  class Engine {
    const cb: CircuitBreaker
    const rules: seq<Rule>
    const excluded: set<string>

    /** The default rules. */
    constructor (cb: CircuitBreaker)
      ensures this.cb == cb && excluded == {}
      ensures rules == DefaultRules()
    {
      this.cb := cb;
      rules := DefaultRules();
      excluded := {};
    }

    /** Sound and complete: the answer is that of the first applicable rule under the breaker as it
        stood at the call, and there is none exactly when no rule applies. */
    method Route(req: RouteRequest, now: int) returns (result: RouteResult)
      requires cb.Valid()
      modifies cb`states, cb`history
      ensures cb.Valid()
      ensures result.NoRule? <==>
                forall j :: 0 <= j < |rules| && Fits(rules[j], req) ==> rules[j].primary in excluded
      ensures !result.NoRule? ==>
                exists i :: 0 <= i < |rules| && Fits(rules[i], req) && rules[i].primary !in excluded &&
                  (forall j :: 0 <= j < i && Fits(rules[j], req) ==> rules[j].primary in excluded) &&
                  Decides(rules[i], excluded, old(cb.states), now, result)
      ensures result.NoRule? <==> forall j :: 0 <= j < |rules| ==> !Applies(rules[j], req, excluded)
      ensures !result.NoRule? ==>
                exists i: nat :: Answers(rules, i, req, excluded) &&
                  AnswerOf(rules[i], excluded, old(cb.states), now, result)
      ensures result.Routed? ==> Usable(result.primary, excluded, old(cb.states), now)
      ensures result.Routed? ==> forall fb :: fb in result.fallbacks ==> Usable(fb, excluded, old(cb.states), now)
    {
      ghost var states := cb.states;
      for i := 0 to |rules|
        invariant cb.Valid() && cb.states == states
        invariant forall j :: 0 <= j < i ==> !Applies(rules[j], req, excluded)
        invariant forall j :: 0 <= j < i && Fits(rules[j], req) ==> rules[j].primary in excluded
      {
        var rule := rules[i];
        AppliesIffFits(rule, req, excluded);
        if !rule.enabled || !MatchCondition(rule.conditions, req) || rule.primary in excluded {
          continue;
        }
        assert Answers(rules, i, req, excluded);
        var up := cb.IsAvailable(rule.primary, now);
        if !up {
          result := FirstFallback(rule.fallbacks, now, states);
          if result.Routed? {
            KeepExactly(rule.fallbacks, excluded, states, now, result.primary);
          }
          AnswerDecides(rule, excluded, states, now, result);
          return;
        }
        var available := Fallbacks(rule.fallbacks, now, states);
        forall fb ensures fb in available ==> Usable(fb, excluded, states, now) {
          KeepExactly(rule.fallbacks, excluded, states, now, fb);
        }
        result := Routed(rule.primary, available);
        AnswerDecides(rule, excluded, states, now, result);
        return;
      }
      return NoRule;
    }

    method FirstFallback(fbs: seq<string>, now: int, ghost states: map<string, State>) returns (result: RouteResult)
      requires cb.Valid() && forall p :: Admits(At(cb.states, p), now) <==> Admits(At(states, p), now)
      modifies cb`states, cb`history
      ensures cb.Valid()
      ensures var kept := Keep(fbs, excluded, states, now);
              result == if |kept| > 0 then Routed(kept[0], []) else NoConnector
    {
      for k := 0 to |fbs|
        invariant cb.Valid() && forall p :: Admits(At(cb.states, p), now) <==> Admits(At(states, p), now)
        invariant Keep(fbs[..k], excluded, states, now) == []
      {
        assert fbs[..k + 1][..k] == fbs[..k];
        if fbs[k] in excluded {
          continue;
        }
        var up := cb.IsAvailable(fbs[k], now);
        if up {
          KeepPrefix(fbs, k + 1, excluded, states, now);
          return Routed(fbs[k], []);
        }
      }
      assert fbs[..|fbs|] == fbs;
      return NoConnector;
    }

    method Fallbacks(fbs: seq<string>, now: int, ghost states: map<string, State>) returns (available: seq<string>)
      requires cb.Valid() && forall p :: Admits(At(cb.states, p), now) <==> Admits(At(states, p), now)
      modifies cb`states, cb`history
      ensures cb.Valid() && available == Keep(fbs, excluded, states, now)
    {
      available := [];
      for k := 0 to |fbs|
        invariant cb.Valid() && forall p :: Admits(At(cb.states, p), now) <==> Admits(At(states, p), now)
        invariant available == Keep(fbs[..k], excluded, states, now)
      {
        assert fbs[..k + 1][..k] == fbs[..k];
        if fbs[k] !in excluded {
          var up := cb.IsAvailable(fbs[k], now);
          if up {
            available := available + [fbs[k]];
          }
        }
      }
      assert fbs[..|fbs|] == fbs;
    }
  }

  /** The primary if it is registered, else the first registered fallback. */
  method PickConnector(primary: string, fallbacks: seq<string>, registry: set<string>) returns (psp: Option<string>)
    ensures psp.None? <==> primary !in registry && forall fb :: fb in fallbacks ==> fb !in registry
    ensures psp.Some? ==> psp.value in registry && (psp.value == primary || psp.value in fallbacks)
    ensures primary in registry ==> psp == Some(primary)
    ensures psp.Some? && primary !in registry ==>
              exists k ::
                0 <= k < |fallbacks| && fallbacks[k] == psp.value &&
                forall j :: 0 <= j < k ==> fallbacks[j] !in registry
  {
    if primary in registry {
      return Some(primary);
    }
    for k := 0 to |fallbacks|
      invariant forall j :: 0 <= j < k ==> fallbacks[j] !in registry
    {
      if fallbacks[k] in registry {
        return Some(fallbacks[k]);
      }
    }
    return None;
  }
}
