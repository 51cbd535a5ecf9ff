/** Creation calls that carry an idempotency key: the cache answers repeats, the unique index on
    (merchant, key) decides races, and the cache may lose or never get an entry. */
module Idempotency {
  import opened Domain
  import opened Fees
  import opened Switch
  import opened SwitchSafety
  import opened SwitchAtomic

  predicate RowFor(s: State, r: nat, merchant: string, key: string) {
    Row(s, r) && s.intents[r].merchant == merchant && s.intents[r].key == key
  }

  /** The step issues a collection request to a provider for a call with this key. */
  predicate Issues(s: State, a: Action, merchant: string, key: string) {
    a.Go? && a.t < |s.threads| && s.threads[a.t].CCall? &&
    s.threads[a.t].req.merchant == merchant && s.threads[a.t].req.key == key
  }

  /** Collection requests issued along a run for calls with this key. */
  function Issued(s: State, run: seq<Action>, merchant: string, key: string): nat
    requires Legal(s, run)
    decreases |run|
  {
    if |run| == 0 then 0
    else (if Issues(s, run[0], merchant, key) then 1 else 0) + Issued(Do(s, run[0]), run[1..], merchant, key)
  }

  lemma RowStays(s: State, a: Action, r: nat, merchant: string, key: string)
    requires Base(s) && Enabled(s, a) && RowFor(s, r, merchant, key)
    ensures RowFor(Do(s, a), r, merchant, key)
    ensures Do(s, a).trace[r].issued >= s.trace[r].issued
  {
    if a.Go? {
      GoExtends(s, a.t, a.c);
      GoTrace(s, a.t, a.c, r);
      assert SameRow(s, Do(s, a), a.t, r);
    }
  }

  lemma IssueCounts(s: State, a: Action, r: nat, merchant: string, key: string)
    requires Base(s) && Enabled(s, a) && RowFor(s, r, merchant, key) && key != "" && Issues(s, a, merchant, key)
    ensures s.trace[r].issued == 0 && RowFor(Do(s, a), r, merchant, key) && Do(s, a).trace[r].issued == 1
  {
    assert ThreadOk(s, a.t);
    var id := s.threads[a.t].id;
    assert RowFor(s, id, merchant, key);
    assert SameKey(s.intents[id], s.intents[r]);
  }

  /** A request is only ever issued for a row that is there. */
  lemma IssuedForRow(s: State, a: Action, merchant: string, key: string)
    requires Base(s) && Enabled(s, a) && key != "" && Issues(s, a, merchant, key)
    ensures RowFor(s, s.threads[a.t].id, merchant, key)
  {
    assert ThreadOk(s, a.t);
  }

  lemma {:induction false} IssuedWithRow(s: State, run: seq<Action>, r: nat, merchant: string, key: string)
    requires Base(s) && Legal(s, run) && key != "" && RowFor(s, r, merchant, key)
    ensures Issued(s, run, merchant, key) + s.trace[r].issued <= 1
    decreases |run|
  {
    assert IntentOk(s, r);
    if |run| == 0 {
    } else {
      BaseStep(s, run[0]);
      RowStays(s, run[0], r, merchant, key);
      if Issues(s, run[0], merchant, key) {
        IssueCounts(s, run[0], r, merchant, key);
      }
      IssuedWithRow(Do(s, run[0]), run[1..], r, merchant, key);
    }
  }

  /** In every run from a state without a row for the merchant and key, at most one collection
      request is issued for all the calls that carry them. */
  lemma {:induction false} ChargedAtMostOnce(s: State, run: seq<Action>, merchant: string, key: string)
    requires Base(s) && Legal(s, run) && key != ""
    requires forall r: nat :: !RowFor(s, r, merchant, key)
    ensures Issued(s, run, merchant, key) <= 1
    decreases |run|
  {
    if |run| == 0 {
    } else {
      var s' := Do(s, run[0]);
      BaseStep(s, run[0]);
      if Issues(s, run[0], merchant, key) {
        IssuedForRow(s, run[0], merchant, key);
      }
      if r: nat :| RowFor(s', r, merchant, key) {
        IssuedWithRow(s', run[1..], r, merchant, key);
      } else {
        ChargedAtMostOnce(s', run[1..], merchant, key);
      }
    }
  }

  /** After every run from the empty database: at most one intent row exists for a merchant and key;
      at most one request was issued; and all the calls with that key that returned a result
      returned the same intent, whatever the cache lost. */
  lemma OneIntentPerKey(cfg: FeeConfig, run: seq<Action>, merchant: string, key: string)
    requires Legal(Init(cfg), run) && key != ""
    ensures var s := Exec(Init(cfg), run);
            Issued(Init(cfg), run, merchant, key) <= 1 &&
            (forall q: nat, r: nat :: RowFor(s, q, merchant, key) && RowFor(s, r, merchant, key) ==> q == r) &&
            (forall t, u ::
               0 <= t < |s.threads| && 0 <= u < |s.threads| &&
               Returned(s.threads[t], merchant, key) && Returned(s.threads[u], merchant, key) ==>
               s.threads[t].id == s.threads[u].id && RowFor(s, s.threads[t].id, merchant, key))
  {
    ChargedAtMostOnce(Init(cfg), run, merchant, key);
    BaseRun(Init(cfg), run);
    var s := Exec(Init(cfg), run);
    forall q: nat, r: nat | RowFor(s, q, merchant, key) && RowFor(s, r, merchant, key) ensures q == r {
      assert SameKey(s.intents[q], s.intents[r]);
    }
    forall t | 0 <= t < |s.threads| && Returned(s.threads[t], merchant, key)
      ensures RowFor(s, s.threads[t].id, merchant, key)
    {
      assert ThreadOk(s, t);
    }
  }

  /** The call with this key returned a result. */
  predicate Returned(th: Thread, merchant: string, key: string) {
    th.CReturned? && th.req.merchant == merchant && th.req.key == key
  }

  /** Once the cache has lost the entry, a replay of the key does not get the original result back:
      the unique index refuses its insert, whatever key or provider the environment offers. */
  lemma ReplayAfterCacheLossFails(s: State, t: nat, c: Choice, r: nat)
    requires Base(s) && t < |s.threads| && s.threads[t].CInsert? && s.threads[t].req.key != ""
    requires RowFor(s, r, s.threads[t].req.merchant, s.threads[t].req.key)
    ensures !CanGo(s, t, c)
  {
    assert s.intents[r].key == KeyOf(s.threads[t].req, c);
  }

  // ---- When a replay gets the original result ----

  /** A call at its cache lookup, for a key whose intent is r. */
  predicate Replaying(s: State, t: nat, r: nat) {
    t < |s.threads| && s.threads[t].CCheck? && s.threads[t].req.key != "" &&
    RowFor(s, r, s.threads[t].req.merchant, s.threads[t].req.key)
  }

  predicate Remembered(s: State, req: Request) {
    CacheKey(req.merchant, req.key) in s.cache
  }

  /** The lookup decides: with the entry the call goes on to fetch the original intent, without it
      the call goes on as if the key were new. */
  lemma CacheDecides(s: State, t: nat, c: Choice, r: nat)
    requires Base(s) && Replaying(s, t, r)
    ensures DoGo(s, t, c).threads[t] ==
            if Remembered(s, s.threads[t].req) then CFetch(s.threads[t].req, r) else CGuard(s.threads[t].req)
  {
    var req := s.threads[t].req;
    var k := CacheKey(req.merchant, req.key);
    assert ThreadOk(s, t);
    if k in s.cache {
      assert CacheOk(s, k) && IntentOk(s, s.cache[k]);
      var pi := s.intents[s.cache[k]];
      CacheKeyInjective(req.merchant, req.key, pi.merchant, pi.key);
      assert SameKey(pi, s.intents[r]);
    }
  }

  predicate AtInsert(th: Thread, req: Request) {
    (th.CGuard? && th.req == req) || (th.CInsert? && th.req == req) || th.Stopped?
  }

  lemma StuckStep(s: State, a: Action, t: nat, req: Request, r: nat)
    requires Base(s) && Enabled(s, a) && t < |s.threads| && req.key != ""
    requires RowFor(s, r, req.merchant, req.key) && AtInsert(s.threads[t], req)
    ensures t < |Do(s, a).threads| && AtInsert(Do(s, a).threads[t], req)
  {
    if a.Go? {
      GoExtends(s, a.t, a.c);
      if a.t == t && s.threads[t].CInsert? {
        ReplayAfterCacheLossFails(s, t, a.c, r);
      }
    }
  }

  /** A call that got past the lookup while the row exists never returns a result, in any run. */
  lemma {:induction false} Stuck(s: State, run: seq<Action>, t: nat, req: Request, r: nat)
    requires Base(s) && Legal(s, run) && t < |s.threads| && req.key != ""
    requires RowFor(s, r, req.merchant, req.key) && AtInsert(s.threads[t], req)
    ensures t < |Exec(s, run).threads| && AtInsert(Exec(s, run).threads[t], req)
    decreases |run|
  {
    if |run| == 0 {
    } else {
      StuckStep(s, run[0], t, req, r);
      RowStays(s, run[0], r, req.merchant, req.key);
      BaseStep(s, run[0]);
      Stuck(Do(s, run[0]), run[1..], t, req, r);
    }
  }

  predicate Fetching(th: Thread, req: Request, r: nat) {
    th == CFetch(req, r) || th == CReturned(req, r) || th.Stopped?
  }

  /** A call that found the entry returns the original intent or nothing, in any run. */
  lemma {:induction false} Fetched(s: State, run: seq<Action>, t: nat, req: Request, r: nat)
    requires Base(s) && Legal(s, run) && t < |s.threads| && Fetching(s.threads[t], req, r)
    ensures t < |Exec(s, run).threads| && Fetching(Exec(s, run).threads[t], req, r)
    decreases |run|
  {
    if |run| == 0 {
    } else {
      if run[0].Go? {
        GoExtends(s, run[0].t, run[0].c);
      }
      BaseStep(s, run[0]);
      Fetched(Do(s, run[0]), run[1..], t, req, r);
    }
  }

  /** After the run thread t has returned a result. */
  ghost predicate Answers(s: State, run: seq<Action>, t: nat) {
    Legal(s, run) && t < |Exec(s, run).threads| && Exec(s, run).threads[t].CReturned?
  }

  /** A replay of a key can return a result exactly when its entry is in the cache at the lookup, and
      what it returns then is the original intent. */
  lemma ReplayReturnsOriginalIff(s: State, t: nat, c: Choice, r: nat)
    requires Base(s) && Replaying(s, t, r)
    ensures (exists run :: Answers(DoGo(s, t, c), run, t)) <==> Remembered(s, s.threads[t].req)
    ensures forall run :: Answers(DoGo(s, t, c), run, t) ==> Exec(DoGo(s, t, c), run).threads[t].id == r
  {
    var req, s1 := s.threads[t].req, DoGo(s, t, c);
    CacheDecides(s, t, c, r);
    BaseStep(s, Go(t, c));
    RowStays(s, Go(t, c), r, req.merchant, req.key);
    if Remembered(s, req) {
      forall run | Answers(s1, run, t) ensures Exec(s1, run).threads[t].id == r {
        Fetched(s1, run, t, req, r);
      }
      One(s1, Go(t, c));
      assert Answers(s1, [Go(t, c)], t);
    } else {
      forall run | Legal(s1, run) ensures !Answers(s1, run, t) {
        Stuck(s1, run, t, req, r);
      }
    }
  }

  /** The failing replay happens: from the empty database a key is answered, its entry is forgotten,
      and a call with the same key and request arrives that no run answers. */
  lemma LostReplayIsReachable(cfg: FeeConfig, req: Request)
    requires Valid(req) && req.key != ""
    ensures exists s, t: nat ::
              Reaches(Init(cfg), s) && |s.threads| > 0 && s.threads[0] == CReturned(req, 0) && Replaying(s, t, 0) &&
              s.threads[t].req == req && forall run, c :: !Answers(DoGo(s, t, c), run, t)
  {
    var s1 := Answered(cfg, req);
    var k := CacheKey(req.merchant, req.key);
    ReachAnswered(cfg, req);
    Next(Init(cfg), s1, Forget(k));
    var s2 := Do(s1, Forget(k));
    Next(Init(cfg), s2, Spawn(CCheck(req)));
    var s3 := Do(s2, Spawn(CCheck(req)));
    AtomicIsSafe(cfg, s3);
    assert s3.threads == [CReturned(req, 0), QRead(0, 0), CCheck(req)];
    assert s3.intents == [RowOf(req, RequiresAction)] && RowFor(s3, 0, req.merchant, req.key);
    assert Replaying(s3, 2, 0) && !Remembered(s3, req);
    forall run, c ensures !Answers(DoGo(s3, 2, c), run, 2) {
      ReplayReturnsOriginalIff(s3, 2, c, 0);
    }
  }
}
