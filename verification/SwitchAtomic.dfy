/** Runs in which a webhook's read, check and write of an intent are one step: they are isolated,
    and they reach every stage of a payment. */
module SwitchAtomic {
  import opened Domain
  import opened StateTable
  import opened Ledger
  import opened Fees
  import opened Switch
  import opened SwitchSafety

  /** While a webhook holds an intent, the only thing that happens is its own next step or its end. */
  predicate Atomic(s: State, a: Action) {
    forall u :: 0 <= u < |s.threads| && Holding(s.threads[u]) ==> (a.Go? || a.Stop?) && a.t == u
  }

  predicate AtomicRun(s: State, run: seq<Action>)
    requires Legal(s, run)
    decreases |run|
  {
    |run| == 0 || (Atomic(s, run[0]) && AtomicRun(Do(s, run[0]), run[1..]))
  }

  /** Running each webhook's read, check and write as one step is one way to be isolated. */
  lemma {:induction false} AtomicIsIsolated(s: State, run: seq<Action>)
    requires Legal(s, run) && AtomicRun(s, run)
    ensures IsolatedRun(s, run)
    decreases |run|
  {
    if |run| == 0 {
    } else {
      assert Isolated(s, run[0]);
      AtomicIsIsolated(Do(s, run[0]), run[1..]);
    }
  }

  predicate Quiet(s: State) {
    forall u :: 0 <= u < |s.threads| ==> !Holding(s.threads[u])
  }

  lemma {:induction false} ExecConcat(s: State, r1: seq<Action>, r2: seq<Action>)
    requires Legal(s, r1) && Legal(Exec(s, r1), r2)
    ensures Legal(s, r1 + r2) && Exec(s, r1 + r2) == Exec(Exec(s, r1), r2)
    ensures AtomicRun(s, r1) && AtomicRun(Exec(s, r1), r2) ==> AtomicRun(s, r1 + r2)
    decreases |r1|
  {
    if |r1| == 0 {
      assert r1 + r2 == r2;
    } else {
      ExecConcat(Do(s, r1[0]), r1[1..], r2);
      assert (r1 + r2)[1..] == r1[1..] + r2;
    }
  }

  ghost predicate Reaches(s: State, s': State) {
    exists run :: Legal(s, run) && Exec(s, run) == s'
  }

  ghost predicate ReachesAtomically(s: State, s': State) {
    exists run :: Legal(s, run) && AtomicRun(s, run) && Exec(s, run) == s'
  }

  /** What atomic runs reach is reachable and, from the empty database, safe. */
  lemma AtomicIsSafe(cfg: FeeConfig, s: State)
    requires ReachesAtomically(Init(cfg), s)
    ensures Reaches(Init(cfg), s) && Safe(s)
  {
    var run :| Legal(Init(cfg), run) && AtomicRun(Init(cfg), run) && Exec(Init(cfg), run) == s;
    AtomicIsIsolated(Init(cfg), run);
    SafeRun(Init(cfg), run);
  }

  lemma One(s: State, a: Action)
    requires Enabled(s, a)
    ensures Legal(s, [a]) && Exec(s, [a]) == Do(s, a) && (Atomic(s, a) ==> AtomicRun(s, [a]))
  {
    assert [a][1..] == [];
    assert Legal(Do(s, a), [a][1..]);
  }

  lemma Next(s: State, s1: State, a: Action)
    requires ReachesAtomically(s, s1) && Enabled(s1, a) && Atomic(s1, a)
    ensures ReachesAtomically(s, Do(s1, a))
  {
    var run :| Legal(s, run) && AtomicRun(s, run) && Exec(s, run) == s1;
    One(s1, a);
    ExecConcat(s, run, [a]);
  }

  // ---- Posting to the end ----

  /** Thread t moves n times in a row, with the same answers. */
  function Repeat(t: nat, c: Choice, n: nat): seq<Action> {
    if n == 0 then [] else [Go(t, c)] + Repeat(t, c, n - 1)
  }

  predicate CanPost(s: State, t: nat, n: nat) {
    t < |s.threads| && s.threads[t].Post? &&
    var th := s.threads[t];
    var g := CollectionRows(s.cfg, th.id, th.snap, th.psp);
    th.k < |g| && th.k + n <= |g| && forall e :: e in g ==> e.amount > 0
  }

  /** Thread t has posted n rows more. */
  function AfterPosting(s: State, t: nat, n: nat): State
    requires CanPost(s, t, n)
  {
    var th := s.threads[t];
    var g := CollectionRows(s.cfg, th.id, th.snap, th.psp);
    s.(ledger := s.ledger + g[th.k..th.k + n],
       threads := s.threads[t := if th.k + n < |g| then th.(k := th.k + n) else Finished])
  }

  lemma FirstPosted(s: State, t: nat, c: Choice, n: nat)
    requires CanPost(s, t, n) && n > 0
    ensures CanGo(s, t, c) && DoGo(s, t, c) == AfterPosting(s, t, 1)
  {
    var th := s.threads[t];
    var g := CollectionRows(s.cfg, th.id, th.snap, th.psp);
    assert g[th.k] in g && g[th.k..th.k + 1] == [g[th.k]];
  }

  lemma OnePosted(s: State, t: nat, c: Choice, n: nat)
    requires CanPost(s, t, n) && n > 0
    ensures CanGo(s, t, c) && DoGo(s, t, c) == AfterPosting(s, t, 1)
    ensures n > 1 ==> CanPost(DoGo(s, t, c), t, n - 1) && AfterPosting(DoGo(s, t, c), t, n - 1) == AfterPosting(s, t, n)
  {
    var th := s.threads[t];
    var g := CollectionRows(s.cfg, th.id, th.snap, th.psp);
    FirstPosted(s, t, c, n);
    assert n > 1 ==> g[th.k..th.k + 1] + g[th.k + 1..th.k + n] == g[th.k..th.k + n];
  }

  lemma PostingIsQuiet(s: State, t: nat, c: Choice)
    requires CanGo(s, t, c) && s.threads[t].Post?
    ensures Isolated(s, Go(t, c)) && (Quiet(s) ==> Atomic(s, Go(t, c)) && Quiet(DoGo(s, t, c)))
  {
    assert DoGo(s, t, c).intents == s.intents;
  }

  /** A posting thread that keeps moving inserts its rows one after the other. */
  lemma {:induction false} PostOn(s: State, t: nat, c: Choice, n: nat)
    requires CanPost(s, t, n)
    ensures Legal(s, Repeat(t, c, n)) && Exec(s, Repeat(t, c, n)) == AfterPosting(s, t, n)
    ensures IsolatedRun(s, Repeat(t, c, n)) && (Quiet(s) ==> AtomicRun(s, Repeat(t, c, n)))
    decreases n
  {
    var run := Repeat(t, c, n);
    if n == 0 {
      assert s.ledger + [] == s.ledger;
    } else {
      OnePosted(s, t, c, n);
      PostingIsQuiet(s, t, c);
      assert run[1..] == Repeat(t, c, n - 1);
      if n > 1 {
        PostOn(DoGo(s, t, c), t, c, n - 1);
      } else {
        assert run[1..] == [];
      }
    }
  }

  lemma RowsPositive(cfg: FeeConfig, id: nat, pi: Intent, psp: string)
    requires pi.amount > 0
    ensures forall e :: e in CollectionRows(cfg, id, pi, psp) ==> e.amount > 0
    ensures |CollectionRows(cfg, id, pi, psp)| >= 2
  {
  }

  // ---- From the empty database ----

  /** The answers of a provider that takes the request and a cache that hears the entry. */
  function Ready(): Choice {
    Choice("mpesa", "k", true, "r", "pending", 0)
  }

  function Cached(req: Request): map<string, nat> {
    if req.key == "" then map[] else map[CacheKey(req.merchant, req.key) := 0]
  }

  function RowOf(req: Request, status: PIStatus): Intent {
    Intent(req.merchant, KeyOf(req, Ready()), req.amount, req.currency, status)
  }

  /** The attempt is in, and creation is about to make its last write. */
  function Writing(cfg: FeeConfig, req: Request): State {
    State(cfg, [RowOf(req, Created)], [Attempt(0, "mpesa", "r", ARequiresAction)], [], Cached(req),
          [CWrite(req, "mpesa", 0, 0, false)], [Trace(0, Some(0), 1, None)])
  }

  /** Creation has returned, and its delayed query has not run yet. */
  function Answered(cfg: FeeConfig, req: Request): State {
    Writing(cfg, req).(
      intents := [RowOf(req, RequiresAction)],
      threads := [CReturned(req, 0), QRead(0, 0)])
  }

  predicate Valid(req: Request) {
    ':' !in req.merchant && Admitted(req.amount)
  }

  /** The row is in, and the provider is about to be called. */
  function Calling(cfg: FeeConfig, req: Request): State {
    Writing(cfg, req).(attempts := [], trace := [Trace(0, None, 0, None)], threads := [CCall(req, "mpesa", 0)])
  }

  /** The provider has accepted, and its answer is about to be recorded. */
  function Called(cfg: FeeConfig, req: Request): State {
    Writing(cfg, req).(
      attempts := [],
      trace := [Trace(0, None, 1, None)],
      threads := [CAttempt(req, "mpesa", 0, "r", false)])
  }

  lemma ReachCalling(cfg: FeeConfig, req: Request)
    requires Valid(req)
    ensures ReachesAtomically(Init(cfg), Calling(cfg, req))
  {
    var s0, c := Init(cfg), Ready();
    assert Legal(s0, []) && AtomicRun(s0, []) && Exec(s0, []) == s0;
    Next(s0, s0, Spawn(CCheck(req)));
    var s1 := Do(s0, Spawn(CCheck(req)));
    assert s1.threads == [CCheck(req)];
    Next(s0, s1, Go(0, c));
    var s2 := DoGo(s1, 0, c);
    assert s2.threads == [CGuard(req)];
    Next(s0, s2, Go(0, c));
    var s3 := DoGo(s2, 0, c);
    assert s3.threads == [CInsert(req, "mpesa")];
    Next(s0, s3, Go(0, c));
    var s4 := DoGo(s3, 0, c);
    assert s4.threads == [CStore(req, "mpesa", 0)];
    Next(s0, s4, Go(0, c));
    assert DoGo(s4, 0, c) == Calling(cfg, req);
  }

  lemma ReachCalled(cfg: FeeConfig, req: Request)
    requires Valid(req)
    ensures ReachesAtomically(Init(cfg), Called(cfg, req))
  {
    ReachCalling(cfg, req);
    Next(Init(cfg), Calling(cfg, req), Go(0, Ready()));
    assert DoGo(Calling(cfg, req), 0, Ready()) == Called(cfg, req);
  }

  /** Every valid request gets to the point where its attempt is in and its status still `created`. */
  lemma ReachWriting(cfg: FeeConfig, req: Request)
    requires Valid(req)
    ensures ReachesAtomically(Init(cfg), Writing(cfg, req))
  {
    ReachCalled(cfg, req);
    Next(Init(cfg), Called(cfg, req), Go(0, Ready()));
    assert DoGo(Called(cfg, req), 0, Ready()) == Writing(cfg, req);
  }

  /** And it gets its answer. */
  lemma ReachAnswered(cfg: FeeConfig, req: Request)
    requires Valid(req)
    ensures ReachesAtomically(Init(cfg), Answered(cfg, req))
  {
    ReachWriting(cfg, req);
    Next(Init(cfg), Writing(cfg, req), Go(0, Ready()));
    assert DoGo(Writing(cfg, req), 0, Ready()) == Answered(cfg, req);
  }

  /** A webhook has written the success and is about to post the collection. */
  function Won(cfg: FeeConfig, req: Request): State {
    Answered(cfg, req).(
      intents := [RowOf(req, Succeeded)],
      attempts := [Attempt(0, "mpesa", "r", ASucceeded)],
      threads := [CReturned(req, 0), QRead(0, 0), Post(0, RowOf(req, RequiresAction), "mpesa", 0)],
      trace := [Trace(0, Some(0), 1, Some(2))])
  }

  /** A webhook has read the waiting intent. */
  function Told(cfg: FeeConfig, req: Request): State {
    var held := WAttempt(0, 0, RowOf(req, RequiresAction), "mpesa", Succeeded);
    Answered(cfg, req).(threads := [CReturned(req, 0), QRead(0, 0), held])
  }

  lemma ReachTold(cfg: FeeConfig, req: Request)
    requires Valid(req)
    ensures ReachesAtomically(Init(cfg), Told(cfg, req))
  {
    var s0, c, evt := Init(cfg), Ready(), Event("mpesa", "r", "", "succeeded");
    ReachAnswered(cfg, req);
    var s1 := Answered(cfg, req);
    Next(s0, s1, Spawn(WLookup(evt)));
    var s2 := Do(s1, Spawn(WLookup(evt)));
    assert s2.threads == [CReturned(req, 0), QRead(0, 0), WLookup(evt)];
    Next(s0, s2, Go(2, c));
    var s3 := DoGo(s2, 2, c);
    assert s3.threads == [CReturned(req, 0), QRead(0, 0), WRead(evt, 0)];
    Next(s0, s3, Go(2, c));
    assert DoGo(s3, 2, c) == Told(cfg, req);
  }

  lemma ReachWon(cfg: FeeConfig, req: Request)
    requires Valid(req)
    ensures ReachesAtomically(Init(cfg), Won(cfg, req))
  {
    var s0, c := Init(cfg), Ready();
    var pi := RowOf(req, RequiresAction);
    ReachTold(cfg, req);
    var s4 := Told(cfg, req);
    Next(s0, s4, Go(2, c));
    var s5 := DoGo(s4, 2, c);
    assert s5.threads == [CReturned(req, 0), QRead(0, 0), WWrite(0, 0, pi, "mpesa", Succeeded)];
    Next(s0, s5, Go(2, c));
    assert DoGo(s5, 2, c) == Won(cfg, req);
  }

  /** The webhook has posted the first k rows of the collection. */
  lemma ReachPosted(cfg: FeeConfig, req: Request, k: nat)
    requires Valid(req) && k <= |CollectionRows(cfg, 0, RowOf(req, RequiresAction), "mpesa")|
    ensures CanPost(Won(cfg, req), 2, k) && ReachesAtomically(Init(cfg), AfterPosting(Won(cfg, req), 2, k))
  {
    var s0, s1 := Init(cfg), Won(cfg, req);
    ReachWon(cfg, req);
    RowsPositive(cfg, 0, RowOf(req, RequiresAction), "mpesa");
    PostOn(s1, 2, Ready(), k);
    var run :| Legal(s0, run) && AtomicRun(s0, run) && Exec(s0, run) == s1;
    ExecConcat(s0, run, Repeat(2, Ready(), k));
  }
}
