/** What isolated runs can still change about an intent that has an outcome. */
module SwitchFinality {
  import opened Domain
  import opened StateTable
  import opened Ledger
  import opened Fees
  import opened Switch
  import opened SwitchSafety
  import opened SwitchAtomic

  // ---- A collection that was not finished ----

  /** The intent has succeeded, and the thread that wrote it stopped before its last row. */
  predicate Abandoned(s: State, i: nat) {
    Row(s, i) && s.intents[i].status == Succeeded && s.trace[i].winner.Some? &&
    s.trace[i].winner.value < |s.threads| && s.threads[s.trace[i].winner.value].Stopped?
  }

  lemma AbandonedStep(s: State, a: Action, i: nat)
    requires Safe(s) && Enabled(s, a) && Abandoned(s, i)
    ensures Abandoned(Do(s, a), i) && Rows(Do(s, a).ledger, i) == Rows(s.ledger, i)
  {
    if a.Go? {
      GoExtends(s, a.t, a.c);
      GoStatus(s, a.t, a.c, i);
      GoLedger(s, a.t, a.c, i);
      OutcomeEdges(Succeeded);
      assert SafeThread(s, a.t);
    }
  }

  /** Nothing repairs an abandoned collection: in every isolated run its rows stay as they are, and
      they are never all of it. */
  lemma {:induction false} NeverRepaired(s: State, run: seq<Action>, i: nat)
    requires Safe(s) && Legal(s, run) && IsolatedRun(s, run) && Abandoned(s, i)
    ensures Row(Exec(s, run), i) && Abandoned(Exec(s, run), i)
    ensures Rows(Exec(s, run).ledger, i) == Rows(s.ledger, i) != Entitled(Exec(s, run), i)
    decreases |run|
  {
    if |run| == 0 {
      assert SafeIntent(s, i);
    } else {
      AbandonedStep(s, run[0], i);
      SafeStep(s, run[0]);
      NeverRepaired(Do(s, run[0]), run[1..], i);
    }
  }

  ghost predicate Completes(s: State, run: seq<Action>, i: nat) {
    Legal(s, run) && IsolatedRun(s, run) && Row(Exec(s, run), i) &&
    Rows(Exec(s, run).ledger, i) == Entitled(Exec(s, run), i)
  }

  lemma FinishedIsComplete(s: State, i: nat)
    requires Safe(s) && Row(s, i) && s.intents[i].status == Succeeded && Posted(s, i)
    ensures Rows(s.ledger, i) == Entitled(s, i)
  {
    assert SafeIntent(s, i);
  }

  function RowsLeft(s: State, th: Thread): int
    requires th.Post?
  {
    |CollectionRows(s.cfg, th.id, th.snap, th.psp)| - th.k
  }

  lemma PosterCanGoOn(s: State, t: nat, i: nat)
    requires Safe(s) && t < |s.threads| && s.threads[t].Post? && s.threads[t].id == i
    ensures RowsLeft(s, s.threads[t]) > 0 && CanPost(s, t, RowsLeft(s, s.threads[t]))
    ensures Row(s, i) && s.intents[i].status == Succeeded && s.trace[i].winner == Some(t)
  {
    var th := s.threads[t];
    assert ThreadOk(s, t) && SafeThread(s, t) && IntentOk(s, i);
    RowsPositive(s.cfg, i, th.snap, th.psp);
  }

  /** A thread that is still posting can finish. */
  lemma PosterFinishes(s: State, t: nat, i: nat)
    requires Safe(s) && t < |s.threads| && s.threads[t].Post? && s.threads[t].id == i
    ensures exists run :: Completes(s, run, i)
  {
    PosterCanGoOn(s, t, i);
    var n := RowsLeft(s, s.threads[t]);
    var run := Repeat(t, Ready(), n);
    PostOn(s, t, Ready(), n);
    SafeRun(s, run);
    var s' := Exec(s, run);
    assert s' == AfterPosting(s, t, n) && s'.threads[t] == Finished;
    FinishedIsComplete(s', i);
    assert Completes(s, run, i);
  }

  /** The collection of a succeeded intent can still become complete, or is so already, exactly when
      the thread that wrote the success has not stopped before its last row. */
  lemma RepairableIff(s: State, i: nat)
    requires Safe(s) && i < |s.intents| && s.intents[i].status == Succeeded
    ensures (exists run :: Completes(s, run, i)) <==> !Abandoned(s, i)
  {
    assert SafeIntent(s, i) && Row(s, i);
    if Abandoned(s, i) {
      forall run | Legal(s, run) && IsolatedRun(s, run) ensures !Completes(s, run, i) {
        NeverRepaired(s, run, i);
      }
    } else if Posting(s, i) {
      PosterFinishes(s, s.trace[i].winner.value, i);
    } else {
      assert Completes(s, [], i);
    }
  }

  /** From the empty database an atomic run leads to an abandoned collection cut off after any number
      of rows short of all. */
  lemma AbandonedIsReachable(cfg: FeeConfig, req: Request, k: nat)
    requires Valid(req) && k < |CollectionRows(cfg, 0, RowOf(req, RequiresAction), "mpesa")|
    ensures exists s :: ReachesAtomically(Init(cfg), s) && Abandoned(s, 0) && |Rows(s.ledger, 0)| == k
  {
    ReachPosted(cfg, req, k);
    var s := AfterPosting(Won(cfg, req), 2, k);
    AtomicIsSafe(cfg, s);
    assert SafeThread(s, 2);
    Next(Init(cfg), s, Stop(2));
    assert Abandoned(Do(s, Stop(2)), 0);
  }

  /** And one to a complete collection. */
  lemma CompleteIsReachable(cfg: FeeConfig, req: Request)
    requires Valid(req)
    ensures exists s ::
              ReachesAtomically(Init(cfg), s) && Row(s, 0) && s.intents[0].status == Succeeded && Posted(s, 0) &&
              Rows(s.ledger, 0) == Entitled(s, 0) && |Rows(s.ledger, 0)| >= 2
  {
    var pi := RowOf(req, RequiresAction);
    var g := CollectionRows(cfg, 0, pi, "mpesa");
    RowsPositive(cfg, 0, pi, "mpesa");
    ReachPosted(cfg, req, |g|);
    var s := AfterPosting(Won(cfg, req), 2, |g|);
    AtomicIsSafe(cfg, s);
    assert Row(s, 0) && SafeIntent(s, 0) && Posted(s, 0);
    assert Entitled(s, 0) == g;
  }

  // ---- A failure ----

  /** The creation of i is about to write its status, whatever it is by now. */
  predicate LateWrite(s: State, i: nat) {
    Row(s, i) && s.trace[i].creator < |s.threads| &&
    var th := s.threads[s.trace[i].creator];
    th.CWrite? && th.id == i
  }

  lemma FailedStep(s: State, a: Action, i: nat)
    requires Safe(s) && Enabled(s, a) && Row(s, i) && s.intents[i].status == Failed && !LateWrite(s, i)
    ensures Row(Do(s, a), i) && Do(s, a).intents[i].status == Failed && !LateWrite(Do(s, a), i)
  {
    assert IntentOk(s, i);
    if a.Go? {
      GoExtends(s, a.t, a.c);
      GoStatus(s, a.t, a.c, i);
      OutcomeEdges(Failed);
      assert ThreadOk(s, a.t) && SafeThread(s, a.t) && SameRow(s, Do(s, a), a.t, i);
    }
  }

  lemma {:induction false} FailedForever(s: State, run: seq<Action>, i: nat)
    requires Safe(s) && Legal(s, run) && IsolatedRun(s, run)
    requires Row(s, i) && s.intents[i].status == Failed && !LateWrite(s, i)
    ensures Row(Exec(s, run), i) && Exec(s, run).intents[i].status == Failed
    decreases |run|
  {
    if |run| == 0 {
    } else {
      FailedStep(s, run[0], i);
      SafeStep(s, run[0]);
      FailedForever(Do(s, run[0]), run[1..], i);
    }
  }

  ghost predicate Revives(s: State, run: seq<Action>, i: nat) {
    Legal(s, run) && IsolatedRun(s, run) && Row(Exec(s, run), i) && Exec(s, run).intents[i].status != Failed
  }

  lemma LateWriteRevives(s: State, i: nat)
    requires Safe(s) && Row(s, i) && s.intents[i].status == Failed && LateWrite(s, i)
    ensures exists run :: Revives(s, run, i)
  {
    var t, c := s.trace[i].creator, Ready();
    forall u | 0 <= u < |s.threads| && Holding(s.threads[u]) ensures s.threads[u].id != i {
      assert ThreadOk(s, u) && SafeThread(s, u);
      OutcomeEdges(Failed);
    }
    One(s, Go(t, c));
    assert Isolated(s, Go(t, c));
    assert [Go(t, c)][1..] == [] && IsolatedRun(DoGo(s, t, c), []);
    assert Revives(s, [Go(t, c)], i);
  }

  /** A failed intent stays failed in every isolated run exactly when its creation is not about to
      make its own last write. */
  lemma FailedForeverIff(s: State, i: nat)
    requires Safe(s) && Row(s, i) && s.intents[i].status == Failed
    ensures (forall run :: !Revives(s, run, i)) <==> !LateWrite(s, i)
  {
    if LateWrite(s, i) {
      LateWriteRevives(s, i);
    } else {
      forall run | Legal(s, run) && IsolatedRun(s, run) ensures !Revives(s, run, i) {
        FailedForever(s, run, i);
      }
    }
  }
}
