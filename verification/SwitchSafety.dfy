/** Safety of the switch over runs in which a webhook's read, check and write of an intent are not
    interleaved with another thread's write of that intent's status, as if they were one step. */
module SwitchSafety {
  import opened Domain
  import opened StateTable
  import opened Ledger
  import opened Fees
  import opened Switch

  /** The rows of the ledger that refer to one intent, in posting order. */
  function Rows(ledger: seq<Entry>, id: nat): seq<Entry> {
    if |ledger| == 0 then []
    else Rows(ledger[..|ledger| - 1], id) + if ledger[|ledger| - 1].refId == id then [ledger[|ledger| - 1]] else []
  }

  lemma RowsAppend(ledger: seq<Entry>, e: Entry, id: nat)
    ensures Rows(ledger + [e], id) == Rows(ledger, id) + if e.refId == id then [e] else []
  {
    assert (ledger + [e])[..|ledger|] == ledger;
  }

  /** A webhook between its read of an intent and its write of it. */
  predicate Holding(th: Thread) {
    th.WAttempt? || th.WWrite?
  }

  /** The action does not change the status of an intent another webhook holds. */
  ghost predicate Isolated(s: State, a: Action)
    requires Enabled(s, a)
  {
    forall u ::
      0 <= u < |s.threads| && Holding(s.threads[u]) && !(a.Go? && a.t == u) && s.threads[u].id < |s.intents| ==>
      s.threads[u].id < |Do(s, a).intents| &&
      Do(s, a).intents[s.threads[u].id].status == s.intents[s.threads[u].id].status
  }

  ghost predicate IsolatedRun(s: State, run: seq<Action>)
    requires Legal(s, run)
    decreases |run|
  {
    |run| == 0 || (Isolated(s, run[0]) && IsolatedRun(Do(s, run[0]), run[1..]))
  }

  // ---- The invariant ----

  predicate BeforeWrite(th: Thread) {
    th.CStore? || th.CCall? || th.CFail? || th.CAttempt? || th.CWrite?
  }

  predicate SafeThread(s: State, u: nat)
    requires u < |s.threads|
  {
    var th := s.threads[u];
    (BeforeWrite(th) ==>
       Row(s, th.id) &&
       (s.intents[th.id].status == Created || (th.CWrite? && s.intents[th.id].status == Failed))) &&
    (Holding(th) ==> Row(s, th.id) && s.intents[th.id].status == th.snap.status) &&
    (th.Post? ==>
       Row(s, th.id) && s.intents[th.id].status == Succeeded && s.trace[th.id].winner == Some(u) &&
       th.k <= |CollectionRows(s.cfg, th.id, th.snap, th.psp)| &&
       Rows(s.ledger, th.id) == CollectionRows(s.cfg, th.id, th.snap, th.psp)[..th.k])
  }

  /** The rows a successful intent is entitled to: one collection through its attempt's provider. */
  function Entitled(s: State, i: nat): seq<Entry>
    requires Row(s, i)
  {
    match s.trace[i].att
    case Some(a) => if a < |s.attempts| then CollectionRows(s.cfg, i, s.intents[i], s.attempts[a].psp) else []
    case None => []
  }

  /** The thread that wrote the success of i is still posting, or stopped before its last row. */
  predicate Posting(s: State, i: nat)
    requires Row(s, i)
  {
    s.trace[i].winner.Some? && s.trace[i].winner.value < |s.threads| &&
    var th := s.threads[s.trace[i].winner.value];
    th.Stopped? || (th.Post? && th.id == i)
  }

  /** The thread that wrote the success of i has run to its end. */
  predicate Posted(s: State, i: nat)
    requires Row(s, i)
  {
    s.trace[i].winner.Some? && s.trace[i].winner.value < |s.threads| && s.threads[s.trace[i].winner.value].Finished?
  }

  predicate SafeIntent(s: State, i: nat)
    requires Row(s, i)
  {
    var r := s.trace[i];
    s.intents[i].status in {Created, RequiresAction, Processing, Succeeded, Failed} &&
    (s.intents[i].status != Succeeded ==> r.winner == None && Rows(s.ledger, i) == []) &&
    (s.intents[i].status == Succeeded ==>
       r.att.Some? && r.winner.Some? && r.winner.value < |s.threads| &&
       Rows(s.ledger, i) <= Entitled(s, i) &&
       (if Rows(s.ledger, i) == Entitled(s, i) then Posted(s, i) else Posting(s, i)))
  }

  ghost predicate Safe(s: State) {
    Base(s) &&
    (forall u :: 0 <= u < |s.threads| ==> SafeThread(s, u)) &&
    (forall i :: 0 <= i < |s.intents| ==> SafeIntent(s, i)) &&
    (forall e :: e in s.ledger ==> e.refId < |s.intents|)
  }

  // ---- One step ----

  predicate WritesOutcome(th: Thread) {
    th.WWrite? || th.QWrite?
  }

  /** How one step may change the status of an intent: along an edge of the table to an outcome, or
      by the creation's own late write, which only ever overwrites `created` or `failed`. */
  predicate StatusStep(s: State, s': State, t: nat, i: nat)
    requires t < |s.threads| && Row(s, i) && Row(s', i)
  {
    var from, to, th := s.intents[i].status, s'.intents[i].status, s.threads[t];
    (to == from && s'.trace[i].winner == s.trace[i].winner) ||
    (WritesOutcome(th) && th.id == i && to == th.to && to in {Succeeded, Failed} && IsValidTransition(from, to) &&
     s'.trace[i].winner == if to == Succeeded then Some(t) else s.trace[i].winner) ||
    (s.trace[i].creator == t && from in {Created, Failed} && to in {RequiresAction, Processing, Failed} &&
     (th.CWrite? || th.CFail?) && th.id == i && s'.trace[i].winner == s.trace[i].winner)
  }

  lemma GoStatus(s: State, t: nat, c: Choice, i: nat)
    requires Safe(s) && CanGo(s, t, c) && i < |s.intents|
    requires Extends(s, DoGo(s, t, c), t)
    ensures StatusStep(s, DoGo(s, t, c), t, i)
  {
    assert ThreadOk(s, t) && SafeThread(s, t);
  }

  /** A step adds rows for an intent only as the thread posting its collection. */
  lemma GoLedger(s: State, t: nat, c: Choice, i: nat)
    requires Safe(s) && CanGo(s, t, c)
    ensures s.threads[t].Post? && s.threads[t].id == i ==>
              Rows(DoGo(s, t, c).ledger, i) ==
                Rows(s.ledger, i) + [CollectionRows(s.cfg, i, s.threads[t].snap, s.threads[t].psp)[s.threads[t].k]]
    ensures !(s.threads[t].Post? && s.threads[t].id == i) ==> Rows(DoGo(s, t, c).ledger, i) == Rows(s.ledger, i)
  {
    if s.threads[t].Post? {
      var th := s.threads[t];
      RowsAppend(s.ledger, CollectionRows(s.cfg, th.id, th.snap, th.psp)[th.k], i);
    }
  }

  lemma BeforeWriteKept(s: State, t: nat, c: Choice, u: nat)
    requires Safe(s) && CanGo(s, t, c) && u < |s.threads| && u != t && BeforeWrite(s.threads[u])
    requires Extends(s, DoGo(s, t, c), t)
    ensures SafeThread(DoGo(s, t, c), u)
  {
    var id := s.threads[u].id;
    assert SafeThread(s, u) && ThreadOk(s, u);
    GoStatus(s, t, c, id);
    OutcomeEdges(s.intents[id].status);
    assert WritesOutcome(s.threads[t]) ==> ThreadOk(s, t) && AttemptOk(s, s.threads[t].aid);
  }

  lemma OtherThread(s: State, t: nat, c: Choice, u: nat)
    requires Safe(s) && CanGo(s, t, c) && Isolated(s, Go(t, c)) && u < |s.threads| && u != t
    ensures SafeThread(DoGo(s, t, c), u)
  {
    GoExtends(s, t, c);
    if BeforeWrite(s.threads[u]) {
      BeforeWriteKept(s, t, c, u);
    } else if s.threads[u].Post? {
      PosterKept(s, t, c, u);
    } else {
      assert SafeThread(s, u) && ThreadOk(s, u);
    }
  }

  lemma PosterKept(s: State, t: nat, c: Choice, u: nat)
    requires Safe(s) && CanGo(s, t, c) && u < |s.threads| && u != t && s.threads[u].Post?
    requires Extends(s, DoGo(s, t, c), t)
    ensures SafeThread(DoGo(s, t, c), u)
  {
    var id := s.threads[u].id;
    assert SafeThread(s, u) && SafeThread(s, t);
    GoStatus(s, t, c, id);
    GoLedger(s, t, c, id);
    OutcomeEdges(Succeeded);
  }

  lemma OwnThread(s: State, t: nat, c: Choice)
    requires Safe(s) && CanGo(s, t, c) && !s.threads[t].Post?
    ensures SafeThread(DoGo(s, t, c), t)
  {
    assert ThreadOk(s, t) && SafeThread(s, t);
    if WritesOutcome(s.threads[t]) {
      Winning(s, t, c, s.threads[t].id);
    } else if Creating(s.threads[t]) {
      OwnCreating(s, t, c);
    }
  }

  lemma OwnCreating(s: State, t: nat, c: Choice)
    requires Safe(s) && CanGo(s, t, c) && Creating(s.threads[t])
    ensures SafeThread(DoGo(s, t, c), t)
  {
    assert ThreadOk(s, t) && SafeThread(s, t);
  }

  lemma Winning(s: State, t: nat, c: Choice, id: nat)
    requires Safe(s) && CanGo(s, t, c) && WritesOutcome(s.threads[t]) && s.threads[t].id == id
    ensures SafeThread(DoGo(s, t, c), t)
  {
    assert ThreadOk(s, t) && SafeThread(s, t) && SafeIntent(s, id);
    OutcomeEdges(s.intents[id].status);
  }

  lemma TakeOneMore<T>(g: seq<T>, k: nat)
    requires k < |g|
    ensures g[..k] + [g[k]] == g[..k + 1] && g[..|g|] == g
  {
  }

  lemma PostingThread(s: State, t: nat, c: Choice)
    requires Safe(s) && CanGo(s, t, c) && s.threads[t].Post?
    ensures SafeThread(DoGo(s, t, c), t)
  {
    assert ThreadOk(s, t) && SafeThread(s, t);
    var th := s.threads[t];
    var g := CollectionRows(s.cfg, th.id, th.snap, th.psp);
    GoLedger(s, t, c, th.id);
    TakeOneMore(g, th.k);
    assert DoGo(s, t, c).threads[t] in {Finished, th.(k := th.k + 1)};
  }

  lemma EntitledKept(s: State, s': State, t: nat, i: nat)
    requires Extends(s, s', t) && i < |s.intents| && IntentOk(s, i) && s.trace[i].att.Some?
    ensures Entitled(s', i) == Entitled(s, i) && s'.trace[i].att == s.trace[i].att
  {
    assert SameRow(s, s', t, i);
    var a := s.trace[i].att.value;
    assert SameAttempt(s.attempts[a], s'.attempts[a]);
  }

  /** The thread posting for i inserts the next row. */
  lemma GoIntentPost(s: State, t: nat, c: Choice, i: nat)
    requires Safe(s) && CanGo(s, t, c) && s.threads[t].Post? && s.threads[t].id == i
    requires i < |s.intents| && Extends(s, DoGo(s, t, c), t)
    ensures SafeIntent(DoGo(s, t, c), i)
  {
    var th := s.threads[t];
    var g := CollectionRows(s.cfg, i, th.snap, th.psp);
    assert ThreadOk(s, t) && SafeThread(s, t) && SafeIntent(s, i);
    GoLedger(s, t, c, i);
    assert g == Entitled(s, i) == Entitled(DoGo(s, t, c), i);
    TakeOneMore(g, th.k);
  }

  /** A webhook or query writes the outcome of i. */
  lemma GoIntentOutcome(s: State, t: nat, c: Choice, i: nat)
    requires Safe(s) && CanGo(s, t, c) && WritesOutcome(s.threads[t]) && s.threads[t].id == i
    requires i < |s.intents| && Extends(s, DoGo(s, t, c), t)
    ensures SafeIntent(DoGo(s, t, c), i)
  {
    var th := s.threads[t];
    assert ThreadOk(s, t) && SafeThread(s, t) && SafeIntent(s, i) && AttemptOk(s, th.aid);
    OutcomeEdges(th.snap.status);
  }

  /** Any other step leaves the rows of i alone and changes its status only before success. */
  lemma GoIntentOther(s: State, t: nat, c: Choice, i: nat)
    requires Safe(s) && CanGo(s, t, c) && i < |s.intents| && Extends(s, DoGo(s, t, c), t)
    requires !((s.threads[t].Post? || WritesOutcome(s.threads[t])) && s.threads[t].id == i)
    ensures SafeIntent(DoGo(s, t, c), i)
  {
    assert SafeIntent(s, i) && IntentOk(s, i);
    GoStatus(s, t, c, i);
    GoLedger(s, t, c, i);
    if s.trace[i].att.Some? {
      EntitledKept(s, DoGo(s, t, c), t, i);
    }
  }

  lemma NewIntent(s: State, t: nat, c: Choice, i: nat)
    requires Safe(s) && CanGo(s, t, c) && |s.intents| <= i < |DoGo(s, t, c).intents|
    ensures SafeIntent(DoGo(s, t, c), i)
  {
    NoRows(s.ledger, |s.intents|, i);
  }

  lemma {:induction false} NoRows(ledger: seq<Entry>, n: nat, i: nat)
    requires forall e :: e in ledger ==> e.refId < n
    requires n <= i
    ensures Rows(ledger, i) == []
  {
    if |ledger| == 0 {
    } else {
      NoRows(ledger[..|ledger| - 1], n, i);
      assert ledger[|ledger| - 1] in ledger;
    }
  }

  lemma SafeGo(s: State, t: nat, c: Choice)
    requires Safe(s) && CanGo(s, t, c) && Isolated(s, Go(t, c))
    ensures Safe(DoGo(s, t, c))
  {
    var s' := DoGo(s, t, c);
    BaseStep(s, Go(t, c));
    GoExtends(s, t, c);
    forall u | 0 <= u < |s'.threads| ensures SafeThread(s', u) {
      GoThread(s, t, c, u);
    }
    forall i | 0 <= i < |s'.intents| ensures SafeIntent(s', i) {
      GoIntent(s, t, c, i);
    }
    GoRefs(s, t, c);
  }

  lemma GoThread(s: State, t: nat, c: Choice, u: nat)
    requires Safe(s) && CanGo(s, t, c) && Isolated(s, Go(t, c)) && u < |DoGo(s, t, c).threads|
    ensures SafeThread(DoGo(s, t, c), u)
  {
    if u == t {
      if s.threads[t].Post? {
        PostingThread(s, t, c);
      } else {
        OwnThread(s, t, c);
      }
    } else if u < |s.threads| {
      OtherThread(s, t, c, u);
    }
  }

  lemma GoRefs(s: State, t: nat, c: Choice)
    requires Safe(s) && CanGo(s, t, c)
    ensures forall e :: e in DoGo(s, t, c).ledger ==> e.refId < |DoGo(s, t, c).intents|
  {
    assert ThreadOk(s, t);
    GoExtends(s, t, c);
  }

  lemma GoIntent(s: State, t: nat, c: Choice, i: nat)
    requires Safe(s) && CanGo(s, t, c) && i < |DoGo(s, t, c).intents| && Extends(s, DoGo(s, t, c), t)
    ensures SafeIntent(DoGo(s, t, c), i)
  {
    if i >= |s.intents| {
      NewIntent(s, t, c, i);
    } else if s.threads[t].Post? && s.threads[t].id == i {
      GoIntentPost(s, t, c, i);
    } else if WritesOutcome(s.threads[t]) && s.threads[t].id == i {
      GoIntentOutcome(s, t, c, i);
    } else {
      GoIntentOther(s, t, c, i);
    }
  }

  lemma SafeIdle(s: State, a: Action)
    requires Safe(s) && Enabled(s, a) && !a.Go?
    ensures Safe(Do(s, a))
  {
    var s' := Do(s, a);
    BaseStep(s, a);
    forall u | 0 <= u < |s'.threads| ensures SafeThread(s', u) {
      if u < |s.threads| {
        assert SafeThread(s, u);
      }
    }
    forall i | 0 <= i < |s'.intents| ensures SafeIntent(s', i) {
      assert SafeIntent(s, i);
    }
  }

  lemma SafeStep(s: State, a: Action)
    requires Safe(s) && Enabled(s, a) && Isolated(s, a)
    ensures Safe(Do(s, a))
  {
    match a
    case Go(t, c) => SafeGo(s, t, c);
    case _ => SafeIdle(s, a);
  }

  lemma {:induction false} SafeRun(s: State, run: seq<Action>)
    requires Safe(s) && Legal(s, run) && IsolatedRun(s, run)
    ensures Safe(Exec(s, run))
    decreases |run|
  {
    if |run| == 0 {
    } else {
      SafeStep(s, run[0]);
      SafeRun(Do(s, run[0]), run[1..]);
    }
  }

  // ---- Main results ----

  lemma SuccessStep(s: State, a: Action, i: nat)
    requires Safe(s) && Enabled(s, a) && i < |s.intents| && s.intents[i].status == Succeeded
    ensures i < |Do(s, a).intents| && Do(s, a).intents[i].status == Succeeded
  {
    if a.Go? {
      GoExtends(s, a.t, a.c);
      GoStatus(s, a.t, a.c, i);
      OutcomeEdges(Succeeded);
    }
  }

  /** However creations, delayed queries and duplicated, reordered or crashing webhooks interleave,
      an intent that has succeeded stays succeeded. */
  lemma {:induction false} SucceededForever(s: State, run: seq<Action>, i: nat)
    requires Safe(s) && Legal(s, run) && IsolatedRun(s, run)
    requires i < |s.intents| && s.intents[i].status == Succeeded
    ensures i < |Exec(s, run).intents| && Exec(s, run).intents[i].status == Succeeded
    decreases |run|
  {
    if |run| == 0 {
    } else {
      SuccessStep(s, run[0], i);
      SafeStep(s, run[0]);
      SucceededForever(Do(s, run[0]), run[1..], i);
    }
  }

  /** From the empty database, at the end of every isolated run: an intent that has not succeeded
      has no ledger row; one that has succeeded owns a prefix of one collection of its own amount,
      fee and provider; and that prefix is the whole collection exactly when the thread that wrote
      the success has run to its end, whatever other threads did. Short of it, that thread is still
      posting or has stopped. */
  lemma CollectedOnceIffSucceeded(cfg: FeeConfig, run: seq<Action>, i: nat)
    requires Legal(Init(cfg), run) && IsolatedRun(Init(cfg), run)
    requires i < |Exec(Init(cfg), run).intents|
    ensures var s := Exec(Init(cfg), run);
            Row(s, i) &&
            (Rows(s.ledger, i) != [] ==> s.intents[i].status == Succeeded) &&
            Rows(s.ledger, i) <= Entitled(s, i) &&
            (s.intents[i].status == Succeeded ==>
               |Entitled(s, i)| >= 2 &&
               (Rows(s.ledger, i) == Entitled(s, i) <==> Posted(s, i)) &&
               (Rows(s.ledger, i) != Entitled(s, i) <==> Posting(s, i)))
  {
    SafeRun(Init(cfg), run);
    assert SafeIntent(Exec(Init(cfg), run), i) && IntentOk(Exec(Init(cfg), run), i);
  }

  /** The status of an intent moves only along edges of the transition table to an outcome, except
      that the creation's own late write may overwrite `created` or `failed`: it never meets
      `succeeded`, because the table has no edge from `created` to it. */
  lemma StatusFollowsTable(s: State, a: Action, i: nat)
    requires Safe(s) && Enabled(s, a) && i < |s.intents|
    ensures i < |Do(s, a).intents|
    ensures var from, to := s.intents[i].status, Do(s, a).intents[i].status;
            from != to ==>
              IsValidTransition(from, to) ||
              (from == Failed && to in {RequiresAction, Processing} &&
               a.Go? && s.trace[i].creator == a.t && s.threads[a.t].CWrite?)
  {
    if a.Go? {
      GoExtends(s, a.t, a.c);
      GoStatus(s, a.t, a.c, i);
      assert ThreadOk(s, a.t);
    }
  }
}
