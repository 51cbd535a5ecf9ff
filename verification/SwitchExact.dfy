/** The switch as coded, with no assumption on how threads interleave: exactly when an outcome, a
    collection count, the rows of an intent or a lost charge are final. */
module SwitchExact {
  import opened Domain
  import opened StateTable
  import opened Sums
  import opened Ledger
  import opened Fees
  import opened Switch
  import opened SwitchSafety
  import opened SwitchAsCoded
  import opened SwitchAtomic
  import opened SwitchFinality
  import opened SwitchRaces

  lemma ReachableIsBase(s: State, s': State)
    requires Base(s) && Reaches(s, s')
    ensures Base(s')
  {
    var run :| Legal(s, run) && Exec(s, run) == s';
    BaseRun(s, run);
  }

  lemma ReachableIsTerminal(s: State, s': State, i: nat)
    requires Base(s) && Terminal(s, i) && Reaches(s, s')
    ensures Terminal(s', i) && Potential(s', i) <= Potential(s, i)
  {
    var run :| Legal(s, run) && Exec(s, run) == s';
    OutcomeForever(s, run, i);
  }

  // ---- What a webhook past its check can still do ----

  lemma OneStep(s: State, t: nat, c: Choice)
    requires CanGo(s, t, c)
    ensures Reaches(s, DoGo(s, t, c))
  {
    Stay(s);
    Arrive(s, s, Go(t, c));
  }

  predicate Wrote(s: State, s': State, t: nat, th: Thread)
    requires t < |s.threads| && Holding(th)
  {
    Row(s', th.id) && s'.intents[th.id].status == th.to && s'.ledger == s.ledger && s'.cfg == s.cfg &&
    s'.threads == s.threads[t := if th.to == Succeeded then Post(th.id, th.snap, th.psp, 0) else Finished]
  }

  /** It can write its outcome, whatever the status is by now. */
  lemma CanWrite(s: State, t: nat) returns (s': State)
    requires Base(s) && t < |s.threads| && Holding(s.threads[t])
    ensures Reaches(s, s') && Base(s') && Wrote(s, s', t, s.threads[t])
  {
    var th, c := s.threads[t], Ready();
    assert ThreadOk(s, t);
    var s1 := DoGo(s, t, c);
    OneStep(s, t, c);
    s' := s1;
    if th.WAttempt? {
      assert s1.threads[t] == WWrite(th.aid, th.id, th.snap, th.psp, th.to);
      s' := DoGo(s1, t, c);
      OneStep(s1, t, c);
      ReachesTrans(s, s1, s');
    }
    ReachableIsBase(s, s');
  }

  predicate Inserted(s: State, s': State, t: nat)
    requires t < |s.threads| && s.threads[t].Post?
  {
    var th := s.threads[t];
    th.k < |CollectionRows(s.cfg, th.id, th.snap, th.psp)| && t < |s'.threads| &&
    s'.ledger == s.ledger + [CollectionRows(s.cfg, th.id, th.snap, th.psp)[th.k]] &&
    s'.threads == s.threads[t := s'.threads[t]] &&
    (s'.threads[t].Finished? || (s'.threads[t].Post? && s'.threads[t].k > 0))
  }

  /** A posting thread can insert its next row. */
  lemma CanInsert(s: State, t: nat) returns (s': State)
    requires Base(s) && t < |s.threads| && s.threads[t].Post?
    ensures Reaches(s, s') && Base(s') && Inserted(s, s', t)
  {
    var th, c := s.threads[t], Ready();
    assert ThreadOk(s, t) && IntentOk(s, th.id);
    RowsPositive(s.cfg, th.id, th.snap, th.psp);
    s' := DoGo(s, t, c);
    OneStep(s, t, c);
    ReachableIsBase(s, s');
  }

  lemma InsertedCounts(s: State, s': State, t: nat, i: nat)
    requires t < |s.threads| && s.threads[t].Post? && s.threads[t].id == i && Inserted(s, s', t)
    ensures Sum(s'.ledger, Begun(i)) == Sum(s.ledger, Begun(i)) + if s.threads[t].k == 0 then 1 else 0
    ensures |Rows(s'.ledger, i)| == |Rows(s.ledger, i)| + 1
  {
    var th := s.threads[t];
    var e := CollectionRows(s.cfg, th.id, th.snap, th.psp)[th.k];
    GroupBegins(th.snap.merchant, th.id, th.psp, th.snap.amount, th.snap.currency, ComputeFee(s.cfg, th.snap.amount),
                th.k, i);
    SumAppend(s.ledger, e, Begun(i));
    RowsAppend(s.ledger, e, i);
  }

  /** A thread that may post for i can add a row, and one that may begin a collection begins one. */
  lemma CanPostFor(s: State, t: nat, i: nat) returns (s': State)
    requires Base(s) && t < |s.threads| && MayPost(s.threads[t], i)
    ensures Reaches(s, s') && Base(s') && t < |s'.threads| && s'.threads == s.threads[t := s'.threads[t]]
    ensures |Rows(s'.ledger, i)| == |Rows(s.ledger, i)| + 1 && !MayBegin(s'.threads[t], i)
    ensures MayBegin(s.threads[t], i) ==> Sum(s'.ledger, Begun(i)) == Sum(s.ledger, Begun(i)) + 1
  {
    if s.threads[t].Post? {
      s' := CanInsert(s, t);
      InsertedCounts(s, s', t, i);
    } else {
      var s1 := CanWrite(s, t);
      s' := CanInsert(s1, t);
      InsertedCounts(s1, s', t, i);
      ReachesTrans(s, s1, s');
    }
  }

  // ---- How many collections ----

  lemma SomeoneMayBegin(s: State, i: nat) returns (t: nat)
    requires Sum(s.threads, InFlight(i)) > 0
    ensures t < |s.threads| && MayBegin(s.threads[t], i)
  {
    if forall u :: 0 <= u < |s.threads| ==> !MayBegin(s.threads[u], i) {
      SumZero(s.threads, InFlight(i));
    }
    t :| 0 <= t < |s.threads| && MayBegin(s.threads[t], i);
  }

  /** Every handler that may begin a collection can be let to, one after the other. */
  lemma {:induction false} AllBegin(s: State, i: nat) returns (s': State)
    requires Base(s) && Terminal(s, i)
    ensures Reaches(s, s') && Sum(s'.ledger, Begun(i)) == Potential(s, i)
    decreases Sum(s.threads, InFlight(i))
  {
    SumNonNegative(s.threads, InFlight(i));
    if Sum(s.threads, InFlight(i)) == 0 {
      Stay(s);
      s' := s;
    } else {
      var t := SomeoneMayBegin(s, i);
      var s1 := CanPostFor(s, t, i);
      SumUpdate(s.threads, t, s1.threads[t], InFlight(i));
      ReachableIsTerminal(s, s1, i);
      s' := AllBegin(s1, i);
      ReachesTrans(s, s1, s');
    }
  }

  /** Once creation has returned and the intent has an outcome, at most n collections are ever begun
      for it, in whatever run, exactly when those begun so far and the handlers that may begin one
      now are at most n together. */
  lemma CollectionsAtMostIff(s: State, i: nat, n: int)
    requires Base(s) && Terminal(s, i)
    ensures (forall s' :: Reaches(s, s') ==> Sum(s'.ledger, Begun(i)) <= n) <==>
            Sum(s.ledger, Begun(i)) + Sum(s.threads, InFlight(i)) <= n
  {
    if Potential(s, i) <= n {
      forall s' | Reaches(s, s') ensures Sum(s'.ledger, Begun(i)) <= n {
        ReachableIsTerminal(s, s', i);
        SumNonNegative(s'.threads, InFlight(i));
      }
    } else {
      var s' := AllBegin(s, i);
    }
  }

  /** An intent that waits or has its outcome is collected at most once, in whatever run, exactly when
      it has its outcome and that count is at most one: while it waits, two collections are always
      possible. */
  lemma CollectedOnceIff(s: State, i: nat, a: nat)
    requires Base(s) && (Waiting(s, i, a) || Terminal(s, i))
    ensures (forall s' :: Reaches(s, s') ==> Sum(s'.ledger, Begun(i)) <= 1) <==>
            Terminal(s, i) && Sum(s.ledger, Begun(i)) + Sum(s.threads, InFlight(i)) <= 1
  {
    if Terminal(s, i) {
      CollectionsAtMostIff(s, i, 1);
    } else {
      TwoCollections(s, i, a);
      SumNonNegative(s.ledger, Begun(i));
    }
  }

  // ---- Which outcome ----

  /** A webhook past its check for the other outcome. */
  predicate Flips(th: Thread, i: nat, x: PIStatus) {
    Holding(th) && th.id == i && th.to != x
  }

  ghost predicate NoFlips(s: State, i: nat) {
    Row(s, i) && forall u :: 0 <= u < |s.threads| ==> !Flips(s.threads[u], i, s.intents[i].status)
  }

  lemma NoFlipsStatus(s: State, t: nat, c: Choice, i: nat)
    requires Base(s) && Terminal(s, i) && NoFlips(s, i) && CanGo(s, t, c)
    ensures Row(DoGo(s, t, c), i) && DoGo(s, t, c).intents[i].status == s.intents[i].status
  {
    assert ThreadOk(s, t) && !Flips(s.threads[t], i, s.intents[i].status);
  }

  lemma NoFlipsThread(s: State, t: nat, c: Choice, i: nat)
    requires Base(s) && Terminal(s, i) && NoFlips(s, i) && CanGo(s, t, c)
    ensures !Flips(DoGo(s, t, c).threads[t], i, s.intents[i].status)
  {
    assert ThreadOk(s, t) && !Flips(s.threads[t], i, s.intents[i].status);
    OutcomeEdges(s.intents[i].status);
  }

  lemma NoFlipsStep(s: State, a: Action, i: nat)
    requires Base(s) && Terminal(s, i) && NoFlips(s, i) && Enabled(s, a)
    ensures NoFlips(Do(s, a), i) && Do(s, a).intents[i].status == s.intents[i].status
  {
    if a.Go? {
      NoFlipsStatus(s, a.t, a.c, i);
      NoFlipsThread(s, a.t, a.c, i);
      ThreadsAfter(s, a.t, a.c);
    }
  }

  lemma {:induction false} NoFlipsRun(s: State, run: seq<Action>, i: nat)
    requires Base(s) && Terminal(s, i) && NoFlips(s, i) && Legal(s, run)
    ensures Row(Exec(s, run), i) && Exec(s, run).intents[i].status == s.intents[i].status
    decreases |run|
  {
    if |run| == 0 {
    } else {
      BaseStep(s, run[0]);
      TerminalStep(s, run[0], i);
      NoFlipsStep(s, run[0], i);
      NoFlipsRun(Do(s, run[0]), run[1..], i);
    }
  }

  ghost predicate StaysForever(s: State, i: nat)
    requires Row(s, i)
  {
    forall s' :: Reaches(s, s') ==> Row(s', i) && s'.intents[i].status == s.intents[i].status
  }

  lemma FlipsIsPossible(s: State, i: nat)
    requires Base(s) && Row(s, i) && !NoFlips(s, i)
    ensures !StaysForever(s, i)
  {
    var t :| 0 <= t < |s.threads| && Flips(s.threads[t], i, s.intents[i].status);
    var s' := CanWrite(s, t);
    assert Reaches(s, s') && s'.intents[i].status != s.intents[i].status;
  }

  /** Once creation has returned, `succeeded` stays `succeeded` in every run exactly when no webhook is
      past its check for `failed`, and `failed` stays `failed` exactly when none is past its check for
      `succeeded`. */
  lemma OutcomeStaysIff(s: State, i: nat)
    requires Base(s) && Terminal(s, i)
    ensures StaysForever(s, i) <==> NoFlips(s, i)
  {
    if NoFlips(s, i) {
      forall s' | Reaches(s, s') ensures Row(s', i) && s'.intents[i].status == s.intents[i].status {
        var run :| Legal(s, run) && Exec(s, run) == s';
        NoFlipsRun(s, run, i);
      }
    } else {
      FlipsIsPossible(s, i);
    }
  }

  // ---- Failure while creation is under way ----

  predicate Early(th: Thread) {
    th.CStore? || th.CCall? || th.CFail? || th.CAttempt?
  }

  /** Before its attempt is in, creation finds its intent as it left it. */
  predicate EarlyOk(s: State, u: nat)
    requires u < |s.threads|
  {
    Early(s.threads[u]) ==> Row(s, s.threads[u].id) && s.intents[s.threads[u].id].status == Created
  }

  ghost predicate Fresh(s: State) {
    Base(s) && forall u :: 0 <= u < |s.threads| ==> EarlyOk(s, u)
  }

  lemma EarlyOwn(s: State, t: nat, c: Choice)
    requires Fresh(s) && CanGo(s, t, c)
    ensures EarlyOk(DoGo(s, t, c), t)
  {
    assert ThreadOk(s, t) && EarlyOk(s, t);
  }

  lemma EarlyOther(s: State, t: nat, c: Choice, u: nat)
    requires Fresh(s) && CanGo(s, t, c) && u < |s.threads| && u != t
    ensures EarlyOk(DoGo(s, t, c), u)
  {
    GoExtends(s, t, c);
    if Early(s.threads[u]) {
      assert EarlyOk(s, u) && ThreadOk(s, u) && ThreadOk(s, t);
      assert WritesOutcome(s.threads[t]) ==> AttemptOk(s, s.threads[t].aid);
    }
  }

  lemma FreshStep(s: State, a: Action)
    requires Fresh(s) && Enabled(s, a)
    ensures Fresh(Do(s, a))
  {
    BaseStep(s, a);
    forall u | 0 <= u < |Do(s, a).threads| ensures EarlyOk(Do(s, a), u) {
      if a.Go? {
        ThreadsAfter(s, a.t, a.c);
        if u == a.t {
          EarlyOwn(s, u, a.c);
        } else if u < |s.threads| {
          EarlyOther(s, a.t, a.c, u);
        }
      } else {
        assert u < |s.threads| ==> EarlyOk(s, u);
      }
    }
  }

  /** All that the switch reaches from the empty database is so. */
  lemma {:induction false} FreshRun(s: State, run: seq<Action>)
    requires Fresh(s) && Legal(s, run)
    ensures Fresh(Exec(s, run))
    decreases |run|
  {
    if |run| == 0 {
    } else {
      FreshStep(s, run[0]);
      FreshRun(Do(s, run[0]), run[1..]);
    }
  }

  /** A failed intent stays failed in every run exactly when creation is not about to make its own last
      write and no webhook is past its check for `succeeded`. */
  lemma FailedIsFinalIff(s: State, i: nat)
    requires Fresh(s) && Row(s, i) && s.intents[i].status == Failed
    ensures StaysForever(s, i) <==> !LateWrite(s, i) && NoFlips(s, i)
  {
    assert IntentOk(s, i) && EarlyOk(s, s.trace[i].creator);
    if LateWrite(s, i) {
      var t := s.trace[i].creator;
      OneStep(s, t, Ready());
      assert Reaches(s, DoGo(s, t, Ready())) && DoGo(s, t, Ready()).intents[i].status != Failed;
    } else {
      OutcomeStaysIff(s, i);
    }
  }

  // ---- The rows of an intent ----

  /** Once creation has returned and the intent has an outcome, its rows, whether none, some or all of a
      collection, never change exactly when no webhook is past its check for success and no handler is
      posting: no redelivery, query or late write ever adds a row. */
  lemma RowsAreFinalIff(s: State, i: nat)
    requires Base(s) && Terminal(s, i)
    ensures (forall s' :: Reaches(s, s') ==> Rows(s'.ledger, i) == Rows(s.ledger, i)) <==> NoPoster(s, i)
  {
    if NoPoster(s, i) {
      forall s' | Reaches(s, s') ensures Rows(s'.ledger, i) == Rows(s.ledger, i) {
        var run :| Legal(s, run) && Exec(s, run) == s';
        RowsAreFinal(s, run, i);
      }
    } else {
      var t :| 0 <= t < |s.threads| && MayPost(s.threads[t], i);
      var s' := CanPostFor(s, t, i);
      assert Reaches(s, s') && Rows(s'.ledger, i) != Rows(s.ledger, i);
    }
  }

  // ---- A charge that is never recorded ----

  /** The collection was requested, and nothing in the tables says so. */
  predicate Unrecorded(s: State, i: nat) {
    Row(s, i) && s.intents[i].status == Created && s.trace[i].att == None && s.trace[i].issued == 1
  }

  /** Creation has the provider's answer and is about to record it. */
  predicate Recording(s: State, i: nat) {
    Row(s, i) && s.trace[i].creator < |s.threads| &&
    var th := s.threads[s.trace[i].creator];
    (th.CAttempt? || th.CFail?) && th.id == i
  }

  lemma UnrecordedRow(s: State, t: nat, c: Choice, i: nat)
    requires Base(s) && Unrecorded(s, i) && !Recording(s, i) && CanGo(s, t, c)
    ensures Unrecorded(DoGo(s, t, c), i) && DoGo(s, t, c).trace[i].creator == s.trace[i].creator
  {
    if Creating(s.threads[t]) {
      UnrecordedCreating(s, t, c, i);
    } else {
      UnrecordedConfirming(s, t, c, i);
    }
  }

  lemma UnrecordedCreating(s: State, t: nat, c: Choice, i: nat)
    requires Base(s) && Unrecorded(s, i) && !Recording(s, i) && CanGo(s, t, c) && Creating(s.threads[t])
    ensures Unrecorded(DoGo(s, t, c), i) && DoGo(s, t, c).trace[i].creator == s.trace[i].creator
  {
    assert ThreadOk(s, t) && (s.threads[t].CWrite? ==> AttemptOk(s, s.threads[t].aid));
  }

  lemma UnrecordedConfirming(s: State, t: nat, c: Choice, i: nat)
    requires Base(s) && Unrecorded(s, i) && CanGo(s, t, c) && !Creating(s.threads[t])
    ensures Unrecorded(DoGo(s, t, c), i) && DoGo(s, t, c).trace[i].creator == s.trace[i].creator
  {
    assert ThreadOk(s, t) && (WritesOutcome(s.threads[t]) ==> AttemptOk(s, s.threads[t].aid));
  }

  lemma UnrecordedRows(s: State, t: nat, c: Choice, i: nat)
    requires Base(s) && Unrecorded(s, i) && CanGo(s, t, c)
    ensures Rows(DoGo(s, t, c).ledger, i) == Rows(s.ledger, i)
  {
    assert ThreadOk(s, t);
    if s.threads[t].Post? {
      var th := s.threads[t];
      RowsAppend(s.ledger, CollectionRows(s.cfg, th.id, th.snap, th.psp)[th.k], i);
    }
  }

  lemma NotRecordingAfter(s: State, t: nat, c: Choice, i: nat)
    requires Base(s) && Unrecorded(s, i) && !Recording(s, i) && CanGo(s, t, c)
    ensures !Recording(DoGo(s, t, c), i)
  {
    assert ThreadOk(s, t) && IntentOk(s, i);
    GoExtends(s, t, c);
    assert SameRow(s, DoGo(s, t, c), t, i);
  }

  lemma UnrecordedStep(s: State, a: Action, i: nat)
    requires Base(s) && Unrecorded(s, i) && !Recording(s, i) && Enabled(s, a)
    ensures Unrecorded(Do(s, a), i) && !Recording(Do(s, a), i)
    ensures Rows(Do(s, a).ledger, i) == Rows(s.ledger, i)
  {
    assert IntentOk(s, i);
    if a.Go? {
      UnrecordedRow(s, a.t, a.c, i);
      UnrecordedRows(s, a.t, a.c, i);
      NotRecordingAfter(s, a.t, a.c, i);
    }
  }

  lemma {:induction false} UnrecordedForever(s: State, run: seq<Action>, i: nat)
    requires Base(s) && Unrecorded(s, i) && !Recording(s, i) && Legal(s, run)
    ensures Unrecorded(Exec(s, run), i) && Rows(Exec(s, run).ledger, i) == Rows(s.ledger, i)
    decreases |run|
  {
    if |run| == 0 {
    } else {
      UnrecordedStep(s, run[0], i);
      BaseStep(s, run[0]);
      UnrecordedForever(Do(s, run[0]), run[1..], i);
    }
  }

  /** A collection request that nothing records yet stays unrecorded in every run, the intent `created`
      and without an attempt for any webhook to find, exactly when creation is no longer about to
      record its answer. */
  lemma LostChargeIff(s: State, i: nat)
    requires Base(s) && Unrecorded(s, i)
    ensures (forall s' :: Reaches(s, s') ==> Unrecorded(s', i)) <==> !Recording(s, i)
  {
    if Recording(s, i) {
      var t := s.trace[i].creator;
      OneStep(s, t, Ready());
      assert Reaches(s, DoGo(s, t, Ready())) && !Unrecorded(DoGo(s, t, Ready()), i);
    } else {
      forall s' | Reaches(s, s') ensures Unrecorded(s', i) {
        var run :| Legal(s, run) && Exec(s, run) == s';
        UnrecordedForever(s, run, i);
      }
    }
  }

  /** Every valid request can get there: the provider accepts and creation stops before its insert. */
  lemma LostChargeIsReachable(cfg: FeeConfig, req: Request)
    requires Valid(req)
    ensures exists s :: ReachesAtomically(Init(cfg), s) && Unrecorded(s, 0) && !Recording(s, 0)
  {
    var s := Called(cfg, req);
    ReachCalled(cfg, req);
    Next(Init(cfg), s, Stop(0));
    var s' := Do(s, Stop(0));
    assert s'.threads == [Stopped];
    assert ReachesAtomically(Init(cfg), s') && Unrecorded(s', 0) && !Recording(s', 0);
  }
}
