/** What the switch guarantees as coded, with every handler split at each database call and no
    assumption on how threads interleave. */
module SwitchAsCoded {
  import opened Domain
  import opened StateTable
  import opened Sums
  import opened Ledger
  import opened Fees
  import opened Switch
  import opened SwitchSafety

  /** The creation of i has returned or stopped, and i has an outcome. */
  predicate Terminal(s: State, i: nat) {
    Row(s, i) && s.intents[i].status in {Succeeded, Failed} &&
    s.trace[i].creator < |s.threads| &&
    !(BeforeWrite(s.threads[s.trace[i].creator]) && s.threads[s.trace[i].creator].id == i)
  }

  /** 1 for the first row of each collection group of i. */
  function Begun(i: nat): Entry -> int {
    (e: Entry) => if e.refId == i && e.refType == AttemptRef && e.side == Debit then 1 else 0
  }

  /** A webhook past its check for success, or a handler before its first row. A delayed query is none
      of these: once there is an outcome its compare-and-set fails. */
  predicate MayBegin(th: Thread, i: nat) {
    (Holding(th) && th.id == i && th.to == Succeeded) || (th.Post? && th.id == i && th.k == 0)
  }

  /** 1 for a handler already past its read of i that may still begin a collection group. */
  function InFlight(i: nat): Thread -> int {
    (th: Thread) => if MayBegin(th, i) then 1 else 0
  }

  /** Collection groups of i begun so far, plus the handlers that may still begin one. */
  function Potential(s: State, i: nat): int {
    Sum(s.ledger, Begun(i)) + Sum(s.threads, InFlight(i))
  }

  lemma TerminalGo(s: State, t: nat, c: Choice, i: nat)
    requires Base(s) && Terminal(s, i) && CanGo(s, t, c)
    requires Extends(s, DoGo(s, t, c), t)
    ensures Terminal(DoGo(s, t, c), i)
  {
    assert SameRow(s, DoGo(s, t, c), t, i);
    if Creating(s.threads[t]) {
      CreatingTerminal(s, t, c, i);
    } else {
      ConfirmingTerminal(s, t, c, i);
    }
  }

  lemma CreatingTerminal(s: State, t: nat, c: Choice, i: nat)
    requires Base(s) && Terminal(s, i) && CanGo(s, t, c) && Creating(s.threads[t])
    ensures Terminal(DoGo(s, t, c), i)
  {
    assert ThreadOk(s, t);
  }

  lemma ConfirmingTerminal(s: State, t: nat, c: Choice, i: nat)
    requires Base(s) && Terminal(s, i) && CanGo(s, t, c) && !Creating(s.threads[t])
    ensures Terminal(DoGo(s, t, c), i)
  {
    assert ThreadOk(s, t);
  }

  lemma CreatorPotential(s: State, t: nat, c: Choice, i: nat)
    requires CanGo(s, t, c) && Creating(s.threads[t])
    ensures DoGo(s, t, c).ledger == s.ledger && InFlight(i)(DoGo(s, t, c).threads[t]) == 0
  {
  }

  /** A handler that is to confirm an outcome does not become able to begin a group of i. */
  lemma ConfirmPotential(s: State, t: nat, c: Choice, i: nat)
    requires Base(s) && Terminal(s, i) && CanGo(s, t, c) && !Creating(s.threads[t]) && !s.threads[t].Post?
    ensures DoGo(s, t, c).ledger == s.ledger
    ensures InFlight(i)(DoGo(s, t, c).threads[t]) <= InFlight(i)(s.threads[t])
  {
    assert ThreadOk(s, t);
    OutcomeEdges(s.intents[i].status);
  }

  lemma ThreadsAfter(s: State, t: nat, c: Choice)
    requires CanGo(s, t, c)
    ensures var s' := DoGo(s, t, c);
            s'.threads == s.threads[t := s'.threads[t]] ||
            (|s'.threads| == |s.threads| + 1 && s'.threads[|s.threads|].QRead? &&
             s'.threads == s.threads[t := s'.threads[t]] + [s'.threads[|s.threads|]])
  {
  }

  /** The first row of a group, and no other, marks its beginning. */
  lemma GroupBegins(m: string, id: nat, psp: string, amount: int, currency: string, fee: int, k: nat, i: nat)
    requires k < |CollectionGroup(m, id, psp, amount, currency, fee)|
    ensures Begun(i)(CollectionGroup(m, id, psp, amount, currency, fee)[k]) == if k == 0 && id == i then 1 else 0
  {
  }

  lemma PostPotential(s: State, t: nat, c: Choice, i: nat)
    requires CanGo(s, t, c) && s.threads[t].Post?
    ensures Sum(DoGo(s, t, c).ledger, Begun(i)) + InFlight(i)(DoGo(s, t, c).threads[t])
         <= Sum(s.ledger, Begun(i)) + InFlight(i)(s.threads[t])
  {
    var th := s.threads[t];
    var e := CollectionRows(s.cfg, th.id, th.snap, th.psp)[th.k];
    GroupBegins(th.snap.merchant, th.id, th.psp, th.snap.amount, th.snap.currency, ComputeFee(s.cfg, th.snap.amount),
                th.k, i);
    SumAppend(s.ledger, e, Begun(i));
    assert DoGo(s, t, c).ledger == s.ledger + [e];
  }

  /** The step of thread t as far as ledger and thread are concerned. */
  lemma OwnPotential(s: State, t: nat, c: Choice, i: nat)
    requires Base(s) && Terminal(s, i) && CanGo(s, t, c)
    ensures Sum(DoGo(s, t, c).ledger, Begun(i)) + InFlight(i)(DoGo(s, t, c).threads[t])
         <= Sum(s.ledger, Begun(i)) + InFlight(i)(s.threads[t])
  {
    if s.threads[t].Post? {
      PostPotential(s, t, c, i);
    } else if Creating(s.threads[t]) {
      CreatorPotential(s, t, c, i);
    } else {
      ConfirmPotential(s, t, c, i);
    }
  }

  lemma ThreadsPotential(s: State, t: nat, c: Choice, i: nat)
    requires CanGo(s, t, c)
    ensures Sum(DoGo(s, t, c).threads, InFlight(i)) ==
            Sum(s.threads, InFlight(i)) - InFlight(i)(s.threads[t]) + InFlight(i)(DoGo(s, t, c).threads[t])
  {
    var s', f := DoGo(s, t, c), InFlight(i);
    SumUpdate(s.threads, t, s'.threads[t], f);
    ThreadsAfter(s, t, c);
    if |s'.threads| == |s.threads| + 1 {
      SumAppend(s.threads[t := s'.threads[t]], s'.threads[|s.threads|], f);
    }
  }

  lemma GoPotential(s: State, t: nat, c: Choice, i: nat)
    requires Base(s) && Terminal(s, i) && CanGo(s, t, c)
    ensures Potential(DoGo(s, t, c), i) <= Potential(s, i)
  {
    OwnPotential(s, t, c, i);
    ThreadsPotential(s, t, c, i);
  }

  lemma TerminalStep(s: State, a: Action, i: nat)
    requires Base(s) && Terminal(s, i) && Enabled(s, a)
    ensures Terminal(Do(s, a), i) && Potential(Do(s, a), i) <= Potential(s, i)
  {
    match a
    case Go(t, c) =>
      GoExtends(s, t, c);
      TerminalGo(s, t, c, i);
      GoPotential(s, t, c, i);
    case Spawn(th) => SumAppend(s.threads, th, InFlight(i));
    case Stop(t) => SumUpdate(s.threads, t, Stopped, InFlight(i));
    case Forget(_) =>
  }

  /** Once creation has returned and the intent has an outcome, it keeps one of the two outcomes
      forever, and the collection groups ever begun for it are at most those begun by then plus the
      handlers that had already read the intent by then. */
  lemma {:induction false} OutcomeForever(s: State, run: seq<Action>, i: nat)
    requires Base(s) && Terminal(s, i) && Legal(s, run)
    ensures Terminal(Exec(s, run), i)
    ensures Potential(Exec(s, run), i) <= Potential(s, i)
    ensures Sum(Exec(s, run).ledger, Begun(i)) <= Sum(s.ledger, Begun(i)) + Sum(s.threads, InFlight(i))
    decreases |run|
  {
    if |run| == 0 {
      SumNonNegative(s.threads, InFlight(i));
    } else {
      BaseStep(s, run[0]);
      TerminalStep(s, run[0], i);
      OutcomeForever(Do(s, run[0]), run[1..], i);
    }
  }

  /** A handler that reads the intent after that changes no table. */
  lemma LateReaderIsHarmless(s: State, t: nat, c: Choice, i: nat)
    requires Base(s) && Terminal(s, i) && CanGo(s, t, c)
    requires (s.threads[t].WRead? && s.attempts[s.threads[t].aid].pi == i) ||
             (s.threads[t].QRead? && s.threads[t].id == i)
    ensures DoGo(s, t, c) == Goto(s, t, DoGo(s, t, c).threads[t])
    ensures DoGo(s, t, c).threads[t] in {Finished, Stopped}
  {
    OutcomeEdges(s.intents[i].status);
  }

  /** The handler may still add a row for i. */
  predicate MayPost(th: Thread, i: nat) {
    MayBegin(th, i) || (th.Post? && th.id == i)
  }

  ghost predicate NoPoster(s: State, i: nat) {
    forall u :: 0 <= u < |s.threads| ==> !MayPost(s.threads[u], i)
  }

  lemma OwnPoster(s: State, t: nat, c: Choice, i: nat)
    requires Base(s) && Terminal(s, i) && CanGo(s, t, c) && !MayPost(s.threads[t], i)
    ensures !MayPost(DoGo(s, t, c).threads[t], i)
  {
    if Creating(s.threads[t]) {
      CreatorPosts(s, t, c, i);
    } else {
      ConfirmPosts(s, t, c, i);
    }
  }

  lemma CreatorPosts(s: State, t: nat, c: Choice, i: nat)
    requires CanGo(s, t, c) && Creating(s.threads[t])
    ensures !MayPost(DoGo(s, t, c).threads[t], i)
  {
  }

  lemma ConfirmPosts(s: State, t: nat, c: Choice, i: nat)
    requires Base(s) && Terminal(s, i) && CanGo(s, t, c) && !Creating(s.threads[t]) && !MayPost(s.threads[t], i)
    ensures !MayPost(DoGo(s, t, c).threads[t], i)
  {
    assert ThreadOk(s, t);
    OutcomeEdges(s.intents[i].status);
  }

  lemma RowsWithoutPoster(s: State, t: nat, c: Choice, i: nat)
    requires CanGo(s, t, c) && !MayPost(s.threads[t], i)
    ensures Rows(DoGo(s, t, c).ledger, i) == Rows(s.ledger, i)
  {
    if s.threads[t].Post? {
      var th := s.threads[t];
      RowsAppend(s.ledger, CollectionRows(s.cfg, th.id, th.snap, th.psp)[th.k], i);
    }
  }

  lemma NoPosterGo(s: State, t: nat, c: Choice, i: nat)
    requires Base(s) && Terminal(s, i) && CanGo(s, t, c) && NoPoster(s, i)
    ensures NoPoster(DoGo(s, t, c), i) && Rows(DoGo(s, t, c).ledger, i) == Rows(s.ledger, i)
  {
    OwnPoster(s, t, c, i);
    RowsWithoutPoster(s, t, c, i);
    ThreadsAfter(s, t, c);
  }

  /** Once the intent has an outcome and no webhook past its check or posting handler can add a row for it, its rows are
      final, whether they are none, part of a collection or all of it: no redelivery, query or late
      write ever adds one. No isolation is assumed. */
  lemma {:induction false} RowsAreFinal(s: State, run: seq<Action>, i: nat)
    requires Base(s) && Terminal(s, i) && NoPoster(s, i) && Legal(s, run)
    ensures Rows(Exec(s, run).ledger, i) == Rows(s.ledger, i)
    decreases |run|
  {
    if |run| == 0 {
    } else {
      var s' := Do(s, run[0]);
      BaseStep(s, run[0]);
      TerminalStep(s, run[0], i);
      if run[0].Go? {
        NoPosterGo(s, run[0].t, run[0].c, i);
      }
      RowsAreFinal(s', run[1..], i);
    }
  }

  // ---- What a row says ----

  /** Every row names an intent and carries that intent's currency, in a collection or its fee. */
  ghost predicate Labelled(s: State) {
    forall e :: e in s.ledger ==>
      e.refId < |s.intents| && e.currency == s.intents[e.refId].currency && e.refType in {AttemptRef, FeeRef}
  }

  lemma LabelledStep(s: State, a: Action)
    requires Base(s) && Labelled(s) && Enabled(s, a)
    ensures Labelled(Do(s, a))
  {
    if a.Go? {
      assert ThreadOk(s, a.t);
      GoExtends(s, a.t, a.c);
      var s' := Do(s, a);
      forall e | e in s.ledger
        ensures e.refId < |s'.intents| && e.currency == s'.intents[e.refId].currency
      {
        assert SameRow(s, s', a.t, e.refId);
      }
    }
  }

  /** In every run, isolated or not, the rows posted for an intent are in the intent's currency. */
  lemma {:induction false} RowsInCurrency(s: State, run: seq<Action>)
    requires Base(s) && Labelled(s) && Legal(s, run)
    ensures Labelled(Exec(s, run))
    decreases |run|
  {
    if |run| == 0 {
    } else {
      BaseStep(s, run[0]);
      LabelledStep(s, run[0]);
      RowsInCurrency(Do(s, run[0]), run[1..]);
    }
  }

  // ---- When a query is scheduled ----

  /** A delayed query starts exactly when creation has written `requires_action` for M-Pesa, and it is
      for that creation's attempt and intent. */
  lemma QueryScheduledIff(s: State, t: nat, c: Choice)
    requires Base(s) && CanGo(s, t, c)
    ensures var s', th := DoGo(s, t, c), s.threads[t];
            if th.CWrite? && th.psp == "mpesa" && !th.processing
            then |s'.threads| == |s.threads| + 1 && s'.threads[|s.threads|] == QRead(th.aid, th.id) &&
                 s'.intents[th.id].status == RequiresAction
            else |s'.threads| == |s.threads|
  {
    assert ThreadOk(s, t);
  }
}
