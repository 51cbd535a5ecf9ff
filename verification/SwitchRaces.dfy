/** Runs of the switch as coded that break what SwitchSafety proves of isolated runs. */
module SwitchRaces {
  import opened Domain
  import opened StateTable
  import opened Sums
  import opened Ledger
  import opened Fees
  import opened Switch
  import opened SwitchSafety
  import opened SwitchAsCoded
  import opened SwitchAtomic

  lemma Arrive(s: State, s1: State, a: Action)
    requires Reaches(s, s1) && Enabled(s1, a)
    ensures Reaches(s, Do(s1, a))
  {
    var run :| Legal(s, run) && Exec(s, run) == s1;
    One(s1, a);
    ExecConcat(s, run, [a]);
  }

  lemma Stay(s: State)
    ensures Reaches(s, s)
  {
    assert Legal(s, []) && Exec(s, []) == s;
  }

  /** Intent i waits for its outcome and a is its attempt. */
  predicate Waiting(s: State, i: nat, a: nat) {
    Row(s, i) && s.intents[i].status in {RequiresAction, Processing} && Admitted(s.intents[i].amount) &&
    a < |s.attempts| && s.attempts[a].pi == i
  }

  function Holder(s: State, i: nat, a: nat, to: PIStatus): Thread
    requires Waiting(s, i, a)
  {
    WAttempt(a, i, s.intents[i], s.attempts[a].psp, to)
  }

  /** A webhook can always arrive and read a waiting intent. */
  lemma Read(s0: State, s: State, i: nat, a: nat, to: PIStatus)
    requires Reaches(s0, s) && Waiting(s, i, a) && to in {Succeeded, Failed}
    ensures Reaches(s0, s.(threads := s.threads + [Holder(s, i, a, to)]))
  {
    var status := if to == Succeeded then "succeeded" else "failed";
    var c := Choice("", "", true, "", "", a);
    var evt := Event(s.attempts[a].psp, s.attempts[a].ref, "", status);
    var t := |s.threads|;
    Arrive(s0, s, Spawn(WLookup(evt)));
    var s1 := Do(s, Spawn(WLookup(evt)));
    Arrive(s0, s1, Go(t, c));
    var s2 := Do(s1, Go(t, c));
    assert s2.threads[t] == WRead(evt, a);
    Arrive(s0, s2, Go(t, c));
    var s3 := Do(s2, Go(t, c));
    OutcomeEdges(s.intents[i].status);
    assert s3.threads == s.threads + [Holder(s, i, a, to)];
    assert s3 == s.(threads := s.threads + [Holder(s, i, a, to)]);
  }

  /** A webhook past its check writes its outcome, whatever the intent's status is by now, and a
      success begins a collection. */
  lemma Write(s0: State, s: State, t: nat, i: nat) returns (s': State)
    requires Reaches(s0, s) && t < |s.threads| && s.threads[t].WAttempt? && s.threads[t].id == i
    requires Row(s, i) && s.threads[t].aid < |s.attempts| && Admitted(s.threads[t].snap.amount)
    ensures Reaches(s0, s')
    ensures Row(s', i) && s'.intents[i].status == s.threads[t].to
    ensures |s'.attempts| == |s.attempts| && |s'.threads| == |s.threads|
    ensures forall u :: 0 <= u < |s.threads| && u != t ==> s'.threads[u] == s.threads[u]
    ensures Sum(s'.ledger, Begun(i)) == Sum(s.ledger, Begun(i)) + if s.threads[t].to == Succeeded then 1 else 0
  {
    var c := Choice("", "", true, "", "", 0);
    var th := s.threads[t];
    Arrive(s0, s, Go(t, c));
    var s1 := Do(s, Go(t, c));
    assert s1.threads[t] == WWrite(th.aid, i, th.snap, th.psp, th.to);
    Arrive(s0, s1, Go(t, c));
    s' := Do(s1, Go(t, c));
    if th.to == Succeeded {
      assert s'.threads[t] == Post(i, th.snap, th.psp, 0);
      Arrive(s0, s', Go(t, c));
      SumAppend(s'.ledger, CollectionRows(s'.cfg, i, th.snap, th.psp)[0], Begun(i));
      s' := Do(s', Go(t, c));
    }
  }

  /** From every state in which an intent waits for its outcome, two deliveries of its success that
      both read it before either writes begin two collections. */
  lemma TwoCollections(s: State, i: nat, a: nat)
    requires Waiting(s, i, a)
    ensures exists s' :: Reaches(s, s') && Row(s', i) && s'.intents[i].status == Succeeded &&
                         Sum(s'.ledger, Begun(i)) == Sum(s.ledger, Begun(i)) + 2
  {
    var t := |s.threads|;
    Stay(s);
    Read(s, s, i, a, Succeeded);
    var s1 := s.(threads := s.threads + [Holder(s, i, a, Succeeded)]);
    Read(s, s1, i, a, Succeeded);
    var s2 := s1.(threads := s1.threads + [Holder(s, i, a, Succeeded)]);
    var s3 := Write(s, s2, t, i);
    var s4 := Write(s, s3, t + 1, i);
  }

  /** Likewise a success and a failure: the collection is begun and the intent ends up failed. */
  lemma CollectedButFailed(s: State, i: nat, a: nat)
    requires Waiting(s, i, a)
    ensures exists s' :: Reaches(s, s') && Row(s', i) && s'.intents[i].status == Failed &&
                         Sum(s'.ledger, Begun(i)) == Sum(s.ledger, Begun(i)) + 1
  {
    var t := |s.threads|;
    Stay(s);
    Read(s, s, i, a, Succeeded);
    var s1 := s.(threads := s.threads + [Holder(s, i, a, Succeeded)]);
    Read(s, s1, i, a, Failed);
    var s2 := s1.(threads := s1.threads + [Holder(s, i, a, Failed)]);
    var s3 := Write(s, s2, t, i);
    var s4 := Write(s, s3, t + 1, i);
  }

  /** A failure reported before creation makes its last write is overwritten by it: `failed` is
      final only once creation has returned. */
  lemma LateWriteRevivesFailed(s: State, t: nat, i: nat, a: nat)
    requires t < |s.threads| && s.threads[t].CWrite? && s.threads[t].id == i
    requires Row(s, i) && s.intents[i].status == Created && a < |s.attempts| && s.attempts[a].pi == i &&
             Admitted(s.intents[i].amount)
    ensures exists s1, s2 :: Reaches(s, s1) && Row(s1, i) && s1.intents[i].status == Failed &&
                             Reaches(s1, s2) && Row(s2, i) && s2.intents[i].status in {RequiresAction, Processing}
  {
    var c := Choice("", "", true, "", "", a);
    var evt := Event(s.attempts[a].psp, s.attempts[a].ref, "", "failed");
    var u := |s.threads|;
    Stay(s);
    Arrive(s, s, Spawn(WLookup(evt)));
    var s1 := Do(s, Spawn(WLookup(evt)));
    Arrive(s, s1, Go(u, c));
    var s2 := Do(s1, Go(u, c));
    assert s2.threads[u] == WRead(evt, a);
    Arrive(s, s2, Go(u, c));
    var s3 := Do(s2, Go(u, c));
    assert s3.threads[u] == WAttempt(a, i, s.intents[i], s.attempts[a].psp, Failed);
    var s4 := Write(s, s3, u, i);
    assert s4.threads[t] == s.threads[t];
    Stay(s4);
    Arrive(s4, s4, Go(t, c));
    var s5 := Do(s4, Go(t, c));
    assert Reaches(s4, s5) && s5.intents[i].status in {RequiresAction, Processing};
  }

  /** Waiting intents are reachable: any admitted request gets there. */
  lemma WaitingIsReachable(cfg: FeeConfig, req: Request)
    requires Valid(req)
    ensures exists s :: Reaches(Init(cfg), s) && Waiting(s, 0, 0) && s.intents[0].amount == req.amount
  {
    ReachAnswered(cfg, req);
    AtomicIsSafe(cfg, Answered(cfg, req));
    assert Waiting(Answered(cfg, req), 0, 0);
  }

  /** So is the window of the late write: the attempt is in and the status still `created`. */
  lemma LateWriteIsReachable(cfg: FeeConfig, req: Request)
    requires Valid(req)
    ensures exists s1, s2 :: Reaches(Init(cfg), s1) && Row(s1, 0) && s1.intents[0].status == Failed &&
                             Reaches(s1, s2) && Row(s2, 0) && s2.intents[0].status in {RequiresAction, Processing}
  {
    var s := Writing(cfg, req);
    ReachWriting(cfg, req);
    AtomicIsSafe(cfg, s);
    LateWriteRevivesFailed(s, 0, 0, 0);
    var s1, s2 :| Reaches(s, s1) && Row(s1, 0) && s1.intents[0].status == Failed &&
                  Reaches(s1, s2) && Row(s2, 0) && s2.intents[0].status in {RequiresAction, Processing};
    ReachesTrans(Init(cfg), s, s1);
  }

  lemma ReachesTrans(s: State, s1: State, s2: State)
    requires Reaches(s, s1) && Reaches(s1, s2)
    ensures Reaches(s, s2)
  {
    var r1 :| Legal(s, r1) && Exec(s, r1) == s1;
    var r2 :| Legal(s1, r2) && Exec(s1, r2) == s2;
    ExecConcat(s, r1, r2);
  }
}
