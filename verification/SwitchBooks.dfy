/** A thread of the switch that is not interrupted does what the same operation does run on its own:
    the step-split protocol and the atomic operations are two views of one program. */
module SwitchBooks {
  import opened Domain
  import opened StateTable
  import opened Ledger
  import opened Fees
  import opened Switch
  import opened SwitchSafety
  import opened SwitchAtomic
  import Books

  /** The tables of a state; payouts are not the switch's. */
  function View(s: State, payouts: seq<Payout>): Books.Tables {
    Books.Tables(s.intents, s.attempts, payouts, s.ledger)
  }

  /** Thread t, moving alone from s, ends with these tables. */
  ghost predicate EndsWith(s: State, t: nat, c: Choice, payouts: seq<Payout>, tb: Books.Tables) {
    exists n: nat :: EndsAfter(s, t, c, n, payouts, tb)
  }

  ghost predicate EndsAfter(s: State, t: nat, c: Choice, n: nat, payouts: seq<Payout>, tb: Books.Tables) {
    Legal(s, Repeat(t, c, n)) && View(Exec(s, Repeat(t, c, n)), payouts) == tb &&
    t < |Exec(s, Repeat(t, c, n)).threads| &&
    (Exec(s, Repeat(t, c, n)).threads[t].Finished? || Exec(s, Repeat(t, c, n)).threads[t].CReturned?)
  }

  lemma StepFirst(s: State, t: nat, c: Choice, payouts: seq<Payout>, tb: Books.Tables)
    requires CanGo(s, t, c) && EndsWith(DoGo(s, t, c), t, c, payouts, tb)
    ensures EndsWith(s, t, c, payouts, tb)
  {
    var n: nat :| EndsAfter(DoGo(s, t, c), t, c, n, payouts, tb);
    assert Repeat(t, c, n + 1)[0] == Go(t, c) && Repeat(t, c, n + 1)[1..] == Repeat(t, c, n);
    assert EndsAfter(s, t, c, n + 1, payouts, tb);
  }

  lemma AtEnd(s: State, t: nat, c: Choice, payouts: seq<Payout>)
    requires t < |s.threads| && (s.threads[t].Finished? || s.threads[t].CReturned?)
    ensures EndsWith(s, t, c, payouts, View(s, payouts))
  {
    assert EndsAfter(s, t, c, 0, payouts, View(s, payouts));
  }

  lemma PostsAll(s: State, t: nat, c: Choice, payouts: seq<Payout>)
    requires t < |s.threads| && s.threads[t].Post? && s.threads[t].k == 0 && s.threads[t].snap.amount > 0
    ensures var th := s.threads[t];
            EndsWith(s, t, c, payouts,
                     View(s.(ledger := s.ledger + CollectionRows(s.cfg, th.id, th.snap, th.psp)), payouts))
  {
    var th := s.threads[t];
    var g := CollectionRows(s.cfg, th.id, th.snap, th.psp);
    RowsPositive(s.cfg, th.id, th.snap, th.psp);
    PostOn(s, t, c, |g|);
    assert g[0..|g|] == g;
    assert EndsAfter(s, t, c, |g|, payouts, View(s.(ledger := s.ledger + g), payouts));
  }

  /** A handler that has decided and meets the status it read writes and posts. */
  lemma Writes(s: State, t: nat, c: Choice, payouts: seq<Payout>)
    requires Base(s) && t < |s.threads| && WritesOutcome(s.threads[t])
    requires s.threads[t].id < |s.intents| && s.intents[s.threads[t].id] == s.threads[t].snap
    ensures var th := s.threads[t];
            var rows := if th.to == Succeeded then CollectionRows(s.cfg, th.id, th.snap, th.psp) else [];
            EndsWith(s, t, c, payouts, View(SetStatus(s, th.id, th.to).(ledger := s.ledger + rows), payouts))
  {
    var th := s.threads[t];
    assert ThreadOk(s, t) && IntentOk(s, th.id);
    var s1 := DoGo(s, t, c);
    if th.to == Succeeded {
      PostsAll(s1, t, c, payouts);
    } else {
      assert s.ledger + [] == s.ledger;
      AtEnd(s1, t, c, payouts);
    }
    StepFirst(s, t, c, payouts, View(SetStatus(s, th.id, th.to).(ledger := s.ledger +
      if th.to == Succeeded then CollectionRows(s.cfg, th.id, th.snap, th.psp) else []), payouts));
  }

  /** The handler that decided on the status it can still see. */
  predicate Deciding(s: State, t: nat, aid: nat, to: PIStatus) {
    t < |s.threads| && (s.threads[t].WAttempt? || s.threads[t].QAttempt?) &&
    var th := s.threads[t];
    th.aid == aid && th.to == to && aid < |s.attempts| && th.id == s.attempts[aid].pi && th.id < |s.intents| &&
    th.snap == s.intents[th.id] && th.psp == s.attempts[aid].psp && IsValidTransition(th.snap.status, to)
  }

  lemma Confirms(s: State, t: nat, c: Choice, payouts: seq<Payout>, aid: nat, to: PIStatus)
    requires Base(s) && Deciding(s, t, aid, to)
    ensures EndsWith(s, t, c, payouts, Books.AfterConfirm(s.cfg, View(s, payouts), aid, to))
  {
    assert ThreadOk(s, t);
    var s1 := DoGo(s, t, c);
    BaseStep(s, Go(t, c));
    Writes(s1, t, c, payouts);
    StepFirst(s, t, c, payouts, Books.AfterConfirm(s.cfg, View(s, payouts), aid, to));
  }

  /** What a report of success or failure for an attempt makes of the tables: a success of a waiting
      intent marks both rows succeeded and posts the collection; a failure of an intent that is created
      or waits marks both rows failed; anything else changes nothing. */
  ghost predicate Reported(s: State, payouts: seq<Payout>, aid: nat, status: string, tb: Books.Tables)
    requires aid < |s.attempts| && s.attempts[aid].pi < |s.intents|
  {
    var i := s.attempts[aid].pi;
    var pi, a := s.intents[i], s.attempts[aid];
    if status == "succeeded" && pi.status in {RequiresAction, Processing} then
      tb == Books.Tables(s.intents[i := pi.(status := Succeeded)], s.attempts[aid := a.(status := ASucceeded)], payouts,
                         s.ledger + CollectionRows(s.cfg, i, pi, a.psp))
    else if status == "failed" && pi.status in {Created, RequiresAction, Processing} then
      tb == Books.Tables(s.intents[i := pi.(status := Failed)], s.attempts[aid := a.(status := AFailed)], payouts,
                         s.ledger)
    else tb == View(s, payouts)
  }

  /** A webhook that is not interrupted confirms its attempt as the atomic operation does, including
      when the table has no edge for the outcome. */
  lemma WebhookAlone(s: State, t: nat, c: Choice, payouts: seq<Payout>)
    requires Base(s) && t < |s.threads| && s.threads[t].WRead? && s.threads[t].evt.status in {"succeeded", "failed"}
    ensures var th := s.threads[t];
            Books.Known(View(s, payouts), th.aid) && Outcome(th.evt.status).Some? &&
            EndsWith(s, t, c, payouts,
                     Books.AfterConfirm(s.cfg, View(s, payouts), th.aid, Outcome(th.evt.status).value))
    ensures var th := s.threads[t];
            Reported(s, payouts, th.aid, th.evt.status,
                     Books.AfterConfirm(s.cfg, View(s, payouts), th.aid, Outcome(th.evt.status).value))
  {
    var th := s.threads[t];
    assert ThreadOk(s, t) && AttemptOk(s, th.aid);
    OutcomeEdges(s.intents[s.attempts[th.aid].pi].status);
    var to := Outcome(th.evt.status).value;
    var s1 := DoGo(s, t, c);
    BaseStep(s, Go(t, c));
    if IsValidTransition(s.intents[s.attempts[th.aid].pi].status, to) {
      Confirms(s1, t, c, payouts, th.aid, to);
    } else {
      AtEnd(s1, t, c, payouts);
    }
    StepFirst(s, t, c, payouts, Books.AfterConfirm(s.cfg, View(s, payouts), th.aid, to));
  }

  /** From its lookup on, the attempt it confirms is one with the event's provider and reference. */
  lemma DeliveryAlone(s: State, t: nat, c: Choice, payouts: seq<Payout>)
    requires Base(s) && CanGo(s, t, c) && s.threads[t].WLookup? && s.threads[t].evt.status in {"succeeded", "failed"}
    ensures var evt := s.threads[t].evt;
            c.aid < |s.attempts| && s.attempts[c.aid].psp == evt.psp && s.attempts[c.aid].ref == evt.ref &&
            Books.Known(View(s, payouts), c.aid) && Outcome(evt.status).Some? &&
            EndsWith(s, t, c, payouts,
                     Books.AfterConfirm(s.cfg, View(s, payouts), c.aid, Outcome(evt.status).value))
  {
    var s1 := DoGo(s, t, c);
    BaseStep(s, Go(t, c));
    WebhookAlone(s1, t, c, payouts);
    StepFirst(s, t, c, payouts,
              Books.AfterConfirm(s.cfg, View(s, payouts), c.aid, Outcome(s.threads[t].evt.status).value));
  }

  /** So does a delayed query that still finds its intent waiting. */
  lemma QueryAlone(s: State, t: nat, c: Choice, payouts: seq<Payout>)
    requires Base(s) && t < |s.threads| && s.threads[t].QRead? && c.status in {"succeeded", "failed"}
    requires s.threads[t].id < |s.intents| && s.intents[s.threads[t].id].status in {RequiresAction, Processing}
    ensures var th := s.threads[t];
            Books.Known(View(s, payouts), th.aid) && Outcome(c.status).Some? &&
            EndsWith(s, t, c, payouts, Books.AfterConfirm(s.cfg, View(s, payouts), th.aid, Outcome(c.status).value)) &&
            Reported(s, payouts, th.aid, c.status,
                     Books.AfterConfirm(s.cfg, View(s, payouts), th.aid, Outcome(c.status).value))
  {
    var th := s.threads[t];
    assert ThreadOk(s, t);
    var to := Outcome(c.status).value;
    OutcomeEdges(s.intents[th.id].status);
    var s1 := DoGo(s, t, c);
    BaseStep(s, Go(t, c));
    var s2 := DoGo(s1, t, c);
    BaseStep(s1, Go(t, c));
    Confirms(s2, t, c, payouts, th.aid, to);
    StepFirst(s1, t, c, payouts, Books.AfterConfirm(s.cfg, View(s, payouts), th.aid, to));
    StepFirst(s, t, c, payouts, Books.AfterConfirm(s.cfg, View(s, payouts), th.aid, to));
  }

  /** How the provider takes the request of a creation. */
  function TakenAs(psp: string, c: Choice): Books.Taken {
    if c.ok then Books.Accepted(psp, c.ref, c.status == "processing") else Books.Refused
  }

  /** A creation that is not interrupted from its insert on leaves the tables of the atomic one. */
  lemma CreationAlone(s: State, t: nat, c: Choice, payouts: seq<Payout>)
    requires Base(s) && CanGo(s, t, c) && s.threads[t].CInsert?
    ensures var th := s.threads[t];
            var pi := Intent(th.req.merchant, KeyOf(th.req, c), th.req.amount, th.req.currency, Created);
            EndsWith(s, t, c, payouts, Books.AfterCreate(View(s, payouts), pi, TakenAs(th.psp, c))) &&
            Books.AfterCreate(View(s, payouts), pi, TakenAs(th.psp, c)) ==
            if !c.ok then View(s, payouts).(intents := s.intents + [pi.(status := Failed)])
            else if c.status == "processing" then
              View(s, payouts).(intents := s.intents + [pi.(status := Processing)],
                                attempts := s.attempts + [Attempt(|s.intents|, th.psp, c.ref, AProcessing)])
            else
              View(s, payouts).(intents := s.intents + [pi.(status := RequiresAction)],
                                attempts := s.attempts + [Attempt(|s.intents|, th.psp, c.ref, ARequiresAction)])
  {
    var th := s.threads[t];
    var pi := Intent(th.req.merchant, KeyOf(th.req, c), th.req.amount, th.req.currency, Created);
    var tb := Books.AfterCreate(View(s, payouts), pi, TakenAs(th.psp, c));
    var s1 := DoGo(s, t, c);
    Inserted(s1, t, c, payouts);
    var rows := s.intents + [pi];
    assert forall x: PIStatus :: rows[|s.intents| := pi.(status := x)] == s.intents + [pi.(status := x)];
    StepFirst(s, t, c, payouts, tb);
  }

  /** The row is in: the provider's answer decides the rest. */
  lemma Inserted(s: State, t: nat, c: Choice, payouts: seq<Payout>)
    requires t < |s.threads| && s.threads[t].CStore? && Row(s, s.threads[t].id)
    ensures var th := s.threads[t];
            EndsWith(s, t, c, payouts, AfterAnswer(View(s, payouts), th.id, TakenAs(th.psp, c)))
  {
    var th := s.threads[t];
    var tb := AfterAnswer(View(s, payouts), th.id, TakenAs(th.psp, c));
    var s1 := DoGo(s, t, c);
    var s2 := DoGo(s1, t, c);
    var s3 := DoGo(s2, t, c);
    if c.ok {
      var s4 := DoGo(s3, t, c);
      AtEnd(s4, t, c, payouts);
      StepFirst(s3, t, c, payouts, tb);
    } else {
      AtEnd(s3, t, c, payouts);
    }
    StepFirst(s2, t, c, payouts, tb);
    StepFirst(s1, t, c, payouts, tb);
    StepFirst(s, t, c, payouts, tb);
  }

  function AfterAnswer(tb: Books.Tables, id: nat, taken: Books.Taken): Books.Tables
    requires id < |tb.intents|
  {
    match taken
    case Refused => tb.(intents := tb.intents[id := tb.intents[id].(status := Failed)])
    case Accepted(psp, ref, processing) => tb.(
      intents := tb.intents[id := tb.intents[id].(status := if processing then Processing else RequiresAction)],
      attempts := tb.attempts + [Attempt(id, psp, ref, if processing then AProcessing else ARequiresAction)])
  }
}
