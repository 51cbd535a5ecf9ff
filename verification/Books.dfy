/** The tables as one value, what each operation makes of them when every statement goes through,
    and the accounting identities that all runs of such operations keep. */
module Books {
  import opened Domain
  import opened StateTable
  import opened Sums
  import opened Accounts
  import opened Ledger
  import opened Fees

  datatype Tables = Tables(intents: seq<Intent>, attempts: seq<Attempt>, payouts: seq<Payout>, entries: seq<Entry>)

  // ---- Operations ----

  /** How the provider took the collection request of a new intent. */
  datatype Taken = Refused | Accepted(psp: string, ref: string, processing: bool)

  function AfterCreate(tb: Tables, pi: Intent, taken: Taken): Tables {
    match taken
    case Refused => tb.(intents := tb.intents + [pi.(status := Failed)])
    case Accepted(psp, ref, processing) => tb.(
      intents := tb.intents + [pi.(status := if processing then Processing else RequiresAction)],
      attempts := tb.attempts + [Attempt(|tb.intents|, psp, ref, if processing then AProcessing else ARequiresAction)])
  }

  predicate Known(tb: Tables, aid: nat) {
    aid < |tb.attempts| && tb.attempts[aid].pi < |tb.intents|
  }

  /** An outcome reported for an attempt, by a webhook or a query: ignored unless the table has the
      edge; a success posts the collection. */
  function AfterConfirm(cfg: FeeConfig, tb: Tables, aid: nat, to: PIStatus): Tables
    requires Known(tb, aid)
  {
    var i := tb.attempts[aid].pi;
    var pi := tb.intents[i];
    if !IsValidTransition(pi.status, to) then tb
    else tb.(
      intents := tb.intents[i := pi.(status := to)],
      attempts := tb.attempts[aid := tb.attempts[aid].(status := OutcomeAttempt(to))],
      entries := tb.entries + if to == Succeeded then Collection(cfg, tb, aid) else [])
  }

  function Collection(cfg: FeeConfig, tb: Tables, aid: nat): seq<Entry>
    requires Known(tb, aid)
  {
    var i := tb.attempts[aid].pi;
    CollectionRows(cfg, i, tb.intents[i], tb.attempts[aid].psp)
  }

  /** A settlement payout: pending, or completed at once when the rail says so. */
  function AfterPayout(tb: Tables, p: Payout): Tables {
    var id := |tb.payouts|;
    tb.(payouts := tb.payouts + [p],
        entries := tb.entries + PayoutInitGroup(p.merchant, id, p.amount, p.currency) +
                   if p.status == PayoutSucceeded then PayoutCompleteGroup(p.merchant, id, p.amount, p.currency)
                   else [])
  }

  // ---- What the tables owe each account ----

  function Earned(cfg: FeeConfig, m: string): Intent -> int {
    (pi: Intent) => if pi.status == Succeeded && pi.merchant == m then pi.amount - Charged(ComputeFee(cfg, pi.amount))
                    else 0
  }

  function FeesOf(cfg: FeeConfig): Intent -> int {
    (pi: Intent) => if pi.status == Succeeded then Charged(ComputeFee(cfg, pi.amount)) else 0
  }

  /** The amount of the attempt's intent, if it succeeded through the provider. */
  function Through(intents: seq<Intent>, psp: string): Attempt -> int {
    (a: Attempt) => if a.status == ASucceeded && a.psp == psp && a.pi < |intents| then intents[a.pi].amount else 0
  }

  function Payouts(m: string): Payout -> int {
    (p: Payout) => if p.merchant == m then p.amount else 0
  }

  function Pending(m: string): Payout -> int {
    (p: Payout) => if p.merchant == m && p.status == PayoutPending then p.amount else 0
  }

  function Completed(): Payout -> int {
    (p: Payout) => if p.status == PayoutSucceeded then p.amount else 0
  }

  function Due(cfg: FeeConfig, tb: Tables, a: Account): int {
    match a
    case MerchantAvailable(m) => Sum(tb.intents, Earned(cfg, m)) - Sum(tb.payouts, Payouts(m))
    case MerchantInTransit(m) => Sum(tb.payouts, Pending(m))
    case MerchantSettled(_) => 0
    case PlatformFees => Sum(tb.intents, FeesOf(cfg))
    case PlatformOperating => Sum(tb.payouts, Completed())
    case PspClearing(psp) => -Sum(tb.attempts, Through(tb.intents, psp))
  }

  /** Every balance is what the intents, attempts and payouts make it. */
  ghost predicate Mirror(cfg: FeeConfig, tb: Tables) {
    forall a :: Balance(tb.entries, a) == Due(cfg, tb, a)
  }

  // ---- Attempts agree with their intents ----

  predicate Agree(p: PIStatus, a: AttemptStatus) {
    (p == RequiresAction && a == ARequiresAction) || (p == Processing && a == AProcessing) ||
    (p == Succeeded && a == ASucceeded) || (p == Failed && a == AFailed)
  }

  predicate AttemptAgrees(tb: Tables, aid: nat)
    requires aid < |tb.attempts|
  {
    Known(tb, aid) && Agree(tb.intents[tb.attempts[aid].pi].status, tb.attempts[aid].status)
  }

  ghost predicate HasAttempt(tb: Tables, i: nat) {
    exists aid :: 0 <= aid < |tb.attempts| && tb.attempts[aid].pi == i
  }

  ghost predicate Agreed(tb: Tables) {
    (forall aid :: 0 <= aid < |tb.attempts| ==> AttemptAgrees(tb, aid)) &&
    (forall a, b :: 0 <= a < |tb.attempts| && 0 <= b < |tb.attempts| && tb.attempts[a].pi == tb.attempts[b].pi ==>
     a == b) &&
    (forall i :: 0 <= i < |tb.intents| && tb.intents[i].status == Succeeded ==> HasAttempt(tb, i)) &&
    (forall p :: 0 <= p < |tb.payouts| ==> tb.payouts[p].status in {PayoutPending, PayoutSucceeded})
  }

  ghost predicate Good(cfg: FeeConfig, tb: Tables) {
    Mirror(cfg, tb) && Agreed(tb)
  }

  // ---- Preservation ----

  lemma ThroughGrows(tb: Tables, intents': seq<Intent>, psp: string)
    requires Agreed(tb)
    requires |tb.intents| <= |intents'|
    requires forall i :: 0 <= i < |tb.intents| ==> intents'[i].amount == tb.intents[i].amount
    ensures Sum(tb.attempts, Through(intents', psp)) == Sum(tb.attempts, Through(tb.intents, psp))
  {
    forall a | a in tb.attempts ensures Through(intents', psp)(a) == Through(tb.intents, psp)(a) {
      var aid :| 0 <= aid < |tb.attempts| && tb.attempts[aid] == a;
      assert AttemptAgrees(tb, aid);
    }
    SumEqual(tb.attempts, Through(intents', psp), Through(tb.intents, psp));
  }

  lemma CreatedDue(cfg: FeeConfig, tb: Tables, pi: Intent, taken: Taken, a: Account)
    requires Agreed(tb)
    ensures Due(cfg, AfterCreate(tb, pi, taken), a) == Due(cfg, tb, a)
  {
    var tb' := AfterCreate(tb, pi, taken);
    var row := tb'.intents[|tb.intents|];
    match a
    case MerchantAvailable(m) => SumAppend(tb.intents, row, Earned(cfg, m));
    case PlatformFees => SumAppend(tb.intents, row, FeesOf(cfg));
    case PspClearing(psp) =>
      ThroughGrows(tb, tb'.intents, psp);
      if taken.Accepted? {
        SumAppend(tb.attempts, tb'.attempts[|tb.attempts|], Through(tb'.intents, psp));
      }
    case _ =>
  }

  lemma CreatedAgreed(tb: Tables, pi: Intent, taken: Taken)
    requires Agreed(tb)
    ensures Agreed(AfterCreate(tb, pi, taken))
  {
    var tb' := AfterCreate(tb, pi, taken);
    forall aid | 0 <= aid < |tb'.attempts| ensures AttemptAgrees(tb', aid) {
      if aid < |tb.attempts| {
        assert AttemptAgrees(tb, aid);
      }
    }
    forall i | 0 <= i < |tb'.intents| && tb'.intents[i].status == Succeeded ensures HasAttempt(tb', i) {
      assert HasAttempt(tb, i);
      var aid :| 0 <= aid < |tb.attempts| && tb.attempts[aid].pi == i;
      assert tb'.attempts[aid].pi == i;
    }
    forall x, y | 0 <= x < |tb'.attempts| && 0 <= y < |tb'.attempts| && tb'.attempts[x].pi == tb'.attempts[y].pi
      ensures x == y
    {
      assert AttemptAgrees(tb', x) && AttemptAgrees(tb', y);
      assert x < |tb.attempts| ==> AttemptAgrees(tb, x);
      assert y < |tb.attempts| ==> AttemptAgrees(tb, y);
    }
  }

  lemma ConfirmedDue(cfg: FeeConfig, tb: Tables, aid: nat, to: PIStatus, a: Account)
    requires Agreed(tb) && Known(tb, aid) && to in {Succeeded, Failed} &&
             IsValidTransition(tb.intents[tb.attempts[aid].pi].status, to)
    ensures Due(cfg, AfterConfirm(cfg, tb, aid, to), a) == Due(cfg, tb, a) +
              var pi := tb.intents[tb.attempts[aid].pi];
              var fee := Charged(ComputeFee(cfg, pi.amount));
              if to != Succeeded then 0 else
              match a
              case MerchantAvailable(n) => if n == pi.merchant then pi.amount - fee else 0
              case PlatformFees => fee
              case PspClearing(p) => if p == tb.attempts[aid].psp then -pi.amount else 0
              case _ => 0
  {
    var tb' := AfterConfirm(cfg, tb, aid, to);
    var i := tb.attempts[aid].pi;
    OutcomeEdges(tb.intents[i].status);
    match a
    case MerchantAvailable(m) => SumUpdate(tb.intents, i, tb'.intents[i], Earned(cfg, m));
    case PlatformFees => SumUpdate(tb.intents, i, tb'.intents[i], FeesOf(cfg));
    case PspClearing(psp) =>
      assert AttemptAgrees(tb, aid);
      ThroughGrows(tb, tb'.intents, psp);
      SumUpdate(tb.attempts, aid, tb'.attempts[aid], Through(tb'.intents, psp));
    case _ =>
  }

  lemma ConfirmedMirror(cfg: FeeConfig, tb: Tables, aid: nat, to: PIStatus)
    requires Good(cfg, tb) && Known(tb, aid) && to in {Succeeded, Failed}
    ensures Mirror(cfg, AfterConfirm(cfg, tb, aid, to))
  {
    var i := tb.attempts[aid].pi;
    var pi := tb.intents[i];
    var tb' := AfterConfirm(cfg, tb, aid, to);
    if IsValidTransition(pi.status, to) {
      forall a ensures Balance(tb'.entries, a) == Due(cfg, tb', a) {
        ConfirmedDue(cfg, tb, aid, to, a);
        if to == Succeeded {
          CollectionEffect(tb.entries, pi.merchant, i, tb.attempts[aid].psp, pi.amount, pi.currency,
                           ComputeFee(cfg, pi.amount), a);
        } else {
          assert tb.entries + [] == tb.entries;
        }
      }
    }
  }

  lemma ConfirmedAgreed(cfg: FeeConfig, tb: Tables, aid: nat, to: PIStatus)
    requires Agreed(tb) && Known(tb, aid) && to in {Succeeded, Failed}
    ensures Agreed(AfterConfirm(cfg, tb, aid, to))
  {
    var tb' := AfterConfirm(cfg, tb, aid, to);
    var i := tb.attempts[aid].pi;
    forall b | 0 <= b < |tb'.attempts| ensures AttemptAgrees(tb', b) {
      assert AttemptAgrees(tb, b);
    }
    forall j | 0 <= j < |tb'.intents| && tb'.intents[j].status == Succeeded ensures HasAttempt(tb', j) {
      if j == i {
        assert tb'.attempts[aid].pi == i;
      } else {
        assert HasAttempt(tb, j);
        var b :| 0 <= b < |tb.attempts| && tb.attempts[b].pi == j;
        assert tb'.attempts[b].pi == j;
      }
    }
  }

  lemma PaidOutMirror(cfg: FeeConfig, tb: Tables, p: Payout)
    requires Mirror(cfg, tb) && p.status in {PayoutPending, PayoutSucceeded}
    ensures Mirror(cfg, AfterPayout(tb, p))
  {
    var tb' := AfterPayout(tb, p);
    var id := |tb.payouts|;
    var init := PayoutInitGroup(p.merchant, id, p.amount, p.currency);
    forall a ensures Balance(tb'.entries, a) == Due(cfg, tb', a) {
      PairEffect(tb.entries, MerchantAvailable(p.merchant), MerchantInTransit(p.merchant), p.amount, p.currency,
                 PayoutRef, id, a);
      PairEffect(tb.entries + init, MerchantInTransit(p.merchant), PlatformOperating, p.amount, p.currency, PayoutRef,
                 id, a);
      assert tb.entries + init + [] == tb.entries + init;
      match a
      case MerchantAvailable(m) => SumAppend(tb.payouts, p, Payouts(m));
      case MerchantInTransit(m) => SumAppend(tb.payouts, p, Pending(m));
      case PlatformOperating => SumAppend(tb.payouts, p, Completed());
      case _ =>
    }
  }

  // ---- Runs ----

  datatype Op =
    | Create(pi: Intent, taken: Taken)
    | Confirm(aid: nat, to: PIStatus)
    | PayOut(p: Payout)

  predicate Possible(tb: Tables, op: Op) {
    match op
    case Create(_, _) => true
    case Confirm(aid, to) => Known(tb, aid) && to in {Succeeded, Failed}
    case PayOut(p) => p.status in {PayoutPending, PayoutSucceeded}
  }

  function Apply(cfg: FeeConfig, tb: Tables, op: Op): Tables
    requires Possible(tb, op)
  {
    match op
    case Create(pi, taken) => AfterCreate(tb, pi, taken)
    case Confirm(aid, to) => AfterConfirm(cfg, tb, aid, to)
    case PayOut(p) => AfterPayout(tb, p)
  }

  predicate LegalOps(cfg: FeeConfig, tb: Tables, ops: seq<Op>)
    decreases |ops|
  {
    |ops| == 0 || (Possible(tb, ops[0]) && LegalOps(cfg, Apply(cfg, tb, ops[0]), ops[1..]))
  }

  function ApplyAll(cfg: FeeConfig, tb: Tables, ops: seq<Op>): Tables
    requires LegalOps(cfg, tb, ops)
    decreases |ops|
  {
    if |ops| == 0 then tb else ApplyAll(cfg, Apply(cfg, tb, ops[0]), ops[1..])
  }

  lemma StepGood(cfg: FeeConfig, tb: Tables, op: Op)
    requires Good(cfg, tb) && Possible(tb, op)
    ensures Good(cfg, Apply(cfg, tb, op))
  {
    match op
    case Create(pi, taken) =>
      CreatedAgreed(tb, pi, taken);
      forall a ensures Balance(AfterCreate(tb, pi, taken).entries, a) == Due(cfg, AfterCreate(tb, pi, taken), a) {
        CreatedDue(cfg, tb, pi, taken, a);
      }
    case Confirm(aid, to) =>
      ConfirmedAgreed(cfg, tb, aid, to);
      ConfirmedMirror(cfg, tb, aid, to);
    case PayOut(p) => PayOutGood(cfg, tb, p);
  }

  lemma PayOutGood(cfg: FeeConfig, tb: Tables, p: Payout)
    requires Good(cfg, tb) && p.status in {PayoutPending, PayoutSucceeded}
    ensures Good(cfg, AfterPayout(tb, p))
  {
    PaidOutMirror(cfg, tb, p);
    var tb' := AfterPayout(tb, p);
    forall aid | 0 <= aid < |tb'.attempts| ensures AttemptAgrees(tb', aid) {
      assert AttemptAgrees(tb, aid);
    }
    forall i | 0 <= i < |tb'.intents| && tb'.intents[i].status == Succeeded ensures HasAttempt(tb', i) {
      assert HasAttempt(tb, i);
    }
  }

  const EMPTY := Tables([], [], [], [])

  lemma {:induction false} RunGood(cfg: FeeConfig, tb: Tables, ops: seq<Op>)
    requires Good(cfg, tb) && LegalOps(cfg, tb, ops)
    ensures Good(cfg, ApplyAll(cfg, tb, ops))
    decreases |ops|
  {
    if |ops| == 0 {
    } else {
      StepGood(cfg, tb, ops[0]);
      RunGood(cfg, Apply(cfg, tb, ops[0]), ops[1..]);
    }
  }

  /** After every sequence of atomic operations from the empty tables: every account's balance is
      what succeeded intents and settlement payouts make it, and attempts agree with intents. */
  lemma BooksBalance(cfg: FeeConfig, ops: seq<Op>)
    requires LegalOps(cfg, EMPTY, ops)
    ensures Good(cfg, ApplyAll(cfg, EMPTY, ops))
  {
    assert Good(cfg, EMPTY);
    RunGood(cfg, EMPTY, ops);
  }
}
