/** When the switch is at rest its ledger mirrors its payments: every balance is the sum of what the
    succeeded intents contribute to that account. */
module SwitchMirror {
  import opened Domain
  import opened Sums
  import opened Accounts
  import opened Ledger
  import opened Fees
  import opened Switch
  import opened SwitchSafety

  /** The balance of an account over the rows of the first n intents, intent by intent. */
  function ByIntent(ledger: seq<Entry>, a: Account, n: nat): int {
    if n == 0 then 0 else ByIntent(ledger, a, n - 1) + Balance(Rows(ledger, n - 1), a)
  }

  lemma {:induction false} OneMoreRow(ledger: seq<Entry>, e: Entry, a: Account, n: nat)
    ensures ByIntent(ledger + [e], a, n) == ByIntent(ledger, a, n) + if e.refId < n then OnAccount(a)(e) else 0
  {
    if n == 0 {
    } else {
      OneMoreRow(ledger, e, a, n - 1);
      RowsAppend(ledger, e, n - 1);
      if e.refId == n - 1 {
        SumAppend(Rows(ledger, n - 1), e, OnAccount(a));
      } else {
        assert Rows(ledger, n - 1) + [] == Rows(ledger, n - 1);
      }
    }
  }

  lemma {:induction false} NoRowsNoBalance(a: Account, n: nat)
    ensures ByIntent([], a, n) == 0
  {
    if n == 0 {
    } else {
      NoRowsNoBalance(a, n - 1);
    }
  }

  /** Every balance splits into the contributions of the single intents. */
  lemma {:induction false} BalanceByIntent(ledger: seq<Entry>, a: Account, n: nat)
    requires forall e :: e in ledger ==> e.refId < n
    ensures Balance(ledger, a) == ByIntent(ledger, a, n)
  {
    if |ledger| == 0 {
      NoRowsNoBalance(a, n);
    } else {
      var m := |ledger| - 1;
      BalanceByIntent(ledger[..m], a, n);
      OneMoreRow(ledger[..m], ledger[m], a, n);
      assert ledger[..m] + [ledger[m]] == ledger && ledger[m] in ledger;
    }
  }

  /** What intent i owes account a: nothing unless it succeeded; then the merchant gets the amount
      less the fee, the platform the fee, and the provider's clearing account is down the amount. */
  function Share(s: State, i: nat, a: Account): int
    requires Row(s, i)
  {
    var pi := s.intents[i];
    if pi.status != Succeeded then 0 else
    match a
    case MerchantAvailable(m) => if pi.merchant == m then pi.amount - Charged(ComputeFee(s.cfg, pi.amount)) else 0
    case PlatformFees => Charged(ComputeFee(s.cfg, pi.amount))
    case PspClearing(p) =>
      if s.trace[i].att.Some? && s.trace[i].att.value < |s.attempts| && s.attempts[s.trace[i].att.value].psp == p
      then -pi.amount
      else 0
    case _ => 0
  }

  function Owed(s: State, a: Account, n: nat): int
    requires n <= |s.intents| && n <= |s.trace|
  {
    if n == 0 then 0 else Owed(s, a, n - 1) + Share(s, n - 1, a)
  }

  /** No success is still being posted or was abandoned by the very thread that wrote it. Other
      threads may be anywhere, and may have stopped anywhere. */
  ghost predicate AtRest(s: State) {
    forall i :: 0 <= i < |s.intents| && i < |s.trace| ==> !Posting(s, i)
  }

  lemma ShareOfIntent(s: State, i: nat, a: Account)
    requires Safe(s) && AtRest(s) && i < |s.intents|
    ensures Balance(Rows(s.ledger, i), a) == Share(s, i, a)
  {
    assert SafeIntent(s, i) && IntentOk(s, i);
    if s.intents[i].status == Succeeded {
      var pi, psp := s.intents[i], s.attempts[s.trace[i].att.value].psp;
      CollectionEffect([], pi.merchant, i, psp, pi.amount, pi.currency, ComputeFee(s.cfg, pi.amount), a);
      assert [] + Entitled(s, i) == Entitled(s, i);
    }
  }

  predicate Mirrored(s: State, i: nat, a: Account) {
    Row(s, i) && Balance(Rows(s.ledger, i), a) == Share(s, i, a)
  }

  lemma {:induction false} SharesAddUp(s: State, a: Account, n: nat)
    requires n <= |s.intents| && n <= |s.trace| && forall i :: 0 <= i < n ==> Mirrored(s, i, a)
    ensures ByIntent(s.ledger, a, n) == Owed(s, a, n)
  {
    if n == 0 {
    } else {
      SharesAddUp(s, a, n - 1);
      assert Mirrored(s, n - 1, a);
    }
  }

  /** At the end of every isolated run that leaves no success half posted, each merchant's
      available balance is the sum of amount less fee over its succeeded intents, the platform's
      fees are the fees charged, and each clearing account is down the amounts that succeeded
      through its provider. */
  lemma LedgerMirrorsPayments(cfg: FeeConfig, run: seq<Action>, a: Account)
    requires Legal(Init(cfg), run) && IsolatedRun(Init(cfg), run) && AtRest(Exec(Init(cfg), run))
    ensures var s := Exec(Init(cfg), run);
            |s.trace| == |s.intents| && Balance(s.ledger, a) == Owed(s, a, |s.intents|)
  {
    SafeRun(Init(cfg), run);
    var s := Exec(Init(cfg), run);
    BalanceByIntent(s.ledger, a, |s.intents|);
    forall i | 0 <= i < |s.intents| ensures Mirrored(s, i, a) {
      ShareOfIntent(s, i, a);
    }
    SharesAddUp(s, a, |s.intents|);
  }
}
