/** The settlement run: each merchant's available balance, capped, moves to the merchant's
    in-transit account as a payout. */
module Settlement {
  import opened Domain
  import opened Sums
  import opened Accounts
  import opened Database
  import opened Ledger
  import opened Fees
  import opened Books
  import opened Repository

  datatype Merchant = Merchant(id: string, currency: string)

  datatype Policy = Policy(minBalance: int, maxPayout: int)

  const DEFAULT_POLICY := Policy(50_000, 1_000_000)

  datatype Capabilities = Capabilities(payout: bool, currencies: seq<string>)

  /** What the rail answers to a payout request. */
  datatype PayoutAnswer = PayoutError | Taken(status: string)

  datatype Outcome = Skipped | Errored | Settled(amount: int)

  // ---- Amounts ----

  /** The payout of one run at a balance. */
  function Pay(policy: Policy, balance: int): int {
    if balance < policy.minBalance then 0 else if balance > policy.maxPayout then policy.maxPayout else balance
  }

  /** The default policy: nothing below 500 units, all of it up to 10,000, and 10,000 beyond. */
  lemma DefaultPays(balance: int)
    ensures balance < 500_00 ==> Pay(DEFAULT_POLICY, balance) == 0
    ensures 500_00 <= balance <= 10_000_00 ==> Pay(DEFAULT_POLICY, balance) == balance
    ensures balance > 10_000_00 ==> Pay(DEFAULT_POLICY, balance) == 10_000_00
  {
  }

  predicate Positive(policy: Policy) {
    policy.minBalance > 0 && policy.maxPayout > 0
  }

  /** The balance left after n runs. */
  function Left(policy: Policy, balance: int, n: nat): int
    decreases n
  {
    if n == 0 then balance else Left(policy, balance - Pay(policy, balance), n - 1)
  }

  /** The total paid in n runs. */
  function Paid(policy: Policy, balance: int, n: nat): int
    decreases n
  {
    if n == 0 then 0 else Pay(policy, balance) + Paid(policy, balance - Pay(policy, balance), n - 1)
  }

  /** Nothing is lost on the way, and a balance that is not negative never becomes so. */
  lemma {:induction false} Conserved(policy: Policy, balance: int, n: nat)
    requires Positive(policy)
    ensures Paid(policy, balance, n) + Left(policy, balance, n) == balance
    ensures balance >= 0 ==> 0 <= Left(policy, balance, n) <= balance
    decreases n
  {
    if n == 0 {
    } else {
      Conserved(policy, balance - Pay(policy, balance), n - 1);
    }
  }

  /** Without new collections the balance rests below the minimum after ceil(balance / maximum)
      runs, and every later run pays nothing. */
  lemma {:induction false} Drains(policy: Policy, balance: int, n: nat)
    requires Positive(policy) && balance >= 0 && n * policy.maxPayout >= balance
    ensures Left(policy, balance, n) < policy.minBalance
    ensures Pay(policy, Left(policy, balance, n)) == 0
    decreases n
  {
    if n == 0 {
    } else {
      var rest := balance - Pay(policy, balance);
      assert (n - 1) * policy.maxPayout == n * policy.maxPayout - policy.maxPayout;
      if balance < policy.minBalance {
        RestsBelow(policy, balance, n);
      } else if balance > policy.maxPayout {
        Drains(policy, rest, n - 1);
      } else {
        RestsBelow(policy, rest, n - 1);
      }
    }
  }

  lemma {:induction false} RestsBelow(policy: Policy, balance: int, n: nat)
    requires balance < policy.minBalance
    ensures Left(policy, balance, n) == balance
    decreases n
  {
    if n == 0 {
    } else {
      RestsBelow(policy, balance, n - 1);
    }
  }

  /** A payout moves its amount out of the merchant's available balance and nobody else's. */
  lemma PayoutMoves(tb: Tables, p: Payout, m: string)
    ensures Balance(AfterPayout(tb, p).entries, MerchantAvailable(m))
         == Balance(tb.entries, MerchantAvailable(m)) - if m == p.merchant then p.amount else 0
  {
    var id := |tb.payouts|;
    var init := PayoutInitGroup(p.merchant, id, p.amount, p.currency);
    PairEffect(tb.entries, MerchantAvailable(p.merchant), MerchantInTransit(p.merchant), p.amount, p.currency,
               PayoutRef, id, MerchantAvailable(m));
    PairEffect(tb.entries + init, MerchantInTransit(p.merchant), PlatformOperating, p.amount, p.currency, PayoutRef, id,
               MerchantAvailable(m));
    assert tb.entries + init + [] == tb.entries + init;
  }

  /** What an outcome of the run took from a merchant. */
  function Drawn(a: string): ((Merchant, Outcome)) -> int {
    (x: (Merchant, Outcome)) => if x.0.id == a && x.1.Settled? then x.1.amount else 0
  }

  function Passed(): ((Merchant, Outcome)) -> int {
    (x: (Merchant, Outcome)) => if x.1.Errored? then 0 else 1
  }

  lemma NotDrawnYet(log: seq<(Merchant, Outcome)>, id: string)
    ensures (forall j :: 0 <= j < |log| ==> log[j].0.id != id) ==> Sum(log, Drawn(id)) == 0
  {
    if forall j :: 0 <= j < |log| ==> log[j].0.id != id {
      SumZero(log, Drawn(id));
    }
  }
  /** The run's log accounts for every change of an available balance since the start. */
  ghost predicate Accounted(start: seq<Entry>, now: seq<Entry>, log: seq<(Merchant, Outcome)>) {
    forall a: string :: Balance(now, MerchantAvailable(a)) == Balance(start, MerchantAvailable(a)) - Sum(log, Drawn(a))
  }

  lemma AccountedStep(
    start: seq<Entry>,
    prev: seq<Entry>,
    now: seq<Entry>,
    log: seq<(Merchant, Outcome)>,
    x: (Merchant, Outcome))
    requires Accounted(start, prev, log)
    requires forall a: string :: Balance(now, MerchantAvailable(a)) == Balance(prev, MerchantAvailable(a)) - Drawn(a)(x)
    ensures Accounted(start, now, log + [x])
  {
    forall a: string
      ensures Balance(now, MerchantAvailable(a)) == Balance(start, MerchantAvailable(a)) - Sum(log + [x], Drawn(a))
    {
      SumAppend(log, x, Drawn(a));
      assert Balance(prev, MerchantAvailable(a)) == Balance(start, MerchantAvailable(a)) - Sum(log, Drawn(a));
    }
  }

  predicate Distinct(merchants: seq<Merchant>) {
    forall j, k :: 0 <= j < k < |merchants| ==> merchants[j].id != merchants[k].id
  }

  /** What an outcome paid: nothing when the merchant was passed over or failed. */
  function PaidBy(r: Outcome): int {
    if r.Settled? then r.amount else 0
  }

  /** Unless it failed, each merchant of the log was paid the clamped balance it had at the start. */
  predicate Clamped(policy: Policy, start: seq<Entry>, log: seq<(Merchant, Outcome)>) {
    forall j :: 0 <= j < |log| ==> Capped(policy, Balance(start, MerchantAvailable(log[j].0.id)), log[j].1)
  }

  /** No payout of the log is above the maximum. */
  predicate AtMost(policy: Policy, log: seq<(Merchant, Outcome)>) {
    forall j :: 0 <= j < |log| && log[j].1.Settled? ==> log[j].1.amount <= policy.maxPayout
  }

  /** Skipped below the minimum, else settled with the balance or the maximum, the smaller of them. */
  predicate Capped(policy: Policy, balance: int, r: Outcome) {
    match r
    case Errored => true
    case Skipped => balance < policy.minBalance
    case Settled(amount) =>
      balance >= policy.minBalance && amount <= balance && amount <= policy.maxPayout &&
      (amount == balance || amount == policy.maxPayout)
  }

  lemma CappedPays(policy: Policy, balance: int, r: Outcome)
    requires Capped(policy, balance, r) && !r.Errored?
    ensures PaidBy(r) == Pay(policy, balance)
  {
  }

  lemma ClampedStep(policy: Policy, start: seq<Entry>, log: seq<(Merchant, Outcome)>, x: (Merchant, Outcome))
    requires Clamped(policy, start, log)
    requires Capped(policy, Balance(start, MerchantAvailable(x.0.id)), x.1)
    ensures Clamped(policy, start, log + [x])
  {
  }

  /** A run leaves a merchant that did not fail exactly what one step of the policy leaves, and
      one that failed its whole balance. */
  lemma RunLeaves(
    policy: Policy,
    start: seq<Entry>,
    now: seq<Entry>,
    merchants: seq<Merchant>,
    log: seq<(Merchant, Outcome)>,
    j: nat)
    requires Accounted(start, now, log) && Clamped(policy, start, log) && Distinct(merchants)
    requires |log| == |merchants| && forall i :: 0 <= i < |log| ==> log[i].0 == merchants[i]
    requires j < |merchants|
    ensures Balance(now, MerchantAvailable(merchants[j].id))
         == Left(policy, Balance(start, MerchantAvailable(merchants[j].id)), if log[j].1.Errored? then 0 else 1)
  {
    var id := merchants[j].id;
    DrawnOnce(merchants, log, j);
    if !log[j].1.Errored? {
      CappedPays(policy, Balance(start, MerchantAvailable(id)), log[j].1);
    }
    var before := Balance(start, MerchantAvailable(id));
    assert Left(policy, before - Pay(policy, before), 0) == before - Pay(policy, before);
    assert Balance(now, MerchantAvailable(id)) == before - Sum(log, Drawn(id));
  }

  lemma {:induction false} DrawnOnce(merchants: seq<Merchant>, log: seq<(Merchant, Outcome)>, j: nat)
    requires Distinct(merchants) && j < |merchants|
    requires |log| == |merchants| && forall i :: 0 <= i < |log| ==> log[i].0 == merchants[i]
    ensures Sum(log, Drawn(merchants[j].id)) == PaidBy(log[j].1)
  {
    var f := Drawn(merchants[j].id);
    assert log == log[..j] + [log[j]] + log[j + 1..];
    SumConcat(log[..j] + [log[j]], log[j + 1..], f);
    SumAppend(log[..j], log[j], f);
    NotDrawnYet(log[..j], merchants[j].id);
    NotDrawnYet(log[j + 1..], merchants[j].id);
  }

  /** The runs of a sequence in which merchant j did not fail. */
  function Served(logs: seq<seq<(Merchant, Outcome)>>, j: nat): nat {
    if |logs| == 0 then 0
    else
      var last := logs[|logs| - 1];
      Served(logs[..|logs| - 1], j) + if j < |last| && last[j].1.Errored? then 0 else 1
  }

  /** One run after n others. */
  lemma {:induction false} LeftStep(policy: Policy, balance: int, n: nat)
    ensures Left(policy, balance, n + 1) == Left(policy, Left(policy, balance, n), 1)
    decreases n
  {
    if n == 0 {
    } else {
      LeftStep(policy, balance - Pay(policy, balance), n - 1);
    }
  }

  /** Every merchant's balance is what the policy leaves of its balance at the start after the runs
      in which it did not fail. */
  ghost predicate Drained(
    policy: Policy,
    start: seq<Entry>,
    now: seq<Entry>,
    merchants: seq<Merchant>,
    logs: seq<seq<(Merchant, Outcome)>>)
  {
    forall j: nat :: j < |merchants| ==>
      Balance(now, MerchantAvailable(merchants[j].id)) ==
      Left(policy, Balance(start, MerchantAvailable(merchants[j].id)), Served(logs, j))
  }

  lemma DrainedStep(
    policy: Policy,
    start: seq<Entry>,
    prev: seq<Entry>,
    now: seq<Entry>,
    merchants: seq<Merchant>,
    logs: seq<seq<(Merchant, Outcome)>>,
    log: seq<(Merchant, Outcome)>)
    requires Drained(policy, start, prev, merchants, logs) && Distinct(merchants)
    requires Accounted(prev, now, log) && Clamped(policy, prev, log)
    requires |log| == |merchants| && forall i :: 0 <= i < |log| ==> log[i].0 == merchants[i]
    ensures Drained(policy, start, now, merchants, logs + [log])
  {
    assert (logs + [log])[..|logs|] == logs;
    forall j: nat | j < |merchants|
      ensures Balance(now, MerchantAvailable(merchants[j].id)) ==
              Left(policy, Balance(start, MerchantAvailable(merchants[j].id)), Served(logs + [log], j))
    {
      RunLeaves(policy, prev, now, merchants, log, j);
      LeftStep(policy, Balance(start, MerchantAvailable(merchants[j].id)), Served(logs, j));
    }
  }

  /** From a balance that was not negative, n runs keep it between zero and where it was, and enough
      of them bring it below the minimum. */
  ghost predicate AtRest(policy: Policy, start: seq<Entry>, now: seq<Entry>, id: string, n: nat) {
    var b, rest := Balance(start, MerchantAvailable(id)), Balance(now, MerchantAvailable(id));
    b >= 0 ==> 0 <= rest <= b && (n * policy.maxPayout >= b ==> rest < policy.minBalance)
  }

  lemma RestsAfter(policy: Policy, start: seq<Entry>, now: seq<Entry>, id: string, n: nat)
    requires Positive(policy)
    requires Balance(now, MerchantAvailable(id)) == Left(policy, Balance(start, MerchantAvailable(id)), n)
    ensures AtRest(policy, start, now, id, n)
  {
    var b := Balance(start, MerchantAvailable(id));
    Conserved(policy, b, n);
    if b >= 0 && n * policy.maxPayout >= b {
      Drains(policy, b, n);
    }
  }

  lemma AllRest(
    policy: Policy,
    start: seq<Entry>,
    now: seq<Entry>,
    merchants: seq<Merchant>,
    logs: seq<seq<(Merchant, Outcome)>>)
    requires Positive(policy) && Drained(policy, start, now, merchants, logs)
    ensures forall j: nat :: j < |merchants| ==> AtRest(policy, start, now, merchants[j].id, Served(logs, j))
  {
    forall j: nat | j < |merchants| ensures AtRest(policy, start, now, merchants[j].id, Served(logs, j)) {
      RestsAfter(policy, start, now, merchants[j].id, Served(logs, j));
    }
  }

  // ---- What the rail was asked for ----

  /** One merchant of one run: what the rail agreed to pay out, and what the ledger took from the
      merchant's available balance for it. */
  datatype Transfer = Transfer(merchant: string, sent: int, debited: int)

  function SentTo(a: string): Transfer -> int {
    (t: Transfer) => if t.merchant == a then t.sent else 0
  }

  function Debited(a: string): Transfer -> int {
    (t: Transfer) => if t.merchant == a then t.debited else 0
  }

  function Unbooked(a: string): Transfer -> int {
    (t: Transfer) => if t.merchant == a then t.sent - t.debited else 0
  }

  ghost predicate TelescopesAt(
    policy: Policy,
    e0: seq<Entry>,
    m0: seq<Transfer>,
    e1: seq<Entry>,
    m1: seq<Transfer>,
    a: string)
  {
    Balance(e1, MerchantAvailable(a)) + Sum(m1, Debited(a)) ==
    Balance(e0, MerchantAvailable(a)) + Sum(m0, Debited(a)) &&
    (Positive(policy) && Balance(e0, MerchantAvailable(a)) >= 0 ==> Balance(e1, MerchantAvailable(a)) >= 0)
  }

  /** From one ledger to the next, what left an available balance is what the transfers debited, and
      no balance went below zero. */
  ghost predicate Telescopes(policy: Policy, e0: seq<Entry>, m0: seq<Transfer>, e1: seq<Entry>, m1: seq<Transfer>) {
    m0 <= m1 && forall a: string :: TelescopesAt(policy, e0, m0, e1, m1, a)
  }

  lemma TelescopesTrans(
    policy: Policy,
    e0: seq<Entry>,
    m0: seq<Transfer>,
    e1: seq<Entry>,
    m1: seq<Transfer>,
    e2: seq<Entry>,
    m2: seq<Transfer>)
    requires Telescopes(policy, e0, m0, e1, m1) && Telescopes(policy, e1, m1, e2, m2)
    ensures Telescopes(policy, e0, m0, e2, m2)
  {
    forall a: string ensures TelescopesAt(policy, e0, m0, e2, m2, a) {
      assert TelescopesAt(policy, e0, m0, e1, m1, a) && TelescopesAt(policy, e1, m1, e2, m2, a);
    }
  }

  lemma OneTransfer(policy: Policy, e0: seq<Entry>, m0: seq<Transfer>, e1: seq<Entry>, t: Transfer)
    requires forall a: string ::
               Balance(e1, MerchantAvailable(a)) == Balance(e0, MerchantAvailable(a)) - Debited(a)(t)
    requires Positive(policy) && t.debited != 0 ==> t.debited <= Balance(e0, MerchantAvailable(t.merchant))
    ensures Telescopes(policy, e0, m0, e1, m0 + [t])
  {
    forall a: string ensures TelescopesAt(policy, e0, m0, e1, m0 + [t], a) {
      SumAppend(m0, t, Debited(a));
      assert Balance(e1, MerchantAvailable(a)) == Balance(e0, MerchantAvailable(a)) - Debited(a)(t);
    }
  }

  /** A transfer that the ledger did not book leaves its merchant's balance as it was. */
  lemma Undebited(policy: Policy, e0: seq<Entry>, m0: seq<Transfer>, e1: seq<Entry>, t: Transfer)
    requires Telescopes(policy, e0, m0, e1, m0 + [t]) && t.debited == 0
    ensures Balance(e1, MerchantAvailable(t.merchant)) == Balance(e0, MerchantAvailable(t.merchant))
  {
    assert TelescopesAt(policy, e0, m0, e1, m0 + [t], t.merchant);
    SumAppend(m0, t, Debited(t.merchant));
  }

  lemma NoTransfer(policy: Policy, e: seq<Entry>, m0: seq<Transfer>, t: Transfer)
    requires t.debited == 0
    ensures Telescopes(policy, e, m0, e, m0 + [t])
  {
    OneTransfer(policy, e, m0, e, t);
  }

  lemma {:induction false} SentSplits(moves: seq<Transfer>, a: string)
    ensures Sum(moves, SentTo(a)) == Sum(moves, Debited(a)) + Sum(moves, Unbooked(a))
  {
    if |moves| == 0 {
    } else {
      SentSplits(moves[..|moves| - 1], a);
    }
  }

  /** The ledger took what the rail paid, or the rail paid nothing. */
  predicate Booked(t: Transfer) {
    t.debited == t.sent || (t.sent <= 0 && t.debited == 0)
  }

  /** The rail's payments to a merchant are what left its balance and what was never booked. Together
      they exceed the balance at the start exactly when more than the balance at the end was never
      booked; when every transfer is booked, they do not. */
  lemma RailPaysOnce(policy: Policy, e0: seq<Entry>, m0: seq<Transfer>, e1: seq<Entry>, moves: seq<Transfer>, a: string)
    requires Positive(policy) && Telescopes(policy, e0, m0, e1, m0 + moves)
    requires Balance(e0, MerchantAvailable(a)) >= 0 && forall t :: t in moves ==> t.sent >= 0
    ensures var start, rest := Balance(e0, MerchantAvailable(a)), Balance(e1, MerchantAvailable(a));
            Sum(moves, SentTo(a)) == start - rest + Sum(moves, Unbooked(a)) &&
            (Sum(moves, SentTo(a)) > start <==> Sum(moves, Unbooked(a)) > rest) &&
            ((forall t :: t in moves ==> Booked(t)) ==> Sum(moves, SentTo(a)) <= start)
  {
    assert TelescopesAt(policy, e0, m0, e1, m0 + moves, a);
    SumConcat(m0, moves, Debited(a));
    SentSplits(moves, a);
    if forall t :: t in moves ==> Booked(t) {
      SumZero(moves, Unbooked(a));
    }
  }

  /** A prefix of the start of a payout takes the amount as soon as it has its first row. */
  lemma InitPrefix(rows: seq<Entry>, m: string, id: nat, amount: int, c: string, n: nat, a: string)
    requires n <= 2
    ensures |PayoutInitGroup(m, id, amount, c)| == 2
    ensures Balance(rows + PayoutInitGroup(m, id, amount, c)[..n], MerchantAvailable(a))
         == Balance(rows, MerchantAvailable(a)) - if n > 0 && a == m then amount else 0
  {
    PrefixBalance(rows, PayoutInitGroup(m, id, amount, c), n, MerchantAvailable(a));
  }

  /** A prefix of its completion takes nothing from an available balance. */
  lemma CompletePrefix(rows: seq<Entry>, m: string, id: nat, amount: int, c: string, n: nat, a: string)
    requires n <= 2
    ensures |PayoutCompleteGroup(m, id, amount, c)| == 2
    ensures Balance(rows + PayoutCompleteGroup(m, id, amount, c)[..n], MerchantAvailable(a))
         == Balance(rows, MerchantAvailable(a))
  {
    PrefixBalance(rows, PayoutCompleteGroup(m, id, amount, c), n, MerchantAvailable(a));
  }

  lemma PrefixBalance(rows: seq<Entry>, g: seq<Entry>, n: nat, a: Account)
    requires n <= |g| == 2
    ensures Balance(rows + g[..n], a) == Balance(rows, a) +
            (if n > 0 then OnAccount(a)(g[0]) else 0) + if n > 1 then OnAccount(a)(g[1]) else 0
  {
    var f := OnAccount(a);
    assert rows + g[..0] == rows && rows + g[..1] == rows + [g[0]] && rows + g[..2] == rows + [g[0]] + [g[1]];
    SumAppend(rows, g[0], f);
    SumAppend(rows + [g[0]], g[1], f);
  }

  // ---- The runner ----

  predicate Serves(c: Capabilities, currency: string) {
    c.payout && currency in c.currencies
  }

  class Runner {
    const db: Connection
    ghost const intents: IntentRepo
    ghost const attempts: AttemptRepo
    const payouts: PayoutRepo
    const ledger: LedgerEngine
    ghost const cfg: FeeConfig
    const registry: map<string, Capabilities>
    /** What the rail was asked for, merchant by merchant, since the runner exists. */
    ghost var moves: seq<Transfer>

    constructor (
      db: Connection,
      ghost intents: IntentRepo,
      ghost attempts: AttemptRepo,
      payouts: PayoutRepo,
      ledger: LedgerEngine,
      ghost cfg: FeeConfig,
      registry: map<string, Capabilities>)
      requires payouts.db == ledger.repo.db == db
      ensures Wired() && this.payouts == payouts && this.ledger == ledger && this.intents == intents &&
              this.attempts == attempts
      ensures this.cfg == cfg && this.registry == registry
    {
      this.db, this.intents, this.attempts, this.payouts, this.ledger := db, intents, attempts, payouts, ledger;
      this.cfg, this.registry := cfg, registry;
      moves := [];
    }

    ghost predicate Wired() {
      payouts.db == db && ledger.repo.db == db
    }

    ghost function T(): Tables
      reads intents, attempts, payouts, ledger.repo
    {
      TablesOf(intents, attempts, payouts, ledger.repo)
    }

    ghost predicate InOrder()
      reads intents, attempts, payouts, ledger.repo, db
    {
      db.failed || Good(cfg, T())
    }

    /** The registry lists its names in an arbitrary order. */
    method Names() returns (names: seq<string>)
      ensures forall n :: n in names <==> n in registry
    {
      names := [];
      var todo := registry.Keys;
      while todo != {}
        invariant forall n :: n in names <==> n in registry && n !in todo
        invariant todo <= registry.Keys
        decreases todo
      {
        var n :| n in todo;
        names := names + [n];
        todo := todo - {n};
      }
    }

    predicate Pays(m: Merchant, rail: string) {
      rail in registry && Serves(registry[rail], m.currency)
    }

    /** Some connector that pays out in the merchant's currency; the empty name when there is none. */
    method SelectRail(m: Merchant) returns (rail: string)
      ensures (rail in registry && registry[rail].payout && m.currency in registry[rail].currencies) ||
              (rail == "" && forall n :: n in registry ==> !registry[n].payout || m.currency !in registry[n].currencies)
      ensures Pays(m, rail) || (rail == "" && forall n :: !Pays(m, n))
    {
      var names := Names();
      for i := 0 to |names|
        invariant forall j :: 0 <= j < i ==> !Pays(m, names[j])
      {
        assert names[i] in names;
        var caps := registry[names[i]];
        if !caps.payout {
          continue;
        }
        for k := 0 to |caps.currencies|
          invariant m.currency !in caps.currencies[..k]
        {
          if caps.currencies[k] == m.currency {
            return names[i];
          }
        }
      }
      forall n ensures !Pays(m, n) {
        if n in registry {
          assert n in names;
        }
      }
      return "";
    }

    function PayoutOf(m: Merchant, amount: int, rail: string, answer: PayoutAnswer): Payout
      requires answer.Taken?
    {
      Payout(m.id, amount, m.currency, rail, if answer.status == "succeeded" then PayoutSucceeded else PayoutPending)
    }

    /** What makes a merchant fail: the rail refuses, no rail pays its currency, or a statement of
        the stretch returned an error. */
    ghost predicate Excused(m: Merchant, answer: PayoutAnswer, from: nat, to: nat) {
      answer.PayoutError? || (forall n :: !Pays(m, n)) || exists k :: from <= k < to && k in db.faults
    }

    /** What one merchant's turn moves, at a balance and from a statement on: the rail pays what it
        agreed to, and the ledger takes it when the payout's row and the first row of its post go in. */
    ghost function Moved(m: Merchant, policy: Policy, balance: int, at: nat, answer: PayoutAnswer): Transfer {
      var agreed := at !in db.faults && balance >= policy.minBalance && Agreed(m, answer);
      var sent := if agreed then Pay(policy, balance) else 0;
      Transfer(m.id, sent, Taken(sent, at + 1))
    }

    /** The rail pays nothing unless it accepts, never more than the balance or the maximum, and at
        least the minimum. */
    lemma MovedAtMost(m: Merchant, policy: Policy, balance: int, at: nat, answer: PayoutAnswer)
      ensures var sent := Moved(m, policy, balance, at, answer).sent;
              sent == 0 ||
              (answer.Taken? && at !in db.faults && balance >= policy.minBalance && sent <= balance &&
               sent <= policy.maxPayout && (sent == balance || sent == policy.maxPayout))
    {
    }

    /** What the ledger takes of an amount when the payout is recorded from a statement on. */
    ghost function Taken(amount: int, at: nat): int {
      if amount > 0 && at !in db.faults && at + 1 !in db.faults then amount else 0
    }

    /** One merchant: read the balance, clamp it, ask the rail, record the payout, move the money.
        Errors of the ledger are logged and swallowed. */
    method SettleMerchant(m: Merchant, policy: Policy, answer: PayoutAnswer) returns (r: Outcome)
      requires Wired()
      modifies payouts, ledger.repo, db, this`moves
      ensures old(db.failed) ==> db.failed
      ensures var balance := old(Balance(ledger.repo.rows, MerchantAvailable(m.id)));
              (r.Skipped? <==> old(db.issued) !in db.faults && balance < policy.minBalance) &&
              (r.Settled? ==> balance >= policy.minBalance && r.amount == Pay(policy, balance) && answer.Taken?)
      ensures var balance := old(Balance(ledger.repo.rows, MerchantAvailable(m.id)));
              r.Settled? ==> r.amount <= balance && r.amount <= policy.maxPayout &&
                             (r.amount == balance || r.amount == policy.maxPayout)
      ensures r.Settled? && !db.failed ==>
                |payouts.rows| == |old(payouts.rows)| + 1 &&
                var p := payouts.rows[|old(payouts.rows)|];
                p.merchant == m.id && p.amount == r.amount && p.currency == m.currency &&
                p.status == if answer.status == "succeeded" then PayoutSucceeded else PayoutPending
      ensures r.Skipped? ==> T() == old(T()) && db.failed == old(db.failed)
      ensures r.Errored? && !db.failed ==> T() == old(T())
      ensures db.issued >= old(db.issued)
      ensures r.Errored? && !db.failed ==> Excused(m, answer, old(db.issued), db.issued)
      ensures r.Settled? && !db.failed ==>
                exists rail :: ((exists n :: Pays(m, n)) ==> Pays(m, rail)) &&
                  T() == AfterPayout(old(T()), PayoutOf(m, r.amount, rail, answer))
      ensures !db.failed ==>
                forall a: string :: Balance(ledger.repo.rows, MerchantAvailable(a)) ==
                  old(Balance(ledger.repo.rows, MerchantAvailable(a))) - Drawn(a)((m, r))
      ensures var balance := old(Balance(ledger.repo.rows, MerchantAvailable(m.id)));
              moves == old(moves) + [Moved(m, policy, balance, old(db.issued), answer)]
      ensures Telescopes(policy, old(ledger.repo.rows), old(moves), ledger.repo.rows, moves)
      ensures BookedUnlessFault(policy, old(moves), moves, old(db.issued), db.issued)
      ensures moves[|old(moves)|].sent > 0 ==>
                db.issued >= old(db.issued) + if old(db.issued) + 1 in db.faults then 2 else 3
      ensures old(InOrder()) ==> InOrder()
    {
      ghost var start := ledger.repo.rows;
      ghost var t := Moved(m, policy, Balance(start, MerchantAvailable(m.id)), db.issued, answer);
      moves := moves + [t];
      var read, balance := ledger.repo.ReadBalance(MerchantAvailable(m.id));
      if !read {
        NoTransfer(policy, start, old(moves), t);
        return Errored;
      }
      if balance < policy.minBalance {
        NoTransfer(policy, start, old(moves), t);
        return Skipped;
      }
      var amount := balance;
      if amount > policy.maxPayout {
        amount := policy.maxPayout;
      }
      var ok := PayOut(m, amount, answer);
      OneTransfer(policy, start, old(moves), ledger.repo.rows, t);
      r := if ok then Settled(amount) else Errored;
    }

    /** The rail can be asked and accepts. */
    ghost predicate Agreed(m: Merchant, answer: PayoutAnswer) {
      answer.Taken? && ("" in registry || exists n :: Pays(m, n))
    }

    /** The amount is known: find a rail, ask it, record what it agreed to. */
    method PayOut(m: Merchant, amount: int, answer: PayoutAnswer) returns (ok: bool)
      requires Wired()
      modifies payouts, ledger.repo, db
      ensures old(db.failed) ==> db.failed
      ensures db.issued >= old(db.issued) + if !Agreed(m, answer) then 0
                                            else if old(db.issued) in db.faults || amount <= 0 then 1 else 2
      ensures ok ==> Agreed(m, answer)
      ensures ok && !db.failed ==>
                exists rail :: ((exists n :: Pays(m, n)) ==> Pays(m, rail)) &&
                  T() == AfterPayout(old(T()), PayoutOf(m, amount, rail, answer))
      ensures ok && !db.failed ==>
                |payouts.rows| == |old(payouts.rows)| + 1 &&
                var p := payouts.rows[|old(payouts.rows)|];
                p.merchant == m.id && p.amount == amount && p.currency == m.currency &&
                p.status == if answer.status == "succeeded" then PayoutSucceeded else PayoutPending
      ensures !ok && !db.failed ==> T() == old(T()) && Excused(m, answer, old(db.issued), db.issued)
      ensures !db.failed ==>
                forall a: string :: Balance(ledger.repo.rows, MerchantAvailable(a)) ==
                  old(Balance(ledger.repo.rows, MerchantAvailable(a))) -
                  Drawn(a)((m, if ok then Settled(amount) else Errored))
      ensures forall a: string :: Balance(ledger.repo.rows, MerchantAvailable(a)) ==
                old(Balance(ledger.repo.rows, MerchantAvailable(a))) -
                if a == m.id && Agreed(m, answer) then Taken(amount, old(db.issued)) else 0
      ensures old(InOrder()) ==> InOrder()
    {
      var rail := SelectRail(m);
      if rail !in registry || answer.PayoutError? {
        return false;
      }
      ok := Record(m, amount, rail, answer);
    }

    /** The rail has agreed: the payout row, then the ledger. */
    method Record(m: Merchant, amount: int, rail: string, answer: PayoutAnswer) returns (ok: bool)
      requires Wired() && answer.Taken?
      modifies payouts, ledger.repo, db
      ensures old(db.failed) ==> db.failed
      ensures ok && !db.failed ==> T() == AfterPayout(old(T()), PayoutOf(m, amount, rail, answer))
      ensures ok && !db.failed ==>
                payouts.rows == old(payouts.rows) +
                  [Payout(m.id, amount, m.currency, rail,
                          if answer.status == "succeeded" then PayoutSucceeded else PayoutPending)]
      ensures !ok && !db.failed ==> T() == old(T()) && old(db.issued) in db.faults
      ensures ok && !db.failed ==>
                forall a: string :: Balance(ledger.repo.rows, MerchantAvailable(a)) ==
                  old(Balance(ledger.repo.rows, MerchantAvailable(a))) - Drawn(a)((m, Settled(amount)))
      ensures forall a: string :: Balance(ledger.repo.rows, MerchantAvailable(a)) ==
                old(Balance(ledger.repo.rows, MerchantAvailable(a))) -
                if a == m.id then Taken(amount, old(db.issued)) else 0
      ensures db.issued >= old(db.issued) + if old(db.issued) in db.faults || amount <= 0 then 1 else 2
      ensures old(InOrder()) ==> InOrder()
    {
      ghost var tb := T();
      var id;
      ok, id := payouts.Create(Payout(m.id, amount, m.currency, rail, PayoutPending));
      if !ok {
        return;
      }
      if Good(cfg, tb) {
        PayOutGood(cfg, tb, PayoutOf(m, amount, rail, answer));
      }
      ok := MoveMoney(tb, m, amount, rail, id, answer);
      forall a: string ensures Balance(AfterPayout(tb, PayoutOf(m, amount, rail, answer)).entries, MerchantAvailable(a))
                            == Balance(tb.entries, MerchantAvailable(a)) - Drawn(a)((m, Settled(amount))) {
        PayoutMoves(tb, PayoutOf(m, amount, rail, answer), a);
      }
    }

    /** The payout row is in; post its start and, when the rail has already paid, its completion. */
    method MoveMoney(
      ghost tb: Tables,
      m: Merchant,
      amount: int,
      rail: string,
      id: nat,
      answer: PayoutAnswer)
      returns (ok: bool)
      requires Wired() && answer.Taken? && id == |tb.payouts|
      requires T() == tb.(payouts := tb.payouts + [Payout(m.id, amount, m.currency, rail, PayoutPending)])
      modifies payouts, ledger.repo, db
      ensures db.issued >= old(db.issued) && (old(db.failed) ==> db.failed)
      ensures amount > 0 ==> db.issued > old(db.issued)
      ensures !ok ==> db.failed
      ensures !db.failed ==> T() == AfterPayout(tb, PayoutOf(m, amount, rail, answer))
      ensures amount > 0 && !ok ==> answer.status == "succeeded"
      ensures forall a: string :: Balance(ledger.repo.rows, MerchantAvailable(a)) ==
                Balance(tb.entries, MerchantAvailable(a)) -
                if a == m.id && amount > 0 && old(db.issued) !in db.faults then amount else 0
    {
      ghost var init := PayoutInitGroup(m.id, id, amount, m.currency);
      var posted, n := ledger.PostPayoutInit(m.id, id, amount, m.currency);
      assert posted ==> init[..n] == init;
      assert n > 0 <==> Goes(db.faults, old(db.issued), init, 0);
      ghost var rows := ledger.repo.rows;
      forall a: string ensures Balance(rows, MerchantAvailable(a)) == Balance(tb.entries, MerchantAvailable(a)) -
                                 if a == m.id && n > 0 then amount else 0 {
        InitPrefix(tb.entries, m.id, id, amount, m.currency, n, a);
      }
      ok := true;
      if answer.status == "succeeded" {
        ok := Complete(m, amount, id);
      }
    }

    /** The rail has already paid: the payout has succeeded, and its completion is posted. */
    method Complete(m: Merchant, amount: int, id: nat) returns (ok: bool)
      requires Wired()
      modifies payouts, ledger.repo, db
      ensures db.issued >= old(db.issued) && (old(db.failed) ==> db.failed)
      ensures !ok ==> db.failed
      ensures !db.failed && id < |old(payouts.rows)| ==>
                payouts.rows == old(payouts.rows)[id := old(payouts.rows)[id].(status := PayoutSucceeded)] &&
                ledger.repo.rows == old(ledger.repo.rows) + PayoutCompleteGroup(m.id, id, amount, m.currency)
      ensures forall a: string :: Balance(ledger.repo.rows, MerchantAvailable(a)) ==
                                  old(Balance(ledger.repo.rows, MerchantAvailable(a)))
    {
      ghost var rows, complete := ledger.repo.rows, PayoutCompleteGroup(m.id, id, amount, m.currency);
      ok := payouts.UpdateStatus(id, PayoutSucceeded);
      if !ok {
        return;
      }
      var posted, n := ledger.PostPayoutComplete(m.id, id, amount, m.currency);
      assert posted ==> complete[..n] == complete;
      forall a: string ensures Balance(ledger.repo.rows, MerchantAvailable(a)) == Balance(rows, MerchantAvailable(a)) {
        CompletePrefix(rows, m.id, id, amount, m.currency, n, a);
      }
    }

    /** The counterexample: with a single failing statement, the first row of one payout's post, two
        turns of one merchant make the rail pay its balance twice. */
    method PaidTwice(m: Merchant, policy: Policy, first: PayoutAnswer, second: PayoutAnswer)
      requires Wired() && Positive(policy) && first.Taken? && second.Taken? && exists n :: Pays(m, n)
      requires policy.minBalance <= Balance(ledger.repo.rows, MerchantAvailable(m.id)) <= policy.maxPayout
      requires forall k :: k in db.faults <==> k == db.issued + 2
      modifies payouts, ledger.repo, db, this`moves
      ensures var b := old(Balance(ledger.repo.rows, MerchantAvailable(m.id)));
              moves == old(moves) + [Transfer(m.id, b, 0), Transfer(m.id, b, b)]
    {
      ghost var before, at, b := moves, db.issued, Balance(ledger.repo.rows, MerchantAvailable(m.id));
      MovesAs(m, policy, b, at, first);
      var _ := SettleMerchant(m, policy, first);
      Undebited(policy, old(ledger.repo.rows), before, ledger.repo.rows, Transfer(m.id, b, 0));
      MovesAs(m, policy, b, db.issued, second);
      var _ := SettleMerchant(m, policy, second);
      assert moves == before + [Transfer(m.id, b, 0)] + [Transfer(m.id, b, b)];
    }

    /** A turn at a balance the policy lets through, with the read going through and an agreeing rail. */
    lemma MovesAs(m: Merchant, policy: Policy, b: int, at: nat, answer: PayoutAnswer)
      requires Positive(policy) && policy.minBalance <= b <= policy.maxPayout && at !in db.faults
      requires Agreed(m, answer)
      ensures Moved(m, policy, b, at, answer) ==
              Transfer(m.id, b, if at + 1 in db.faults || at + 2 in db.faults then 0 else b)
    {
    }

    /** What the log of the merchants so far says of the ledger. */
    ghost predicate LogOk(
      merchants: seq<Merchant>,
      answers: seq<PayoutAnswer>,
      policy: Policy,
      start: seq<Entry>,
      now: seq<Entry>,
      log: seq<(Merchant, Outcome)>,
      from: nat,
      to: nat)
    {
      |log| <= |merchants| == |answers| && Accounted(start, now, log) &&
      (Distinct(merchants) ==> Clamped(policy, start, log)) &&
      (forall j :: 0 <= j < |log| ==> log[j].0 == merchants[j]) &&
      (forall j :: 0 <= j < |log| && log[j].1.Errored? ==> Excused(merchants[j], answers[j], from, to))
    }

    lemma LogStep(
      merchants: seq<Merchant>,
      answers: seq<PayoutAnswer>,
      policy: Policy,
      start: seq<Entry>,
      prev: seq<Entry>,
      now: seq<Entry>,
      log: seq<(Merchant, Outcome)>,
      r: Outcome,
      from: nat,
      at: nat,
      to: nat)
      requires |log| < |merchants| && LogOk(merchants, answers, policy, start, prev, log, from, at) && from <= at <= to
      requires var balance := Balance(prev, MerchantAvailable(merchants[|log|].id));
               Capped(policy, balance, r)
      requires r.Errored? ==> Excused(merchants[|log|], answers[|log|], at, to)
      requires forall a: string :: Balance(now, MerchantAvailable(a)) ==
                 Balance(prev, MerchantAvailable(a)) - Drawn(a)((merchants[|log|], r))
      ensures LogOk(merchants, answers, policy, start, now, log + [(merchants[|log|], r)], from, to)
    {
      var m := merchants[|log|];
      AccountedStep(start, prev, now, log, (m, r));
      if Distinct(merchants) {
        NotDrawnYet(log, m.id);
        assert Balance(prev, MerchantAvailable(m.id)) == Balance(start, MerchantAvailable(m.id));
        ClampedStep(policy, start, log, (m, r));
      }
    }

    /** The run over all merchants: a merchant that fails is logged and passed over. The second
        counter the source logs is never incremented. */
    method Settle(merchants: seq<Merchant>, policy: Policy, answers: seq<PayoutAnswer>)
      returns (settled: nat, skipped: nat, ghost log: seq<(Merchant, Outcome)>)
      requires Wired() && |answers| == |merchants|
      modifies payouts, ledger.repo, db, this`moves
      ensures |log| == |merchants| && forall j :: 0 <= j < |log| ==> log[j].0 == merchants[j]
      ensures settled == Sum(log, Passed()) && skipped == 0
      ensures AtMost(policy, log)
      ensures !db.failed && Distinct(merchants) ==>
                forall j :: 0 <= j < |log| && log[j].1.Settled? ==>
                  var balance := Balance(old(ledger.repo.rows), MerchantAvailable(merchants[j].id));
                  balance >= policy.minBalance && log[j].1.amount <= balance &&
                  (log[j].1.amount == balance || log[j].1.amount == policy.maxPayout)
      ensures old(db.failed) ==> db.failed
      ensures db.issued >= old(db.issued)
      ensures !db.failed ==> FailsOnlyExcused(merchants, answers, log, old(db.issued), db.issued)
      ensures !db.failed ==> Accounted(old(ledger.repo.rows), ledger.repo.rows, log)
      ensures !db.failed && Distinct(merchants) ==> Clamped(policy, old(ledger.repo.rows), log)
      ensures Telescopes(policy, old(ledger.repo.rows), old(moves), ledger.repo.rows, moves)
      ensures BookedUnlessFault(policy, old(moves), moves, old(db.issued), db.issued)
      ensures old(InOrder()) ==> InOrder()
    {
      settled, skipped, log := 0, 0, [];
      ghost var start, from := ledger.repo.rows, db.issued;
      for i := 0 to |merchants|
        invariant |log| == i && forall j :: 0 <= j < i ==> log[j].0 == merchants[j]
        invariant settled == Sum(log, Passed()) && skipped == 0
        invariant AtMost(policy, log)
        invariant db.issued >= from && (old(db.failed) ==> db.failed)
        invariant !db.failed ==> LogOk(merchants, answers, policy, start, ledger.repo.rows, log, from, db.issued)
        invariant Telescopes(policy, start, old(moves), ledger.repo.rows, moves)
        invariant BookedUnlessFault(policy, old(moves), moves, from, db.issued)
        invariant old(InOrder()) ==> InOrder()
      {
        ghost var prev, sent, at := ledger.repo.rows, moves, db.issued;
        var r := SettleMerchant(merchants[i], policy, answers[i]);
        TelescopesTrans(policy, start, old(moves), prev, sent, ledger.repo.rows, moves);
        BookedStep(policy, old(moves), sent, moves, from, at, db.issued);
        if !db.failed {
          LogStep(merchants, answers, policy, start, prev, ledger.repo.rows, log, r, from, at, db.issued);
        }
        SumAppend(log, (merchants[i], r), Passed());
        log := log + [(merchants[i], r)];
        if !r.Errored? {
          settled := settled + 1;
        }
      }
    }

    ghost predicate NoFault(from: nat, to: nat) {
      forall k :: from <= k < to ==> k !in db.faults
    }

    /** Every new transfer is booked, unless a statement of the stretch returned an error. */
    ghost predicate BookedUnlessFault(policy: Policy, m0: seq<Transfer>, m1: seq<Transfer>, from: nat, to: nat) {
      m0 <= m1 && (NoFault(from, to) ==> forall i :: |m0| <= i < |m1| ==> Booked(m1[i])) &&
      (Positive(policy) ==> forall i :: |m0| <= i < |m1| ==> 0 <= m1[i].sent <= policy.maxPayout)
    }

    lemma BookedStep(
      policy: Policy,
      m0: seq<Transfer>,
      m1: seq<Transfer>,
      m2: seq<Transfer>,
      from: nat,
      at: nat,
      to: nat)
      requires BookedUnlessFault(policy, m0, m1, from, at) && from <= at <= to
      requires BookedUnlessFault(policy, m1, m2, at, to)
      ensures BookedUnlessFault(policy, m0, m2, from, to)
    {
    }

    /** What the rail paid a merchant from one ledger to another is at most its balance at the start,
        when every statement went through. */
    ghost predicate PaysOnce(e0: seq<Entry>, m0: seq<Transfer>, m1: seq<Transfer>, from: nat, to: nat, a: string) {
      m0 <= m1 && (NoFault(from, to) && Balance(e0, MerchantAvailable(a)) >= 0 ==>
        Sum(m1[|m0|..], SentTo(a)) <= Balance(e0, MerchantAvailable(a)))
    }

    lemma AllPayOnce(
      policy: Policy,
      e0: seq<Entry>,
      m0: seq<Transfer>,
      e1: seq<Entry>,
      m1: seq<Transfer>,
      from: nat,
      to: nat)
      requires Positive(policy) && Telescopes(policy, e0, m0, e1, m1) && BookedUnlessFault(policy, m0, m1, from, to)
      ensures forall a: string :: PaysOnce(e0, m0, m1, from, to, a)
    {
      var moves := m1[|m0|..];
      assert m1 == m0 + moves;
      forall a: string ensures PaysOnce(e0, m0, m1, from, to, a) {
        if NoFault(from, to) && Balance(e0, MerchantAvailable(a)) >= 0 {
          RailPaysOnce(policy, e0, m0, e1, moves, a);
        }
      }
    }

    ghost predicate FailsOnlyExcused(
      merchants: seq<Merchant>,
      answers: seq<PayoutAnswer>,
      log: seq<(Merchant, Outcome)>,
      from: nat,
      to: nat)
    {
      |log| == |merchants| == |answers| &&
      forall j :: 0 <= j < |log| && log[j].1.Errored? ==> Excused(merchants[j], answers[j], from, to)
    }

    ghost predicate AllExcused(
      merchants: seq<Merchant>,
      answers: seq<seq<PayoutAnswer>>,
      logs: seq<seq<(Merchant, Outcome)>>,
      from: nat,
      to: nat)
    {
      |logs| == |answers| &&
      forall i :: 0 <= i < |logs| ==> FailsOnlyExcused(merchants, answers[i], logs[i], from, to)
    }

    lemma ExcusedStep(
      merchants: seq<Merchant>,
      answers: seq<seq<PayoutAnswer>>,
      logs: seq<seq<(Merchant, Outcome)>>,
      answer: seq<PayoutAnswer>,
      log: seq<(Merchant, Outcome)>,
      from: nat,
      at: nat,
      to: nat)
      requires AllExcused(merchants, answers, logs, from, at) && FailsOnlyExcused(merchants, answer, log, at, to)
      requires from <= at <= to
      ensures AllExcused(merchants, answers + [answer], logs + [log], from, to)
    {
      forall i | 0 <= i < |logs| ensures FailsOnlyExcused(merchants, answers[i], logs[i], from, to) {
        assert FailsOnlyExcused(merchants, answers[i], logs[i], from, at);
      }
    }

    /** One run after another, with nothing collected between them. A merchant's balance comes to
        rest below the minimum within ceil(balance / maximum) of the runs in which it did not fail,
        never below zero; the runs in which it fails leave its balance as it is. */
    method SettleRuns(merchants: seq<Merchant>, policy: Policy, answers: seq<seq<PayoutAnswer>>)
      returns (ghost logs: seq<seq<(Merchant, Outcome)>>)
      requires Wired() && Distinct(merchants) && forall a :: a in answers ==> |a| == |merchants|
      modifies payouts, ledger.repo, db, this`moves
      ensures |logs| == |answers| && db.issued >= old(db.issued)
      ensures forall i :: 0 <= i < |logs| ==> AtMost(policy, logs[i])
      ensures !db.failed ==> AllExcused(merchants, answers, logs, old(db.issued), db.issued)
      ensures !db.failed ==> Drained(policy, old(ledger.repo.rows), ledger.repo.rows, merchants, logs)
      ensures !db.failed && Positive(policy) ==> forall j: nat :: j < |merchants| ==>
                AtRest(policy, old(ledger.repo.rows), ledger.repo.rows, merchants[j].id, Served(logs, j))
      ensures Telescopes(policy, old(ledger.repo.rows), old(moves), ledger.repo.rows, moves)
      ensures BookedUnlessFault(policy, old(moves), moves, old(db.issued), db.issued)
      ensures Positive(policy) ==>
                forall a: string :: PaysOnce(old(ledger.repo.rows), old(moves), moves, old(db.issued), db.issued, a)
      ensures old(InOrder()) ==> InOrder()
    {
      logs := [];
      ghost var start, m0, from := ledger.repo.rows, moves, db.issued;
      for i := 0 to |answers|
        invariant RunsOk(merchants, answers[..i], policy, start, m0, logs, from)
        invariant (old(db.failed) ==> db.failed) && (old(InOrder()) ==> InOrder())
      {
        assert answers[i] in answers && answers[..i + 1] == answers[..i] + [answers[i]];
        var log := SettleNext(merchants, policy, answers[i], answers[..i], start, m0, logs, from);
        logs := logs + [log];
      }
      assert answers[..|answers|] == answers;
      if Positive(policy) {
        AllPayOnce(policy, start, old(moves), ledger.repo.rows, moves, old(db.issued), db.issued);
      }
      if !db.failed && Positive(policy) {
        AllRest(policy, start, ledger.repo.rows, merchants, logs);
      }
    }

    /** What the runs so far have logged, moved and left, since a ledger, its moves and a statement. */
    ghost predicate RunsOk(
      merchants: seq<Merchant>,
      answers: seq<seq<PayoutAnswer>>,
      policy: Policy,
      start: seq<Entry>,
      m0: seq<Transfer>,
      logs: seq<seq<(Merchant, Outcome)>>,
      from: nat)
      reads this, ledger.repo, db
    {
      |logs| == |answers| && db.issued >= from &&
      (forall k :: 0 <= k < |logs| ==> AtMost(policy, logs[k])) &&
      (!db.failed ==>
         AllExcused(merchants, answers, logs, from, db.issued) &&
         Drained(policy, start, ledger.repo.rows, merchants, logs)) &&
      Telescopes(policy, start, m0, ledger.repo.rows, moves) &&
      BookedUnlessFault(policy, m0, moves, from, db.issued)
    }

    /** One run more. */
    method SettleNext(
      merchants: seq<Merchant>,
      policy: Policy,
      answer: seq<PayoutAnswer>,
      ghost answers: seq<seq<PayoutAnswer>>,
      ghost start: seq<Entry>,
      ghost m0: seq<Transfer>,
      ghost logs: seq<seq<(Merchant, Outcome)>>,
      ghost from: nat)
      returns (ghost log: seq<(Merchant, Outcome)>)
      requires Wired() && Distinct(merchants) && |answer| == |merchants|
      requires RunsOk(merchants, answers, policy, start, m0, logs, from)
      modifies payouts, ledger.repo, db, this`moves
      ensures RunsOk(merchants, answers + [answer], policy, start, m0, logs + [log], from)
      ensures (old(db.failed) ==> db.failed) && (old(InOrder()) ==> InOrder())
    {
      ghost var prev, sent, at := ledger.repo.rows, moves, db.issued;
      var _, _, l := Settle(merchants, policy, answer);
      log := l;
      TelescopesTrans(policy, start, m0, prev, sent, ledger.repo.rows, moves);
      BookedStep(policy, m0, sent, moves, from, at, db.issued);
      if !db.failed {
        ExcusedStep(merchants, answers, logs, answer, log, from, at, db.issued);
        DrainedStep(policy, start, prev, ledger.repo.rows, merchants, logs, log);
      }
    }
  }
}
