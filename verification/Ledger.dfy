/** The double-entry ledger: entries, balances, the posting groups and their validation. */
module Ledger {
  import opened Accounts
  import opened Database
  import opened Int64
  import opened Sums

  datatype Side = Debit | Credit

  datatype RefType = AttemptRef | FeeRef | RefundRef | PayoutRef

  datatype Entry = Entry(account: Account, side: Side, amount: int, currency: string, refType: RefType, refId: nat)

  // ---- Folds over the entry table ----

  /** Debit counts up, as in the validation loop. */
  function InCurrency(c: string): Entry -> int {
    (e: Entry) => if e.currency != c then 0 else if e.side == Debit then e.amount else -e.amount
  }

  /** Credit counts up, as in the balance query. */
  function OnAccount(a: Account): Entry -> int {
    (e: Entry) => if e.account != a then 0 else if e.side == Credit then e.amount else -e.amount
  }

  /** Debits less credits in one currency. */
  function Net(entries: seq<Entry>, c: string): int {
    Sum(entries, InCurrency(c))
  }

  /** The signed sum the balance query returns; it does not look at the currency. */
  function Balance(entries: seq<Entry>, a: Account): int {
    Sum(entries, OnAccount(a))
  }

  function OnName(name: string): Entry -> int {
    (e: Entry) => if Name(e.account) != name then 0 else if e.side == Credit then e.amount else -e.amount
  }

  /** The table stores names: selecting by an account's name selects exactly that account's rows. */
  lemma BalanceByName(entries: seq<Entry>, a: Account)
    ensures Sum(entries, OnName(Name(a))) == Balance(entries, a)
  {
    forall e | e in entries ensures OnName(Name(a))(e) == OnAccount(a)(e) {
      NameInjective(e.account, a);
    }
    SumEqual(entries, OnName(Name(a)), OnAccount(a));
  }

  // ---- Posting groups ----

  /** One movement of money: a debit of one account and the equal credit of another. */
  function Pair(from: Account, to: Account, amount: int, currency: string, t: RefType, id: nat): seq<Entry> {
    [Entry(from, Debit, amount, currency, t, id), Entry(to, Credit, amount, currency, t, id)]
  }

  function CollectionGroup(
    merchant: string,
    piId: nat,
    psp: string,
    amount: int,
    currency: string,
    fee: int): seq<Entry>
  {
    Pair(PspClearing(psp), MerchantAvailable(merchant), amount, currency, AttemptRef, piId) +
    if fee > 0 then Pair(MerchantAvailable(merchant), PlatformFees, fee, currency, FeeRef, piId) else []
  }

  function RefundGroup(merchant: string, piId: nat, psp: string, amount: int, currency: string): seq<Entry> {
    Pair(MerchantAvailable(merchant), PspClearing(psp), amount, currency, RefundRef, piId)
  }

  function PayoutInitGroup(merchant: string, payoutId: nat, amount: int, currency: string): seq<Entry> {
    Pair(MerchantAvailable(merchant), MerchantInTransit(merchant), amount, currency, PayoutRef, payoutId)
  }

  function PayoutCompleteGroup(merchant: string, payoutId: nat, amount: int, currency: string): seq<Entry> {
    Pair(MerchantInTransit(merchant), PlatformOperating, amount, currency, PayoutRef, payoutId)
  }

  function PayoutReversalGroup(merchant: string, payoutId: nat, amount: int, currency: string): seq<Entry> {
    Pair(MerchantInTransit(merchant), MerchantAvailable(merchant), amount, currency, PayoutRef, payoutId)
  }

  predicate PairAt(g: seq<Entry>, k: nat) {
    k + 1 < |g| &&
    g[k].side == Debit && g[k + 1].side == Credit &&
    g[k].amount == g[k + 1].amount && g[k].currency == g[k + 1].currency
  }

  /** Debits at even places, each followed by the equal credit. */
  predicate Paired(g: seq<Entry>) {
    forall k :: 0 <= k < |g| && k % 2 == 0 ==> PairAt(g, k)
  }

  /** What the first k rows of a paired group leave unmatched in one currency. */
  function OpenDebit(g: seq<Entry>, k: nat, c: string): int
    requires k <= |g|
  {
    if k % 2 == 1 && g[k - 1].currency == c then g[k - 1].amount else 0
  }

  /** A group stopped after any prefix is off balance by exactly the debit left open. */
  lemma {:induction false} PairedNet(g: seq<Entry>, k: nat, c: string)
    requires Paired(g) && k <= |g|
    ensures Net(g[..k], c) == OpenDebit(g, k, c)
  {
    if k == 0 {
    } else {
      PairedNet(g, k - 1, c);
      SumPrefix(g, k - 1, InCurrency(c));
      assert k % 2 == 1 ==> PairAt(g, k - 1);
      assert k % 2 == 0 ==> PairAt(g, k - 2);
    }
  }

  // ---- Effect of a whole post on every account ----

  function Moved(a: Account, from: Account, to: Account, amount: int): int {
    (if a == to then amount else 0) - (if a == from then amount else 0)
  }

  lemma PairEffect(
    rows: seq<Entry>,
    from: Account,
    to: Account,
    amount: int,
    c: string,
    t: RefType,
    id: nat,
    a: Account)
    ensures Balance(rows + Pair(from, to, amount, c, t, id), a) == Balance(rows, a) + Moved(a, from, to, amount)
  {
    var p := Pair(from, to, amount, c, t, id);
    assert rows + p == rows + [p[0]] + [p[1]];
    SumAppend(rows, p[0], OnAccount(a));
    SumAppend(rows + [p[0]], p[1], OnAccount(a));
  }

  /** The fee rows are posted only for a positive fee. */
  function Charged(fee: int): nat {
    if fee > 0 then fee else 0
  }

  /** A collection moves the amount from the provider's clearing account to the merchant, and the
      fee on to the platform; no other account changes. */
  lemma CollectionEffect(
    rows: seq<Entry>,
    m: string,
    id: nat,
    psp: string,
    amount: int,
    c: string,
    fee: int,
    a: Account)
    ensures Balance(rows + CollectionGroup(m, id, psp, amount, c, fee), a) == Balance(rows, a) +
              (match a
               case MerchantAvailable(n) => if n == m then amount - Charged(fee) else 0
               case PlatformFees => Charged(fee)
               case PspClearing(p) => if p == psp then -amount else 0
               case _ => 0)
  {
    var g := CollectionGroup(m, id, psp, amount, c, fee);
    var p := Pair(PspClearing(psp), MerchantAvailable(m), amount, c, AttemptRef, id);
    PairEffect(rows, PspClearing(psp), MerchantAvailable(m), amount, c, AttemptRef, id, a);
    if fee > 0 {
      var q := Pair(MerchantAvailable(m), PlatformFees, fee, c, FeeRef, id);
      PairEffect(rows + p, MerchantAvailable(m), PlatformFees, fee, c, FeeRef, id, a);
      assert rows + g == rows + p + q;
    } else {
      assert g == p;
    }
  }

  /** A refund takes the amount from the merchant back to the provider's clearing account. */
  lemma RefundEffect(rows: seq<Entry>, m: string, id: nat, psp: string, amount: int, c: string, a: Account)
    ensures Balance(rows + RefundGroup(m, id, psp, amount, c), a) == Balance(rows, a) +
              (match a
               case MerchantAvailable(n) => if n == m then -amount else 0
               case PspClearing(p) => if p == psp then amount else 0
               case _ => 0)
  {
    PairEffect(rows, MerchantAvailable(m), PspClearing(psp), amount, c, RefundRef, id, a);
  }

  /** A payout goes from the merchant's available to its in-transit account, and from there to the
      platform when it completes or back when it is reversed. */
  lemma PayoutEffects(rows: seq<Entry>, m: string, id: nat, amount: int, c: string, a: Account)
    ensures Balance(rows + PayoutInitGroup(m, id, amount, c), a) == Balance(rows, a) +
              (match a
               case MerchantAvailable(n) => if n == m then -amount else 0
               case MerchantInTransit(n) => if n == m then amount else 0
               case _ => 0)
    ensures Balance(rows + PayoutCompleteGroup(m, id, amount, c), a) == Balance(rows, a) +
              (match a
               case MerchantInTransit(n) => if n == m then -amount else 0
               case PlatformOperating => amount
               case _ => 0)
    ensures Balance(rows + PayoutReversalGroup(m, id, amount, c), a) == Balance(rows, a) +
              (match a
               case MerchantInTransit(n) => if n == m then -amount else 0
               case MerchantAvailable(n) => if n == m then amount else 0
               case _ => 0)
  {
    PairEffect(rows, MerchantAvailable(m), MerchantInTransit(m), amount, c, PayoutRef, id, a);
    PairEffect(rows, MerchantInTransit(m), PlatformOperating, amount, c, PayoutRef, id, a);
    PairEffect(rows, MerchantInTransit(m), MerchantAvailable(m), amount, c, PayoutRef, id, a);
  }

  /** A payout that is started and then reversed leaves every balance where it was. */
  lemma ReversalUndoesInit(rows: seq<Entry>, m: string, id: nat, amount: int, c: string, a: Account)
    ensures Balance(rows + PayoutInitGroup(m, id, amount, c) + PayoutReversalGroup(m, id, amount, c), a) ==
            Balance(rows, a)
  {
    PairEffect(rows, MerchantAvailable(m), MerchantInTransit(m), amount, c, PayoutRef, id, a);
    PairEffect(rows + PayoutInitGroup(m, id, amount, c), MerchantInTransit(m), MerchantAvailable(m), amount, c,
               PayoutRef, id, a);
  }

  /** A refund of the whole amount undoes a collection except for the fee the platform keeps. */
  lemma RefundKeepsFee(rows: seq<Entry>, m: string, id: nat, psp: string, amount: int, c: string, fee: int, a: Account)
    ensures Balance(rows + CollectionGroup(m, id, psp, amount, c, fee) + RefundGroup(m, id, psp, amount, c), a)
         == Balance(rows, a) + Moved(a, MerchantAvailable(m), PlatformFees, Charged(fee))
  {
    CollectionEffect(rows, m, id, psp, amount, c, fee, a);
    PairEffect(rows + CollectionGroup(m, id, psp, amount, c, fee), MerchantAvailable(m), PspClearing(psp), amount, c,
               RefundRef, id, a);
  }

  // ---- Validation ----

  /** What the validation accepts: in every currency the int64 net is zero. */
  ghost predicate Accepted(entries: seq<Entry>) {
    forall c :: Wrap(Net(entries, c)) == 0
  }

  function Get(m: map<string, int>, k: string): int {
    if k in m then m[k] else 0
  }

  method ValidateBalanced(entries: seq<Entry>) returns (ok: bool)
    ensures ok <==> Accepted(entries)
  {
    var balances: map<string, int> := map[];
    for i := 0 to |entries|
      invariant forall c :: Get(balances, c) == Wrap(Net(entries[..i], c))
    {
      var e := entries[i];
      forall c ensures Net(entries[..i + 1], c) == Net(entries[..i], c) + InCurrency(c)(e)
                    && Wrap(Get(balances, c) + InCurrency(c)(e)) == Wrap(Net(entries[..i + 1], c)) {
        SumPrefix(entries, i, InCurrency(c));
        WrapAdd(Net(entries[..i], c), InCurrency(c)(e));
      }
      if e.side == Debit {
        balances := balances[e.currency := Wrap(Get(balances, e.currency) + e.amount)];
      } else {
        balances := balances[e.currency := Wrap(Get(balances, e.currency) - e.amount)];
      }
    }
    assert entries[..|entries|] == entries;
    // The map is walked in an arbitrary order.
    var todo := balances.Keys;
    while todo != {}
      invariant todo <= balances.Keys
      invariant forall c :: c !in todo ==> Get(balances, c) == 0
      decreases todo
    {
      var c :| c in todo;
      if balances[c] != 0 {
        assert Wrap(Net(entries, c)) != 0;
        return false;
      }
      todo := todo - {c};
    }
    return true;
  }

  /** Accepted exactly when every currency's net is a multiple of 2^64. */
  lemma AcceptedIff(entries: seq<Entry>)
    ensures Accepted(entries) <==> forall c :: Net(entries, c) % TWO64 == 0
  {
    forall c ensures Wrap(Net(entries, c)) == 0 <==> Net(entries, c) % TWO64 == 0 {
      WrapZero(Net(entries, c));
    }
  }

  /** When the nets fit an int64, accepted means balanced in every currency. */
  lemma AcceptedWhenFits(entries: seq<Entry>)
    requires forall c :: Fits(Net(entries, c))
    ensures Accepted(entries) <==> forall c :: Net(entries, c) == 0
  {
    forall c ensures Wrap(Net(entries, c)) == Net(entries, c) {
      assert Fits(Net(entries, c));
    }
  }

  lemma NetOfThree(x: Entry, y: Entry, z: Entry, c: string)
    ensures Net([x, y, z], c) == InCurrency(c)(x) + InCurrency(c)(y) + InCurrency(c)(z)
  {
    var es, f := [x, y, z], InCurrency(c);
    assert es[..0] == [] && es[..3] == es;
    SumPrefix(es, 0, f);
    SumPrefix(es, 1, f);
    SumPrefix(es, 2, f);
  }

  /** Without that bound an unbalanced list gets through: 2^64 of debit nets to zero. */
  lemma AcceptedOverflow()
    ensures exists entries: seq<Entry> :: Accepted(entries) && Net(entries, "KES") == TWO64
                              && forall e: Entry :: e in entries ==> 0 < e.amount && Fits(e.amount)
  {
    var e := Entry(PlatformFees, Debit, TWO63 - 1, "KES", FeeRef, 0);
    var es := [e, e, e.(amount := 2)];
    forall c ensures Net(es, c) == (if c == "KES" then TWO64 else 0) && Wrap(Net(es, c)) == 0 {
      NetOfThree(e, e, e.(amount := 2), c);
      WrapZero(Net(es, c));
    }
    assert Accepted(es) && Net(es, "KES") == TWO64;
  }

  /** The verdict does not depend on the order of the entries. */
  lemma AcceptedAnyOrder(xs: seq<Entry>, ys: seq<Entry>)
    requires multiset(xs) == multiset(ys)
    ensures Accepted(xs) <==> Accepted(ys)
  {
    forall c ensures Net(xs, c) == Net(ys, c) {
      SumPermutation(xs, ys, InCurrency(c));
    }
  }

  lemma PairedAccepted(g: seq<Entry>)
    requires Paired(g)
    ensures Accepted(g)
  {
    assert |g| % 2 == 1 ==> PairAt(g, |g| - 1);
    forall c ensures Net(g, c) == 0 {
      PairedNet(g, |g|, c);
      assert g[..|g|] == g;
    }
  }

  // ---- The repository and the engine ----

  /** The database carries out the insert of row k, and the amount check admits it. */
  ghost predicate Goes(faults: set<nat>, at: nat, g: seq<Entry>, k: nat)
    requires k < |g|
  {
    at + k !in faults && g[k].amount > 0
  }

  /** Where a row-by-row insert of g starting at statement `at` stops: n rows go in, and the next
      one, if there is one, is the first the database or the amount check refuses. */
  ghost predicate StopsAfter(faults: set<nat>, at: nat, g: seq<Entry>, n: nat) {
    n <= |g| &&
    (forall k :: 0 <= k < n ==> Goes(faults, at, g, k)) &&
    (n < |g| ==> !Goes(faults, at, g, n))
  }

  class LedgerRepo {
    const db: Connection
    var rows: seq<Entry>

    constructor (db: Connection)
      ensures this.db == db && rows == []
    {
      this.db := db;
      rows := [];
    }

    /** Row by row, without a transaction: the first insert that fails ends the call and leaves
        the rows before it in the table. */
    method InsertEntries(entries: seq<Entry>) returns (ok: bool, ghost n: nat)
      modifies this, db
      ensures StopsAfter(db.faults, old(db.issued), entries, n) && rows == old(rows) + entries[..n]
      ensures ok <==> n == |entries|
      ensures db.failed == (old(db.failed) || !ok) && db.issued == old(db.issued) + if ok then n else n + 1
    {
      n := 0;
      for i := 0 to |entries|
        invariant n == i && rows == old(rows) + entries[..i]
        invariant db.failed == old(db.failed) && db.issued == old(db.issued) + i
        invariant forall k :: 0 <= k < i ==> Goes(db.faults, old(db.issued), entries, k)
      {
        ok := db.Exec(entries[i].amount > 0);
        if !ok {
          return;
        }
        assert entries[..i + 1] == entries[..i] + [entries[i]];
        rows := rows + [entries[i]];
        n := i + 1;
      }
      ok := true;
    }

    /** The signed sum over the account's rows. */
    method ReadBalance(a: Account) returns (ok: bool, b: int)
      modifies db`issued
      ensures ok <==> old(db.issued) !in db.faults
      ensures db.issued == old(db.issued) + 1
      ensures ok ==> b == Balance(rows, a)
    {
      b := 0;
      for i := 0 to |rows|
        invariant b == Balance(rows[..i], a)
        invariant db.issued == old(db.issued)
      {
        SumPrefix(rows, i, OnAccount(a));
        if rows[i].account == a {
          b := if rows[i].side == Credit then b + rows[i].amount else b - rows[i].amount;
        }
      }
      assert rows[..|rows|] == rows;
      ok := db.Try();
    }
  }

  class LedgerEngine {
    const repo: LedgerRepo

    constructor (repo: LedgerRepo)
      ensures this.repo == repo
    {
      this.repo := repo;
    }

    /** A list the validation refuses leaves no row; an accepted one is inserted row by row. */
    method PostBalanced(entries: seq<Entry>) returns (ok: bool, ghost n: nat)
      modifies repo, repo.db
      ensures n <= |entries| && repo.rows == old(repo.rows) + entries[..n]
      ensures Accepted(entries) ==>
                StopsAfter(repo.db.faults, old(repo.db.issued), entries, n) && (ok <==> n == |entries|)
      ensures !Accepted(entries) ==> n == 0 && !ok
      ensures repo.db.failed == (old(repo.db.failed) || (Accepted(entries) && !ok))
      ensures repo.db.issued == old(repo.db.issued) + if !Accepted(entries) then 0 else if ok then n else n + 1
    {
      var valid := ValidateBalanced(entries);
      if !valid {
        assert entries[..0] == [];
        return false, 0;
      }
      ok, n := repo.InsertEntries(entries);
    }

    method PostCollection(merchant: string, piId: nat, psp: string, amount: int, currency: string, fee: int)
      returns (ok: bool, ghost n: nat)
      modifies repo, repo.db
      ensures var g := CollectionGroup(merchant, piId, psp, amount, currency, fee);
              StopsAfter(repo.db.faults, old(repo.db.issued), g, n) && repo.rows == old(repo.rows) + g[..n] &&
                (ok <==> n == |g|)
      ensures |repo.rows| >= |old(repo.rows)|
      ensures forall k :: |old(repo.rows)| <= k < |repo.rows| ==>
                repo.rows[k].currency == currency && repo.rows[k].refId == piId &&
                repo.rows[k].refType in {AttemptRef, FeeRef}
      ensures repo.db.failed == (old(repo.db.failed) || !ok) && repo.db.issued > old(repo.db.issued)
    {
      var entries := [
        Entry(PspClearing(psp), Debit, amount, currency, AttemptRef, piId),
        Entry(MerchantAvailable(merchant), Credit, amount, currency, AttemptRef, piId)];
      if fee > 0 {
        entries := entries + [
          Entry(MerchantAvailable(merchant), Debit, fee, currency, FeeRef, piId),
          Entry(PlatformFees, Credit, fee, currency, FeeRef, piId)];
      }
      assert entries == CollectionGroup(merchant, piId, psp, amount, currency, fee);
      PairedAccepted(entries);
      ok, n := PostBalanced(entries);
    }

    method PostRefund(merchant: string, piId: nat, psp: string, amount: int, currency: string)
      returns (ok: bool, ghost n: nat)
      modifies repo, repo.db
      ensures var g := RefundGroup(merchant, piId, psp, amount, currency);
              StopsAfter(repo.db.faults, old(repo.db.issued), g, n) && repo.rows == old(repo.rows) + g[..n] &&
                (ok <==> n == |g|)
      ensures |repo.rows| >= |old(repo.rows)|
      ensures forall k :: |old(repo.rows)| <= k < |repo.rows| ==>
                repo.rows[k].currency == currency && repo.rows[k].refId == piId &&
                repo.rows[k].refType in {RefundRef}
      ensures repo.db.failed == (old(repo.db.failed) || !ok) && repo.db.issued > old(repo.db.issued)
    {
      var entries := [
        Entry(MerchantAvailable(merchant), Debit, amount, currency, RefundRef, piId),
        Entry(PspClearing(psp), Credit, amount, currency, RefundRef, piId)];
      PairedAccepted(entries);
      ok, n := PostBalanced(entries);
    }

    method PostPayoutInit(merchant: string, payoutId: nat, amount: int, currency: string)
      returns (ok: bool, ghost n: nat)
      modifies repo, repo.db
      ensures var g := PayoutInitGroup(merchant, payoutId, amount, currency);
              StopsAfter(repo.db.faults, old(repo.db.issued), g, n) && repo.rows == old(repo.rows) + g[..n] &&
                (ok <==> n == |g|)
      ensures |repo.rows| >= |old(repo.rows)|
      ensures forall k :: |old(repo.rows)| <= k < |repo.rows| ==>
                repo.rows[k].currency == currency && repo.rows[k].refId == payoutId &&
                repo.rows[k].refType in {PayoutRef}
      ensures repo.db.failed == (old(repo.db.failed) || !ok) && repo.db.issued > old(repo.db.issued)
    {
      var entries := [
        Entry(MerchantAvailable(merchant), Debit, amount, currency, PayoutRef, payoutId),
        Entry(MerchantInTransit(merchant), Credit, amount, currency, PayoutRef, payoutId)];
      PairedAccepted(entries);
      ok, n := PostBalanced(entries);
    }

    method PostPayoutComplete(merchant: string, payoutId: nat, amount: int, currency: string)
      returns (ok: bool, ghost n: nat)
      modifies repo, repo.db
      ensures var g := PayoutCompleteGroup(merchant, payoutId, amount, currency);
              StopsAfter(repo.db.faults, old(repo.db.issued), g, n) && repo.rows == old(repo.rows) + g[..n] &&
                (ok <==> n == |g|)
      ensures |repo.rows| >= |old(repo.rows)|
      ensures forall k :: |old(repo.rows)| <= k < |repo.rows| ==>
                repo.rows[k].currency == currency && repo.rows[k].refId == payoutId &&
                repo.rows[k].refType in {PayoutRef}
      ensures repo.db.failed == (old(repo.db.failed) || !ok) && repo.db.issued > old(repo.db.issued)
    {
      var entries := [
        Entry(MerchantInTransit(merchant), Debit, amount, currency, PayoutRef, payoutId),
        Entry(PlatformOperating, Credit, amount, currency, PayoutRef, payoutId)];
      PairedAccepted(entries);
      ok, n := PostBalanced(entries);
    }

    method PostPayoutReversal(merchant: string, payoutId: nat, amount: int, currency: string)
      returns (ok: bool, ghost n: nat)
      modifies repo, repo.db
      ensures var g := PayoutReversalGroup(merchant, payoutId, amount, currency);
              StopsAfter(repo.db.faults, old(repo.db.issued), g, n) && repo.rows == old(repo.rows) + g[..n] &&
                (ok <==> n == |g|)
      ensures |repo.rows| >= |old(repo.rows)|
      ensures forall k :: |old(repo.rows)| <= k < |repo.rows| ==>
                repo.rows[k].currency == currency && repo.rows[k].refId == payoutId &&
                repo.rows[k].refType in {PayoutRef}
      ensures repo.db.failed == (old(repo.db.failed) || !ok) && repo.db.issued > old(repo.db.issued)
    {
      var entries := [
        Entry(MerchantInTransit(merchant), Debit, amount, currency, PayoutRef, payoutId),
        Entry(MerchantAvailable(merchant), Credit, amount, currency, PayoutRef, payoutId)];
      PairedAccepted(entries);
      ok, n := PostBalanced(entries);
    }
  }
}
