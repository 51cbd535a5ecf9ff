/** Posts as the database sees them: any number of posts insert their rows one at a time, in any
    interleaving, and any of them may stop for good after any row. */
module TornPosts {
  import opened Accounts
  import opened Sums
  import opened Ledger

  /** A post that has inserted the first `done` rows of its group. */
  datatype Post = Post(group: seq<Entry>, done: nat)

  datatype State = State(table: seq<Entry>, posts: seq<Post>)

  /** A post that stops is one for which no further Insert occurs. */
  datatype Action = Begin(group: seq<Entry>) | Insert(p: nat)

  /** Every group the engine posts is paired; an insert needs a positive amount. */
  predicate Enabled(s: State, a: Action) {
    match a
    case Begin(g) => Paired(g)
    case Insert(p) =>
      p < |s.posts| && s.posts[p].done < |s.posts[p].group| && s.posts[p].group[s.posts[p].done].amount > 0
  }

  function Do(s: State, a: Action): State
    requires Enabled(s, a)
  {
    match a
    case Begin(g) => s.(posts := s.posts + [Post(g, 0)])
    case Insert(p) =>
      var post := s.posts[p];
      State(s.table + [post.group[post.done]], s.posts[p := post.(done := post.done + 1)])
  }

  predicate Legal(s: State, run: seq<Action>)
    decreases |run|
  {
    |run| == 0 || (Enabled(s, run[0]) && Legal(Do(s, run[0]), run[1..]))
  }

  function Exec(s: State, run: seq<Action>): State
    requires Legal(s, run)
    decreases |run|
  {
    if |run| == 0 then s else Exec(Do(s, run[0]), run[1..])
  }

  const EMPTY := State([], [])

  /** The debit a post has inserted and not yet matched. */
  function Open(c: string): Post -> int {
    (p: Post) => if p.done <= |p.group| then OpenDebit(p.group, p.done, c) else 0
  }

  ghost predicate Inv(s: State) {
    (forall p :: p in s.posts ==> Paired(p.group) && p.done <= |p.group| && forall c :: Open(c)(p) >= 0) &&
    forall c :: Net(s.table, c) == Sum(s.posts, Open(c))
  }

  lemma InsertKeeps(s: State, p: nat, c: string)
    requires Inv(s) && Enabled(s, Insert(p))
    ensures Net(Do(s, Insert(p)).table, c) == Sum(Do(s, Insert(p)).posts, Open(c))
    ensures Open(c)(Do(s, Insert(p)).posts[p]) >= 0
  {
    var post := s.posts[p];
    var e, next := post.group[post.done], post.(done := post.done + 1);
    SumAppend(s.table, e, InCurrency(c));
    SumUpdate(s.posts, p, next, Open(c));
    PairedNet(post.group, post.done, c);
    PairedNet(post.group, next.done, c);
    SumPrefix(post.group, post.done, InCurrency(c));
  }

  lemma StepKeeps(s: State, a: Action)
    requires Inv(s) && Enabled(s, a)
    ensures Inv(Do(s, a))
  {
    match a
    case Begin(g) =>
      forall c ensures Sum(Do(s, a).posts, Open(c)) == Sum(s.posts, Open(c)) {
        SumAppend(s.posts, Post(g, 0), Open(c));
      }
    case Insert(p) =>
      forall c ensures Net(Do(s, a).table, c) == Sum(Do(s, a).posts, Open(c)) && Open(c)(Do(s, a).posts[p]) >= 0 {
        InsertKeeps(s, p, c);
      }
  }

  lemma {:induction false} RunKeeps(s: State, run: seq<Action>)
    requires Inv(s) && Legal(s, run)
    ensures Inv(Exec(s, run))
    decreases |run|
  {
    if |run| == 0 {
    } else {
      StepKeeps(s, run[0]);
      RunKeeps(Do(s, run[0]), run[1..]);
    }
  }

  /** At every moment of every run the ledger is over-debited, never over-credited, and the excess
      in a currency is exactly the open debits of the posts that stopped half way. */
  lemma TornPostsOnlyOverDebit(run: seq<Action>, c: string)
    requires Legal(EMPTY, run)
    ensures var s := Exec(EMPTY, run);
            Net(s.table, c) == Sum(s.posts, Open(c)) && Net(s.table, c) >= 0
  {
    RunKeeps(EMPTY, run);
    var s := Exec(EMPTY, run);
    SumNonNegative(s.posts, Open(c));
  }

  /** When every post has run to its end, debits equal credits in every currency. */
  lemma CompletePostsBalance(run: seq<Action>, c: string)
    requires Legal(EMPTY, run)
    requires forall p :: p in Exec(EMPTY, run).posts ==> p.done == |p.group|
    ensures Net(Exec(EMPTY, run).table, c) == 0
  {
    RunKeeps(EMPTY, run);
    var s := Exec(EMPTY, run);
    forall p | p in s.posts ensures Open(c)(p) == 0 {
      assert |p.group| % 2 == 1 ==> PairAt(p.group, |p.group| - 1);
    }
    SumZero(s.posts, Open(c));
  }

  // ---- Conservation over accounts ----

  function Signed(): Entry -> int {
    (e: Entry) => if e.side == Credit then e.amount else -e.amount
  }

  function BalanceIn(table: seq<Entry>): Account -> int {
    (a: Account) => Balance(table, a)
  }

  predicate Distinct(accounts: seq<Account>) {
    forall i, j :: 0 <= i < j < |accounts| ==> accounts[i] != accounts[j]
  }

  lemma {:induction false} OneEntryOverAccounts(accounts: seq<Account>, table: seq<Entry>, e: Entry)
    requires Distinct(accounts)
    ensures Sum(accounts, BalanceIn(table + [e]))
         == Sum(accounts, BalanceIn(table)) + if e.account in accounts then Signed()(e) else 0
  {
    if |accounts| == 0 {
    } else {
      var n := |accounts| - 1;
      OneEntryOverAccounts(accounts[..n], table, e);
      SumAppend(table, e, OnAccount(accounts[n]));
      assert e.account in accounts <==> e.account in accounts[..n] || e.account == accounts[n];
    }
  }

  /** The balances of all accounts together are the credits less the debits of the table. */
  lemma {:induction false} BalancesAddUp(accounts: seq<Account>, table: seq<Entry>)
    requires Distinct(accounts) && forall e :: e in table ==> e.account in accounts
    ensures Sum(accounts, BalanceIn(table)) == Sum(table, Signed())
  {
    if |table| == 0 {
      forall a | a in accounts ensures BalanceIn(table)(a) == 0 {
      }
      SumZero(accounts, BalanceIn(table));
    } else {
      var n := |table| - 1;
      BalancesAddUp(accounts, table[..n]);
      OneEntryOverAccounts(accounts, table[..n], table[n]);
      assert table == table[..n] + [table[n]];
    }
  }

  predicate AllPaired(posts: seq<Post>) {
    forall p :: p in posts ==> Paired(p.group) && p.done <= |p.group|
  }

  function OpenAny(): Post -> int {
    (p: Post) => if p.done <= |p.group| && p.done % 2 == 1 then p.group[p.done - 1].amount else 0
  }

  predicate Totalled(s: State) {
    AllPaired(s.posts) && Sum(s.table, Signed()) == -Sum(s.posts, OpenAny())
  }

  /** One row more changes what a post has left open by what the row is worth. */
  lemma OneRowOpen(post: Post)
    requires Paired(post.group) && post.done < |post.group|
    ensures OpenAny()(post) - OpenAny()(post.(done := post.done + 1)) == Signed()(post.group[post.done])
  {
    assert post.done % 2 == 0 ==> PairAt(post.group, post.done);
    assert post.done % 2 == 1 ==> PairAt(post.group, post.done - 1);
  }

  lemma StepTotal(s: State, a: Action)
    requires Totalled(s) && Enabled(s, a)
    ensures Totalled(Do(s, a))
  {
    match a
    case Begin(g) =>
      SumAppend(s.posts, Post(g, 0), OpenAny());
    case Insert(p) =>
      var post := s.posts[p];
      SumAppend(s.table, post.group[post.done], Signed());
      SumUpdate(s.posts, p, post.(done := post.done + 1), OpenAny());
      OneRowOpen(post);
  }

  lemma {:induction false} RunTotal(s: State, run: seq<Action>)
    requires Totalled(s) && Legal(s, run)
    ensures Totalled(Exec(s, run))
    decreases |run|
  {
    if |run| == 0 {
    } else {
      StepTotal(s, run[0]);
      RunTotal(Do(s, run[0]), run[1..]);
    }
  }

  /** Money is conserved: after any run of completed posts the balances of all accounts sum to
      zero; an interrupted run leaves the total short by the open debits. */
  lemma BalancesSumToZero(run: seq<Action>, accounts: seq<Account>)
    requires Legal(EMPTY, run) && Distinct(accounts)
    requires forall e :: e in Exec(EMPTY, run).table ==> e.account in accounts
    ensures var s := Exec(EMPTY, run);
            Sum(accounts, BalanceIn(s.table)) == -Sum(s.posts, OpenAny()) &&
            ((forall p :: p in s.posts ==> p.done == |p.group|) ==> Sum(accounts, BalanceIn(s.table)) == 0)
  {
    var s := Exec(EMPTY, run);
    RunTotal(EMPTY, run);
    BalancesAddUp(accounts, s.table);
    RunKeeps(EMPTY, run);
    if forall p :: p in s.posts ==> p.done == |p.group| {
      forall p | p in s.posts ensures OpenAny()(p) == 0 {
        assert |p.group| % 2 == 1 ==> PairAt(p.group, |p.group| - 1);
      }
      SumZero(s.posts, OpenAny());
    }
  }

  /** Every group the engine posts is one of the paired groups above. */
  lemma EngineGroupsArePaired(m: string, id: nat, psp: string, amount: int, c: string, fee: int)
    ensures Paired(CollectionGroup(m, id, psp, amount, c, fee)) && Paired(RefundGroup(m, id, psp, amount, c))
    ensures Paired(PayoutInitGroup(m, id, amount, c)) && Paired(PayoutCompleteGroup(m, id, amount, c))
    ensures Paired(PayoutReversalGroup(m, id, amount, c))
  {
    var g := CollectionGroup(m, id, psp, amount, c, fee);
    assert PairAt(g, 0) && (fee > 0 ==> PairAt(g, 2));
  }

  /** One of the groups the engine's five posts build. */
  ghost predicate EngineGroup(g: seq<Entry>) {
    exists m: string, id: nat, psp: string, amount: int, c: string, fee: int ::
      IsEngineGroup(g, m, id, psp, amount, c, fee)
  }

  predicate IsEngineGroup(g: seq<Entry>, m: string, id: nat, psp: string, amount: int, c: string, fee: int) {
    g == CollectionGroup(m, id, psp, amount, c, fee) || g == RefundGroup(m, id, psp, amount, c) ||
    g == PayoutInitGroup(m, id, amount, c) || g == PayoutCompleteGroup(m, id, amount, c) ||
    g == PayoutReversalGroup(m, id, amount, c)
  }

  /** A run of the engine: what it begins are its own groups, and only row inserts are checked. */
  ghost predicate EngineRun(s: State, run: seq<Action>)
    decreases |run|
  {
    |run| == 0 ||
    match run[0]
    case Begin(g) => EngineGroup(g) && EngineRun(s.(posts := s.posts + [Post(g, 0)]), run[1..])
    case Insert(p) => Enabled(s, run[0]) && EngineRun(Do(s, run[0]), run[1..])
  }

  lemma {:induction false} EngineRunIsLegal(s: State, run: seq<Action>)
    requires EngineRun(s, run)
    ensures Legal(s, run)
    decreases |run|
  {
    if |run| == 0 {
    } else {
      if run[0].Begin? {
        var m, id, psp, amount, c, fee :| IsEngineGroup(run[0].group, m, id, psp, amount, c, fee);
        EngineGroupsArePaired(m, id, psp, amount, c, fee);
      }
      EngineRunIsLegal(Do(s, run[0]), run[1..]);
    }
  }

  /** Whatever the engine posts, in whatever interleaving and wherever its posts stop, debits are at
      least credits in every currency, and the excess is what the stopped posts left open. */
  lemma EngineOnlyOverDebits(run: seq<Action>, c: string)
    requires EngineRun(EMPTY, run)
    ensures Legal(EMPTY, run)
    ensures var s := Exec(EMPTY, run);
            Net(s.table, c) == Sum(s.posts, Open(c)) && Net(s.table, c) >= 0 &&
            ((forall p :: p in s.posts ==> p.done == |p.group|) ==> Net(s.table, c) == 0)
  {
    EngineRunIsLegal(EMPTY, run);
    TornPostsOnlyOverDebit(run, c);
    if forall p :: p in Exec(EMPTY, run).posts ==> p.done == |p.group| {
      CompletePostsBalance(run, c);
    }
  }
}
