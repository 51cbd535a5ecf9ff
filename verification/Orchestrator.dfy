/** The orchestrator's operations run one at a time against the repositories. */
module Orchestrator {
  import opened Domain
  import opened StateTable
  import opened Database
  import opened Ledger
  import opened Fees
  import opened Books
  import opened Repository
  import Breaker
  import Risk
  import Routing
  import Switch

  datatype CollectAnswer = CollectError | Collected(ref: string, status: string)

  datatype CreateResult = Error | Existing(id: nat) | New(id: nat, psp: string)

  /** How long the cache keeps an entry: 24 hours, in nanoseconds. */
  const TTL := 86_400_000_000_000

  datatype CacheEntry = CacheEntry(id: nat, expires: int)

  /** The idempotency cache. An entry is not seen any more from its expiry on. */
  class IdempotencyStore {
    var entries: map<string, CacheEntry>

    constructor ()
      ensures entries == map[]
    {
      entries := map[];
    }

    function Check(merchant: string, key: string, now: int): Option<nat>
      reads this
    {
      var k := Switch.CacheKey(merchant, key);
      if k in entries && now < entries[k].expires then Some(entries[k].id) else None
    }

    method Store(merchant: string, key: string, id: nat, now: int, up: bool)
      modifies this
      ensures entries == Stored(old(entries), merchant, key, id, now, up)
      ensures up ==>
                forall t :: Check(merchant, key, t) == if t < now + 86_400_000_000_000 then Some(id) else None
      ensures forall k :: k != Switch.CacheKey(merchant, key) ==>
                (k in entries <==> k in old(entries)) && (k in entries ==> entries[k] == old(entries)[k])
    {
      if up {
        entries := entries[Switch.CacheKey(merchant, key) := CacheEntry(id, now + TTL)];
      }
    }
  }

  /** The cache after an entry was offered to it. */
  function Stored(
    entries: map<string, CacheEntry>,
    merchant: string,
    key: string,
    id: nat,
    now: int,
    up: bool): map<string, CacheEntry>
  {
    if up then entries[Switch.CacheKey(merchant, key) := CacheEntry(id, now + TTL)] else entries
  }

  class Engine {
    const db: Connection
    const intents: IntentRepo
    const attempts: AttemptRepo
    ghost const payouts: PayoutRepo
    const ledger: LedgerEngine
    const cfg: FeeConfig
    const risk: Risk.RiskEngine
    const router: Routing.Engine
    const idempotency: IdempotencyStore
    const registry: set<string>

    constructor (
      db: Connection,
      intents: IntentRepo,
      attempts: AttemptRepo,
      ghost payouts: PayoutRepo,
      ledger: LedgerEngine,
      cfg: FeeConfig,
      risk: Risk.RiskEngine,
      router: Routing.Engine,
      idempotency: IdempotencyStore,
      registry: set<string>)
      requires intents.db == attempts.db == payouts.db == ledger.repo.db == db && risk.Valid() && router.cb.Valid()
      ensures Wired() && risk.Valid() && router.cb.Valid()
      ensures this.intents == intents && this.attempts == attempts && this.payouts == payouts && this.ledger == ledger
    {
      this.db, this.intents, this.attempts, this.payouts, this.ledger := db, intents, attempts, payouts, ledger;
      this.cfg, this.risk, this.router, this.idempotency, this.registry := cfg, risk, router, idempotency, registry;
    }

    ghost predicate Wired() {
      intents.db == db && attempts.db == db && payouts.db == db && ledger.repo.db == db
    }

    ghost function T(): Tables
      reads intents, attempts, payouts, ledger.repo
    {
      TablesOf(intents, attempts, payouts, ledger.repo)
    }

    /** The books are in order unless some write in the middle of an operation failed. */
    ghost predicate InOrder()
      reads intents, attempts, payouts, ledger.repo, db
    {
      db.failed || Good(cfg, T())
    }

    /** Some statement of the stretch returned an error. */
    ghost predicate Faulted(from: nat, to: nat) {
      exists k :: from <= k < to && k in db.faults
    }

    /** The routing decision for the request names this provider. */
    ghost predicate Offered(req: Request, psp: string, now: int)
      reads router.cb
    {
      var rr := Routing.RouteRequest(req.merchant, req.currency, "", req.method_);
      Routing.Offers(router.rules, rr, router.excluded, router.cb.states, now, psp)
    }

    ghost predicate Admissible(req: Request, now: int)
      reads risk, router.cb
    {
      risk.Admits(req.amount, req.phone, req.email, now) && exists psp :: psp in registry && Offered(req, psp, now)
    }

    /** Risk, then routing, then the first registered connector of the decision. */
    method Admit(req: Request, now: int) returns (psp: Option<string>)
      requires risk.Valid() && router.cb.Valid() && risk.clock <= now
      modifies risk, router.cb`states, router.cb`history
      ensures risk.Valid() && router.cb.Valid()
      ensures psp.Some? ==> 0 < req.amount <= risk.maxAmount && psp.value in registry
                            && Routing.Usable(psp.value, router.excluded, old(router.cb.states), now)
      ensures psp.Some? ==>
                old(risk.Admits(req.amount, req.phone, req.email, now)) &&
                Routing.Offers(
                  router.rules, Routing.RouteRequest(req.merchant, req.currency, "", req.method_),
                  router.excluded, old(router.cb.states), now, psp.value)
      ensures psp.Some? ==> old(Offered(req, psp.value, now))
      ensures psp.Some? <==> old(Admissible(req, now))
    {
      var admitted := risk.Evaluate(req.amount, req.phone, req.email, now);
      if !admitted {
        return None;
      }
      var rr := Routing.RouteRequest(req.merchant, req.currency, "", req.method_);
      ghost var states := router.cb.states;
      var route := router.Route(rr, now);
      forall p
        ensures Routing.Offers(router.rules, rr, router.excluded, states, now, p) <==>
                route.Routed? && (p == route.primary || p in route.fallbacks)
      {
        Routing.OffersIff(router.rules, rr, router.excluded, states, now, route, p);
      }
      if !route.Routed? {
        return None;
      }
      psp := Routing.PickConnector(route.primary, route.fallbacks, registry);
      if psp.Some? {
        assert Routing.Offers(router.rules, rr, router.excluded, states, now, psp.value);
      }
    }

    function TakenAs(psp: string, answer: CollectAnswer): Taken {
      match answer
      case CollectError => Refused
      case Collected(ref, status) => Accepted(psp, ref, status == "processing")
    }

    /** After the insert: the provider's answer decides the attempt and the intent's first status. */
    method Collect(
      ghost tb: Tables,
      pi: Intent,
      id: nat,
      psp: string,
      answer: CollectAnswer)
      returns (ok: bool, scheduled: Option<nat>)
      requires Wired() && pi.status == Created && id == |tb.intents|
      requires T() == tb.(intents := tb.intents + [pi])
      modifies intents, attempts, db
      ensures db.failed == (old(db.failed) || !ok) && db.issued >= old(db.issued)
      ensures !ok ==> Faulted(old(db.issued), db.issued)
      ensures ok ==> T() == AfterCreate(tb, pi, TakenAs(psp, answer))
      ensures ledger.repo.rows == old(ledger.repo.rows) && |intents.rows| == |old(intents.rows)|
      ensures scheduled == if ok && answer.Collected? && psp == "mpesa" && answer.status != "processing"
                           then Some(|tb.attempts|)
                           else None
      ensures DistinctKeys(old(intents.rows)) ==> DistinctKeys(intents.rows)
    {
      scheduled := None;
      if answer.CollectError? {
        ok := intents.UpdateStatus(id, Failed);
        return;
      }
      var processing := answer.status == "processing";
      var aid;
      ok, aid := attempts.Create(Attempt(id, psp, answer.ref, if processing then AProcessing else ARequiresAction));
      if !ok {
        return;
      }
      var newStatus := if processing then Processing else RequiresAction;
      assert IsValidTransition(Created, newStatus);
      ok := intents.UpdateStatus(id, newStatus);
      if ok && psp == "mpesa" && newStatus == RequiresAction {
        scheduled := Some(aid);
      }
    }

    /** The row of a new intent; a request without a key gets a generated one. */
    function NewIntent(req: Request, freshKey: string): Intent {
      Intent(req.merchant, if req.key == "" then freshKey else req.key, req.amount, req.currency, Created)
    }

    /** The cache cannot be read, or names an intent the table does not have. */
    predicate CacheBroken(req: Request, now: int, cacheUp: bool)
      reads idempotency, intents
    {
      var known := idempotency.Check(req.merchant, req.key, now);
      req.key != "" && (!cacheUp || (known.Some? && known.value >= |intents.rows|))
    }

    /** A key the cache knows is answered from the table; nothing is decided without a key or when
        the cache does not know it. */
    method Recall(req: Request, now: int, cacheUp: bool) returns (r: Option<CreateResult>)
      requires Wired()
      modifies db`issued
      ensures db.issued >= old(db.issued)
      ensures r.None? <==> req.key == "" || (cacheUp && idempotency.Check(req.merchant, req.key, now).None?)
      ensures r.Some? && r.value.Error? ==> CacheBroken(req, now, cacheUp) || Faulted(old(db.issued), db.issued)
      ensures r.Some? && !r.value.Error? ==>
                r.value.Existing? && idempotency.Check(req.merchant, req.key, now) == Some(r.value.id) &&
                  r.value.id < |intents.rows|
    {
      if req.key == "" {
        return None;
      }
      if !cacheUp {
        return Some(Error);
      }
      var existing := idempotency.Check(req.merchant, req.key, now);
      if existing.None? {
        return None;
      }
      var found, _ := intents.GetByID(existing.value);
      return Some(if found then Existing(existing.value) else Error);
    }

    /** The unique index decides; then the cache is told, which may go unheard. */
    method Insert(req: Request, pi: Intent, now: int, stored: bool) returns (ok: bool, id: nat)
      requires Wired()
      modifies intents, db`issued, idempotency
      ensures db.issued >= old(db.issued) && id == |old(intents.rows)|
      ensures T() == if ok then old(T()).(intents := old(T()).intents + [pi]) else old(T())
      ensures !ok ==> Faulted(old(db.issued), db.issued) || KeyTaken(old(intents.rows), pi)
      ensures ok ==> !KeyTaken(old(intents.rows), pi)
      ensures idempotency.entries ==
                Stored(old(idempotency.entries), req.merchant, req.key, id, now, ok && req.key != "" && stored)
      ensures DistinctKeys(old(intents.rows)) ==> DistinctKeys(intents.rows)
    {
      ok, id := intents.Create(pi);
      if ok && req.key != "" {
        idempotency.Store(req.merchant, req.key, id, now, stored);
      }
    }

    /** An admitted request: the row, the cache entry, the provider's answer. */
    method Place(req: Request, pi: Intent, now: int, psp: string, stored: bool, answer: CollectAnswer)
      returns (ok: bool, id: nat, scheduled: Option<nat>)
      requires Wired() && pi.status == Created
      modifies intents, attempts, db, idempotency
      ensures db.issued >= old(db.issued) && id == |old(intents.rows)|
      ensures ok ==> T() == AfterCreate(old(T()), pi, TakenAs(psp, answer))
      ensures ok ==>
                |intents.rows| == |old(intents.rows)| + 1 &&
                intents.rows[id] == pi.(status := if answer.CollectError? then Failed
                                                  else if answer.status == "processing" then Processing
                                                  else RequiresAction)
      ensures ok && answer.CollectError? ==> attempts.rows == old(attempts.rows)
      ensures ok && answer.Collected? ==>
                var status := if answer.status == "processing" then AProcessing else ARequiresAction;
                attempts.rows == old(attempts.rows) + [Attempt(id, psp, answer.ref, status)]
      ensures ok && req.key != "" && stored ==> idempotency.Check(req.merchant, req.key, now) == Some(id)
      ensures !ok ==> Faulted(old(db.issued), db.issued) || KeyTaken(old(intents.rows), pi)
      ensures ok ==> !KeyTaken(old(intents.rows), pi)
      ensures !ok && !db.failed ==> T() == old(T())
      ensures ledger.repo.rows == old(ledger.repo.rows)
      ensures idempotency.entries ==
                Stored(old(idempotency.entries), req.merchant, req.key, id, now,
                       |intents.rows| > |old(intents.rows)| && req.key != "" && stored)
      ensures scheduled == if ok && answer.Collected? && psp == "mpesa" && answer.status != "processing"
                           then Some(|old(attempts.rows)|)
                           else None
      ensures old(InOrder()) ==> InOrder()
      ensures DistinctKeys(old(intents.rows)) ==> DistinctKeys(intents.rows)
    {
      ghost var before := T();
      if Good(cfg, before) {
        StepGood(cfg, before, Create(pi, TakenAs(psp, answer)));
      }
      ok, id := Insert(req, pi, now, stored);
      scheduled := None;
      if ok {
        ok, scheduled := Collect(before, pi, id, psp, answer);
      }
    }

    /** Creation. `cacheUp`, `stored`, `freshKey` and `answer` are what the cache, the generator and
        the provider do. On a result the tables are those of one created intent, requested from a
        registered provider the breaker admitted, or untouched when the cache knew the key; on an
        error without a failed write they are untouched. */
    method CreatePaymentIntent(
      req: Request,
      now: int,
      cacheUp: bool,
      stored: bool,
      freshKey: string,
      answer: CollectAnswer)
      returns (r: CreateResult, scheduled: Option<nat>)
      requires Wired() && risk.Valid() && router.cb.Valid() && risk.clock <= now
      modifies intents, attempts, db, risk, router.cb`states, router.cb`history, idempotency
      ensures risk.Valid() && router.cb.Valid()
      ensures r.Error? && !db.failed ==> T() == old(T())
      ensures r.Error? ==>
                old(CacheBroken(req, now, cacheUp)) || !old(Admissible(req, now)) ||
                Faulted(old(db.issued), db.issued) ||
                (exists i :: 0 <= i < |old(intents.rows)| && old(intents.rows)[i].merchant == req.merchant &&
                   old(intents.rows)[i].key == if req.key == "" then freshKey else req.key)
      ensures r.Existing? ==>
                T() == old(T()) && req.key != "" && old(idempotency.Check(req.merchant, req.key, now)) == Some(r.id) &&
                  r.id < |intents.rows|
      ensures r.New? ==>
                0 < req.amount <= risk.maxAmount &&
                r.psp in registry && old(Offered(req, r.psp, now)) &&
                Routing.Usable(r.psp, router.excluded, old(router.cb.states), now) &&
                old(risk.Admits(req.amount, req.phone, req.email, now)) &&
                !KeyTaken(old(intents.rows), NewIntent(req, freshKey)) &&
                (req.key == "" || old(idempotency.Check(req.merchant, req.key, now)).None?) &&
                r.id == |old(intents.rows)| &&
                T() == AfterCreate(old(T()), NewIntent(req, freshKey), TakenAs(r.psp, answer))
      ensures r.New? ==>
                |intents.rows| == |old(intents.rows)| + 1 &&
                var row := intents.rows[r.id];
                row.merchant == req.merchant && row.amount == req.amount && row.currency == req.currency &&
                row.key == (if req.key != "" then req.key else freshKey) &&
                row.status == (if answer.CollectError? then Failed
                               else if answer.status == "processing" then Processing else RequiresAction)
      ensures r.New? && req.key != "" ==>
                forall i :: 0 <= i < |old(intents.rows)| ==>
                  old(intents.rows)[i].merchant != req.merchant || old(intents.rows)[i].key != req.key
      ensures r.New? ==>
                Routing.Offers(
                  router.rules, Routing.RouteRequest(req.merchant, req.currency, "", req.method_),
                  router.excluded, old(router.cb.states), now, r.psp)
      ensures r.New? && answer.CollectError? ==> attempts.rows == old(attempts.rows)
      ensures r.New? && answer.Collected? ==>
                var status := if answer.status == "processing" then AProcessing else ARequiresAction;
                attempts.rows == old(attempts.rows) + [Attempt(r.id, r.psp, answer.ref, status)]
      ensures r.New? && req.key != "" && stored ==> idempotency.Check(req.merchant, req.key, now) == Some(r.id)
      ensures ledger.repo.rows == old(ledger.repo.rows)
      ensures idempotency.entries ==
                Stored(old(idempotency.entries), req.merchant, req.key, |old(intents.rows)|, now,
                       |intents.rows| > |old(intents.rows)| && req.key != "" && stored)
      ensures scheduled == if r.New? && answer.Collected? && r.psp == "mpesa" && answer.status != "processing"
                           then Some(|old(attempts.rows)|)
                           else None
      ensures old(InOrder()) ==> InOrder()
      ensures DistinctKeys(old(intents.rows)) ==> DistinctKeys(intents.rows)
    {
      var recalled := Recall(req, now, cacheUp);
      if recalled.Some? {
        return recalled.value, None;
      }
      var psp := Admit(req, now);
      if psp.None? {
        return Error, None;
      }
      var ok, id;
      ok, id, scheduled := Place(req, NewIntent(req, freshKey), now, psp.value, stored, answer);
      r := if ok then New(id, psp.value) else Error;
    }

    /** Writes a checked outcome: attempt, intent, then the collection of a success. `safe` is
        compare-and-set against the status that was read, as the delayed query does. Even when a
        statement fails, ledger rows imply that the intent has succeeded. */
    method WriteOutcome(ghost tb: Tables, aid: nat, a: Attempt, pi: Intent, to: PIStatus, safe: bool) returns (ok: bool)
      requires Wired() && T() == tb && Known(tb, aid) && a == tb.attempts[aid] && pi == tb.intents[a.pi]
      requires to in {Succeeded, Failed} && IsValidTransition(pi.status, to)
      modifies intents, attempts, ledger.repo, db
      ensures db.failed == (old(db.failed) || !ok)
      ensures ok ==> T() == AfterConfirm(cfg, tb, aid, to)
      ensures ledger.repo.rows == tb.entries || (to == Succeeded && CollectedSome(tb, aid))
      ensures DistinctKeys(old(intents.rows)) ==> DistinctKeys(intents.rows)
    {
      ok := attempts.UpdateStatus(aid, OutcomeAttempt(to));
      if !ok {
        return;
      }
      if safe {
        var changed;
        ok, changed := intents.UpdateStatusSafe(a.pi, pi.status, to);
        assert changed || !ok;
      } else {
        ok := intents.UpdateStatus(a.pi, to);
      }
      if !ok {
        return;
      }
      if to == Succeeded {
        var fee := ComputeFee(cfg, pi.amount);
        ghost var n;
        ok, n := ledger.PostCollection(pi.merchant, a.pi, a.psp, pi.amount, pi.currency, fee);
        assert ok ==> Collection(cfg, tb, aid)[..n] == Collection(cfg, tb, aid);
        assert ledger.repo.rows == tb.entries + Collection(cfg, tb, aid)[..n];
      }
    }

    /** The intent has succeeded and rows of its collection, perhaps not all, are in. */
    ghost predicate CollectedSome(tb: Tables, aid: nat)
      requires Known(tb, aid)
      reads intents, ledger.repo
    {
      tb.attempts[aid].pi < |intents.rows| && intents.rows[tb.attempts[aid].pi].status == Succeeded &&
      exists n :: 0 <= n <= |Collection(cfg, tb, aid)| && ledger.repo.rows == tb.entries + Collection(cfg, tb, aid)[..n]
    }

    ghost predicate Matches(tb: Tables, aid: nat, evt: Event) {
      Known(tb, aid) && Referred(tb.attempts[aid], evt)
    }

    /** No attempt has the reference, or one that has it lacks its intent. */
    ghost predicate Unattached(tb: Tables, evt: Event) {
      (forall a :: a in tb.attempts ==> !Referred(a, evt)) ||
      (exists a :: a in tb.attempts && Referred(a, evt) && a.pi >= |tb.intents|)
    }

    predicate Referred(a: Attempt, evt: Event) {
      a.psp == evt.psp && a.ref == evt.ref
    }

    /** A webhook. `hit` is the attempt the lookup found, if the reads went through. An outcome the
        table does not allow is acknowledged without a change; an unknown status is an error. */
    method HandleWebhookEvent(evt: Event) returns (ok: bool, ghost hit: Option<nat>)
      requires Wired()
      modifies intents, attempts, ledger.repo, db
      ensures hit.None? ==> !ok && T() == old(T()) && db.failed == old(db.failed)
      ensures hit.None? ==> Faulted(old(db.issued), db.issued) || Unattached(old(T()), evt)
      ensures hit.Some? ==> Matches(old(T()), hit.value, evt)
      ensures hit.Some? ==>
                hit.value < |old(attempts.rows)| && old(attempts.rows)[hit.value].pi < |old(intents.rows)| &&
                old(attempts.rows)[hit.value].psp == evt.psp && old(attempts.rows)[hit.value].ref == evt.ref
      ensures hit.Some? && ok ==>
                |intents.rows| == |old(intents.rows)| && |attempts.rows| == |old(attempts.rows)|
      ensures hit.Some? && ok && evt.status == "succeeded" ==>
                var i := old(attempts.rows)[hit.value].pi;
                if old(intents.rows)[i].status in {RequiresAction, Processing}
                then intents.rows[i].status == Succeeded && attempts.rows[hit.value].status == ASucceeded
                else T() == old(T())
      ensures hit.Some? && ok && evt.status == "failed" ==>
                var i := old(attempts.rows)[hit.value].pi;
                if old(intents.rows)[i].status in {Created, RequiresAction, Processing}
                then intents.rows[i].status == Failed && attempts.rows[hit.value].status == AFailed
                else T() == old(T())
      ensures evt.status != "succeeded" ==> ledger.repo.rows == old(ledger.repo.rows)
      ensures evt.status !in {"succeeded", "failed"} ==> !ok && T() == old(T())
      ensures hit.Some? ==>
                match Outcome(evt.status)
                case None => !ok && T() == old(T()) && db.failed == old(db.failed)
                case Some(to) =>
                  db.failed == (old(db.failed) || !ok) && (ok ==> T() == AfterConfirm(cfg, old(T()), hit.value, to))
      ensures old(InOrder()) ==> InOrder()
      ensures DistinctKeys(old(intents.rows)) ==> DistinctKeys(intents.rows)
    {
      ghost var tb := T();
      hit := None;
      var found, aid, a := attempts.GetByPSPReference(evt.psp, evt.ref);
      if !found {
        return false, None;
      }
      var known, pi := intents.GetByID(a.pi);
      if !known {
        return false, None;
      }
      hit := Some(aid);
      if evt.transaction != "" {
        var _ := db.Try();
      }
      var _ := db.Try();
      OutcomeEdges(pi.status);
      match Outcome(evt.status) {
        case None => ok := false;
        case Some(to) =>
          if Good(cfg, tb) {
            StepGood(cfg, tb, Confirm(aid, to));
          }
          if !IsValidTransition(pi.status, to) {
            return true, hit;
          }
          ok := WriteOutcome(tb, aid, a, pi, to, false);
      }
    }

    /** The delayed query of an attempt: `answer` is the provider's status, if the connector is
        registered and answers. Errors are swallowed; without one, an outcome confirms the attempt
        as long as its intent still waits. */
    method DelayedQuery(id: nat, aid: nat, answer: Option<string>)
      requires Wired() && Known(T(), aid) && attempts.rows[aid].pi == id
      modifies intents, attempts, ledger.repo, db
      ensures !db.failed ==>
                T() == old(T()) ||
                (answer.Some? && Outcome(answer.value).Some? &&
                 old(intents.rows)[id].status in {RequiresAction, Processing} &&
                 T() == AfterConfirm(cfg, old(T()), aid, Outcome(answer.value).value))
      ensures !db.failed && T() != old(T()) ==>
                |intents.rows| == |old(intents.rows)| && |attempts.rows| == |old(attempts.rows)| &&
                old(intents.rows)[id].status in {RequiresAction, Processing} &&
                ((answer == Some("succeeded") &&
                  intents.rows[id].status == Succeeded && attempts.rows[aid].status == ASucceeded) ||
                 (answer == Some("failed") &&
                  intents.rows[id].status == Failed && attempts.rows[aid].status == AFailed))
      ensures answer != Some("succeeded") ==> ledger.repo.rows == old(ledger.repo.rows)
      ensures !db.failed && T() == old(T()) && answer in {Some("succeeded"), Some("failed")} ==>
                Faulted(old(db.issued), db.issued) || old(intents.rows)[id].status !in {RequiresAction, Processing}
      ensures !db.failed && T() == old(T()) ==>
                Faulted(old(db.issued), db.issued) || answer.None? || Outcome(answer.value).None? ||
                old(intents.rows)[id].status !in {RequiresAction, Processing}
      ensures old(InOrder()) ==> InOrder()
      ensures DistinctKeys(old(intents.rows)) ==> DistinctKeys(intents.rows)
    {
      ghost var tb := T();
      var known, pi := intents.GetByID(id);
      if !known || (pi.status != RequiresAction && pi.status != Processing) {
        return;
      }
      var found, a := attempts.GetByID(aid);
      if !found || answer.None? {
        return;
      }
      match Outcome(answer.value) {
        case None =>
        case Some(to) =>
          if Good(cfg, tb) {
            StepGood(cfg, tb, Confirm(aid, to));
          }
          OutcomeEdges(pi.status);
          var ok := WriteOutcome(tb, aid, a, pi, to, true);
          assert ok ==> T().intents[id].status == to;
      }
    }
  }
}
