/** The payment switch as a protocol: creation, webhooks and delayed queries run concurrently and
    without transactions over the same tables, so each database call is one step of one thread.

    The environment decides everything else: which thread runs next, what the provider answers,
    which webhook arrives and how often, when a thread stops for good (an error return or a crash)
    and when a cache entry disappears. */
module Switch {
  import opened Domain
  import opened StateTable
  import opened Ledger
  import opened Fees

  /** A thread is named after the call it makes next. `snap` is the intent row it read. */
  datatype Thread =
    // CreatePaymentIntent
    | CCheck(req: Request)
    | CFetch(req: Request, id: nat)
    | CGuard(req: Request)
    | CInsert(req: Request, psp: string)
    | CStore(req: Request, psp: string, id: nat)
    | CCall(req: Request, psp: string, id: nat)
    | CFail(req: Request, id: nat)
    | CAttempt(req: Request, psp: string, id: nat, ref: string, processing: bool)
    | CWrite(req: Request, psp: string, id: nat, aid: nat, processing: bool)
    | CReturned(req: Request, id: nat)
    // HandleWebhookEvent
    | WLookup(evt: Event)
    | WRead(evt: Event, aid: nat)
    | WAttempt(aid: nat, id: nat, snap: Intent, psp: string, to: PIStatus)
    | WWrite(aid: nat, id: nat, snap: Intent, psp: string, to: PIStatus)
    // scheduleDelayedQuery and applyQueryResult
    | QRead(aid: nat, id: nat)
    | QCall(aid: nat, id: nat, snap: Intent)
    | QAttempt(aid: nat, id: nat, snap: Intent, psp: string, to: PIStatus)
    | QWrite(aid: nat, id: nat, snap: Intent, psp: string, to: PIStatus)
    // PostCollection: k rows are in
    | Post(id: nat, snap: Intent, psp: string, k: nat)
    | Finished
    | Stopped

  /** History of one intent, which no thread reads: the thread that inserted the row, its attempt,
      the collection requests issued for it and the thread that moved it to `succeeded`. */
  datatype Trace = Trace(creator: nat, att: Option<nat>, issued: nat, winner: Option<nat>)

  datatype State = State(
    cfg: FeeConfig,
    intents: seq<Intent>,
    attempts: seq<Attempt>,
    ledger: seq<Entry>,
    cache: map<string, nat>,
    threads: seq<Thread>,
    trace: seq<Trace>)

  /** What the environment answers to a step: the routed provider, a generated key, whether the
      call went through, the provider's reference and status, the attempt a lookup finds. */
  datatype Choice = Choice(psp: string, key: string, ok: bool, ref: string, status: string, aid: nat)

  datatype Action =
    | Spawn(th: Thread)
    | Go(t: nat, c: Choice)
    | Stop(t: nat)
    | Forget(k: string)

  function CacheKey(merchant: string, key: string): string {
    "idempotency:" + merchant + ":" + key
  }

  function KeyOf(req: Request, c: Choice): string {
    if req.key == "" then c.key else req.key
  }

  predicate Row(s: State, id: nat) {
    id < |s.intents| && id < |s.trace|
  }

  // ---- Steps ----

  /** Thread t can make its next call and that call succeeds. */
  predicate CanGo(s: State, t: nat, c: Choice) {
    t < |s.threads| &&
    match s.threads[t]
    case CCheck(_) => true
    case CFetch(_, id) => Row(s, id)
    case CGuard(req) => Admitted(req.amount)
    case CInsert(req, _) =>
      forall i :: 0 <= i < |s.intents| ==> s.intents[i].merchant != req.merchant || s.intents[i].key != KeyOf(req, c)
    case CStore(_, _, _) => true
    case CCall(_, _, id) => Row(s, id)
    case CFail(_, id) => Row(s, id)
    case CAttempt(_, _, id, _, _) => Row(s, id)
    case CWrite(_, _, id, _, _) => Row(s, id)
    case CReturned(_, _) => false
    case WLookup(evt) => c.aid < |s.attempts| && s.attempts[c.aid].psp == evt.psp && s.attempts[c.aid].ref == evt.ref
    case WRead(_, aid) => aid < |s.attempts| && Row(s, s.attempts[aid].pi)
    case WAttempt(aid, _, _, _, _) => aid < |s.attempts|
    case WWrite(_, id, _, _, _) => Row(s, id)
    case QRead(_, id) => Row(s, id)
    case QCall(aid, _, _) => aid < |s.attempts|
    case QAttempt(aid, _, _, _, _) => aid < |s.attempts|
    case QWrite(_, id, _, _, _) => Row(s, id)
    case Post(id, snap, psp, k) =>
      var g := CollectionRows(s.cfg, id, snap, psp);
      k < |g| && g[k].amount > 0
    case Finished => false
    case Stopped => false
  }

  function Goto(s: State, t: nat, th: Thread): State
    requires t < |s.threads|
  {
    s.(threads := s.threads[t := th])
  }

  function SetStatus(s: State, id: nat, to: PIStatus): State
    requires Row(s, id)
  {
    s.(intents := s.intents[id := s.intents[id].(status := to)])
  }

  function SetAttempt(s: State, aid: nat, to: AttemptStatus): State
    requires aid < |s.attempts|
  {
    s.(attempts := s.attempts[aid := s.attempts[aid].(status := to)])
  }

  /** After the outcome has been written: post the collection of a success. */
  function Settled(s: State, t: nat, id: nat, snap: Intent, psp: string, to: PIStatus): State
    requires t < |s.threads| && Row(s, id)
  {
    var s1 := SetStatus(s, id, to);
    if to == Succeeded then
      Goto(s1, t, Post(id, snap, psp, 0)).(trace := s.trace[id := s.trace[id].(winner := Some(t))])
    else Goto(s1, t, Finished)
  }

  /** No step takes a thread away. */
  function DoGo(s: State, t: nat, c: Choice): (s': State)
    requires CanGo(s, t, c)
    ensures |s.threads| <= |s'.threads|
  {
    match s.threads[t]
    case CCheck(req) =>
      var k := CacheKey(req.merchant, req.key);
      Goto(s, t, if req.key != "" && k in s.cache then CFetch(req, s.cache[k]) else CGuard(req))
    case CFetch(req, id) => Goto(s, t, CReturned(req, id))
    case CGuard(req) => Goto(s, t, CInsert(req, c.psp))
    case CInsert(req, psp) =>
      Goto(s, t, CStore(req, psp, |s.intents|)).(
        intents := s.intents + [Intent(req.merchant, KeyOf(req, c), req.amount, req.currency, Created)],
        trace := s.trace + [Trace(t, None, 0, None)])
    case CStore(req, psp, id) =>
      Goto(s, t, CCall(req, psp, id)).(
        cache := if req.key != "" && c.ok then s.cache[CacheKey(req.merchant, req.key) := id] else s.cache)
    case CCall(req, psp, id) =>
      Goto(s, t, if c.ok then CAttempt(req, psp, id, c.ref, c.status == "processing") else CFail(req, id)).(
        trace := s.trace[id := s.trace[id].(issued := s.trace[id].issued + 1)])
    case CFail(req, id) => Goto(SetStatus(s, id, Failed), t, CReturned(req, id))
    case CAttempt(req, psp, id, ref, processing) =>
      Goto(s, t, CWrite(req, psp, id, |s.attempts|, processing)).(
        attempts := s.attempts + [Attempt(id, psp, ref, if processing then AProcessing else ARequiresAction)],
        trace := s.trace[id := s.trace[id].(att := Some(|s.attempts|))])
    case CWrite(req, psp, id, aid, processing) =>
      var s1 := Goto(SetStatus(s, id, if processing then Processing else RequiresAction), t, CReturned(req, id));
      if psp == "mpesa" && !processing then s1.(threads := s1.threads + [QRead(aid, id)]) else s1
    case WLookup(evt) => Goto(s, t, WRead(evt, c.aid))
    case WRead(evt, aid) =>
      var id := s.attempts[aid].pi;
      var snap := s.intents[id];
      Goto(s, t, match Outcome(evt.status)
                 case None => Stopped
                 case Some(to) =>
                   if IsValidTransition(snap.status, to) then WAttempt(aid, id, snap, s.attempts[aid].psp, to)
                   else Finished)
    case WAttempt(aid, id, snap, psp, to) =>
      Goto(SetAttempt(s, aid, OutcomeAttempt(to)), t, WWrite(aid, id, snap, psp, to))
    case WWrite(aid, id, snap, psp, to) => Settled(s, t, id, snap, psp, to)
    case QRead(aid, id) =>
      Goto(s, t, if s.intents[id].status in {RequiresAction, Processing} then QCall(aid, id, s.intents[id])
                 else Finished)
    case QCall(aid, id, snap) =>
      Goto(s, t, match Outcome(c.status)
                 case None => Finished
                 case Some(to) =>
                   if IsValidTransition(snap.status, to) then QAttempt(aid, id, snap, s.attempts[aid].psp, to)
                   else Finished)
    case QAttempt(aid, id, snap, psp, to) =>
      Goto(SetAttempt(s, aid, OutcomeAttempt(to)), t, QWrite(aid, id, snap, psp, to))
    case QWrite(aid, id, snap, psp, to) =>
      if s.intents[id].status == snap.status then Settled(s, t, id, snap, psp, to) else Goto(s, t, Finished)
    case Post(id, snap, psp, k) =>
      var g := CollectionRows(s.cfg, id, snap, psp);
      Goto(s, t, if k + 1 < |g| then Post(id, snap, psp, k + 1) else Finished).(ledger := s.ledger + [g[k]])
    case _ => s
  }

  /** Threads start as creation calls, with merchant identifiers that are UUIDs, or as deliveries of
      any event any number of times. Delayed queries are started by a creation. */
  predicate Enabled(s: State, a: Action) {
    match a
    case Spawn(th) => (th.CCheck? && ':' !in th.req.merchant) || th.WLookup?
    case Go(t, c) => CanGo(s, t, c)
    case Stop(t) => t < |s.threads| && !s.threads[t].CReturned? && !s.threads[t].Finished?
    case Forget(_) => true
  }

  function Do(s: State, a: Action): State
    requires Enabled(s, a)
  {
    match a
    case Spawn(th) => s.(threads := s.threads + [th])
    case Go(t, c) => DoGo(s, t, c)
    case Stop(t) => Goto(s, t, Stopped)
    case Forget(k) => s.(cache := s.cache - {k})
  }

  predicate Legal(s: State, run: seq<Action>)
    decreases |run|
  {
    |run| == 0 || (Enabled(s, run[0]) && Legal(Do(s, run[0]), run[1..]))
  }

  function Exec(s: State, run: seq<Action>): State
    requires Legal(s, run)
    decreases |run|
  {
    if |run| == 0 then s else Exec(Do(s, run[0]), run[1..])
  }

  function Init(cfg: FeeConfig): State {
    State(cfg, [], [], [], map[], [], [])
  }

  // ---- What holds as coded ----

  predicate Owns(pi: Intent, req: Request) {
    pi.merchant == req.merchant && (req.key != "" ==> pi.key == req.key)
  }

  /** Thread t inserted the row of id and has issued so many collection requests for it. */
  predicate Mine(s: State, t: nat, req: Request, id: nat, issued: nat) {
    Row(s, id) && s.trace[id].creator == t && s.trace[id].issued == issued && Owns(s.intents[id], req)
  }

  predicate Held(s: State, aid: nat, id: nat, snap: Intent) {
    Row(s, id) && aid < |s.attempts| && s.attempts[aid].pi == id && SameIdentity(snap, s.intents[id])
  }

  predicate Decided(s: State, aid: nat, id: nat, snap: Intent, psp: string, to: PIStatus) {
    Held(s, aid, id, snap) && s.attempts[aid].psp == psp && to in {Succeeded, Failed} &&
      IsValidTransition(snap.status, to)
  }

  predicate ThreadOk(s: State, t: nat)
    requires t < |s.threads|
  {
    match s.threads[t]
    case CCheck(req) => ':' !in req.merchant
    case CFetch(req, id) => Row(s, id) && Owns(s.intents[id], req)
    case CGuard(req) => ':' !in req.merchant
    case CInsert(req, _) => ':' !in req.merchant && Admitted(req.amount)
    case CStore(req, _, id) => Mine(s, t, req, id, 0) && s.trace[id].att == None
    case CCall(req, _, id) => Mine(s, t, req, id, 0) && s.trace[id].att == None
    case CFail(req, id) => Mine(s, t, req, id, 1) && s.trace[id].att == None
    case CAttempt(req, _, id, _, _) => Mine(s, t, req, id, 1) && s.trace[id].att == None
    case CWrite(req, psp, id, aid, _) =>
      Mine(s, t, req, id, 1) && aid < |s.attempts| && s.attempts[aid].pi == id
    case CReturned(req, id) => Row(s, id) && Owns(s.intents[id], req)
    case WLookup(_) => true
    case WRead(_, aid) => aid < |s.attempts|
    case WAttempt(aid, id, snap, psp, to) => Decided(s, aid, id, snap, psp, to)
    case WWrite(aid, id, snap, psp, to) => Decided(s, aid, id, snap, psp, to)
    case QRead(aid, id) => Row(s, id) && aid < |s.attempts| && s.attempts[aid].pi == id
    case QCall(aid, id, snap) => Held(s, aid, id, snap) && snap.status in {RequiresAction, Processing}
    case QAttempt(aid, id, snap, psp, to) =>
      Decided(s, aid, id, snap, psp, to) && snap.status in {RequiresAction, Processing}
    case QWrite(aid, id, snap, psp, to) =>
      Decided(s, aid, id, snap, psp, to) && snap.status in {RequiresAction, Processing}
    case Post(id, snap, psp, k) =>
      Row(s, id) && SameIdentity(snap, s.intents[id]) && k < |CollectionRows(s.cfg, id, snap, psp)| &&
      (s.trace[id].att.Some? && s.trace[id].att.value < |s.attempts| && s.attempts[s.trace[id].att.value].psp == psp)
    case Finished => true
    case Stopped => true
  }

  predicate SameKey(x: Intent, y: Intent) {
    x.merchant == y.merchant && x.key == y.key
  }

  /** The unique index on (merchant, key). */
  ghost predicate UniqueKeys(s: State) {
    forall i, j :: 0 <= i < |s.intents| && 0 <= j < |s.intents| && SameKey(s.intents[i], s.intents[j]) ==> i == j
  }

  predicate IntentOk(s: State, i: nat)
    requires Row(s, i)
  {
    var r := s.trace[i];
    r.creator < |s.threads| && r.issued <= 1 && Admitted(s.intents[i].amount) && ':' !in s.intents[i].merchant &&
    (r.att.Some? ==> r.att.value < |s.attempts| && s.attempts[r.att.value].pi == i)
  }

  /** An attempt belongs to an intent, and is its only one. */
  predicate AttemptOk(s: State, a: nat)
    requires a < |s.attempts|
  {
    Row(s, s.attempts[a].pi) && s.trace[s.attempts[a].pi].att == Some(a)
  }

  predicate CacheOk(s: State, k: string)
    requires k in s.cache
  {
    Row(s, s.cache[k]) && k == CacheKey(s.intents[s.cache[k]].merchant, s.intents[s.cache[k]].key)
  }

  ghost predicate TablesOk(s: State) {
    |s.trace| == |s.intents| && UniqueKeys(s) &&
    (forall i :: 0 <= i < |s.intents| ==> IntentOk(s, i)) &&
    (forall a :: 0 <= a < |s.attempts| ==> AttemptOk(s, a)) &&
    (forall k :: k in s.cache ==> CacheOk(s, k))
  }

  ghost predicate Base(s: State) {
    TablesOk(s) && forall t :: 0 <= t < |s.threads| ==> ThreadOk(s, t)
  }

  // ---- A step keeps what it does not touch ----

  predicate SameRow(s: State, s': State, t: nat, i: nat)
    requires Row(s, i) && Row(s', i)
  {
    SameIdentity(s.intents[i], s'.intents[i]) && s'.trace[i].creator == s.trace[i].creator &&
    (s.trace[i].creator != t ==> s'.trace[i].att == s.trace[i].att && s'.trace[i].issued == s.trace[i].issued) &&
    (s.trace[i].att.Some? ==> s'.trace[i].att == s.trace[i].att)
  }

  predicate SameAttempt(x: Attempt, y: Attempt) {
    x.pi == y.pi && x.psp == y.psp && x.ref == y.ref
  }

  /** Thread t's step from s to s' leaves other threads, identities and attempt rows in place. */
  ghost predicate Extends(s: State, s': State, t: nat) {
    s'.cfg == s.cfg && |s.intents| <= |s'.intents| && |s.trace| == |s.intents| && |s'.trace| == |s'.intents| &&
    |s.threads| <= |s'.threads| && |s.attempts| <= |s'.attempts| &&
    (forall u :: 0 <= u < |s.threads| && u != t ==> s'.threads[u] == s.threads[u]) &&
    (forall i :: 0 <= i < |s.intents| ==> SameRow(s, s', t, i)) &&
    (forall a :: 0 <= a < |s.attempts| ==> SameAttempt(s.attempts[a], s'.attempts[a]))
  }

  lemma GoExtends(s: State, t: nat, c: Choice)
    requires Base(s) && CanGo(s, t, c)
    ensures Extends(s, DoGo(s, t, c), t)
  {
    if Creating(s.threads[t]) {
      CreatingExtends(s, t, c);
    } else {
      ConfirmingExtends(s, t, c);
    }
  }

  lemma CreatingExtends(s: State, t: nat, c: Choice)
    requires Base(s) && CanGo(s, t, c) && Creating(s.threads[t])
    ensures Extends(s, DoGo(s, t, c), t)
  {
    assert ThreadOk(s, t);
  }

  lemma ConfirmingExtends(s: State, t: nat, c: Choice)
    requires Base(s) && CanGo(s, t, c) && !Creating(s.threads[t])
    ensures Extends(s, DoGo(s, t, c), t)
  {
    assert ThreadOk(s, t);
  }

  lemma ThreadFrame(s: State, s': State, t: nat, u: nat)
    requires Extends(s, s', t) && u < |s.threads| && u != t && ThreadOk(s, u)
    ensures ThreadOk(s', u)
  {
    assert s'.threads[u] == s.threads[u];
    match s.threads[u]
    case CFetch(_, id) => assert SameRow(s, s', t, id);
    case CStore(_, _, id) => assert SameRow(s, s', t, id);
    case CCall(_, _, id) => assert SameRow(s, s', t, id);
    case CFail(_, id) => assert SameRow(s, s', t, id);
    case CAttempt(_, _, id, _, _) => assert SameRow(s, s', t, id);
    case CWrite(_, _, id, aid, _) => assert SameRow(s, s', t, id) && SameAttempt(s.attempts[aid], s'.attempts[aid]);
    case CReturned(_, id) => assert SameRow(s, s', t, id);
    case WAttempt(aid, id, _, _, _) => assert SameRow(s, s', t, id) && SameAttempt(s.attempts[aid], s'.attempts[aid]);
    case WWrite(aid, id, _, _, _) => assert SameRow(s, s', t, id) && SameAttempt(s.attempts[aid], s'.attempts[aid]);
    case QRead(aid, id) => assert SameRow(s, s', t, id) && SameAttempt(s.attempts[aid], s'.attempts[aid]);
    case QCall(aid, id, _) => assert SameRow(s, s', t, id) && SameAttempt(s.attempts[aid], s'.attempts[aid]);
    case QAttempt(aid, id, _, _, _) => assert SameRow(s, s', t, id) && SameAttempt(s.attempts[aid], s'.attempts[aid]);
    case QWrite(aid, id, _, _, _) => assert SameRow(s, s', t, id) && SameAttempt(s.attempts[aid], s'.attempts[aid]);
    case Post(id, _, _, _) =>
      var aid := s.trace[id].att.value;
      assert SameRow(s, s', t, id) && SameAttempt(s.attempts[aid], s'.attempts[aid]);
    case _ =>
  }

  /** The cache key determines merchant and key when merchant identifiers contain no colon. */
  lemma CacheKeyInjective(m: string, k: string, m': string, k': string)
    requires ':' !in m && ':' !in m' && CacheKey(m, k) == CacheKey(m', k')
    ensures m == m' && k == k'
  {
    var x, y := m + ":" + k, m' + ":" + k';
    assert CacheKey(m, k) == "idempotency:" + x && CacheKey(m', k') == "idempotency:" + y;
    assert x == CacheKey(m, k)[12..] && y == CacheKey(m', k')[12..];
    assert x[|m|] == ':' && y[|m'|] == ':';
    assert forall i :: 0 <= i < |m'| ==> y[i] in m';
    assert forall i :: 0 <= i < |m| ==> x[i] in m;
    assert |m| == |m'|;
    assert m == x[..|m|] && m' == y[..|m'|];
    assert k == x[|m| + 1..] && k' == y[|m'| + 1..];
  }

  predicate Shifted(m: string, k: string, m': string, k': string, tail: string) {
    m' == m + ":" + tail && k == tail + ":" + k'
  }

  lemma CacheKeyPlain(m: string, k: string, m': string, k': string)
    ensures CacheKey(m, k) == CacheKey(m', k') <==> m + ":" + k == m' + ":" + k'
  {
    assert CacheKey(m, k) == "idempotency:" + (m + ":" + k) && CacheKey(m', k') == "idempotency:" + (m' + ":" + k');
    assert m + ":" + k == CacheKey(m, k)[12..] && m' + ":" + k' == CacheKey(m', k')[12..];
  }

  lemma PlainCollision(m: string, k: string, m': string, k': string)
    requires |m| < |m'| && m + ":" + k == m' + ":" + k'
    ensures Shifted(m, k, m', k', m'[|m| + 1..])
  {
    var x, y, n := m + ":" + k, m' + ":" + k', |m|;
    assert m == x[..n] && m'[..n] == y[..n];
    assert x[n] == ':' && y[n] == m'[n];
    assert k == x[n + 1..] && y[n + 1..] == m'[n + 1..] + ":" + k';
    assert m' == m'[..n] + [m'[n]] + m'[n + 1..];
  }

  /** Two keys collide exactly when they are the same, or the longer merchant identifier is the
      shorter one, a colon and a tail that moves over from the shorter one's key. */
  lemma CacheKeyCollisionIff(m: string, k: string, m': string, k': string)
    requires |m| <= |m'|
    ensures CacheKey(m, k) == CacheKey(m', k') <==>
            (m == m' && k == k') || (exists tail :: Shifted(m, k, m', k', tail))
  {
    CacheKeyPlain(m, k, m', k');
    if m + ":" + k == m' + ":" + k' {
      if |m| < |m'| {
        PlainCollision(m, k, m', k');
      } else {
        SameLength(m, k, m', k');
      }
    }
    if tail :| Shifted(m, k, m', k', tail) {
      assert m + ":" + (tail + ":" + k') == (m + ":" + tail) + ":" + k';
    }
  }

  lemma SameLength(m: string, k: string, m': string, k': string)
    requires |m| == |m'| && m + ":" + k == m' + ":" + k'
    ensures m == m' && k == k'
  {
    assert m == (m + ":" + k)[..|m|] && m' == (m' + ":" + k')[..|m'|];
    assert k == (m + ":" + k)[|m| + 1..] && k' == (m' + ":" + k')[|m'| + 1..];
  }

  predicate Creating(th: Thread) {
    th.CCheck? || th.CFetch? || th.CGuard? || th.CInsert? || th.CStore? ||
    th.CCall? || th.CFail? || th.CAttempt? || th.CWrite?
  }

  lemma GoCreate(s: State, t: nat, c: Choice)
    requires Base(s) && CanGo(s, t, c) && Creating(s.threads[t])
    ensures ThreadOk(DoGo(s, t, c), t)
  {
    assert ThreadOk(s, t);
    match s.threads[t]
    case CCheck(req) =>
      var k := CacheKey(req.merchant, req.key);
      if req.key != "" && k in s.cache {
        assert CacheOk(s, k) && IntentOk(s, s.cache[k]);
        var pi := s.intents[s.cache[k]];
        CacheKeyInjective(req.merchant, req.key, pi.merchant, pi.key);
      }
    case _ =>
  }

  predicate Querying(th: Thread) {
    th.QRead? || th.QCall? || th.QAttempt?
  }

  lemma GoConfirm(s: State, t: nat, c: Choice)
    requires Base(s) && CanGo(s, t, c) && !Creating(s.threads[t])
    ensures ThreadOk(DoGo(s, t, c), t)
  {
    if s.threads[t].WWrite? || s.threads[t].QWrite? {
      SettledOk(s, t, c, s.threads[t].aid);
    } else if Querying(s.threads[t]) {
      GoQuery(s, t, c);
    } else {
      assert ThreadOk(s, t) && (s.threads[t].WRead? ==> AttemptOk(s, s.threads[t].aid));
    }
  }

  lemma GoQuery(s: State, t: nat, c: Choice)
    requires Base(s) && CanGo(s, t, c) && Querying(s.threads[t])
    ensures ThreadOk(DoGo(s, t, c), t)
  {
    assert ThreadOk(s, t);
  }

  lemma SettledOk(s: State, t: nat, c: Choice, aid: nat)
    requires Base(s) && CanGo(s, t, c) && (s.threads[t].WWrite? || s.threads[t].QWrite?) && s.threads[t].aid == aid
    ensures ThreadOk(DoGo(s, t, c), t)
  {
    assert ThreadOk(s, t) && AttemptOk(s, aid);
  }

  lemma GoSpawned(s: State, t: nat, c: Choice)
    requires Base(s) && CanGo(s, t, c)
    ensures forall u :: |s.threads| <= u < |DoGo(s, t, c).threads| ==> ThreadOk(DoGo(s, t, c), u)
  {
    assert ThreadOk(s, t);
  }

  lemma GoKeys(s: State, t: nat, c: Choice)
    requires Base(s) && CanGo(s, t, c)
    ensures UniqueKeys(DoGo(s, t, c)) && |DoGo(s, t, c).trace| == |DoGo(s, t, c).intents|
  {
    var s' := DoGo(s, t, c);
    GoExtends(s, t, c);
    forall i, j | 0 <= i < |s'.intents| && 0 <= j < |s'.intents| && SameKey(s'.intents[i], s'.intents[j])
      ensures i == j
    {
      if i < |s.intents| {
        assert SameRow(s, s', t, i);
      }
      if j < |s.intents| {
        assert SameRow(s, s', t, j);
      }
      assert i < |s.intents| && j < |s.intents| ==> SameKey(s.intents[i], s.intents[j]);
    }
  }

  /** Only the thread that inserted an intent adds to its history, one step at a time. */
  lemma GoTrace(s: State, t: nat, c: Choice, i: nat)
    requires Base(s) && CanGo(s, t, c) && i < |s.intents|
    ensures var r, r' := s.trace[i], DoGo(s, t, c).trace[i];
            (r'.issued == r.issued || (r.issued == 0 && r'.issued == 1)) &&
            (r'.att == r.att || (r'.att == Some(|s.attempts|) && |DoGo(s, t, c).attempts| == |s.attempts| + 1
                                 && DoGo(s, t, c).attempts[|s.attempts|].pi == i))
  {
    assert ThreadOk(s, t);
  }

  lemma GoIntents(s: State, t: nat, c: Choice, i: nat)
    requires Base(s) && CanGo(s, t, c) && i < |DoGo(s, t, c).intents|
    requires Extends(s, DoGo(s, t, c), t)
    ensures IntentOk(DoGo(s, t, c), i)
  {
    if i < |s.intents| {
      var s' := DoGo(s, t, c);
      assert IntentOk(s, i) && SameRow(s, s', t, i);
      GoTrace(s, t, c, i);
      if s.trace[i].att.Some? {
        var a := s.trace[i].att.value;
        assert SameAttempt(s.attempts[a], s'.attempts[a]);
      }
    } else {
      assert ThreadOk(s, t);
    }
  }

  lemma GoAttempts(s: State, t: nat, c: Choice, a: nat)
    requires Base(s) && CanGo(s, t, c) && a < |DoGo(s, t, c).attempts|
    ensures AttemptOk(DoGo(s, t, c), a)
  {
    assert ThreadOk(s, t);
    GoExtends(s, t, c);
    if a < |s.attempts| {
      assert AttemptOk(s, a) && SameRow(s, DoGo(s, t, c), t, s.attempts[a].pi);
    }
  }

  lemma GoCache(s: State, t: nat, c: Choice, k: string)
    requires Base(s) && CanGo(s, t, c) && k in DoGo(s, t, c).cache
    ensures CacheOk(DoGo(s, t, c), k)
  {
    assert ThreadOk(s, t);
    if k in s.cache {
      assert CacheOk(s, k);
      GoExtends(s, t, c);
      assert SameRow(s, DoGo(s, t, c), t, s.cache[k]);
    }
  }

  lemma BaseStep(s: State, a: Action)
    requires Base(s) && Enabled(s, a)
    ensures Base(Do(s, a))
  {
    var s' := Do(s, a);
    match a
    case Go(t, c) =>
      GoExtends(s, t, c);
      if Creating(s.threads[t]) {
        GoCreate(s, t, c);
      } else {
        GoConfirm(s, t, c);
      }
      GoSpawned(s, t, c);
      GoKeys(s, t, c);
      forall i | 0 <= i < |s'.intents| ensures IntentOk(s', i) {
        GoIntents(s, t, c, i);
      }
      forall b | 0 <= b < |s'.attempts| ensures AttemptOk(s', b) {
        GoAttempts(s, t, c, b);
      }
      forall k | k in s'.cache ensures CacheOk(s', k) {
        GoCache(s, t, c, k);
      }
      forall u | 0 <= u < |s.threads| && u != t ensures ThreadOk(s', u) {
        ThreadFrame(s, s', t, u);
      }
    case Spawn(_) => IdleStep(s, a, |s.threads|);
    case Stop(t) => IdleStep(s, a, t);
    case Forget(_) => IdleStep(s, a, |s.threads|);
  }

  lemma IdleStep(s: State, a: Action, t: nat)
    requires Base(s) && Enabled(s, a) && !a.Go? && t == (if a.Stop? then a.t else |s.threads|)
    ensures Base(Do(s, a))
  {
    var s' := Do(s, a);
    assert Extends(s, s', t);
    forall u | 0 <= u < |s.threads| && u != t ensures ThreadOk(s', u) {
      ThreadFrame(s, s', t, u);
    }
    forall i | 0 <= i < |s'.intents| ensures IntentOk(s', i) {
      assert IntentOk(s, i);
    }
    forall b | 0 <= b < |s'.attempts| ensures AttemptOk(s', b) {
      assert AttemptOk(s, b);
    }
    forall k | k in s'.cache ensures CacheOk(s', k) {
      assert CacheOk(s, k);
    }
  }

  lemma {:induction false} BaseRun(s: State, run: seq<Action>)
    requires Base(s) && Legal(s, run)
    ensures Base(Exec(s, run))
    decreases |run|
  {
    if |run| == 0 {
    } else {
      BaseStep(s, run[0]);
      BaseRun(Do(s, run[0]), run[1..]);
    }
  }
}
