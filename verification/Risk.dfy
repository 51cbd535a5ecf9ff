/** The risk check: an amount cap and, per customer phone and email, a sliding-window rate limit
    kept as a pruned list of attempt times. */
module Risk {
  import opened Domain
  import opened Fees

  // ---- Times in a window ----

  predicate Sorted(ts: seq<int>) {
    forall i, j :: 0 <= i < j < |ts| ==> ts[i] <= ts[j]
  }

  /** The times after the cutoff, in order. */
  function After(ts: seq<int>, cutoff: int): seq<int> {
    if |ts| == 0 then [] else After(ts[..|ts| - 1], cutoff) + if ts[|ts| - 1] > cutoff then [ts[|ts| - 1]] else []
  }

  /** How many of the times lie in (from, to]. */
  function CountIn(ts: seq<int>, from: int, to: int): nat {
    if |ts| == 0 then 0 else CountIn(ts[..|ts| - 1], from, to) + if from < ts[|ts| - 1] <= to then 1 else 0
  }

  lemma {:induction false} AfterAfter(ts: seq<int>, x: int, y: int)
    requires x <= y
    ensures After(After(ts, x), y) == After(ts, y)
  {
    if |ts| == 0 {
    } else {
      var n := |ts| - 1;
      AfterAfter(ts[..n], x, y);
      if ts[n] > x {
        assert (After(ts[..n], x) + [ts[n]])[..|After(ts[..n], x)|] == After(ts[..n], x);
      } else {
        assert After(ts[..n], x) + [] == After(ts[..n], x);
      }
    }
  }

  /** With sorted times the times after a cutoff are a suffix. */
  lemma {:induction false} AfterIsSuffix(ts: seq<int>, cutoff: int)
    requires Sorted(ts)
    ensures |After(ts, cutoff)| <= |ts|
    ensures forall i :: 0 <= i < |ts| ==> (ts[i] > cutoff <==> i >= |ts| - |After(ts, cutoff)|)
  {
    if |ts| == 0 {
    } else {
      var n := |ts| - 1;
      var p := ts[..n];
      AfterIsSuffix(p, cutoff);
      assert |After(p, cutoff)| > 0 ==> p[n - 1] > cutoff && p[n - 1] <= ts[n];
      forall i | 0 <= i < |ts| ensures ts[i] > cutoff <==> i >= |ts| - |After(ts, cutoff)| {
        assert i < n ==> p[i] == ts[i] <= ts[n];
      }
    }
  }

  /** The max-th time before j is at least a window older. */
  predicate Gap(ts: seq<int>, max: nat, window: int, j: nat)
    requires j < |ts|
  {
    j < max || ts[j - max] <= ts[j] - window
  }

  /** Any max + 1 consecutive accepted times span at least the window. */
  predicate Spread(ts: seq<int>, max: nat, window: int) {
    forall j :: 0 <= j < |ts| ==> Gap(ts, max, window, j)
  }

  lemma SpreadPrefix(ts: seq<int>, max: nat, window: int, n: nat)
    requires Sorted(ts) && Spread(ts, max, window) && n <= |ts|
    ensures Sorted(ts[..n]) && Spread(ts[..n], max, window)
  {
    forall j | 0 <= j < n ensures Gap(ts[..n], max, window, j) {
      assert Gap(ts, max, window, j);
    }
  }

  lemma {:induction false} CountAll(ts: seq<int>, from: int, to: int)
    requires forall i :: 0 <= i < |ts| ==> ts[i] <= to
    ensures CountIn(ts, from, to) == |After(ts, from)|
  {
    if |ts| == 0 {
    } else {
      CountAll(ts[..|ts| - 1], from, to);
    }
  }

  /** An interval no longer than the window holds at most max of the times. */
  lemma {:induction false} SpreadBoundsCount(ts: seq<int>, max: nat, window: int, from: int)
    requires Sorted(ts) && Spread(ts, max, window)
    ensures CountIn(ts, from, from + window) <= max
  {
    if |ts| == 0 {
    } else {
      var n := |ts| - 1;
      if ts[n] > from + window {
        SpreadPrefix(ts, max, window, n);
        SpreadBoundsCount(ts[..n], max, window, from);
      } else {
        CountAll(ts, from, from + window);
        AfterIsSuffix(ts, from);
        assert Gap(ts, max, window, n);
      }
    }
  }

  /** What the list of a key may have lost is outside every window still to come. */
  predicate KeyFacts(history: seq<int>, kept: seq<int>, max: nat, window: int, clock: int) {
    Sorted(history) && Spread(history, max, window) && (forall i :: 0 <= i < |history| ==> history[i] <= clock) &&
    After(kept, clock - window) == After(history, clock - window)
  }

  lemma AfterLater(history: seq<int>, kept: seq<int>, x: int, y: int)
    requires x <= y && After(kept, x) == After(history, x)
    ensures After(kept, y) == After(history, y) == After(After(kept, y), y)
  {
    AfterAfter(kept, x, y);
    AfterAfter(history, x, y);
    AfterAfter(history, y, y);
  }

  lemma KeyFactsLater(history: seq<int>, kept: seq<int>, max: nat, window: int, clock: int, now: int)
    requires KeyFacts(history, kept, max, window, clock) && clock <= now
    ensures KeyFacts(history, kept, max, window, now)
    ensures KeyFacts(history, After(kept, now - window), max, window, now)
  {
    AfterLater(history, kept, clock - window, now - window);
  }

  lemma AfterAppend(ts: seq<int>, t: int, cutoff: int)
    ensures After(ts + [t], cutoff) == After(ts, cutoff) + if t > cutoff then [t] else []
  {
    assert (ts + [t])[..|ts|] == ts;
  }

  lemma AcceptSpread(h: seq<int>, max: nat, window: int, now: int)
    requires Sorted(h) && Spread(h, max, window) && |After(h, now - window)| < max
    ensures Spread(h + [now], max, window)
  {
    var h' := h + [now];
    AfterIsSuffix(h, now - window);
    forall j | 0 <= j < |h'| ensures Gap(h', max, window, j) {
      if j < |h| {
        assert Gap(h, max, window, j);
      }
    }
  }

  lemma AcceptSorted(h: seq<int>, now: int)
    requires Sorted(h) && forall i :: 0 <= i < |h| ==> h[i] <= now
    ensures Sorted(h + [now]) && forall i :: 0 <= i < |h + [now]| ==> (h + [now])[i] <= now
  {
  }

  lemma AcceptKept(h: seq<int>, recent: seq<int>, now: int, cutoff: int)
    requires recent == After(h, cutoff) == After(recent, cutoff) && cutoff < now
    ensures recent + [now] == After(h + [now], cutoff) == After(recent + [now], cutoff)
  {
    AfterAppend(h, now, cutoff);
    AfterAppend(recent, now, cutoff);
  }

  /** Accepting one more time keeps the facts when fewer than max are in the window. */
  lemma Accept(h: seq<int>, recent: seq<int>, max: nat, window: int, now: int)
    requires KeyFacts(h, recent, max, window, now) && window > 0
    requires recent == After(h, now - window) && |recent| < max
    ensures KeyFacts(h + [now], recent + [now], max, window, now)
    ensures recent + [now] == After(h + [now], now - window)
  {
    AcceptSorted(h, now);
    AcceptSpread(h, max, window, now);
    AcceptKept(h, recent, now, now - window);
  }

  function Look(m: map<string, seq<int>>, key: string): seq<int> {
    if key in m then m[key] else []
  }

  predicate KeyOk(
    accepted: map<string, seq<int>>,
    velocities: map<string, seq<int>>,
    key: string,
    max: nat,
    window: int,
    clock: int)
  {
    KeyFacts(Look(accepted, key), Look(velocities, key), max, window, clock)
  }

  ghost predicate AllFacts(
    accepted: map<string, seq<int>>,
    velocities: map<string, seq<int>>,
    max: nat,
    window: int,
    clock: int)
  {
    forall k :: KeyOk(accepted, velocities, k, max, window, clock)
  }

  lemma AllFactsLater(
    accepted: map<string, seq<int>>,
    velocities: map<string, seq<int>>,
    max: nat,
    window: int,
    clock: int,
    now: int)
    requires AllFacts(accepted, velocities, max, window, clock) && clock <= now
    ensures AllFacts(accepted, velocities, max, window, now)
  {
    forall k ensures KeyOk(accepted, velocities, k, max, window, now) {
      assert KeyOk(accepted, velocities, k, max, window, clock);
      KeyFactsLater(Look(accepted, k), Look(velocities, k), max, window, clock, now);
    }
  }

  lemma AllFactsUpdate(
    accepted: map<string, seq<int>>,
    velocities: map<string, seq<int>>,
    key: string,
    h: seq<int>,
    kept: seq<int>,
    max: nat,
    window: int,
    now: int)
    requires AllFacts(accepted, velocities, max, window, now) && KeyFacts(h, kept, max, window, now)
    ensures AllFacts(accepted[key := h], velocities[key := kept], max, window, now)
    ensures h == Look(accepted, key) ==> AllFacts(accepted, velocities[key := kept], max, window, now)
  {
    var accepted', velocities' := accepted[key := h], velocities[key := kept];
    forall k ensures KeyOk(accepted', velocities', k, max, window, now) {
      assert KeyOk(accepted, velocities, k, max, window, now);
    }
    if h == Look(accepted, key) {
      forall k ensures KeyOk(accepted, velocities', k, max, window, now) {
        assert KeyOk(accepted, velocities, k, max, window, now);
      }
    }
  }

  /** With a clock that does not run backwards, the times after the cutoff are those of the window
      that ends now. */
  lemma Counted(
    accepted: map<string, seq<int>>,
    velocities: map<string, seq<int>>,
    key: string,
    max: nat,
    window: int,
    clock: int,
    now: int)
    requires AllFacts(accepted, velocities, max, window, clock) && clock <= now
    ensures CountIn(Look(accepted, key), now - window, now) == |After(Look(accepted, key), now - window)|
  {
    assert KeyOk(accepted, velocities, key, max, window, clock);
    CountAll(Look(accepted, key), now - window, now);
  }

  /** The two outcomes of a check of a key at a time, with history h and kept list `recent`. */
  lemma Checked(
    accepted: map<string, seq<int>>,
    velocities: map<string, seq<int>>,
    key: string,
    h: seq<int>,
    recent: seq<int>,
    max: nat,
    window: int,
    clock: int,
    now: int)
    requires AllFacts(accepted, velocities, max, window, clock) && clock <= now && window > 0
    requires h == Look(accepted, key) && recent == After(Look(velocities, key), now - window)
    ensures recent == After(h, now - window) && |recent| == CountIn(h, now - window, now)
    ensures AllFacts(accepted, velocities[key := recent], max, window, now)
    ensures |recent| < max ==> AllFacts(accepted[key := h + [now]], velocities[key := recent + [now]], max, window, now)
    ensures |recent| < max ==> recent + [now] == After(h + [now], now - window)
  {
    assert KeyOk(accepted, velocities, key, max, window, clock);
    Counted(accepted, velocities, key, max, window, clock, now);
    KeyFactsLater(h, Look(velocities, key), max, window, clock, now);
    AllFactsLater(accepted, velocities, max, window, clock, now);
    AllFactsUpdate(accepted, velocities, key, h, recent, max, window, now);
    if |recent| < max {
      Accept(h, recent, max, window, now);
      AllFactsUpdate(accepted, velocities, key, h + [now], recent + [now], max, window, now);
    }
  }

  // ---- The engine ----

  method Prune(times: seq<int>, cutoff: int) returns (recent: seq<int>)
    ensures recent == After(times, cutoff)
  {
    recent := [];
    for i := 0 to |times|
      invariant recent == After(times[..i], cutoff)
    {
      assert times[..i + 1][..i] == times[..i];
      if times[i] > cutoff {
        recent := recent + [times[i]];
      }
    }
    assert times[..|times|] == times;
  }

  class RiskEngine {
    const maxAttempts: nat
    const window: int
    const maxAmount: int
    var velocities: map<string, seq<int>>
    /** Every accepted check of a key, ever. */
    ghost var accepted: map<string, seq<int>>
    /** The latest check of any key; the clock does not run backwards. */
    ghost var clock: int

    ghost predicate Valid()
      reads this
    {
      window > 0 && AllFacts(accepted, velocities, maxAttempts, window, clock)
    }

    constructor ()
      ensures Valid() && velocities == map[] && accepted == map[]
      ensures maxAttempts == 10 && window == 60_000_000_000 && maxAmount == 100_000_000
    {
      maxAttempts, window, maxAmount := 10, 60_000_000_000, MAX_AMOUNT;
      velocities, accepted, clock := map[], map[], 0;
    }

    /** Accepts exactly when fewer than maxAttempts accepted checks of the key lie in the window
        ending now, and afterwards keeps exactly the accepted checks in that window. */
    method CheckVelocity(key: string, now: int) returns (ok: bool)
      requires Valid() && clock <= now
      modifies this
      ensures Valid() && clock == now
      ensures ok <==> old(Free(key, now))
      ensures ok <==> CountIn(old(Look(accepted, key)), now - window, now) < maxAttempts
      ensures accepted == if ok then old(accepted)[key := old(Look(accepted, key)) + [now]] else old(accepted)
      ensures velocities == old(velocities)[key := After(Look(accepted, key), now - window)]
    {
      var recent := Prune(Look(velocities, key), now - window);
      ghost var h := Look(accepted, key);
      Checked(accepted, velocities, key, h, recent, maxAttempts, window, clock, now);
      clock := now;
      ok := |recent| < maxAttempts;
      if ok {
        velocities := velocities[key := recent + [now]];
        accepted := accepted[key := h + [now]];
      } else {
        velocities := velocities[key := recent];
      }
    }

    /** Any stretch of one window length holds at most maxAttempts accepted checks of a key. */
    lemma RateLimited(key: string, from: int)
      requires Valid()
      ensures CountIn(Look(accepted, key), from, from + window) <= maxAttempts
    {
      assert KeyOk(accepted, velocities, key, maxAttempts, window, clock);
      SpreadBoundsCount(Look(accepted, key), maxAttempts, window, from);
    }

    /** Fewer than maxAttempts accepted checks of the key lie in the window ending now. */
    ghost predicate Free(key: string, now: int)
      reads this
    {
      |After(Look(accepted, key), now - window)| < maxAttempts
    }

    ghost predicate Admits(amount: int, phone: string, email: string, now: int)
      reads this
    {
      0 < amount <= maxAmount && (phone == "" || Free("phone:" + phone, now)) &&
        (email == "" || Free("email:" + email, now))
    }

    /** A customer identifier that is not given is not limited. */
    method CheckIfGiven(id: string, key: string, now: int) returns (ok: bool)
      requires Valid() && clock <= now
      modifies this
      ensures Valid() && clock <= now
      ensures ok <==> id == "" || old(Free(key, now))
      ensures accepted ==
                if id != "" && ok then old(accepted)[key := old(Look(accepted, key)) + [now]] else old(accepted)
    {
      ok := true;
      if id != "" {
        ok := CheckVelocity(key, now);
      }
    }

    /** The amount first, then the phone's limit, then the email's; a request the email's limit
        refuses has already used a slot of the phone's. */
    method Evaluate(amount: int, phone: string, email: string, now: int) returns (ok: bool)
      requires Valid() && clock <= now
      modifies this
      ensures Valid() && clock <= now
      ensures ok <==> old(Admits(amount, phone, email, now))
      ensures ok <==>
                0 < amount <= maxAmount &&
                (phone == "" || CountIn(old(Look(accepted, "phone:" + phone)), now - window, now) < maxAttempts) &&
                (email == "" || CountIn(old(Look(accepted, "email:" + email)), now - window, now) < maxAttempts)
      ensures var p := "phone:" + phone;
              Look(accepted, p) == old(Look(accepted, p)) +
                if 0 < amount <= maxAmount && phone != "" && old(Free(p, now)) then [now] else []
      ensures var e := "email:" + email;
              Look(accepted, e) == old(Look(accepted, e)) + if ok && email != "" then [now] else []
      ensures forall k :: k != "phone:" + phone && k != "email:" + email ==> Look(accepted, k) == old(Look(accepted, k))
    {
      var p, e := "phone:" + phone, "email:" + email;
      Counted(accepted, velocities, p, maxAttempts, window, clock, now);
      Counted(accepted, velocities, e, maxAttempts, window, clock, now);
      assert p[0] != e[0];
      ok := 0 < amount <= maxAmount;
      if ok {
        ok := CheckIfGiven(phone, p, now);
        assert Look(accepted, e) == old(Look(accepted, e));
      }
      if ok {
        ok := CheckIfGiven(email, e, now);
      }
    }
  }
}
