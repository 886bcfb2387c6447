/** `LLMClient._open_openai_stream`: the request loop that rotates keys on 429 and 401. */
module RetryLoop {
  import opened Options
  import opened KeyPool

  /** What the world does during one attempt: when the key is leased, what the provider
      answers, and when the answer is recorded. */
  datatype Attempt = Attempt(
    leaseTime: real, usedTime: real, status: int, retryAfter: Option<real>, headers: Headers, markTime: real)

  /** `Response` is an open response; `Unavailable` the error raised when every try failed. */
  datatype Outcome = Response(status: int) | Unavailable(tries: nat, lastStatus: int)

  /** Time never runs backwards between leases; pauses of any length are allowed. */
  predicate Forward(script: seq<Attempt>) {
    forall i, j :: 0 <= i < j < |script| ==> script[i].leaseTime <= script[j].leaseTime
  }

  function MaxTries(n: nat): nat {
    (if n < 1 then 1 else n) + 2
  }

  /** Every key that was eligible when the request started is among the first `b` used. */
  ghost predicate AllTried(p0: Pool, t0: real, used: seq<nat>, b: nat)
    requires b <= |used|
  {
    forall i: nat :: i < |p0.states| && p0.Eligible(i, t0) ==> i in used[..b]
  }

  /** A key is repeated only once all of those have been used. */
  ghost predicate NoEarlyRepeat(p0: Pool, t0: real, used: seq<nat>) {
    forall b :: 0 <= b < |used| && used[b] in used[..b] ==> AllTried(p0, t0, used, b)
  }

  predicate SameQuota(s: KeyState, t: KeyState) {
    && s.cooldownUntil == t.cooldownUntil
    && s.remainingRequests == t.remainingRequests
    && s.remainingTokens == t.remainingTokens
  }

  ghost predicate Distinct(used: seq<nat>) {
    forall a, b :: 0 <= a < b < |used| ==> used[a] != used[b]
  }

  /** The request has gone round only as far as distance `cur` from where it started: the
      keys it used are distinct and lie behind, the others are as they were, and no key
      that was eligible has been passed over. */
  ghost predicate FirstRound(p0: Pool, t0: real, p: Pool, used: seq<nat>, cur: nat)
    requires p0.Valid() && p0.states != []
  {
    var n := |p0.states|;
    && p.Valid() && |p.states| == n && p.requestFloor == p0.requestFloor && p.tokenFloor == p0.tokenFloor
    && cur <= n && p.idx == Wrap(p0.idx + cur, n)
    && |used| <= cur && Distinct(used)
    && (forall u :: u in used ==> u < n && Ahead(p0.idx, u, n) < cur)
    && (forall i: nat :: i < n && i !in used ==> SameQuota(p.states[i], p0.states[i]))
    && (forall i: nat :: i < n && p0.Eligible(i, t0) && Ahead(p0.idx, i, n) < cur ==> i in used)
  }

  lemma AheadShift(from: nat, cur: nat, x: nat, n: nat)
    requires from < n && x < n && cur < n
    ensures Ahead(from, x, n) >= cur ==> Ahead(Wrap(from + cur, n), x, n) == Ahead(from, x, n) - cur
    ensures Ahead(from, x, n) < cur ==> Ahead(Wrap(from + cur, n), x, n) == Ahead(from, x, n) + n - cur
  {
  }

  /** While some key that was eligible is untried, the next lease gives a fresh key, and
      passes over none that was eligible. */
  lemma NextLease(p0: Pool, t0: real, p: Pool, used: seq<nat>, cur: nat, now: real)
    requires p0.Valid() && p0.states != [] && FirstRound(p0, t0, p, used, cur)
    requires !AllTried(p0, t0, used, |used|) && now >= t0
    ensures var i := Pick(p, now); var n := |p0.states|;
            && i !in used && cur <= Ahead(p0.idx, i, n)
            && forall x: nat :: x < n && p0.Eligible(x, t0) && Ahead(p0.idx, x, n) < Ahead(p0.idx, i, n) ==> x in used
  {
    hide Pick, Wrap, Ahead;
    var n, i := |p0.states|, Pick(p, now);
    assert used[..|used|] == used;
    var e: nat :| e < n && p0.Eligible(e, t0) && e !in used;
    assert p.Eligible(e, now);
    assert cur <= Ahead(p0.idx, e, n) < n;
    assert forall x: nat :: x < n && p0.Eligible(x, t0) && x !in used ==> p.Eligible(x, now);
    PickLaw(p, now);
    AheadShift(p0.idx, cur, e, n);
    AheadShift(p0.idx, cur, i, n);
    forall x: nat | x < n && p0.Eligible(x, t0) && Ahead(p0.idx, x, n) < Ahead(p0.idx, i, n) ensures x in used {
      AheadShift(p0.idx, cur, x, n);
    }
  }

  lemma AfterMark(p0: Pool, t0: real, p: Pool, used: seq<nat>, cur: nat, now: real, usedAt: real, until: real,
                  status: int)
    requires p0.Valid() && p0.states != [] && FirstRound(p0, t0, p, used, cur)
    requires !AllTried(p0, t0, used, |used|) && now >= t0
    ensures var i := Pick(p, now);
            FirstRound(p0, t0, Cooled(AfterLease(p, now, usedAt), i, until, status), used + [i],
                       Ahead(p0.idx, i, |p0.states|) + 1)
  {
    hide Pick;
    NextLease(p0, t0, p, used, cur, now);
  }

  // ----- a run of the loop -----

  /** A reply that makes the loop go on to another key. */
  predicate Rotates(n: nat, status: int) {
    status == 429 || (status == 401 && n > 1)
  }

  /** The pool after one attempt: the mark or the quota lands on the leased key. */
  function Tried(p: Pool, a: Attempt): (q: Pool)
    requires p.Valid()
    ensures q.Valid() && |q.states| == |p.states| && q.requestFloor == p.requestFloor && q.tokenFloor == p.tokenFloor
  {
    hide Pick, Wrap;
    if p.states == [] then p
    else
      var i, leased := Pick(p, a.leaseTime), AfterLease(p, a.leaseTime, a.usedTime);
      if a.status == 429 then Cooled(leased, i, a.markTime + RateLimitCooldown(a.retryAfter), 429)
      else if Rotates(|p.states|, a.status) then Cooled(leased, i, a.markTime + INVALID_COOLDOWN, 401)
      else leased.(states := leased.states[i := Noted(leased.states[i], a.headers)])
  }

  function PoolAt(p0: Pool, script: seq<Attempt>, k: nat): (p: Pool)
    requires p0.Valid() && k <= |script|
    ensures p.Valid() && |p.states| == |p0.states| && p.requestFloor == p0.requestFloor && p.tokenFloor == p0.tokenFloor
  {
    if k == 0 then p0 else Tried(PoolAt(p0, script, k - 1), script[k - 1])
  }

  /** The keys sent by the first `k` attempts, in order. */
  function Used(p0: Pool, script: seq<Attempt>, k: nat): (used: seq<nat>)
    requires p0.Valid() && k <= |script|
    ensures |used| == if p0.states == [] then 0 else k
  {
    if k == 0 || p0.states == [] then []
    else Used(p0, script, k - 1) + [Pick(PoolAt(p0, script, k - 1), script[k - 1].leaseTime)]
  }

  /** As long as every reply rotates, the request is in its first round, or has used every
      key that was eligible when it started. */
  lemma {:induction false} StillFirstRound(p0: Pool, script: seq<Attempt>, k: nat) returns (cur: nat)
    requires p0.Valid() && p0.states != [] && Forward(script) && k <= |script| && script != []
    requires forall j :: 0 <= j < k ==> Rotates(|p0.states|, script[j].status)
    ensures var used, t0 := Used(p0, script, k), script[0].leaseTime;
            && (AllTried(p0, t0, used, |used|) || FirstRound(p0, t0, PoolAt(p0, script, k), used, cur))
            && NoEarlyRepeat(p0, t0, used)
  {
    hide Pick, Wrap, Ahead, FirstRound, AllTried, Cooled, AfterLease, NoEarlyRepeat;
    var t0 := script[0].leaseTime;
    if k == 0 {
      Start(p0, t0);
      cur := 0;
    } else {
      cur := StillFirstRound(p0, script, k - 1);
      var a, p, used := script[k - 1], PoolAt(p0, script, k - 1), Used(p0, script, k - 1);
      var i := Pick(p, a.leaseTime);
      if AllTried(p0, t0, used, |used|) {
        FreshOrAll(p0, t0, used, i);
      } else {
        NextLease(p0, t0, p, used, cur, a.leaseTime);
        FreshOrAll(p0, t0, used, i);
        AfterMark(p0, t0, p, used, cur, a.leaseTime, a.usedTime, a.markTime + RateLimitCooldown(a.retryAfter), 429);
        AfterMark(p0, t0, p, used, cur, a.leaseTime, a.usedTime, a.markTime + INVALID_COOLDOWN, 401);
        cur := Ahead(p0.idx, i, |p0.states|) + 1;
      }
    }
  }

  /** Whatever the provider answers and however time passes: no key is used a second time
      before every key that was eligible at the start has been used, and a round longer than
      the pool has used all of them. */
  lemma FairRotation(p0: Pool, script: seq<Attempt>, k: nat)
    requires p0.Valid() && p0.states != [] && Forward(script) && 1 <= k <= |script|
    requires forall j :: 0 <= j < k - 1 ==> Rotates(|p0.states|, script[j].status)
    ensures NoEarlyRepeat(p0, script[0].leaseTime, Used(p0, script, k))
    ensures k > |p0.states| && Rotates(|p0.states|, script[k - 1].status) ==>
            AllTried(p0, script[0].leaseTime, Used(p0, script, k), k)
  {
    hide Pick, Wrap, Ahead, FirstRound, AllTried, Cooled, AfterLease, NoEarlyRepeat, PoolAt;
    var t0, used, p := script[0].leaseTime, Used(p0, script, k - 1), PoolAt(p0, script, k - 1);
    var cur := StillFirstRound(p0, script, k - 1);
    if !AllTried(p0, t0, used, |used|) { NextLease(p0, t0, p, used, cur, script[k - 1].leaseTime); }
    FreshOrAll(p0, t0, used, Pick(p, script[k - 1].leaseTime));
    if Rotates(|p0.states|, script[k - 1].status) {
      cur := StillFirstRound(p0, script, k);
      if !AllTried(p0, t0, Used(p0, script, k), k) { TooMany(p0, t0, PoolAt(p0, script, k), Used(p0, script, k), cur); }
    }
  }

  /** One turn of the loop: lease a key, send, and record the reply on the leased key. */
  method SendOnce(pool: KeyPool, a: Attempt) returns (sent: Option<nat>, again: bool)
    requires pool.Model().Valid()
    modifies pool
    ensures pool.Model() == Tried(old(pool.Model()), a) && again == Rotates(|pool.states|, a.status)
    ensures sent == if old(pool.states) == [] then None else Some(Pick(old(pool.Model()), a.leaseTime))
    ensures again <==> a.status == 429 || (a.status == 401 && |pool.states| >= 2)
    ensures |pool.states| == |old(pool.states)| && (sent.Some? ==> sent.value < |pool.states|)
    ensures sent.Some? && a.status == 429 ==>
              && pool.states[sent.value].lastStatus == Some(429)
              && pool.states[sent.value].cooldownUntil ==
                 a.markTime + (if a.retryAfter.Some? && a.retryAfter.value > 0.0 then a.retryAfter.value else 60.0)
    ensures sent.Some? && a.status == 401 && |pool.states| >= 2 ==>
              && pool.states[sent.value].lastStatus == Some(401)
              && pool.states[sent.value].cooldownUntil == a.markTime + 3600.0
    ensures forall i :: 0 <= i < |pool.states| && !(again && sent == Some(i)) ==>
              pool.states[i].cooldownUntil == old(pool.states)[i].cooldownUntil
  {
    hide Pick, Cooled, AfterLease, Noted;
    if pool.states != [] { LeaseShape(pool.Model(), a.leaseTime, a.usedTime); }
    var lease := pool.Lease(a.leaseTime, a.usedTime);
    sent := if lease.Some? then Some(lease.value.idx) else None;
    if a.status == 429 {
      pool.MarkRateLimited(a.retryAfter, lease, a.markTime);
      return sent, true;
    }
    if a.status == 401 && |pool.states| > 1 {
      pool.MarkInvalid(lease, a.markTime);
      return sent, true;
    }
    pool.UpdateFromHeaders(a.headers, lease);
    again := false;
  }

  /** The request loop: it makes attempts until a reply does not rotate, `n + 2` at most.
      With no other caller interleaved, no key is used a second time before every key that
      was eligible at the start has been used, and when the loop gives up, all of them have. */
  method OpenStream(pool: KeyPool, script: seq<Attempt>) returns (outcome: Outcome, used: seq<nat>, attempts: nat)
    requires pool.Model().Valid()
    requires |script| == MaxTries(|pool.states|) && Forward(script)
    modifies pool
    ensures 1 <= attempts <= |script|
    ensures forall k :: 0 <= k < attempts - 1 ==> Rotates(|old(pool.states)|, script[k].status)
    ensures forall k :: 0 <= k < attempts - 1 ==>
              script[k].status == 429 || (script[k].status == 401 && |old(pool.states)| >= 2)
    ensures outcome.Response? ==>
              && outcome.status != 429 && (outcome.status == 401 ==> |old(pool.states)| <= 1)
              && outcome.status == script[attempts - 1].status
    ensures outcome.Unavailable? ==>
              && attempts == |script|
                && outcome.tries == (if |old(pool.states)| <= 1 then 3 else |old(pool.states)| + 2)
              && (outcome.lastStatus == 429 || (outcome.lastStatus == 401 && |old(pool.states)| >= 2))
    ensures var last := script[attempts - 1].status;
            if Rotates(|old(pool.states)|, last) then attempts == |script| && outcome == Unavailable(|script|, last)
            else outcome == Response(last)
    ensures pool.Model() == PoolAt(old(pool.Model()), script, attempts)
    ensures used == Used(old(pool.Model()), script, attempts)
    ensures old(pool.states) != [] ==>
              && NoEarlyRepeat(old(pool.Model()), script[0].leaseTime, used)
              && (outcome.Unavailable? ==> AllTried(old(pool.Model()), script[0].leaseTime, used, |used|))
  {
    hide Pick, Tried, AllTried, NoEarlyRepeat;
    ghost var p0 := pool.Model();
    var maxTries := MaxTries(|pool.states|);
    var lastStatus := 0;
    used := [];
    for attempt := 0 to maxTries
      invariant pool.Model() == PoolAt(p0, script, attempt) && used == Used(p0, script, attempt)
      invariant forall k :: 0 <= k < attempt ==> Rotates(|p0.states|, script[k].status)
      invariant attempt > 0 ==> lastStatus == script[attempt - 1].status
    {
      attempts := attempt + 1;
      var sent, again := SendOnce(pool, script[attempt]);
      if sent.Some? { used := used + [sent.value]; }
      if !again {
        if p0.states != [] { FairRotation(p0, script, attempts); }
        return Response(script[attempt].status), used, attempts;
      }
      lastStatus := script[attempt].status;
    }
    attempts := maxTries;
    if p0.states != [] { FairRotation(p0, script, attempts); }
    outcome := Unavailable(maxTries, lastStatus);
  }

  lemma Start(p0: Pool, t0: real)
    requires p0.Valid() && p0.states != []
    ensures FirstRound(p0, t0, p0, [], 0) && NoEarlyRepeat(p0, t0, [])
  {
  }

  lemma TooMany(p0: Pool, t0: real, p: Pool, used: seq<nat>, cur: nat)
    requires p0.Valid() && p0.states != []
    requires FirstRound(p0, t0, p, used, cur)
    ensures |used| <= |p0.states|
  {
  }

  lemma LeaseShape(p: Pool, now: real, usedAt: real)
    requires p.Valid() && p.states != []
    ensures var q := AfterLease(p, now, usedAt);
            && q.Valid() && |q.states| == |p.states| && q.idx == Pick(p, now)
            && q.requestFloor == p.requestFloor && q.tokenFloor == p.tokenFloor
  {
    hide Pick;
  }

  lemma FreshOrAll(p0: Pool, t0: real, used: seq<nat>, i: nat)
    requires AllTried(p0, t0, used, |used|) || i !in used
    requires NoEarlyRepeat(p0, t0, used)
    ensures NoEarlyRepeat(p0, t0, used + [i])
    ensures AllTried(p0, t0, used, |used|) ==> AllTried(p0, t0, used + [i], |used + [i]|)
  {
    var more := used + [i];
    assert used[..|used|] == used && more[..|more|] == more;
    forall b | 0 <= b < |more| && more[b] in more[..b] ensures AllTried(p0, t0, more, b) {
      assert more[..b] == used[..b];
      if b < |used| { assert more[b] == used[b] && AllTried(p0, t0, used, b); }
    }
  }
}
