/** `KeyPool`: a cyclic scheduler of API keys with cooldowns, quota floors and leases. Time
    is a parameter of every operation that reads the clock. */
module KeyPool {
  import opened Options

  datatype KeyState = KeyState(
    key: string,
    cooldownUntil: real,
    remainingRequests: Option<int>,
    remainingTokens: Option<int>,
    limitTokens: Option<int>,
    resetTokens: Option<string>,
    lastUsed: real,
    lastStatus: Option<int>)

  datatype KeyLease = KeyLease(key: string, idx: nat)

  /** The pool as a value. */
  datatype Pool = Pool(states: seq<KeyState>, idx: nat, requestFloor: int, tokenFloor: int) {
    predicate Valid() {
      idx < |states| || (states == [] && idx == 0)
    }

    predicate BelowFloor(s: KeyState) {
      || (s.remainingRequests.Some? && s.remainingRequests.value <= requestFloor)
      || (s.remainingTokens.Some? && s.remainingTokens.value <= tokenFloor)
    }

    predicate Eligible(i: nat, now: real)
      requires i < |states|
    {
      states[i].cooldownUntil <= now && !BelowFloor(states[i])
    }
  }

  /** `x % n` where `x` is less than twice `n`. */
  function Wrap(x: nat, n: nat): (r: nat)
    requires x < 2 * n
    ensures r < n
  {
    if x < n then x else x - n
  }

  lemma NextIsWrap(i: nat, n: nat)
    requires i < n
    ensures (i + 1) % n == Wrap(i + 1, n)
  {
    if i + 1 == n { assert n % n == 0; }
  }

  // ----- selection -----

  /** The key `k` places after the current index is eligible. */
  predicate EligibleAt(p: Pool, now: real, k: nat)
    requires p.Valid() && k < |p.states|
  {
    p.Eligible(Wrap(p.idx + k, |p.states|), now)
  }

  /** The distance from the current index to the first eligible key at distance `k` or more,
      going round; the size of the pool if there is none. */
  function Distance(p: Pool, now: real, k: nat): (r: nat)
    requires p.Valid() && p.states != [] && k <= |p.states|
    ensures k <= r <= |p.states|
    decreases |p.states| - k
  {
    if k < |p.states| && !EligibleAt(p, now, k) then Distance(p, now, k + 1) else k
  }

  /** The first index with a minimal cooldown among the first `n`. */
  function Soonest(states: seq<KeyState>, n: nat): (r: nat)
    requires 1 <= n <= |states|
    ensures r < n
    ensures forall j :: 0 <= j < n ==> states[r].cooldownUntil <= states[j].cooldownUntil
    ensures forall j :: 0 <= j < r ==> states[r].cooldownUntil < states[j].cooldownUntil
  {
    if n == 1 then 0
    else
      var m := Soonest(states, n - 1);
      if states[n - 1].cooldownUntil < states[m].cooldownUntil then n - 1 else m
  }

  function Pick(p: Pool, now: real): (i: nat)
    requires p.Valid() && p.states != []
    ensures i < |p.states|
  {
    var d := Distance(p, now, 0);
    if d < |p.states| then Wrap(p.idx + d, |p.states|) else Soonest(p.states, |p.states|)
  }

  lemma {:induction false} DistanceLaw(p: Pool, now: real, k: nat)
    requires p.Valid() && p.states != [] && k <= |p.states|
    ensures var d := Distance(p, now, k);
            && (d < |p.states| ==> EligibleAt(p, now, d))
            && forall j :: k <= j < d ==> !EligibleAt(p, now, j)
    decreases |p.states| - k
  {
    if k < |p.states| && !EligibleAt(p, now, k) { DistanceLaw(p, now, k + 1); }
  }

  /** How far ahead of `from` an index is, going round. */
  function Ahead(from: nat, i: nat, n: nat): (d: nat)
    requires from < n && i < n
    ensures d < n && Wrap(from + d, n) == i
  {
    if i >= from then i - from else i + n - from
  }

  /** A lease gives the first eligible key in cyclic order; when every key is gated, the
      first one with the least cooldown. */
  lemma PickLaw(p: Pool, now: real)
    requires p.Valid() && p.states != []
    ensures var i := Pick(p, now);
            if exists j :: 0 <= j < |p.states| && p.Eligible(j, now) then
              && p.Eligible(i, now)
              && forall j :: 0 <= j < |p.states| && p.Eligible(j, now) ==>
                   Ahead(p.idx, i, |p.states|) <= Ahead(p.idx, j, |p.states|)
            else
              && (forall j :: 0 <= j < |p.states| ==> p.states[i].cooldownUntil <= p.states[j].cooldownUntil)
              && (forall j :: 0 <= j < i ==> p.states[i].cooldownUntil < p.states[j].cooldownUntil)
  {
    hide Distance;
    var n, d := |p.states|, Distance(p, now, 0);
    DistanceLaw(p, now, 0);
    forall j | 0 <= j < n && p.Eligible(j, now) ensures d <= Ahead(p.idx, j, n) {
      assert EligibleAt(p, now, Ahead(p.idx, j, n));
    }
  }

  // ----- operations -----

  function SecondsUntilAvailable(p: Pool, now: real): real {
    if p.states == [] then 0.0
    else
      var wait := p.states[Soonest(p.states, |p.states|)].cooldownUntil - now;
      if wait > 0.0 then wait else 0.0
  }

  function AfterLease(p: Pool, now: real, used: real): Pool
    requires p.Valid() && p.states != []
  {
    var i := Pick(p, now);
    p.(idx := i, states := p.states[i := p.states[i].(lastUsed := used)])
  }

  function Leased(p: Pool, now: real): KeyLease
    requires p.Valid() && p.states != []
  {
    KeyLease(p.states[Pick(p, now)].key, Pick(p, now))
  }

  function Target(p: Pool, lease: Option<KeyLease>): nat {
    if lease.Some? then lease.value.idx else p.idx
  }

  function Cooled(p: Pool, i: nat, until: real, status: int): Pool
    requires i < |p.states|
  {
    p.(idx := Wrap(i + 1, |p.states|),
      states := p.states[i := p.states[i].(cooldownUntil := until, lastStatus := Some(status))])
  }

  function RateLimitCooldown(retryAfter: Option<real>): (c: real)
    ensures c > 0.0
  {
    if retryAfter.Some? && retryAfter.value > 0.0 then retryAfter.value else 60.0
  }

  const INVALID_COOLDOWN := 3600.0

  /** The rate-limit headers of a response, None where absent or unreadable. */
  datatype Headers = Headers(
    remainingRequests: Option<int>, remainingTokens: Option<int>, limitTokens: Option<int>, resetTokens: Option<string>)

  function Noted(s: KeyState, h: Headers): KeyState {
    s.(remainingRequests := if h.remainingRequests.Some? then h.remainingRequests else s.remainingRequests,
       remainingTokens := if h.remainingTokens.Some? then h.remainingTokens else s.remainingTokens,
       limitTokens := if h.limitTokens.Some? then h.limitTokens else s.limitTokens,
       resetTokens := if h.resetTokens.Some? && h.resetTokens.value != "" then h.resetTokens else s.resetTokens)
  }

  predicate LeaseFits(p: Pool, lease: Option<KeyLease>) {
    lease.Some? ==> lease.value.idx < |p.states|
  }

  class KeyPool {
    var states: seq<KeyState>
    var idx: nat
    const requestFloor: int
    const tokenFloor: int

    function Model(): Pool
      reads this
    {
      Pool(states, idx, requestFloor, tokenFloor)
    }

    constructor (keys: seq<string>, requestFloor: int, tokenFloor: int)
      ensures Model().Valid() && idx == 0 && |states| == |keys|
      ensures forall i :: 0 <= i < |keys| ==> states[i].key == keys[i] && states[i].cooldownUntil == 0.0
    {
      this.requestFloor, this.tokenFloor := requestFloor, tokenFloor;
      states := seq(|keys|, i requires 0 <= i < |keys| => KeyState(keys[i], 0.0, None, None, None, None, 0.0, None));
      idx := 0;
    }

    /** The loop behind `lease`: advance past gated keys, at most once round. */
    method SelectIdx(now: real) returns (i: nat)
      requires Model().Valid() && states != []
      modifies this`idx
      ensures i == Pick(old(Model()), now) && idx == i
    {
      ghost var p := Model();
      for k := 0 to |states|
        invariant idx == Wrap(p.idx + k, |states|) || (k == |states| && idx == p.idx)
        invariant idx < |states|
        invariant Distance(p, now, 0) == Distance(p, now, k)
      {
        if Model().Eligible(idx, now) {
          return idx;
        }
        NextIsWrap(idx, |states|);
        assert !EligibleAt(p, now, k);
        idx := (idx + 1) % |states|;
      }
      idx := Soonest(states, |states|);
      i := idx;
    }

    method Lease(now: real, used: real) returns (lease: Option<KeyLease>)
      requires Model().Valid()
      modifies this
      ensures old(states) == [] ==> lease == None && Model() == old(Model())
      ensures old(states) != [] ==>
                && lease == Some(Leased(old(Model()), now))
                && Model() == AfterLease(old(Model()), now, used)
                && var i := lease.value.idx;
                && i < |states| == |old(states)| && idx == i && lease.value.key == states[i].key
                && states == old(states)[i := old(states)[i].(lastUsed := used)]
                && ((exists j :: 0 <= j < |states| && Usable(old(states)[j], now)) ==> Usable(old(states)[i], now))
                && ((forall j :: 0 <= j < |states| ==> !Usable(old(states)[j], now)) ==>
                     forall j :: 0 <= j < |states| ==> states[i].cooldownUntil <= states[j].cooldownUntil)
    {
      hide Pick;
      if states != [] { PickIsUsable(Model(), now); }
      if states == [] { return None; }
      var i := SelectIdx(now);
      states := states[i := states[i].(lastUsed := used)];
      lease := Some(KeyLease(states[i].key, i));
    }

    /** Off cooldown, and with more quota left than the floors, as far as it is known. */
    predicate Usable(s: KeyState, now: real) {
      && now >= s.cooldownUntil
      && (s.remainingRequests.None? || s.remainingRequests.value > requestFloor)
      && (s.remainingTokens.None? || s.remainingTokens.value > tokenFloor)
    }

    lemma PickIsUsable(p: Pool, now: real)
      requires p.Valid() && p.states != [] && p.requestFloor == requestFloor && p.tokenFloor == tokenFloor
      ensures (exists j :: 0 <= j < |p.states| && Usable(p.states[j], now)) ==> Usable(p.states[Pick(p, now)], now)
      ensures (forall j :: 0 <= j < |p.states| ==> !Usable(p.states[j], now)) ==>
                forall j :: 0 <= j < |p.states| ==> p.states[Pick(p, now)].cooldownUntil <= p.states[j].cooldownUntil
    {
      hide Pick;
      PickLaw(p, now);
      assert forall j :: 0 <= j < |p.states| ==> (p.Eligible(j, now) <==> Usable(p.states[j], now));
    }

    method SecondsUntil(now: real) returns (wait: real)
      ensures wait == SecondsUntilAvailable(Model(), now)
      ensures wait >= 0.0 && (states == [] ==> wait == 0.0)
      ensures forall j :: 0 <= j < |states| ==> wait <= 0.0 || wait <= states[j].cooldownUntil - now
      ensures wait > 0.0 ==> exists j :: 0 <= j < |states| && wait == states[j].cooldownUntil - now
    {
      if states == [] { return 0.0; }
      var soonest := states[0].cooldownUntil;
      for i := 1 to |states|
        invariant soonest == states[Soonest(states, i)].cooldownUntil
      {
        if states[i].cooldownUntil < soonest { soonest := states[i].cooldownUntil; }
      }
      wait := if soonest - now > 0.0 then soonest - now else 0.0;
    }

    method MarkRateLimited(retryAfter: Option<real>, lease: Option<KeyLease>, now: real)
      requires Model().Valid() && (states != [] ==> LeaseFits(Model(), lease))
      modifies this
      ensures old(states) == [] ==> Model() == old(Model())
      ensures old(states) != [] ==>
                && Model() == Cooled(old(Model()), Target(old(Model()), lease), now + RateLimitCooldown(retryAfter),
                  429)
                && var i := if lease.Some? then lease.value.idx else old(idx);
                var wait := if retryAfter.Some? && retryAfter.value > 0.0 then retryAfter.value else 60.0;
                && states == old(states)[i := old(states)[i].(cooldownUntil := now + wait, lastStatus := Some(429))]
                && idx == if i + 1 == |states| then 0 else i + 1
    {
      if states == [] { return; }
      var i := if lease.Some? then lease.value.idx else idx;
      var cooldown := if retryAfter.Some? && retryAfter.value > 0.0 then retryAfter.value else 60.0;
      states := states[i := states[i].(cooldownUntil := now + cooldown, lastStatus := Some(429))];
      NextIsWrap(i, |states|);
      idx := (i + 1) % |states|;
    }

    method MarkInvalid(lease: Option<KeyLease>, now: real)
      requires Model().Valid() && (states != [] ==> LeaseFits(Model(), lease))
      modifies this
      ensures old(states) == [] ==> Model() == old(Model())
      ensures old(states) != [] ==>
                && Model() == Cooled(old(Model()), Target(old(Model()), lease), now + INVALID_COOLDOWN, 401)
                && var i := if lease.Some? then lease.value.idx else old(idx);
                && states == old(states)[i := old(states)[i].(cooldownUntil := now + 3600.0, lastStatus := Some(401))]
                && idx == if i + 1 == |states| then 0 else i + 1
    {
      if states == [] { return; }
      var i := if lease.Some? then lease.value.idx else idx;
      states := states[i := states[i].(cooldownUntil := now + 3600.0, lastStatus := Some(401))];
      NextIsWrap(i, |states|);
      idx := (i + 1) % |states|;
    }

    method UpdateFromHeaders(h: Headers, lease: Option<KeyLease>)
      requires Model().Valid() && (states != [] ==> LeaseFits(Model(), lease))
      modifies this
      ensures old(states) == [] ==> Model() == old(Model())
      ensures old(states) != [] ==>
                var i := Target(old(Model()), lease);
                && Model() == old(Model()).(states := old(states)[i := Noted(old(states)[i], h)])
                && var s, t := old(states)[i], states[i];
                && t.key == s.key && t.cooldownUntil == s.cooldownUntil && t.lastUsed == s.lastUsed
                && t.remainingRequests ==
                  (if h.remainingRequests.Some? then h.remainingRequests else s.remainingRequests)
                && t.remainingTokens == (if h.remainingTokens.Some? then h.remainingTokens else s.remainingTokens)
                && t.lastStatus == s.lastStatus
                && t.resetTokens == (if h.resetTokens.GetOr("") != "" then h.resetTokens else s.resetTokens)
                && t.limitTokens == (if h.limitTokens.Some? then h.limitTokens else s.limitTokens)
    {
      if states == [] { return; }
      var i := if lease.Some? then lease.value.idx else idx;
      var s := states[i];
      if h.remainingRequests.Some? { s := s.(remainingRequests := h.remainingRequests); }
      if h.remainingTokens.Some? { s := s.(remainingTokens := h.remainingTokens); }
      if h.limitTokens.Some? { s := s.(limitTokens := h.limitTokens); }
      if h.resetTokens.Some? && h.resetTokens.value != "" { s := s.(resetTokens := h.resetTokens); }
      states := states[i := s];
    }
  }

  // ----- availability -----

  /** No wait is announced exactly when a lease taken right now would be off cooldown. */
  lemma NoWaitIff(p: Pool, now: real)
    requires p.Valid() && p.states != []
    ensures SecondsUntilAvailable(p, now) == 0.0 <==> p.states[Pick(p, now)].cooldownUntil <= now
  {
    PickLaw(p, now);
  }

  /** Whoever waits as long as announced gets a key that is off cooldown. */
  lemma WaitSuffices(p: Pool, now: real, later: real)
    requires p.Valid() && p.states != []
    requires later >= now + SecondsUntilAvailable(p, now)
    ensures p.states[Pick(p, later)].cooldownUntil <= later
  {
    PickLaw(p, later);
  }

  // ----- any interleaving of callers -----

  /** One atomic operation of some caller. Marks name a lease handed out before, or none. */
  datatype Op =
    | TakeLease(now: real, used: real)
    | RateLimited(lease: Option<KeyLease>, retryAfter: Option<real>, now: real)
    | Invalid(lease: Option<KeyLease>, now: real)
    | GotHeaders(lease: Option<KeyLease>, headers: Headers)

  /** The pool and every lease handed out so far. */
  datatype System = System(pool: Pool, leases: seq<KeyLease>)

  predicate Enabled(sys: System, op: Op) {
    op.TakeLease? || (op.lease.Some? ==> op.lease.value in sys.leases)
  }

  ghost predicate Sound(sys: System) {
    && sys.pool.Valid()
    && forall l :: l in sys.leases ==> l.idx < |sys.pool.states| && sys.pool.states[l.idx].key == l.key
  }

  function Step(sys: System, op: Op): System
    requires Sound(sys) && Enabled(sys, op)
  {
    var p := sys.pool;
    if p.states == [] then sys
    else match op
      case TakeLease(now, used) => System(AfterLease(p, now, used), sys.leases + [Leased(p, now)])
      case RateLimited(l, retryAfter, now) =>
        sys.(pool := Cooled(p, Target(p, l), now + RateLimitCooldown(retryAfter), 429))
      case Invalid(l, now) => sys.(pool := Cooled(p, Target(p, l), now + INVALID_COOLDOWN, 401))
      case GotHeaders(l, h) => sys.(pool := p.(states := p.states[Target(p, l) := Noted(p.states[Target(p, l)], h)]))
  }

  function Keys(p: Pool): seq<string> {
    seq(|p.states|, i requires 0 <= i < |p.states| => p.states[i].key)
  }

  lemma StepSound(sys: System, op: Op)
    requires Sound(sys) && Enabled(sys, op)
    ensures Sound(Step(sys, op)) && Keys(Step(sys, op).pool) == Keys(sys.pool)
  {
    hide Pick;
    var p := sys.pool;
    if p.states != [] {
      assert Keys(Step(sys, op).pool) == Keys(p);
      assert forall i :: 0 <= i < |p.states| ==> Step(sys, op).pool.states[i].key == p.states[i].key;
    }
  }

  ghost predicate CanRun(sys: System, ops: seq<Op>)
    requires Sound(sys)
    decreases |ops|
  {
    if ops == [] then true
    else if Enabled(sys, ops[0]) then StepSound(sys, ops[0]); CanRun(Step(sys, ops[0]), ops[1..])
    else false
  }

  function Run(sys: System, ops: seq<Op>): System
    requires Sound(sys) && CanRun(sys, ops)
    decreases |ops|
  {
    if ops == [] then sys else StepSound(sys, ops[0]); Run(Step(sys, ops[0]), ops[1..])
  }

  /** However callers interleave, every lease ever handed out keeps naming the key stored at
      its index, and the keys never move. */
  lemma {:induction false} LeasesNameKeys(sys: System, ops: seq<Op>)
    requires Sound(sys) && CanRun(sys, ops)
    ensures Sound(Run(sys, ops)) && Keys(Run(sys, ops).pool) == Keys(sys.pool)
    ensures sys.leases <= Run(sys, ops).leases
    decreases |ops|
  {
    hide Pick, Sound;
    if ops != [] {
      StepSound(sys, ops[0]);
      LeasesNameKeys(Step(sys, ops[0]), ops[1..]);
    }
  }

  /** A cooldown recorded with a lease lands on the leased key, in force from now on, and
      on no other, however far the pool has rotated meanwhile. */
  lemma CooldownLandsOnLease(sys: System, ops: seq<Op>, l: KeyLease, retryAfter: Option<real>, now: real)
    requires Sound(sys) && CanRun(sys, ops) && l in sys.leases
    ensures var before := Run(sys, ops).pool;
            && l.idx < |before.states|
            && var after := Cooled(before, l.idx, now + RateLimitCooldown(retryAfter), 429);
            && after.states[l.idx].key == l.key && after.states[l.idx].cooldownUntil > now
            && !after.Eligible(l.idx, now)
            && forall j :: 0 <= j < |before.states| && j != l.idx ==> after.states[j] == before.states[j]
  {
    hide Run, Pick;
    LeasesNameKeys(sys, ops);
    var before := Run(sys, ops);
    assert before.leases[..|sys.leases|] == sys.leases;
    assert l in before.leases;
  }
}
