/** The login backoff: an exponential lock per key, its cut-offs, and the pruning of idle keys.
    Durations and instants are in nanoseconds. Source: server/src/ratelimit.rs. */
module LoginThrottle {
  import opened Wrappers

  const U32_MAX: nat := 0xFFFF_FFFF
  const SECOND: nat := 1_000_000_000
  /** The longest duration: u64 seconds and the nanoseconds below one more. */
  const DURATION_MAX: nat := 0xFFFF_FFFF_FFFF_FFFF * 1_000_000_000 + 999_999_999
  const PRUNE_THRESHOLD: nat := 4096

  datatype Attempt = Attempt(failures: nat, last: nat, lockedUntil: Option<nat>)
  datatype Policy = Policy(maxFailures: nat, window: nat, baseLock: nat, maxLock: nat)

  predicate Sensible(p: Policy) {
    p.maxFailures <= U32_MAX && p.window <= DURATION_MAX && p.baseLock <= DURATION_MAX && p.maxLock <= DURATION_MAX
  }

  // -------------------------------------------------------------- backoff ----

  function Pow2(n: nat): (p: nat)
    ensures p > 0
  {
    if n == 0 then 1 else 2 * Pow2(n - 1)
  }

  function Min(a: nat, b: nat): nat { if a < b then a else b }

  /** `1u32.checked_shl(over).unwrap_or(u32::MAX)`. */
  function Multiplier(over: nat): nat { if over < 32 then Pow2(over) else U32_MAX }

  /** The lock the code sets at the given failure count: a saturating product, then the cap. */
  function LockAt(p: Policy, failures: nat): nat
    requires failures >= p.maxFailures
  {
    Min(Min(p.baseLock * Multiplier(failures - p.maxFailures), DURATION_MAX), p.maxLock)
  }

  /** The lock the policy promises for the k-th failure. */
  function Promised(p: Policy, k: nat): nat
    requires k >= p.maxFailures
  {
    Min(p.baseLock * Pow2(k - p.maxFailures), p.maxLock)
  }

  lemma {:induction false} Pow2Grows(a: nat, b: nat)
    requires a <= b
    ensures Pow2(a) <= Pow2(b)
  {
    if a < b {
      Pow2Grows(a, b - 1);
    }
  }

  lemma Pow2Of32()
    ensures Pow2(31) == 0x8000_0000 && Pow2(32) == 0x1_0000_0000
  {
    assert Pow2(8) == 0x100;
    assert Pow2(16) == 0x1_0000;
    assert Pow2(24) == 0x100_0000;
    assert Pow2(31) == 0x8000_0000;
  }

  lemma Scales(a: nat, x: nat, y: nat)
    requires x <= y
    ensures a * x <= a * y
    ensures a > 0 && x < y ==> a * x < a * y
  {
  }

  lemma MultiplierGrows(a: nat, b: nat)
    requires a <= b
    ensures Multiplier(a) <= Multiplier(b)
  {
    Pow2Of32();
    if b < 32 {
      Pow2Grows(a, b);
    } else if a < 32 {
      Pow2Grows(a, 31);
    }
  }

  /** A later failure never sets a shorter lock. */
  lemma LocksGrow(p: Policy, k: nat, later: nat)
    requires p.maxFailures <= k <= later
    ensures LockAt(p, k) <= LockAt(p, later) <= p.maxLock
  {
    MultiplierGrows(k - p.maxFailures, later - p.maxFailures);
    Scales(p.baseLock, Multiplier(k - p.maxFailures), Multiplier(later - p.maxFailures));
  }

  /** The shift and saturation cut-offs never show exactly when the largest multiplier already
      reaches the cap, there is no base lock, or the count saturates before the shift would. */
  lemma BackoffIsExact(p: Policy)
    requires Sensible(p)
    ensures (forall k | p.maxFailures <= k <= U32_MAX :: LockAt(p, k) == Promised(p, k))
       <==> p.baseLock == 0 || p.baseLock * U32_MAX >= p.maxLock || p.maxFailures + 32 > U32_MAX
  {
    if p.baseLock == 0 || p.baseLock * U32_MAX >= p.maxLock || p.maxFailures + 32 > U32_MAX {
      forall k | p.maxFailures <= k <= U32_MAX ensures LockAt(p, k) == Promised(p, k) {
        ExactAt(p, k);
      }
    } else {
      FallsShort(p);
      var k := p.maxFailures + 32;
      assert LockAt(p, k) != Promised(p, k);
    }
  }

  lemma ExactAt(p: Policy, k: nat)
    requires Sensible(p) && k >= p.maxFailures
    requires k < p.maxFailures + 32 || p.baseLock == 0 || p.baseLock * U32_MAX >= p.maxLock
    ensures LockAt(p, k) == Promised(p, k)
  {
    var over := k - p.maxFailures;
    if over >= 32 {
      Pow2Of32();
      Pow2Grows(32, over);
      Scales(p.baseLock, U32_MAX, Pow2(over));
    }
  }

  lemma FallsShort(p: Policy)
    requires Sensible(p) && p.baseLock > 0 && p.baseLock * U32_MAX < p.maxLock
    ensures LockAt(p, p.maxFailures + 32) < Promised(p, p.maxFailures + 32)
  {
    Pow2Of32();
    Scales(p.baseLock, U32_MAX, Pow2(32));
  }

  // ---------------------------------------------------------------- pruning ----

  /** `duration_since`, 0 when the clock reads earlier. */
  function Age(now: nat, last: nat): nat { if now < last then 0 else now - last }

  function Pruned(inner: map<string, Attempt>, p: Policy, now: nat): map<string, Attempt> {
    if |inner| <= PRUNE_THRESHOLD then inner
    else map key | key in inner && Age(now, inner[key].last) < p.window :: inner[key]
  }

  /** Every lock was set by its entry's last failure. */
  ghost predicate LocksFit(inner: map<string, Attempt>, p: Policy) {
    forall key | key in inner ::
      && inner[key].failures <= U32_MAX
      && inner[key].lockedUntil == if inner[key].failures >= p.maxFailures && inner[key].failures > 0
                                   then Some(inner[key].last + LockAt(p, inner[key].failures)) else None
  }

  /** Pruning can drop an entry whose lock still runs exactly when the longest lock outlasts the
      window: never when the window covers the cap. */
  lemma PruningIsSafe(p: Policy)
    requires Sensible(p)
    ensures (forall k: nat, last: nat, now: nat | p.maxFailures <= k <= U32_MAX && last <= now && Age(now, last) >= p.window ::
               last + LockAt(p, k) <= now)
       <==> LockAt(p, U32_MAX) <= p.window
    ensures p.maxLock <= p.window ==> LockAt(p, U32_MAX) <= p.window
  {
    if LockAt(p, U32_MAX) <= p.window {
      forall k: nat, last: nat, now: nat | p.maxFailures <= k <= U32_MAX && last <= now && Age(now, last) >= p.window
        ensures last + LockAt(p, k) <= now
      {
        LocksGrow(p, k, U32_MAX);
      }
    } else {
      assert Age(p.window, 0) >= p.window && 0 + LockAt(p, U32_MAX) > p.window;
    }
  }

  lemma PrunedKeepsLocks(inner: map<string, Attempt>, p: Policy, now: nat, key: string)
    requires Sensible(p) && LocksFit(inner, p) && p.maxLock <= p.window
    requires key in inner && inner[key].last <= now
    requires inner[key].lockedUntil.Some? && now < inner[key].lockedUntil.value
    ensures key in Pruned(inner, p, now)
  {
    LocksGrow(p, inner[key].failures, U32_MAX);
  }

  // ------------------------------------------------------------- a failure ----

  /** Whether a failure at `now` starts a new streak: after the window, or at its very end when
      a large map is pruned first. */
  predicate NewStreak(inner: map<string, Attempt>, p: Policy, key: string, now: nat) {
    || key !in inner
    || Age(now, inner[key].last) > p.window
    || (|inner| > PRUNE_THRESHOLD && Age(now, inner[key].last) >= p.window)
  }

  function Failed(inner: map<string, Attempt>, p: Policy, key: string, now: nat): Attempt {
    var failures := if NewStreak(inner, p, key, now) then 1 else Min(inner[key].failures + 1, U32_MAX);
    Attempt(failures, now,
            if failures >= p.maxFailures then Some(now + LockAt(p, failures))
            else if NewStreak(inner, p, key, now) then None else inner[key].lockedUntil)
  }

  lemma FailedFits(inner: map<string, Attempt>, p: Policy, key: string, now: nat)
    requires LocksFit(inner, p)
    ensures LocksFit(Pruned(inner, p, now)[key := Failed(inner, p, key, now)], p)
    ensures key in Pruned(inner, p, now) && Age(now, inner[key].last) <= p.window <==> !NewStreak(inner, p, key, now)
    ensures key in Pruned(inner, p, now) ==> key in inner && Pruned(inner, p, now)[key] == inner[key]
  {
    hide LockAt;
  }

  class Limiter {
    var inner: map<string, Attempt>
    const policy: Policy

    ghost predicate Valid()
      reads this
    {
      Sensible(policy) && LocksFit(inner, policy)
    }

    constructor (policy: Policy)
      requires Sensible(policy)
      ensures Valid() && this.policy == policy && inner == map[]
    {
      this.policy := policy;
      inner := map[];
    }

    method RecordFailure(key: string, now: nat)
      requires Valid()
      modifies this`inner
      ensures Valid() && inner == Apply(old(inner), policy, Failure(key, now))
      ensures policy.maxLock <= policy.window ==>
                forall k | k in old(inner) && old(inner)[k].last <= now && old(inner)[k].lockedUntil.Some?
                           && now < old(inner)[k].lockedUntil.value :: k in inner
    {
      FailedFits(inner, policy, key, now);
      var kept := Prune(now);
      hide LockAt, LocksFit, Pruned, NewStreak;
      var a := if key in kept then kept[key] else Attempt(0, now, None);
      if Age(now, a.last) > policy.window {
        a := a.(failures := 0, lockedUntil := None);
      }
      a := a.(failures := Min(a.failures + 1, U32_MAX), last := now);
      if a.failures >= policy.maxFailures {
        a := a.(lockedUntil := Some(now + LockAt(policy, a.failures)));
      }
      assert a == Failed(inner, policy, key, now);
      inner := kept[key := a];
    }

    /** Past the threshold the idle keys go; no running lock does, when no lock outlasts the window. */
    method Prune(now: nat) returns (kept: map<string, Attempt>)
      requires Valid()
      ensures kept == Pruned(inner, policy, now)
      ensures policy.maxLock <= policy.window ==>
                forall k | k in inner && inner[k].last <= now && inner[k].lockedUntil.Some? && now < inner[k].lockedUntil.value ::
                  k in kept
    {
      kept := inner;
      if |inner| > PRUNE_THRESHOLD {
        kept := map k | k in inner && Age(now, inner[k].last) < policy.window :: inner[k];
      }
      hide LockAt;
      if policy.maxLock <= policy.window {
        forall k | k in inner && inner[k].last <= now && inner[k].lockedUntil.Some? && now < inner[k].lockedUntil.value
          ensures k in kept
        {
          PrunedKeepsLocks(inner, policy, now, k);
        }
      }
    }

    method RecordSuccess(key: string)
      requires Valid()
      modifies this`inner
      ensures Valid() && inner == Apply(old(inner), policy, Success(key))
    {
      inner := inner - {key};
    }

    /** The whole seconds left, rounded up and at least 1; still 1 at the instant the lock ends. */
    method LockedFor(key: string, now: nat) returns (left: Option<nat>)
      ensures left.Some? <==> key in inner && inner[key].lockedUntil.Some? && now <= inner[key].lockedUntil.value
      ensures left.Some? ==> left.value >= 1 && now + left.value * SECOND >= inner[key].lockedUntil.value
      ensures left.Some? && left.value > 1 ==> now + (left.value - 1) * SECOND < inner[key].lockedUntil.value
    {
      if key !in inner || inner[key].lockedUntil.None? || inner[key].lockedUntil.value < now {
        return None;
      }
      var d := inner[key].lockedUntil.value - now;
      var seconds := d / SECOND + if d % SECOND > 0 then 1 else 0;
      return Some(if seconds < 1 then 1 else seconds);
    }
  }

  // ---------------------------------------------------------------- streaks ----

  /** One call on the limiter; the clock of a run never goes back. */
  datatype Call = Failure(key: string, now: nat) | Success(key: string)

  function Apply(inner: map<string, Attempt>, p: Policy, call: Call): map<string, Attempt> {
    match call
    case Failure(key, now) => Pruned(inner, p, now)[key := Failed(inner, p, key, now)]
    case Success(key) => inner - {key}
  }

  function After(inner: map<string, Attempt>, p: Policy, calls: seq<Call>): map<string, Attempt> {
    if calls == [] then inner else Apply(After(inner, p, calls[..|calls| - 1]), p, calls[|calls| - 1])
  }

  /** The failures of one key in a run, and the last of them. */
  function Count(calls: seq<Call>, key: string): nat {
    if calls == [] then 0
    else
      var last := calls[|calls| - 1];
      Count(calls[..|calls| - 1], key) + if last.Failure? && last.key == key then 1 else 0
  }

  function LastFailure(calls: seq<Call>, key: string): nat {
    if calls == [] then 0
    else
      var last := calls[|calls| - 1];
      if last.Failure? && last.key == key then last.now else LastFailure(calls[..|calls| - 1], key)
  }

  /** The key never succeeds in the run, and once it has failed every failure recorded, its own
      or another key's, comes at or after its own last one and less than the window later. */
  ghost predicate Streak(calls: seq<Call>, key: string, window: nat) {
    && (forall i | 0 <= i < |calls| :: calls[i] != Success(key))
    && (forall i | 0 <= i < |calls| :: calls[i].Failure? && Count(calls[..i], key) > 0 ==>
          LastFailure(calls[..i], key) <= calls[i].now < LastFailure(calls[..i], key) + window)
  }

  lemma StreakPrefix(calls: seq<Call>, key: string, window: nat)
    requires Streak(calls, key, window) && calls != []
    ensures Streak(calls[..|calls| - 1], key, window)
  {
    var n := |calls| - 1;
    assert forall i | 0 <= i < n :: calls[..n][..i] == calls[..i] && calls[..n][i] == calls[i];
  }

  /** What the entry of a key holds after its `n`-th failure at `last`. */
  ghost predicate Holds(inner: map<string, Attempt>, p: Policy, key: string, n: nat, last: nat) {
    if n == 0 then key !in inner
    else
      && key in inner && inner[key].failures == Min(n, U32_MAX) && inner[key].last == last
      && inner[key].lockedUntil == if Min(n, U32_MAX) < p.maxFailures then None else Some(last + LockAt(p, Min(n, U32_MAX)))
  }

  lemma OwnFailure(inner: map<string, Attempt>, p: Policy, key: string, n: nat, last: nat, now: nat)
    requires Sensible(p) && Holds(inner, p, key, n, last) && (n > 0 ==> last <= now < last + p.window)
    ensures Holds(Apply(inner, p, Failure(key, now)), p, key, n + 1, now)
  {
    hide LockAt;
  }

  lemma OtherCall(inner: map<string, Attempt>, p: Policy, key: string, n: nat, last: nat, call: Call)
    requires Holds(inner, p, key, n, last) && call.key != key
    requires call.Failure? && n > 0 ==> last <= call.now < last + p.window
    ensures Holds(Apply(inner, p, call), p, key, n, last)
  {
    hide LockAt, Failed;
  }

  /** Whatever else is recorded, forgotten or pruned meanwhile, the n-th failure of a streak has
      the count n and the lock of that count. */
  lemma {:induction false} StreakCounts(inner: map<string, Attempt>, p: Policy, key: string, calls: seq<Call>)
    requires Sensible(p) && key !in inner && Streak(calls, key, p.window)
    ensures Holds(After(inner, p, calls), p, key, Count(calls, key), LastFailure(calls, key))
    decreases |calls|
  {
    if calls != [] {
      hide Apply, Holds;
      var n := |calls| - 1;
      var before, call := calls[..n], calls[n];
      StreakPrefix(calls, key, p.window);
      StreakCounts(inner, p, key, before);
      var state, count, last := After(inner, p, before), Count(before, key), LastFailure(before, key);
      if call.Failure? && call.key == key {
        OwnFailure(state, p, key, count, last, call.now);
      } else {
        OtherCall(state, p, key, count, last, call);
      }
    } else {
      assert Holds(inner, p, key, 0, 0);
    }
  }

  /** The k-th failure of a streak locks for the promised time, whatever its length and whatever
      the other keys do. */
  lemma StreakLocks(inner: map<string, Attempt>, p: Policy, key: string, calls: seq<Call>)
    requires Sensible(p) && p.maxFailures + 32 <= U32_MAX && (p.baseLock == 0 || p.baseLock * U32_MAX >= p.maxLock)
    requires key !in inner && Streak(calls, key, p.window) && Count(calls, key) > 0
    ensures var k, a := Count(calls, key), After(inner, p, calls);
            && key in a && a[key].failures == Min(k, U32_MAX) && a[key].last == LastFailure(calls, key)
            && a[key].lockedUntil == if k < p.maxFailures then None else Some(a[key].last + Promised(p, k))
  {
    hide LockAt, Promised, After;
    StreakCounts(inner, p, key, calls);
    if Count(calls, key) >= p.maxFailures {
      Saturates(p, Count(calls, key));
    }
  }

  /** At an age of exactly the window a streak goes on if and only if the map is too small to be
      pruned, by the key's own failure and by another's alike. */
  lemma AtTheWindowsEnd(inner: map<string, Attempt>, p: Policy, key: string, other: string, now: nat)
    requires key in inner && other != key && inner[key].last <= now && now - inner[key].last == p.window
    ensures NewStreak(inner, p, key, now) <==> |inner| > PRUNE_THRESHOLD
    ensures key in Apply(inner, p, Failure(other, now)) <==> |inner| <= PRUNE_THRESHOLD
  {
  }

  lemma Saturates(p: Policy, k: nat)
    requires Sensible(p) && p.maxFailures + 32 <= U32_MAX && k >= p.maxFailures
    requires p.baseLock == 0 || p.baseLock * U32_MAX >= p.maxLock
    ensures LockAt(p, Min(k, U32_MAX)) == Promised(p, k)
  {
    ExactAt(p, Min(k, U32_MAX));
    ExactAt(p, k);
  }

  const IP_POLICY: Policy := Policy(5, 900 * 1_000_000_000, 30 * 1_000_000_000, 900 * 1_000_000_000)
  const USER_POLICY: Policy := Policy(15, 900 * 1_000_000_000, 30 * 1_000_000_000, 900 * 1_000_000_000)

  /** The two policies in use meet every condition above. */
  lemma PoliciesInUse()
    ensures forall p | p in {IP_POLICY, USER_POLICY} ::
              && Sensible(p) && p.maxFailures + 32 <= U32_MAX && p.maxLock <= p.window
              && forall k | p.maxFailures <= k <= U32_MAX :: LockAt(p, k) == Promised(p, k)
  {
    BackoffIsExact(IP_POLICY);
    BackoffIsExact(USER_POLICY);
  }
}
