/** The rate limiter's Redis script over exact arithmetic: what its decisions mean as
    sliding-window bounds, and when the key's expiry cannot be noticed. */
module TokenBucket {

  /** Constructor arguments: capacity is an integer, rate is in tokens per second. */
  datatype Params = Params(capacity: nat, rate: real)

  /** The Redis hash of one client: absent, or the two fields the script stores. */
  datatype Bucket = Absent | Present(tokens: real, lastRefill: real)

  const EXPIRE_SECONDS: real := 3600.0
  const REQUESTED: real := 1.0

  function Min(a: real, b: real): real {
    if a <= b then a else b
  }

  function Refill(p: Params, seconds: real): real {
    seconds * p.rate
  }

  lemma RefillAdds(p: Params, a: real, b: real)
    ensures Refill(p, a + b) == Refill(p, a) + Refill(p, b)
  {
  }

  lemma RefillGrows(p: Params, a: real, b: real)
    requires p.rate >= 0.0 && a <= b
    ensures Refill(p, a) <= Refill(p, b)
  {
    RefillAdds(p, a, b - a);
    assert (b - a) * p.rate >= 0.0;
  }

  /** The balance a request at time now finds after the refill. */
  function Refilled(p: Params, b: Bucket, now: real): real {
    match b
    case Absent => p.capacity as real
    case Present(tokens, last) => Min(p.capacity as real, tokens + Refill(p, now - last))
  }

  predicate Admits(p: Params, b: Bucket, now: real) {
    Refilled(p, b, now) >= REQUESTED
  }

  function Charged(p: Params, b: Bucket, now: real): Bucket {
    Present(Refilled(p, b, now) - (if Admits(p, b, now) then REQUESTED else 0.0), now)
  }

  // ---------------------------------------------------------------------------
  // One client's requests
  // ---------------------------------------------------------------------------

  /** The hash a request at time now finds, with or without expiry. */
  function Found(expires: bool, b: Bucket, now: real): Bucket {
    if expires && b.Present? && now >= b.lastRefill + EXPIRE_SECONDS then Absent else b
  }

  /** The hash after requests at the given times. */
  function After(p: Params, expires: bool, times: seq<real>): Bucket {
    if times == [] then Absent
    else
      var n := |times| - 1;
      Charged(p, Found(expires, After(p, expires, times[..n]), times[n]), times[n])
  }

  lemma AfterNone(p: Params, expires: bool)
    ensures After(p, expires, []) == Absent
  {
  }

  /** Whether request n is admitted. */
  predicate Admitted(p: Params, expires: bool, times: seq<real>, n: nat)
    requires n < |times|
  {
    Admits(p, Found(expires, After(p, expires, times[..n]), times[n]), times[n])
  }

  lemma AfterOneMore(p: Params, expires: bool, times: seq<real>, now: real)
    ensures var found := Found(expires, After(p, expires, times), now);
            var after := After(p, expires, times + [now]);
            && after == Charged(p, found, now)
            && after.Present? && after.lastRefill == now
            && Admitted(p, expires, times + [now], |times|) == Admits(p, found, now)
  {
    assert (times + [now])[..|times|] == times;
  }

  /** The balance before request n is decided. */
  function Balance(p: Params, expires: bool, times: seq<real>, n: nat): real
    requires n < |times|
  {
    Refilled(p, Found(expires, After(p, expires, times[..n]), times[n]), times[n])
  }

  /** Admissions among requests i .. n-1. */
  function Count(p: Params, expires: bool, times: seq<real>, i: nat, n: nat): nat
    requires i <= n <= |times|
  {
    if i == n then 0
    else Count(p, expires, times, i, n - 1) + (if Admitted(p, expires, times, n - 1) then 1 else 0)
  }

  /** What the window from request i to request n still allows. */
  function Allowance(p: Params, expires: bool, times: seq<real>, i: nat, n: nat): real
    requires i <= n < |times|
  {
    p.capacity as real + Refill(p, times[n] - times[i]) - Count(p, expires, times, i, n) as real
  }

  /** Request n finds no key: it is the first, or comes when the key has just expired. */
  predicate Fresh(expires: bool, times: seq<real>, n: nat)
    requires n < |times|
  {
    n == 0 || (expires && times[n] >= times[n - 1] + EXPIRE_SECONDS)
  }

  /** The last request up to n that found no key. A key that never expires has only the first. */
  function Start(expires: bool, times: seq<real>, n: nat): (i: nat)
    requires n < |times|
    ensures i <= n && Fresh(expires, times, i)
    ensures forall j | i < j <= n :: !Fresh(expires, times, j)
  {
    if Fresh(expires, times, n) then n else Start(expires, times, n - 1)
  }

  lemma FreshFindsNothing(p: Params, expires: bool, times: seq<real>, n: nat)
    requires n < |times|
    ensures Fresh(expires, times, n) <==> Found(expires, After(p, expires, times[..n]), times[n]).Absent?
    ensures !Fresh(expires, times, n) ==>
              Found(expires, After(p, expires, times[..n]), times[n]) == After(p, expires, times[..n])
  {
    if n == 0 {
      assert times[..0] == [];
    } else {
      assert times[..n] == times[..n - 1] + [times[n - 1]];
      AfterOneMore(p, expires, times[..n - 1], times[n - 1]);
    }
  }

  lemma BalanceStep(p: Params, expires: bool, times: seq<real>, n: nat)
    requires 0 < n < |times| && !Fresh(expires, times, n)
    ensures Balance(p, expires, times, n) ==
              Min(p.capacity as real,
                  Balance(p, expires, times, n - 1) - (if Admitted(p, expires, times, n - 1) then 1.0 else 0.0)
                  + Refill(p, times[n] - times[n - 1]))
  {
    FreshFindsNothing(p, expires, times, n);
    assert times[..n] == times[..n - 1] + [times[n - 1]];
    AfterOneMore(p, expires, times[..n - 1], times[n - 1]);
  }

  lemma AllowanceStep(p: Params, expires: bool, times: seq<real>, i: nat, n: nat)
    requires i < n < |times|
    ensures Allowance(p, expires, times, i, n) ==
              Allowance(p, expires, times, i, n - 1) - (if Admitted(p, expires, times, n - 1) then 1.0 else 0.0)
              + Refill(p, times[n] - times[n - 1])
  {
    RefillAdds(p, times[n - 1] - times[i], times[n] - times[n - 1]);
  }

  lemma AllowanceNow(p: Params, expires: bool, times: seq<real>, n: nat)
    requires n < |times|
    ensures Allowance(p, expires, times, n, n) == p.capacity as real
    ensures Fresh(expires, times, n) ==> Balance(p, expires, times, n) == p.capacity as real
  {
    FreshFindsNothing(p, expires, times, n);
  }

  /** The bucket is exact, with and without expiry: before each decision the balance is the
      least allowance over the windows that end at this request and start no earlier than the
      last request that found no key, whatever the clock does. */
  lemma {:induction false} BalanceIsLeastAllowance(p: Params, expires: bool, times: seq<real>, n: nat)
    requires n < |times|
    ensures forall i | Start(expires, times, n) <= i <= n ::
              Balance(p, expires, times, n) <= Allowance(p, expires, times, i, n)
    ensures exists i :: Start(expires, times, n) <= i <= n
              && Balance(p, expires, times, n) == Allowance(p, expires, times, i, n)
  {
    AllowanceNow(p, expires, times, n);
    if Fresh(expires, times, n) {
      assert Balance(p, expires, times, n) == Allowance(p, expires, times, n, n);
    } else {
      BalanceIsLeastAllowance(p, expires, times, n - 1);
      BalanceStep(p, expires, times, n);
      var start := Start(expires, times, n);
      forall i | start <= i < n ensures Balance(p, expires, times, n) <= Allowance(p, expires, times, i, n) {
        AllowanceStep(p, expires, times, i, n);
      }
      var i :| start <= i <= n - 1 && Balance(p, expires, times, n - 1) == Allowance(p, expires, times, i, n - 1);
      AllowanceStep(p, expires, times, i, n);
      assert || Balance(p, expires, times, n) == Allowance(p, expires, times, i, n)
             || Balance(p, expires, times, n) == Allowance(p, expires, times, n, n);
    }
  }

  /** Admitting request n keeps the window that starts with request i within its bound. */
  predicate WithinBound(p: Params, expires: bool, times: seq<real>, i: nat, n: nat)
    requires i <= n < |times|
  {
    (Count(p, expires, times, i, n) + 1) as real <= p.capacity as real + Refill(p, times[n] - times[i])
  }

  /** The limiter one would specify: admit unless some window since the key was last created
      would exceed its bound. */
  lemma DecisionIsExact(p: Params, expires: bool, times: seq<real>, n: nat)
    requires n < |times|
    ensures Admitted(p, expires, times, n) <==>
              forall i | Start(expires, times, n) <= i <= n :: WithinBound(p, expires, times, i, n)
  {
    BalanceIsLeastAllowance(p, expires, times, n);
    assert Admitted(p, expires, times, n) <==> Balance(p, expires, times, n) >= 1.0;
    forall i | Start(expires, times, n) <= i <= n
      ensures WithinBound(p, expires, times, i, n) <==> Allowance(p, expires, times, i, n) >= 1.0
    {
    }
    var i :| Start(expires, times, n) <= i <= n
      && Balance(p, expires, times, n) == Allowance(p, expires, times, i, n);
  }

  /** Admissions in the window from request i to request n are at most capacity + rate * elapsed. */
  predicate WindowKept(p: Params, expires: bool, times: seq<real>, i: nat, n: nat)
    requires i <= n < |times|
  {
    Count(p, expires, times, i, n + 1) as real <= p.capacity as real + Refill(p, times[n] - times[i])
  }

  /** In every window of requests that ends with an admitted one and in which the key did not
      expire, the bound is kept. */
  lemma WindowBound(p: Params, expires: bool, times: seq<real>, i: nat, n: nat)
    requires n < |times| && Start(expires, times, n) <= i <= n && Admitted(p, expires, times, n)
    ensures WindowKept(p, expires, times, i, n)
  {
    DecisionIsExact(p, expires, times, n);
    assert WithinBound(p, expires, times, i, n);
  }

  // ---------------------------------------------------------------------------
  // Expiry
  // ---------------------------------------------------------------------------

  predicate Monotone(times: seq<real>) {
    forall i, j | 0 <= i <= j < |times| :: times[i] <= times[j]
  }

  /** With a clock that does not go back, the stored balance stays within [0, capacity]. */
  lemma {:induction false} BalanceInRange(p: Params, expires: bool, times: seq<real>)
    requires p.rate >= 0.0 && Monotone(times)
    ensures times != [] ==>
              After(p, expires, times).Present? && After(p, expires, times).lastRefill == times[|times| - 1]
              && 0.0 <= After(p, expires, times).tokens <= p.capacity as real
  {
    if times == [] {
    } else {
      var n := |times| - 1;
      BalanceInRange(p, expires, times[..n]);
      var b := Found(expires, After(p, expires, times[..n]), times[n]);
      if b.Present? {
        assert b.lastRefill == times[n - 1] <= times[n];
        RefillGrows(p, 0.0, times[n] - b.lastRefill);
        assert Refill(p, 0.0) == 0.0;
      }
    }
  }

  lemma {:induction false} ExpiryUnseen(p: Params, times: seq<real>)
    requires p.rate >= 0.0 && Refill(p, EXPIRE_SECONDS) >= p.capacity as real && Monotone(times)
    ensures After(p, true, times) == After(p, false, times)
    ensures forall n | 0 <= n < |times| :: Admitted(p, true, times, n) == Admitted(p, false, times, n)
  {
    if times == [] {
    } else {
      var n := |times| - 1;
      ExpiryUnseen(p, times[..n]);
      BalanceInRange(p, false, times[..n]);
      SameRefill(p, After(p, false, times[..n]), times[n]);
      forall k | 0 <= k < n ensures Admitted(p, true, times, k) == Admitted(p, false, times, k) {
        assert times[..n][..k] == times[..k];
        assert Admitted(p, true, times[..n], k) == Admitted(p, false, times[..n], k);
      }
    }
  }

  /** After an hour the refill has filled the bucket, which is what a fresh key holds. */
  lemma SameRefill(p: Params, b: Bucket, now: real)
    requires p.rate >= 0.0 && Refill(p, EXPIRE_SECONDS) >= p.capacity as real
    requires b.Present? ==> b.tokens >= 0.0
    ensures Refilled(p, Found(true, b, now), now) == Refilled(p, b, now)
  {
    if Found(true, b, now) != b {
      RefillGrows(p, EXPIRE_SECONDS, now - b.lastRefill);
    }
  }

  // The converse: a burst that empties the bucket, then the same burst an hour later.

  function Burst(p: Params, k: nat): seq<real> {
    seq(p.capacity, _ => 0.0) + seq(k, _ => EXPIRE_SECONDS)
  }

  /** Requests at one instant take one token each while a whole one is left. */
  lemma {:induction false} FirstBurst(p: Params, expires: bool, k: nat)
    requires k <= p.capacity
    ensures After(p, expires, seq(k, _ => 0.0)) ==
            if k == 0 then Absent else Present((p.capacity - k) as real, 0.0)
  {
    var times := seq(k, _ => 0.0);
    if k == 0 {
    } else {
      FirstBurst(p, expires, k - 1);
      assert times[..k - 1] == seq(k - 1, _ => 0.0);
    }
  }

  lemma {:induction false} SecondBurst(p: Params, expires: bool, k: nat, full: real)
    requires p.capacity > 0 && full == (if expires then p.capacity as real else Refill(p, EXPIRE_SECONDS))
    requires 0.0 <= full <= p.capacity as real && k as real <= full
    ensures k > 0 ==> After(p, expires, Burst(p, k)) == Present(full - k as real, EXPIRE_SECONDS)
    ensures var found := Found(expires, After(p, expires, Burst(p, k)), EXPIRE_SECONDS);
            Refilled(p, found, EXPIRE_SECONDS) == full - k as real
  {
    if k == 0 {
      FirstBurst(p, expires, p.capacity);
      assert Burst(p, 0) == seq(p.capacity, _ => 0.0);
      assert After(p, expires, Burst(p, 0)) == Present(0.0, 0.0);
    } else {
      SecondBurst(p, expires, k - 1, full);
      assert Burst(p, k)[..|Burst(p, k)| - 1] == Burst(p, k - 1);
      assert Refill(p, 0.0) == 0.0;
    }
  }

  lemma LastOfBurst(p: Params, expires: bool, k: nat, full: real)
    requires p.capacity > 0 && full == (if expires then p.capacity as real else Refill(p, EXPIRE_SECONDS))
    requires 0.0 <= full <= p.capacity as real && k as real <= full
    ensures Admitted(p, expires, Burst(p, k + 1), p.capacity + k) <==> full - k as real >= 1.0
  {
    var times := Burst(p, k + 1);
    assert times[..p.capacity + k] == Burst(p, k);
    assert times[p.capacity + k] == EXPIRE_SECONDS;
    SecondBurst(p, expires, k, full);
  }

  lemma FloorBounds(x: real, cap: nat) returns (k: nat)
    requires 0.0 <= x < cap as real
    ensures k as real <= x < (k + 1) as real && k + 1 <= cap
  {
    k := x.Floor;
  }

  lemma ExpirySeen(p: Params) returns (times: seq<real>, n: nat)
    requires p.rate >= 0.0 && Refill(p, EXPIRE_SECONDS) < p.capacity as real
    ensures Monotone(times) && n < |times|
    ensures Admitted(p, true, times, n) && !Admitted(p, false, times, n)
  {
    RefillGrows(p, 0.0, EXPIRE_SECONDS);
    assert Refill(p, 0.0) == 0.0;
    var k := FloorBounds(Refill(p, EXPIRE_SECONDS), p.capacity);
    times, n := Burst(p, k + 1), p.capacity + k;
    LastOfBurst(p, true, k, p.capacity as real);
    LastOfBurst(p, false, k, Refill(p, EXPIRE_SECONDS));
  }

  /** Expiring the key after an hour changes no decision, on any request sequence, if and
      only if an hour's refill fills the bucket. */
  lemma ExpiryInvisibleIff(p: Params)
    requires p.rate >= 0.0
    ensures Refill(p, EXPIRE_SECONDS) >= p.capacity as real <==>
              forall times: seq<real>, n: nat | Monotone(times) && n < |times| ::
                Admitted(p, true, times, n) == Admitted(p, false, times, n)
  {
    if Refill(p, EXPIRE_SECONDS) >= p.capacity as real {
      forall times: seq<real>, n: nat | Monotone(times) && n < |times|
        ensures Admitted(p, true, times, n) == Admitted(p, false, times, n)
      {
        ExpiryUnseen(p, times);
      }
    } else {
      var times, n := ExpirySeen(p);
      assert Admitted(p, true, times, n) != Admitted(p, false, times, n);
    }
  }

  // ---------------------------------------------------------------------------
  // The window bound of the expiring key
  // ---------------------------------------------------------------------------

  lemma {:induction false} StartWithoutExpiry(times: seq<real>, n: nat)
    requires n < |times|
    ensures Start(false, times, n) == 0
  {
    if n == 0 {
    } else {
      StartWithoutExpiry(times, n - 1);
    }
  }

  lemma {:induction false} CountUnseen(p: Params, times: seq<real>, i: nat, n: nat)
    requires i <= n <= |times|
    requires forall k | 0 <= k < |times| :: Admitted(p, true, times, k) == Admitted(p, false, times, k)
    ensures Count(p, true, times, i, n) == Count(p, false, times, i, n)
  {
    if i == n {
    } else {
      CountUnseen(p, times, i, n - 1);
    }
  }

  /** If an hour's refill fills the bucket, windows across an expiry are bounded too. */
  lemma DecisionAcrossExpiry(p: Params, times: seq<real>, n: nat)
    requires p.rate >= 0.0 && Refill(p, EXPIRE_SECONDS) >= p.capacity as real && Monotone(times) && n < |times|
    ensures Admitted(p, true, times, n) <==> forall i | 0 <= i <= n :: WithinBound(p, true, times, i, n)
  {
    ExpiryUnseen(p, times);
    DecisionIsExact(p, false, times, n);
    StartWithoutExpiry(times, n);
    forall i | 0 <= i <= n ensures WithinBound(p, true, times, i, n) == WithinBound(p, false, times, i, n) {
      CountUnseen(p, times, i, n);
    }
  }

  /** Every request of the two bursts is admitted by the expiring key. */
  lemma {:induction false} BurstsAdmitted(p: Params, k: nat, n: nat)
    requires p.capacity > 0 && p.rate >= 0.0 && k <= p.capacity && n <= p.capacity + k
    ensures Count(p, true, Burst(p, k), 0, n) == n
  {
    var times := Burst(p, k);
    if n == 0 {
    } else {
      BurstsAdmitted(p, k, n - 1);
      if n <= p.capacity {
        FirstBurst(p, true, n - 1);
        assert times[..n - 1] == seq(n - 1, _ => 0.0);
        assert Refill(p, 0.0) == 0.0;
      } else {
        var j := n - 1 - p.capacity;
        SecondBurst(p, true, j, p.capacity as real);
        assert times[..n - 1] == Burst(p, j);
      }
    }
  }

  lemma WindowBroken(p: Params) returns (times: seq<real>, n: nat)
    requires p.rate >= 0.0 && Refill(p, EXPIRE_SECONDS) < p.capacity as real
    ensures Monotone(times) && n < |times|
    ensures Admitted(p, true, times, n) && !WindowKept(p, true, times, 0, n)
  {
    RefillGrows(p, 0.0, EXPIRE_SECONDS);
    assert Refill(p, 0.0) == 0.0;
    var k := FloorBounds(Refill(p, EXPIRE_SECONDS), p.capacity);
    times, n := Burst(p, k + 1), p.capacity + k;
    LastOfBurst(p, true, k, p.capacity as real);
    BurstsAdmitted(p, k + 1, n + 1);
    assert times[n] - times[0] == EXPIRE_SECONDS;
  }

  /** The window bound holds of the expiring key in every window, across expiries too, if and
      only if an hour's refill fills the bucket. */
  lemma WindowBoundIff(p: Params)
    requires p.rate >= 0.0
    ensures Refill(p, EXPIRE_SECONDS) >= p.capacity as real <==>
              forall times: seq<real>, i: nat, n: nat |
                Monotone(times) && i <= n < |times| && Admitted(p, true, times, n) ::
                WindowKept(p, true, times, i, n)
  {
    if Refill(p, EXPIRE_SECONDS) >= p.capacity as real {
      forall times: seq<real>, i: nat, n: nat | Monotone(times) && i <= n < |times| && Admitted(p, true, times, n)
        ensures WindowKept(p, true, times, i, n)
      {
        DecisionAcrossExpiry(p, times, n);
        assert WithinBound(p, true, times, i, n);
      }
    } else {
      var times, n := WindowBroken(p);
      assert Admitted(p, true, times, n) && !WindowKept(p, true, times, 0, n);
    }
  }

  /** The gateway's limiter, 10 tokens at 2 per second with its expiring key, admits a
      request exactly when no window ending at it would exceed 10 + 2 * elapsed. */
  lemma ConfiguredLimiter(p: Params, times: seq<real>, n: nat)
    requires p == Params(10, 2.0) && Monotone(times) && n < |times|
    ensures Admitted(p, true, times, n) <==>
              forall i | 0 <= i <= n ::
                (Count(p, true, times, i, n) + 1) as real <= 10.0 + 2.0 * (times[n] - times[i])
  {
    DecisionAcrossExpiry(p, times, n);
    assert forall x: real :: Refill(p, x) == 2.0 * x;
    forall i | 0 <= i <= n
      ensures WithinBound(p, true, times, i, n) <==>
              (Count(p, true, times, i, n) + 1) as real <= 10.0 + 2.0 * (times[n] - times[i])
    {
    }
  }

  // ---------------------------------------------------------------------------
  // The limiter
  // ---------------------------------------------------------------------------

  class TokenBucketLimiter {
    const p: Params
    var keys: map<string, Bucket>
    var expiry: map<string, real>
    /** The times of each client's requests so far. */
    ghost var history: map<string, seq<real>>

    /** The stored hashes are those that the requests so far have left. */
    ghost predicate Valid() reads this {
      && keys.Keys == expiry.Keys == history.Keys
      && forall key | key in keys ::
           && keys[key] == After(p, true, history[key]) && keys[key].Present?
           && expiry[key] == keys[key].lastRefill + EXPIRE_SECONDS
    }

    constructor (p: Params)
      ensures Valid() && this.p == p && history == map[]
    {
      this.p, keys, expiry, history := p, map[], map[], map[];
    }

    /** HMGET: the server has dropped a key whose expiry time has come. */
    method Lookup(key: string, now: real) returns (bucket: Bucket)
      requires Valid()
      ensures bucket == Found(true, After(p, true, if key in history then history[key] else []), now)
      ensures bucket == if key in keys && now < keys[key].lastRefill + 3600.0 then keys[key] else Absent
    {
      AfterNone(p, true);
      bucket := if key in keys && now < expiry[key] then keys[key] else Absent;
    }

    /** The script: the server drops a key whose expiry time has come, then the script reads
        the hash, refills, decides and stores. The decision and the balance are those of the
        key's own requests so far. Only the caller's own key is touched. */
    method Allow(key: string, now: real) returns (result: bool)
      requires Valid()
      modifies this
      ensures Valid()
      ensures history == old(history)[key := (if key in old(history) then old(history)[key] else []) + [now]]
      ensures result == Admitted(p, true, history[key], |history[key]| - 1)
      ensures keys == old(keys)[key := After(p, true, history[key])]
      ensures expiry == old(expiry)[key := now + 3600.0]
      ensures var live := key in old(keys) && now < old(keys)[key].lastRefill + 3600.0;
              var bucket := if live then old(keys)[key] else Absent;
              (result <==> Admits(p, bucket, now)) && keys[key] == Charged(p, bucket, now)
    {
      hide After, Admitted, Charged, Admits, Found, Refilled, Refill, Min;
      ghost var before := if key in history then history[key] else [];
      AfterOneMore(p, true, before, now);
      var bucket := Lookup(key, now);
      var stored, allowed := Script(p, bucket, now);
      keys := keys[key := stored];
      expiry := expiry[key := now + EXPIRE_SECONDS];
      history := history[key := before + [now]];
      result := allowed == 1;
    }
  }

  lemma NothingAtOnce(p: Params, now: real)
    ensures Refill(p, now - now) == 0.0
  {
  }

  /** The balance after the refill is at most the capacity; a request is let through if it is
      at least one token, and takes one. */
  lemma ChargedMeans(p: Params, bucket: Bucket, now: real)
    ensures var refilled := if bucket.Present? then bucket.tokens + (now - bucket.lastRefill) * p.rate
                            else p.capacity as real;
            var balance := if refilled <= p.capacity as real then refilled else p.capacity as real;
            && (Admits(p, bucket, now) <==> balance >= 1.0)
            && Charged(p, bucket, now) == Present(balance - (if balance >= 1.0 then 1.0 else 0.0), now)
  {
    if bucket.Present? {
      assert Refill(p, now - bucket.lastRefill) == (now - bucket.lastRefill) * p.rate;
    }
  }

  /** The script itself. */
  method Script(p: Params, bucket: Bucket, now: real) returns (stored: Bucket, allowed: int)
    ensures stored == Charged(p, bucket, now)
    ensures allowed == if Admits(p, bucket, now) then 1 else 0
    ensures var refilled := if bucket.Present? then bucket.tokens + (now - bucket.lastRefill) * p.rate
                            else p.capacity as real;
            var balance := if refilled <= p.capacity as real then refilled else p.capacity as real;
            && allowed == (if balance >= 1.0 then 1 else 0)
            && stored == Present(balance - (if balance >= 1.0 then 1.0 else 0.0), now)
  {
    hide Refill;
    var tokens, lastRefill;
    if bucket.Absent? {
      tokens, lastRefill := p.capacity as real, now;
    } else {
      tokens, lastRefill := bucket.tokens, bucket.lastRefill;
    }
    var elapsed := now - lastRefill;
    tokens := Min(p.capacity as real, tokens + Refill(p, elapsed));
    NothingAtOnce(p, now);
    allowed := 0;
    if tokens >= REQUESTED {
      tokens := tokens - REQUESTED;
      allowed := 1;
    }
    stored := Present(tokens, now);
    ChargedMeans(p, bucket, now);
  }
}
