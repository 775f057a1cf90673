/** The gateway's two token buckets: the in-process one and the Redis script. */
module RateLimit {
  import opened Types
  import opened Meter

  /** A request as a limiter sees it; `now` in seconds for the bucket, in milliseconds for the script. */
  datatype Call = Call(amount: real, now: real)

  datatype Bucket = Bucket(tokens: real, updatedAt: real)

  class TokenBucket {
    const lim: Limit
    var tokens: real
    var updatedAt: real

    ghost function Model(): Bucket
      reads this
    {
      Bucket(tokens, updatedAt)
    }

    constructor (lim: Limit, now: real)
      ensures this.lim == lim && Model() == Bucket(lim.capacity, now)
    {
      this.lim, tokens, updatedAt := lim, lim.capacity, now;
    }

    method Take(amount: real, now: real) returns (granted: bool)
      modifies this
      ensures (Model(), granted) == TakeFrom(lim, old(Model()), Call(amount, now))
    {
      var elapsed := now - updatedAt;
      if elapsed > 0.0 {
        tokens := Min(lim.capacity, tokens + elapsed * lim.rate);
        updatedAt := now;
      }
      if tokens >= amount {
        tokens := tokens - amount;
        return true;
      }
      return false;
    }
  }

  function Refill(lim: Limit, b: Bucket, now: real): Bucket {
    if now > b.updatedAt then Bucket(Min(lim.capacity, b.tokens + Inflow(lim, now - b.updatedAt)), now) else b
  }

  function TakeFrom(lim: Limit, b: Bucket, c: Call): (Bucket, bool) {
    var f := Refill(lim, b, c.now);
    if f.tokens >= c.amount then (f.(tokens := f.tokens - c.amount), true) else (f, false)
  }

  /** The bucket, created at `t0`, after the first `n` calls. */
  function BucketAt(lim: Limit, t0: real, cs: seq<Call>, n: nat): Bucket
    requires n <= |cs|
  {
    if n == 0 then Bucket(lim.capacity, t0) else TakeFrom(lim, BucketAt(lim, t0, cs, n - 1), cs[n - 1]).0
  }

  predicate BucketGrants(lim: Limit, t0: real, cs: seq<Call>, k: nat)
    requires k < |cs|
  {
    TakeFrom(lim, BucketAt(lim, t0, cs, k), cs[k]).1
  }

  /** The latest clock reading among creation and the first `n` calls. */
  function Latest(t0: real, cs: seq<Call>, n: nat): real
    requires n <= |cs|
  {
    if n == 0 then t0
    else if cs[n - 1].now > Latest(t0, cs, n - 1) then cs[n - 1].now else Latest(t0, cs, n - 1)
  }

  function BucketDraws(t0: real, cs: seq<Call>): seq<Draw> {
    seq(|cs|, k requires 0 <= k < |cs| => Draw(cs[k].amount, Latest(t0, cs, k + 1) - Latest(t0, cs, k)))
  }

  predicate Plausible(lim: Limit, cs: seq<Call>) {
    lim.capacity > 0.0 && lim.rate >= 0.0 && forall k :: 0 <= k < |cs| ==> cs[k].amount >= 0.0
  }

  lemma BucketDrawsSane(lim: Limit, t0: real, cs: seq<Call>)
    requires Plausible(lim, cs)
    ensures Sane(lim, BucketDraws(t0, cs))
  {
  }

  lemma {:induction false} BucketIsMeter(lim: Limit, t0: real, cs: seq<Call>, n: nat)
    requires Plausible(lim, cs) && n <= |cs|
    ensures BucketAt(lim, t0, cs, n) == Bucket(Level(lim, BucketDraws(t0, cs), n), Latest(t0, cs, n))
    ensures n < |cs| ==> (BucketGrants(lim, t0, cs, n) <==> Grants(lim, BucketDraws(t0, cs), n))
  {
    hide Inflow, Sane, Slack;
    var ds := BucketDraws(t0, cs);
    BucketDrawsSane(lim, t0, cs);
    if n > 0 {
      BucketIsMeter(lim, t0, cs, n - 1);
      assert BucketAt(lim, t0, cs, n) == TakeFrom(lim, BucketAt(lim, t0, cs, n - 1), cs[n - 1]).0;
      RefillIsOffer(lim, t0, cs, n - 1);
    }
    if n < |cs| { RefillIsOffer(lim, t0, cs, n); }
  }

  lemma RefillIsOffer(lim: Limit, t0: real, cs: seq<Call>, k: nat)
    requires Plausible(lim, cs) && k < |cs|
    ensures var b := Bucket(Level(lim, BucketDraws(t0, cs), k), Latest(t0, cs, k));
            Refill(lim, b, cs[k].now) == Bucket(Offered(lim, BucketDraws(t0, cs), k), Latest(t0, cs, k + 1))
  {
    hide Inflow, Sane, Slack, Level;
    var ds := BucketDraws(t0, cs);
    BucketDrawsSane(lim, t0, cs);
    var _ := LevelIsLeastSlack(lim, ds, k);
    InflowLinear(lim, ds[k].gain, 0.0);
    assert Offered(lim, ds, k) == Min(lim.capacity, Level(lim, ds, k) + Inflow(lim, ds[k].gain));
  }

  lemma InflowIs(lim: Limit, seconds: real)
    ensures Inflow(lim, seconds) == seconds * lim.rate
  {
  }

  lemma {:induction false} GainedIsAdvance(t0: real, cs: seq<Call>, i: nat, n: nat)
    requires i <= n <= |cs|
    ensures Gained(BucketDraws(t0, cs), i, n) == Latest(t0, cs, n) - Latest(t0, cs, i)
    decreases n
  {
    if i < n { GainedIsAdvance(t0, cs, i, n - 1); }
  }

  /** The latest reading is one of the readings and below none of them. */
  lemma {:induction false} LatestIsMax(t0: real, cs: seq<Call>, n: nat)
    requires n <= |cs|
    ensures Latest(t0, cs, n) >= t0 && forall i :: 0 <= i < n ==> cs[i].now <= Latest(t0, cs, n)
    ensures Latest(t0, cs, n) == t0 || exists i :: 0 <= i < n && cs[i].now == Latest(t0, cs, n)
  {
    if n > 0 {
      LatestIsMax(t0, cs, n - 1);
      assert cs[n - 1].now == cs[n - 1].now;
    }
  }

  /** Tokens granted by calls `i .. n`. */
  function BucketSpent(lim: Limit, t0: real, cs: seq<Call>, i: nat, n: nat): real
    requires n <= |cs|
    decreases n
  {
    if n <= i then 0.0
    else BucketSpent(lim, t0, cs, i, n - 1) + if BucketGrants(lim, t0, cs, n - 1) then cs[n - 1].amount else 0.0
  }

  lemma {:induction false} SpentIsMeter(lim: Limit, t0: real, cs: seq<Call>, i: nat, n: nat)
    requires Plausible(lim, cs) && n <= |cs|
    ensures BucketSpent(lim, t0, cs, i, n) == Spent(lim, BucketDraws(t0, cs), i, n)
    decreases n
  {
    if i < n {
      SpentIsMeter(lim, t0, cs, i, n - 1);
      BucketIsMeter(lim, t0, cs, n - 1);
    }
  }

  lemma BucketInflow(lim: Limit, t0: real, cs: seq<Call>, i: nat, n: nat)
    requires Plausible(lim, cs) && i < n <= |cs|
    ensures BucketSpent(lim, t0, cs, i, n)
            <= lim.capacity + Inflow(lim, Latest(t0, cs, n) - Latest(t0, cs, i + 1))
  {
    hide Inflow;
    BucketDrawsSane(lim, t0, cs);
    SpentIsMeter(lim, t0, cs, i, n);
    NeverOvergrants(lim, BucketDraws(t0, cs), i, n);
    GainedIsAdvance(t0, cs, i + 1, n);
  }

  /** For any clock readings, even backward ones, calls `i .. n` together get at most
      the capacity plus the rate times the advance of the clock during them. */
  lemma BucketBound(lim: Limit, t0: real, cs: seq<Call>, i: nat, n: nat)
    requires Plausible(lim, cs) && i < n <= |cs|
    ensures BucketSpent(lim, t0, cs, i, n)
            <= lim.capacity + (Latest(t0, cs, n) - Latest(t0, cs, i + 1)) * lim.rate
  {
    hide Inflow, BucketSpent, Latest, Plausible;
    BucketInflow(lim, t0, cs, i, n);
    InflowIs(lim, Latest(t0, cs, n) - Latest(t0, cs, i + 1));
  }

  /** Granting call `k` keeps calls `i ..= k` within that bound. */
  predicate WithinBound(lim: Limit, t0: real, cs: seq<Call>, i: nat, k: nat)
    requires i <= k < |cs|
  {
    BucketSpent(lim, t0, cs, i, k) + cs[k].amount
    <= lim.capacity + (Latest(t0, cs, k + 1) - Latest(t0, cs, i + 1)) * lim.rate
  }

  /** A call is granted exactly when no run of calls ending with it exceeds the bound. */
  lemma BucketGrantsExactly(lim: Limit, t0: real, cs: seq<Call>, k: nat)
    requires Plausible(lim, cs) && k < |cs|
    ensures BucketGrants(lim, t0, cs, k) <==> forall i :: 0 <= i <= k ==> WithinBound(lim, t0, cs, i, k)
  {
    hide Inflow, Level, Spent, Gained, Grants, BucketGrants, BucketAt, Latest, BucketSpent;
    BucketIsMeter(lim, t0, cs, k);
    BucketDrawsSane(lim, t0, cs);
    GrantsExactly(lim, BucketDraws(t0, cs), k);
    forall i | 0 <= i <= k
      ensures WithinBound(lim, t0, cs, i, k) <==> Affordable(lim, BucketDraws(t0, cs), i, k)
    {
      SpentIsMeter(lim, t0, cs, i, k);
      GainedIsAdvance(t0, cs, i + 1, k + 1);
      InflowIs(lim, Latest(t0, cs, k + 1) - Latest(t0, cs, i + 1));
    }
  }

  // ------------------------------------------------------------------
  // The Redis script
  // ------------------------------------------------------------------

  /** The hash stored under a limiter key; absent until the first call or after expiry. */
  type Key = Option<Bucket>

  function Script(lim: Limit, k: Key, c: Call): (Bucket, bool) {
    var had := if k.Some? then k.value else Bucket(lim.capacity, c.now);
    var elapsed := (c.now - had.updatedAt) / 1000.0;
    var tokens := if elapsed > 0.0 then Min(lim.capacity, had.tokens + Inflow(lim, elapsed)) else had.tokens;
    if tokens >= c.amount then (Bucket(tokens - c.amount, c.now), true) else (Bucket(tokens, c.now), false)
  }

  function Ceil(x: real): int { -((-x).Floor) }

  /** Milliseconds after its last call at which a key expires. */
  function Ttl(lim: Limit): real {
    (Ceil(lim.capacity / (if lim.rate > 0.0001 then lim.rate else 0.0001) * 1000.0) + 5000) as real
  }

  /** What a call finds: nothing once the key has been idle for its time to live. */
  function Visible(lim: Limit, k: Key, now: real): Key {
    if k.Some? && now - k.value.updatedAt >= Ttl(lim) then None else k
  }

  /** What call `k` finds, with or without expiry. */
  function Found(lim: Limit, cs: seq<Call>, k: nat, expiry: bool): Key
    requires k < |cs|
    decreases k, 0
  {
    if k == 0 then None
    else if expiry then Visible(lim, KeyAfter(lim, cs, k - 1, expiry), cs[k].now)
    else KeyAfter(lim, cs, k - 1, expiry)
  }

  /** What call `k` writes back. */
  function KeyAfter(lim: Limit, cs: seq<Call>, k: nat, expiry: bool): Key
    requires k < |cs|
    decreases k, 1
  {
    Some(Script(lim, Found(lim, cs, k, expiry), cs[k]).0)
  }

  predicate ScriptGrants(lim: Limit, cs: seq<Call>, k: nat, expiry: bool)
    requires k < |cs|
  {
    Script(lim, Found(lim, cs, k, expiry), cs[k]).1
  }

  predicate Steady(cs: seq<Call>) {
    forall i, j :: 0 <= i <= j < |cs| ==> cs[i].now <= cs[j].now
  }

  function InSeconds(cs: seq<Call>): seq<Call> {
    seq(|cs|, k requires 0 <= k < |cs| => Call(cs[k].amount, cs[k].now / 1000.0))
  }

  /** On every non-decreasing call sequence the script decides as the in-process bucket does. */
  lemma {:induction false} ScriptIsBucket(lim: Limit, t0: real, cs: seq<Call>, k: nat)
    requires Plausible(lim, cs) && Steady(cs) && k < |cs| && t0 <= cs[0].now / 1000.0
    ensures ScriptGrants(lim, cs, k, false) <==> BucketGrants(lim, t0, InSeconds(cs), k)
    ensures var b := BucketAt(lim, t0, InSeconds(cs), k + 1);
            KeyAfter(lim, cs, k, false) == Some(Bucket(b.tokens, cs[k].now)) && b.updatedAt == cs[k].now / 1000.0
  {
    hide Inflow;
    var now := cs[k].now;
    if k == 0 {
      FullStaysFull(lim, t0, now / 1000.0);
      assert BucketAt(lim, t0, InSeconds(cs), 0) == Bucket(lim.capacity, t0);
    } else {
      ScriptIsBucket(lim, t0, cs, k - 1);
      var before := cs[k - 1].now;
      assert (now - before) / 1000.0 == now / 1000.0 - before / 1000.0;
    }
  }

  lemma FullStaysFull(lim: Limit, t0: real, now: real)
    requires lim.rate >= 0.0 && t0 <= now
    ensures Refill(lim, Bucket(lim.capacity, t0), now) == Bucket(lim.capacity, now)
  {
    InflowLinear(lim, now - t0, 0.0);
  }

  // ------------------------------------------------------------------
  // The script under any clock
  // ------------------------------------------------------------------

  /** Upward movement of the clock, in seconds, that call `k` is credited with. */
  function Rise(cs: seq<Call>, k: nat): real
    requires k < |cs|
  {
    if k > 0 && cs[k].now > cs[k - 1].now then (cs[k].now - cs[k - 1].now) / 1000.0 else 0.0
  }

  function ScriptDraws(cs: seq<Call>): seq<Draw> {
    seq(|cs|, k requires 0 <= k < |cs| => Draw(cs[k].amount, Rise(cs, k)))
  }

  lemma {:induction false} ScriptIsMeter(lim: Limit, cs: seq<Call>, k: nat)
    requires Plausible(lim, cs) && k < |cs|
    ensures Sane(lim, ScriptDraws(cs))
    ensures KeyAfter(lim, cs, k, false) == Some(Bucket(Level(lim, ScriptDraws(cs), k + 1), cs[k].now))
    ensures ScriptGrants(lim, cs, k, false) <==> Grants(lim, ScriptDraws(cs), k)
  {
    hide Inflow;
    var ds := ScriptDraws(cs);
    if k > 0 { ScriptIsMeter(lim, cs, k - 1); }
    var _ := LevelIsLeastSlack(lim, ds, k);
    InflowLinear(lim, ds[k].gain, 0.0);
  }

  function ScriptSpent(lim: Limit, cs: seq<Call>, i: nat, n: nat): real
    requires n <= |cs|
    decreases n
  {
    if n <= i then 0.0
    else ScriptSpent(lim, cs, i, n - 1) + if ScriptGrants(lim, cs, n - 1, false) then cs[n - 1].amount else 0.0
  }

  lemma {:induction false} ScriptSpentIsMeter(lim: Limit, cs: seq<Call>, i: nat, n: nat)
    requires Plausible(lim, cs) && n <= |cs|
    ensures ScriptSpent(lim, cs, i, n) == Spent(lim, ScriptDraws(cs), i, n)
    decreases n
  {
    if i < n {
      ScriptSpentIsMeter(lim, cs, i, n - 1);
      ScriptIsMeter(lim, cs, n - 1);
    }
  }

  /** Under any clock the script grants at most the capacity plus the rate times every
      upward movement of the clock, repeated ones included. */
  lemma ScriptBound(lim: Limit, cs: seq<Call>, i: nat, n: nat)
    requires Plausible(lim, cs) && i < n <= |cs|
    ensures ScriptSpent(lim, cs, i, n) <= lim.capacity + Gained(ScriptDraws(cs), i + 1, n) * lim.rate
    ensures Steady(cs) ==> Gained(ScriptDraws(cs), i + 1, n) == (cs[n - 1].now - cs[i].now) / 1000.0
  {
    hide Inflow;
    ScriptIsMeter(lim, cs, n - 1);
    ScriptSpentIsMeter(lim, cs, i, n);
    NeverOvergrants(lim, ScriptDraws(cs), i, n);
    InflowIs(lim, Gained(ScriptDraws(cs), i + 1, n));
    if Steady(cs) { SteadyRise(cs, i, n); }
  }

  lemma {:induction false} SteadyRise(cs: seq<Call>, i: nat, n: nat)
    requires Steady(cs) && i < n <= |cs|
    ensures Gained(ScriptDraws(cs), i + 1, n) == (cs[n - 1].now - cs[i].now) / 1000.0
    decreases n
  {
    if i + 1 < n {
      SteadyRise(cs, i, n - 1);
      assert cs[n - 2].now <= cs[n - 1].now;
    }
  }

  /** With a clock that steps back, the advance of the clock alone is no bound: three
      calls at 1 s, 0 s and 1 s get 2 tokens from a bucket of 1 with no net advance. */
  lemma BackwardClockOvergrants()
    ensures var lim, cs := Limit(1.0, 1.0), [Call(1.0, 1000.0), Call(1.0, 0.0), Call(1.0, 1000.0)];
            ScriptSpent(lim, cs, 0, 3) == 2.0
  {
    var lim, cs := Limit(1.0, 1.0), [Call(1.0, 1000.0), Call(1.0, 0.0), Call(1.0, 1000.0)];
    assert Found(lim, cs, 0, false) == None;
    assert KeyAfter(lim, cs, 0, false) == Some(Bucket(0.0, 1000.0));
    assert KeyAfter(lim, cs, 1, false) == Some(Bucket(0.0, 0.0));
    assert ScriptGrants(lim, cs, 2, false);
    assert ScriptSpent(lim, cs, 0, 1) == 1.0;
    assert ScriptSpent(lim, cs, 0, 2) == 1.0;
  }

  // ------------------------------------------------------------------
  // When the advance of the clock bounds the script
  // ------------------------------------------------------------------

  /** The latest reading among calls `i .. n`. */
  function Peak(cs: seq<Call>, i: nat, n: nat): real
    requires i < n <= |cs|
    decreases n
  {
    if n == i + 1 then cs[i].now
    else if cs[n - 1].now > Peak(cs, i, n - 1) then cs[n - 1].now
    else Peak(cs, i, n - 1)
  }

  /** The clock rises into call `k` from below its reading at an earlier call `j`. */
  predicate Recovers(cs: seq<Call>, j: nat, k: nat)
    requires j < k < |cs|
  {
    cs[k - 1].now < cs[j].now && cs[k - 1].now < cs[k].now
  }

  /** Once the clock has stepped back, it never rises again. */
  predicate NeverRecovers(cs: seq<Call>) {
    forall j, k :: 0 <= j < k < |cs| ==> !Recovers(cs, j, k)
  }

  /** The bound that the in-process bucket meets under every clock. */
  predicate AdvanceBounds(lim: Limit, cs: seq<Call>, i: nat, n: nat)
    requires i < n <= |cs|
  {
    ScriptSpent(lim, cs, i, n) <= lim.capacity + (Peak(cs, i, n) - cs[i].now) / 1000.0 * lim.rate
  }

  predicate SameReadings(cs: seq<Call>, cs': seq<Call>) {
    |cs'| == |cs| && forall k :: 0 <= k < |cs| ==> cs'[k].now == cs[k].now
  }

  lemma {:induction false} RisesArePeak(cs: seq<Call>, i: nat, n: nat)
    requires i < n <= |cs| && NeverRecovers(cs)
    ensures Gained(ScriptDraws(cs), i + 1, n) == (Peak(cs, i, n) - cs[i].now) / 1000.0
    decreases n
  {
    hide Rise, NeverRecovers;
    if i + 1 < n {
      RisesArePeak(cs, i, n - 1);
      RiseIsPeakStep(cs, i, n);
      hide Peak;
      assert Gained(ScriptDraws(cs), i + 1, n) == Gained(ScriptDraws(cs), i + 1, n - 1) + Rise(cs, n - 1);
    }
  }

  lemma RiseIsPeakStep(cs: seq<Call>, i: nat, n: nat)
    requires i + 1 < n <= |cs| && NeverRecovers(cs)
    ensures Rise(cs, n - 1) == (Peak(cs, i, n) - Peak(cs, i, n - 1)) / 1000.0
  {
    var j := PeakIsReading(cs, i, n - 1);
    assert Peak(cs, i, n) == if cs[n - 1].now > Peak(cs, i, n - 1) then cs[n - 1].now else Peak(cs, i, n - 1);
    hide Peak;
    assert !Recovers(cs, j, n - 1);
  }

  lemma {:induction false} PeakIsReading(cs: seq<Call>, i: nat, n: nat) returns (j: nat)
    requires i < n <= |cs|
    ensures i <= j < n && cs[j].now == Peak(cs, i, n)
    ensures forall l :: i <= l < n ==> cs[l].now <= Peak(cs, i, n)
    decreases n
  {
    j := i;
    if i + 1 < n {
      j := PeakIsReading(cs, i, n - 1);
      if cs[n - 1].now > Peak(cs, i, n - 1) { j := n - 1; }
    }
  }

  /** Two draws: everything at call `j`, and what has refilled by call `k`; nothing else. */
  function Drain(cs: seq<Call>, j: nat, k: nat, amount: real): (r: seq<Call>)
    ensures SameReadings(cs, r)
  {
    seq(|cs|, l requires 0 <= l < |cs| => Call(if l == j || l == k then amount else 0.0, cs[l].now))
  }

  /** Draws of nothing leave a full meter full. */
  lemma {:induction false} IdleStaysFull(lim: Limit, ds: seq<Draw>, n: nat)
    requires Sane(lim, ds) && n <= |ds| && forall k :: 0 <= k < n ==> ds[k].amount == 0.0
    ensures Level(lim, ds, n) == lim.capacity
  {
    if n > 0 {
      IdleStaysFull(lim, ds, n - 1);
      InflowLinear(lim, ds[n - 1].gain, 0.0);
    }
  }

  /** Spending never goes back, and a granted draw adds its amount. */
  lemma SpentGrows(lim: Limit, cs: seq<Call>, j: nat, k: nat)
    requires Plausible(lim, cs) && j < k < |cs|
    requires ScriptGrants(lim, cs, j, false) && ScriptGrants(lim, cs, k, false)
    ensures ScriptSpent(lim, cs, j, k + 1) >= cs[j].amount + cs[k].amount
  {
    hide ScriptGrants, Plausible;
    assert ScriptSpent(lim, cs, j, j) == 0.0;
    SpentMonotone(lim, cs, j, j + 1, k);
  }

  lemma {:induction false} SpentMonotone(lim: Limit, cs: seq<Call>, j: nat, m: nat, n: nat)
    requires Plausible(lim, cs) && j <= m <= n <= |cs|
    ensures ScriptSpent(lim, cs, j, m) <= ScriptSpent(lim, cs, j, n)
    decreases n
  {
    hide ScriptGrants;
    if m < n { SpentMonotone(lim, cs, j, m, n - 1); }
  }

  /** A rise from below an earlier reading is paid for twice. */
  lemma RecoveryOvergrants(cs: seq<Call>, j: nat, k: nat)
    requires j < k < |cs| && cs[k].now > cs[k - 1].now && Peak(cs, 0, k) == cs[j].now > cs[k - 1].now
    ensures var lim := Limit(Rise(cs, k), 1.0);
            var cs' := Drain(cs, j, k, lim.capacity);
            Plausible(lim, cs') && SameReadings(cs, cs') && !AdvanceBounds(lim, cs', j, k + 1)
  {
    hide Level, Peak, ScriptSpent, ScriptGrants, KeyAfter;
    var lim := Limit(Rise(cs, k), 1.0);
    var cs' := Drain(cs, j, k, lim.capacity);
    var ds := ScriptDraws(cs');
    ScriptIsMeter(lim, cs', j);
    ScriptIsMeter(lim, cs', k);
    IdleStaysFull(lim, ds, j);
    var _ := LevelIsLeastSlack(lim, ds, k);
    assert Grants(lim, ds, j) by { InflowLinear(lim, ds[j].gain, 0.0); }
    assert Grants(lim, ds, k) by { assert ds[k].gain == lim.capacity; }
    SpentGrows(lim, cs', j, k);
    var p := PeakIsReading(cs', j, k + 1);
    var q := PeakIsReading(cs, 0, k);
    assert p < k ==> cs[p].now <= cs[j].now;
    assert (Peak(cs', j, k + 1) - cs'[j].now) / 1000.0 < Rise(cs, k);
  }

  lemma SteadyEnough(lim: Limit, cs: seq<Call>, i: nat, n: nat)
    requires Plausible(lim, cs) && NeverRecovers(cs) && i < n <= |cs|
    ensures AdvanceBounds(lim, cs, i, n)
  {
    hide Plausible, Inflow, ScriptSpent, Peak;
    ScriptBound(lim, cs, i, n);
    RisesArePeak(cs, i, n);
  }

  ghost predicate AdvanceAlwaysBounds(cs: seq<Call>) {
    forall lim: Limit, cs': seq<Call>, i: nat, n: nat ::
      Plausible(lim, cs') && SameReadings(cs, cs') && i < n <= |cs'| ==> AdvanceBounds(lim, cs', i, n)
  }

  lemma RecoveryBreaksBound(cs: seq<Call>)
    requires !NeverRecovers(cs)
    ensures !AdvanceAlwaysBounds(cs)
  {
    hide Plausible, Inflow, AdvanceBounds, Drain, Rise, Peak;
    var j: nat, k: nat :| j < k < |cs| && Recovers(cs, j, k);
    var top := PeakIsReading(cs, 0, k);
    RecoveryOvergrants(cs, top, k);
    var lim := Limit(Rise(cs, k), 1.0);
    assert !AdvanceBounds(lim, Drain(cs, top, k, lim.capacity), top, k + 1);
  }

  /** For given clock readings, the advance of the clock bounds what the script grants, for
      every limit, all amounts and every run of calls, exactly when the clock never rises
      again once it has stepped back. */
  lemma AdvanceBoundsExactly(cs: seq<Call>)
    ensures AdvanceAlwaysBounds(cs) <==> NeverRecovers(cs)
  {
    hide Plausible, AdvanceBounds, NeverRecovers;
    if NeverRecovers(cs) {
      forall lim: Limit, cs': seq<Call>, i: nat, n: nat | Plausible(lim, cs') && SameReadings(cs, cs') && i < n <= |cs'|
        ensures AdvanceBounds(lim, cs', i, n)
      {
        SameRecovery(cs, cs');
        SteadyEnough(lim, cs', i, n);
      }
    } else {
      RecoveryBreaksBound(cs);
    }
  }

  lemma SameRecovery(cs: seq<Call>, cs': seq<Call>)
    requires SameReadings(cs, cs') && NeverRecovers(cs)
    ensures NeverRecovers(cs')
  {
    forall j, k | 0 <= j < k < |cs'| ensures !Recovers(cs', j, k) { assert !Recovers(cs, j, k); }
  }

  // ------------------------------------------------------------------
  // Key expiry
  // ------------------------------------------------------------------

  /** An idle key has refilled completely by the time it expires. */
  predicate FullBeforeExpiry(lim: Limit) { Inflow(lim, Ttl(lim) / 1000.0) >= lim.capacity }

  lemma {:induction false} ExpiryInvisible(lim: Limit, cs: seq<Call>, k: nat)
    requires Plausible(lim, cs) && Steady(cs) && k < |cs| && FullBeforeExpiry(lim)
    ensures KeyAfter(lim, cs, k, true) == KeyAfter(lim, cs, k, false)
    ensures ScriptGrants(lim, cs, k, true) <==> ScriptGrants(lim, cs, k, false)
  {
    hide Inflow, Ttl;
    if k > 0 {
      ExpiryInvisible(lim, cs, k - 1);
      ScriptIsMeter(lim, cs, k - 1);
      var _ := LevelIsLeastSlack(lim, ScriptDraws(cs), k);
      var idle := cs[k].now - cs[k - 1].now;
      TtlPositive(lim);
      if idle >= Ttl(lim) {
        assert idle / 1000.0 - Ttl(lim) / 1000.0 >= 0.0;
        InflowLinear(lim, Ttl(lim) / 1000.0, idle / 1000.0 - Ttl(lim) / 1000.0);
        InflowLinear(lim, idle / 1000.0 - Ttl(lim) / 1000.0, 0.0);
      }
    }
  }

  lemma TtlPositive(lim: Limit)
    requires lim.capacity > 0.0
    ensures Ttl(lim) > 0.0
  {
    var r := if lim.rate > 0.0001 then lim.rate else 0.0001;
    assert lim.capacity / r > 0.0;
  }

  ghost predicate ExpiryUnobservable(lim: Limit) {
    forall cs: seq<Call>, k: nat :: Plausible(lim, cs) && Steady(cs) && k < |cs| ==>
      (ScriptGrants(lim, cs, k, true) <==> ScriptGrants(lim, cs, k, false))
  }

  /** Key expiry changes no decision on any non-decreasing call sequence exactly when an
      idle key would have been full by then anyway. */
  lemma ExpiryUnobservableExactly(lim: Limit)
    requires lim.capacity > 0.0 && lim.rate >= 0.0
    ensures ExpiryUnobservable(lim) <==> FullBeforeExpiry(lim)
    ensures FullBeforeExpiry(lim) <==> Ttl(lim) / 1000.0 * lim.rate >= lim.capacity
  {
    hide Ttl, Plausible, Steady, ScriptGrants;
    InflowIs(lim, Ttl(lim) / 1000.0);
    hide Inflow;
    if FullBeforeExpiry(lim) {
      forall cs: seq<Call>, k: nat | Plausible(lim, cs) && Steady(cs) && k < |cs|
        ensures ScriptGrants(lim, cs, k, true) <==> ScriptGrants(lim, cs, k, false)
      {
        ExpiryInvisible(lim, cs, k);
      }
    } else {
      ExpiryShows(lim);
    }
  }

  /** Draining a slow bucket and coming back when the key has just expired. */
  lemma ExpiryShows(lim: Limit)
    requires lim.capacity > 0.0 && lim.rate >= 0.0 && !FullBeforeExpiry(lim)
    ensures !ExpiryUnobservable(lim)
  {
    hide Inflow, Ttl;
    TtlPositive(lim);
    var cs := [Call(lim.capacity, 0.0), Call(lim.capacity, Ttl(lim))];
    assert Plausible(lim, cs) && Steady(cs);
    assert KeyAfter(lim, cs, 0, false) == Some(Bucket(0.0, 0.0)) == KeyAfter(lim, cs, 0, true);
    assert Found(lim, cs, 1, true) == None;
    assert ScriptGrants(lim, cs, 1, true);
    assert !ScriptGrants(lim, cs, 1, false);
  }

  /** Every rate of at least 0.0001 per second meets the condition. */
  lemma UsualRatesFillUp(lim: Limit)
    requires lim.capacity > 0.0 && lim.rate >= 0.0001
    ensures FullBeforeExpiry(lim)
  {
    var x := lim.capacity / lim.rate;
    assert x * lim.rate == lim.capacity;
    assert Ceil(x * 1000.0) as real >= x * 1000.0;
    var spare := Ttl(lim) / 1000.0 - x;
    assert spare >= 0.0;
    InflowLinear(lim, x, spare);
    InflowLinear(lim, spare, 0.0);
  }

  /** The time to live is the time a drained bucket takes to fill up, at no less than 0.0001
      per second, rounded up to a whole millisecond, plus five seconds. */
  lemma TtlExactly(lim: Limit)
    requires lim.capacity > 0.0
    ensures var full := lim.capacity / (if lim.rate > 0.0001 then lim.rate else 0.0001) * 1000.0;
            full + 5000.0 <= Ttl(lim) < full + 5001.0
  {
  }

  /** And some rates below it do not: a bucket that never refills. */
  lemma ZeroRateShows()
    ensures !FullBeforeExpiry(Limit(1.0, 0.0)) && !ExpiryUnobservable(Limit(1.0, 0.0))
  {
    hide Ttl;
    ExpiryShows(Limit(1.0, 0.0));
  }
}
