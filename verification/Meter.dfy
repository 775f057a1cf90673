/** The law behind both rate limiters: a level that refills by `rate * gain`, never
    above `capacity`, and grants a draw exactly when the level covers it. */
module Meter {

  /** One request: how much it asks for, and how much clock time it is credited with. */
  datatype Draw = Draw(amount: real, gain: real)

  datatype Limit = Limit(capacity: real, rate: real)

  predicate Sane(lim: Limit, ds: seq<Draw>) {
    lim.capacity > 0.0 && lim.rate >= 0.0 && forall k :: 0 <= k < |ds| ==> ds[k].amount >= 0.0 && ds[k].gain >= 0.0
  }

  /** Tokens that flow in over `gain` seconds. */
  function Inflow(lim: Limit, gain: real): real { gain * lim.rate }

  lemma InflowLinear(lim: Limit, a: real, b: real)
    ensures Inflow(lim, 0.0) == 0.0
    ensures Inflow(lim, a + b) == Inflow(lim, a) + Inflow(lim, b)
    ensures a >= 0.0 && lim.rate >= 0.0 ==> Inflow(lim, a) >= 0.0
  {
  }

  function Min(a: real, b: real): real { if a < b then a else b }

  /** The level the `k`-th draw is judged by. */
  function Offered(lim: Limit, ds: seq<Draw>, k: nat): real
    requires k < |ds|
    decreases k, 1
  {
    Min(lim.capacity, Level(lim, ds, k) + Inflow(lim, ds[k].gain))
  }

  predicate Grants(lim: Limit, ds: seq<Draw>, k: nat)
    requires k < |ds|
    decreases k, 2
  {
    Offered(lim, ds, k) >= ds[k].amount
  }

  /** The level after `n` draws, starting full. */
  function Level(lim: Limit, ds: seq<Draw>, n: nat): real
    requires n <= |ds|
    decreases n, 0
  {
    if n == 0 then lim.capacity
    else Offered(lim, ds, n - 1) - if Grants(lim, ds, n - 1) then ds[n - 1].amount else 0.0
  }

  /** Total granted by draws `i .. n`. */
  function Spent(lim: Limit, ds: seq<Draw>, i: nat, n: nat): real
    requires n <= |ds|
    decreases n
  {
    if n <= i then 0.0
    else Spent(lim, ds, i, n - 1) + if Grants(lim, ds, n - 1) then ds[n - 1].amount else 0.0
  }

  /** Total clock time credited to draws `i .. n`. */
  function Gained(ds: seq<Draw>, i: nat, n: nat): real
    requires n <= |ds|
    decreases n
  {
    if n <= i then 0.0 else Gained(ds, i, n - 1) + ds[n - 1].gain
  }

  /** What draws `i .. n` leave of a full level plus the refill between the first and
      the last of them. */
  function Slack(lim: Limit, ds: seq<Draw>, i: nat, n: nat): real
    requires n <= |ds|
  {
    lim.capacity + Inflow(lim, Gained(ds, i + 1, n)) - Spent(lim, ds, i, n)
  }

  lemma SlackStep(lim: Limit, ds: seq<Draw>, i: nat, n: nat)
    requires i <= n < |ds|
    ensures Slack(lim, ds, n, n) == lim.capacity
    ensures Slack(lim, ds, i, n + 1)
            == Slack(lim, ds, i, n) + (if i < n then Inflow(lim, ds[n].gain) else 0.0)
               - (if Grants(lim, ds, n) then ds[n].amount else 0.0)
  {
    hide Inflow, Grants;
    InflowLinear(lim, Gained(ds, i + 1, n), ds[n].gain);
  }

  /** The level is the least slack over all stretches of draws ending now. */
  lemma {:induction false} LevelIsLeastSlack(lim: Limit, ds: seq<Draw>, n: nat) returns (tight: nat)
    requires Sane(lim, ds) && n <= |ds|
    ensures 0.0 <= Level(lim, ds, n) <= lim.capacity
    ensures forall i :: 0 <= i <= n ==> Level(lim, ds, n) <= Slack(lim, ds, i, n)
    ensures tight <= n && Level(lim, ds, n) == Slack(lim, ds, tight, n)
  {
    hide Inflow, Slack;
    tight := n;
    if n == 0 {
      SlackEmpty(lim, ds, 0);
    } else {
      var t := LevelIsLeastSlack(lim, ds, n - 1);
      InflowLinear(lim, ds[n - 1].gain, 0.0);
      forall i | 0 <= i <= n ensures Level(lim, ds, n) <= Slack(lim, ds, i, n) {
        if i < n { SlackStep(lim, ds, i, n - 1); } else { SlackEmpty(lim, ds, n); }
      }
      tight := if Offered(lim, ds, n - 1) == lim.capacity then n - 1 else t;
      SlackStep(lim, ds, tight, n - 1);
    }
  }

  lemma SlackEmpty(lim: Limit, ds: seq<Draw>, n: nat)
    requires n <= |ds|
    ensures Slack(lim, ds, n, n) == lim.capacity
  {
    InflowLinear(lim, 0.0, 0.0);
  }

  /** Over any stretch of requests, what is granted never exceeds the capacity plus what
      refills between the first and the last of them. */
  lemma NeverOvergrants(lim: Limit, ds: seq<Draw>, i: nat, n: nat)
    requires Sane(lim, ds) && i <= n <= |ds|
    ensures Spent(lim, ds, i, n) <= lim.capacity + Inflow(lim, Gained(ds, i + 1, n))
  {
    hide Inflow, Level, Spent, Gained;
    var _ := LevelIsLeastSlack(lim, ds, n);
    assert Slack(lim, ds, i, n) >= 0.0;
  }

  /** Granting draw `k` keeps draws `i ..= k` within the bound. */
  predicate Affordable(lim: Limit, ds: seq<Draw>, i: nat, k: nat)
    requires k < |ds|
  {
    Spent(lim, ds, i, k) + ds[k].amount <= lim.capacity + Inflow(lim, Gained(ds, i + 1, k + 1))
  }

  lemma AffordableIsSlack(lim: Limit, ds: seq<Draw>, i: nat, k: nat)
    requires i <= k < |ds|
    ensures Affordable(lim, ds, i, k) <==>
            ds[k].amount <= Slack(lim, ds, i, k) + if i < k then Inflow(lim, ds[k].gain) else 0.0
  {
    hide Inflow, Grants;
    InflowLinear(lim, Gained(ds, i + 1, k), ds[k].gain);
  }

  /** And a request is refused only then: it is granted exactly when no stretch ending
      with it would exceed that bound. */
  lemma GrantsExactly(lim: Limit, ds: seq<Draw>, k: nat)
    requires Sane(lim, ds) && k < |ds|
    ensures Grants(lim, ds, k) <==> forall i :: 0 <= i <= k ==> Affordable(lim, ds, i, k)
  {
    hide Inflow, Level, Slack, Affordable;
    var t := LevelIsLeastSlack(lim, ds, k);
    InflowLinear(lim, ds[k].gain, 0.0);
    AffordableIsSlack(lim, ds, t, k);
    AffordableIsSlack(lim, ds, k, k);
    SlackEmpty(lim, ds, k);
    assert Offered(lim, ds, k) == Min(lim.capacity, Level(lim, ds, k) + Inflow(lim, ds[k].gain));
    assert Grants(lim, ds, k) <==> Offered(lim, ds, k) >= ds[k].amount;
    if Grants(lim, ds, k) {
      forall i | 0 <= i <= k ensures Affordable(lim, ds, i, k) {
        AffordableIsSlack(lim, ds, i, k);
      }
    } else {
      assert !Affordable(lim, ds, t, k) || !Affordable(lim, ds, k, k);
    }
  }
}
