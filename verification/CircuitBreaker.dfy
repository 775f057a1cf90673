/** The gateway's sliding-window circuit breaker, one step at a time and over whole
    call sequences. */
module CircuitBreakers {
  import opened Types

  datatype Config = Config(
    windowSeconds: real, minRequests: int, failureRate: real, openSeconds: real, halfOpenMaxCalls: int)

  datatype State = Closed | Open | HalfOpen

  datatype Sample = Sample(t: real, ok: bool)

  datatype Breaker = Breaker(state: State, events: seq<Sample>, openedAt: Option<real>, probes: int)

  const NEW_BREAKER := Breaker(Closed, [], None, 0)

  function Prune(evs: seq<Sample>, cutoff: real): (r: seq<Sample>) {
    if evs == [] then []
    else
      var r := Prune(evs[..|evs| - 1], cutoff);
      if evs[|evs| - 1].t >= cutoff then r + [evs[|evs| - 1]] else r
  }

  function Failures(evs: seq<Sample>): (n: nat)
    ensures n <= |evs|
  {
    if evs == [] then 0 else Failures(evs[..|evs| - 1]) + if evs[|evs| - 1].ok then 0 else 1
  }

  function Rate(evs: seq<Sample>): real {
    if |evs| == 0 then 0.0 else Failures(evs) as real / |evs| as real
  }

  /** The failure count is the number of failed samples. */
  lemma {:induction false} FailuresCounts(evs: seq<Sample>)
    ensures Failures(evs) == |set i | 0 <= i < |evs| && !evs[i].ok|
  {
    if evs != [] {
      var n := |evs| - 1;
      FailuresCounts(evs[..n]);
      var before := set i | 0 <= i < n && !evs[..n][i].ok;
      assert (set i | 0 <= i < |evs| && !evs[i].ok) == before + if evs[n].ok then {} else {n};
    }
  }

  /** The failure share is what its name says: times the number of samples, it is the
      number of those that failed. */
  lemma RateIsShare(evs: seq<Sample>)
    ensures Rate(evs) * |evs| as real == |set i | 0 <= i < |evs| && !evs[i].ok| as real
    ensures |evs| == 0 ==> Rate(evs) == 0.0
  {
    FailuresCounts(evs);
  }

  /** Whether a call may go upstream. */
  function AllowStep(cfg: Config, b: Breaker, now: real): (Breaker, bool)
    requires b.state.Open? ==> b.openedAt.Some?
  {
    if b.state == Closed then (b, true)
    else if b.state == Open && now - b.openedAt.value < cfg.openSeconds then (b, false)
    else
      var h := if b.state == Open then b.(state := HalfOpen, probes := 0) else b;
      if h.probes >= cfg.halfOpenMaxCalls then (h, false) else (h.(probes := h.probes + 1), true)
  }

  function Released(probes: int): int { if probes - 1 > 0 then probes - 1 else 0 }

  function SuccessStep(cfg: Config, b: Breaker, now: real): Breaker {
    if b.state == HalfOpen then Breaker(Closed, [], None, Released(b.probes))
    else b.(events := Prune(b.events + [Sample(now, true)], now - cfg.windowSeconds), probes := Released(b.probes))
  }

  function FailureStep(cfg: Config, b: Breaker, now: real): Breaker {
    if b.state == HalfOpen then b.(state := Open, openedAt := Some(now), probes := Released(b.probes))
    else
      var evs := Prune(b.events + [Sample(now, false)], now - cfg.windowSeconds);
      if b.state == Closed && |evs| >= cfg.minRequests && Rate(evs) >= cfg.failureRate
      then Breaker(Open, evs, Some(now), Released(b.probes))
      else b.(events := evs, probes := Released(b.probes))
  }

  class CircuitBreaker {
    const cfg: Config
    var state: State
    var events: seq<Sample>
    var openedAt: Option<real>
    var probes: int

    ghost predicate Valid()
      reads this
    {
      state.Open? ==> openedAt.Some?
    }

    ghost function Model(): Breaker
      reads this
    {
      Breaker(state, events, openedAt, probes)
    }

    constructor (cfg: Config)
      ensures this.cfg == cfg && Model() == NEW_BREAKER && Valid()
    {
      this.cfg, state, events, openedAt, probes := cfg, Closed, [], None, 0;
    }

    method PruneAndRate(now: real) returns (total: int, rate: real)
      modifies this`events
      ensures events == Prune(old(events), now - cfg.windowSeconds) && total == |events| && rate == Rate(events)
      ensures rate * total as real == |set i | 0 <= i < |events| && !events[i].ok| as real && (total == 0 ==> rate == 0.0)
    {
      RateIsShare(Prune(events, now - cfg.windowSeconds));
      events := Prune(events, now - cfg.windowSeconds);
      total := |events|;
      if total == 0 {
        return 0, 0.0;
      }
      rate := Failures(events) as real / total as real;
    }

    method Allow(now: real) returns (allowed: bool)
      requires Valid()
      modifies this
      ensures Valid() && (Model(), allowed) == AllowStep(cfg, old(Model()), now)
    {
      if state == Closed {
        return true;
      }
      if state == Open {
        if now - openedAt.value >= cfg.openSeconds {
          state, probes := HalfOpen, 0;
        } else {
          return false;
        }
      }
      if probes >= cfg.halfOpenMaxCalls {
        return false;
      }
      probes := probes + 1;
      return true;
    }

    method RecordSuccess(now: real)
      requires Valid()
      modifies this
      ensures Valid() && Model() == SuccessStep(cfg, old(Model()), now)
    {
      if state == HalfOpen {
        state, openedAt, events := Closed, None, [];
      } else {
        events := events + [Sample(now, true)];
        var _, _ := PruneAndRate(now);
      }
      probes := if probes - 1 > 0 then probes - 1 else 0;
    }

    method RecordFailure(now: real)
      requires Valid()
      modifies this
      ensures Valid() && Model() == FailureStep(cfg, old(Model()), now)
    {
      if state == HalfOpen {
        state, openedAt := Open, Some(now);
      } else {
        events := events + [Sample(now, false)];
        var total, rate := PruneAndRate(now);
        if state == Closed && total >= cfg.minRequests && rate >= cfg.failureRate {
          state, openedAt := Open, Some(now);
        }
      }
      probes := if probes - 1 > 0 then probes - 1 else 0;
    }
  }

  // ------------------------------------------------------------------
  // Whole call sequences
  // ------------------------------------------------------------------

  datatype Kind = Allow | Success | Failure

  /** Calls arrive in any order and number: nothing ties a result to an admission. */
  datatype Call = Call(kind: Kind, now: real)

  /** The clock is monotonic. */
  predicate Timed(cs: seq<Call>) {
    forall i, j :: 0 <= i <= j < |cs| ==> cs[i].now <= cs[j].now
  }

  /** The breaker after the first `n` calls. */
  function At(cfg: Config, cs: seq<Call>, n: nat): (b: Breaker)
    requires n <= |cs|
    ensures b.state.Open? ==> b.openedAt.Some?
  {
    if n == 0 then NEW_BREAKER
    else
      var b := At(cfg, cs, n - 1);
      match cs[n - 1].kind
      case Allow => AllowStep(cfg, b, cs[n - 1].now).0
      case Success => SuccessStep(cfg, b, cs[n - 1].now)
      case Failure => FailureStep(cfg, b, cs[n - 1].now)
  }

  predicate Admits(cfg: Config, cs: seq<Call>, k: nat)
    requires k < |cs|
  {
    cs[k].kind == Allow && AllowStep(cfg, At(cfg, cs, k), cs[k].now).1
  }

  /** Every outcome recorded outside HALF_OPEN since the last recovery, never pruned. */
  function Recorded(cfg: Config, cs: seq<Call>, n: nat): seq<Sample>
    requires n <= |cs|
  {
    if n == 0 then []
    else
      var r, c := Recorded(cfg, cs, n - 1), cs[n - 1];
      if c.kind == Allow then r
      else if At(cfg, cs, n - 1).state == HalfOpen then (if c.kind == Success then [] else r)
      else r + [Sample(c.now, c.kind == Success)]
  }

  /** What of `evs` lies within the window that ends with its last sample. */
  function Window(cfg: Config, evs: seq<Sample>): seq<Sample> {
    if evs == [] then [] else Prune(evs, evs[|evs| - 1].t - cfg.windowSeconds)
  }

  lemma {:induction false} PruneTwice(evs: seq<Sample>, a: real, b: real)
    requires a <= b
    ensures Prune(Prune(evs, a), b) == Prune(evs, b)
  {
    if evs != [] {
      var r := Prune(evs[..|evs| - 1], a);
      PruneTwice(evs[..|evs| - 1], a, b);
      if evs[|evs| - 1].t >= a { assert (r + [evs[|evs| - 1]])[..|r|] == r; }
    }
  }

  lemma PruneNext(evs: seq<Sample>, s: Sample, a: real, b: real)
    requires a <= b
    ensures Prune(Prune(evs, a) + [s], b) == Prune(evs + [s], b)
  {
    assert (Prune(evs, a) + [s])[..|Prune(evs, a)|] == Prune(evs, a);
    assert (evs + [s])[..|evs|] == evs;
    PruneTwice(evs, a, b);
  }

  lemma {:induction false} RecordedInPast(cfg: Config, cs: seq<Call>, n: nat)
    requires Timed(cs) && n <= |cs|
    ensures forall s :: s in Recorded(cfg, cs, n) ==> exists i :: 0 <= i < n && cs[i].now == s.t
  {
    if n > 0 {
      RecordedInPast(cfg, cs, n - 1);
      assert cs[n - 1].now == Sample(cs[n - 1].now, cs[n - 1].kind == Success).t;
    }
  }

  /** How one call changes the list of samples. */
  lemma EventsNext(cfg: Config, cs: seq<Call>, n: nat)
    requires n < |cs|
    ensures var b, b', c := At(cfg, cs, n), At(cfg, cs, n + 1), cs[n];
            && (c.kind == Allow ==> b'.events == b.events)
            && (c.kind != Allow && b.state == HalfOpen ==> b'.events == if c.kind == Success then [] else b.events)
            && (c.kind != Allow && b.state != HalfOpen ==>
                  b'.events == Prune(b.events + [Sample(c.now, c.kind == Success)], c.now - cfg.windowSeconds))
  {
    hide Prune, Rate;
  }

  /** The pruned list is exactly the window of everything recorded since the last clear:
      pruning on every record never loses a sample a later window still needs. */
  lemma {:induction false} EventsAreWindow(cfg: Config, cs: seq<Call>, n: nat)
    requires Timed(cs) && n <= |cs|
    ensures At(cfg, cs, n).events == Window(cfg, Recorded(cfg, cs, n))
  {
    hide Prune, AllowStep, SuccessStep, FailureStep;
    if n > 0 {
      EventsAreWindow(cfg, cs, n - 1);
      RecordedInPast(cfg, cs, n - 1);
      EventsNext(cfg, cs, n - 1);
      var r, c := Recorded(cfg, cs, n - 1), cs[n - 1];
      if c.kind != Allow && At(cfg, cs, n - 1).state != HalfOpen {
        var s := Sample(c.now, c.kind == Success);
        assert [] + [s] == [s];
        if r != [] {
          assert r[|r| - 1] in r;
          PruneNext(r, s, r[|r| - 1].t - cfg.windowSeconds, c.now - cfg.windowSeconds);
        }
      }
    }
  }

  /** `evs` splits at `p` into samples before `cutoff` and samples from `cutoff` on. */
  ghost predicate SplitsAt(evs: seq<Sample>, cutoff: real, p: nat) {
    && p <= |evs|
    && (forall i :: 0 <= i < p ==> evs[i].t < cutoff)
    && (forall i :: p <= i < |evs| ==> evs[i].t >= cutoff)
  }

  ghost predicate InOrder(evs: seq<Sample>) {
    forall i, j :: 0 <= i <= j < |evs| ==> evs[i].t <= evs[j].t
  }

  lemma PruneUnfold(evs: seq<Sample>, cutoff: real)
    ensures Prune([], cutoff) == []
    ensures evs != [] ==>
              var r, last := Prune(evs[..|evs| - 1], cutoff), evs[|evs| - 1];
              Prune(evs, cutoff) == if last.t >= cutoff then r + [last] else r
  {
  }

  /** A sample within the window keeps the split where it is. */
  lemma SplitKeeps(front: seq<Sample>, last: Sample, cutoff: real, p: nat)
    requires SplitsAt(front, cutoff, p) && last.t >= cutoff
    ensures SplitsAt(front + [last], cutoff, p) && (front + [last])[p..] == front[p..] + [last]
  {
  }

  /** A sample older than the window leaves nothing that is not. */
  lemma SplitEnds(front: seq<Sample>, last: Sample, cutoff: real, p: nat)
    requires SplitsAt(front, cutoff, p) && last.t < cutoff
    requires forall i :: 0 <= i < |front| ==> front[i].t <= last.t
    ensures SplitsAt(front + [last], cutoff, |front| + 1) && front[p..] == []
  {
    assert front != [] ==> front[|front| - 1].t <= last.t;
  }

  lemma {:induction false} PruneIsSuffix(evs: seq<Sample>, cutoff: real) returns (p: nat)
    requires InOrder(evs)
    ensures SplitsAt(evs, cutoff, p) && Prune(evs, cutoff) == evs[p..]
  {
    hide Prune, SplitsAt;
    PruneUnfold(evs, cutoff);
    if evs == [] {
      p := 0;
      SplitsNothing(cutoff);
    } else {
      var front, last := evs[..|evs| - 1], evs[|evs| - 1];
      assert evs == front + [last];
      p := PruneIsSuffix(front, cutoff);
      if last.t >= cutoff {
        SplitKeeps(front, last, cutoff, p);
      } else {
        SplitEnds(front, last, cutoff, p);
        p := |evs|;
      }
    }
  }

  lemma SplitsNothing(cutoff: real)
    ensures SplitsAt([], cutoff, 0)
  {
  }

  lemma {:induction false} RecordedInOrder(cfg: Config, cs: seq<Call>, n: nat)
    requires Timed(cs) && n <= |cs|
    ensures InOrder(Recorded(cfg, cs, n))
  {
    hide At;
    if n > 0 {
      RecordedInOrder(cfg, cs, n - 1);
      RecordedInPast(cfg, cs, n - 1);
      var r := Recorded(cfg, cs, n - 1);
      forall i | 0 <= i < |r| ensures r[i].t <= cs[n - 1].now { assert r[i] in r; }
      var s, r' := Sample(cs[n - 1].now, cs[n - 1].kind == Success), Recorded(cfg, cs, n);
      assert r' == r || r' == [] || r' == r + [s];
    }
  }

  /** So what the breaker keeps is the recent end of the record: it drops the samples
      older than the window, counted from the newest, and no other. */
  lemma KeepsRecentExactly(cfg: Config, cs: seq<Call>, n: nat) returns (p: nat)
    requires Timed(cs) && n <= |cs|
    ensures var r := Recorded(cfg, cs, n);
            && p <= |r| && At(cfg, cs, n).events == r[p..]
            && (r != [] ==> SplitsAt(r, r[|r| - 1].t - cfg.windowSeconds, p))
  {
    hide At, Prune, Recorded;
    var r := Recorded(cfg, cs, n);
    EventsAreWindow(cfg, cs, n);
    RecordedInOrder(cfg, cs, n);
    p := 0;
    if r != [] { p := PruneIsSuffix(r, r[|r| - 1].t - cfg.windowSeconds); }
  }

  lemma TripsByRate(cfg: Config, cs: seq<Call>, k: nat)
    requires Timed(cs) && k < |cs| && At(cfg, cs, k).state == Closed
    ensures var w := Window(cfg, Recorded(cfg, cs, k + 1));
            var b := At(cfg, cs, k + 1);
            && (b.state == Open || b.state == Closed)
            && (b.state == Open <==>
                  cs[k].kind == Failure && |w| >= cfg.minRequests && Rate(w) >= cfg.failureRate)
            && (b.state == Open ==> b.openedAt == Some(cs[k].now))
  {
    hide Rate, Failures, Prune;
    EventsAreWindow(cfg, cs, k + 1);
  }

  /** The share of failed samples reaches the threshold; of no samples it is 0. */
  ghost predicate FailedEnough(cfg: Config, w: seq<Sample>) {
    if |w| == 0 then cfg.failureRate <= 0.0
    else |set i | 0 <= i < |w| && !w[i].ok| as real >= cfg.failureRate * |w| as real
  }

  /** CLOSED trips exactly on a failure whose window, itself included, meets both
      thresholds, and leaves CLOSED in no other way. */
  lemma TripsExactly(cfg: Config, cs: seq<Call>, k: nat)
    requires Timed(cs) && k < |cs| && At(cfg, cs, k).state == Closed
    ensures var w := Window(cfg, Recorded(cfg, cs, k + 1));
            var b := At(cfg, cs, k + 1);
            && (b.state == Open || b.state == Closed)
            && (b.state == Open <==>
                  && cs[k].kind == Failure && |w| >= cfg.minRequests
                  && if |w| == 0 then cfg.failureRate <= 0.0
                     else |set i | 0 <= i < |w| && !w[i].ok| as real >= cfg.failureRate * |w| as real)
            && (b.state == Open ==> b.openedAt == Some(cs[k].now))
  {
    hide At, Rate, Failures, Prune, Window, Recorded, Timed;
    TripsByRate(cfg, cs, k);
    ShareReaches(cfg, Window(cfg, Recorded(cfg, cs, k + 1)));
  }

  lemma ShareReaches(cfg: Config, w: seq<Sample>)
    ensures Rate(w) >= cfg.failureRate <==> FailedEnough(cfg, w)
  {
    RateIsShare(w);
    hide Rate, Times;
    if |w| > 0 {
      Scaled(Rate(w), cfg.failureRate, |w| as real);
      TimesIs(Rate(w), |w| as real);
      TimesIs(cfg.failureRate, |w| as real);
    }
  }

  function Times(x: real, n: real): real { x * n }

  lemma TimesDiffers(a: real, b: real, n: real)
    ensures Times(a, n) - Times(b, n) == Times(a - b, n)
  {
  }

  lemma TimesPositive(d: real, n: real)
    requires d > 0.0 && n > 0.0
    ensures Times(d, n) > 0.0
  {
  }

  /** Scaling by a positive number keeps order. */
  lemma Scaled(a: real, b: real, n: real)
    requires n > 0.0
    ensures a >= b <==> Times(a, n) >= Times(b, n)
  {
    hide Times;
    TimesDiffers(a, b, n);
    TimesDiffers(b, a, n);
    if a > b { TimesPositive(a - b, n); }
    if b > a { TimesPositive(b - a, n); }
  }

  lemma TimesIs(x: real, n: real)
    ensures Times(x, n) == x * n
  {
  }

  /** A closed breaker admits every request and records nothing for it. */
  lemma ClosedAdmits(cfg: Config, cs: seq<Call>, k: nat)
    requires k < |cs| && At(cfg, cs, k).state == Closed && cs[k].kind == Allow
    ensures Admits(cfg, cs, k) && At(cfg, cs, k + 1) == At(cfg, cs, k)
  {
  }

  /** Once open, the breaker stays open and admits nothing until `openSeconds` have
      passed, whatever results still come in. */
  lemma {:induction false} OpenHolds(cfg: Config, cs: seq<Call>, n: nat, m: nat)
    requires n <= m <= |cs| && At(cfg, cs, n).state == Open
    requires forall k :: n <= k < m ==> cs[k].now < At(cfg, cs, n).openedAt.value + cfg.openSeconds
    ensures At(cfg, cs, m).state == Open && At(cfg, cs, m).openedAt == At(cfg, cs, n).openedAt
    ensures forall k :: n <= k < m ==> !Admits(cfg, cs, k)
    decreases m
  {
    hide At, Admits;
    if n < m {
      OpenHolds(cfg, cs, n, m - 1);
      OpenStays(cfg, cs, m - 1);
    }
  }

  /** The first Allow after that opens a HALF_OPEN episode. */
  lemma OpenEnds(cfg: Config, cs: seq<Call>, k: nat)
    requires k < |cs| && At(cfg, cs, k).state == Open && cs[k].kind == Allow
    ensures At(cfg, cs, k + 1).state == HalfOpen <==>
            cs[k].now - At(cfg, cs, k).openedAt.value >= cfg.openSeconds
    ensures At(cfg, cs, k + 1).state == HalfOpen || (At(cfg, cs, k + 1) == At(cfg, cs, k) && !Admits(cfg, cs, k))
  {
  }

  /** No result moves an open breaker, and neither does a request before the deadline. */
  lemma OpenStays(cfg: Config, cs: seq<Call>, k: nat)
    requires k < |cs| && At(cfg, cs, k).state == Open
    requires cs[k].kind == Allow ==> cs[k].now < At(cfg, cs, k).openedAt.value + cfg.openSeconds
    ensures At(cfg, cs, k + 1).state == Open && At(cfg, cs, k + 1).openedAt == At(cfg, cs, k).openedAt
    ensures !Admits(cfg, cs, k)
  {
    hide Prune, Rate;
  }

  /** `i` is the first request at or after `from` that comes at `deadline` or later. */
  predicate FirstLate(cs: seq<Call>, from: nat, i: nat, deadline: real) {
    && from <= i < |cs| && cs[i].kind == Allow && cs[i].now >= deadline
    && forall k :: from <= k < i && cs[k].kind == Allow ==> cs[k].now < deadline
  }

  lemma ProbeAdmitted(cfg: Config, cs: seq<Call>, i: nat)
    requires cfg.halfOpenMaxCalls >= 1 && i < |cs| && cs[i].kind == Allow && At(cfg, cs, i).state == Open
    requires cs[i].now >= At(cfg, cs, i).openedAt.value + cfg.openSeconds
    ensures Admits(cfg, cs, i) && Episode(cfg, cs, i, i + 1)
  {
    hide Prune, Rate, SuccessStep, FailureStep;
    assert At(cfg, cs, i + 1) == AllowStep(cfg, At(cfg, cs, i), cs[i].now).0;
  }

  /** After tripping, the first request that comes `openSeconds` or later is admitted as a
      probe and opens the HALF_OPEN episode, and no request before it is admitted. */
  lemma {:induction false} FirstProbe(cfg: Config, cs: seq<Call>, n: nat, i: nat)
    requires cfg.halfOpenMaxCalls >= 1 && n <= i < |cs| && At(cfg, cs, n).state == Open
    requires FirstLate(cs, n, i, At(cfg, cs, n).openedAt.value + cfg.openSeconds)
    ensures Admits(cfg, cs, i) && Episode(cfg, cs, i, i + 1)
    ensures forall k :: n <= k < i ==> !Admits(cfg, cs, k)
    decreases i - n
  {
    hide At, Admits, Episode;
    if n < i {
      OpenStays(cfg, cs, n);
      FirstProbe(cfg, cs, n + 1, i);
    } else {
      ProbeAdmitted(cfg, cs, i);
    }
  }

  lemma {:induction false} RecordSince(cfg: Config, cs: seq<Call>, k: nat, n: nat)
    requires k < n <= |cs| && At(cfg, cs, k).state == HalfOpen && cs[k].kind == Success
    ensures |Recorded(cfg, cs, n)| <= n - k - 1
    decreases n
  {
    hide At;
    if n == k + 1 { assert Recorded(cfg, cs, n) == []; } else { RecordSince(cfg, cs, k, n - 1); }
  }

  lemma {:induction false} PruneShrinks(evs: seq<Sample>, cutoff: real)
    ensures |Prune(evs, cutoff)| <= |evs|
  {
    if evs != [] { PruneShrinks(evs[..|evs| - 1], cutoff); }
  }

  /** Failures from before a recovery never trip the breaker again: after a successful probe
      at call `k` it takes at least `minRequests` further calls. */
  lemma RecoveryForgets(cfg: Config, cs: seq<Call>, k: nat, j: nat)
    requires Timed(cs) && k < j < |cs| && At(cfg, cs, k).state == HalfOpen && cs[k].kind == Success
    requires At(cfg, cs, j).state == Closed && At(cfg, cs, j + 1).state == Open
    ensures j - k >= cfg.minRequests
  {
    hide At, Prune;
    TripsExactly(cfg, cs, j);
    RecordSince(cfg, cs, k, j + 1);
    var r := Recorded(cfg, cs, j + 1);
    if r != [] { PruneShrinks(r, r[|r| - 1].t - cfg.windowSeconds); }
  }

  /** Calls admitted among `i .. n`. */
  function Admitted(cfg: Config, cs: seq<Call>, i: nat, n: nat): nat
    requires n <= |cs|
    decreases n
  {
    if n <= i then 0 else Admitted(cfg, cs, i, n - 1) + if Admits(cfg, cs, n - 1) then 1 else 0
  }

  /** Call `i` opens a HALF_OPEN episode that lasts at least up to call `n`. */
  predicate Episode(cfg: Config, cs: seq<Call>, i: nat, n: nat)
    requires i < n <= |cs|
  {
    At(cfg, cs, i).state == Open && forall k :: i < k <= n ==> At(cfg, cs, k).state == HalfOpen
  }

  /** The first result of any request, late or not, ends the episode: a success recovers
      with an empty window, a failure opens again and restarts the timer. */
  lemma EpisodeEnds(cfg: Config, cs: seq<Call>, k: nat)
    requires k < |cs| && At(cfg, cs, k).state == HalfOpen && cs[k].kind != Allow
    ensures var b := At(cfg, cs, k + 1);
            if cs[k].kind == Success then b.state == Closed && b.events == [] && b.openedAt == None && Recorded(cfg, cs, k + 1) == []
            else b.state == Open && b.openedAt == Some(cs[k].now) && b.events == At(cfg, cs, k).events
  {
  }

  /** How a call can lead to HALF_OPEN: only an Allow, taking a slot if one is left. */
  lemma IntoHalfOpen(cfg: Config, cs: seq<Call>, k: nat)
    requires k < |cs| && At(cfg, cs, k + 1).state == HalfOpen && cfg.halfOpenMaxCalls >= 1
    ensures var b, b' := At(cfg, cs, k), At(cfg, cs, k + 1);
            var used := if b.state == HalfOpen then b.probes else 0;
            && b.state != Closed && cs[k].kind == Allow
            && (Admits(cfg, cs, k) <==> used < cfg.halfOpenMaxCalls)
            && b'.probes == used + if Admits(cfg, cs, k) then 1 else 0
  {
    hide Prune, Rate;
  }

  /** One HALF_OPEN episode admits at most `halfOpenMaxCalls` requests: late results of
      earlier episodes never free a slot within it. */
  lemma {:induction false} EpisodeAdmits(cfg: Config, cs: seq<Call>, i: nat, n: nat)
    requires cfg.halfOpenMaxCalls >= 1 && i < n <= |cs| && Episode(cfg, cs, i, n)
    ensures Admitted(cfg, cs, i, n) == At(cfg, cs, n).probes <= cfg.halfOpenMaxCalls
    decreases n
  {
    hide At, Admits;
    assert At(cfg, cs, n).state == HalfOpen;
    IntoHalfOpen(cfg, cs, n - 1);
    if n == i + 1 {
      assert Admitted(cfg, cs, i, i) == 0;
    } else {
      assert At(cfg, cs, n - 1).state == HalfOpen;
      EpisodeAdmits(cfg, cs, i, n - 1);
    }
  }

  /** And it refuses a request only once it has admitted that many. */
  lemma EpisodeRefusesWhenFull(cfg: Config, cs: seq<Call>, i: nat, n: nat, k: nat)
    requires cfg.halfOpenMaxCalls >= 1 && i < n <= |cs| && Episode(cfg, cs, i, n) && i <= k < n
    ensures cs[k].kind == Allow
    ensures Admits(cfg, cs, k) <==> Admitted(cfg, cs, i, k) < cfg.halfOpenMaxCalls
  {
    hide At, Admits;
    assert At(cfg, cs, k + 1).state == HalfOpen;
    IntoHalfOpen(cfg, cs, k);
    if i < k {
      assert At(cfg, cs, k).state == HalfOpen;
      EpisodeAdmits(cfg, cs, i, k);
    }
  }
}
