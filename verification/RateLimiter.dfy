// The per-tenant token bucket on upstream fetches.
//
// Tokens and times are reals, times in seconds on a clock that never runs backwards.
module RateLimiter {
  import opened Wrappers

  datatype Bucket = Bucket(tokens: real, lastRefill: real)

  function Min(a: real, b: real): real {
    if a <= b then a else b
  }

  // The tokens earned from time s to time t.
  function Earned(rpm: nat, s: real, t: real): real {
    (t - s) * rpm as real / 60.0
  }

  // The tokens in the bucket at time `now`; a tenant's first call finds it full.
  function Level(b: Option<Bucket>, rpm: nat, now: real): real {
    match b
    case None => rpm as real
    case Some(b) => Min(rpm as real, b.tokens + Earned(rpm, b.lastRefill, now))
  }

  // One call: the bucket afterwards and whether the call is admitted.
  function Call(b: Option<Bucket>, rpm: nat, now: real): (Bucket, bool) {
    var level := Level(b, rpm, now);
    if level < 1.0 then (Bucket(level, now), false) else (Bucket(level - 1.0, now), true)
  }

  class RateLimiter {
    var buckets: map<int, Bucket>
    const rpm: nat
    const capacity: nat

    ghost predicate Valid() {
      rpm == capacity > 0
    }

    constructor (rpm: int)
      ensures Valid() && this.rpm == (if rpm > 0 then rpm else 60) && buckets == map[]
    {
      var r := if rpm <= 0 then 60 else rpm;
      buckets := map[];
      this.rpm := r;
      capacity := r;
    }

    function Of(tenant: int): Option<Bucket>
      reads this
    {
      if tenant in buckets then Some(buckets[tenant]) else None
    }

    method Allow(tenant: int, now: real) returns (ok: bool)
      requires Valid()
      modifies this
      ensures var (b, admitted) := Call(old(Of(tenant)), rpm, now);
        ok == admitted && buckets == old(buckets)[tenant := b]
    {
      if tenant !in buckets {
        buckets := buckets[tenant := Bucket(capacity as real, now)];
        assert Earned(rpm, now, now) == 0.0;
      }
      var b := buckets[tenant];
      var elapsed := now - b.lastRefill;
      b := b.(tokens := b.tokens + elapsed * rpm as real / 60.0);
      assert b.tokens == buckets[tenant].tokens + Earned(rpm, b.lastRefill, now);
      if b.tokens > capacity as real {
        b := b.(tokens := capacity as real);
      }
      b := b.(lastRefill := now);
      if b.tokens < 1.0 {
        buckets := buckets[tenant := b];
        return false;
      }
      b := b.(tokens := b.tokens - 1.0);
      buckets := buckets[tenant := b];
      return true;
    }
  }

  // ---- runs over all tenants ----

  datatype Request = Request(tenant: int, at: real)

  // The buckets after a run; one per tenant seen.
  function Buckets(rpm: nat, run: seq<Request>): map<int, Bucket> {
    if run == [] then map[]
    else
      var before := Buckets(rpm, run[..|run| - 1]);
      var r := run[|run| - 1];
      before[r.tenant := Call(Lookup(before, r.tenant), rpm, r.at).0]
  }

  function Lookup(m: map<int, Bucket>, tenant: int): Option<Bucket> {
    if tenant in m then Some(m[tenant]) else None
  }

  // Whether the n-th request of the run is admitted.
  predicate Admitted(rpm: nat, run: seq<Request>, n: nat)
    requires n < |run|
  {
    Call(Lookup(Buckets(rpm, run[..n]), run[n].tenant), rpm, run[n].at).1
  }

  predicate Clocked(run: seq<Request>) {
    forall i, j :: 0 <= i < j < |run| ==> run[i].at <= run[j].at
  }

  // One tenant's share of a run.
  function Only(run: seq<Request>, tenant: int): seq<real> {
    if run == [] then []
    else
      var before := Only(run[..|run| - 1], tenant);
      if run[|run| - 1].tenant == tenant then before + [run[|run| - 1].at] else before
  }

  // ---- one tenant's calls ----

  function After(rpm: nat, times: seq<real>): Option<Bucket> {
    if times == [] then None
    else Some(Call(After(rpm, times[..|times| - 1]), rpm, times[|times| - 1]).0)
  }

  predicate Admits(rpm: nat, times: seq<real>, n: nat)
    requires n < |times|
  {
    Call(After(rpm, times[..n]), rpm, times[n]).1
  }

  predicate Ordered(times: seq<real>) {
    forall i, j :: 0 <= i < j < |times| ==> times[i] <= times[j]
  }

  // Tenants never affect each other: a request is decided as if its tenant's requests were alone.
  lemma {:induction false} TenantsAreIndependent(rpm: nat, run: seq<Request>, tenant: int)
    ensures Lookup(Buckets(rpm, run), tenant) == After(rpm, Only(run, tenant))
  {
    if run != [] {
      var before, r := run[..|run| - 1], run[|run| - 1];
      TenantsAreIndependent(rpm, before, tenant);
      var mine := Only(before, tenant);
      if r.tenant == tenant {
        assert (mine + [r.at])[..|mine|] == mine;
      }
    }
  }

  lemma DecidedAlone(rpm: nat, run: seq<Request>, n: nat)
    requires n < |run|
    ensures var mine := Only(run[..n + 1], run[n].tenant);
      mine != [] && mine[|mine| - 1] == run[n].at && Admitted(rpm, run, n) == Admits(rpm, mine, |mine| - 1)
  {
    var tenant := run[n].tenant;
    TenantsAreIndependent(rpm, run[..n], tenant);
    assert run[..n + 1][..n] == run[..n];
    var mine := Only(run[..n + 1], tenant);
    assert mine[..|mine| - 1] == Only(run[..n], tenant);
  }

  // ---- arithmetic of refills ----

  lemma EarnedAddsUp(rpm: nat, s: real, t: real, u: real)
    ensures Earned(rpm, s, t) + Earned(rpm, t, u) == Earned(rpm, s, u)
  {
    var r := rpm as real;
    assert (t - s) * r + (u - t) * r == (u - s) * r;
  }

  lemma EarnedGrows(rpm: nat, s: real, t: real)
    requires s <= t
    ensures Earned(rpm, s, t) >= 0.0
  {
    assert (t - s) * rpm as real >= 0.0;
  }

  lemma EarnedOne(rpm: nat, s: real, t: real)
    requires rpm > 0 && t - s >= 60.0 / rpm as real
    ensures Earned(rpm, s, t) >= 1.0
  {
    var r := rpm as real;
    assert (t - s) * r >= 60.0 / r * r == 60.0;
  }

  lemma EarnedWithin(rpm: nat, s: real, a: real, b: real, t: real)
    requires s <= a && b <= t
    ensures Earned(rpm, a, b) <= Earned(rpm, s, t)
  {
    EarnedAddsUp(rpm, s, a, b);
    EarnedAddsUp(rpm, s, b, t);
    EarnedGrows(rpm, s, a);
    EarnedGrows(rpm, b, t);
  }

  // ---- exactly which calls are admitted ----

  // How many of the calls numbered i to n - 1 are admitted.
  function Count(rpm: nat, times: seq<real>, i: nat, n: nat): nat
    requires n <= |times|
  {
    if n <= i then 0 else Count(rpm, times, i, n - 1) + if Admits(rpm, times, n - 1) then 1 else 0
  }

  // What the window from call i up to `now` still allows after the first n calls.
  function Slack(rpm: nat, times: seq<real>, i: nat, n: nat, now: real): real
    requires i < n <= |times|
  {
    rpm as real + (now - times[i]) * rpm as real / 60.0 - Count(rpm, times, i, n) as real
  }

  lemma LevelAfter(rpm: nat, times: seq<real>, n: nat, now: real)
    requires n < |times|
    ensures Level(After(rpm, times[..n + 1]), rpm, now)
         == Min(rpm as real,
                Level(After(rpm, times[..n]), rpm, times[n]) - (if Admits(rpm, times, n) then 1.0 else 0.0)
                  + Earned(rpm, times[n], now))
  {
    assert times[..n + 1][..n] == times[..n];
  }

  function Spent(rpm: nat, times: seq<real>, n: nat): real
    requires n < |times|
  {
    if Admits(rpm, times, n) then 1.0 else 0.0
  }

  lemma SlackAfter(rpm: nat, times: seq<real>, i: nat, n: nat, now: real)
    requires i < n < |times|
    ensures Slack(rpm, times, i, n + 1, now)
         == Slack(rpm, times, i, n, times[n]) - Spent(rpm, times, n) + Earned(rpm, times[n], now)
  {
    EarnedAddsUp(rpm, times[i], times[n], now);
  }

  // The bucket level is the capacity or the slack of some window starting at an earlier call,
  // whichever is least.
  ghost predicate LeastSlack(rpm: nat, times: seq<real>, n: nat, now: real, level: real, i: nat)
    requires n <= |times|
  {
    && level <= rpm as real
    && (forall j :: 0 <= j < n ==> level <= Slack(rpm, times, j, n, now))
    && (level == rpm as real || (i < n && level == Slack(rpm, times, i, n, now)))
  }

  lemma {:induction false} LevelIsLeastSlack(rpm: nat, times: seq<real>, n: nat, now: real) returns (i: nat)
    requires n <= |times|
    ensures LeastSlack(rpm, times, n, now, Level(After(rpm, times[..n]), rpm, now), i)
  {
    i := 0;
    if n > 0 {
      var u := times[n - 1];
      var level := Level(After(rpm, times[..n - 1]), rpm, u);
      i := LevelIsLeastSlack(rpm, times, n - 1, u);
      LevelAfter(rpm, times, n - 1, now);
      i := LeastSlackAfter(rpm, times, n - 1, now, level, i);
    }
  }

  lemma LeastSlackAfter(rpm: nat, times: seq<real>, n: nat, now: real, level: real, i: nat) returns (i': nat)
    requires n < |times| && LeastSlack(rpm, times, n, times[n], level, i)
    ensures LeastSlack(rpm, times, n + 1, now,
      Min(rpm as real, level - Spent(rpm, times, n) + Earned(rpm, times[n], now)), i')
  {
    i' := if level == rpm as real then n else i;
    var level' := Min(rpm as real, level - Spent(rpm, times, n) + Earned(rpm, times[n], now));
    assert Slack(rpm, times, n, n + 1, now) == rpm as real - Spent(rpm, times, n) + Earned(rpm, times[n], now) by {
      assert Count(rpm, times, n, n) == 0;
    }
    var n' := n + 1;
    forall j | 0 <= j < n'
      ensures level' <= Slack(rpm, times, j, n', now)
    {
      if j < n {
        SlackAfter(rpm, times, j, n, now);
      }
    }
    if i' < n {
      SlackAfter(rpm, times, i', n, now);
    }
  }

  // Admitting call n keeps the window from call i to call n within the capacity plus its refill.
  predicate WindowFits(rpm: nat, times: seq<real>, i: nat, n: nat)
    requires i < n < |times|
  {
    Count(rpm, times, i, n) as real + 1.0 <= rpm as real + (times[n] - times[i]) * rpm as real / 60.0
  }

  // A call is admitted if and only if it fits every window that starts at an earlier call of the
  // tenant: the bucket admits all that the bound allows and nothing more.
  lemma AdmittedIffEveryWindowFits(rpm: nat, times: seq<real>, n: nat)
    requires rpm > 0 && n < |times|
    ensures Admits(rpm, times, n) <==> forall i :: 0 <= i < n ==> WindowFits(rpm, times, i, n)
  {
    var i := LevelIsLeastSlack(rpm, times, n, times[n]);
    assert forall j :: 0 <= j < n ==> (WindowFits(rpm, times, j, n) <==> Slack(rpm, times, j, n, times[n]) >= 1.0);
  }

  // ---- the bound over any span of time ----

  // The calls admitted from time s to time t.
  function Between(rpm: nat, times: seq<real>, s: real, t: real): nat {
    if times == [] then 0
    else
      var n := |times| - 1;
      Between(rpm, times[..n], s, t) + if s <= times[n] <= t && Admits(rpm, times, n) then 1 else 0
  }

  lemma {:induction false} BetweenIsCount(rpm: nat, times: seq<real>, n: nat, i: nat, s: real, t: real)
    requires n <= |times|
    requires forall j :: 0 <= j < i && j < n ==> times[j] < s
    ensures Between(rpm, times[..n], s, t) <= Count(rpm, times, i, n)
  {
    if n > 0 {
      assert times[..n][..n - 1] == times[..n - 1];
      BetweenIsCount(rpm, times, n - 1, i, s, t);
    }
  }

  function FirstSince(times: seq<real>, s: real): (i: nat)
    ensures i <= |times|
    ensures forall j :: 0 <= j < i ==> times[j] < s
    ensures i < |times| ==> s <= times[i]
  {
    if times == [] || s <= times[0] then 0 else 1 + FirstSince(times[1..], s)
  }

  lemma WindowInSpan(rpm: nat, times: seq<real>, i: nat, n: nat, s: real, t: real)
    requires rpm > 0 && i < n < |times| && Admits(rpm, times, n) && s <= times[i] && times[n] <= t
    ensures Count(rpm, times, i, n) as real + 1.0 <= rpm as real + Earned(rpm, s, t)
  {
    AdmittedIffEveryWindowFits(rpm, times, n);
    assert WindowFits(rpm, times, i, n);
    EarnedWithin(rpm, s, times[i], times[n], t);
  }

  lemma {:induction false} SpanBound(rpm: nat, times: seq<real>, s: real, t: real)
    requires rpm > 0 && Ordered(times) && s <= t
    ensures Between(rpm, times, s, t) as real <= rpm as real + Earned(rpm, s, t)
  {
    EarnedGrows(rpm, s, t);
    if times != [] {
      var n := |times| - 1;
      SpanBound(rpm, times[..n], s, t);
      if s <= times[n] <= t && Admits(rpm, times, n) {
        var i := FirstSince(times, s);
        BetweenIsCount(rpm, times, n, i, s, t);
        if i < n {
          WindowInSpan(rpm, times, i, n, s, t);
        }
      }
    }
  }

  // The calls of one tenant admitted from time s to time t in a run over all tenants.
  function AdmittedBetween(rpm: nat, run: seq<Request>, tenant: int, s: real, t: real): nat {
    if run == [] then 0
    else
      var n := |run| - 1;
      AdmittedBetween(rpm, run[..n], tenant, s, t)
        + if run[n].tenant == tenant && s <= run[n].at <= t && Admitted(rpm, run, n) then 1 else 0
  }

  lemma {:induction false} OnlyMember(run: seq<Request>, tenant: int, k: nat) returns (m: nat)
    requires k < |Only(run, tenant)|
    ensures m < |run| && run[m].tenant == tenant && run[m].at == Only(run, tenant)[k]
  {
    var n := |run| - 1;
    if k < |Only(run[..n], tenant)| {
      m := OnlyMember(run[..n], tenant, k);
    } else {
      m := n;
    }
  }

  lemma {:induction false} OnlyOrdered(run: seq<Request>, tenant: int)
    requires Clocked(run)
    ensures Ordered(Only(run, tenant))
  {
    if run != [] {
      var n := |run| - 1;
      OnlyOrdered(run[..n], tenant);
      var before := Only(run[..n], tenant);
      forall k | 0 <= k < |before|
        ensures before[k] <= run[n].at
      {
        var m := OnlyMember(run[..n], tenant, k);
      }
    }
  }

  lemma {:induction false} CountedAlone(rpm: nat, run: seq<Request>, tenant: int, s: real, t: real)
    ensures AdmittedBetween(rpm, run, tenant, s, t) == Between(rpm, Only(run, tenant), s, t)
  {
    if run != [] {
      var n := |run| - 1;
      CountedAlone(rpm, run[..n], tenant, s, t);
      if run[n].tenant == tenant {
        DecidedAlone(rpm, run, n);
        assert run[..n + 1] == run;
        var mine := Only(run, tenant);
        assert mine[..|mine| - 1] == Only(run[..n], tenant);
      }
    }
  }

  // In any run and over any span of time a tenant is admitted at most one minute's requests more
  // than the span earns.
  lemma AdmittedAtMost(rpm: nat, run: seq<Request>, tenant: int, s: real, t: real)
    requires rpm > 0 && Clocked(run) && s <= t
    ensures AdmittedBetween(rpm, run, tenant, s, t) as real <= rpm as real + (t - s) * rpm as real / 60.0
  {
    CountedAlone(rpm, run, tenant, s, t);
    OnlyOrdered(run, tenant);
    SpanBound(rpm, Only(run, tenant), s, t);
  }

  // ---- spaced calls ----

  lemma {:induction false} TokensInRange(rpm: nat, times: seq<real>)
    requires rpm > 0 && Ordered(times) && times != []
    ensures var b := After(rpm, times).value;
      0.0 <= b.tokens <= rpm as real && b.lastRefill == times[|times| - 1]
  {
    var n := |times| - 1;
    if n > 0 {
      TokensInRange(rpm, times[..n]);
      EarnedGrows(rpm, times[n - 1], times[n]);
    }
  }

  // A request at least 60/rpm seconds after every earlier one of its tenant is admitted.
  lemma SpacedRequestsAreAdmitted(rpm: nat, run: seq<Request>, n: nat)
    requires rpm > 0 && Clocked(run) && n < |run|
    requires forall m :: 0 <= m < n && run[m].tenant == run[n].tenant ==> run[n].at - run[m].at >= 60.0 / rpm as real
    ensures Admitted(rpm, run, n)
  {
    DecidedAlone(rpm, run, n);
    var before := Only(run[..n], run[n].tenant);
    assert run[..n + 1][..n] == run[..n];
    var mine := Only(run[..n + 1], run[n].tenant);
    assert mine == before + [run[n].at] && mine[..|before|] == before;
    if before != [] {
      OnlyOrdered(run[..n], run[n].tenant);
      TokensInRange(rpm, before);
      var m := OnlyMember(run[..n], run[n].tenant, |before| - 1);
      EarnedOne(rpm, before[|before| - 1], run[n].at);
    }
  }

  // ---- refused calls ----

  // Two buckets that no request from time t0 on can tell apart.
  ghost predicate Alike(a: Option<Bucket>, b: Option<Bucket>, rpm: nat, t0: real) {
    forall now :: now >= t0 ==> Level(a, rpm, now) == Level(b, rpm, now)
  }

  lemma RefusalRefillsOnly(b: Option<Bucket>, rpm: nat, now: real)
    requires rpm > 0 && !Call(b, rpm, now).1
    ensures Alike(Some(Call(b, rpm, now).0), b, rpm, now)
  {
    forall u | u >= now
      ensures Level(Some(Call(b, rpm, now).0), rpm, u) == Level(b, rpm, u)
    {
      EarnedGrows(rpm, now, u);
      if b.Some? {
        EarnedAddsUp(rpm, b.value.lastRefill, now, u);
      }
    }
  }

  lemma {:induction false} LaterBucketsAlike(rpm: nat, run: seq<Request>, k: nat, n: nat, tenant: int)
    requires rpm > 0 && Clocked(run) && k < n <= |run| && !Admitted(rpm, run, k)
    ensures var shorter := run[..k] + run[k + 1..];
      Alike(Lookup(Buckets(rpm, run[..n]), tenant), Lookup(Buckets(rpm, shorter[..n - 1]), tenant), rpm, run[k].at)
  {
    var shorter := run[..k] + run[k + 1..];
    assert run[..n][..n - 1] == run[..n - 1];
    if n == k + 1 {
      assert shorter[..k] == run[..k];
      if tenant == run[k].tenant {
        RefusalRefillsOnly(Lookup(Buckets(rpm, run[..k]), tenant), rpm, run[k].at);
      }
    } else {
      LaterBucketsAlike(rpm, run, k, n - 1, tenant);
      assert shorter[..n - 1][..n - 2] == shorter[..n - 2];
      assert shorter[n - 2] == run[n - 1];
    }
  }

  // Leaving a refused request out of the run changes no other decision.
  lemma RefusedRequestsLeaveNoTrace(rpm: nat, run: seq<Request>, k: nat, n: nat)
    requires rpm > 0 && Clocked(run) && k < |run| && n < |run| && n != k && !Admitted(rpm, run, k)
    ensures var shorter := run[..k] + run[k + 1..];
      Admitted(rpm, run, n) == Admitted(rpm, shorter, if n < k then n else n - 1)
  {
    var shorter := run[..k] + run[k + 1..];
    if n < k {
      assert shorter[..n] == run[..n];
    } else {
      LaterBucketsAlike(rpm, run, k, n, run[n].tenant);
    }
  }
}
