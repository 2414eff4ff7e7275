// The supply-chain policy engine: rule selection, the evaluator chain and snapshot swapping.
//
// Evaluators are arbitrary functions that may panic. The clock, case folding and path.Match come
// from the environment; each evaluator of one chain may see a later environment.
module PolicyEngine {
  import opened Wrappers

  datatype Decision = Allow | Warn | Quarantine | Deny {
    function Rank(): nat {
      match this
      case Allow => 0
      case Warn => 1
      case Quarantine => 2
      case Deny => 3
    }
  }

  datatype Action = Ingest | Read

  datatype Outcome = Outcome(decision: Decision, reason: string, ruleID: int) {
    predicate IsBlocked() { decision.Rank() >= Quarantine.Rank() }
  }

  const ALLOWED := Outcome(Allow, "", 0)

  datatype Subject = Subject(tenantID: int, format: string, package: string, version: string, filename: string)

  datatype Rule = Rule(
    id: int, kind: string, tenantID: int, format: string, packageName: string, versionPattern: string,
    action: string, config: string, priority: int, enabled: bool, expires: int)

  // `pathMatch` gives no answer for a malformed pattern.
  datatype Env = Env(now: int, equalFold: (string, string) -> bool, pathMatch: (string, string) -> Option<bool>)

  function Specificity(r: Rule): int {
    (if r.versionPattern != "" then 16 else 0) + (if r.packageName != "" then 8 else 0)
      + (if r.tenantID != 0 then 4 else 0) + (if r.format != "" then 2 else 0)
  }

  predicate Expired(r: Rule, now: int) {
    r.expires != 0 && r.expires < now
  }

  predicate Matches(r: Rule, s: Subject, env: Env) {
    !Expired(r, env.now) && Selects(r, s, env)
  }

  // The rule's selectors apply.
  predicate Selects(r: Rule, s: Subject, env: Env) {
    && (r.tenantID != 0 ==> r.tenantID == s.tenantID)
    && (r.format != "" ==> env.equalFold(r.format, s.format))
    && (r.packageName != "" ==> r.packageName == s.package)
    && (r.versionPattern != "" ==> env.pathMatch(r.versionPattern, s.version) == Some(true))
  }

  // ---- the order of rules ----

  // sortRules' comparison: x must come before y.
  predicate Before(x: Rule, y: Rule) {
    if Specificity(x) != Specificity(y) then Specificity(x) > Specificity(y) else x.priority < y.priority
  }

  predicate Sorted(rules: seq<Rule>) {
    forall i, j :: 0 <= i < j < |rules| ==> !Before(rules[j], rules[i])
  }

  // Which selectors a rule sets, the most specific first.
  function Selectors(r: Rule): (bool, bool, bool, bool) {
    (r.versionPattern != "", r.packageName != "", r.tenantID != 0, r.format != "")
  }

  // Lexicographic comparison of selectors, a set one above an unset one, then priority.
  predicate MoreSpecific(x: Rule, y: Rule) {
    var (xv, xp, xt, xf) := Selectors(x);
    var (yv, yp, yt, yf) := Selectors(y);
    if xv != yv then xv
    else if xp != yp then xp
    else if xt != yt then xt
    else if xf != yf then xf
    else x.priority < y.priority
  }

  lemma BeforeIsLexicographic(x: Rule, y: Rule)
    ensures Before(x, y) <==> MoreSpecific(x, y)
    ensures Specificity(x) == Specificity(y) <==> Selectors(x) == Selectors(y)
  {
  }

  // ---- snapshots ----

  type Snapshot = map<string, seq<Rule>>

  function OfKind(snap: Snapshot, kind: string): seq<Rule> {
    if kind in snap then snap[kind] else []
  }

  function Filter(rules: seq<Rule>, keep: Rule -> bool): (r: seq<Rule>)
  {
    if rules == [] then []
    else Filter(rules[..|rules| - 1], keep) + if keep(rules[|rules| - 1]) then [rules[|rules| - 1]] else []
  }

  function EnabledOfKind(kind: string): Rule -> bool {
    (r: Rule) => r.enabled && r.kind == kind
  }

  function Matching(s: Subject, env: Env): Rule -> bool {
    (r: Rule) => Matches(r, s, env)
  }

  // The snapshot holds exactly the enabled rules, partitioned by kind and each part in order.
  // Rules equal in specificity and priority may stand in any order.
  ghost predicate Installs(snap: Snapshot, rules: seq<Rule>) {
    forall kind :: Sorted(OfKind(snap, kind))
      && multiset(OfKind(snap, kind)) == multiset(Filter(rules, EnabledOfKind(kind)))
  }

  // Filtering keeps the listed order.
  lemma {:induction false} FilterSplit(a: seq<Rule>, b: seq<Rule>, keep: Rule -> bool)
    ensures Filter(a + b, keep) == Filter(a, keep) + Filter(b, keep)
  {
    if b == [] {
      assert a + b == a;
    } else {
      assert (a + b)[..|a + b| - 1] == a + b[..|b| - 1];
      FilterSplit(a, b[..|b| - 1], keep);
    }
  }

  // Every rule kept is listed as often as before, and no other rule is.
  lemma {:induction false} FilterCounts(rules: seq<Rule>, keep: Rule -> bool, r: Rule)
    ensures multiset(Filter(rules, keep))[r] == if keep(r) then multiset(rules)[r] else 0
  {
    if rules != [] {
      var before, last := rules[..|rules| - 1], rules[|rules| - 1];
      FilterCounts(before, keep, r);
      assert rules == before + [last];
    }
  }

  lemma {:induction false} FilterSorted(rules: seq<Rule>, keep: Rule -> bool)
    requires Sorted(rules)
    ensures Sorted(Filter(rules, keep))
    ensures forall r :: r in Filter(rules, keep) ==> r in rules && keep(r)
  {
    if rules != [] {
      var before, last := rules[..|rules| - 1], rules[|rules| - 1];
      FilterSorted(before, keep);
      assert forall r :: r in before ==> r in rules && !Before(last, r);
    }
  }

  // What one evaluator is given.
  function Given(snap: Snapshot, kind: string, s: Subject, env: Env): seq<Rule> {
    Filter(OfKind(snap, kind), Matching(s, env))
  }

  // The rules given are exactly the enabled, unexpired rules of this kind whose set selectors fit, each as
  // often as listed, the more specific first and among equally specific ones the lower priority value first.
  ghost predicate GivenFrom(snap: Snapshot, list: seq<Rule>, kind: string, s: Subject, env: Env) {
    var given := Given(snap, kind, s, env);
    && (forall r: Rule :: multiset(given)[r] ==
          if r.enabled && r.kind == kind && (r.expires == 0 || r.expires >= env.now)
             && r.tenantID in {0, s.tenantID} && r.packageName in {"", s.package}
             && (r.format == "" || env.equalFold(r.format, s.format))
             && (r.versionPattern == "" || env.pathMatch(r.versionPattern, s.version) == Some(true))
          then multiset(list)[r] else 0)
    && forall i, j :: 0 <= i < j < |given| ==> !MoreSpecific(given[j], given[i])
  }

  lemma EvaluatorsSeeExactlyTheirRules(snap: Snapshot, rules: seq<Rule>, kind: string, s: Subject, env: Env)
    requires Installs(snap, rules)
    ensures GivenFrom(snap, rules, kind, s, env)
  {
    var mine := OfKind(snap, kind);
    var given := Given(snap, kind, s, env);
    assert Sorted(mine) && multiset(mine) == multiset(Filter(rules, EnabledOfKind(kind)));
    forall r: Rule
      ensures multiset(given)[r]
           == if r.enabled && r.kind == kind && Matches(r, s, env) then multiset(rules)[r] else 0
    {
      FilterCounts(mine, Matching(s, env), r);
      FilterCounts(rules, EnabledOfKind(kind), r);
    }
    FilterSorted(mine, Matching(s, env));
    forall i, j | 0 <= i < j < |given|
      ensures !MoreSpecific(given[j], given[i])
    {
      BeforeIsLexicographic(given[j], given[i]);
    }
  }

  // ---- the chain ----

  // `run` gives no result when the evaluator panics.
  datatype Evaluator = Evaluator(kind: string, run: (Subject, Action, seq<Rule>) -> Option<Outcome>)

  function SafeEvaluate(ev: Evaluator, s: Subject, a: Action, rules: seq<Rule>): Outcome {
    match ev.run(s, a, rules)
    case None => ALLOWED
    case Some(r) => r
  }

  // The guarded result of evaluator i.
  function Vote(evs: seq<Evaluator>, snap: Snapshot, s: Subject, a: Action, clock: nat -> Env, i: nat): Outcome
    requires i < |evs|
  {
    SafeEvaluate(evs[i], s, a, Given(snap, evs[i].kind, s, clock(i)))
  }

  function Votes(evs: seq<Evaluator>, snap: Snapshot, s: Subject, a: Action, clock: nat -> Env): seq<Outcome> {
    seq(|evs|, i requires 0 <= i < |evs| => Vote(evs, snap, s, a, clock, i))
  }

  // r is the strictest of the votes: of those above Allow the first to reach the maximum, with its
  // reason and rule, and a bare Allow when there is none.
  ghost predicate Strictest(r: Outcome, votes: seq<Outcome>) {
    && (forall i :: 0 <= i < |votes| ==> votes[i].decision.Rank() <= r.decision.Rank())
    && (if r.decision == Allow then r == ALLOWED
        else exists i :: 0 <= i < |votes| && votes[i] == r && Leads(votes, i))
  }

  ghost predicate Leads(votes: seq<Outcome>, i: nat)
    requires i < |votes|
  {
    forall j :: 0 <= j < i ==> votes[j].decision.Rank() < votes[i].decision.Rank()
  }

  // Some evaluator comes back with this decision.
  ghost predicate Says(evs: seq<Evaluator>, snap: Snapshot, s: Subject, a: Action, clock: nat -> Env, d: Decision) {
    exists i :: 0 <= i < |evs| && SaidAt(evs, snap, s, a, clock, i, d)
  }

  ghost predicate SaidAt(evs: seq<Evaluator>, snap: Snapshot, s: Subject, a: Action, clock: nat -> Env, i: nat,
                         d: Decision)
    requires i < |evs|
  {
    var said := evs[i].run(s, a, Given(snap, evs[i].kind, s, clock(i)));
    said.Some? && said.value.decision == d
  }

  lemma NothingStricterSaid(evs: seq<Evaluator>, snap: Snapshot, s: Subject, a: Action, clock: nat -> Env, r: Outcome)
    requires Strictest(r, Votes(evs, snap, s, a, clock))
    ensures forall d :: Says(evs, snap, s, a, clock, d) ==> d.Rank() <= r.decision.Rank()
    ensures r.decision != Allow ==> Says(evs, snap, s, a, clock, r.decision)
  {
    var votes := Votes(evs, snap, s, a, clock);
    forall i, d | 0 <= i < |evs| && SaidAt(evs, snap, s, a, clock, i, d)
      ensures d.Rank() <= r.decision.Rank()
    {
      assert votes[i].decision == d;
    }
    if r.decision != Allow {
      var i :| 0 <= i < |votes| && votes[i] == r && Leads(votes, i);
      assert SaidAt(evs, snap, s, a, clock, i, r.decision);
    }
  }

  // The decision is the strictest one any evaluator comes back with, and Allow if none warns or worse; an
  // evaluator that panics has no say. Quarantine and Deny block.
  lemma DecidedBy(evs: seq<Evaluator>, snap: Snapshot, s: Subject, a: Action, clock: nat -> Env, r: Outcome)
    requires Strictest(r, Votes(evs, snap, s, a, clock))
    ensures var says := d => Says(evs, snap, s, a, clock, d);
      && (r.decision == Deny <==> says(Deny))
      && (r.decision == Quarantine <==> says(Quarantine) && !says(Deny))
      && (r.decision == Warn <==> says(Warn) && !says(Quarantine) && !says(Deny))
      && (r.IsBlocked() <==> says(Quarantine) || says(Deny))
  {
    NothingStricterSaid(evs, snap, s, a, clock, r);
  }

  // The reason and the rule are those of the first evaluator that comes to the decision; Allow has neither.
  lemma ReasonIsTheFirst(evs: seq<Evaluator>, snap: Snapshot, s: Subject, a: Action, clock: nat -> Env, r: Outcome)
    requires Strictest(r, Votes(evs, snap, s, a, clock))
    ensures r.decision == Allow ==> r.reason == "" && r.ruleID == 0
    ensures r.decision != Allow ==>
      exists i :: 0 <= i < |evs| && evs[i].run(s, a, Given(snap, evs[i].kind, s, clock(i))) == Some(r) &&
        forall j :: 0 <= j < i ==> !SaidAt(evs, snap, s, a, clock, j, r.decision)
  {
    var votes := Votes(evs, snap, s, a, clock);
    if r.decision != Allow {
      var i :| 0 <= i < |votes| && votes[i] == r && Leads(votes, i);
      assert evs[i].run(s, a, Given(snap, evs[i].kind, s, clock(i))) == Some(r);
      forall j | 0 <= j < i
        ensures !SaidAt(evs, snap, s, a, clock, j, r.decision)
      {
        assert votes[j].decision.Rank() < votes[i].decision.Rank();
      }
    }
  }

  lemma StrictestIsUnique(r: Outcome, q: Outcome, votes: seq<Outcome>)
    requires Strictest(r, votes) && Strictest(q, votes)
    ensures r == q
  {
    if r.decision != Allow && q.decision != Allow {
      var i :| 0 <= i < |votes| && votes[i] == r && Leads(votes, i);
      var j :| 0 <= j < |votes| && votes[j] == q && Leads(votes, j);
    }
  }

  lemma NoStricter(r: Outcome, q: Outcome, votes: seq<Outcome>, others: seq<Outcome>)
    requires multiset(votes) == multiset(others)
    requires Strictest(r, votes) && Strictest(q, others)
    ensures r.decision.Rank() <= q.decision.Rank()
  {
    if r.decision != Allow {
      assert r in multiset(votes);
      assert r in others;
    }
  }

  // The rules an evaluator is given do not depend on when it is reached: no rule of the snapshot that
  // concerns the subject expires meanwhile.
  ghost predicate Steady(snap: Snapshot, s: Subject, clock: nat -> Env) {
    forall kind, i: nat, j: nat :: Given(snap, kind, s, clock(i)) == Given(snap, kind, s, clock(j))
  }

  function Mapped(evs: seq<Evaluator>, vote: Evaluator -> Outcome): seq<Outcome> {
    seq(|evs|, i requires 0 <= i < |evs| => vote(evs[i]))
  }

  lemma MappedSplits(a: seq<Evaluator>, b: seq<Evaluator>, vote: Evaluator -> Outcome)
    ensures Mapped(a + b, vote) == Mapped(a, vote) + Mapped(b, vote)
  {
  }

  lemma WithoutOne(es: seq<Evaluator>, l: seq<Evaluator>, e: Evaluator, r: seq<Evaluator>)
    requires multiset(es + [e]) == multiset(l + ([e] + r))
    ensures multiset(es) == multiset(l + r)
  {
    assert multiset(es + [e]) == multiset(es) + multiset{e};
    assert multiset(l + ([e] + r)) == multiset(l) + (multiset{e} + multiset(r));
    assert multiset(l + r) == multiset(l) + multiset(r);
    assert multiset(es) == (multiset(es) + multiset{e}) - multiset{e};
  }

  lemma {:induction false} MappedPermutes(es: seq<Evaluator>, fs: seq<Evaluator>, vote: Evaluator -> Outcome)
    requires multiset(es) == multiset(fs)
    ensures multiset(Mapped(es, vote)) == multiset(Mapped(fs, vote))
  {
    if es == [] {
      assert |multiset(fs)| == 0;
    } else {
      var n := |es| - 1;
      var before, e := es[..n], es[n];
      assert es == before + [e];
      assert e in multiset(fs);
      var k :| 0 <= k < |fs| && fs[k] == e;
      var l, r := fs[..k], fs[k + 1..];
      assert fs == l + ([e] + r);
      WithoutOne(before, l, e, r);
      MappedPermutes(before, l + r, vote);
      MappedSplits(before, [e], vote);
      MappedSplits(l, [e] + r, vote);
      MappedSplits([e], r, vote);
      MappedSplits(l, r, vote);
    }
  }

  function VoteOf(snap: Snapshot, s: Subject, a: Action, env: Env): Evaluator -> Outcome {
    (ev: Evaluator) => SafeEvaluate(ev, s, a, Given(snap, ev.kind, s, env))
  }

  lemma SteadyVotes(evs: seq<Evaluator>, snap: Snapshot, s: Subject, a: Action, clock: nat -> Env)
    requires Steady(snap, s, clock)
    ensures Votes(evs, snap, s, a, clock) == Mapped(evs, VoteOf(snap, s, a, clock(0)))
  {
    var votes, mapped := Votes(evs, snap, s, a, clock), Mapped(evs, VoteOf(snap, s, a, clock(0)));
    forall i | 0 <= i < |evs|
      ensures votes[i] == mapped[i]
    {
      assert Given(snap, evs[i].kind, s, clock(i)) == Given(snap, evs[i].kind, s, clock(0));
    }
  }

  // Reordering evaluators over one snapshot reorders their votes, as long as they are given the same
  // rules; so it can change the reason but not the decision.
  lemma OrderDoesNotMatter(es: seq<Evaluator>, fs: seq<Evaluator>, snap: Snapshot, s: Subject, a: Action,
                           clock: nat -> Env, r: Outcome, q: Outcome)
    requires multiset(es) == multiset(fs) && Steady(snap, s, clock)
    requires Strictest(r, Votes(es, snap, s, a, clock)) && Strictest(q, Votes(fs, snap, s, a, clock))
    ensures multiset(Votes(es, snap, s, a, clock)) == multiset(Votes(fs, snap, s, a, clock))
    ensures r.decision == q.decision && r.IsBlocked() == q.IsBlocked()
  {
    SteadyVotes(es, snap, s, a, clock);
    SteadyVotes(fs, snap, s, a, clock);
    MappedPermutes(es, fs, VoteOf(snap, s, a, clock(0)));
    NoStricter(r, q, Votes(es, snap, s, a, clock), Votes(fs, snap, s, a, clock));
    NoStricter(q, r, Votes(fs, snap, s, a, clock), Votes(es, snap, s, a, clock));
  }

  // All orders of the evaluators come to the same decision.
  ghost predicate SameDecision(es: seq<Evaluator>, fs: seq<Evaluator>, snap: Snapshot, s: Subject, a: Action,
                               clock: nat -> Env)
  {
    forall r, q :: Strictest(r, Votes(es, snap, s, a, clock)) && Strictest(q, Votes(fs, snap, s, a, clock)) ==>
      r.decision == q.decision
  }

  // Time passes, but case folding and pattern matching stay what they are.
  ghost predicate OnlyTimePasses(clock: nat -> Env) {
    forall i: nat, j: nat :: clock(i).equalFold == clock(j).equalFold && clock(i).pathMatch == clock(j).pathMatch
  }

  // No rule of the snapshot whose selectors apply is unexpired at one place in the chain and expired
  // at another.
  ghost predicate NothingExpires(snap: Snapshot, s: Subject, clock: nat -> Env) {
    forall kind, r, i: nat, j: nat :: r in OfKind(snap, kind) && Selects(r, s, clock(i)) ==>
      Expired(r, clock(i).now) == Expired(r, clock(j).now)
  }

  lemma {:induction false} FilterSame(rules: seq<Rule>, keep: Rule -> bool, also: Rule -> bool)
    requires forall r :: r in rules ==> keep(r) == also(r)
    ensures Filter(rules, keep) == Filter(rules, also)
  {
    if rules != [] {
      var before, last := rules[..|rules| - 1], rules[|rules| - 1];
      assert rules == before + [last];
      FilterSame(before, keep, also);
    }
  }

  // The rules given stay the same exactly if none that concerns the subject expires meanwhile.
  lemma SteadyIff(snap: Snapshot, s: Subject, clock: nat -> Env)
    requires OnlyTimePasses(clock)
    ensures Steady(snap, s, clock) <==> NothingExpires(snap, s, clock)
  {
    forall kind, r, i: nat, j: nat | Steady(snap, s, clock) && r in OfKind(snap, kind) && Selects(r, s, clock(i))
      ensures Expired(r, clock(i).now) == Expired(r, clock(j).now)
    {
      assert Given(snap, kind, s, clock(i)) == Given(snap, kind, s, clock(j));
      FilterCounts(OfKind(snap, kind), Matching(s, clock(i)), r);
      FilterCounts(OfKind(snap, kind), Matching(s, clock(j)), r);
    }
    if NothingExpires(snap, s, clock) {
      forall kind, i: nat, j: nat
        ensures Given(snap, kind, s, clock(i)) == Given(snap, kind, s, clock(j))
      {
        FilterSame(OfKind(snap, kind), Matching(s, clock(i)), Matching(s, clock(j)));
      }
    }
  }

  const DENIED := Outcome(Deny, "", 0)

  function Idle(kind: string): Evaluator {
    Evaluator(kind, (_, _, _) => Some(ALLOWED))
  }

  // Denies when given exactly these rules.
  function DenyOn(kind: string, seen: seq<Rule>): Evaluator {
    Evaluator(kind, (_, _, rules) => Some(if rules == seen then DENIED else ALLOWED))
  }

  // Idle evaluators with one that denies in the i-th place.
  function Lineup(n: nat, i: nat, kind: string, seen: seq<Rule>): seq<Evaluator>
    requires i < n
  {
    seq(n, _ => Idle(kind))[i := DenyOn(kind, seen)]
  }

  lemma LineupDecides(n: nat, i: nat, kind: string, seen: seq<Rule>, snap: Snapshot, s: Subject, a: Action,
                      clock: nat -> Env)
    requires i < n
    ensures Strictest(if Given(snap, kind, s, clock(i)) == seen then DENIED else ALLOWED,
                      Votes(Lineup(n, i, kind, seen), snap, s, a, clock))
  {
    var votes := Votes(Lineup(n, i, kind, seen), snap, s, a, clock);
    forall k | 0 <= k < n && k != i
      ensures votes[k] == ALLOWED
    {
      assert Lineup(n, i, kind, seen)[k] == Idle(kind);
    }
    assert votes[i] == if Given(snap, kind, s, clock(i)) == seen then DENIED else ALLOWED;
    if votes[i] == DENIED {
      assert Leads(votes, i);
    }
  }

  // If a rule expires between the i-th and the j-th evaluator, an evaluator that denies on the rules
  // of the i-th moment decides otherwise in the j-th place.
  lemma AMovingClockMatters(snap: Snapshot, s: Subject, a: Action, clock: nat -> Env, kind: string, i: nat, j: nat)
    returns (es: seq<Evaluator>, fs: seq<Evaluator>)
    requires Given(snap, kind, s, clock(i)) != Given(snap, kind, s, clock(j))
    ensures multiset(es) == multiset(fs) && !SameDecision(es, fs, snap, s, a, clock)
  {
    var n, seen := if i < j then j + 1 else i + 1, Given(snap, kind, s, clock(i));
    es, fs := Lineup(n, i, kind, seen), Lineup(n, j, kind, seen);
    LineupDecides(n, i, kind, seen, snap, s, a, clock);
    LineupDecides(n, j, kind, seen, snap, s, a, clock);
  }

  // The order of evaluators never matters to the decision if and only if the rules they are given
  // stay the same while they are evaluated.
  lemma OrderNeverMattersIff(snap: Snapshot, s: Subject, a: Action, clock: nat -> Env)
    ensures Steady(snap, s, clock)
       <==> forall es, fs :: multiset(es) == multiset(fs) ==> SameDecision(es, fs, snap, s, a, clock)
  {
    if Steady(snap, s, clock) {
      forall es, fs | multiset(es) == multiset(fs)
        ensures SameDecision(es, fs, snap, s, a, clock)
      {
        forall r, q | Strictest(r, Votes(es, snap, s, a, clock)) && Strictest(q, Votes(fs, snap, s, a, clock))
          ensures r.decision == q.decision
        {
          OrderDoesNotMatter(es, fs, snap, s, a, clock, r, q);
        }
      }
    } else {
      var kind, i: nat, j: nat :| Given(snap, kind, s, clock(i)) != Given(snap, kind, s, clock(j));
      var es, fs := AMovingClockMatters(snap, s, a, clock, kind, i, j);
    }
  }

  // As time passes, the order of evaluators never matters to the decision if and only if no rule that
  // concerns the subject expires while it is evaluated.
  lemma OrderMattersOnlyThroughExpiry(snap: Snapshot, s: Subject, a: Action, clock: nat -> Env)
    requires OnlyTimePasses(clock)
    ensures NothingExpires(snap, s, clock)
       <==> forall es, fs :: multiset(es) == multiset(fs) ==> SameDecision(es, fs, snap, s, a, clock)
  {
    SteadyIff(snap, s, clock);
    OrderNeverMattersIff(snap, s, a, clock);
  }

  // ---- the engine as it runs ----

  method FilterMatching(rules: seq<Rule>, s: Subject, env: Env) returns (out: seq<Rule>)
    ensures out == Filter(rules, Matching(s, env))
  {
    out := [];
    for i := 0 to |rules|
      invariant out == Filter(rules[..i], Matching(s, env))
    {
      assert rules[..i + 1][..i] == rules[..i];
      if Matches(rules[i], s, env) {
        out := out + [rules[i]];
      }
    }
    assert rules[..|rules|] == rules;
  }

  // Stands for sort.Slice with sortRules' comparison: an insertion sort.
  method SortRules(rules: seq<Rule>) returns (out: seq<Rule>)
    ensures Sorted(out) && multiset(out) == multiset(rules)
  {
    out := [];
    for i := 0 to |rules|
      invariant Sorted(out) && multiset(out) == multiset(rules[..i])
    {
      var k := |out|;
      while k > 0 && Before(rules[i], out[k - 1])
        invariant 0 <= k <= |out|
        invariant forall j :: k <= j < |out| ==> Before(rules[i], out[j])
      {
        k := k - 1;
      }
      InsertSorted(out, rules[i], k);
      assert rules[..i + 1] == rules[..i] + [rules[i]];
      assert out == out[..k] + out[k..];
      out := out[..k] + [rules[i]] + out[k..];
    }
    assert rules[..|rules|] == rules;
  }

  lemma InsertSorted(rules: seq<Rule>, r: Rule, k: nat)
    requires Sorted(rules) && k <= |rules|
    requires k > 0 ==> !Before(r, rules[k - 1])
    requires forall j :: k <= j < |rules| ==> Before(r, rules[j])
    ensures Sorted(rules[..k] + [r] + rules[k..])
  {
    var out := rules[..k] + [r] + rules[k..];
    forall i, j | 0 <= i < j < |out|
      ensures !Before(out[j], out[i])
    {
      var x := if i < k then i else i - 1;
      var y := if j < k then j else j - 1;
      if i != k && j != k {
        assert out[i] == rules[x] && out[j] == rules[y] && x < y;
      } else if j == k {
        assert out[i] == rules[i];
        assert i == k - 1 || !Before(rules[k - 1], rules[i]);
      }
    }
  }

  ghost predicate PartOf(parts: Snapshot, list: seq<Rule>, kind: string) {
    OfKind(parts, kind) == Filter(list, EnabledOfKind(kind))
  }

  lemma NextRule(parts: Snapshot, list: seq<Rule>, i: nat, kind: string) returns (parts': Snapshot)
    requires i < |list| && PartOf(parts, list[..i], kind)
    ensures parts' == if list[i].enabled then Put(parts, list[i]) else parts
    ensures PartOf(parts', list[..i + 1], kind)
  {
    assert list[..i + 1][..i] == list[..i];
    parts' := if list[i].enabled then Put(parts, list[i]) else parts;
  }

  function Put(parts: Snapshot, r: Rule): Snapshot {
    parts[r.kind := OfKind(parts, r.kind) + [r]]
  }

  // The enabled rules of each kind in their listed order.
  method Partition(list: seq<Rule>) returns (parts: Snapshot)
    ensures forall kind :: PartOf(parts, list, kind)
  {
    parts := map[];
    for i := 0 to |list|
      invariant forall kind :: PartOf(parts, list[..i], kind)
    {
      ghost var before := parts;
      if list[i].enabled {
        parts := parts[list[i].kind := OfKind(parts, list[i].kind) + [list[i]]];
      }
      ghost var upto := list[..i + 1];
      forall kind
        ensures PartOf(parts, upto, kind)
      {
        var _ := NextRule(before, list, i, kind);
      }
    }
    assert list[..|list|] == list;
  }

  ghost predicate SortedPart(snap: Snapshot, parts: Snapshot, kind: string) {
    Sorted(OfKind(snap, kind)) && multiset(OfKind(snap, kind)) == multiset(OfKind(parts, kind))
  }

  method SortParts(parts: Snapshot) returns (snap: Snapshot)
    ensures forall kind :: SortedPart(snap, parts, kind)
  {
    snap := parts;
    var todo := parts.Keys;
    while todo != {}
      invariant todo <= snap.Keys == parts.Keys
      invariant forall kind ::
        if kind in todo then OfKind(snap, kind) == OfKind(parts, kind) else SortedPart(snap, parts, kind)
      decreases todo
    {
      var kind :| kind in todo;
      var part := SortRules(snap[kind]);
      ghost var before := snap;
      snap, todo := snap[kind := part], todo - {kind};
      assert forall k :: k != kind ==> OfKind(snap, k) == OfKind(before, k);
    }
  }

  class ChainEngine {
    const evaluators: seq<Evaluator>
    var rules: Snapshot

    constructor (evaluators: seq<Evaluator>)
      ensures this.evaluators == evaluators && Installs(rules, [])
    {
      this.evaluators := evaluators;
      rules := map[];
    }

    method Refresh(list: seq<Rule>)
      modifies this
      ensures Installs(rules, list)
    {
      var byKind := Partition(list);
      rules := SortParts(byKind);
      forall kind
        ensures Sorted(OfKind(rules, kind))
        ensures multiset(OfKind(rules, kind)) == multiset(Filter(list, EnabledOfKind(kind)))
      {
        assert SortedPart(rules, byKind, kind) && PartOf(byKind, list, kind);
      }
    }

    // `clock(i)` is the environment when evaluator i is reached.
    method Evaluate(s: Subject, a: Action, clock: nat -> Env) returns (deepest: Outcome)
      ensures Strictest(deepest, Votes(evaluators, rules, s, a, clock))
    {
      var snap := rules;
      deepest := ALLOWED;
      ghost var votes := Votes(evaluators, snap, s, a, clock);
      for i := 0 to |evaluators|
        invariant Strictest(deepest, votes[..i])
      {
        var ev := evaluators[i];
        var kindRules := OfKind(snap, ev.kind);
        var matched := FilterMatching(kindRules, s, clock(i));
        var r := SafeEvaluate(ev, s, a, matched);
        assert r == votes[i];
        NextVote(deepest, votes, i);
        if r.decision.Rank() > deepest.decision.Rank() {
          deepest := r;
        }
        if deepest.decision == Deny {
          DenyIsFinal(deepest, votes, i + 1);
          return;
        }
      }
      assert votes[..|evaluators|] == votes;
    }
  }

  lemma NextVote(r: Outcome, votes: seq<Outcome>, i: nat)
    requires i < |votes| && Strictest(r, votes[..i])
    ensures Strictest(if votes[i].decision.Rank() > r.decision.Rank() then votes[i] else r, votes[..i + 1])
  {
    var more := votes[..i + 1];
    assert forall j :: 0 <= j < i ==> more[j] == votes[..i][j];
    if votes[i].decision.Rank() > r.decision.Rank() {
      assert more[i] == votes[i] && Leads(more, i);
    } else if r.decision != Allow {
      var k :| 0 <= k < |votes[..i]| && votes[..i][k] == r && Leads(votes[..i], k);
      assert more[k] == r && Leads(more, k);
    }
  }

  // Nothing is stricter than Deny, so stopping there skips no stricter vote.
  lemma DenyIsFinal(r: Outcome, votes: seq<Outcome>, i: nat)
    requires i <= |votes| && Strictest(r, votes[..i]) && r.decision == Deny
    ensures Strictest(r, votes)
  {
    var k :| 0 <= k < |votes[..i]| && votes[..i][k] == r && Leads(votes[..i], k);
    assert votes[k] == r && Leads(votes, k);
  }

  // ---- Evaluate interleaved with Refresh ----

  // One Evaluate call: the index of the snapshot it loaded among all ever installed, the votes it
  // has taken and the result so far.
  datatype Progress =
    | Called
    | Running(loaded: nat, i: nat, deepest: Outcome)
    | Finished(loaded: nat, result: Outcome)

  datatype System = System(installed: seq<Snapshot>, call: Progress)

  datatype Step =
    | Install(snap: Snapshot)     // some Refresh stores its new snapshot
    | Load
    | Visit(env: Env)
    | Finish

  datatype Request = Request(evaluators: seq<Evaluator>, subject: Subject, action: Action)

  predicate Enabled(q: Request, s: System, step: Step) {
    match step
    case Install(_) => true
    case Load => s.call.Called? && s.installed != []
    case Visit(_) =>
      s.call.Running? && s.call.loaded < |s.installed| && s.call.i < |q.evaluators| && s.call.deepest.decision != Deny
    case Finish =>
      s.call.Running? && (s.call.i >= |q.evaluators| || s.call.deepest.decision == Deny)
  }

  function Apply(q: Request, s: System, step: Step): System
    requires Enabled(q, s, step)
  {
    match step
    case Install(snap) => s.(installed := s.installed + [snap])
    case Load => s.(call := Running(|s.installed| - 1, 0, ALLOWED))
    case Visit(env) =>
      var ev := q.evaluators[s.call.i];
      var r := SafeEvaluate(ev, q.subject, q.action, Given(s.installed[s.call.loaded], ev.kind, q.subject, env));
      s.(call := s.call.(i := s.call.i + 1,
                         deepest := if r.decision.Rank() > s.call.deepest.decision.Rank() then r else s.call.deepest))
    case Finish => s.(call := Finished(s.call.loaded, s.call.deepest))
  }

  predicate Run(q: Request, s: System, steps: seq<Step>)
    decreases |steps|
  {
    steps == [] || (Enabled(q, s, steps[0]) && Run(q, Apply(q, s, steps[0]), steps[1..]))
  }

  function After(q: Request, s: System, steps: seq<Step>): System
    requires Run(q, s, steps)
    decreases |steps|
  {
    if steps == [] then s else After(q, Apply(q, s, steps[0]), steps[1..])
  }

  // The call has voted with one snapshot, installed no earlier than the first-th, under `clock`.
  ghost predicate OnOneSnapshot(q: Request, s: System, first: nat, clock: nat -> Env) {
    match s.call
    case Called => first < |s.installed|
    case Running(loaded, i, deepest) =>
      && first <= loaded < |s.installed| && i <= |q.evaluators|
      && Strictest(deepest, Votes(q.evaluators, s.installed[loaded], q.subject, q.action, clock)[..i])
    case Finished(loaded, result) =>
      && first <= loaded < |s.installed|
      && Strictest(result, Votes(q.evaluators, s.installed[loaded], q.subject, q.action, clock))
  }

  lemma VisitStaysOnSnapshot(q: Request, s: System, first: nat, clock: nat -> Env, env: Env)
    returns (clock': nat -> Env)
    requires OnOneSnapshot(q, s, first, clock) && Enabled(q, s, Visit(env))
    ensures OnOneSnapshot(q, Apply(q, s, Visit(env)), first, clock')
  {
    var i, snap := s.call.i, s.installed[s.call.loaded];
    clock' := (k: nat) => if k == i then env else clock(k);
    var votes := Votes(q.evaluators, snap, q.subject, q.action, clock);
    var votes' := Votes(q.evaluators, snap, q.subject, q.action, clock');
    assert votes'[..i] == votes[..i];
    NextVote(s.call.deepest, votes', i);
  }

  lemma StepStaysOnSnapshot(q: Request, s: System, first: nat, clock: nat -> Env, step: Step)
    returns (clock': nat -> Env)
    requires OnOneSnapshot(q, s, first, clock) && Enabled(q, s, step)
    ensures OnOneSnapshot(q, Apply(q, s, step), first, clock')
    ensures s.installed <= Apply(q, s, step).installed
  {
    clock' := clock;
    match step
    case Install(_) =>
      if !s.call.Called? {
        assert Apply(q, s, step).installed[s.call.loaded] == s.installed[s.call.loaded];
      }
    case Load =>
    case Visit(env) => clock' := VisitStaysOnSnapshot(q, s, first, clock, env);
    case Finish =>
      var votes := Votes(q.evaluators, s.installed[s.call.loaded], q.subject, q.action, clock);
      if s.call.i >= |q.evaluators| {
        assert votes[..s.call.i] == votes;
      } else {
        DenyIsFinal(s.call.deepest, votes, s.call.i);
      }
  }

  // An Evaluate call interleaved with any number of Refresh calls returns the strictest vote under
  // one single rule set, which was installed when the call began or while it ran and is unchanged.
  lemma {:induction false} EvaluateSeesOneRuleSet(q: Request, s: System, first: nat, clock: nat -> Env,
                                                  steps: seq<Step>)
    returns (clock': nat -> Env)
    requires OnOneSnapshot(q, s, first, clock) && Run(q, s, steps)
    ensures OnOneSnapshot(q, After(q, s, steps), first, clock')
    ensures s.installed <= After(q, s, steps).installed
    decreases |steps|
  {
    clock' := clock;
    if steps != [] {
      clock' := StepStaysOnSnapshot(q, s, first, clock, steps[0]);
      clock' := EvaluateSeesOneRuleSet(q, Apply(q, s, steps[0]), first, clock', steps[1..]);
    }
  }

  // The n-th list given to Refresh is what the n-th installed snapshot holds.
  ghost predicate Refreshed(installed: seq<Snapshot>, lists: seq<seq<Rule>>) {
    |installed| == |lists| && forall n :: 0 <= n < |lists| ==> Installs(installed[n], lists[n])
  }

  // From the call to the result, whatever Refresh calls come between: one list given to Refresh, in
  // force when Evaluate was called or later, decides alone. The result is the strictest vote of the
  // evaluators, each given exactly its matching rules of that list in order.
  lemma EvaluateDecidesByOneList(q: Request, s: System, steps: seq<Step>, lists: seq<seq<Rule>>)
    returns (n: nat, clock: nat -> Env)
    requires s.call.Called? && s.installed != [] && Run(q, s, steps)
    requires After(q, s, steps).call.Finished? && Refreshed(After(q, s, steps).installed, lists)
    ensures |s.installed| - 1 <= n < |lists|
    ensures var snap := After(q, s, steps).installed[n];
      && Strictest(After(q, s, steps).call.result, Votes(q.evaluators, snap, q.subject, q.action, clock))
      && forall i :: 0 <= i < |q.evaluators| ==> GivenFrom(snap, lists[n], q.evaluators[i].kind, q.subject, clock(i))
  {
    var start := (k: nat) => Env(0, (x, y) => false, (x, y) => None);
    clock := EvaluateSeesOneRuleSet(q, s, |s.installed| - 1, start, steps);
    var later := After(q, s, steps);
    n := later.call.loaded;
    forall i | 0 <= i < |q.evaluators|
      ensures GivenFrom(later.installed[n], lists[n], q.evaluators[i].kind, q.subject, clock(i))
    {
      EvaluatorsSeeExactlyTheirRules(later.installed[n], lists[n], q.evaluators[i].kind, q.subject, clock(i));
    }
  }
}
