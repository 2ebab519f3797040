/** Whole cycles, whatever the evaluator says: what a cycle makes of every candidate and every canary,
    exactly when it fails, and what it reports when it does not. */
module CycleExact {
  import opened Wrappers
  import opened Evolution
  import opened Store
  import opened StoreRuns
  import opened AutoCycle
  import opened CycleRuns
  import opened AutoLoop
  import opened AutoRuns

  // ----- What a cycle does before it promotes what is ready -----

  /** A candidate after the evaluation, the direct promotion and the expiry of a cycle. */
  function Treated(
    s: State, id: Id, cs: seq<Candidate>, seen: set<string>, input: Input, policy: AutoPolicy): Candidate
    requires id in s.candidates
  {
    var c := s.candidates[id];
    var judged := if Holds(cs, id) then Verdicted(c, input.verdicts(id)) else c;
    var promoted := if Holds(cs, id) && Direct(c, input, policy) then Elevated(judged) else judged;
    RejectedIf(promoted, id in s.canaries && Lapses(Seen(s.canaries[id], input.tape, seen), input.now))
  }

  /** A canary after the observation and the expiry of a cycle. */
  function Aged(k: Canary, seen: set<string>, input: Input): Canary {
    Lapsed(Seen(k, input.tape, seen), input.now)
  }

  /** The store when the loop comes to the ready canaries. */
  ghost predicate Prepared(
    s: State, st: State, cs: seq<Candidate>, seen: set<string>, input: Input, policy: AutoPolicy)
  {
    && st.candidates.Keys == s.candidates.Keys
    && (forall id :: id in s.candidates ==> st.candidates[id] == Treated(s, id, cs, seen, input, policy))
    && (forall id :: id in s.canaries ==> id in st.canaries && st.canaries[id] == Aged(s.canaries[id], seen, input))
    && (forall id :: id in st.canaries && id !in s.canaries ==>
          exists i :: 0 <= i < |cs| && cs[i].id == id && Probation(cs[i], input, policy) &&
                      st.canaries[id] == FirstCanary(cs[i], input, policy))
  }

  lemma GatheredWaits(s: State, cs: seq<Candidate>)
    requires Gathered(s, cs)
    ensures Waiting(s, cs) && Unique(cs)
  {
  }

  lemma EvaluatedHave(s: State, t: State, cs: seq<Candidate>, input: Input)
    requires Gathered(s, cs) && Evaluated(s, t, cs, input)
    ensures HaveVerdicts(t, cs, input)
  {
    forall i | 0 <= i < |cs|
      ensures HasVerdict(t, cs[i], input)
    {
      assert t.candidates[cs[i].id] == Verdicted(cs[i], input.verdicts(cs[i].id));
    }
  }

  lemma GatheredCopies(s: State, w: State, cs: seq<Candidate>)
    requires Gathered(s, cs) && w.candidates.Keys == s.candidates.Keys
    ensures Copies(w, cs)
  {
    assert forall i :: 0 <= i < |cs| ==> cs[i].id in w.candidates.Keys;
  }

  lemma WatchedIs(p: State, seen: set<string>, input: Input)
    requires Settled(p)
    ensures var w := Expire(Observe(p, input.tape, seen), input.now);
            && Settled(w) && w.canaries.Keys == p.canaries.Keys && w.candidates.Keys == p.candidates.Keys
            && (forall id :: id in p.canaries ==> w.canaries[id] == Aged(p.canaries[id], seen, input))
            && (forall id :: id in p.candidates ==>
                  w.candidates[id] ==
                    RejectedIf(p.candidates[id],
                               id in p.canaries && Lapses(Seen(p.canaries[id], input.tape, seen), input.now)))
  {
    hide *;
    SettledKeysMatch(p);
    ObserveMoves(p, input.tape, seen);
    ObserveIs(p, input.tape, seen);
    var o := Observe(p, input.tape, seen);
    SettledKeysMatch(o);
    ExpireMoves(o, input.now);
    ExpireIs(o, input.now);
    forall id | id in p.canaries
      ensures Expire(o, input.now).canaries[id] == Aged(p.canaries[id], seen, input)
    {
      AgedIs(p.canaries[id], seen, input);
    }
  }

  lemma AgedIs(k: Canary, seen: set<string>, input: Input)
    ensures Aged(k, seen, input) == Lapsed(Seen(k, input.tape, seen), input.now)
  {
  }

  lemma TreatedIs(
    s: State, e: State, p: State, w: State, cs: seq<Candidate>, seen: set<string>, input: Input, policy: AutoPolicy,
    id: Id)
    requires KeysMatch(s) && Gathered(s, cs) && id in s.candidates
    requires Evaluated(s, e, cs, input) && PromotedDirect(e, p, cs, input, policy)
    requires id in w.candidates
    requires w.candidates[id] ==
             RejectedIf(p.candidates[id],
                        id in p.canaries && Lapses(Seen(p.canaries[id], input.tape, seen), input.now))
    ensures w.candidates[id] == Treated(s, id, cs, seen, input, policy)
  {
    if Holds(cs, id) {
      var i :| 0 <= i < |cs| && cs[i].id == id;
      assert cs[i] == s.candidates[id];
      assert e.candidates[id] == Verdicted(cs[i], input.verdicts(id));
    }
    hide Direct;
    hide Lapses;
    hide Seen;
    hide Elevated;
    hide Verdicted;
  }

  lemma CanariesSame(s: State, e: State, p: State, cs: seq<Candidate>, input: Input, policy: AutoPolicy)
    requires Evaluated(s, e, cs, input) && PromotedDirect(e, p, cs, input, policy)
    ensures p.canaries == s.canaries && p.candidates.Keys == s.candidates.Keys && e.candidates.Keys == s.candidates.Keys
  {
  }

  lemma PreparedIs(
    s: State, w: State, st: State, cs: seq<Candidate>, seen: set<string>, input: Input, policy: AutoPolicy)
    requires w.candidates.Keys == s.candidates.Keys && w.canaries.Keys == s.canaries.Keys
    requires forall id :: id in s.candidates ==> w.candidates[id] == Treated(s, id, cs, seen, input, policy)
    requires forall id :: id in s.canaries ==> w.canaries[id] == Aged(s.canaries[id], seen, input)
    requires StagedFrom(w, st, cs, input, policy)
    ensures Prepared(s, st, cs, seen, input, policy)
  {
    hide Treated;
    hide Aged;
    hide Probation;
    hide FirstCanary;
  }

  /** What a cycle did, as it reports it: every candidate of the cycle got its run; those promoted
      directly were fit for that, those staged for probation. */
  ghost predicate ReportGood(report: Report, input: Input, policy: AutoPolicy) {
    && Unique(report.candidates) && RunsOf(report.candidates, input, report.evaluations)
    && DirectOutcomes(report.candidates, input, policy, report.direct)
    && OnProbation(report.candidates, input, policy, report.staged)
  }

  lemma ReportIsGood(
    cs: seq<Candidate>, runs: seq<Run>, staged: seq<Canary>, direct: seq<Outcome>, ready: seq<Outcome>, input: Input,
    policy: AutoPolicy)
    requires Unique(cs) && RunsOf(cs, input, runs)
    requires DirectOutcomes(cs, input, policy, direct) && OnProbation(cs, input, policy, staged)
    ensures ReportGood(Report(cs, runs, staged, direct, ready), input, policy)
  {
  }

  lemma NothingYet(cs: seq<Candidate>, input: Input, policy: AutoPolicy)
    ensures RunsOf([], input, []) && DirectOutcomes(cs, input, policy, []) && OnProbation(cs, input, policy, [])
    ensures [] + cs == cs && cs[0..] == cs
  {
  }

  lemma JudgedIs(
    json: Json, s: State, cs: seq<Candidate>, seen: set<string>, input: Input, policy: AutoPolicy,
    e: State, runs: seq<Run>, p: State, direct: seq<Outcome>, st: State, staged: seq<Canary>)
    requires EvaluateAll(json, s, cs, input, []) == (e, Ok(runs))
    requires PromoteAll(json, e, cs, runs, input, policy, []) == (p, Ok(direct))
    requires StageAll(Expire(Observe(p, input.tape, seen), input.now), cs, runs, input, policy, []) == (st, Ok(staged))
    ensures var (t, r) := Judged(json, s, cs, seen, input, policy);
            var (after, ready) := PromoteReady(json, st);
            && t == after && (r.Err? <==> ready.Err?)
            && (r.Ok? ==> r.value == Report(cs, runs, staged, direct, ready.value))
  {
    hide EvaluateAll;
    hide PromoteAll;
    hide StageAll;
    hide PromoteReady;
    hide Observe;
    hide Expire;
  }

  /** No stage of a cycle before the last can fail. */
  lemma JudgedPrepares(
    json: Json, s: State, cs: seq<Candidate>, seen: set<string>, input: Input, policy: AutoPolicy) returns (st: State)
    requires Settled(s) && Gathered(s, cs)
    ensures Settled(st) && Prepared(s, st, cs, seen, input, policy)
    ensures var (t, r) := Judged(json, s, cs, seen, input, policy);
            var (after, ready) := PromoteReady(json, st);
            && t == after && (r.Err? <==> ready.Err?)
            && (r.Ok? ==> ReportGood(r.value, input, policy))
  {
    hide *;
    NothingYet(cs, input, policy);
    GatheredWaits(s, cs);
    EvaluateAllIs(json, s, cs, input, [], []);
    var (e, runs) := EvaluateAll(json, s, cs, input, []);
    EvaluatedHave(s, e, cs, input);
    RunsDecide(cs, runs.value, input);
    PromoteAllIs(json, e, cs, 0, runs.value, input, policy, []);
    var (p, direct) := PromoteAll(json, e, cs, runs.value, input, policy, []);
    WatchedIs(p, seen, input);
    CanariesSame(s, e, p, cs, input, policy);
    var w := Expire(Observe(p, input.tape, seen), input.now);
    SettledKeysMatch(s);
    forall id | id in s.candidates
      ensures w.candidates[id] == Treated(s, id, cs, seen, input, policy)
    {
      TreatedIs(s, e, p, w, cs, seen, input, policy, id);
    }
    GatheredCopies(s, w, cs);
    StageAllIs(w, cs, 0, runs.value, input, policy, []);
    var staged := StageAll(w, cs, runs.value, input, policy, []).1;
    st := StageAll(w, cs, runs.value, input, policy, []).0;
    PreparedIs(s, w, st, cs, seen, input, policy);
    JudgedIs(json, s, cs, seen, input, policy, e, runs.value, p, direct.value, st, staged.value);
    var ready := PromoteReady(json, st).1;
    if ready.Ok? {
      ReportIsGood(cs, runs.value, staged.value, direct.value, ready.value, input, policy);
    }
  }

  // ----- Exactly when a cycle fails -----

  /** The canary will be ready in this cycle, and its candidate may not be promoted then: it is no
      longer pending, or promoted directly by the cycle itself, or its gate is closed, as of now or
      by the verdict of this cycle. */
  predicate Obstructed(
    s: State, id: Id, cs: seq<Candidate>, seen: set<string>, input: Input, policy: AutoPolicy)
    requires id in s.canaries && id in s.candidates
  {
    var c := s.candidates[id];
    && Ready(Aged(s.canaries[id], seen, input))
    && (|| !c.status.Pending?
        || (Holds(cs, id) && (Direct(c, input, policy) || (c.requiresEvaluation && !input.verdicts(id).passed)))
        || (!Holds(cs, id) && !GateOpen(c, false)))
  }

  lemma TreatedKeeps(
    s: State, id: Id, cs: seq<Candidate>, seen: set<string>, input: Input, policy: AutoPolicy)
    requires id in s.candidates
    ensures Core(Treated(s, id, cs, seen, input, policy)) == Core(s.candidates[id])
    ensures Treated(s, id, cs, seen, input, policy).kind == s.candidates[id].kind
  {
  }

  lemma NewIsOfRule(s: State, cs: seq<Candidate>, i: nat)
    requires Gathered(s, cs) && i < |cs|
    ensures cs[i].id in s.candidates && s.candidates[cs[i].id] == cs[i] && cs[i].kind.PromptRule?
    ensures cs[i].status.Pending? && Holds(cs, cs[i].id)
  {
  }

  lemma PreparedRules(
    s: State, st: State, cs: seq<Candidate>, seen: set<string>, input: Input, policy: AutoPolicy)
    requires RuleCanaries(s) && Gathered(s, cs) && Prepared(s, st, cs, seen, input, policy)
    ensures RuleCanaries(st)
  {
    hide Aged;
    hide Treated;
    hide FirstCanary;
    hide Probation;
    forall id | id in st.canaries
      ensures id in st.candidates && st.candidates[id].kind.PromptRule?
    {
      if id !in s.canaries {
        var i :| 0 <= i < |cs| && cs[i].id == id && Probation(cs[i], input, policy) &&
                 st.canaries[id] == FirstCanary(cs[i], input, policy);
        NewIsOfRule(s, cs, i);
      }
      TreatedKeeps(s, id, cs, seen, input, policy);
    }
  }

  /** A canary staged in this cycle can be promoted in it. */
  lemma NewIsFree(
    s: State, st: State, cs: seq<Candidate>, seen: set<string>, input: Input, policy: AutoPolicy, id: Id)
    requires Settled(s) && Gathered(s, cs) && Prepared(s, st, cs, seen, input, policy)
    requires id in st.canaries && id !in s.canaries
    ensures id in st.candidates && st.candidates[id].status.Pending? && st.candidates[id].evaluationPassed == Some(true)
  {
    var i :| 0 <= i < |cs| && cs[i].id == id && Probation(cs[i], input, policy) &&
             st.canaries[id] == FirstCanary(cs[i], input, policy);
    NewIsOfRule(s, cs, i);
    NeverBoth(cs[i], input, policy);
    hide Direct;
    assert input.verdicts(id).passed;
    assert st.candidates[id] == Treated(s, id, cs, seen, input, policy);
    hide Settled;
  }

  lemma BarredIsObstructed(
    s: State, st: State, cs: seq<Candidate>, seen: set<string>, input: Input, policy: AutoPolicy, id: Id)
    requires Gathered(s, cs) && Prepared(s, st, cs, seen, input, policy) && id in s.canaries && id in s.candidates
    ensures id in st.canaries && id in st.candidates
    ensures Ready(st.canaries[id]) && Barred(st.candidates[id]) <==> Obstructed(s, id, cs, seen, input, policy)
  {
    assert st.candidates[id] == Treated(s, id, cs, seen, input, policy);
    hide Direct;
    hide Gathered;
    hide Prepared;
  }

  /** From the candidates on, a cycle fails exactly when some canary of the store is obstructed. */
  lemma JudgedFailsExactly(
    json: Json, s: State, cs: seq<Candidate>, seen: set<string>, input: Input, policy: AutoPolicy)
    requires Settled(s) && RuleCanaries(s) && Gathered(s, cs)
    ensures Judged(json, s, cs, seen, input, policy).1.Err? <==>
            exists id :: id in s.canaries && Obstructed(s, id, cs, seen, input, policy)
  {
    hide *;
    var st := JudgedPrepares(json, s, cs, seen, input, policy);
    RulesAreStored(s);
    PreparedRules(s, st, cs, seen, input, policy);
    RulesAreStored(st);
    ReadyFailsExactly(json, st);
    PreparedParts(s, st, cs, seen, input, policy);
    forall id | id in st.canaries
      ensures Ready(st.canaries[id]) && Barred(st.candidates[id]) <==>
              id in s.canaries && Obstructed(s, id, cs, seen, input, policy)
    {
      if id in s.canaries {
        BarredIsObstructed(s, st, cs, seen, input, policy, id);
      } else {
        NewIsFree(s, st, cs, seen, input, policy, id);
        PassedIsFree(st.candidates[id]);
      }
    }
  }

  lemma PassedIsFree(c: Candidate)
    requires c.status.Pending? && c.evaluationPassed == Some(true)
    ensures !Barred(c)
  {
  }

  lemma RulesAreStored(s: State)
    requires RuleCanaries(s)
    ensures forall id :: id in s.canaries ==> id in s.candidates
  {
  }

  lemma PreparedParts(
    s: State, st: State, cs: seq<Candidate>, seen: set<string>, input: Input, policy: AutoPolicy)
    requires Prepared(s, st, cs, seen, input, policy)
    ensures st.candidates.Keys == s.candidates.Keys
    ensures forall id :: id in s.canaries ==> id in st.canaries && st.canaries[id] == Aged(s.canaries[id], seen, input)
  {
  }

  // ----- How canaries age -----

  /** A new canary has one observation, of a fingerprint this cycle saw, and as many hours as the policy
      grants. */
  predicate IsFirst(c: Candidate, k: Canary, seen: set<string>, input: Input, policy: AutoPolicy) {
    && CanaryFits(policy, c, k) && k.fingerprint in seen && k.observations == 1
    && k.expiresAt == input.stagedAt + policy.canaryTtlHours * 3600 && k.lastTape == Some(input.tape)
    && (k.status.Active? || (k.status.CanaryPromoted? && 1 >= k.required))
  }

  ghost predicate NewAreFirst(s: State, t: State, seen: set<string>, input: Input, policy: AutoPolicy) {
    forall id :: id in t.canaries && id !in s.canaries ==>
      id in t.candidates && IsFirst(t.candidates[id], t.canaries[id], seen, input, policy)
  }

  /** How a cycle that goes through treats the canaries: the old ones are observed, expired and
      promoted, in this order; the new ones start with one observation. */
  ghost predicate CanariesAge(s: State, t: State, seen: set<string>, input: Input, policy: AutoPolicy) {
    && (forall id :: id in s.canaries ==>
          id in t.canaries && t.canaries[id] == Final(Aged(s.canaries[id], seen, input), t.canaries[id].promotedTo))
    && NewAreFirst(s, t, seen, input, policy)
  }

  predicate MayAge(k: Canary, next: Canary, seen: set<string>, input: Input) {
    || next == Seen(k, input.tape, seen)
    || next == Aged(k, seen, input)
    || next == Final(Aged(k, seen, input), next.promotedTo)
  }

  /** How any cycle treats them: where it fails, only the expiry and some promotions may be missing. */
  ghost predicate CanariesMayAge(s: State, t: State, seen: set<string>, input: Input, policy: AutoPolicy) {
    && (forall id :: id in s.canaries ==>
          id in t.canaries && MayAge(s.canaries[id], t.canaries[id], seen, input))
    && NewAreFirst(s, t, seen, input, policy)
  }

  lemma FirstIsFirst(c: Candidate, now: Candidate, input: Input, policy: AutoPolicy, seen: set<string>, k: Canary)
    requires Core(c) == Core(now) && c.fingerprint in seen && Probation(c, input, policy)
    requires k == FirstCanary(c, input, policy) || k == Final(FirstCanary(c, input, policy), k.promotedTo)
    ensures IsFirst(now, k, seen, input, policy)
  {
    CoreKeeps(c, now);
    hide Core;
  }

  lemma ElevatedKeeps(c: Candidate)
    ensures Core(Elevated(c)) == Core(c) && Elevated(c).kind == c.kind
  {
    hide Target;
  }

  lemma AttemptKeeps(s: State, t: State, id: Id, through: bool)
    requires id in s.canaries && id in s.candidates && id in t.canaries && id in t.candidates
    requires Attempt(s, t, id, through)
    ensures Core(t.candidates[id]) == Core(s.candidates[id])
    ensures t.canaries[id] == s.canaries[id] || t.canaries[id] == Final(s.canaries[id], t.canaries[id].promotedTo)
    ensures through ==> t.canaries[id] == Final(s.canaries[id], t.canaries[id].promotedTo)
    ensures through && t.canaries[id].status.Active? ==>
              t.canaries[id] == s.canaries[id] && t.candidates[id] == s.candidates[id]
  {
    ElevatedKeeps(s.candidates[id]);
    hide Elevated;
    hide Target;
    hide Core;
  }

  /** What has become of a canary, and of its candidate, by the end of a cycle. */
  lemma CanaryAfter(s: State, t: State, ks: seq<Canary>, through: bool, id: Id)
    requires RuleCanaries(s) && Attempted(s, t, ks, through) && id in s.canaries && Among(ks, id)
    ensures id in t.canaries && id in s.candidates && id in t.candidates && Attempt(s, t, id, through)
  {
    hide Among;
    hide Attempt;
  }

  lemma OldAges(
    s: State, st: State, t: State, cs: seq<Candidate>, seen: set<string>, input: Input, policy: AutoPolicy,
    through: bool, id: Id)
    requires Prepared(s, st, cs, seen, input, policy) && id in s.canaries && id in t.canaries
    requires id in st.canaries && id in st.candidates && id in t.candidates && Attempt(st, t, id, through)
    ensures MayAge(s.canaries[id], t.canaries[id], seen, input)
    ensures through ==> t.canaries[id] == Final(Aged(s.canaries[id], seen, input), t.canaries[id].promotedTo)
  {
    PreparedParts(s, st, cs, seen, input, policy);
    AttemptKeeps(st, t, id, through);
    hide Prepared;
    hide Attempt;
    hide Final;
    hide Aged;
    hide Core;
  }

  lemma NewAges(
    s: State, st: State, t: State, cs: seq<Candidate>, seen: set<string>, input: Input, policy: AutoPolicy,
    through: bool, id: Id)
    requires Gathered(s, cs) && Prepared(s, st, cs, seen, input, policy) && id in st.canaries && id !in s.canaries
    requires forall i :: 0 <= i < |cs| ==> cs[i].fingerprint in seen
    requires id in st.candidates && id in t.canaries && id in t.candidates && Attempt(st, t, id, through)
    ensures IsFirst(t.candidates[id], t.canaries[id], seen, input, policy)
  {
    var i :| 0 <= i < |cs| && cs[i].id == id && Probation(cs[i], input, policy) &&
             st.canaries[id] == FirstCanary(cs[i], input, policy);
    NewIsOfRule(s, cs, i);
    assert st.candidates[id] == Treated(s, id, cs, seen, input, policy);
    hide *;
    TreatedKeeps(s, id, cs, seen, input, policy);
    AttemptKeeps(st, t, id, through);
    FirstIsFirst(cs[i], t.candidates[id], input, policy, seen, t.canaries[id]);
  }

  lemma MayAgeIs(s: State, t: State, seen: set<string>, input: Input, policy: AutoPolicy)
    requires forall id :: id in s.canaries ==>
               id in t.canaries && MayAge(s.canaries[id], t.canaries[id], seen, input)
    requires forall id :: id in t.canaries && id !in s.canaries ==>
               id in t.candidates && IsFirst(t.candidates[id], t.canaries[id], seen, input, policy)
    ensures CanariesMayAge(s, t, seen, input, policy) && NewAreFirst(s, t, seen, input, policy)
  {
    hide MayAge;
    hide IsFirst;
  }

  lemma AgeIs(s: State, t: State, seen: set<string>, input: Input, policy: AutoPolicy)
    requires forall id :: id in s.canaries ==>
               id in t.canaries && t.canaries[id] == Final(Aged(s.canaries[id], seen, input), t.canaries[id].promotedTo)
    requires NewAreFirst(s, t, seen, input, policy)
    ensures CanariesAge(s, t, seen, input, policy)
  {
    hide Final;
    hide Aged;
    hide IsFirst;
  }

  lemma AttemptedKeys(s: State, t: State, ks: seq<Canary>, through: bool)
    requires Attempted(s, t, ks, through)
    ensures t.canaries.Keys == s.canaries.Keys && t.candidates.Keys == s.candidates.Keys
  {
  }

  /** Whether it goes through or not, a cycle promotes, expires and observes only as it should. */
  lemma JudgedAges(
    json: Json, s: State, cs: seq<Candidate>, seen: set<string>, input: Input, policy: AutoPolicy)
    requires Settled(s) && RuleCanaries(s) && Gathered(s, cs)
    requires forall i :: 0 <= i < |cs| ==> cs[i].fingerprint in seen
    ensures var (t, r) := Judged(json, s, cs, seen, input, policy);
            && CanariesMayAge(s, t, seen, input, policy) && RuleCanaries(t)
            && (r.Ok? ==> CanariesAge(s, t, seen, input, policy) && ReportGood(r.value, input, policy))
  {
    hide *;
    var st := JudgedPrepares(json, s, cs, seen, input, policy);
    PreparedRules(s, st, cs, seen, input, policy);
    PreparedParts(s, st, cs, seen, input, policy);
    ReadyFailsExactly(json, st);
    RulesAreStored(s);
    RulesAreStored(st);
    var (t, r) := PromoteReady(json, st);
    var ks := Listed(st.canaries);
    AttemptedKeys(st, t, ks, r.Ok?);
    forall id | id in st.canaries
      ensures id in st.candidates && id in t.canaries && id in t.candidates && Attempt(st, t, id, r.Ok?)
      ensures t.candidates[id].kind == st.candidates[id].kind
    {
      CanaryAfter(st, t, ks, r.Ok?, id);
      AttemptKeeps(st, t, id, r.Ok?);
      CoreKeeps(t.candidates[id], st.candidates[id]);
    }
    forall id | id in s.canaries
      ensures id in t.canaries && MayAge(s.canaries[id], t.canaries[id], seen, input)
      ensures r.Ok? ==> t.canaries[id] == Final(Aged(s.canaries[id], seen, input), t.canaries[id].promotedTo)
    {
      OldAges(s, st, t, cs, seen, input, policy, r.Ok?, id);
    }
    forall id | id in t.canaries && id !in s.canaries
      ensures id in t.candidates && IsFirst(t.candidates[id], t.canaries[id], seen, input, policy)
    {
      assert id in st.canaries;
      NewAges(s, st, t, cs, seen, input, policy, r.Ok?, id);
    }
    MayAgeIs(s, t, seen, input, policy);
    RulesStill(st, t);
    if r.Ok? {
      AgeIs(s, t, seen, input, policy);
    }
  }

  lemma RulesStill(s: State, t: State)
    requires RuleCanaries(s) && t.canaries.Keys == s.canaries.Keys
    requires forall id :: id in s.canaries ==>
               id in s.candidates && id in t.candidates && t.candidates[id].kind == s.candidates[id].kind
    ensures RuleCanaries(t)
  {
    assert forall id :: id in t.canaries ==> id in s.canaries;
  }

  // ----- From the tape -----

  predicate BlankSpec(spec: Spec) {
    Blank(spec.title) || Blank(spec.summary) || Blank(spec.content)
  }

  /** Distilling fails exactly when some text of a draft is blank. */
  lemma {:induction false} DraftAllFailsExactly(
    json: Json, existing: set<string>, specs: seq<Spec>, ids: seq<Id>, tape: string, at: int, done: Distillation)
    requires |ids| == |specs|
    ensures DraftAll(json, existing, specs, ids, tape, at, done).Err? <==>
            exists i :: 0 <= i < |specs| && BlankSpec(specs[i])
    decreases |specs|
  {
    hide Drafted;
    if specs != [] {
      var r := DraftFor(json, specs[0], tape, ids[0], at);
      assert r.Err? <==> BlankSpec(specs[0]) by {
        DraftFailsExactly(json, specs[0], tape, ids[0], at);
      }
      hide BlankSpec;
      hide DraftFor;
      assert forall i :: 0 <= i < |specs[1..]| ==> specs[1..][i] == specs[i + 1];
      assert forall i :: 0 < i < |specs| ==> specs[i] == specs[1..][i - 1];
      if r.Ok? {
        DraftAllFailsExactly(json, existing, specs[1..], ids[1..], tape, at, Sifted(existing, done, r.value));
      }
    }
  }

  lemma DraftFailsExactly(json: Json, spec: Spec, tape: string, id: Id, at: int)
    ensures DraftFor(json, spec, tape, id, at).Err? <==> BlankSpec(spec)
  {
    hide Blank;
  }

  /** The candidates of a cycle, as it finds them in the store. */
  function CandidatesOf(json: Json, s: State, input: Input): seq<Candidate>
    requires |input.ids| == |input.specs|
  {
    var distilled := Distilled(json, s, input);
    if distilled.Err? then []
    else WithSkipped(PersistAll(s, distilled.value.drafts), distilled.value.drafts, distilled.value.skipped)
  }

  /** The fingerprints a cycle sees. */
  function SeenBy(json: Json, s: State, input: Input): set<string>
    requires |input.ids| == |input.specs|
  {
    var distilled := Distilled(json, s, input);
    if distilled.Err? then {} else SeenIn(distilled.value)
  }

  function Noticed(json: Json, s: State, input: Input): State
    requires |input.ids| == |input.specs|
  {
    var distilled := Distilled(json, s, input);
    if distilled.Err? then s
    else WithNote(PersistAll(s, distilled.value.drafts), Note(input.tape, None, WasDistilled))
  }

  lemma CycleParts(json: Json, s: State, input: Input, policy: AutoPolicy)
    requires |input.ids| == |input.specs|
    ensures Distilled(json, s, input).Err? ==>
              && Cycle(json, s, input, policy).0 == s && Cycle(json, s, input, policy).1.Err?
              && SeenBy(json, s, input) == {}
    ensures Distilled(json, s, input).Ok? ==>
              Cycle(json, s, input, policy) ==
                Judged(json, Noticed(json, s, input), CandidatesOf(json, s, input), SeenBy(json, s, input), input,
                  policy)
  {
    hide Judged;
    hide Distilled;
    hide PersistAll;
    hide WithSkipped;
    hide SeenIn;
  }

  lemma NoticedIs(json: Json, s: State, input: Input)
    requires |input.ids| == |input.specs| && Distilled(json, s, input).Ok?
    ensures var d := Distilled(json, s, input).value;
            && Noticed(json, s, input) == WithNote(PersistAll(s, d.drafts), Note(input.tape, None, WasDistilled))
            && CandidatesOf(json, s, input) == WithSkipped(PersistAll(s, d.drafts), d.drafts, d.skipped)
            && SeenBy(json, s, input) == SeenIn(d)
  {
    hide Distilled;
    hide PersistAll;
    hide WithSkipped;
    hide SeenIn;
  }

  lemma InputParts(s: State, input: Input)
    requires InputFits(s, input)
    ensures |input.ids| == |input.specs|
  {
  }

  lemma NoteGathers(s: State, note: Note, cs: seq<Candidate>)
    requires Gathered(s, cs)
    ensures Gathered(WithNote(s, note), cs)
  {
  }

  lemma PersistedKeeps(s: State, t: State, drafts: seq<Candidate>, note: Note)
    requires Persisted(s, t, drafts) && RuleCanaries(s)
    ensures WithNote(t, note).canaries == s.canaries && RuleCanaries(WithNote(t, note))
    ensures forall id :: id in s.candidates ==>
              id in WithNote(t, note).candidates && WithNote(t, note).candidates[id] == s.candidates[id]
  {
  }

  /** The store once the drafts are in it. */
  lemma NoticedGathers(json: Json, s: State, input: Input)
    requires Steady(s) && InputFits(s, input) && Distilled(json, s, input).Ok?
    ensures var noticed, cs := Noticed(json, s, input), CandidatesOf(json, s, input);
            && Settled(noticed) && RuleCanaries(noticed) && Gathered(noticed, cs)
            && (forall i :: 0 <= i < |cs| ==> cs[i].fingerprint in SeenBy(json, s, input))
            && noticed.canaries == s.canaries
            && (forall id :: id in s.candidates ==>
                  id in noticed.candidates && noticed.candidates[id] == s.candidates[id])
  {
    hide *;
    InputParts(s, input);
    var d := Distilled(json, s, input).value;
    var kept, note := PersistAll(s, d.drafts), Note(input.tape, None, WasDistilled);
    NoticedIs(json, s, input);
    SteadyParts(s);
    DistilledFits(json, s, input);
    DistilledGather(json, s, input);
    var ops := PersistLeads(json, s, d.drafts);
    LeadsReaches(json, s, ops, kept);
    NoteSettled(kept, note);
    PersistedKeeps(s, kept, d.drafts, note);
    NoteGathers(kept, note, CandidatesOf(json, s, input));
  }

  lemma SameObstructed(
    s: State, t: State, id: Id, cs: seq<Candidate>, seen: set<string>, input: Input, policy: AutoPolicy)
    requires id in s.canaries && id in s.candidates && id in t.canaries && id in t.candidates
    requires t.canaries[id] == s.canaries[id] && t.candidates[id] == s.candidates[id]
    ensures Obstructed(s, id, cs, seen, input, policy) <==> Obstructed(t, id, cs, seen, input, policy)
  {
    hide *;
    ObstructedIs(s, id, cs, seen, input, policy);
    ObstructedIs(t, id, cs, seen, input, policy);
  }

  lemma ObstructedIs(s: State, id: Id, cs: seq<Candidate>, seen: set<string>, input: Input, policy: AutoPolicy)
    requires id in s.canaries && id in s.candidates
    ensures Obstructed(s, id, cs, seen, input, policy) <==>
            var c := s.candidates[id];
            && Ready(Aged(s.canaries[id], seen, input))
            && (|| !c.status.Pending?
                || (Holds(cs, id) && (Direct(c, input, policy) || (c.requiresEvaluation && !input.verdicts(id).passed)))
                || (!Holds(cs, id) && !GateOpen(c, false)))
  {
  }

  /** A cycle fails exactly when some text of a draft is blank or some canary of the store is
      obstructed: whatever the evaluator says and the policy is. */
  lemma CycleFailsExactly(json: Json, s: State, input: Input, policy: AutoPolicy)
    requires Steady(s) && InputFits(s, input)
    ensures Cycle(json, s, input, policy).1.Err? <==>
            || (exists i :: 0 <= i < |input.specs| && BlankSpec(input.specs[i]))
            || (exists id :: id in s.canaries &&
                  Obstructed(s, id, CandidatesOf(json, s, input), SeenBy(json, s, input), input, policy))
  {
    DraftAllFailsExactly(json, Existing(s), input.specs, input.ids, input.tape, input.at, Distillation([], []));
    assert Distilled(json, s, input).Err? <==> exists i :: 0 <= i < |input.specs| && BlankSpec(input.specs[i]);
    hide *;
    CycleParts(json, s, input, policy);
    if Distilled(json, s, input).Ok? {
      var noticed, cs, seen := Noticed(json, s, input), CandidatesOf(json, s, input), SeenBy(json, s, input);
      NoticedGathers(json, s, input);
      RulesAreStored(noticed);
      JudgedFailsExactly(json, noticed, cs, seen, input, policy);
      forall id | id in s.canaries
        ensures Obstructed(s, id, cs, seen, input, policy) <==> Obstructed(noticed, id, cs, seen, input, policy)
      {
        SameObstructed(s, noticed, id, cs, seen, input, policy);
      }
    }
  }

  lemma SameAges(s: State, noted: State, t: State, seen: set<string>, input: Input, policy: AutoPolicy)
    requires noted.canaries == s.canaries
    ensures CanariesMayAge(noted, t, seen, input, policy) ==> CanariesMayAge(s, t, seen, input, policy)
    ensures CanariesAge(noted, t, seen, input, policy) ==> CanariesAge(s, t, seen, input, policy)
  {
    hide MayAge;
    hide Final;
    hide Aged;
    hide IsFirst;
  }

  lemma NothingAges(s: State, input: Input, policy: AutoPolicy)
    ensures CanariesMayAge(s, s, {}, input, policy)
  {
  }

  /** Every cycle, failing or not, keeps what the loop maintains and treats the canaries as it should;
      one that goes through promotes and stages only what the policy allows. */
  lemma CycleAges(json: Json, s: State, input: Input, policy: AutoPolicy)
    requires Steady(s) && InputFits(s, input)
    ensures var (t, r) := Cycle(json, s, input, policy);
            var seen := SeenBy(json, s, input);
            && Steady(t) && Reaches(s, t) && CanariesMayAge(s, t, seen, input, policy)
            && (r.Ok? ==> CanariesAge(s, t, seen, input, policy) && ReportGood(r.value, input, policy))
  {
    hide *;
    InputParts(s, input);
    var t, seen := Cycle(json, s, input, policy).0, SeenBy(json, s, input);
    SteadyParts(s);
    var ops := CycleLeads(json, s, input, policy);
    LeadsSound(json, s, ops, t);
    CycleParts(json, s, input, policy);
    if Distilled(json, s, input).Ok? {
      var noticed, cs := Noticed(json, s, input), CandidatesOf(json, s, input);
      NoticedGathers(json, s, input);
      JudgedAges(json, noticed, cs, seen, input, policy);
      SameAges(s, noticed, t, seen, input, policy);
    } else {
      NothingAges(s, input, policy);
    }
    SteadyIs(t);
  }

  /** A cycle that distils its tape, failing later or not, lets exactly those Active canaries expire
      whose time is over, however often they were seen; their candidates are not pending any more. */
  lemma OverdueExactly(json: Json, s: State, input: Input, policy: AutoPolicy, id: Id)
    requires Steady(s) && InputFits(s, input) && Distilled(json, s, input).Ok? && HasActive(s, id)
    ensures var t := Cycle(json, s, input, policy).0;
            && id in t.canaries && id in t.candidates
            && (t.canaries[id].status.Expired? <==> s.canaries[id].expiresAt <= input.now)
            && (t.canaries[id].status.Expired? ==> !t.candidates[id].status.Pending?)
  {
    hide *;
    InputParts(s, input);
    CycleParts(json, s, input, policy);
    var noticed, cs, seen := Noticed(json, s, input), CandidatesOf(json, s, input), SeenBy(json, s, input);
    NoticedGathers(json, s, input);
    ActiveIs(s, id);
    var st := JudgedPrepares(json, noticed, cs, seen, input, policy);
    PreparedRules(noticed, st, cs, seen, input, policy);
    PreparedParts(noticed, st, cs, seen, input, policy);
    ReadyFailsExactly(json, st);
    var (t, r) := PromoteReady(json, st);
    RulesAreStored(st);
    AttemptedKeys(st, t, Listed(st.canaries), r.Ok?);
    CanaryAfter(st, t, Listed(st.canaries), r.Ok?, id);
    AttemptedExpiry(noticed, st, t, seen, input, r.Ok?, id);
    CycleAges(json, s, input, policy);
    SteadyParts(t);
    SettledOnes(t, id);
  }

  lemma ActiveIs(s: State, id: Id)
    requires HasActive(s, id)
    ensures id in s.canaries && s.canaries[id].status.Active?
  {
  }

  lemma SettledOnes(s: State, id: Id)
    requires Settled(s) && id in s.canaries
    ensures id in s.candidates && (s.canaries[id].status.Expired? ==> !s.candidates[id].status.Pending?)
  {
  }

  lemma AttemptedExpiry(
    s: State, st: State, t: State, seen: set<string>, input: Input, through: bool, id: Id)
    requires id in s.canaries && s.canaries[id].status.Active?
    requires id in st.canaries && id in st.candidates && id in t.canaries && id in t.candidates
    requires st.canaries[id] == Aged(s.canaries[id], seen, input) && Attempt(st, t, id, through)
    ensures t.canaries[id].status.Expired? <==> s.canaries[id].expiresAt <= input.now
  {
    hide Target;
    hide Elevated;
  }

  lemma SteadyIs(s: State)
    requires Settled(s) && Sound(s) && RuleCanaries(s)
    ensures Steady(s)
  {
  }

  lemma LeadsSound(json: Json, s: State, ops: seq<Op>, t: State)
    requires Settled(s) && Sound(s) && Leads(json, s, ops, t)
    ensures Settled(t) && Sound(t) && Reaches(s, t)
  {
    LeadsIs(json, s, ops, t);
    hide *;
    RunMoves(json, s, ops);
    RunSound(json, s, ops);
  }

  lemma LeadsIs(json: Json, s: State, ops: seq<Op>, t: State)
    requires Leads(json, s, ops, t)
    ensures IsRun(json, s, ops) && After(json, s, ops) == t && forall i :: 0 <= i < |ops| ==> Unforced(ops[i])
  {
  }
}
