/** Runs of cycles: canaries are promoted for what was observed, whatever the evaluator says and
    whichever cycles fail; while the evaluator does not change its mind none does. */
module LoopRuns {
  import opened Wrappers
  import opened Evolution
  import opened Store
  import opened StoreRuns
  import opened AutoCycle
  import opened CycleRuns
  import opened AutoLoop
  import opened AutoRuns
  import opened CycleExact
  import StoreFiles
  import BundleRuns

  // ----- What a report tells -----

  /** No candidate is both promoted directly and staged in one cycle. */
  lemma DirectNeverStaged(report: Report, input: Input, policy: AutoPolicy, o: Outcome, k: Canary)
    requires ReportGood(report, input, policy) && o in report.direct && k in report.staged
    ensures o.candidate.id != k.candidateId
  {
    var cs := report.candidates;
    var i :| 0 <= i < |cs| && cs[i].id == o.candidate.id && Direct(cs[i], input, policy);
    var j :| 0 <= j < |cs| && cs[j].id == k.candidateId && Probation(cs[j], input, policy);
    NeverBoth(cs[i], input, policy);
    hide Direct;
    hide Probation;
    assert i != j;
    assert i < j || j < i;
  }

  /** A direct promotion had a passing run with the score asked for, and a risk small enough. */
  lemma DirectWasFit(report: Report, input: Input, policy: AutoPolicy, o: Outcome)
    requires ReportGood(report, input, policy) && o in report.direct
    ensures exists i :: 0 <= i < |report.candidates| && report.candidates[i].id == o.candidate.id &&
              var run := report.evaluations[i];
              && run.candidateId == o.candidate.id && run.passed && run.score >= policy.minScore
              && RiskAllows(report.candidates[i].risk, policy.maxDirectPromoteRisk)
  {
    var i :| 0 <= i < |report.candidates| && report.candidates[i].id == o.candidate.id
      && Direct(report.candidates[i], input, policy);
    assert report.evaluations[i] == RunFor(report.candidates[i], input.verdicts(report.candidates[i].id));
  }

  // ----- One cycle under a stable evaluator -----

  /** What the loop is given: fresh identifiers, texts that are not blank, and a stable evaluator. */
  ghost predicate Fits(s: State, input: Input, judge: Judge) {
    InputFits(s, input) && Stable(input, judge) && forall i :: 0 <= i < |input.specs| ==> !BlankSpec(input.specs[i])
  }

  lemma FitsParts(s: State, input: Input, judge: Judge)
    requires Fits(s, input, judge)
    ensures InputFits(s, input) && Stable(input, judge) && |input.ids| == |input.specs|
    ensures forall i :: 0 <= i < |input.specs| ==> !BlankSpec(input.specs[i])
  {
  }

  lemma StableAt(input: Input, judge: Judge, id: Id)
    requires Stable(input, judge)
    ensures input.verdicts(id).passed == judge(id).passed && input.verdicts(id).score == judge(id).score
  {
    assert Opinion(input.verdicts(id).passed, input.verdicts(id).score) == judge(id);
  }

  lemma WorthyIsNotDirect(c: Candidate, k: Canary, input: Input, policy: AutoPolicy)
    requires CanaryFits(policy, c, k)
    ensures !Direct(c, input, policy)
  {
  }

  lemma AgedKeeps(k: Canary, seen: set<string>, input: Input)
    ensures Aged(k, seen, input).status.Active? ==> k.status.Active? && !Lapses(Seen(k, input.tape, seen), input.now)
    ensures Ready(Aged(k, seen, input)) ==> Aged(k, seen, input).status.Active?
  {
  }

  /** The candidate of an Active canary of a good store stands in nobody's way. */
  lemma GoodIsFree(
    policy: AutoPolicy, judge: Judge, s: State, id: Id, cs: seq<Candidate>, seen: set<string>, input: Input)
    requires id in s.canaries && id in s.candidates && s.candidates[id].id == id && Stable(input, judge)
    requires CanaryGood(policy, judge, s.candidates[id], s.canaries[id])
    ensures !Obstructed(s, id, cs, seen, input, policy)
  {
    var c, k := s.candidates[id], s.canaries[id];
    ObstructedIs(s, id, cs, seen, input, policy);
    StableAt(input, judge, id);
    WorthyIsNotDirect(c, k, input, policy);
    AgedKeeps(k, seen, input);
    hide Obstructed;
    hide Direct;
    hide CanaryFits;
    hide Aged;
    hide Ready;
  }

  /** An Active canary was left alone by the cycle, and so was its candidate, but for the verdict. */
  lemma ActiveKept(
    policy: AutoPolicy, judge: Judge, s: State, st: State, id: Id, cs: seq<Candidate>, seen: set<string>, input: Input)
    requires Prepared(s, st, cs, seen, input, policy) && id in s.canaries && id in s.candidates
    requires s.candidates[id].id == id && Stable(input, judge)
    requires CanaryGood(policy, judge, s.candidates[id], s.canaries[id])
    requires id in st.canaries && st.canaries[id].status.Active?
    ensures id in st.candidates
    ensures st.candidates[id].status.Pending? && st.candidates[id].evaluationPassed == Some(true)
  {
    var c, k := s.candidates[id], s.canaries[id];
    StableAt(input, judge, id);
    WorthyIsNotDirect(c, k, input, policy);
    AgedKeeps(k, seen, input);
    assert st.candidates[id] == Treated(s, id, cs, seen, input, policy);
    assert st.canaries[id] == Aged(k, seen, input);
    hide Prepared;
    hide Direct;
    hide CanaryFits;
    hide Aged;
    hide Lapses;
    hide Seen;
    hide Elevated;
  }

  lemma AgesFit(policy: AutoPolicy, c: Candidate, now: Candidate, k: Canary, next: Canary, seen: set<string>,
      input: Input)
    requires CanaryFits(policy, c, k) && Core(c) == Core(now) && MayAge(k, next, seen, input)
    ensures CanaryFits(policy, now, next)
  {
    CoreKeeps(c, now);
    hide Core;
  }

  lemma FirstFits(c: Candidate, k: Canary, seen: set<string>, input: Input, policy: AutoPolicy)
    requires IsFirst(c, k, seen, input, policy)
    ensures CanaryFits(policy, c, k)
  {
  }

  lemma NewWasApproved(
    judge: Judge, s: State, st: State, cs: seq<Candidate>, seen: set<string>, input: Input, policy: AutoPolicy, id: Id)
    requires Prepared(s, st, cs, seen, input, policy) && id in st.canaries && id !in s.canaries && Stable(input, judge)
    ensures judge(id).passed
  {
    var i :| 0 <= i < |cs| && cs[i].id == id && Probation(cs[i], input, policy) &&
             st.canaries[id] == FirstCanary(cs[i], input, policy);
    StableAt(input, judge, id);
  }

  lemma CanaryGoodIs(policy: AutoPolicy, judge: Judge, c: Candidate, k: Canary)
    requires CanaryFits(policy, c, k) && judge(c.id).passed
    requires k.status.Active? ==> c.status.Pending? && c.evaluationPassed == Some(true)
    ensures CanaryGood(policy, judge, c, k)
  {
  }

  /** The canaries of a cycle that goes through are good again. */
  lemma JudgedGood(
    json: Json, policy: AutoPolicy, judge: Judge, s: State, cs: seq<Candidate>, seen: set<string>, input: Input)
    requires Settled(s) && RuleCanaries(s) && Gathered(s, cs) && Stable(input, judge)
    requires forall i :: 0 <= i < |cs| ==> cs[i].fingerprint in seen
    requires forall id :: id in s.canaries ==>
               && id in s.candidates && s.candidates[id].id == id
               && CanaryGood(policy, judge, s.candidates[id], s.canaries[id])
    requires Judged(json, s, cs, seen, input, policy).1.Ok?
    ensures var t := Judged(json, s, cs, seen, input, policy).0;
            forall id :: id in t.canaries ==>
              id in t.candidates && CanaryGood(policy, judge, t.candidates[id], t.canaries[id])
  {
    hide *;
    var st := JudgedPrepares(json, s, cs, seen, input, policy);
    var (t, r) := PromoteReady(json, st);
    assert r.Ok?;
    PreparedRules(s, st, cs, seen, input, policy);
    PreparedParts(s, st, cs, seen, input, policy);
    ReadyFailsExactly(json, st);
    RulesAreStored(st);
    AttemptedKeys(st, t, Listed(st.canaries), true);
    forall id | id in t.canaries
      ensures id in t.candidates && CanaryGood(policy, judge, t.candidates[id], t.canaries[id])
    {
      CanaryAfter(st, t, Listed(st.canaries), true, id);
      AttemptKeeps(st, t, id, true);
      if id in s.canaries {
        OldStaysGood(policy, judge, s, st, t, id, cs, seen, input);
      } else {
        NewIsGood(policy, judge, s, st, t, id, cs, seen, input);
      }
    }
  }

  lemma OldStaysGood(
    policy: AutoPolicy, judge: Judge, s: State, st: State, t: State, id: Id, cs: seq<Candidate>, seen: set<string>,
    input: Input)
    requires Prepared(s, st, cs, seen, input, policy) && Stable(input, judge)
    requires id in s.canaries && id in s.candidates && s.candidates[id].id == id
    requires CanaryGood(policy, judge, s.candidates[id], s.canaries[id])
    requires id in st.canaries && id in st.candidates && id in t.canaries && id in t.candidates
    requires Attempt(st, t, id, true)
    ensures CanaryGood(policy, judge, t.candidates[id], t.canaries[id])
  {
    var c, now := s.candidates[id], t.candidates[id];
    assert st.candidates[id] == Treated(s, id, cs, seen, input, policy);
    assert CanaryFits(policy, c, s.canaries[id]) && judge(id).passed;
    hide *;
    TreatedKeeps(s, id, cs, seen, input, policy);
    AttemptKeeps(st, t, id, true);
    OldAges(s, st, t, cs, seen, input, policy, true, id);
    AgesFit(policy, c, now, s.canaries[id], t.canaries[id], seen, input);
    CoreKeeps(c, now);
    if t.canaries[id].status.Active? {
      ActiveKept(policy, judge, s, st, id, cs, seen, input);
    }
    CanaryGoodIs(policy, judge, now, t.canaries[id]);
  }

  lemma NewIsGood(
    policy: AutoPolicy, judge: Judge, s: State, st: State, t: State, id: Id, cs: seq<Candidate>, seen: set<string>,
    input: Input)
    requires Settled(s) && Gathered(s, cs) && Prepared(s, st, cs, seen, input, policy) && Stable(input, judge)
    requires forall i :: 0 <= i < |cs| ==> cs[i].fingerprint in seen
    requires id !in s.canaries && id in st.canaries && id in st.candidates && id in t.canaries && id in t.candidates
    requires Attempt(st, t, id, true)
    ensures CanaryGood(policy, judge, t.candidates[id], t.canaries[id])
  {
    hide *;
    NewIdIs(s, st, cs, seen, input, policy, id);
    NewAges(s, st, t, cs, seen, input, policy, true, id);
    FirstFits(t.candidates[id], t.canaries[id], seen, input, policy);
    NewWasApproved(judge, s, st, cs, seen, input, policy, id);
    NewIsFree(s, st, cs, seen, input, policy, id);
    AttemptKeeps(st, t, id, true);
    CoreKeeps(st.candidates[id], t.candidates[id]);
    CanaryGoodIs(policy, judge, t.candidates[id], t.canaries[id]);
  }

  lemma NewIdIs(
    s: State, st: State, cs: seq<Candidate>, seen: set<string>, input: Input, policy: AutoPolicy, id: Id)
    requires Gathered(s, cs) && Prepared(s, st, cs, seen, input, policy) && id in st.canaries && id !in s.canaries
    ensures id in st.candidates && st.candidates[id].id == id
  {
    var i :| 0 <= i < |cs| && cs[i].id == id && Probation(cs[i], input, policy) &&
             st.canaries[id] == FirstCanary(cs[i], input, policy);
    NewIsOfRule(s, cs, i);
    assert st.candidates[id] == Treated(s, id, cs, seen, input, policy);
    hide *;
    TreatedKeeps(s, id, cs, seen, input, policy);
    CoreKeeps(st.candidates[id], s.candidates[id]);
  }

  /** Under a stable evaluator a cycle goes through, keeps what the loop maintains, promotes and
      stages only what the policy allows, and treats canaries as it should. */
  lemma CycleGood(json: Json, policy: AutoPolicy, judge: Judge, s: State, input: Input)
    requires Good(policy, judge, s) && Fits(s, input, judge)
    ensures |input.ids| == |input.specs|
    ensures var (t, r) := Cycle(json, s, input, policy);
            && r.Ok? && Good(policy, judge, t) && ReportGood(r.value, input, policy)
            && CanariesAge(s, t, SeenBy(json, s, input), input, policy)
  {
    hide *;
    FitsParts(s, input, judge);
    GoodParts(policy, judge, s);
    var cs, seen := CandidatesOf(json, s, input), SeenBy(json, s, input);
    CycleFailsExactly(json, s, input, policy);
    forall id | id in s.canaries
      ensures !Obstructed(s, id, cs, seen, input, policy)
    {
      GoodIsFree(policy, judge, s, id, cs, seen, input);
    }
    CycleAges(json, s, input, policy);
    CycleParts(json, s, input, policy);
    NoticedGathers(json, s, input);
    var t := Cycle(json, s, input, policy).0;
    JudgedGood(json, policy, judge, Noticed(json, s, input), cs, seen, input);
    GoodIs(policy, judge, t);
  }

  /** The last observation that was missing promotes a canary in the very cycle it comes in. */
  lemma SeenOnceMorePromotes(json: Json, policy: AutoPolicy, judge: Judge, s: State, input: Input, id: Id)
    requires Good(policy, judge, s) && Fits(s, input, judge) && |input.ids| == |input.specs|
    requires id in s.canaries && HasActive(s, id) && s.canaries[id].fingerprint in SeenBy(json, s, input)
    requires s.canaries[id].observations + 1 >= s.canaries[id].required && s.canaries[id].expiresAt > input.now
    ensures var t := Cycle(json, s, input, policy).0;
            id in t.canaries && t.canaries[id].status.CanaryPromoted?
  {
    hide *;
    CycleGood(json, policy, judge, s, input);
    ReadyAgain(s, Cycle(json, s, input, policy).0, SeenBy(json, s, input), input, policy, id);
  }

  lemma ReadyAgain(s: State, t: State, seen: set<string>, input: Input, policy: AutoPolicy, id: Id)
    requires CanariesAge(s, t, seen, input, policy) && HasActive(s, id) && s.canaries[id].fingerprint in seen
    requires s.canaries[id].observations + 1 >= s.canaries[id].required && s.canaries[id].expiresAt > input.now
    ensures id in t.canaries && t.canaries[id].status.CanaryPromoted?
  {
    hide IsFirst;
  }

  /** One no of the evaluator, in the cycle of the last observation, makes that cycle fail. */
  lemma ChangedMindAborts(json: Json, s: State, input: Input, policy: AutoPolicy, id: Id)
    requires Steady(s) && InputFits(s, input) && HasActive(s, id) && id in s.candidates
    requires s.canaries[id].fingerprint in SeenBy(json, s, input) && Holds(CandidatesOf(json, s, input), id)
    requires s.canaries[id].observations + 1 >= s.canaries[id].required && s.canaries[id].expiresAt > input.now
    requires s.candidates[id].requiresEvaluation && !input.verdicts(id).passed
    ensures Cycle(json, s, input, policy).1.Err?
  {
    CycleFailsExactly(json, s, input, policy);
    hide Cycle;
    hide CandidatesOf;
    hide SeenBy;
    hide Holds;
    hide Direct;
    assert Obstructed(s, id, CandidatesOf(json, s, input), SeenBy(json, s, input), input, policy);
  }

  /** So does rejecting the candidate of a ready canary by hand, before the next promotion of what is
      ready. */
  lemma RejectedByHandAborts(json: Json, s: State, id: Id)
    requires Steady(s) && id in s.canaries && Ready(s.canaries[id]) && id in s.candidates
    requires s.candidates[id].status.Pending?
    ensures PromoteReady(json, Rejection(s, id).0).1.Err?
  {
    hide *;
    var t := Rejection(s, id).0;
    SteadyParts(s);
    RejectionMoves(s, id);
    RejectedBars(s, id);
    ReadyFailsExactly(json, t);
    assert id in t.canaries && Ready(t.canaries[id]) && Barred(t.candidates[id]);
  }

  lemma RejectedBars(s: State, id: Id)
    requires KeysMatch(s) && RuleCanaries(s) && id in s.candidates && s.candidates[id].status.Pending?
    ensures var t := Rejection(s, id).0;
            t.canaries == s.canaries && RuleCanaries(t) && id in t.candidates && Barred(t.candidates[id])
  {
    RejectionIs(s, id);
    hide Rejection;
    hide GateOpen;
    hide KeysMatch;
  }

  // ----- Runs of cycles -----

  /** One cycle of a run: its input, and the policy in force then. */
  datatype Turn = Turn(input: Input, policy: AutoPolicy)

  function Cycles(json: Json, s: State, turns: seq<Turn>): State
    requires Shaped(turns)
  {
    if turns == [] then s
    else
      var last := turns[|turns| - 1];
      Cycle(json, Cycles(json, s, turns[..|turns| - 1]), last.input, last.policy).0
  }

  predicate Shaped(turns: seq<Turn>) {
    forall i :: 0 <= i < |turns| ==> |turns[i].input.ids| == |turns[i].input.specs|
  }

  /** Each cycle has fresh identifiers for its drafts. */
  ghost predicate AllFresh(json: Json, s: State, turns: seq<Turn>) {
    && Shaped(turns)
    && (turns == [] ||
        (var before := turns[..|turns| - 1];
         AllFresh(json, s, before) && InputFits(Cycles(json, s, before), turns[|turns| - 1].input)))
  }

  /** One policy, and an evaluator that does not change its mind. */
  ghost predicate AllFit(json: Json, policy: AutoPolicy, judge: Judge, s: State, turns: seq<Turn>) {
    && Shaped(turns)
    && (turns == [] ||
        (var before, last := turns[..|turns| - 1], turns[|turns| - 1];
         && AllFit(json, policy, judge, s, before)
         && last.policy == policy && Fits(Cycles(json, s, before), last.input, judge)))
  }

  /** The fingerprints each cycle saw. */
  function History(json: Json, s: State, turns: seq<Turn>): (h: seq<set<string>>)
    requires Shaped(turns)
    ensures |h| == |turns|
  {
    if turns == [] then []
    else
      var before := turns[..|turns| - 1];
      History(json, s, before) + [SeenBy(json, Cycles(json, s, before), turns[|turns| - 1].input)]
  }

  /** What the loop maintains, whatever the evaluator says and whichever cycles fail. */
  lemma {:induction false} LoopSteady(json: Json, s: State, turns: seq<Turn>)
    requires Steady(s) && AllFresh(json, s, turns)
    ensures Steady(Cycles(json, s, turns))
    ensures forall id :: id in s.candidates ==> id in Cycles(json, s, turns).candidates
  {
    hide Steady;
    hide Cycle;
    hide InputFits;
    if turns != [] {
      var before, last := turns[..|turns| - 1], turns[|turns| - 1];
      LoopSteady(json, s, before);
      CycleAges(json, Cycles(json, s, before), last.input, last.policy);
      ReachesKeeps(Cycles(json, s, before), Cycles(json, s, turns));
    }
  }

  /** Under one policy and a stable evaluator, however many cycles run, each goes through, and what
      the loop maintains holds after it. */
  lemma {:induction false} LoopGood(json: Json, policy: AutoPolicy, judge: Judge, s: State, turns: seq<Turn>)
    requires Good(policy, judge, s) && AllFit(json, policy, judge, s, turns)
    ensures Good(policy, judge, Cycles(json, s, turns))
    ensures turns != [] ==>
              Cycle(json, Cycles(json, s, turns[..|turns| - 1]), turns[|turns| - 1].input, policy).1.Ok?
  {
    hide Good;
    hide Cycle;
    hide Fits;
    if turns != [] {
      var before, last := turns[..|turns| - 1], turns[|turns| - 1];
      LoopGood(json, policy, judge, s, before);
      CycleGood(json, policy, judge, Cycles(json, s, before), last.input);
    }
  }

  /** At the end of any such run, every Active canary's candidate is pending with a passing
      evaluation. */
  lemma ActiveMeansPending(json: Json, policy: AutoPolicy, judge: Judge, s: State, turns: seq<Turn>, id: Id)
    requires Good(policy, judge, s) && AllFit(json, policy, judge, s, turns)
    requires HasActive(Cycles(json, s, turns), id)
    ensures var t := Cycles(json, s, turns);
            && id in t.candidates && t.candidates[id].status.Pending?
            && t.candidates[id].evaluationPassed == Some(true)
  {
    LoopGood(json, policy, judge, s, turns);
    var t := Cycles(json, s, turns);
    hide Cycles;
    assert CanaryGood(policy, judge, t.candidates[id], t.canaries[id]);
  }

  // ----- What observations count -----

  function Count(f: string, h: seq<set<string>>): nat {
    if h == [] then 0 else Count(f, h[..|h| - 1]) + if f in h[|h| - 1] then 1 else 0
  }

  /** Cycle `m` saw the canary's fingerprint, and from then on up to cycle `n` the canary counted
      every cycle that did; it was promoted only with enough of them. */
  predicate Counted(k: Canary, h: seq<set<string>>, m: nat, n: nat) {
    && m < n <= |h| && k.fingerprint in h[m] && k.observations == Count(k.fingerprint, h[m..n])
    && (k.status.Active? ==> n == |h|)
    && (k.status.CanaryPromoted? ==> k.observations >= k.required)
  }

  lemma CountSnoc(f: string, h: seq<set<string>>, seen: set<string>)
    ensures Count(f, h + [seen]) == Count(f, h) + if f in seen then 1 else 0
  {
    assert (h + [seen])[..|h|] == h;
  }

  lemma AgedCounts(k: Canary, next: Canary, h: seq<set<string>>, m: nat, n: nat, seen: set<string>, input: Input)
    requires Counted(k, h, m, n) && MayAge(k, next, seen, input)
    ensures Counted(next, h + [seen], m, if k.status.Active? then |h| + 1 else n)
  {
    if k.status.Active? {
      assert (h + [seen])[m..|h| + 1] == h[m..n] + [seen];
      CountSnoc(k.fingerprint, h[m..n], seen);
    } else {
      assert (h + [seen])[m..n] == h[m..n];
    }
  }

  lemma FirstCounts(
    c: Candidate, k: Canary, h: seq<set<string>>, seen: set<string>, input: Input, policy: AutoPolicy)
    requires IsFirst(c, k, seen, input, policy)
    ensures Counted(k, h + [seen], |h|, |h| + 1)
  {
    assert (h + [seen])[|h|..|h| + 1] == [] + [seen];
    CountSnoc(k.fingerprint, [], seen);
  }

  /** Cycle `m` staged the canary, and it stayed Active until the end or until cycle `n - 1`, which
      promoted it or let it expire. */
  ghost predicate OnTrial(json: Json, s: State, turns: seq<Turn>, id: Id, m: nat, n: nat)
    requires Shaped(turns)
  {
    && m < n <= |turns| && id !in Cycles(json, s, turns[..m]).canaries
    && (forall i :: m < i <= |turns| ==> id in Cycles(json, s, turns[..i]).canaries)
    && (forall i :: m < i < |turns| ==> (HasActive(Cycles(json, s, turns[..i]), id) <==> i < n))
    && (n < |turns| ==> !HasActive(Cycles(json, s, turns), id))
  }

  ghost predicate AllCounted(json: Json, s: State, turns: seq<Turn>)
    requires Shaped(turns)
  {
    forall id :: id in Cycles(json, s, turns).canaries ==>
      id in Cycles(json, s, turns).candidates && Tried(json, s, turns, id)
  }

  /** The observations of a canary are the cycles of its trial that saw its fingerprint, and it was
      staged under the policy in force then. */
  ghost predicate Tried(json: Json, s: State, turns: seq<Turn>, id: Id)
    requires Shaped(turns) && id in Cycles(json, s, turns).canaries && id in Cycles(json, s, turns).candidates
  {
    var t, h := Cycles(json, s, turns), History(json, s, turns);
    exists m: nat, n: nat ::
      && OnTrial(json, s, turns, id, m, n) && Counted(t.canaries[id], h, m, n)
      && CanaryFits(turns[m].policy, t.candidates[id], t.canaries[id])
  }

  lemma TriedIs(json: Json, s: State, turns: seq<Turn>, id: Id, m: nat, n: nat)
    requires Shaped(turns) && OnTrial(json, s, turns, id, m, n)
    requires var t := Cycles(json, s, turns);
             && id in t.canaries && id in t.candidates && Counted(t.canaries[id], History(json, s, turns), m, n)
             && m < |turns| && CanaryFits(turns[m].policy, t.candidates[id], t.canaries[id])
    ensures Tried(json, s, turns, id)
  {
    hide OnTrial;
    hide Counted;
    hide CanaryFits;
    hide Cycles;
    hide History;
  }

  lemma PrefixOfPrefix(turns: seq<Turn>, n: nat)
    requires n < |turns|
    ensures forall i :: 0 <= i <= n ==> turns[..n][..i] == turns[..i]
    ensures turns[..|turns|] == turns
  {
  }

  lemma OnTrialParts(json: Json, s: State, turns: seq<Turn>, id: Id, m: nat, n: nat)
    requires Shaped(turns) && OnTrial(json, s, turns, id, m, n)
    ensures m < n <= |turns| && id !in Cycles(json, s, turns[..m]).canaries
    ensures forall i :: m < i <= |turns| ==> id in Cycles(json, s, turns[..i]).canaries
    ensures forall i :: m < i < |turns| ==> (HasActive(Cycles(json, s, turns[..i]), id) <==> i < n)
    ensures n < |turns| ==> !HasActive(Cycles(json, s, turns), id)
  {
  }

  lemma OnTrialIs(json: Json, s: State, turns: seq<Turn>, id: Id, m: nat, n: nat)
    requires Shaped(turns)
    requires m < n <= |turns| && id !in Cycles(json, s, turns[..m]).canaries
    requires forall i :: m < i <= |turns| ==> id in Cycles(json, s, turns[..i]).canaries
    requires forall i :: m < i < |turns| ==> (HasActive(Cycles(json, s, turns[..i]), id) <==> i < n)
    requires n < |turns| ==> !HasActive(Cycles(json, s, turns), id)
    ensures OnTrial(json, s, turns, id, m, n)
  {
  }

  /** A canary that was there before the last cycle. */
  lemma OnTrialStill(json: Json, s: State, turns: seq<Turn>, id: Id, m: nat, n: nat)
    requires Shaped(turns) && turns != []
    requires OnTrial(json, s, turns[..|turns| - 1], id, m, n)
    requires var t := Cycles(json, s, turns[..|turns| - 1]);
             HasActive(t, id) ==> n == |turns| - 1
    requires var t, u := Cycles(json, s, turns[..|turns| - 1]), Cycles(json, s, turns);
             id in u.canaries && (!HasActive(t, id) ==> !HasActive(u, id))
    ensures var t := Cycles(json, s, turns[..|turns| - 1]);
            OnTrial(json, s, turns, id, m, if HasActive(t, id) then n + 1 else n)
  {
    hide OnTrial;
    hide HasActive;
    hide Cycles;
    var before := turns[..|turns| - 1];
    OnTrialParts(json, s, before, id, m, n);
    PrefixOfPrefix(turns, |turns| - 1);
    var n' := if HasActive(Cycles(json, s, before), id) then n + 1 else n;
    assert Cycles(json, s, before[..m]) == Cycles(json, s, turns[..m]);
    forall i | m < i <= |turns|
      ensures id in Cycles(json, s, turns[..i]).canaries
    {
      assert i < |turns| ==> before[..i] == turns[..i];
    }
    forall i | m < i < |turns|
      ensures HasActive(Cycles(json, s, turns[..i]), id) <==> i < n'
    {
      assert before[..i] == turns[..i];
    }
    OnTrialIs(json, s, turns, id, m, n');
  }

  /** A canary that the last cycle staged. */
  lemma OnTrialFirst(json: Json, s: State, turns: seq<Turn>, id: Id)
    requires Shaped(turns) && turns != []
    requires id !in Cycles(json, s, turns[..|turns| - 1]).canaries && id in Cycles(json, s, turns).canaries
    ensures OnTrial(json, s, turns, id, |turns| - 1, |turns|)
  {
    PrefixOfPrefix(turns, |turns| - 1);
    hide HasActive;
    hide Cycles;
  }

  lemma AgedKeepsStatus(s: State, t: State, seen: set<string>, input: Input, policy: AutoPolicy, id: Id)
    requires CanariesMayAge(s, t, seen, input, policy) && id in s.canaries
    ensures id in t.canaries && (!HasActive(s, id) ==> !HasActive(t, id))
    ensures MayAge(s.canaries[id], t.canaries[id], seen, input)
  {
  }

  lemma NewIsFirst(s: State, t: State, seen: set<string>, input: Input, policy: AutoPolicy, id: Id)
    requires CanariesMayAge(s, t, seen, input, policy) && id in t.canaries && id !in s.canaries
    ensures id in t.candidates && IsFirst(t.candidates[id], t.canaries[id], seen, input, policy)
  {
  }

  lemma ActiveCounts(s: State, id: Id, h: seq<set<string>>, m: nat, n: nat)
    requires id in s.canaries && Counted(s.canaries[id], h, m, n)
    ensures HasActive(s, id) <==> s.canaries[id].status.Active?
    ensures HasActive(s, id) ==> n == |h|
  {
  }

  lemma ReachesCore(s: State, t: State, id: Id)
    requires Reaches(s, t) && id in s.candidates
    ensures id in t.candidates && Core(s.candidates[id]) == Core(t.candidates[id])
  {
    hide Core;
  }

  lemma CountedStep(json: Json, s: State, turns: seq<Turn>, seen: set<string>)
    requires Shaped(turns) && turns != []
    requires AllCounted(json, s, turns[..|turns| - 1])
    requires History(json, s, turns) == History(json, s, turns[..|turns| - 1]) + [seen]
    requires var t, u := Cycles(json, s, turns[..|turns| - 1]), Cycles(json, s, turns);
             Reaches(t, u) && CanariesMayAge(t, u, seen, turns[|turns| - 1].input, turns[|turns| - 1].policy)
    ensures AllCounted(json, s, turns)
  {
    var before, last := turns[..|turns| - 1], turns[|turns| - 1];
    var t, u := Cycles(json, s, before), Cycles(json, s, turns);
    var h, g := History(json, s, before), History(json, s, turns);
    assert |h| == |before| && |g| == |turns|;
    forall id | id in u.canaries
      ensures id in u.candidates && Tried(json, s, turns, id)
    {
      hide *;
      if id in t.canaries {
        AllCountedAt(json, s, before, id);
        var m, n := CountedWindow(json, s, before, id);
        var k, next := t.canaries[id], u.canaries[id];
        ActiveCounts(t, id, h, m, n);
        AgedKeepsStatus(t, u, seen, last.input, last.policy, id);
        AgedCounts(k, next, h, m, n, seen, last.input);
        ReachesCore(t, u, id);
        AgesFit(before[m].policy, t.candidates[id], u.candidates[id], k, next, seen, last.input);
        OnTrialStill(json, s, turns, id, m, n);
        var n' := if k.status.Active? then |h| + 1 else n;
        TriedIs(json, s, turns, id, m, n');
      } else {
        NewIsFirst(t, u, seen, last.input, last.policy, id);
        FirstFits(u.candidates[id], u.canaries[id], seen, last.input, last.policy);
        FirstCounts(u.candidates[id], u.canaries[id], h, seen, last.input, last.policy);
        OnTrialFirst(json, s, turns, id);
        TriedIs(json, s, turns, id, |h|, |h| + 1);
      }
    }
    hide Tried;
    hide Cycles;
  }

  lemma AllCountedAt(json: Json, s: State, turns: seq<Turn>, id: Id)
    requires Shaped(turns) && AllCounted(json, s, turns) && id in Cycles(json, s, turns).canaries
    ensures id in Cycles(json, s, turns).candidates && Tried(json, s, turns, id)
  {
    hide Tried;
    hide Cycles;
  }

  lemma CountedWindow(json: Json, s: State, turns: seq<Turn>, id: Id) returns (m: nat, n: nat)
    requires Shaped(turns) && id in Cycles(json, s, turns).canaries && id in Cycles(json, s, turns).candidates
    requires Tried(json, s, turns, id)
    ensures m < n <= |turns| && OnTrial(json, s, turns, id, m, n)
    ensures var t := Cycles(json, s, turns);
            && Counted(t.canaries[id], History(json, s, turns), m, n)
            && CanaryFits(turns[m].policy, t.candidates[id], t.canaries[id])
  {
    var t, h := Cycles(json, s, turns), History(json, s, turns);
    hide Counted;
    hide CanaryFits;
    hide Cycles;
    hide History;
    m, n :|
      && OnTrial(json, s, turns, id, m, n) && Counted(t.canaries[id], h, m, n)
      && CanaryFits(turns[m].policy, t.candidates[id], t.canaries[id]);
  }

  /** Every canary was staged by a cycle of the run that saw its fingerprint, and its observations
      are the cycles since then, that one included, that saw it while the canary was Active: for any
      evaluator, any policies, and whichever cycles failed. */
  lemma {:induction false} LoopCounts(json: Json, s: State, turns: seq<Turn>)
    requires Steady(s) && s.canaries == map[] && AllFresh(json, s, turns)
    ensures AllCounted(json, s, turns)
  {
    hide Steady;
    hide Cycle;
    hide InputFits;
    hide AllCounted;
    hide SeenBy;
    hide CanariesMayAge;
    if turns == [] {
      NothingCounted(json, s, turns);
    } else {
      var before, last := turns[..|turns| - 1], turns[|turns| - 1];
      var t := Cycles(json, s, before);
      LoopCounts(json, s, before);
      LoopSteady(json, s, before);
      CycleAges(json, t, last.input, last.policy);
      CountedStep(json, s, turns, SeenBy(json, t, last.input));
    }
  }

  lemma NothingCounted(json: Json, s: State, turns: seq<Turn>)
    requires turns == [] && s.canaries == map[]
    ensures AllCounted(json, s, turns)
  {
    assert Cycles(json, s, turns).canaries == map[];
    hide Tried;
  }

  /** From the cycle that staged the canary, itself included, until the canary was settled, at least
      as many cycles saw the fingerprint as the policy of the first one asks for; and it was staged on
      a passing run with the score that policy asks for, its risk within the limits. */
  ghost predicate Earned(json: Json, s: State, turns: seq<Turn>, id: Id)
    requires Shaped(turns) && id in Cycles(json, s, turns).candidates && id in Cycles(json, s, turns).canaries
  {
    var t, h := Cycles(json, s, turns), History(json, s, turns);
    var c, k := t.candidates[id], t.canaries[id];
    exists m: nat, n: nat ::
      && OnTrial(json, s, turns, id, m, n) && c.fingerprint in h[m]
      && Count(c.fingerprint, h[m..n]) >= turns[m].policy.canaryObservations
      && Worthy(c, k.evaluationPassed, k.evaluationScore, turns[m].policy)
  }

  lemma EarnedIs(json: Json, s: State, turns: seq<Turn>, id: Id, m: nat, n: nat)
    requires Shaped(turns) && m < n <= |turns| && OnTrial(json, s, turns, id, m, n)
    requires var t := Cycles(json, s, turns);
             && id in t.canaries && t.canaries[id].status.CanaryPromoted? && id in t.candidates
             && Counted(t.canaries[id], History(json, s, turns), m, n)
             && CanaryFits(turns[m].policy, t.candidates[id], t.canaries[id])
    ensures Earned(json, s, turns, id)
  {
    hide OnTrial;
    hide Cycles;
    hide History;
    hide Count;
    hide Worthy;
  }

  /** A canary is promoted only when it has earned it, whatever the evaluator says, whichever cycles
      fail, and however the policy changes. */
  lemma PromotionsAreEarned(json: Json, s: State, turns: seq<Turn>, id: Id)
    requires Steady(s) && s.canaries == map[] && AllFresh(json, s, turns) && Shaped(turns)
    requires var t := Cycles(json, s, turns); id in t.canaries && t.canaries[id].status.CanaryPromoted?
    ensures id in Cycles(json, s, turns).candidates && Earned(json, s, turns, id)
  {
    LoopCounts(json, s, turns);
    hide *;
    AllCountedAt(json, s, turns, id);
    var m, n := CountedWindow(json, s, turns, id);
    EarnedIs(json, s, turns, id, m, n);
  }

  // ----- Files under the loop -----

  /** A cycle, whatever the evaluator says and whether it goes through or not, keeps the target files
      those of the candidates still promoted and the bundles in agreement with their sources, and
      moves candidates and canaries only forwards. */
  lemma CycleKeepsFiles(json: Json, base: Files, s: State, input: Input, policy: AutoPolicy)
    requires Faithful(json) && Settled(s) && Sound(s) && InputFits(s, input)
    requires StoreFiles.Tracks(json, base, s) && BundleRuns.BundlesAgree(json, s.files)
    ensures var t := Cycle(json, s, input, policy).0;
            && StoreFiles.Tracks(json, base, t) && BundleRuns.BundlesAgree(json, t.files)
            && Settled(t) && Sound(t) && Reaches(s, t)
  {
    hide *;
    InputParts(s, input);
    var ops := CycleLeads(json, s, input, policy);
    LeadsSound(json, s, ops, Cycle(json, s, input, policy).0);
    LeadsIs(json, s, ops, Cycle(json, s, input, policy).0);
    StoreFiles.TracksParts(json, base, s);
    StoreFiles.UnforcedRunIsClear(json, base, s, ops);
    StoreFiles.RunTracks(json, base, s, ops);
    BundleRuns.RunAgrees(json, s, ops);
  }

  /** The same over a whole run of cycles, under any policies. */
  lemma {:induction false} LoopKeepsFiles(json: Json, base: Files, s: State, turns: seq<Turn>)
    requires Faithful(json) && Settled(s) && Sound(s) && AllFresh(json, s, turns)
    requires StoreFiles.Tracks(json, base, s) && BundleRuns.BundlesAgree(json, s.files)
    ensures Shaped(turns)
    ensures var t := Cycles(json, s, turns);
            && StoreFiles.Tracks(json, base, t) && BundleRuns.BundlesAgree(json, t.files)
            && Settled(t) && Sound(t)
  {
    hide StoreFiles.Tracks;
    hide BundleRuns.BundlesAgree;
    hide Faithful;
    hide Settled;
    hide Sound;
    hide Cycle;
    hide InputFits;
    if turns != [] {
      var before, last := turns[..|turns| - 1], turns[|turns| - 1];
      LoopKeepsFiles(json, base, s, before);
      CycleKeepsFiles(json, base, Cycles(json, s, before), last.input, last.policy);
    }
  }
}
