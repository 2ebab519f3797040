/** What the automatic loop maintains, whatever its evaluator says, and what it maintains besides
    under an evaluator that does not change its mind. */
module AutoLoop {
  import opened Wrappers
  import opened Evolution
  import opened Bundles
  import opened Store
  import opened StoreRuns
  import opened AutoCycle
  import opened CycleRuns

  // ----- Invariants -----

  predicate Worthy(c: Candidate, passed: bool, score: nat, policy: AutoPolicy) {
    && passed && score >= policy.minScore
    && RiskAllows(c.risk, policy.maxAutoRisk) && !RiskAllows(c.risk, policy.maxDirectPromoteRisk)
  }

  /** The canary is one of the candidate, and was staged under the policy on a passing evaluation. */
  predicate CanaryFits(policy: AutoPolicy, c: Candidate, k: Canary) {
    && k.fingerprint == c.fingerprint && k.required == policy.canaryObservations
    && Worthy(c, k.evaluationPassed, k.evaluationScore, policy)
  }

  /** Automatic canaries are those of rules. */
  ghost predicate RuleCanaries(s: State) {
    forall id :: id in s.canaries ==> id in s.candidates && s.candidates[id].kind.PromptRule?
  }

  /** What every cycle keeps. */
  ghost predicate Steady(s: State) {
    Settled(s) && Sound(s) && RuleCanaries(s)
  }

  /** A store without canaries can be where the loop starts. */
  lemma StartIsSteady(s: State)
    requires Settled(s) && Sound(s) && s.canaries == map[]
    ensures Steady(s)
  {
  }

  lemma SteadyParts(s: State)
    requires Steady(s)
    ensures Settled(s) && Sound(s) && RuleCanaries(s) && KeysMatch(s)
  {
  }

  datatype Opinion = Opinion(passed: bool, score: nat)

  /** What the evaluator thinks of each candidate, whenever it is asked. */
  type Judge = Id -> Opinion

  ghost predicate Stable(input: Input, judge: Judge) {
    forall id :: Opinion(input.verdicts(id).passed, input.verdicts(id).score) == judge(id)
  }

  predicate CanaryGood(policy: AutoPolicy, judge: Judge, c: Candidate, k: Canary) {
    && CanaryFits(policy, c, k) && judge(c.id).passed
    && (k.status.Active? ==> c.status.Pending? && c.evaluationPassed == Some(true))
  }

  /** Every canary was staged under the policy on a passing evaluation, and the candidate of an
      Active one is pending with a passing evaluation. */
  ghost predicate Good(policy: AutoPolicy, judge: Judge, s: State) {
    && Steady(s)
    && forall id :: id in s.canaries ==> CanaryGood(policy, judge, s.candidates[id], s.canaries[id])
  }

  lemma GoodParts(policy: AutoPolicy, judge: Judge, s: State)
    requires Good(policy, judge, s)
    ensures Steady(s)
    ensures forall id :: id in s.canaries ==>
              && id in s.candidates && s.candidates[id].id == id
              && CanaryGood(policy, judge, s.candidates[id], s.canaries[id])
  {
  }

  lemma GoodIs(policy: AutoPolicy, judge: Judge, s: State)
    requires Steady(s)
    requires forall id :: id in s.canaries ==>
               id in s.candidates && CanaryGood(policy, judge, s.candidates[id], s.canaries[id])
    ensures Good(policy, judge, s)
  {
  }

  /** Without canaries there is nothing to maintain. */
  lemma StartIsGood(policy: AutoPolicy, judge: Judge, s: State)
    requires Settled(s) && Sound(s) && s.canaries == map[]
    ensures Good(policy, judge, s)
  {
  }

  // ----- Sound stores stay sound -----

  lemma CoreKeeps(b: Candidate, c: Candidate)
    requires Core(b) == Core(c)
    ensures b.id == c.id && b.kind == c.kind && b.title == c.title && b.content == c.content && b.risk == c.risk
    ensures b.fingerprint == c.fingerprint && TargetName(b) == TargetName(c)
    ensures b.requiresEvaluation == c.requiresEvaluation
  {
    assert Core(b).id == b.id && Core(c).id == c.id;
    assert Core(b).kind == b.kind && Core(b).title == b.title && Core(b).content == b.content;
  }

  lemma SoundMoves(s: State, t: State)
    requires Sound(s) && Moves(s, t) && t.candidates.Keys == s.candidates.Keys
    ensures Sound(t)
  {
    forall id | id in t.candidates
      ensures var c := t.candidates[id];
              c.fingerprint == Fingerprint(c.kind, c.title, c.content, TargetName(c)) && c.risk == RiskFor(c.kind)
    {
      CoreKeeps(s.candidates[id], t.candidates[id]);
    }
  }

  /** Only capturing adds a candidate. */
  lemma StepKeys(json: Json, s: State, op: Op)
    requires KeysMatch(s) && !op.Captures?
    ensures Step(json, s, op).candidates.Keys == s.candidates.Keys
  {
    hide KeysMatch;
    hide Promotion;
    hide Evaluation;
    hide Rollback;
    hide Finalize;
    hide Rejection;
    match op
    case Evaluates(id, v) => EvaluationIs(json, s, id, v);
    case Rejects(id) => RejectionIs(s, id);
    case Promotes(id, force) => PromotionIs(json, s, id, force);
    case RollsBack(id) => RollbackIs(json, s, id);
    case Observes(tape, seen) => ObserveIs(s, tape, seen);
    case Expires(now) => ExpireIs(s, now);
    case Stages(c, run, tape, policy, now) =>
    case Finalizes(id, force) =>
      PromotionIs(json, s, id, force);
      assert Promotion(json, s, id, force).0.candidates.Keys == s.candidates.Keys;
      FinalizeIs(json, s, id, force);
    case Writes(note) =>
  }

  lemma CaptureSound(s: State, c: Candidate)
    requires Sound(s) && IsNew(c)
    ensures Sound(WithCandidate(s, c))
  {
    hide Fingerprint;
  }

  lemma StepSound(json: Json, s: State, op: Op)
    requires Settled(s) && Sound(s) && Enabled(s, op)
    ensures Sound(Step(json, s, op))
  {
    if op.Captures? {
      CaptureSound(s, op.candidate);
    } else {
      SettledKeysMatch(s);
      hide *;
      StepMoves(json, s, op);
      StepKeys(json, s, op);
      SoundMoves(s, Step(json, s, op));
    }
  }

  lemma {:induction false} RunSound(json: Json, s: State, ops: seq<Op>)
    requires Settled(s) && Sound(s) && IsRun(json, s, ops)
    ensures Sound(After(json, s, ops))
    decreases |ops|
  {
    hide Settled;
    hide Sound;
    hide Step;
    hide Enabled;
    if ops != [] {
      StepMoves(json, s, ops[0]);
      StepSound(json, s, ops[0]);
      RunSound(json, Step(json, s, ops[0]), ops[1..]);
    }
  }

  // ----- Single operations -----

  /** A pending rule is promoted without force exactly when its gate is open. */
  lemma RuleGate(json: Json, s: State, id: Id)
    requires id in s.candidates && s.candidates[id].status.Pending? && s.candidates[id].kind.PromptRule?
    ensures Promotion(json, s, id, false).1.Ok? <==> GateOpen(s.candidates[id], false)
    ensures Promotion(json, s, id, false).1.Ok? <==>
            !s.candidates[id].requiresEvaluation || s.candidates[id].evaluationPassed == Some(true)
    ensures !GateOpen(s.candidates[id], false) ==> Promotion(json, s, id, false) == (s, Err(GateClosed))
  {
    hide Sources;
    hide TrimmedParts;
    hide Joined;
    hide Trim;
    hide AppendRuleBlock;
  }

  /** A pending rule can always be evaluated. */
  lemma RuleEvaluates(json: Json, s: State, id: Id, v: Verdict)
    requires KeysMatch(s) && id in s.candidates
    requires s.candidates[id].status.Pending? && s.candidates[id].kind.PromptRule?
    ensures Evaluation(json, s, id, v).1.Ok?
  {
    EvaluationIs(json, s, id, v);
  }

  /** A candidate that may not be promoted without force. */
  predicate Barred(c: Candidate) {
    !c.status.Pending? || !GateOpen(c, false)
  }

  lemma NotPendingFails(json: Json, s: State, id: Id)
    requires id in s.candidates && !s.candidates[id].status.Pending?
    ensures Promotion(json, s, id, false) == (s, Err(NotPending))
  {
  }

  function Elevated(c: Candidate): Candidate {
    c.(status := Promoted, promotedTo := Some(Target(c)))
  }

  function Final(k: Canary, target: Option<Path>): Canary {
    if Ready(k) then k.(status := CanaryPromoted, promotedTo := target) else k
  }

  lemma RulePromotesExactly(json: Json, s: State, id: Id)
    requires id in s.candidates && s.candidates[id].kind.PromptRule?
    ensures Promotion(json, s, id, false).1.Err? <==> Barred(s.candidates[id])
  {
    if s.candidates[id].status.Pending? {
      RuleGate(json, s, id);
    } else {
      NotPendingFails(json, s, id);
    }
    hide Promotion;
    hide GateOpen;
  }

  lemma RuleOf(s: State, id: Id)
    requires RuleCanaries(s) && id in s.canaries
    ensures id in s.candidates && s.candidates[id].kind.PromptRule?
  {
  }

  lemma FinalIs(k: Canary, target: Option<Path>)
    requires Ready(k)
    ensures Final(k, target) == k.(status := CanaryPromoted, promotedTo := target)
  {
  }

  lemma ElevatedIs(c: Candidate)
    ensures Elevated(c) == c.(status := Promoted, promotedTo := Some(Target(c))) && Elevated(c).kind == c.kind
  {
  }

  lemma RulesAfter(s: State, t: State, id: Id, c: Candidate, k: Canary)
    requires RuleCanaries(s) && id in s.canaries && id in s.candidates && c.kind == s.candidates[id].kind
    requires t.canaries == s.canaries[id := k] && t.candidates == s.candidates[id := c]
    ensures RuleCanaries(t)
  {
  }

  lemma RulesSame(s: State, t: State)
    requires RuleCanaries(s) && t.canaries == s.canaries && t.candidates == s.candidates
    ensures RuleCanaries(t)
  {
  }

  /** A ready canary of a rule is finalized exactly when its candidate is pending and its gate open;
      finalizing touches nothing but the two. */
  lemma FinalizeExactly(json: Json, s: State, id: Id)
    requires Settled(s) && RuleCanaries(s) && id in s.canaries && Ready(s.canaries[id])
    ensures id in s.candidates
    ensures var (t, r) := Finalize(json, s, id, false);
            && Settled(t) && RuleCanaries(t) && (r.Err? <==> Barred(s.candidates[id]))
            && (r.Err? ==> t.canaries == s.canaries && t.candidates == s.candidates)
            && (r.Ok? ==>
                  && t.canaries == s.canaries[id := Final(s.canaries[id], Some(Target(s.candidates[id])))]
                  && t.candidates == s.candidates[id := Elevated(s.candidates[id])])
  {
    hide *;
    SettledKeysMatch(s);
    RuleOf(s, id);
    RulePromotesExactly(json, s, id);
    FinalizeMoves(json, s, id, false);
    FinalizeIs(json, s, id, false);
    PromotionIs(json, s, id, false);
    FinalIs(s.canaries[id], Some(Target(s.candidates[id])));
    ElevatedIs(s.candidates[id]);
    var (t, r) := Finalize(json, s, id, false);
    if r.Ok? {
      RulesAfter(s, t, id, t.candidates[id], t.canaries[id]);
    } else {
      RulesSame(s, t);
    }
  }
}
