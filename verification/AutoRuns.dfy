/** The stages of a cycle, whatever the evaluator says: what they do to every candidate and every
    canary, and that only the last of them, promoting what is ready, can fail. */
module AutoRuns {
  import opened Wrappers
  import opened Evolution
  import opened Store
  import opened StoreRuns
  import opened AutoCycle
  import opened CycleRuns
  import opened AutoLoop

  // ----- Evaluating -----

  ghost predicate Unique(cs: seq<Candidate>) {
    forall i, j :: 0 <= i < j < |cs| ==> cs[i].id != cs[j].id
  }

  lemma UniqueTail(cs: seq<Candidate>)
    requires cs != [] && Unique(cs)
    ensures Unique(cs[1..])
    ensures forall i :: 0 <= i < |cs[1..]| ==> cs[1..][i] == cs[i + 1] && cs[1..][i].id != cs[0].id
  {
  }

  predicate WaitingRule(s: State, id: Id) {
    id in s.candidates && s.candidates[id].status.Pending? && s.candidates[id].kind.PromptRule?
  }

  ghost predicate Waiting(s: State, cs: seq<Candidate>) {
    Unique(cs) && forall i :: 0 <= i < |cs| ==> WaitingRule(s, cs[i].id)
  }

  function Verdicted(c: Candidate, v: Verdict): Candidate {
    c.(latestEvaluation := Some(v.runId), evaluationPassed := Some(v.passed))
  }

  function RunFor(c: Candidate, v: Verdict): Run {
    Run(v.runId, c.id, v.passed, v.score)
  }

  /** Every candidate on the list got its verdict, and nothing else changed but files and journal. */
  ghost predicate Evaluated(s: State, t: State, cs: seq<Candidate>, input: Input) {
    && t.canaries == s.canaries && t.candidates.Keys == s.candidates.Keys
    && (forall id :: id in s.candidates && !Holds(cs, id) ==> t.candidates[id] == s.candidates[id])
    && (forall i :: 0 <= i < |cs| ==>
          && cs[i].id in s.candidates
          && t.candidates[cs[i].id] == Verdicted(s.candidates[cs[i].id], input.verdicts(cs[i].id)))
  }

  lemma HoldsTail(cs: seq<Candidate>, id: Id)
    requires cs != []
    ensures Holds(cs, id) <==> cs[0].id == id || Holds(cs[1..], id)
  {
    if Holds(cs, id) && cs[0].id != id {
      var i :| 0 <= i < |cs| && cs[i].id == id;
      assert cs[1..][i - 1].id == id;
    }
    if Holds(cs[1..], id) {
      var i :| 0 <= i < |cs[1..]| && cs[1..][i].id == id;
      assert cs[i + 1].id == id;
    }
  }

  lemma NotHeld(cs: seq<Candidate>, id: Id)
    requires forall i :: 0 <= i < |cs| ==> cs[i].id != id
    ensures !Holds(cs, id)
  {
  }

  /** What evaluating the first candidate of the list does. */
  lemma EvaluateOne(json: Json, s: State, cs: seq<Candidate>, input: Input)
    requires cs != [] && Settled(s) && Waiting(s, cs)
    ensures var c, v := cs[0], input.verdicts(cs[0].id);
            var (t, r) := Evaluation(json, s, c.id, v);
            var next := WithNote(t, Note(input.tape, Some(c.id), WasEvaluated));
            && r == Ok(RunFor(c, v)) && Settled(next) && Waiting(next, cs[1..])
            && next.canaries == s.canaries && c.id in s.candidates
            && next.candidates == s.candidates[c.id := Verdicted(s.candidates[c.id], v)]
  {
    hide *;
    var c, v := cs[0], input.verdicts(cs[0].id);
    var note := Note(input.tape, Some(c.id), WasEvaluated);
    SettledKeysMatch(s);
    WaitingFirst(s, cs);
    RuleEvaluates(json, s, c.id, v);
    EvaluationIs(json, s, c.id, v);
    EvaluationMoves(json, s, c.id, v);
    var t := Evaluation(json, s, c.id, v).0;
    NoteSettled(t, note);
    NoteKeeps(t, note);
    OneVerdict(s, WithNote(t, note), cs, v);
    RunForIs(c, v);
  }

  lemma NoteSettled(s: State, note: Note)
    requires Settled(s)
    ensures Settled(WithNote(s, note))
  {
  }

  lemma RunForIs(c: Candidate, v: Verdict)
    ensures RunFor(c, v) == Run(v.runId, c.id, v.passed, v.score)
  {
  }

  lemma WaitingFirst(s: State, cs: seq<Candidate>)
    requires cs != [] && Waiting(s, cs)
    ensures var id := cs[0].id;
            id in s.candidates && s.candidates[id].status.Pending? && s.candidates[id].kind.PromptRule?
  {
    assert WaitingRule(s, cs[0].id);
  }

  lemma OneVerdict(s: State, next: State, cs: seq<Candidate>, v: Verdict)
    requires cs != [] && Waiting(s, cs) && cs[0].id in s.candidates
    requires next.candidates == s.candidates[cs[0].id :=
               s.candidates[cs[0].id].(latestEvaluation := Some(v.runId), evaluationPassed := Some(v.passed))]
    ensures Waiting(next, cs[1..]) && next.candidates == s.candidates[cs[0].id := Verdicted(s.candidates[cs[0].id], v)]
  {
    UniqueTail(cs);
    forall i | 0 <= i < |cs[1..]|
      ensures WaitingRule(next, cs[1..][i].id)
    {
      assert WaitingRule(s, cs[i + 1].id);
    }
  }

  lemma EvaluatedStep(s: State, next: State, t: State, cs: seq<Candidate>, input: Input)
    requires cs != [] && Unique(cs) && cs[0].id in s.candidates && next.canaries == s.canaries
    requires next.candidates == s.candidates[cs[0].id := Verdicted(s.candidates[cs[0].id], input.verdicts(cs[0].id))]
    requires Evaluated(next, t, cs[1..], input)
    ensures Evaluated(s, t, cs, input)
  {
    UniqueTail(cs);
    NotHeld(cs[1..], cs[0].id);
    hide Verdicted;
    forall id
      ensures Holds(cs, id) <==> cs[0].id == id || Holds(cs[1..], id)
    {
      HoldsTail(cs, id);
    }
    forall i | 0 <= i < |cs|
      ensures cs[i].id in s.candidates
      ensures t.candidates[cs[i].id] == Verdicted(s.candidates[cs[i].id], input.verdicts(cs[i].id))
    {
      if i > 0 {
        assert cs[1..][i - 1] == cs[i];
      }
    }
  }

  ghost predicate RunsOf(cs: seq<Candidate>, input: Input, runs: seq<Run>) {
    |runs| == |cs| && forall i :: 0 <= i < |cs| ==> runs[i] == RunFor(cs[i], input.verdicts(cs[i].id))
  }

  /** Evaluation of pending rules never fails. */
  lemma {:induction false} EvaluateAllIs(
    json: Json, s: State, cs: seq<Candidate>, input: Input, done: seq<Run>, past: seq<Candidate>)
    requires Settled(s) && Waiting(s, cs) && RunsOf(past, input, done)
    ensures var (t, r) := EvaluateAll(json, s, cs, input, done);
            r.Ok? && Settled(t) && Evaluated(s, t, cs, input) && RunsOf(past + cs, input, r.value)
    decreases |cs|
  {
    hide *;
    if cs == [] {
      NothingToEvaluate(json, s, cs, input, done);
      assert past + cs == past;
    } else {
      var v := input.verdicts(cs[0].id);
      var (t, r) := Evaluation(json, s, cs[0].id, v);
      var next := WithNote(t, Note(input.tape, Some(cs[0].id), WasEvaluated));
      EvaluateOne(json, s, cs, input);
      EvaluateAllStep(json, s, cs, input, done);
      RunsSnoc(past, cs[0], input, done);
      assert past + [cs[0]] + cs[1..] == past + cs;
      EvaluateAllIs(json, next, cs[1..], input, done + [r.value], past + [cs[0]]);
      WaitingUnique(s, cs);
      EvaluatedStep(s, next, EvaluateAll(json, s, cs, input, done).0, cs, input);
    }
  }

  lemma NothingToEvaluate(json: Json, s: State, cs: seq<Candidate>, input: Input, done: seq<Run>)
    requires cs == []
    ensures EvaluateAll(json, s, cs, input, done) == (s, Ok(done)) && Evaluated(s, s, cs, input)
  {
  }

  lemma WaitingUnique(s: State, cs: seq<Candidate>)
    requires Waiting(s, cs)
    ensures Unique(cs)
  {
  }

  lemma EvaluateAllStep(json: Json, s: State, cs: seq<Candidate>, input: Input, done: seq<Run>)
    requires cs != [] && Evaluation(json, s, cs[0].id, input.verdicts(cs[0].id)).1.Ok?
    ensures var (t, r) := Evaluation(json, s, cs[0].id, input.verdicts(cs[0].id));
            EvaluateAll(json, s, cs, input, done) ==
              EvaluateAll(json, WithNote(t, Note(input.tape, Some(cs[0].id), WasEvaluated)), cs[1..], input,
                done + [r.value])
  {
    hide Evaluation;
  }

  lemma RunsSnoc(past: seq<Candidate>, c: Candidate, input: Input, done: seq<Run>)
    requires RunsOf(past, input, done)
    ensures RunsOf(past + [c], input, done + [RunFor(c, input.verdicts(c.id))])
  {
  }

  // ----- The run of a candidate -----

  lemma {:induction false} RunOfIs(runs: seq<Run>, i: nat)
    requires i < |runs| && forall j :: i < j < |runs| ==> runs[j].candidateId != runs[i].candidateId
    ensures RunOf(runs, runs[i].candidateId) == Some(runs[i])
    decreases |runs|
  {
    if i < |runs| - 1 {
      RunOfIs(runs[..|runs| - 1], i);
    }
  }

  /** The loop finds for each candidate the run that was just made of it. */
  ghost predicate Decided(cs: seq<Candidate>, runs: seq<Run>, input: Input) {
    forall i :: 0 <= i < |cs| ==> RunOf(runs, cs[i].id) == Some(RunFor(cs[i], input.verdicts(cs[i].id)))
  }

  lemma RunsDecide(cs: seq<Candidate>, runs: seq<Run>, input: Input)
    requires Unique(cs) && RunsOf(cs, input, runs)
    ensures Decided(cs, runs, input)
  {
    forall i | 0 <= i < |cs|
      ensures RunOf(runs, cs[i].id) == Some(RunFor(cs[i], input.verdicts(cs[i].id)))
    {
      assert forall j :: i < j < |runs| ==> runs[j].candidateId == cs[j].id;
      RunOfIs(runs, i);
    }
  }

  predicate Direct(c: Candidate, input: Input, policy: AutoPolicy) {
    ShouldPromote(c, RunFor(c, input.verdicts(c.id)), input.evidence, policy)
  }

  predicate Probation(c: Candidate, input: Input, policy: AutoPolicy) {
    ShouldStage(c, RunFor(c, input.verdicts(c.id)), input.evidence, policy)
  }

  /** Nothing is both promoted at once and staged. */
  lemma NeverBoth(c: Candidate, input: Input, policy: AutoPolicy)
    ensures !(Direct(c, input, policy) && Probation(c, input, policy))
  {
  }

  // ----- Promoting directly -----

  /** The stored candidate is a pending rule with the verdict just given. */
  predicate HasVerdict(s: State, c: Candidate, input: Input) {
    WaitingRule(s, c.id) && s.candidates[c.id].evaluationPassed == Some(input.verdicts(c.id).passed)
  }

  ghost predicate HaveVerdicts(s: State, cs: seq<Candidate>, input: Input) {
    Unique(cs) && forall i :: 0 <= i < |cs| ==> HasVerdict(s, cs[i], input)
  }

  /** Exactly the candidates fit for it were promoted, and canaries were left alone. */
  ghost predicate PromotedDirect(s: State, t: State, cs: seq<Candidate>, input: Input, policy: AutoPolicy) {
    && t.canaries == s.canaries && t.candidates.Keys == s.candidates.Keys
    && (forall id :: id in s.candidates && !Holds(cs, id) ==> t.candidates[id] == s.candidates[id])
    && (forall i :: 0 <= i < |cs| ==>
          && cs[i].id in s.candidates
          && t.candidates[cs[i].id] ==
               if Direct(cs[i], input, policy) then Elevated(s.candidates[cs[i].id]) else s.candidates[cs[i].id])
  }

  ghost predicate DirectOutcomes(cs: seq<Candidate>, input: Input, policy: AutoPolicy, outcomes: seq<Outcome>) {
    forall o :: o in outcomes ==>
      exists i :: 0 <= i < |cs| && cs[i].id == o.candidate.id && Direct(cs[i], input, policy)
  }

  lemma DirectPromotes(json: Json, s: State, c: Candidate, input: Input, policy: AutoPolicy)
    requires HasVerdict(s, c, input) && Direct(c, input, policy)
    ensures Promotion(json, s, c.id, false).1.Ok?
  {
    RuleGate(json, s, c.id);
    hide Promotion;
  }

  lemma VerdictsRest(s: State, next: State, cs: seq<Candidate>, input: Input)
    requires cs != [] && HaveVerdicts(s, cs, input)
    requires forall id :: id != cs[0].id && id in s.candidates ==>
               id in next.candidates && next.candidates[id] == s.candidates[id]
    ensures HaveVerdicts(next, cs[1..], input) && HasVerdict(s, cs[0], input)
    ensures Unique(cs) && cs[0].id in s.candidates
  {
    UniqueTail(cs);
    assert HasVerdict(s, cs[0], input);
    forall i | 0 <= i < |cs[1..]|
      ensures HasVerdict(next, cs[1..][i], input)
    {
      assert HasVerdict(s, cs[i + 1], input);
    }
  }

  lemma OneElevated(s: State, t: State, id: Id, target: Path)
    requires id in s.candidates && target == Target(s.candidates[id])
    requires t.candidates == s.candidates[id := s.candidates[id].(status := Promoted, promotedTo := Some(target))]
    ensures t.candidates == s.candidates[id := Elevated(s.candidates[id])]
    ensures forall other :: other != id && other in s.candidates ==>
              other in t.candidates && t.candidates[other] == s.candidates[other]
  {
    hide Target;
  }

  lemma PromoteOne(json: Json, s: State, cs: seq<Candidate>, input: Input, policy: AutoPolicy)
    requires cs != [] && Settled(s) && HaveVerdicts(s, cs, input) && Direct(cs[0], input, policy)
    ensures var c := cs[0];
            var (t, r) := Promotion(json, s, c.id, false);
            var next := WithNote(t, Note(input.tape, Some(c.id), WasPromoted));
            && r.Ok? && r.value.candidate.id == c.id && Settled(next) && HaveVerdicts(next, cs[1..], input)
            && next.canaries == s.canaries && c.id in s.candidates
            && next.candidates == s.candidates[c.id := Elevated(s.candidates[c.id])]
  {
    hide *;
    var c := cs[0];
    var note := Note(input.tape, Some(c.id), WasPromoted);
    SettledKeysMatch(s);
    VerdictsRest(s, s, cs, input);
    DirectPromotes(json, s, c, input, policy);
    PromotionIs(json, s, c.id, false);
    PromotionMoves(json, s, c.id, false);
    PromotionReturns(json, s, c.id);
    var (t, r) := Promotion(json, s, c.id, false);
    OneElevated(s, t, c.id, r.value.target);
    NoteSettled(t, note);
    NoteKeeps(t, note);
    VerdictsRest(s, WithNote(t, note), cs, input);
  }

  lemma PromotionReturns(json: Json, s: State, id: Id)
    requires KeysMatch(s) && Promotion(json, s, id, false).1.Ok?
    ensures Promotion(json, s, id, false).1.value.candidate.id == id
  {
    hide Installed;
  }

  lemma PromotedStep(s: State, next: State, t: State, cs: seq<Candidate>, input: Input, policy: AutoPolicy)
    requires cs != [] && Unique(cs) && cs[0].id in s.candidates && next.canaries == s.canaries
    requires var id := cs[0].id;
             next.candidates == if Direct(cs[0], input, policy) then s.candidates[id := Elevated(s.candidates[id])]
                                else s.candidates
    requires PromotedDirect(next, t, cs[1..], input, policy)
    ensures PromotedDirect(s, t, cs, input, policy)
  {
    UniqueTail(cs);
    NotHeld(cs[1..], cs[0].id);
    hide Direct;
    hide Elevated;
    forall id
      ensures Holds(cs, id) <==> cs[0].id == id || Holds(cs[1..], id)
    {
      HoldsTail(cs, id);
    }
    forall i | 0 <= i < |cs|
      ensures cs[i].id in s.candidates
      ensures t.candidates[cs[i].id] ==
              if Direct(cs[i], input, policy) then Elevated(s.candidates[cs[i].id]) else s.candidates[cs[i].id]
    {
      if i > 0 {
        assert cs[1..][i - 1] == cs[i];
      }
    }
  }

  lemma OutcomesSnoc(cs: seq<Candidate>, input: Input, policy: AutoPolicy, done: seq<Outcome>, o: Outcome, i: nat)
    requires DirectOutcomes(cs, input, policy, done) && i < |cs| && cs[i].id == o.candidate.id
    requires Direct(cs[i], input, policy)
    ensures DirectOutcomes(cs, input, policy, done + [o])
  {
    hide Direct;
    forall x | x in done + [o]
      ensures exists j :: 0 <= j < |cs| && cs[j].id == x.candidate.id && Direct(cs[j], input, policy)
    {
      assert x in done || x == o;
    }
  }

  lemma PromoteAllStep(
    json: Json, s: State, cs: seq<Candidate>, runs: seq<Run>, input: Input, policy: AutoPolicy, done: seq<Outcome>)
    requires cs != [] && RunOf(runs, cs[0].id) == Some(RunFor(cs[0], input.verdicts(cs[0].id)))
    ensures !Direct(cs[0], input, policy) ==>
              PromoteAll(json, s, cs, runs, input, policy, done) ==
                PromoteAll(json, s, cs[1..], runs, input, policy, done)
    ensures Direct(cs[0], input, policy) && Promotion(json, s, cs[0].id, false).1.Ok? ==>
              var (t, r) := Promotion(json, s, cs[0].id, false);
              PromoteAll(json, s, cs, runs, input, policy, done) ==
                PromoteAll(json, WithNote(t, Note(input.tape, Some(r.value.candidate.id), WasPromoted)),
                           cs[1..], runs, input, policy, done + [r.value])
  {
    hide Promotion;
    hide ShouldPromote;
    hide RunOf;
  }

  lemma DecidedTail(cs: seq<Candidate>, runs: seq<Run>, input: Input)
    requires cs != [] && Decided(cs, runs, input)
    ensures Decided(cs[1..], runs, input) && RunOf(runs, cs[0].id) == Some(RunFor(cs[0], input.verdicts(cs[0].id)))
  {
    hide RunOf;
    hide RunFor;
    assert forall i :: 0 <= i < |cs[1..]| ==> cs[1..][i] == cs[i + 1];
  }

  lemma NoneDirect(s: State, cs: seq<Candidate>, input: Input, policy: AutoPolicy)
    requires cs == []
    ensures PromotedDirect(s, s, cs, input, policy)
  {
  }

  /** Direct promotion never fails. `all` is the whole list, of which `cs` is still to come. */
  lemma {:induction false} PromoteAllIs(
    json: Json, s: State, all: seq<Candidate>, from: nat, runs: seq<Run>, input: Input, policy: AutoPolicy,
    done: seq<Outcome>)
    requires from <= |all| && Settled(s) && HaveVerdicts(s, all[from..], input) && Decided(all[from..], runs, input)
    requires DirectOutcomes(all, input, policy, done)
    ensures var (t, r) := PromoteAll(json, s, all[from..], runs, input, policy, done);
            && r.Ok? && Settled(t) && PromotedDirect(s, t, all[from..], input, policy)
            && DirectOutcomes(all, input, policy, r.value)
    decreases |all| - from
  {
    hide *;
    var cs := all[from..];
    if from == |all| {
      NoneDirect(s, cs, input, policy);
      NothingToPromote(json, s, cs, runs, input, policy, done);
    } else {
      var note := Note(input.tape, Some(cs[0].id), WasPromoted);
      assert cs[1..] == all[from + 1..] && cs[0] == all[from];
      VerdictsRest(s, s, cs, input);
      DecidedTail(cs, runs, input);
      PromoteAllStep(json, s, cs, runs, input, policy, done);
      if Direct(cs[0], input, policy) {
        PromoteOne(json, s, cs, input, policy);
        var (t, r) := Promotion(json, s, cs[0].id, false);
        OutcomesSnoc(all, input, policy, done, r.value, from);
        PromoteAllIs(json, WithNote(t, note), all, from + 1, runs, input, policy, done + [r.value]);
        PromotedStep(s, WithNote(t, note), PromoteAll(json, s, cs, runs, input, policy, done).0, cs, input, policy);
      } else {
        PromoteAllIs(json, s, all, from + 1, runs, input, policy, done);
        PromotedStep(s, s, PromoteAll(json, s, cs, runs, input, policy, done).0, cs, input, policy);
      }
    }
  }

  lemma NothingToPromote(
    json: Json, s: State, cs: seq<Candidate>, runs: seq<Run>, input: Input, policy: AutoPolicy, done: seq<Outcome>)
    requires cs == []
    ensures PromoteAll(json, s, cs, runs, input, policy, done) == (s, Ok(done))
  {
  }

  // ----- Staging -----

  /** Copies of stored candidates, pending when they were made. */
  ghost predicate Copies(s: State, cs: seq<Candidate>) {
    Unique(cs) && forall i :: 0 <= i < |cs| ==> cs[i].status.Pending? && cs[i].id in s.candidates
  }

  function FirstCanary(c: Candidate, input: Input, policy: AutoPolicy): Canary {
    NewCanary(c, RunFor(c, input.verdicts(c.id)), input.tape, policy, input.stagedAt)
  }

  /** The canaries that were there are untouched; the new ones are those of candidates on probation,
      each of which has one now. */
  ghost predicate StagedFrom(s: State, t: State, cs: seq<Candidate>, input: Input, policy: AutoPolicy) {
    && t.candidates == s.candidates
    && (forall id :: id in s.canaries ==> id in t.canaries && t.canaries[id] == s.canaries[id])
    && (forall id :: id in t.canaries && id !in s.canaries ==>
          exists i :: 0 <= i < |cs| && cs[i].id == id && Probation(cs[i], input, policy) &&
                      t.canaries[id] == FirstCanary(cs[i], input, policy))
    && (forall i :: 0 <= i < |cs| && Probation(cs[i], input, policy) ==> cs[i].id in t.canaries)
  }

  ghost predicate OnProbation(cs: seq<Candidate>, input: Input, policy: AutoPolicy, ks: seq<Canary>) {
    forall k :: k in ks ==> exists i :: 0 <= i < |cs| && cs[i].id == k.candidateId && Probation(cs[i], input, policy)
  }

  lemma StageStep(s: State, cs: seq<Candidate>, runs: seq<Run>, input: Input, policy: AutoPolicy, done: seq<Canary>)
    requires cs != [] && RunOf(runs, cs[0].id) == Some(RunFor(cs[0], input.verdicts(cs[0].id)))
    requires cs[0].status.Pending?
    ensures var c := cs[0];
            var (t, r) := Stage(s, c, RunFor(c, input.verdicts(c.id)), input.tape, policy, input.stagedAt);
            && r.Ok?
            && StageAll(s, cs, runs, input, policy, done) ==
                 if !Probation(c, input, policy) || HasActive(s, c.id) then
                   StageAll(s, cs[1..], runs, input, policy, done)
                 else StageAll(t, cs[1..], runs, input, policy, done + [r.value])
  {
    hide ShouldStage;
    hide RunOf;
  }

  lemma StageOne(s: State, c: Candidate, input: Input, policy: AutoPolicy)
    requires Settled(s) && c.status.Pending? && c.id in s.candidates
    ensures var (t, r) := Stage(s, c, RunFor(c, input.verdicts(c.id)), input.tape, policy, input.stagedAt);
            && r.Ok? && r.value.candidateId == c.id && Settled(t) && t.candidates == s.candidates
            && t.canaries == if c.id in s.canaries then s.canaries
                             else s.canaries[c.id := FirstCanary(c, input, policy)]
  {
    SettledKeysMatch(s);
    assert c.id in s.canaries ==> s.canaries[c.id].candidateId == c.id;
    StageMoves(s, c, RunFor(c, input.verdicts(c.id)), input.tape, policy, input.stagedAt);
  }

  lemma CopiesRest(s: State, next: State, cs: seq<Candidate>)
    requires cs != [] && Copies(s, cs) && next.candidates == s.candidates
    ensures Copies(next, cs[1..]) && cs[0].status.Pending? && cs[0].id in s.candidates
  {
    UniqueTail(cs);
  }

  lemma StagedStep(
    s: State, next: State, t: State, all: seq<Candidate>, from: nat, input: Input, policy: AutoPolicy)
    requires from < |all| && StagedFrom(next, t, all[from + 1..], input, policy) && next.candidates == s.candidates
    requires var c := all[from];
             next.canaries == if !Probation(c, input, policy) || c.id in s.canaries then s.canaries
                              else s.canaries[c.id := FirstCanary(c, input, policy)]
    ensures StagedFrom(s, t, all[from..], input, policy)
  {
    hide Probation;
    hide FirstCanary;
    var cs := all[from..];
    assert cs[0] == all[from];
    forall id | id in t.canaries && id !in s.canaries
      ensures exists i :: 0 <= i < |cs| && cs[i].id == id && Probation(cs[i], input, policy) &&
                          t.canaries[id] == FirstCanary(cs[i], input, policy)
    {
      if id !in next.canaries {
        var rest := all[from + 1..];
        var j :| 0 <= j < |rest| && rest[j].id == id && Probation(rest[j], input, policy) &&
                 t.canaries[id] == FirstCanary(rest[j], input, policy);
        assert cs[j + 1] == rest[j];
      }
    }
    forall i | 0 <= i < |cs| && Probation(cs[i], input, policy)
      ensures cs[i].id in t.canaries
    {
      if i > 0 {
        assert all[from + 1..][i - 1] == cs[i];
      }
    }
  }

  lemma ProbationSnoc(cs: seq<Candidate>, input: Input, policy: AutoPolicy, ks: seq<Canary>, k: Canary, i: nat)
    requires OnProbation(cs, input, policy, ks) && i < |cs| && cs[i].id == k.candidateId
    requires Probation(cs[i], input, policy)
    ensures OnProbation(cs, input, policy, ks + [k])
  {
    hide Probation;
    forall x | x in ks + [k]
      ensures exists j :: 0 <= j < |cs| && cs[j].id == x.candidateId && Probation(cs[j], input, policy)
    {
      assert x in ks || x == k;
    }
  }

  lemma NothingToStage(s: State, cs: seq<Candidate>, runs: seq<Run>, input: Input, policy: AutoPolicy,
      done: seq<Canary>)
    requires cs == []
    ensures StageAll(s, cs, runs, input, policy, done) == (s, Ok(done)) && StagedFrom(s, s, cs, input, policy)
  {
  }

  /** Staging never fails. */
  lemma {:induction false} StageAllIs(
    s: State, all: seq<Candidate>, from: nat, runs: seq<Run>, input: Input, policy: AutoPolicy, done: seq<Canary>)
    requires from <= |all| && Settled(s) && Copies(s, all[from..]) && Decided(all[from..], runs, input)
    requires OnProbation(all, input, policy, done)
    ensures var (t, r) := StageAll(s, all[from..], runs, input, policy, done);
            && r.Ok? && Settled(t) && StagedFrom(s, t, all[from..], input, policy)
            && OnProbation(all, input, policy, r.value)
    decreases |all| - from
  {
    hide *;
    var cs := all[from..];
    if from == |all| {
      NothingToStage(s, cs, runs, input, policy, done);
    } else {
      assert cs[1..] == all[from + 1..] && cs[0] == all[from];
      CopiesRest(s, s, cs);
      DecidedTail(cs, runs, input);
      StageStep(s, cs, runs, input, policy, done);
      var last := StageAll(s, cs, runs, input, policy, done).0;
      if Probation(cs[0], input, policy) && !HasActive(s, cs[0].id) {
        StageOne(s, cs[0], input, policy);
        var (t, r) := Stage(s, cs[0], RunFor(cs[0], input.verdicts(cs[0].id)), input.tape, policy, input.stagedAt);
        CopiesRest(s, t, cs);
        ProbationSnoc(all, input, policy, done, r.value, from);
        StageAllIs(t, all, from + 1, runs, input, policy, done + [r.value]);
        StagedStep(s, t, last, all, from, input, policy);
      } else {
        ActiveIsStored(s, cs[0].id);
        StageAllIs(s, all, from + 1, runs, input, policy, done);
        StagedStep(s, s, last, all, from, input, policy);
      }
    }
  }

  lemma ActiveIsStored(s: State, id: Id)
    ensures HasActive(s, id) ==> id in s.canaries
  {
  }

  // ----- Promoting what is ready -----

  /** A ready canary is promoted with its candidate, or, unless the attempt went `through`, both stay
      as they were; any other canary stays as it was. */
  predicate Attempt(s: State, t: State, id: Id, through: bool)
    requires id in s.canaries && id in s.candidates && id in t.canaries && id in t.candidates
  {
    var c, k := s.candidates[id], s.canaries[id];
    || (t.canaries[id] == Final(k, Some(Target(c))) && t.candidates[id] == if Ready(k) then Elevated(c) else c)
    || (!through && t.canaries[id] == k && t.candidates[id] == c)
  }

  ghost predicate Attempted(s: State, t: State, ks: seq<Canary>, through: bool) {
    && t.canaries.Keys == s.canaries.Keys && t.candidates.Keys == s.candidates.Keys
    && (forall id :: id in s.canaries && !Among(ks, id) ==> t.canaries[id] == s.canaries[id])
    && (forall id :: id in s.candidates && !Among(ks, id) ==> t.candidates[id] == s.candidates[id])
    && (forall id :: id in s.canaries && Among(ks, id) ==> id in s.candidates && Attempt(s, t, id, through))
  }

  lemma NotAttempted(s: State, t: State, ks: seq<Canary>, through: bool)
    requires RuleCanaries(s) && t.canaries == s.canaries && t.candidates == s.candidates
    requires through ==> ks == []
    ensures Attempted(s, t, ks, through)
  {
    hide Target;
  }

  /** The rest of the list was attempted after its head was. */
  lemma AttemptedStep(s: State, next: State, t: State, ks: seq<Canary>, through: bool)
    requires ks != [] && Loaded(s, ks) && RuleCanaries(s) && Attempted(next, t, ks[1..], through)
    requires next.canaries.Keys == s.canaries.Keys && next.candidates.Keys == s.candidates.Keys
    requires forall id :: id in s.canaries && id != ks[0].candidateId ==> next.canaries[id] == s.canaries[id]
    requires forall id :: id in s.candidates && id != ks[0].candidateId ==> next.candidates[id] == s.candidates[id]
    requires ks[0].candidateId in s.canaries && ks[0].candidateId in s.candidates
    requires Attempt(s, next, ks[0].candidateId, true)
    ensures Attempted(s, t, ks, through)
  {
    NotAmongTail(s, ks);
    hide Ready;
    hide Loaded;
    hide Target;
    hide Final;
    hide Elevated;
    forall id
      ensures Among(ks, id) <==> ks[0].candidateId == id || Among(ks[1..], id)
    {
      AmongTail(ks, id);
    }
    hide Among;
  }

  lemma FinalizeAllStep(json: Json, s: State, ks: seq<Canary>, done: seq<Outcome>)
    requires ks != []
    ensures !Ready(ks[0]) ==> FinalizeAll(json, s, ks, done) == FinalizeAll(json, s, ks[1..], done)
    ensures Ready(ks[0]) ==>
              var (t, r) := Finalize(json, s, ks[0].candidateId, false);
              && (r.Err? ==> FinalizeAll(json, s, ks, done) == (t, Err(r.error)))
              && (r.Ok? ==> FinalizeAll(json, s, ks, done) == FinalizeAll(json, t, ks[1..], done + [r.value]))
  {
    hide Finalize;
  }

  lemma FirstLoaded(s: State, ks: seq<Canary>)
    requires ks != [] && Loaded(s, ks) && RuleCanaries(s)
    ensures var id := ks[0].candidateId; id in s.canaries && s.canaries[id] == ks[0] && id in s.candidates
  {
  }

  /** A ready canary whose candidate may not be promoted any more. */
  predicate Blocked(s: State, k: Canary) {
    Ready(k) && k.candidateId in s.candidates && Barred(s.candidates[k.candidateId])
  }

  predicate AnyBlocked(s: State, ks: seq<Canary>) {
    exists i | 0 <= i < |ks| :: Blocked(s, ks[i])
  }

  lemma AnyBlockedTail(s: State, next: State, ks: seq<Canary>)
    requires ks != []
    requires forall i :: 0 < i < |ks| ==>
               Lookup(s.candidates, ks[i].candidateId) == Lookup(next.candidates, ks[i].candidateId)
    ensures AnyBlocked(s, ks) <==> Blocked(s, ks[0]) || AnyBlocked(next, ks[1..])
  {
    hide Ready;
    hide Barred;
    forall i | 0 < i < |ks|
      ensures Blocked(s, ks[i]) <==> Blocked(next, ks[1..][i - 1])
    {
      assert Lookup(s.candidates, ks[i].candidateId) == Lookup(next.candidates, ks[i].candidateId);
    }
    hide Blocked;
    if AnyBlocked(next, ks[1..]) {
      var i :| 0 <= i < |ks[1..]| && Blocked(next, ks[1..][i]);
      assert Blocked(s, ks[i + 1]);
    }
  }

  lemma OthersStay(s: State, t: State, ks: seq<Canary>, c: Candidate)
    requires ks != [] && Loaded(s, ks) && t.candidates == s.candidates[ks[0].candidateId := c]
    ensures forall i :: 0 < i < |ks| ==>
              Lookup(s.candidates, ks[i].candidateId) == Lookup(t.candidates, ks[i].candidateId)
  {
  }

  lemma OneChanged(s: State, t: State, id: Id, c: Candidate, k: Canary)
    requires id in s.canaries && id in s.candidates
    requires t.canaries == s.canaries[id := k] && t.candidates == s.candidates[id := c]
    ensures t.canaries.Keys == s.canaries.Keys && t.candidates.Keys == s.candidates.Keys
    ensures t.canaries[id] == k && t.candidates[id] == c
    ensures forall other :: other in s.canaries && other != id ==> t.canaries[other] == s.canaries[other]
    ensures forall other :: other in s.candidates && other != id ==> t.candidates[other] == s.candidates[other]
  {
  }

  lemma BlockedIs(s: State, k: Canary)
    requires k.candidateId in s.candidates
    ensures Blocked(s, k) <==> Ready(k) && Barred(s.candidates[k.candidateId])
  {
  }

  lemma AttemptIs(s: State, t: State, id: Id)
    requires id in s.canaries && id in s.candidates && id in t.canaries && id in t.candidates
    requires t.canaries[id] == Final(s.canaries[id], Some(Target(s.candidates[id])))
    requires t.candidates[id] == if Ready(s.canaries[id]) then Elevated(s.candidates[id]) else s.candidates[id]
    ensures Attempt(s, t, id, true)
  {
  }

  lemma NotReadyIsFinal(k: Canary, target: Option<Path>)
    requires !Ready(k)
    ensures Final(k, target) == k
  {
  }

  /** Promoting the ready canaries of rules fails exactly when one of them is blocked; up to then it
      promotes them in order, and nothing else changes. */
  lemma {:induction false} FinalizeAllExactly(json: Json, s: State, ks: seq<Canary>, done: seq<Outcome>)
    requires Settled(s) && RuleCanaries(s) && Loaded(s, ks)
    ensures var (t, r) := FinalizeAll(json, s, ks, done);
            && (r.Err? <==> AnyBlocked(s, ks))
            && Attempted(s, t, ks, r.Ok?)
    decreases |ks|
  {
    hide *;
    var (last, q) := FinalizeAll(json, s, ks, done);
    if ks == [] {
      NothingToFinalize(json, s, ks, done);
      NotAttempted(s, last, ks, q.Ok?);
    } else {
      var id := ks[0].candidateId;
      FirstLoaded(s, ks);
      FinalizeAllStep(json, s, ks, done);
      BlockedIs(s, ks[0]);
      if Ready(ks[0]) {
        FinalizeExactly(json, s, id);
        var (t, r) := Finalize(json, s, id, false);
        if r.Ok? {
          OneChanged(s, t, id, Elevated(s.candidates[id]), Final(s.canaries[id], Some(Target(s.candidates[id]))));
          LoadedTail(s, t, ks);
          OthersStay(s, t, ks, Elevated(s.candidates[id]));
          AnyBlockedTail(s, t, ks);
          FinalizeAllExactly(json, t, ks[1..], done + [r.value]);
          AttemptIs(s, t, id);
          AttemptedStep(s, t, last, ks, q.Ok?);
        } else {
          AnyBlockedTail(s, s, ks);
          NotAttempted(s, last, ks, q.Ok?);
        }
      } else {
        LoadedTail(s, s, ks);
        AnyBlockedTail(s, s, ks);
        FinalizeAllExactly(json, s, ks[1..], done);
        NotReadyIsFinal(s.canaries[id], Some(Target(s.candidates[id])));
        AttemptIs(s, s, id);
        AttemptedStep(s, s, last, ks, q.Ok?);
      }
    }
  }

  lemma NothingToFinalize(json: Json, s: State, ks: seq<Canary>, done: seq<Outcome>)
    requires ks == []
    ensures FinalizeAll(json, s, ks, done) == (s, Ok(done)) && !AnyBlocked(s, ks)
  {
  }

  /** Promoting what is ready fails exactly when some ready canary's candidate is no longer pending
      or its gate is closed. */
  lemma ReadyFailsExactly(json: Json, s: State)
    requires Settled(s) && RuleCanaries(s)
    ensures var (t, r) := PromoteReady(json, s);
            && (r.Err? <==> exists id :: id in s.canaries && Ready(s.canaries[id]) && Barred(s.candidates[id]))
            && Attempted(s, t, Listed(s.canaries), r.Ok?)
            && forall id :: id in s.canaries ==> Among(Listed(s.canaries), id)
  {
    hide *;
    var ks := Listed(s.canaries);
    SettledKeysMatch(s);
    ListedIsLoaded(s);
    FinalizeAllExactly(json, s, ks, []);
    BlockedListed(s, ks);
    PromoteReadyIs(json, s);
  }

  lemma PromoteReadyIs(json: Json, s: State)
    ensures PromoteReady(json, s) == FinalizeAll(json, s, Listed(s.canaries), [])
  {
  }

  lemma BlockedListed(s: State, ks: seq<Canary>)
    requires Settled(s) && Loaded(s, ks) && forall id :: id in s.canaries ==> Among(ks, id)
    ensures AnyBlocked(s, ks) <==> exists id :: id in s.canaries && Ready(s.canaries[id]) && Barred(s.candidates[id])
  {
    hide Ready;
    hide Barred;
    if id :| id in s.canaries && Ready(s.canaries[id]) && Barred(s.candidates[id]) {
      assert Among(ks, id);
      var i :| 0 <= i < |ks| && ks[i].candidateId == id;
      assert Blocked(s, ks[i]);
    }
    if AnyBlocked(s, ks) {
      var i :| 0 <= i < |ks| && Blocked(s, ks[i]);
      assert s.canaries[ks[i].candidateId] == ks[i];
    }
  }

}
