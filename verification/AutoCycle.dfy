/** The automatic loop: distil candidates from a tape, evaluate them, promote the harmless ones,
    and let the others prove themselves as canaries. */
module AutoCycle {
  import opened Wrappers
  import opened Evolution
  import opened Sorting
  import opened Store

  // ----- Distilling -----

  datatype Spec = Spec(title: string, summary: string, content: string)

  /** What a cycle is given: the tape and what its evidence was boiled down to, fresh identifiers
      for drafts, the clock, and the evaluator's verdicts. */
  datatype Input = Input(
    tape: string, evidence: nat, specs: seq<Spec>, ids: seq<Id>, at: int, now: int, stagedAt: int,
    verdicts: Id -> Verdict)

  datatype Distillation = Distillation(drafts: seq<Candidate>, skipped: seq<string>)

  function Existing(s: State): set<string> {
    set id | id in s.candidates :: s.candidates[id].fingerprint
  }

  function DraftFor(json: Json, spec: Spec, tape: string, id: Id, at: int): Result<Candidate, Error> {
    Drafted(json, PromptRule, None, spec.title, spec.summary, spec.content, Some(tape), id, at)
  }

  function Sifted(existing: set<string>, done: Distillation, c: Candidate): Distillation {
    if c.fingerprint in existing then done.(skipped := done.skipped + [c.fingerprint])
    else done.(drafts := done.drafts + [c])
  }

  /** Drafts whose fingerprint exists already are skipped; two of one batch do not exclude each
      other. */
  function DraftAll(
    json: Json, existing: set<string>, specs: seq<Spec>, ids: seq<Id>, tape: string, at: int, done: Distillation)
    : Result<Distillation, Error>
    requires |ids| == |specs|
    decreases |specs|
  {
    if specs == [] then Ok(done)
    else
      var r := DraftFor(json, specs[0], tape, ids[0], at);
      if r.Err? then Err(r.error)
      else DraftAll(json, existing, specs[1..], ids[1..], tape, at, Sifted(existing, done, r.value))
  }

  function Distilled(json: Json, s: State, input: Input): Result<Distillation, Error>
    requires |input.ids| == |input.specs|
  {
    DraftAll(json, Existing(s), input.specs, input.ids, input.tape, input.at, Distillation([], []))
  }

  function PersistAll(s: State, drafts: seq<Candidate>): State
    decreases |drafts|
  {
    if drafts == [] then s else PersistAll(WithCandidate(s, drafts[0]), drafts[1..])
  }

  // ----- The candidates of a cycle -----

  function Keys(s: State): set<(int, string)> {
    set id | id in s.candidates :: (s.candidates[id].createdAt, id)
  }

  /** Candidates in the order of a listing: newest first. */
  function Newest(s: State): (r: seq<Candidate>)
    ensures forall c :: c in r ==> exists id :: id in s.candidates && c == s.candidates[id]
    ensures forall id :: id in s.candidates ==> s.candidates[id] in r
  {
    NewerIsTotalOrder();
    var keys := Sorted(Keys(s), NewerOrSame);
    assert forall k :: k in keys ==> k in Keys(s);
    var r := Picked(s, keys);
    assert forall id :: id in s.candidates ==> s.candidates[id] in r by {
      forall id | id in s.candidates
        ensures s.candidates[id] in r
      {
        assert (s.candidates[id].createdAt, id) in Keys(s);
        var i :| 0 <= i < |keys| && keys[i] == (s.candidates[id].createdAt, id);
        assert r[i] == s.candidates[id];
      }
    }
    r
  }

  function Picked(s: State, keys: seq<(int, string)>): (r: seq<Candidate>)
    requires forall k :: k in keys ==> k.1 in s.candidates
    ensures |r| == |keys| && forall i :: 0 <= i < |r| ==> r[i] == s.candidates[keys[i].1]
  {
    if keys == [] then [] else [s.candidates[keys[0].1]] + Picked(s, keys[1..])
  }

  function FirstWith(cs: seq<Candidate>, fingerprint: string, pending: bool): (r: Option<Candidate>)
    ensures r.Some? ==> r.value in cs && r.value.fingerprint == fingerprint && (pending ==> r.value.status.Pending?)
    ensures r.None? ==> forall c :: c in cs && c.fingerprint == fingerprint ==> pending && !c.status.Pending?
  {
    if cs == [] then None
    else if cs[0].fingerprint == fingerprint && (pending ==> cs[0].status.Pending?) then Some(cs[0])
    else FirstWith(cs[1..], fingerprint, pending)
  }

  /** The newest pending candidate with a fingerprint, or else the newest with it. */
  function ByFingerprint(s: State, fingerprint: string): Option<Candidate> {
    Or(FirstWith(Newest(s), fingerprint, true), FirstWith(Newest(s), fingerprint, false))
  }

  predicate Holds(cs: seq<Candidate>, id: Id) {
    exists i | 0 <= i < |cs| :: cs[i].id == id
  }

  function PushUnique(cs: seq<Candidate>, found: Option<Candidate>): seq<Candidate> {
    if found.None? || Holds(cs, found.value.id) || !found.value.status.Pending? then cs else cs + [found.value]
  }

  function WithSkipped(s: State, cs: seq<Candidate>, skipped: seq<string>): seq<Candidate>
    decreases |skipped|
  {
    if skipped == [] then cs else WithSkipped(s, PushUnique(cs, ByFingerprint(s, skipped[0])), skipped[1..])
  }

  function SeenIn(d: Distillation): set<string> {
    (set i | 0 <= i < |d.drafts| :: d.drafts[i].fingerprint) + (set i | 0 <= i < |d.skipped| :: d.skipped[i])
  }

  // ----- Evaluating, promoting and staging them -----

  function WithNote(s: State, note: Note): State {
    s.(journal := s.journal + [note])
  }

  function EvaluateAll(json: Json, s: State, cs: seq<Candidate>, input: Input, done: seq<Run>)
    : (State, Result<seq<Run>, Error>)
    decreases |cs|
  {
    if cs == [] then (s, Ok(done))
    else
      var (t, r) := Evaluation(json, s, cs[0].id, input.verdicts(cs[0].id));
      match r
      case Err(e) => (t, Err(e))
      case Ok(run) =>
        EvaluateAll(json, WithNote(t, Note(input.tape, Some(cs[0].id), WasEvaluated)), cs[1..], input, done + [run])
  }

  /** The last run of a candidate. */
  function RunOf(runs: seq<Run>, id: Id): Option<Run> {
    if runs == [] then None
    else if runs[|runs| - 1].candidateId == id then Some(runs[|runs| - 1])
    else RunOf(runs[..|runs| - 1], id)
  }

  predicate Passes(run: Run, evidence: nat, policy: AutoPolicy) {
    run.passed && run.score >= policy.minScore && evidence >= policy.minEvidence
  }

  predicate ShouldPromote(c: Candidate, run: Run, evidence: nat, policy: AutoPolicy) {
    Passes(run, evidence, policy) && RiskAllows(c.risk, policy.maxDirectPromoteRisk)
  }

  predicate ShouldStage(c: Candidate, run: Run, evidence: nat, policy: AutoPolicy) {
    && Passes(run, evidence, policy) && RiskAllows(c.risk, policy.maxAutoRisk)
    && !RiskAllows(c.risk, policy.maxDirectPromoteRisk)
  }

  function PromoteAll(
    json: Json, s: State, cs: seq<Candidate>, runs: seq<Run>, input: Input, policy: AutoPolicy, done: seq<Outcome>)
    : (State, Result<seq<Outcome>, Error>)
    decreases |cs|
  {
    if cs == [] then (s, Ok(done))
    else
      var run := RunOf(runs, cs[0].id);
      if run.None? || !ShouldPromote(cs[0], run.value, input.evidence, policy) then
        PromoteAll(json, s, cs[1..], runs, input, policy, done)
      else
        var (t, r) := Promotion(json, s, cs[0].id, false);
        match r
        case Err(e) => (t, Err(e))
        case Ok(outcome) =>
          PromoteAll(json, WithNote(t, Note(input.tape, Some(outcome.candidate.id), WasPromoted)),
                     cs[1..], runs, input, policy, done + [outcome])
  }

  predicate HasActive(s: State, id: Id) {
    id in s.canaries && s.canaries[id].status.Active?
  }

  function StageAll(
    s: State, cs: seq<Candidate>, runs: seq<Run>, input: Input, policy: AutoPolicy, done: seq<Canary>)
    : (State, Result<seq<Canary>, Error>)
    decreases |cs|
  {
    if cs == [] then (s, Ok(done))
    else
      var run := RunOf(runs, cs[0].id);
      if run.None? || !ShouldStage(cs[0], run.value, input.evidence, policy) || HasActive(s, cs[0].id) then
        StageAll(s, cs[1..], runs, input, policy, done)
      else
        var (t, r) := Stage(s, cs[0], run.value, input.tape, policy, input.stagedAt);
        match r
        case Err(e) => (t, Err(e))
        case Ok(k) => StageAll(t, cs[1..], runs, input, policy, done + [k])
  }

  function FinalizeAll(json: Json, s: State, ks: seq<Canary>, done: seq<Outcome>): (State, Result<seq<Outcome>, Error>)
    decreases |ks|
  {
    if ks == [] then (s, Ok(done))
    else if !Ready(ks[0]) then FinalizeAll(json, s, ks[1..], done)
    else
      var (t, r) := Finalize(json, s, ks[0].candidateId, false);
      match r
      case Err(e) => (t, Err(e))
      case Ok(outcome) => FinalizeAll(json, t, ks[1..], done + [outcome])
  }

  function PromoteReady(json: Json, s: State): (State, Result<seq<Outcome>, Error>) {
    FinalizeAll(json, s, Listed(s.canaries), [])
  }

  // ----- The cycle -----

  datatype Report = Report(
    candidates: seq<Candidate>, evaluations: seq<Run>, staged: seq<Canary>, direct: seq<Outcome>, ready: seq<Outcome>)

  /** From the distilled candidates on. */
  function Judged(json: Json, s: State, cs: seq<Candidate>, seen: set<string>, input: Input, policy: AutoPolicy)
    : (State, Result<Report, Error>)
  {
    var (evaluated, runs) := EvaluateAll(json, s, cs, input, []);
    if runs.Err? then (evaluated, Err(runs.error))
    else
      var (promoted, direct) := PromoteAll(json, evaluated, cs, runs.value, input, policy, []);
      if direct.Err? then (promoted, Err(direct.error))
      else
        var watched := Expire(Observe(promoted, input.tape, seen), input.now);
        var (staging, staged) := StageAll(watched, cs, runs.value, input, policy, []);
        if staged.Err? then (staging, Err(staged.error))
        else
          var (after, ready) := PromoteReady(json, staging);
          if ready.Err? then (after, Err(ready.error))
          else (after, Ok(Report(cs, runs.value, staged.value, direct.value, ready.value)))
  }

  function Cycle(json: Json, s: State, input: Input, policy: AutoPolicy): (State, Result<Report, Error>)
    requires |input.ids| == |input.specs|
  {
    match Distilled(json, s, input)
    case Err(e) => (s, Err(e))
    case Ok(d) =>
      var kept := PersistAll(s, d.drafts);
      var cs := WithSkipped(kept, d.drafts, d.skipped);
      Judged(json, WithNote(kept, Note(input.tape, None, WasDistilled)), cs, SeenIn(d), input, policy)
  }

  // ----- The loop over a store -----

  method DraftCandidates(json: Json, existing: set<string>, input: Input) returns (r: Result<Distillation, Error>)
    requires |input.ids| == |input.specs|
    ensures r == DraftAll(json, existing, input.specs, input.ids, input.tape, input.at, Distillation([], []))
  {
    hide Drafted;
    var drafts, skipped: seq<string> := [], [];
    assert input.specs[0..] == input.specs && input.ids[0..] == input.ids;
    for i := 0 to |input.specs|
      invariant DraftAll(json, existing, input.specs, input.ids, input.tape, input.at, Distillation([], [])) ==
                DraftAll(json, existing, input.specs[i..], input.ids[i..], input.tape, input.at,
                  Distillation(drafts, skipped))
    {
      DraftStep(json, existing, input, i, Distillation(drafts, skipped));
      var c := DraftFor(json, input.specs[i], input.tape, input.ids[i], input.at);
      if c.Err? {
        return Err(c.error);
      }
      if c.value.fingerprint in existing {
        skipped := skipped + [c.value.fingerprint];
        continue;
      }
      drafts := drafts + [c.value];
    }
    r := Ok(Distillation(drafts, skipped));
  }

  lemma DraftStep(json: Json, existing: set<string>, input: Input, i: nat, done: Distillation)
    requires |input.ids| == |input.specs| && i < |input.specs|
    ensures DraftAll(json, existing, input.specs[i..], input.ids[i..], input.tape, input.at, done) ==
            var r := DraftFor(json, input.specs[i], input.tape, input.ids[i], input.at);
            if r.Err? then Err(r.error)
            else DraftAll(json, existing, input.specs[i + 1..], input.ids[i + 1..], input.tape, input.at,
                          Sifted(existing, done, r.value))
  {
    assert input.specs[i..][1..] == input.specs[i + 1..] && input.ids[i..][1..] == input.ids[i + 1..];
  }

  method PersistCandidates(store: EvolutionStore, drafts: seq<Candidate>)
    modifies store
    ensures store.View() == PersistAll(old(store.View()), drafts)
  {
    assert drafts[0..] == drafts;
    for i := 0 to |drafts|
      invariant PersistAll(store.View(), drafts[i..]) == PersistAll(old(store.View()), drafts)
    {
      assert drafts[i..][1..] == drafts[i + 1..];
      store.candidates := store.candidates[drafts[i].id := drafts[i]];
    }
  }

  method CandidatesForCycle(store: EvolutionStore, d: Distillation) returns (cs: seq<Candidate>)
    ensures cs == WithSkipped(store.View(), d.drafts, d.skipped)
  {
    hide ByFingerprint;
    cs := d.drafts;
    assert d.skipped[0..] == d.skipped;
    for i := 0 to |d.skipped|
      invariant WithSkipped(store.View(), d.drafts, d.skipped) == WithSkipped(store.View(), cs, d.skipped[i..])
    {
      assert d.skipped[i..][1..] == d.skipped[i + 1..];
      var found := ByFingerprint(store.View(), d.skipped[i]);
      if found.Some? && !Holds(cs, found.value.id) && found.value.status.Pending? {
        cs := cs + [found.value];
      }
    }
  }

  method AppendJournal(store: EvolutionStore, note: Note)
    modifies store`journal
    ensures store.View() == WithNote(old(store.View()), note)
  {
    store.journal := store.journal + [note];
  }

  method EvaluateCandidates(store: EvolutionStore, cs: seq<Candidate>, input: Input)
      returns (r: Result<seq<Run>, Error>)
    modifies store
    ensures (store.View(), r) == EvaluateAll(store.json, old(store.View()), cs, input, [])
  {
    hide Evaluation;
    var runs: seq<Run> := [];
    assert cs[0..] == cs;
    for i := 0 to |cs|
      invariant EvaluateAll(store.json, store.View(), cs[i..], input, runs) ==
                EvaluateAll(store.json, old(store.View()), cs, input, [])
    {
      assert cs[i..][1..] == cs[i + 1..] && cs[i..][0] == cs[i];
      var run := store.Evaluate(cs[i].id, input.verdicts(cs[i].id));
      if run.Err? {
        return Err(run.error);
      }
      AppendJournal(store, Note(input.tape, Some(cs[i].id), WasEvaluated));
      runs := runs + [run.value];
    }
    r := Ok(runs);
  }

  method PromoteDirectCandidates(
    store: EvolutionStore, cs: seq<Candidate>, runs: seq<Run>, input: Input, policy: AutoPolicy)
    returns (r: Result<seq<Outcome>, Error>)
    modifies store
    ensures (store.View(), r) == PromoteAll(store.json, old(store.View()), cs, runs, input, policy, [])
  {
    hide Promotion;
    hide ShouldPromote;
    hide RunOf;
    var promoted: seq<Outcome> := [];
    assert cs[0..] == cs;
    for i := 0 to |cs|
      invariant PromoteAll(store.json, store.View(), cs[i..], runs, input, policy, promoted) ==
                PromoteAll(store.json, old(store.View()), cs, runs, input, policy, [])
    {
      assert cs[i..][1..] == cs[i + 1..] && cs[i..][0] == cs[i];
      var run := RunOf(runs, cs[i].id);
      if run.None? || !ShouldPromote(cs[i], run.value, input.evidence, policy) {
        continue;
      }
      var outcome := store.Promote(cs[i].id, false);
      if outcome.Err? {
        return Err(outcome.error);
      }
      AppendJournal(store, Note(input.tape, Some(outcome.value.candidate.id), WasPromoted));
      promoted := promoted + [outcome.value];
    }
    r := Ok(promoted);
  }

  method StageCandidates(
    store: EvolutionStore, cs: seq<Candidate>, runs: seq<Run>, input: Input, policy: AutoPolicy)
    returns (r: Result<seq<Canary>, Error>)
    modifies store
    ensures (store.View(), r) == StageAll(old(store.View()), cs, runs, input, policy, [])
  {
    hide Stage;
    hide ShouldStage;
    hide RunOf;
    var staged: seq<Canary> := [];
    assert cs[0..] == cs;
    for i := 0 to |cs|
      invariant StageAll(store.View(), cs[i..], runs, input, policy, staged) ==
                StageAll(old(store.View()), cs, runs, input, policy, [])
    {
      assert cs[i..][1..] == cs[i + 1..] && cs[i..][0] == cs[i];
      var run := RunOf(runs, cs[i].id);
      if run.None? || !ShouldStage(cs[i], run.value, input.evidence, policy) {
        continue;
      }
      if HasActive(store.View(), cs[i].id) {
        continue;
      }
      var canary := store.StageCanary(cs[i], run.value, input.tape, policy, input.stagedAt);
      if canary.Err? {
        return Err(canary.error);
      }
      staged := staged + [canary.value];
    }
    r := Ok(staged);
  }

  method PromoteReadyCanaries(store: EvolutionStore) returns (r: Result<seq<Outcome>, Error>)
    modifies store
    ensures (store.View(), r) == PromoteReady(store.json, old(store.View()))
  {
    hide Finalize;
    hide Listed;
    var loaded := Listed(store.canaries);
    var promoted: seq<Outcome> := [];
    assert loaded[0..] == loaded;
    for i := 0 to |loaded|
      invariant FinalizeAll(store.json, store.View(), loaded[i..], promoted) ==
                PromoteReady(store.json, old(store.View()))
    {
      assert loaded[i..][1..] == loaded[i + 1..] && loaded[i..][0] == loaded[i];
      if Ready(loaded[i]) && loaded[i].status.Active? {
        var outcome := store.FinalizeCanary(loaded[i].candidateId, false);
        if outcome.Err? {
          return Err(outcome.error);
        }
        promoted := promoted + [outcome.value];
      }
    }
    r := Ok(promoted);
  }

  method RunAutoCycle(store: EvolutionStore, input: Input, policy: AutoPolicy) returns (r: Result<Report, Error>)
    requires |input.ids| == |input.specs|
    modifies store
    ensures (store.View(), r) == Cycle(store.json, old(store.View()), input, policy)
  {
    hide DraftAll;
    hide PersistAll;
    hide WithSkipped;
    hide SeenIn;
    hide EvaluateAll;
    hide PromoteAll;
    hide Observe;
    hide Expire;
    hide StageAll;
    hide PromoteReady;
    var distilled := DraftCandidates(store.json, Existing(store.View()), input);
    if distilled.Err? {
      return Err(distilled.error);
    }
    PersistCandidates(store, distilled.value.drafts);
    var cs := CandidatesForCycle(store, distilled.value);
    AppendJournal(store, Note(input.tape, None, WasDistilled));
    var runs := EvaluateCandidates(store, cs, input);
    if runs.Err? {
      return Err(runs.error);
    }
    var direct := PromoteDirectCandidates(store, cs, runs.value, input, policy);
    if direct.Err? {
      return Err(direct.error);
    }
    var _ := store.ObserveCanaries(input.tape, SeenIn(distilled.value));
    var _ := store.ExpireCanaries(input.now);
    var staged := StageCandidates(store, cs, runs.value, input, policy);
    if staged.Err? {
      return Err(staged.error);
    }
    var ready := PromoteReadyCanaries(store);
    if ready.Err? {
      return Err(ready.error);
    }
    r := Ok(Report(cs, runs.value, staged.value, direct.value, ready.value));
  }
}
