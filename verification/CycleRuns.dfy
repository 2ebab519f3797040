/** A cycle of the automatic loop is a run of store operations, none of them forced. */
module CycleRuns {
  import opened Wrappers
  import opened Evolution
  import opened Bundles
  import opened Sorting
  import opened Store
  import opened StoreRuns
  import opened AutoCycle

  // ----- What distilling yields -----

  predicate Distinct(ids: seq<Id>) {
    forall i, j :: 0 <= i < j < |ids| ==> ids[i] != ids[j]
  }

  /** The identifiers of a cycle's drafts are new to the store. */
  ghost predicate FreshIds(s: State, ids: seq<Id>) {
    Distinct(ids) && forall id :: id in ids ==> id !in s.candidates && id !in s.canaries && id !in s.records
  }

  predicate IsRuleFingerprint(f: string) {
    f != "" && f[0] == 'p'
  }

  lemma FingerprintTellsRules(c: Candidate)
    requires c.fingerprint == Fingerprint(c.kind, c.title, c.content, TargetName(c)) && IsRuleFingerprint(c.fingerprint)
    ensures c.kind.PromptRule?
  {
  }

  predicate IsRuleDraft(c: Candidate) {
    IsNew(c) && c.kind.PromptRule? && IsRuleFingerprint(c.fingerprint)
  }

  lemma DraftIsRuleDraft(json: Json, spec: Spec, tape: string, id: Id, at: int)
    requires DraftFor(json, spec, tape, id, at).Ok?
    ensures IsRuleDraft(DraftFor(json, spec, tape, id, at).value) && DraftFor(json, spec, tape, id, at).value.id == id
  {
    DraftIsNew(json, PromptRule, None, spec.title, spec.summary, spec.content, Some(tape), id, at);
  }

  /** What has been sorted so far: drafts under identifiers used up, skipped fingerprints that exist
      already. */
  ghost predicate SiftedOk(existing: set<string>, used: seq<Id>, d: Distillation) {
    && (forall i :: 0 <= i < |d.drafts| ==> IsRuleDraft(d.drafts[i]) && d.drafts[i].id in used)
    && (forall i, j :: 0 <= i < j < |d.drafts| ==> d.drafts[i].id != d.drafts[j].id)
    && (forall f :: f in d.skipped ==> f in existing && IsRuleFingerprint(f))
  }

  lemma SiftedStep(existing: set<string>, used: seq<Id>, d: Distillation, c: Candidate)
    requires SiftedOk(existing, used, d) && IsRuleDraft(c) && c.id !in used
    ensures SiftedOk(existing, used + [c.id], Sifted(existing, d, c))
  {
    hide IsNew;
    var next := Sifted(existing, d, c);
    forall f | f in next.skipped
      ensures f in existing && IsRuleFingerprint(f)
    {
      assert f in d.skipped || f == c.fingerprint;
    }
    hide IsRuleDraft;
  }

  lemma {:induction false} DraftAllOk(
    json: Json, existing: set<string>, specs: seq<Spec>, ids: seq<Id>, tape: string, at: int, used: seq<Id>,
      done: Distillation)
    requires |ids| == |specs| && Distinct(used + ids) && SiftedOk(existing, used, done)
    ensures var r := DraftAll(json, existing, specs, ids, tape, at, done);
            r.Ok? ==> SiftedOk(existing, used + ids, r.value)
    decreases |specs|
  {
    hide SiftedOk;
    hide DraftFor;
    if specs == [] {
      assert used + ids == used;
    } else {
      var r := DraftFor(json, specs[0], tape, ids[0], at);
      if r.Ok? {
        DraftIsRuleDraft(json, specs[0], tape, ids[0], at);
        assert (used + ids)[|used|] == ids[0];
        assert ids[0] !in used by {
          forall i | 0 <= i < |used|
            ensures used[i] != ids[0]
          {
            assert (used + ids)[i] == used[i];
          }
        }
        SiftedStep(existing, used, done, r.value);
        assert used + ids == used + [ids[0]] + ids[1..];
        DraftAllOk(json, existing, specs[1..], ids[1..], tape, at, used + [ids[0]], Sifted(existing, done, r.value));
      }
    }
  }

  // ----- A cycle is a run of store operations -----

  predicate AllUnforced(ops: seq<Op>) {
    forall i :: 0 <= i < |ops| ==> Unforced(ops[i])
  }

  /** `ops` lead from `s` to `t`. */
  ghost predicate Leads(json: Json, s: State, ops: seq<Op>, t: State) {
    IsRun(json, s, ops) && AllUnforced(ops) && After(json, s, ops) == t
  }

  lemma LeadsNowhere(json: Json, s: State)
    ensures Leads(json, s, [], s)
  {
  }

  lemma LeadsOn(json: Json, s: State, op: Op, rest: seq<Op>, t: State)
    requires Enabled(s, op) && Unforced(op) && Leads(json, Step(json, s, op), rest, t)
    ensures Leads(json, s, [op] + rest, t)
  {
    hide Step;
    hide Enabled;
    hide Unforced;
    assert ([op] + rest)[1..] == rest;
  }

  lemma LeadsThrough(json: Json, s: State, a: seq<Op>, t: State, b: seq<Op>, u: State)
    requires Leads(json, s, a, t) && Leads(json, t, b, u)
    ensures Leads(json, s, a + b, u)
  {
    RunConcat(json, s, a, b);
    hide IsRun;
    hide After;
  }

  lemma NoteLeads(json: Json, s: State, note: Note) returns (ops: seq<Op>)
    ensures Leads(json, s, ops, WithNote(s, note))
  {
    LeadsNowhere(json, WithNote(s, note));
    ops := [Writes(note)] + [];
    LeadsOn(json, s, Writes(note), [], WithNote(s, note));
  }

  lemma {:induction false} EvaluateLeads(json: Json, s: State, cs: seq<Candidate>, input: Input, done: seq<Run>)
    returns (ops: seq<Op>)
    ensures Leads(json, s, ops, EvaluateAll(json, s, cs, input, done).0)
    decreases |cs|
  {
    hide Leads;
    hide Evaluation;
    if cs == [] {
      ops := [];
      LeadsNowhere(json, s);
    } else {
      var op := Evaluates(cs[0].id, input.verdicts(cs[0].id));
      var (t, r) := Evaluation(json, s, cs[0].id, input.verdicts(cs[0].id));
      if r.Err? {
        LeadsNowhere(json, t);
        LeadsOn(json, s, op, [], t);
        ops := [op] + [];
      } else {
        var note := Note(input.tape, Some(cs[0].id), WasEvaluated);
        var rest := EvaluateLeads(json, WithNote(t, note), cs[1..], input, done + [r.value]);
        LeadsOn(json, t, Writes(note), rest, EvaluateAll(json, s, cs, input, done).0);
        ops := [op] + ([Writes(note)] + rest);
        LeadsOn(json, s, op, [Writes(note)] + rest, EvaluateAll(json, s, cs, input, done).0);
      }
    }
  }

  lemma {:induction false} PromoteLeads(
    json: Json, s: State, cs: seq<Candidate>, runs: seq<Run>, input: Input, policy: AutoPolicy, done: seq<Outcome>)
    returns (ops: seq<Op>)
    ensures Leads(json, s, ops, PromoteAll(json, s, cs, runs, input, policy, done).0)
    decreases |cs|
  {
    hide Leads;
    hide Promotion;
    hide ShouldPromote;
    hide RunOf;
    if cs == [] {
      ops := [];
      LeadsNowhere(json, s);
    } else {
      var run := RunOf(runs, cs[0].id);
      if run.None? || !ShouldPromote(cs[0], run.value, input.evidence, policy) {
        ops := PromoteLeads(json, s, cs[1..], runs, input, policy, done);
      } else {
        var op := Promotes(cs[0].id, false);
        var (t, r) := Promotion(json, s, cs[0].id, false);
        if r.Err? {
          LeadsNowhere(json, t);
          LeadsOn(json, s, op, [], t);
          ops := [op] + [];
        } else {
          var note := Note(input.tape, Some(r.value.candidate.id), WasPromoted);
          var last := PromoteAll(json, s, cs, runs, input, policy, done).0;
          var rest := PromoteLeads(json, WithNote(t, note), cs[1..], runs, input, policy, done + [r.value]);
          LeadsOn(json, t, Writes(note), rest, last);
          ops := [op] + ([Writes(note)] + rest);
          LeadsOn(json, s, op, [Writes(note)] + rest, last);
        }
      }
    }
  }

  lemma {:induction false} StageLeads(
    json: Json, s: State, cs: seq<Candidate>, runs: seq<Run>, input: Input, policy: AutoPolicy, done: seq<Canary>)
    returns (ops: seq<Op>)
    requires forall i :: 0 <= i < |cs| ==> cs[i].id in s.candidates
    ensures Leads(json, s, ops, StageAll(s, cs, runs, input, policy, done).0)
    decreases |cs|
  {
    hide Leads;
    hide ShouldStage;
    hide RunOf;
    if cs == [] {
      ops := [];
      LeadsNowhere(json, s);
    } else {
      assert forall i :: 0 <= i < |cs[1..]| ==> cs[1..][i] == cs[i + 1];
      var run := RunOf(runs, cs[0].id);
      if run.None? || !ShouldStage(cs[0], run.value, input.evidence, policy) || HasActive(s, cs[0].id) {
        ops := StageLeads(json, s, cs[1..], runs, input, policy, done);
      } else {
        var op := Stages(cs[0], run.value, input.tape, policy, input.stagedAt);
        var (t, r) := Stage(s, cs[0], run.value, input.tape, policy, input.stagedAt);
        assert t.candidates == s.candidates;
        hide Stage;
        if r.Err? {
          LeadsNowhere(json, t);
          LeadsOn(json, s, op, [], t);
          ops := [op] + [];
        } else {
          var rest := StageLeads(json, t, cs[1..], runs, input, policy, done + [r.value]);
          ops := [op] + rest;
          LeadsOn(json, s, op, rest, StageAll(s, cs, runs, input, policy, done).0);
        }
      }
    }
  }

  lemma {:induction false} FinalizeLeads(json: Json, s: State, ks: seq<Canary>, done: seq<Outcome>)
    returns (ops: seq<Op>)
    ensures Leads(json, s, ops, FinalizeAll(json, s, ks, done).0)
    decreases |ks|
  {
    hide Leads;
    hide Finalize;
    if ks == [] {
      ops := [];
      LeadsNowhere(json, s);
    } else if !Ready(ks[0]) {
      ops := FinalizeLeads(json, s, ks[1..], done);
    } else {
      var op := Finalizes(ks[0].candidateId, false);
      var (t, r) := Finalize(json, s, ks[0].candidateId, false);
      if r.Err? {
        LeadsNowhere(json, t);
        LeadsOn(json, s, op, [], t);
        ops := [op] + [];
      } else {
        var rest := FinalizeLeads(json, t, ks[1..], done + [r.value]);
        ops := [op] + rest;
        LeadsOn(json, s, op, rest, FinalizeAll(json, s, ks, done).0);
      }
    }
  }

  // ----- The candidates of a cycle -----

  /** Stored pending rules, each once. */
  ghost predicate Gathered(s: State, cs: seq<Candidate>) {
    && (forall i :: 0 <= i < |cs| ==>
          && cs[i].id in s.candidates && s.candidates[cs[i].id] == cs[i]
          && cs[i].status.Pending? && cs[i].kind.PromptRule?)
    && (forall i, j :: 0 <= i < j < |cs| ==> cs[i].id != cs[j].id)
  }

  /** Fingerprints and risks are those of the content. */
  ghost predicate Sound(s: State) {
    forall id :: id in s.candidates ==>
      var c := s.candidates[id];
      c.fingerprint == Fingerprint(c.kind, c.title, c.content, TargetName(c)) && c.risk == RiskFor(c.kind)
  }

  lemma FoundIsStored(s: State, f: string)
    requires KeysMatch(s) && Sound(s) && IsRuleFingerprint(f) && ByFingerprint(s, f).Some?
    ensures var c := ByFingerprint(s, f).value;
            c.id in s.candidates && s.candidates[c.id] == c && c.kind.PromptRule? && c.fingerprint == f
  {
    var c := ByFingerprint(s, f).value;
    assert c in Newest(s) && c.fingerprint == f;
    hide Newest;
    hide Fingerprint;
    var id :| id in s.candidates && c == s.candidates[id];
    FingerprintTellsRules(c);
  }

  /** A fingerprint that exists is found, pending if any candidate with it is. */
  lemma FoundIfStored(s: State, f: string, id: Id)
    requires id in s.candidates && s.candidates[id].fingerprint == f
    ensures ByFingerprint(s, f).Some?
    ensures s.candidates[id].status.Pending? ==> ByFingerprint(s, f).value.status.Pending?
  {
    assert s.candidates[id] in Newest(s);
    hide Newest;
  }

  lemma GatheredSnoc(s: State, cs: seq<Candidate>, seen: set<string>, c: Candidate)
    requires Gathered(s, cs) && !Holds(cs, c.id)
    requires c.id in s.candidates && s.candidates[c.id] == c && c.status.Pending? && c.kind.PromptRule?
    requires c.fingerprint in seen && forall i :: 0 <= i < |cs| ==> cs[i].fingerprint in seen
    ensures Gathered(s, cs + [c]) && forall i :: 0 <= i < |cs + [c]| ==> (cs + [c])[i].fingerprint in seen
  {
  }

  lemma PushGathers(s: State, cs: seq<Candidate>, seen: set<string>, f: string)
    requires KeysMatch(s) && Sound(s) && Gathered(s, cs) && IsRuleFingerprint(f) && f in seen
    requires forall i :: 0 <= i < |cs| ==> cs[i].fingerprint in seen
    ensures var next := PushUnique(cs, ByFingerprint(s, f));
            Gathered(s, next) && forall i :: 0 <= i < |next| ==> next[i].fingerprint in seen
  {
    hide ByFingerprint;
    hide Sound;
    hide KeysMatch;
    hide Gathered;
    hide Holds;
    var found := ByFingerprint(s, f);
    if found.Some? {
      FoundIsStored(s, f);
      if !Holds(cs, found.value.id) && found.value.status.Pending? {
        GatheredSnoc(s, cs, seen, found.value);
      }
    }
  }

  lemma {:induction false} SkippedGather(s: State, cs: seq<Candidate>, skipped: seq<string>, seen: set<string>)
    requires KeysMatch(s) && Sound(s) && Gathered(s, cs)
    requires forall f :: f in skipped ==> IsRuleFingerprint(f) && f in seen
    requires forall i :: 0 <= i < |cs| ==> cs[i].fingerprint in seen
    ensures var r := WithSkipped(s, cs, skipped);
            Gathered(s, r) && forall i :: 0 <= i < |r| ==> r[i].fingerprint in seen
    decreases |skipped|
  {
    if skipped != [] {
      PushGathers(s, cs, seen, skipped[0]);
      hide Gathered;
      hide PushUnique;
      SkippedGather(s, PushUnique(cs, ByFingerprint(s, skipped[0])), skipped[1..], seen);
    }
  }

  /** Drafts that can be stored: new, each under its own fresh identifier. */
  ghost predicate Fit(s: State, drafts: seq<Candidate>) {
    && (forall i :: 0 <= i < |drafts| ==>
          IsRuleDraft(drafts[i]) && drafts[i].id !in s.candidates && drafts[i].id !in s.canaries
            && drafts[i].id !in s.records)
    && (forall i, j :: 0 <= i < j < |drafts| ==> drafts[i].id != drafts[j].id)
  }

  lemma FitTail(s: State, drafts: seq<Candidate>)
    requires drafts != [] && Fit(s, drafts)
    ensures Fit(WithCandidate(s, drafts[0]), drafts[1..])
    ensures IsRuleDraft(drafts[0]) && drafts[0].id !in s.candidates
  {
    hide IsRuleDraft;
    assert forall i :: 0 <= i < |drafts[1..]| ==> drafts[1..][i] == drafts[i + 1];
  }

  lemma PersistOne(s: State, c: Candidate)
    requires KeysMatch(s) && Sound(s) && IsRuleDraft(c) && c.id !in s.candidates
    ensures KeysMatch(WithCandidate(s, c)) && Sound(WithCandidate(s, c))
  {
    hide Fingerprint;
  }

  ghost predicate Persisted(s: State, t: State, drafts: seq<Candidate>) {
    && t == s.(candidates := t.candidates)
    && (forall id :: id in s.candidates ==> id in t.candidates && t.candidates[id] == s.candidates[id])
    && (forall i :: 0 <= i < |drafts| ==> drafts[i].id in t.candidates && t.candidates[drafts[i].id] == drafts[i])
  }

  lemma PersistedStep(s: State, t: State, drafts: seq<Candidate>)
    requires drafts != [] && drafts[0].id !in s.candidates
    requires Persisted(WithCandidate(s, drafts[0]), t, drafts[1..])
    ensures Persisted(s, t, drafts)
  {
    var next := WithCandidate(s, drafts[0]);
    assert drafts[0].id in next.candidates;
    assert forall i :: 1 <= i < |drafts| ==> drafts[i] == drafts[1..][i - 1];
  }

  lemma {:induction false} PersistedAre(s: State, drafts: seq<Candidate>)
    requires KeysMatch(s) && Sound(s) && Fit(s, drafts)
    ensures var t := PersistAll(s, drafts);
            KeysMatch(t) && Sound(t) && Persisted(s, t, drafts)
    decreases |drafts|
  {
    hide KeysMatch;
    hide Sound;
    hide Fit;
    hide IsRuleDraft;
    hide WithCandidate;
    if drafts != [] {
      hide Persisted;
      FitTail(s, drafts);
      PersistOne(s, drafts[0]);
      PersistedAre(WithCandidate(s, drafts[0]), drafts[1..]);
      PersistedStep(s, PersistAll(s, drafts), drafts);
    }
  }

  lemma FitLeads(s: State, drafts: seq<Candidate>)
    requires drafts != [] && Fit(s, drafts)
    ensures Enabled(s, Captures(drafts[0]))
  {
  }

  lemma {:induction false} PersistLeads(json: Json, s: State, drafts: seq<Candidate>) returns (ops: seq<Op>)
    requires Fit(s, drafts)
    ensures Leads(json, s, ops, PersistAll(s, drafts))
    decreases |drafts|
  {
    hide Fit;
    hide Leads;
    hide Enabled;
    if drafts == [] {
      ops := [];
      LeadsNowhere(json, s);
    } else {
      FitLeads(s, drafts);
      FitTail(s, drafts);
      var rest := PersistLeads(json, WithCandidate(s, drafts[0]), drafts[1..]);
      ops := [Captures(drafts[0])] + rest;
      LeadsOn(json, s, Captures(drafts[0]), rest, PersistAll(s, drafts));
    }
  }

  // ----- From the tape to the candidates -----

  ghost predicate InputFits(s: State, input: Input) {
    |input.ids| == |input.specs| && FreshIds(s, input.ids)
  }

  lemma DistilledFits(json: Json, s: State, input: Input)
    requires Sound(s) && InputFits(s, input) && Distilled(json, s, input).Ok?
    ensures var d := Distilled(json, s, input).value;
            && Fit(s, d.drafts)
            && (forall f :: f in d.skipped ==> IsRuleFingerprint(f))
  {
    assert [] + input.ids == input.ids;
    DraftAllOk(json, Existing(s), input.specs, input.ids, input.tape, input.at, [], Distillation([], []));
    hide IsRuleDraft;
    hide DraftAll;
  }

  /** The state after distilling, and the candidates of the cycle. */
  lemma DistilledGather(json: Json, s: State, input: Input)
    requires KeysMatch(s) && Sound(s) && InputFits(s, input) && Distilled(json, s, input).Ok?
    ensures var d := Distilled(json, s, input).value;
            var kept := PersistAll(s, d.drafts);
            var cs := WithSkipped(kept, d.drafts, d.skipped);
            && KeysMatch(kept) && Sound(kept) && Persisted(s, kept, d.drafts) && Gathered(kept, cs)
            && forall i :: 0 <= i < |cs| ==> cs[i].fingerprint in SeenIn(d)
  {
    var d := Distilled(json, s, input).value;
    hide *;
    DistilledFits(json, s, input);
    PersistedAre(s, d.drafts);
    DraftsGathered(s, PersistAll(s, d.drafts), d);
    SkippedGather(PersistAll(s, d.drafts), d.drafts, d.skipped, SeenIn(d));
  }

  lemma DraftsGathered(s: State, t: State, d: Distillation)
    requires Fit(s, d.drafts) && Persisted(s, t, d.drafts)
    ensures Gathered(t, d.drafts)
    ensures forall i :: 0 <= i < |d.drafts| ==> d.drafts[i].fingerprint in SeenIn(d)
    ensures forall f :: f in d.skipped ==> f in SeenIn(d)
  {
    hide IsRuleFingerprint;
  }

  // ----- The whole cycle as a run -----

  lemma LeadsReaches(json: Json, s: State, ops: seq<Op>, t: State)
    requires Settled(s) && Leads(json, s, ops, t)
    ensures Settled(t) && forall id :: id in s.candidates ==> id in t.candidates
  {
    RunMoves(json, s, ops);
    hide *;
    ReachesKeeps(s, After(json, s, ops));
    LeadsAfter(json, s, ops, t);
  }

  lemma LeadsAfter(json: Json, s: State, ops: seq<Op>, t: State)
    requires Leads(json, s, ops, t)
    ensures After(json, s, ops) == t
  {
  }

  lemma ReachesKeeps(s: State, t: State)
    requires Reaches(s, t)
    ensures forall id :: id in s.candidates ==> id in t.candidates
  {
  }

  lemma WatchLeads(json: Json, s: State, tape: string, seen: set<string>, now: int) returns (ops: seq<Op>)
    ensures Leads(json, s, ops, Expire(Observe(s, tape, seen), now))
  {
    hide Leads;
    hide Observe;
    hide Expire;
    var watched := Observe(s, tape, seen);
    LeadsNowhere(json, Expire(watched, now));
    LeadsOn(json, watched, Expires(now), [], Expire(watched, now));
    ops := [Observes(tape, seen)] + ([Expires(now)] + []);
    LeadsOn(json, s, Observes(tape, seen), [Expires(now)] + [], Expire(watched, now));
  }

  lemma JudgedLeads(
    json: Json, s: State, cs: seq<Candidate>, seen: set<string>, input: Input, policy: AutoPolicy)
    returns (ops: seq<Op>)
    requires Settled(s) && forall i :: 0 <= i < |cs| ==> cs[i].id in s.candidates
    ensures Leads(json, s, ops, Judged(json, s, cs, seen, input, policy).0)
  {
    hide Leads;
    hide Settled;
    hide EvaluateAll;
    hide PromoteAll;
    hide StageAll;
    hide PromoteReady;
    hide Observe;
    hide Expire;
    ops := EvaluateLeads(json, s, cs, input, []);
    var (evaluated, runs) := EvaluateAll(json, s, cs, input, []);
    if runs.Ok? {
      var (promoted, direct) := PromoteAll(json, evaluated, cs, runs.value, input, policy, []);
      var more := PromoteLeads(json, evaluated, cs, runs.value, input, policy, []);
      LeadsThrough(json, s, ops, evaluated, more, promoted);
      ops := ops + more;
      if direct.Ok? {
        var watched := Expire(Observe(promoted, input.tape, seen), input.now);
        more := WatchLeads(json, promoted, input.tape, seen, input.now);
        LeadsThrough(json, s, ops, promoted, more, watched);
        ops := ops + more;
        LeadsReaches(json, s, ops, watched);
        var (staging, staged) := StageAll(watched, cs, runs.value, input, policy, []);
        more := StageLeads(json, watched, cs, runs.value, input, policy, []);
        LeadsThrough(json, s, ops, watched, more, staging);
        ops := ops + more;
        if staged.Ok? {
          more := ReadyLeads(json, staging);
          LeadsThrough(json, s, ops, staging, more, PromoteReady(json, staging).0);
          ops := ops + more;
        }
      }
    }
  }

  lemma ReadyLeads(json: Json, s: State) returns (ops: seq<Op>)
    ensures Leads(json, s, ops, PromoteReady(json, s).0)
  {
    hide Leads;
    ops := FinalizeLeads(json, s, Listed(s.canaries), []);
  }

  /** A cycle does nothing but a run of store operations, none of them forced: all that holds of
      such runs holds of cycles. */
  lemma CycleLeads(json: Json, s: State, input: Input, policy: AutoPolicy) returns (ops: seq<Op>)
    requires Settled(s) && Sound(s) && InputFits(s, input)
    ensures Leads(json, s, ops, Cycle(json, s, input, policy).0)
  {
    var distilled := Distilled(json, s, input);
    if distilled.Err? {
      LeadsNowhere(json, s);
      ops := [];
    } else {
      var d := distilled.value;
      var kept := PersistAll(s, d.drafts);
      var cs := WithSkipped(kept, d.drafts, d.skipped);
      var note := Note(input.tape, None, WasDistilled);
      CycleIsJudged(json, s, input, policy);
      hide *;
      DistilledFits(json, s, input);
      SettledKeysMatch(s);
      DistilledGather(json, s, input);
      GatheredStored(kept, cs);
      ops := PersistLeads(json, s, d.drafts);
      var noted := NoteLeads(json, kept, note);
      LeadsThrough(json, s, ops, kept, noted, WithNote(kept, note));
      ops := ops + noted;
      LeadsReaches(json, s, ops, WithNote(kept, note));
      NoteKeeps(kept, note);
      var more := JudgedLeads(json, WithNote(kept, note), cs, SeenIn(d), input, policy);
      LeadsThrough(json, s, ops, WithNote(kept, note), more, Cycle(json, s, input, policy).0);
      ops := ops + more;
    }
  }

  lemma CycleIsJudged(json: Json, s: State, input: Input, policy: AutoPolicy)
    requires |input.ids| == |input.specs| && Distilled(json, s, input).Ok?
    ensures var d := Distilled(json, s, input).value;
            var kept := PersistAll(s, d.drafts);
            Cycle(json, s, input, policy) ==
              Judged(json, WithNote(kept, Note(input.tape, None, WasDistilled)), WithSkipped(kept, d.drafts, d.skipped),
                     SeenIn(d), input, policy)
  {
    hide Judged;
    hide Distilled;
  }

  lemma SettledKeysMatch(s: State)
    requires Settled(s)
    ensures KeysMatch(s)
  {
  }

  lemma GatheredStored(s: State, cs: seq<Candidate>)
    requires Gathered(s, cs)
    ensures forall i :: 0 <= i < |cs| ==> cs[i].id in s.candidates
  {
  }

  lemma NoteKeeps(s: State, note: Note)
    ensures WithNote(s, note).candidates == s.candidates && WithNote(s, note).canaries == s.canaries
  {
  }
}
