/** What a cycle that goes through reports: exactly the candidates promoted directly, staged and promoted
    as ready canaries, each in its order. */
module Reports {
  import opened Wrappers
  import opened Evolution
  import opened Sorting
  import opened Sequences
  import opened Store
  import opened StoreRuns
  import opened AutoCycle
  import opened CycleRuns
  import opened AutoLoop
  import opened AutoRuns
  import opened CycleExact

  // ----- Direct promotions -----

  /** The outcomes are those of the candidates fit for direct promotion, in order. */
  ghost predicate DirectReport(cs: seq<Candidate>, input: Input, policy: AutoPolicy, outcomes: seq<Outcome>) {
    exists kept: seq<Candidate> ::
      && Keeps(cs, kept, (c: Candidate) => Direct(c, input, policy))
      && |outcomes| == |kept| && forall i :: 0 <= i < |kept| ==> outcomes[i].candidate.id == kept[i].id
  }

  lemma DirectNothing(input: Input, policy: AutoPolicy)
    ensures DirectReport([], input, policy, [])
  {
    KeepsNothing((c: Candidate) => Direct(c, input, policy));
  }

  lemma DirectFirst(
    cs: seq<Candidate>, input: Input, policy: AutoPolicy, rest: seq<Outcome>, outcomes: seq<Outcome>)
    requires cs != [] && DirectReport(cs[1..], input, policy, rest)
    requires if Direct(cs[0], input, policy) then
               outcomes != [] && outcomes[0].candidate.id == cs[0].id && outcomes[1..] == rest
             else outcomes == rest
    ensures DirectReport(cs, input, policy, outcomes)
  {
    var fit := (c: Candidate) => Direct(c, input, policy);
    hide Direct;
    hide Keeps;
    var kept: seq<Candidate> :|
      Keeps(cs[1..], kept, fit) && |rest| == |kept| &&
      forall i :: 0 <= i < |kept| ==> rest[i].candidate.id == kept[i].id;
    KeepsFirst(cs, kept, fit);
    var now := (if fit(cs[0]) then [cs[0]] else []) + kept;
    forall i | 0 <= i < |now|
      ensures |outcomes| == |now| && outcomes[i].candidate.id == now[i].id
    {
      if fit(cs[0]) && i > 0 {
        assert now[i] == kept[i - 1] && outcomes[i] == outcomes[1..][i - 1];
      }
    }
    assert |outcomes| == |now|;
    DirectReportIs(cs, now, input, policy, outcomes);
  }

  lemma DirectReportIs(
    cs: seq<Candidate>, kept: seq<Candidate>, input: Input, policy: AutoPolicy, outcomes: seq<Outcome>)
    requires Keeps(cs, kept, (c: Candidate) => Direct(c, input, policy)) && |outcomes| == |kept|
    requires forall i :: 0 <= i < |kept| ==> outcomes[i].candidate.id == kept[i].id
    ensures DirectReport(cs, input, policy, outcomes)
  {
    hide Keeps;
    hide Direct;
  }

  /** `more` is what the rest of the list adds to `done`. */
  lemma {:induction false} PromoteAllReports(
    json: Json, s: State, cs: seq<Candidate>, runs: seq<Run>, input: Input, policy: AutoPolicy, done: seq<Outcome>)
    returns (more: seq<Outcome>)
    requires Settled(s) && HaveVerdicts(s, cs, input) && Decided(cs, runs, input)
    ensures PromoteAll(json, s, cs, runs, input, policy, done).1 == Ok(done + more)
    ensures DirectReport(cs, input, policy, more)
    decreases |cs|
  {
    hide *;
    if cs == [] {
      more := [];
      NothingToPromote(json, s, cs, runs, input, policy, done);
      DirectNothing(input, policy);
      assert done + [] == done;
    } else {
      VerdictsRest(s, s, cs, input);
      DecidedTail(cs, runs, input);
      PromoteAllStep(json, s, cs, runs, input, policy, done);
      if Direct(cs[0], input, policy) {
        PromoteOne(json, s, cs, input, policy);
        var (t, r) := Promotion(json, s, cs[0].id, false);
        var next := WithNote(t, Note(input.tape, Some(cs[0].id), WasPromoted));
        var rest := PromoteAllReports(json, next, cs[1..], runs, input, policy, done + [r.value]);
        more := [r.value] + rest;
        assert more[1..] == rest && done + [r.value] + rest == done + more;
        DirectFirst(cs, input, policy, rest, more);
      } else {
        more := PromoteAllReports(json, s, cs[1..], runs, input, policy, done);
        DirectFirst(cs, input, policy, more, more);
      }
    }
  }

  // ----- Stagings -----

  /** The canaries are those of the candidates on probation without an Active one, in order. */
  ghost predicate StagedReport(
    s: State, cs: seq<Candidate>, input: Input, policy: AutoPolicy, staged: seq<Canary>)
  {
    exists kept: seq<Candidate> ::
      && Keeps(cs, kept, (c: Candidate) => Probation(c, input, policy) && !HasActive(s, c.id))
      && |staged| == |kept| && forall i :: 0 <= i < |kept| ==> staged[i].candidateId == kept[i].id
  }

  lemma StagedNothing(s: State, input: Input, policy: AutoPolicy)
    ensures StagedReport(s, [], input, policy, [])
  {
    KeepsNothing((c: Candidate) => Probation(c, input, policy) && !HasActive(s, c.id));
  }

  lemma StagedFirst(
    s: State, cs: seq<Candidate>, input: Input, policy: AutoPolicy, rest: seq<Canary>, staged: seq<Canary>)
    requires cs != [] && StagedReport(s, cs[1..], input, policy, rest)
    requires if Probation(cs[0], input, policy) && !HasActive(s, cs[0].id) then
               staged != [] && staged[0].candidateId == cs[0].id && staged[1..] == rest
             else staged == rest
    ensures StagedReport(s, cs, input, policy, staged)
  {
    var fit := (c: Candidate) => Probation(c, input, policy) && !HasActive(s, c.id);
    hide Probation;
    hide HasActive;
    hide Keeps;
    var kept: seq<Candidate> :|
      Keeps(cs[1..], kept, fit) && |rest| == |kept| &&
      forall i :: 0 <= i < |kept| ==> rest[i].candidateId == kept[i].id;
    KeepsFirst(cs, kept, fit);
    var now := (if fit(cs[0]) then [cs[0]] else []) + kept;
    forall i | 0 <= i < |now|
      ensures |staged| == |now| && staged[i].candidateId == now[i].id
    {
      if fit(cs[0]) && i > 0 {
        assert now[i] == kept[i - 1] && staged[i] == staged[1..][i - 1];
      }
    }
    assert |staged| == |now|;
    StagedReportIs(s, cs, now, input, policy, staged);
  }

  lemma StagedReportIs(
    s: State, cs: seq<Candidate>, kept: seq<Candidate>, input: Input, policy: AutoPolicy, staged: seq<Canary>)
    requires Keeps(cs, kept, (c: Candidate) => Probation(c, input, policy) && !HasActive(s, c.id))
    requires |staged| == |kept| && forall i :: 0 <= i < |kept| ==> staged[i].candidateId == kept[i].id
    ensures StagedReport(s, cs, input, policy, staged)
  {
    hide Keeps;
    hide Probation;
    hide HasActive;
  }

  /** Staging the first candidate decides nothing about the others. */
  lemma StagedSame(
    s: State, t: State, cs: seq<Candidate>, input: Input, policy: AutoPolicy, rest: seq<Canary>)
    requires StagedReport(t, cs, input, policy, rest)
    requires forall i :: 0 <= i < |cs| ==> (HasActive(t, cs[i].id) <==> HasActive(s, cs[i].id))
    ensures StagedReport(s, cs, input, policy, rest)
  {
    var before := (c: Candidate) => Probation(c, input, policy) && !HasActive(t, c.id);
    var fit := (c: Candidate) => Probation(c, input, policy) && !HasActive(s, c.id);
    hide Probation;
    hide HasActive;
    var kept: seq<Candidate> :|
      Keeps(cs, kept, before) && |rest| == |kept| &&
      forall i :: 0 <= i < |kept| ==> rest[i].candidateId == kept[i].id;
    var picks :| Picks(cs, kept, before, picks);
    assert Picks(cs, kept, fit, picks);
  }

  lemma StageSame(s: State, c: Candidate, input: Input, policy: AutoPolicy, id: Id)
    requires Settled(s) && c.status.Pending? && c.id in s.candidates && id != c.id
    ensures var t := Stage(s, c, RunFor(c, input.verdicts(c.id)), input.tape, policy, input.stagedAt).0;
            HasActive(t, id) <==> HasActive(s, id)
  {
    StageOne(s, c, input, policy);
    hide Settled;
    hide Stage;
  }

  lemma {:induction false} StageAllReports(
    s: State, cs: seq<Candidate>, runs: seq<Run>, input: Input, policy: AutoPolicy, done: seq<Canary>)
    returns (more: seq<Canary>)
    requires Settled(s) && Copies(s, cs) && Decided(cs, runs, input)
    ensures StageAll(s, cs, runs, input, policy, done).1 == Ok(done + more)
    ensures StagedReport(s, cs, input, policy, more)
    decreases |cs|
  {
    hide *;
    if cs == [] {
      more := [];
      NothingToStage(s, cs, runs, input, policy, done);
      StagedNothing(s, input, policy);
      assert done + [] == done;
    } else {
      CopiesRest(s, s, cs);
      CopiesUnique(s, cs);
      DecidedTail(cs, runs, input);
      StageStep(s, cs, runs, input, policy, done);
      if Probation(cs[0], input, policy) && !HasActive(s, cs[0].id) {
        StageOne(s, cs[0], input, policy);
        var (t, r) := Stage(s, cs[0], RunFor(cs[0], input.verdicts(cs[0].id)), input.tape, policy, input.stagedAt);
        CopiesRest(s, t, cs);
        var rest := StageAllReports(t, cs[1..], runs, input, policy, done + [r.value]);
        forall i | 0 <= i < |cs[1..]|
          ensures HasActive(t, cs[1..][i].id) <==> HasActive(s, cs[1..][i].id)
        {
          StageSame(s, cs[0], input, policy, cs[1..][i].id);
        }
        StagedSame(s, t, cs[1..], input, policy, rest);
        more := [r.value] + rest;
        assert more[1..] == rest && done + [r.value] + rest == done + more;
        StagedFirst(s, cs, input, policy, rest, more);
      } else {
        more := StageAllReports(s, cs[1..], runs, input, policy, done);
        StagedFirst(s, cs, input, policy, more, more);
      }
    }
  }

  lemma CopiesUnique(s: State, cs: seq<Candidate>)
    requires cs != [] && Copies(s, cs)
    ensures forall i :: 0 <= i < |cs[1..]| ==> cs[1..][i].id != cs[0].id
  {
  }

  // ----- Ready canaries -----

  /** Canaries are listed by the identifiers of their candidates. */
  lemma ListedInOrder(s: State, i: nat, j: nat)
    requires KeysMatch(s) && i < j < |Listed(s.canaries)|
    ensures var a, b := Listed(s.canaries)[i].candidateId, Listed(s.canaries)[j].candidateId;
            a != b && Before(a, b)
  {
    BeforeIsTotalOrder();
    var ids := Sorted(s.canaries.Keys, Before);
    SortedInOrder(s.canaries.Keys, Before, i, j);
    assert ids[i] in ids && ids[j] in ids;
    hide Before;
  }

  /** The outcomes are those of the ready canaries on the list, in order. */
  ghost predicate ReadyReport(ks: seq<Canary>, outcomes: seq<Outcome>) {
    exists kept: seq<Canary> ::
      && Keeps(ks, kept, (k: Canary) => Ready(k))
      && |outcomes| == |kept| && forall i :: 0 <= i < |kept| ==> outcomes[i].candidate.id == kept[i].candidateId
  }

  lemma ReadyNothing()
    ensures ReadyReport([], [])
  {
    KeepsNothing((k: Canary) => Ready(k));
  }

  lemma ReadyFirst(ks: seq<Canary>, rest: seq<Outcome>, outcomes: seq<Outcome>)
    requires ks != [] && ReadyReport(ks[1..], rest)
    requires if Ready(ks[0]) then
               outcomes != [] && outcomes[0].candidate.id == ks[0].candidateId && outcomes[1..] == rest
             else outcomes == rest
    ensures ReadyReport(ks, outcomes)
  {
    var fit := (k: Canary) => Ready(k);
    hide Ready;
    hide Keeps;
    var kept: seq<Canary> :|
      Keeps(ks[1..], kept, fit) && |rest| == |kept| &&
      forall i :: 0 <= i < |kept| ==> rest[i].candidate.id == kept[i].candidateId;
    KeepsFirst(ks, kept, fit);
    var now := (if fit(ks[0]) then [ks[0]] else []) + kept;
    forall i | 0 <= i < |now|
      ensures |outcomes| == |now| && outcomes[i].candidate.id == now[i].candidateId
    {
      if fit(ks[0]) && i > 0 {
        assert now[i] == kept[i - 1] && outcomes[i] == outcomes[1..][i - 1];
      }
    }
    assert |outcomes| == |now|;
    ReadyReportIs(ks, now, outcomes);
  }

  lemma ReadyReportIs(ks: seq<Canary>, kept: seq<Canary>, outcomes: seq<Outcome>)
    requires Keeps(ks, kept, (k: Canary) => Ready(k)) && |outcomes| == |kept|
    requires forall i :: 0 <= i < |kept| ==> outcomes[i].candidate.id == kept[i].candidateId
    ensures ReadyReport(ks, outcomes)
  {
    hide Keeps;
    hide Ready;
  }

  lemma FinalizeReturns(json: Json, s: State, id: Id)
    requires KeysMatch(s) && Finalize(json, s, id, false).1.Ok?
    ensures Finalize(json, s, id, false).1.value.candidate.id == id
  {
    FinalizeIs(json, s, id, false);
    PromotionReturns(json, s, id);
    hide Promotion;
  }

  /** In a list of ready canaries the first that is blocked stops the loop: those before it are
      promoted, and nothing happens to it and those after it. */
  lemma {:induction false} FinalizeAllReports(json: Json, s: State, ks: seq<Canary>, done: seq<Outcome>)
    returns (more: seq<Outcome>)
    requires Settled(s) && RuleCanaries(s) && Loaded(s, ks) && FinalizeAll(json, s, ks, done).1.Ok?
    ensures FinalizeAll(json, s, ks, done).1 == Ok(done + more) && ReadyReport(ks, more)
    decreases |ks|
  {
    hide *;
    if ks == [] {
      more := [];
      NothingToFinalize(json, s, ks, done);
      ReadyNothing();
      assert done + [] == done;
    } else {
      var id := ks[0].candidateId;
      FirstLoaded(s, ks);
      FinalizeAllStep(json, s, ks, done);
      if Ready(ks[0]) {
        SettledKeysMatch(s);
        FinalizeExactly(json, s, id);
        var (t, r) := Finalize(json, s, id, false);
        FinalizeReturns(json, s, id);
        OneChanged(s, t, id, Elevated(s.candidates[id]), Final(s.canaries[id], Some(Target(s.candidates[id]))));
        LoadedTail(s, t, ks);
        var rest := FinalizeAllReports(json, t, ks[1..], done + [r.value]);
        more := [r.value] + rest;
        assert more[1..] == rest && done + [r.value] + rest == done + more;
        ReadyFirst(ks, rest, more);
      } else {
        LoadedTail(s, s, ks);
        more := FinalizeAllReports(json, s, ks[1..], done);
        ReadyFirst(ks, more, more);
      }
    }
  }

  /** Where canary number `n` on the list is the first blocked one. */
  ghost predicate StoppedAt(s: State, t: State, ks: seq<Canary>, n: nat) {
    && n < |ks| && Blocked(s, ks[n]) && (forall i :: 0 <= i < n ==> !Blocked(s, ks[i]))
    && (forall i :: 0 <= i < n ==>
          ks[i].candidateId in t.canaries &&
          t.canaries[ks[i].candidateId] == Final(ks[i], t.canaries[ks[i].candidateId].promotedTo))
    && (forall i :: n <= i < |ks| ==>
          ks[i].candidateId in t.canaries && t.canaries[ks[i].candidateId] == ks[i])
  }

  lemma {:induction false} FinalizeAllStops(json: Json, s: State, ks: seq<Canary>, done: seq<Outcome>)
    returns (n: nat)
    requires Settled(s) && RuleCanaries(s) && Loaded(s, ks) && FinalizeAll(json, s, ks, done).1.Err?
    ensures StoppedAt(s, FinalizeAll(json, s, ks, done).0, ks, n)
    decreases |ks|
  {
    hide *;
    FinalizeAllExactly(json, s, ks, done);
    n := 0;
    if ks == [] {
      NothingToFinalize(json, s, ks, done);
    } else {
      var id := ks[0].candidateId;
      var last := FinalizeAll(json, s, ks, done).0;
      FirstLoaded(s, ks);
      FinalizeAllStep(json, s, ks, done);
      BlockedIs(s, ks[0]);
      if Ready(ks[0]) {
        FinalizeExactly(json, s, id);
        var (t, r) := Finalize(json, s, id, false);
        if r.Ok? {
          var k := Final(s.canaries[id], Some(Target(s.candidates[id])));
          OneChanged(s, t, id, Elevated(s.candidates[id]), k);
          LoadedTail(s, t, ks);
          OthersStay(s, t, ks, Elevated(s.candidates[id]));
          var m := FinalizeAllStops(json, t, ks[1..], done + [r.value]);
          FinalizeAllExactly(json, t, ks[1..], done + [r.value]);
          FirstStays(s, t, last, ks);
          StoppedLater(s, t, last, ks, m, Some(Target(s.candidates[id])));
          n := m + 1;
        } else {
          StoppedFirst(s, t, ks);
        }
      } else {
        LoadedTail(s, s, ks);
        var m := FinalizeAllStops(json, s, ks[1..], done);
        FinalizeAllExactly(json, s, ks[1..], done);
        NotReadyIsFinal(ks[0], None);
        FirstStays(s, s, last, ks);
        StoppedLater(s, s, last, ks, m, None);
        n := m + 1;
      }
    }
  }

  lemma StoppedFirst(s: State, t: State, ks: seq<Canary>)
    requires ks != [] && Loaded(s, ks) && Blocked(s, ks[0]) && t.canaries == s.canaries
    ensures StoppedAt(s, t, ks, 0)
  {
    hide Blocked;
    hide Final;
  }

  lemma FirstStays(s: State, t: State, last: State, ks: seq<Canary>)
    requires ks != [] && Loaded(s, ks) && Attempted(t, last, ks[1..], false) && ks[0].candidateId in t.canaries
    ensures ks[0].candidateId in last.canaries && last.canaries[ks[0].candidateId] == t.canaries[ks[0].candidateId]
  {
    NotAmongTail(s, ks);
    hide Attempt;
    hide Among;
    hide Loaded;
  }

  lemma StoppedLater(
    s: State, t: State, last: State, ks: seq<Canary>, m: nat, target: Option<Path>)
    requires ks != [] && Loaded(s, ks) && StoppedAt(t, last, ks[1..], m) && !Blocked(s, ks[0])
    requires forall i :: 0 < i < |ks| ==>
               Lookup(s.candidates, ks[i].candidateId) == Lookup(t.candidates, ks[i].candidateId)
    requires ks[0].candidateId in last.canaries && last.canaries[ks[0].candidateId] == Final(ks[0], target)
    ensures StoppedAt(s, last, ks, m + 1)
  {
    hide Loaded;
    hide Ready;
    hide Barred;
    forall i | 0 < i < |ks|
      ensures Blocked(s, ks[i]) <==> Blocked(t, ks[1..][i - 1])
    {
      assert Lookup(s.candidates, ks[i].candidateId) == Lookup(t.candidates, ks[i].candidateId);
    }
    FinalKeeps(ks[0], target);
    hide Blocked;
    hide Final;
    assert forall i :: 0 < i < |ks| ==> ks[i] == ks[1..][i - 1];
  }

  lemma FinalKeeps(k: Canary, target: Option<Path>)
    ensures Final(k, target) == Final(k, Final(k, target).promotedTo)
  {
  }

  // ----- The report of a cycle -----

  /** The report lists every candidate with its run; the direct promotions; the stagings, of those
      without a canary that is Active and not overdue; and the ready canaries, by identifier. */
  ghost predicate ReportExact(
    s: State, t: State, cs: seq<Candidate>, report: Report, input: Input, policy: AutoPolicy)
  {
    && report.candidates == cs && RunsOf(cs, input, report.evaluations)
    && DirectReport(cs, input, policy, report.direct)
    && (exists w: State ::
          && (forall id :: HasActive(w, id) <==> HasActive(s, id) && s.canaries[id].expiresAt > input.now)
          && StagedReport(w, cs, input, policy, report.staged))
    && (exists st: State ::
          && t.canaries.Keys == st.canaries.Keys
          && (forall id :: id in st.canaries ==>
                t.canaries[id] == Final(st.canaries[id], t.canaries[id].promotedTo))
          && ReadyReport(Listed(st.canaries), report.ready))
  }

  lemma WatchedActive(p: State, w: State, seen: set<string>, input: Input)
    requires w.canaries.Keys == p.canaries.Keys
    requires forall id :: id in p.canaries ==> w.canaries[id] == Aged(p.canaries[id], seen, input)
    ensures forall id :: HasActive(w, id) <==> HasActive(p, id) && p.canaries[id].expiresAt > input.now
  {
    forall id
      ensures HasActive(w, id) <==> HasActive(p, id) && p.canaries[id].expiresAt > input.now
    {
      assert id in w.canaries.Keys <==> id in p.canaries.Keys;
    }
  }

  lemma AllFinal(st: State, t: State)
    requires RuleCanaries(st) && Attempted(st, t, Listed(st.canaries), true)
    requires forall id :: id in st.canaries ==> Among(Listed(st.canaries), id)
    ensures t.canaries.Keys == st.canaries.Keys
    ensures forall id :: id in st.canaries ==> t.canaries[id] == Final(st.canaries[id], t.canaries[id].promotedTo)
  {
    RulesAreStored(st);
    AttemptedKeys(st, t, Listed(st.canaries), true);
    forall id | id in st.canaries
      ensures id in t.canaries && t.canaries[id] == Final(st.canaries[id], t.canaries[id].promotedTo)
    {
      CanaryAfter(st, t, Listed(st.canaries), true, id);
      AttemptKeeps(st, t, id, true);
    }
  }

  lemma JudgedReport(
    json: Json, s: State, cs: seq<Candidate>, seen: set<string>, input: Input, policy: AutoPolicy,
    e: State, runs: seq<Run>, p: State, direct: seq<Outcome>, st: State, staged: seq<Canary>)
    requires EvaluateAll(json, s, cs, input, []) == (e, Ok(runs))
    requires PromoteAll(json, e, cs, runs, input, policy, []) == (p, Ok(direct))
    requires StageAll(Expire(Observe(p, input.tape, seen), input.now), cs, runs, input, policy, []) == (st, Ok(staged))
    requires Judged(json, s, cs, seen, input, policy).1.Ok?
    ensures var (after, ready) := PromoteReady(json, st);
            && ready.Ok? && Judged(json, s, cs, seen, input, policy).0 == after
            && Judged(json, s, cs, seen, input, policy).1.value == Report(cs, runs, staged, direct, ready.value)
  {
    hide *;
    JudgedIs(json, s, cs, seen, input, policy, e, runs, p, direct, st, staged);
    var (after, ready) := PromoteReady(json, st);
    assert ready.Ok?;
  }

  /** From its candidates on, a cycle that goes through reports exactly what it did. */
  lemma JudgedReportsExactly(
    json: Json, s: State, cs: seq<Candidate>, seen: set<string>, input: Input, policy: AutoPolicy)
    requires Settled(s) && RuleCanaries(s) && Gathered(s, cs) && Judged(json, s, cs, seen, input, policy).1.Ok?
    ensures var (t, r) := Judged(json, s, cs, seen, input, policy);
            ReportExact(s, t, cs, r.value, input, policy)
  {
    hide *;
    NothingYet(cs, input, policy);
    GatheredWaits(s, cs);
    EvaluateAllIs(json, s, cs, input, [], []);
    var (e, runs) := EvaluateAll(json, s, cs, input, []);
    EvaluatedHave(s, e, cs, input);
    RunsDecide(cs, runs.value, input);
    PromoteAllIs(json, e, cs, 0, runs.value, input, policy, []);
    var (p, direct) := PromoteAll(json, e, cs, runs.value, input, policy, []);
    var outcomes := PromoteAllReports(json, e, cs, runs.value, input, policy, []);
    assert [] + outcomes == outcomes;
    WatchedIs(p, seen, input);
    CanariesSame(s, e, p, cs, input, policy);
    var w := Expire(Observe(p, input.tape, seen), input.now);
    SameActive(s, p);
    WatchedActive(p, w, seen, input);
    GatheredCopies(s, w, cs);
    StageAllIs(w, cs, 0, runs.value, input, policy, []);
    var (st, staged) := StageAll(w, cs, runs.value, input, policy, []);
    var canaries := StageAllReports(w, cs, runs.value, input, policy, []);
    assert [] + canaries == canaries;
    StagedRules(json, s, cs, seen, input, policy, e, runs.value, p, direct.value, st, staged.value);
    JudgedReport(json, s, cs, seen, input, policy, e, runs.value, p, direct.value, st, staged.value);
    var (t, ready) := PromoteReady(json, st);
    ReadyFailsExactly(json, st);
    SettledKeysMatch(st);
    ListedIsLoaded(st);
    PromoteReadyIs(json, st);
    var promoted := FinalizeAllReports(json, st, Listed(st.canaries), []);
    assert [] + promoted == promoted;
    AllFinal(st, t);
    ReportExactIs(s, t, cs, Report(cs, runs.value, staged.value, direct.value, ready.value), input, policy, w, st);
  }

  lemma SameActive(s: State, p: State)
    requires p.canaries == s.canaries
    ensures forall id :: HasActive(p, id) <==> HasActive(s, id)
  {
  }

  lemma StagedRules(
    json: Json, s: State, cs: seq<Candidate>, seen: set<string>, input: Input, policy: AutoPolicy,
    e: State, runs: seq<Run>, p: State, direct: seq<Outcome>, st: State, staged: seq<Canary>)
    requires Settled(s) && RuleCanaries(s) && Gathered(s, cs)
    requires Evaluated(s, e, cs, input) && PromotedDirect(e, p, cs, input, policy) && Settled(p)
    requires StagedFrom(Expire(Observe(p, input.tape, seen), input.now), st, cs, input, policy)
    ensures RuleCanaries(st)
  {
    hide *;
    var w := Expire(Observe(p, input.tape, seen), input.now);
    WatchedIs(p, seen, input);
    CanariesSame(s, e, p, cs, input, policy);
    SettledKeysMatch(s);
    forall id | id in s.candidates
      ensures w.candidates[id] == Treated(s, id, cs, seen, input, policy)
    {
      TreatedIs(s, e, p, w, cs, seen, input, policy, id);
    }
    PreparedIs(s, w, st, cs, seen, input, policy);
    PreparedRules(s, st, cs, seen, input, policy);
  }

  lemma ReportExactIs(
    s: State, t: State, cs: seq<Candidate>, report: Report, input: Input, policy: AutoPolicy, w: State, st: State)
    requires report.candidates == cs && RunsOf(cs, input, report.evaluations)
    requires DirectReport(cs, input, policy, report.direct)
    requires forall id :: HasActive(w, id) <==> HasActive(s, id) && s.canaries[id].expiresAt > input.now
    requires StagedReport(w, cs, input, policy, report.staged)
    requires t.canaries.Keys == st.canaries.Keys
    requires forall id :: id in st.canaries ==> t.canaries[id] == Final(st.canaries[id], t.canaries[id].promotedTo)
    requires ReadyReport(Listed(st.canaries), report.ready)
    ensures ReportExact(s, t, cs, report, input, policy)
  {
    hide RunsOf;
    hide DirectReport;
    hide StagedReport;
    hide ReadyReport;
    hide Listed;
    hide Final;
    assert (forall id :: HasActive(w, id) <==> HasActive(s, id) && s.canaries[id].expiresAt > input.now)
        && StagedReport(w, cs, input, policy, report.staged);
  }

  lemma SameReport(
    s: State, noticed: State, t: State, cs: seq<Candidate>, report: Report, input: Input, policy: AutoPolicy)
    requires noticed.canaries == s.canaries && ReportExact(noticed, t, cs, report, input, policy)
    ensures ReportExact(s, t, cs, report, input, policy)
  {
    hide RunsOf;
    hide DirectReport;
    hide StagedReport;
    hide ReadyReport;
    hide Listed;
    hide Final;
    assert forall id :: HasActive(noticed, id) <==> HasActive(s, id);
  }

  /** A cycle that goes through reports exactly what it did. */
  lemma CycleReportsExactly(json: Json, s: State, input: Input, policy: AutoPolicy)
    requires Steady(s) && InputFits(s, input) && Cycle(json, s, input, policy).1.Ok?
    ensures var (t, r) := Cycle(json, s, input, policy);
            ReportExact(s, t, CandidatesOf(json, s, input), r.value, input, policy)
  {
    hide *;
    InputParts(s, input);
    CycleParts(json, s, input, policy);
    NoticedGathers(json, s, input);
    var noticed, cs, seen := Noticed(json, s, input), CandidatesOf(json, s, input), SeenBy(json, s, input);
    JudgedReportsExactly(json, noticed, cs, seen, input, policy);
    var (t, r) := Cycle(json, s, input, policy);
    SameReport(s, noticed, t, cs, r.value, input, policy);
  }
}
