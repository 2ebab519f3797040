/** How candidates come to be promoted in runs of cycles: exactly which ones a cycle promotes, failing
    or not, and what every promoted candidate had to show for it. */
module Promotions {
  import opened Wrappers
  import opened Evolution
  import opened Store
  import opened StoreRuns
  import opened AutoCycle
  import opened CycleRuns
  import opened AutoLoop
  import opened AutoRuns
  import opened CycleExact
  import opened LoopRuns

  predicate IsPromoted(s: State, id: Id) {
    id in s.candidates && s.candidates[id].status.Promoted?
  }

  /** The candidate's canary was promoted. */
  predicate Won(s: State, id: Id) {
    id in s.canaries && s.canaries[id].status.CanaryPromoted?
  }

  /** The evaluator and the policy of a cycle are for promoting the candidate at once. */
  predicate DirectlyFit(c: Candidate, input: Input, policy: AutoPolicy) {
    var v := input.verdicts(c.id);
    && v.passed && v.score >= policy.minScore && input.evidence >= policy.minEvidence
    && RiskAllows(c.risk, policy.maxDirectPromoteRisk)
  }

  lemma DirectIsFit(c: Candidate, now: Candidate, input: Input, policy: AutoPolicy)
    requires Core(c) == Core(now)
    ensures Direct(c, input, policy) <==> DirectlyFit(now, input, policy)
  {
    CoreKeeps(c, now);
    hide Core;
  }

  // ----- One cycle -----

  lemma AttemptPromotes(s: State, t: State, id: Id, through: bool)
    requires id in s.canaries && id in s.candidates && id in t.canaries && id in t.candidates
    requires Attempt(s, t, id, through)
    ensures IsPromoted(t, id) <==> IsPromoted(s, id) || (Won(t, id) && !Won(s, id))
    ensures Core(t.candidates[id]) == Core(s.candidates[id])
  {
    AttemptKeeps(s, t, id, through);
    hide Core;
    hide Target;
  }

  lemma AmongIsStored(s: State, ks: seq<Canary>, id: Id)
    requires Loaded(s, ks) && Among(ks, id)
    ensures id in s.canaries
  {
  }

  lemma NotAttemptedStays(s: State, t: State, ks: seq<Canary>, through: bool, id: Id)
    requires Attempted(s, t, ks, through) && id in s.candidates && !Among(ks, id)
    ensures id in t.candidates && t.candidates[id] == s.candidates[id]
    ensures Won(t, id) <==> Won(s, id)
  {
    hide Attempt;
    hide Among;
    assert id in t.candidates.Keys;
    assert id in s.canaries <==> id in t.canaries.Keys;
  }

  /** Promoting what is ready promotes the candidates whose canaries it promotes, and no others. */
  lemma ReadyPromotesExactly(json: Json, s: State, id: Id)
    requires Settled(s) && RuleCanaries(s) && id in s.candidates
    ensures var t := PromoteReady(json, s).0;
            && id in t.candidates && Core(t.candidates[id]) == Core(s.candidates[id])
            && (IsPromoted(t, id) <==> IsPromoted(s, id) || (Won(t, id) && !Won(s, id)))
  {
    hide *;
    var (t, r) := PromoteReady(json, s);
    var ks := Listed(s.canaries);
    ReadyFailsExactly(json, s);
    SettledKeysMatch(s);
    ListedIsLoaded(s);
    AttemptedKeys(s, t, ks, r.Ok?);
    if Among(ks, id) {
      AmongIsStored(s, ks, id);
      CanaryAfter(s, t, ks, r.Ok?, id);
      AttemptPromotes(s, t, id, r.Ok?);
    } else {
      NotAttemptedStays(s, t, ks, r.Ok?, id);
      SamePromotion(s, t, id);
    }
  }

  lemma SamePromotion(s: State, t: State, id: Id)
    requires id in s.candidates && id in t.candidates && s.candidates[id].status == t.candidates[id].status
    ensures IsPromoted(t, id) <==> IsPromoted(s, id)
  {
  }

  lemma TreatedPromotes(
    s: State, st: State, cs: seq<Candidate>, seen: set<string>, input: Input, policy: AutoPolicy, id: Id)
    requires Gathered(s, cs) && Prepared(s, st, cs, seen, input, policy) && id in s.candidates
    ensures id in st.candidates && Core(st.candidates[id]) == Core(s.candidates[id])
    ensures IsPromoted(st, id) <==> IsPromoted(s, id) || (Holds(cs, id) && Direct(s.candidates[id], input, policy))
    ensures Won(st, id) <==> Won(s, id)
  {
    TreatedKeeps(s, id, cs, seen, input, policy);
    assert st.candidates[id] == Treated(s, id, cs, seen, input, policy);
    if Holds(cs, id) {
      var i :| 0 <= i < |cs| && cs[i].id == id;
      assert s.candidates[id] == cs[i];
    }
    hide Direct;
    hide Core;
    hide Target;
    hide Gathered;
  }

  /** From its candidates on, a cycle promotes exactly those of them that are fit for it at once, and
      those whose canaries it promotes. */
  lemma JudgedPromotesExactly(
    json: Json, s: State, cs: seq<Candidate>, seen: set<string>, input: Input, policy: AutoPolicy, id: Id)
    requires Settled(s) && RuleCanaries(s) && Gathered(s, cs) && id in s.candidates
    ensures var t := Judged(json, s, cs, seen, input, policy).0;
            && id in t.candidates && Core(t.candidates[id]) == Core(s.candidates[id])
            && (IsPromoted(t, id) <==>
                  || IsPromoted(s, id)
                  || (Holds(cs, id) && Direct(s.candidates[id], input, policy))
                  || (Won(t, id) && !Won(s, id)))
  {
    hide *;
    var st := JudgedPrepares(json, s, cs, seen, input, policy);
    PreparedRules(s, st, cs, seen, input, policy);
    TreatedPromotes(s, st, cs, seen, input, policy, id);
    ReadyPromotesExactly(json, st, id);
  }

  /** What is stored before the candidates are judged is what was there and pending drafts. */
  lemma {:induction false} PersistAddsDrafts(s: State, drafts: seq<Candidate>, id: Id)
    requires forall i :: 0 <= i < |drafts| ==> drafts[i].status.Pending?
    requires id in PersistAll(s, drafts).candidates && id !in s.candidates
    ensures PersistAll(s, drafts).candidates[id].status.Pending?
    decreases |drafts|
  {
    if drafts != [] {
      var next := WithCandidate(s, drafts[0]);
      assert forall i :: 0 <= i < |drafts[1..]| ==> drafts[1..][i] == drafts[i + 1];
      if id in next.candidates {
        PersistKeeps(next, drafts[1..], id);
      } else {
        PersistAddsDrafts(next, drafts[1..], id);
      }
    }
  }

  lemma {:induction false} PersistKeeps(s: State, drafts: seq<Candidate>, id: Id)
    requires id in s.candidates && s.candidates[id].status.Pending?
    requires forall i :: 0 <= i < |drafts| ==> drafts[i].status.Pending?
    ensures id in PersistAll(s, drafts).candidates && PersistAll(s, drafts).candidates[id].status.Pending?
    decreases |drafts|
  {
    if drafts != [] {
      assert forall i :: 0 <= i < |drafts[1..]| ==> drafts[1..][i] == drafts[i + 1];
      PersistKeeps(WithCandidate(s, drafts[0]), drafts[1..], id);
    }
  }

  lemma FitArePending(s: State, drafts: seq<Candidate>)
    requires Fit(s, drafts)
    ensures forall i :: 0 <= i < |drafts| ==> drafts[i].status.Pending?
  {
  }

  lemma NoticedPromotes(json: Json, s: State, input: Input, id: Id)
    requires Steady(s) && InputFits(s, input) && Distilled(json, s, input).Ok?
    ensures IsPromoted(Noticed(json, s, input), id) <==> IsPromoted(s, id)
    ensures Won(Noticed(json, s, input), id) <==> Won(s, id)
  {
    NoticedGathers(json, s, input);
    NoticedIs(json, s, input);
    SteadyParts(s);
    DistilledFits(json, s, input);
    hide Distilled;
    hide Noticed;
    hide Steady;
    hide InputFits;
    hide Fit;
    hide PersistAll;
    var d := Distilled(json, s, input).value;
    FitArePending(s, d.drafts);
    if id in Noticed(json, s, input).candidates && id !in s.candidates {
      PersistAddsDrafts(s, d.drafts, id);
    }
  }

  /** Exactly the candidates a cycle promotes, whether it goes through or not: those it gathered that
      its evaluator and policy are for, and those whose canaries it promoted. */
  lemma CyclePromotesExactly(json: Json, s: State, input: Input, policy: AutoPolicy, id: Id)
    requires Steady(s) && InputFits(s, input)
    ensures var t := Cycle(json, s, input, policy).0;
            IsPromoted(t, id) <==>
              || IsPromoted(s, id)
              || (Holds(CandidatesOf(json, s, input), id) && id in t.candidates &&
                  DirectlyFit(t.candidates[id], input, policy))
              || (id in t.candidates && Won(t, id) && !Won(s, id))
  {
    hide *;
    InputParts(s, input);
    CycleParts(json, s, input, policy);
    var t, cs, seen := Cycle(json, s, input, policy).0, CandidatesOf(json, s, input), SeenBy(json, s, input);
    if Distilled(json, s, input).Ok? {
      var noticed := Noticed(json, s, input);
      NoticedGathers(json, s, input);
      NoticedPromotes(json, s, input, id);
      JudgedAdds(json, noticed, cs, seen, input, policy);
      if id in noticed.candidates {
        JudgedPromotesExactly(json, noticed, cs, seen, input, policy, id);
        DirectIsFit(noticed.candidates[id], t.candidates[id], input, policy);
      } else {
        NotStored(noticed, id);
        NotStored(t, id);
      }
    } else {
      NothingGathered(json, s, input, id);
    }
  }

  lemma NotStored(s: State, id: Id)
    requires id !in s.candidates
    ensures !IsPromoted(s, id)
  {
  }

  lemma NothingGathered(json: Json, s: State, input: Input, id: Id)
    requires |input.ids| == |input.specs| && Distilled(json, s, input).Err?
    ensures !Holds(CandidatesOf(json, s, input), id)
  {
    hide Distilled;
  }

  /** From its candidates on a cycle stores no new ones. */
  lemma JudgedAdds(
    json: Json, s: State, cs: seq<Candidate>, seen: set<string>, input: Input, policy: AutoPolicy)
    requires Settled(s) && RuleCanaries(s) && Gathered(s, cs)
    ensures Judged(json, s, cs, seen, input, policy).0.candidates.Keys == s.candidates.Keys
  {
    hide *;
    var st := JudgedPrepares(json, s, cs, seen, input, policy);
    PreparedRules(s, st, cs, seen, input, policy);
    PreparedParts(s, st, cs, seen, input, policy);
    ReadyFailsExactly(json, st);
    AttemptedKeys(st, PromoteReady(json, st).0, Listed(st.canaries), PromoteReady(json, st).1.Ok?);
  }

  // ----- Runs of cycles -----

  /** Cycle `m` promoted the candidate, and its evaluator and policy were for it. */
  ghost predicate DirectIn(json: Json, s: State, turns: seq<Turn>, id: Id, m: nat)
    requires Shaped(turns)
  {
    && m < |turns|
    && !IsPromoted(Cycles(json, s, turns[..m]), id) && IsPromoted(Cycles(json, s, turns[..m + 1]), id)
    && id in Cycles(json, s, turns).candidates
    && DirectlyFit(Cycles(json, s, turns).candidates[id], turns[m].input, turns[m].policy)
  }

  lemma DirectInStill(json: Json, s: State, turns: seq<Turn>, id: Id, m: nat)
    requires Shaped(turns) && turns != [] && DirectIn(json, s, turns[..|turns| - 1], id, m)
    requires Reaches(Cycles(json, s, turns[..|turns| - 1]), Cycles(json, s, turns))
    ensures DirectIn(json, s, turns, id, m)
  {
    var before := turns[..|turns| - 1];
    PrefixOfPrefix(turns, |turns| - 1);
    assert before[..m] == turns[..m] && before[..m + 1] == turns[..m + 1] && before[m] == turns[m];
    ReachesCore(Cycles(json, s, before), Cycles(json, s, turns), id);
    CoreKeeps(Cycles(json, s, before).candidates[id], Cycles(json, s, turns).candidates[id]);
    hide Core;
    hide Cycles;
    hide Reaches;
    hide IsPromoted;
  }

  lemma DirectInNow(json: Json, s: State, turns: seq<Turn>, id: Id)
    requires Shaped(turns) && turns != []
    requires var last, t := turns[|turns| - 1], Cycles(json, s, turns);
             && !IsPromoted(Cycles(json, s, turns[..|turns| - 1]), id) && IsPromoted(t, id)
             && id in t.candidates && DirectlyFit(t.candidates[id], last.input, last.policy)
    ensures DirectIn(json, s, turns, id, |turns| - 1)
  {
    assert turns[..|turns| - 1 + 1] == turns;
    hide Cycles;
    hide DirectlyFit;
  }

  lemma WonStays(s: State, t: State, seen: set<string>, input: Input, policy: AutoPolicy, id: Id)
    requires CanariesMayAge(s, t, seen, input, policy) && Won(s, id)
    ensures Won(t, id)
  {
    assert MayAge(s.canaries[id], t.canaries[id], seen, input);
  }

  /** Whoever was promoted in a run of cycles was promoted directly in one of them that was for it, or
      his canary was. */
  lemma {:induction false} PromotedSomehow(json: Json, s: State, turns: seq<Turn>, id: Id)
    requires Steady(s) && AllFresh(json, s, turns) && Shaped(turns)
    requires !IsPromoted(s, id) && IsPromoted(Cycles(json, s, turns), id)
    ensures Won(Cycles(json, s, turns), id) || exists m: nat :: DirectIn(json, s, turns, id, m)
    decreases |turns|
  {
    hide Steady;
    hide Cycle;
    hide InputFits;
    hide IsPromoted;
    hide Won;
    hide DirectIn;
    hide CanariesMayAge;
    hide DirectlyFit;
    hide Reaches;
    hide CandidatesOf;
    hide SeenBy;
    hide Holds;
    if turns != [] {
      var before, last := turns[..|turns| - 1], turns[|turns| - 1];
      var u, t := Cycles(json, s, before), Cycles(json, s, turns);
      LoopSteady(json, s, before);
      CycleAges(json, u, last.input, last.policy);
      if IsPromoted(u, id) {
        PromotedSomehow(json, s, before, id);
        if Won(u, id) {
          WonStays(u, t, SeenBy(json, u, last.input), last.input, last.policy, id);
        } else {
          var m: nat :| DirectIn(json, s, before, id, m);
          DirectInStill(json, s, turns, id, m);
        }
      } else {
        CyclePromotesExactly(json, u, last.input, last.policy, id);
        if !Won(t, id) {
          DirectInNow(json, s, turns, id);
        }
      }
    }
  }

  /** So every promotion of the loop was deserved, for any evaluator and policies, whichever cycles
      fail: either the candidate's canary earned it, or the cycle that promoted the candidate had a
      passing run of it, with the score, the evidence and the risk its policy asks for. */
  lemma EveryPromotionWasFit(json: Json, s: State, turns: seq<Turn>, id: Id)
    requires Steady(s) && s.canaries == map[] && AllFresh(json, s, turns) && Shaped(turns)
    requires !IsPromoted(s, id) && IsPromoted(Cycles(json, s, turns), id)
    ensures || (id in Cycles(json, s, turns).candidates && Won(Cycles(json, s, turns), id)
            && Earned(json, s, turns, id))
            || exists m: nat :: DirectIn(json, s, turns, id, m)
  {
    PromotedSomehow(json, s, turns, id);
    if Won(Cycles(json, s, turns), id) {
      PromotionsAreEarned(json, s, turns, id);
    }
    hide *;
  }

  /** Under one policy a candidate with a canary is fit for direct promotion in no cycle of the run. */
  lemma CanariesAreNeverDirect(json: Json, policy: AutoPolicy, s: State, turns: seq<Turn>, id: Id, m: nat)
    requires Steady(s) && s.canaries == map[] && AllFresh(json, s, turns) && Shaped(turns) && m < |turns|
    requires forall i :: 0 <= i < |turns| ==> turns[i].policy == policy
    requires id in Cycles(json, s, turns).canaries
    ensures id in Cycles(json, s, turns).candidates
    ensures !DirectlyFit(Cycles(json, s, turns).candidates[id], turns[m].input, policy)
  {
    LoopCounts(json, s, turns);
    AllCountedAt(json, s, turns, id);
    var n, k := CountedWindow(json, s, turns, id);
    assert CanaryFits(policy, Cycles(json, s, turns).candidates[id], Cycles(json, s, turns).canaries[id]);
    hide Cycles;
    hide AllFresh;
    hide AllCounted;
    hide Tried;
    hide Counted;
    hide OnTrial;
  }
}
