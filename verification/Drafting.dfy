/** What a cycle drafts and gathers: nothing that is stored already is drafted again, and what is waiting
    in the store for a fingerprint the cycle saw is judged with the drafts. */
module Drafting {
  import opened Wrappers
  import opened Evolution
  import opened Sorting
  import opened Sequences
  import opened Store
  import opened StoreRuns
  import opened AutoCycle
  import opened CycleRuns
  import opened AutoLoop
  import opened AutoRuns
  import opened CycleExact

  /** Some candidate of the store has the fingerprint. */
  predicate IsKnown(s: State, f: string) {
    exists id | id in s.candidates :: s.candidates[id].fingerprint == f
  }

  /** What a spec would become: a pending rule with its trimmed texts. */
  ghost predicate IsDraftOf(c: Candidate, input: Input, i: nat)
    requires i < |input.specs| && |input.ids| == |input.specs|
  {
    var spec := input.specs[i];
    && IsDraft(c, PromptRule, None, spec.title, spec.summary, spec.content)
    && c.id == input.ids[i] && c.sourceTape == Some(input.tape) && c.createdAt == input.at
  }

  function Fingerprints(cs: seq<Candidate>): (r: seq<string>)
    ensures |r| == |cs| && forall i :: 0 <= i < |r| ==> r[i] == cs[i].fingerprint
  {
    seq(|cs|, i requires 0 <= i < |cs| => cs[i].fingerprint)
  }

  /** Each spec is drafted or skipped, in order: skipped exactly when its fingerprint is stored. */
  ghost predicate IsDistilled(s: State, input: Input, d: Distillation)
    requires |input.ids| == |input.specs|
  {
    exists cs, skipped ::
      && |cs| == |input.specs| && (forall i :: 0 <= i < |cs| ==> IsDraftOf(cs[i], input, i))
      && Keeps(cs, d.drafts, (c: Candidate) => !IsKnown(s, c.fingerprint))
      && Keeps(cs, skipped, (c: Candidate) => IsKnown(s, c.fingerprint))
      && d.skipped == Fingerprints(skipped)
  }

  // ----- Distilling -----

  lemma ExistingIsKnown(s: State, f: string)
    ensures f in Existing(s) <==> IsKnown(s, f)
  {
  }

  lemma {:induction false} DraftAllIs(
    json: Json, s: State, specs: seq<Spec>, ids: seq<Id>, tape: string, at: int, done: Distillation)
    returns (cs: seq<Candidate>, kept: seq<Candidate>, skipped: seq<Candidate>)
    requires |ids| == |specs| && DraftAll(json, Existing(s), specs, ids, tape, at, done).Ok?
    ensures |cs| == |specs|
    ensures forall i :: 0 <= i < |cs| ==> DraftFor(json, specs[i], tape, ids[i], at) == Ok(cs[i])
    ensures Keeps(cs, kept, (c: Candidate) => !IsKnown(s, c.fingerprint))
    ensures Keeps(cs, skipped, (c: Candidate) => IsKnown(s, c.fingerprint))
    ensures var d := DraftAll(json, Existing(s), specs, ids, tape, at, done).value;
            d.drafts == done.drafts + kept && d.skipped == done.skipped + Fingerprints(skipped)
    decreases |specs|
  {
    var unknown := (c: Candidate) => !IsKnown(s, c.fingerprint);
    var known := (c: Candidate) => IsKnown(s, c.fingerprint);
    hide DraftFor;
    hide IsKnown;
    hide Keeps;
    if specs == [] {
      cs, kept, skipped := [], [], [];
      KeepsNothing(unknown);
      KeepsNothing(known);
    } else {
      var c := DraftFor(json, specs[0], tape, ids[0], at).value;
      var next := Sifted(Existing(s), done, c);
      ExistingIsKnown(s, c.fingerprint);
      hide Existing;
      var rest, more, passed := DraftAllIs(json, s, specs[1..], ids[1..], tape, at, next);
      cs := [c] + rest;
      assert cs[1..] == rest;
      KeepsFirst(cs, more, unknown);
      KeepsFirst(cs, passed, known);
      kept := (if unknown(c) then [c] else []) + more;
      skipped := (if known(c) then [c] else []) + passed;
      SiftedIs(s, done, c, next, more, passed, kept, skipped);
    }
  }

  lemma SiftedIs(
    s: State, done: Distillation, c: Candidate, next: Distillation, more: seq<Candidate>, passed: seq<Candidate>,
    kept: seq<Candidate>, skipped: seq<Candidate>)
    requires next == if IsKnown(s, c.fingerprint) then done.(skipped := done.skipped + [c.fingerprint])
                     else done.(drafts := done.drafts + [c])
    requires kept == (if !IsKnown(s, c.fingerprint) then [c] else []) + more
    requires skipped == (if IsKnown(s, c.fingerprint) then [c] else []) + passed
    ensures next.drafts + more == done.drafts + kept
    ensures next.skipped + Fingerprints(passed) == done.skipped + Fingerprints(skipped)
  {
    hide IsKnown;
    if IsKnown(s, c.fingerprint) {
      assert Fingerprints(skipped) == [c.fingerprint] + Fingerprints(passed);
    }
  }

  lemma DraftForIs(json: Json, input: Input, i: nat, c: Candidate)
    requires |input.ids| == |input.specs| && i < |input.specs|
    requires DraftFor(json, input.specs[i], input.tape, input.ids[i], input.at) == Ok(c)
    ensures IsDraftOf(c, input, i)
  {
  }

  /** Distilling drafts exactly what is new to the store. */
  lemma DistilledExactly(json: Json, s: State, input: Input)
    requires |input.ids| == |input.specs| && Distilled(json, s, input).Ok?
    ensures IsDistilled(s, input, Distilled(json, s, input).value)
  {
    var d := Distilled(json, s, input).value;
    var cs, kept, skipped := DraftAllIs(json, s, input.specs, input.ids, input.tape, input.at, Distillation([], []));
    assert d.drafts == kept && d.skipped == Fingerprints(skipped);
    hide *;
    forall i | 0 <= i < |cs|
      ensures IsDraftOf(cs[i], input, i)
    {
      DraftForIs(json, input, i, cs[i]);
    }
    IsDistilledIs(s, input, d, cs, skipped);
  }

  lemma IsDistilledIs(s: State, input: Input, d: Distillation, cs: seq<Candidate>, skipped: seq<Candidate>)
    requires |input.ids| == |input.specs|
    requires |cs| == |input.specs| && (forall i :: 0 <= i < |cs| ==> IsDraftOf(cs[i], input, i))
    requires Keeps(cs, d.drafts, (c: Candidate) => !IsKnown(s, c.fingerprint))
    requires Keeps(cs, skipped, (c: Candidate) => IsKnown(s, c.fingerprint))
    requires d.skipped == Fingerprints(skipped)
    ensures IsDistilled(s, input, d)
  {
    hide Keeps;
    hide IsDraftOf;
    hide IsKnown;
  }

  /** No draft has a fingerprint that is stored, and every skipped one is. */
  lemma DraftsAreNew(json: Json, s: State, input: Input)
    requires |input.ids| == |input.specs| && Distilled(json, s, input).Ok?
    ensures var d := Distilled(json, s, input).value;
            && (forall c :: c in d.drafts ==> !IsKnown(s, c.fingerprint))
            && (forall f :: f in d.skipped ==> IsKnown(s, f))
  {
    var d := Distilled(json, s, input).value;
    var cs, kept, skipped := DraftAllIs(json, s, input.specs, input.ids, input.tape, input.at, Distillation([], []));
    assert d.drafts == kept && d.skipped == Fingerprints(skipped);
    hide IsKnown;
    hide DraftAll;
    hide DraftFor;
    KeptAreWanted(cs, kept, (c: Candidate) => !IsKnown(s, c.fingerprint));
    KeptAreWanted(cs, skipped, (c: Candidate) => IsKnown(s, c.fingerprint));
  }

  /** The fingerprints a cycle sees are those of its specs. */
  lemma SeenExactly(json: Json, s: State, input: Input)
    requires |input.ids| == |input.specs| && Distilled(json, s, input).Ok?
    ensures forall f :: f in SeenBy(json, s, input) <==>
              exists i :: 0 <= i < |input.specs| &&
                f == Fingerprint(PromptRule, input.specs[i].title, input.specs[i].content, None)
  {
    var d := Distilled(json, s, input).value;
    var cs, kept, skipped := DraftAllIs(json, s, input.specs, input.ids, input.tape, input.at, Distillation([], []));
    assert d.drafts == kept && d.skipped == Fingerprints(skipped);
    hide *;
    NoticedIs(json, s, input);
    forall i | 0 <= i < |cs|
      ensures cs[i].fingerprint == Fingerprint(PromptRule, input.specs[i].title, input.specs[i].content, None)
    {
      DraftForIs(json, input, i, cs[i]);
      DraftFingerprint(cs[i], input, i);
    }
    SeenOfAll(s, cs, d, kept, skipped);
  }

  lemma DraftFingerprint(c: Candidate, input: Input, i: nat)
    requires i < |input.specs| && |input.ids| == |input.specs| && IsDraftOf(c, input, i)
    ensures c.fingerprint == Fingerprint(PromptRule, input.specs[i].title, input.specs[i].content, None)
  {
    hide Fingerprint;
  }

  lemma SeenInIs(d: Distillation, kept: seq<Candidate>, skipped: seq<Candidate>)
    requires d.drafts == kept && d.skipped == Fingerprints(skipped)
    ensures forall f :: f in SeenIn(d) <==>
              (exists c :: c in kept && c.fingerprint == f) || (exists c :: c in skipped && c.fingerprint == f)
  {
    forall f
      ensures f in SeenIn(d) <==>
              (exists c :: c in kept && c.fingerprint == f) || (exists c :: c in skipped && c.fingerprint == f)
    {
      if c :| c in kept && c.fingerprint == f {
        var i :| 0 <= i < |kept| && kept[i] == c;
        assert d.drafts[i].fingerprint == f;
      } else if c :| c in skipped && c.fingerprint == f {
        var i :| 0 <= i < |skipped| && skipped[i] == c;
        assert d.skipped[i] == f;
      }
    }
  }

  lemma SeenOfAll(s: State, cs: seq<Candidate>, d: Distillation, kept: seq<Candidate>, skipped: seq<Candidate>)
    requires Keeps(cs, kept, (c: Candidate) => !IsKnown(s, c.fingerprint))
    requires Keeps(cs, skipped, (c: Candidate) => IsKnown(s, c.fingerprint))
    requires d.drafts == kept && d.skipped == Fingerprints(skipped)
    ensures forall f :: f in SeenIn(d) <==> exists i :: 0 <= i < |cs| && cs[i].fingerprint == f
  {
    hide *;
    KeptAreWanted(cs, kept, (c: Candidate) => !IsKnown(s, c.fingerprint));
    KeptAreWanted(cs, skipped, (c: Candidate) => IsKnown(s, c.fingerprint));
    SeenInIs(d, kept, skipped);
    forall f
      ensures f in SeenIn(d) <==> exists i :: 0 <= i < |cs| && cs[i].fingerprint == f
    {
      SeenOfEither(s, cs, kept, skipped, f);
    }
  }

  lemma SeenOfEither(s: State, cs: seq<Candidate>, kept: seq<Candidate>, skipped: seq<Candidate>, f: string)
    requires forall c :: c in kept <==> c in cs && !IsKnown(s, c.fingerprint)
    requires forall c :: c in skipped <==> c in cs && IsKnown(s, c.fingerprint)
    ensures (exists c :: c in kept && c.fingerprint == f) || (exists c :: c in skipped && c.fingerprint == f) <==>
            exists i :: 0 <= i < |cs| && cs[i].fingerprint == f
  {
    hide IsKnown;
    if i :| 0 <= i < |cs| && cs[i].fingerprint == f {
      assert cs[i] in cs;
    }
  }

  // ----- What a cycle adds -----

  lemma {:induction false} PersistAdds(s: State, drafts: seq<Candidate>, id: Id)
    requires id in PersistAll(s, drafts).candidates && id !in s.candidates
    ensures exists i :: 0 <= i < |drafts| && drafts[i].id == id && PersistAll(s, drafts).candidates[id] in drafts
    decreases |drafts|
  {
    if drafts != [] {
      var next, rest := WithCandidate(s, drafts[0]), drafts[1..];
      assert forall i :: 0 <= i < |rest| ==> rest[i] == drafts[i + 1];
      if id in next.candidates {
        PersistOverwrites(next, rest, id);
        assert drafts[0] in drafts && drafts[0].id == id;
      } else {
        PersistAdds(next, rest, id);
        var i :| 0 <= i < |rest| && rest[i].id == id && PersistAll(next, rest).candidates[id] in rest;
        assert drafts[i + 1].id == id;
      }
    }
  }

  lemma {:induction false} PersistOverwrites(s: State, drafts: seq<Candidate>, id: Id)
    requires id in s.candidates
    ensures id in PersistAll(s, drafts).candidates
    ensures var c := PersistAll(s, drafts).candidates[id]; c == s.candidates[id] || c in drafts
    decreases |drafts|
  {
    if drafts != [] {
      PersistOverwrites(WithCandidate(s, drafts[0]), drafts[1..], id);
    }
  }

  /** Every candidate a cycle adds, whether it goes through or not, has a fingerprint that was new. */
  lemma CycleAddsNew(json: Json, s: State, input: Input, policy: AutoPolicy, id: Id)
    requires Steady(s) && InputFits(s, input)
    requires id in Cycle(json, s, input, policy).0.candidates && id !in s.candidates
    ensures !IsKnown(s, Cycle(json, s, input, policy).0.candidates[id].fingerprint)
  {
    hide *;
    InputParts(s, input);
    CycleParts(json, s, input, policy);
    var t := Cycle(json, s, input, policy).0;
    var d := Distilled(json, s, input).value;
    var kept, noticed := PersistAll(s, d.drafts), Noticed(json, s, input);
    NoticedGathers(json, s, input);
    NoticedIs(json, s, input);
    NoteKeeps(kept, Note(input.tape, None, WasDistilled));
    DraftsAreNew(json, s, input);
    var cs, seen := CandidatesOf(json, s, input), SeenBy(json, s, input);
    var ops := JudgedSame(json, noticed, cs, seen, input, policy, id);
    PersistAdds(s, d.drafts, id);
    assert kept.candidates[id] in d.drafts;
  }

  /** From its candidates on a cycle adds none, and no fingerprint changes. */
  lemma JudgedSame(
    json: Json, s: State, cs: seq<Candidate>, seen: set<string>, input: Input, policy: AutoPolicy, id: Id)
    returns (ops: seq<Op>)
    requires Settled(s) && RuleCanaries(s) && Gathered(s, cs)
    requires id in Judged(json, s, cs, seen, input, policy).0.candidates
    ensures id in s.candidates
    ensures Judged(json, s, cs, seen, input, policy).0.candidates[id].fingerprint == s.candidates[id].fingerprint
  {
    hide *;
    var t := Judged(json, s, cs, seen, input, policy).0;
    var st := JudgedPrepares(json, s, cs, seen, input, policy);
    PreparedRules(s, st, cs, seen, input, policy);
    PreparedParts(s, st, cs, seen, input, policy);
    ReadyFailsExactly(json, st);
    AttemptedKeys(st, PromoteReady(json, st).0, Listed(st.canaries), PromoteReady(json, st).1.Ok?);
    GatheredStored(s, cs);
    ops := JudgedLeads(json, s, cs, seen, input, policy);
    LeadsIs(json, s, ops, t);
    RunMoves(json, s, ops);
    SameFingerprint(s, t, id);
  }

  lemma SameFingerprint(s: State, t: State, id: Id)
    requires Reaches(s, t) && id in s.candidates
    ensures id in t.candidates && t.candidates[id].fingerprint == s.candidates[id].fingerprint
  {
    CoreKeeps(s.candidates[id], t.candidates[id]);
    hide Core;
  }

  // ----- What a cycle gathers -----

  /** The newest of the pending candidates with the fingerprint; of those captured at the same time, the
      one with the greatest identifier. */
  ghost predicate NewestPending(s: State, id: Id, f: string) {
    && id in s.candidates && s.candidates[id].status.Pending? && s.candidates[id].fingerprint == f
    && forall other ::
         && other in s.candidates && other != id
         && s.candidates[other].status.Pending? && s.candidates[other].fingerprint == f ==>
         var a, b := s.candidates[other].createdAt, s.candidates[id].createdAt;
         a < b || (a == b && Before(other, id))
  }

  lemma {:induction false} FirstWithIs(cs: seq<Candidate>, f: string, i: nat)
    requires i < |cs| && cs[i].fingerprint == f && cs[i].status.Pending?
    requires forall j :: 0 <= j < i ==> cs[j].fingerprint != f || !cs[j].status.Pending?
    ensures FirstWith(cs, f, true) == Some(cs[i])
  {
    if i > 0 {
      FirstWithIs(cs[1..], f, i - 1);
    }
  }

  lemma NewestInOrder(s: State, i: nat, j: nat)
    requires KeysMatch(s) && i < j < |Newest(s)|
    ensures Newest(s)[i].id != Newest(s)[j].id
    ensures var a, b := Newest(s)[i], Newest(s)[j];
            a.createdAt > b.createdAt || (a.createdAt == b.createdAt && Before(b.id, a.id))
  {
    NewerIsTotalOrder();
    var keys := Sorted(Keys(s), NewerOrSame);
    SortedInOrder(Keys(s), NewerOrSame, i, j);
    assert keys[i] in keys && keys[j] in keys;
    assert keys[i] in Keys(s) && keys[j] in Keys(s);
    assert Newest(s)[i] == s.candidates[keys[i].1] && Newest(s)[j] == s.candidates[keys[j].1];
    hide Before;
  }

  /** A pending candidate is found for its fingerprint exactly when it is the newest of its kind. */
  lemma FoundExactly(s: State, id: Id, f: string)
    requires KeysMatch(s)
    ensures NewestPending(s, id, f) <==>
            ByFingerprint(s, f).Some? && ByFingerprint(s, f).value.status.Pending? && ByFingerprint(s, f).value.id == id
  {
    var all := Newest(s);
    var found := FirstWith(all, f, true);
    if found.Some? {
      FoundIsNewest(s, found.value, f);
      if NewestPending(s, id, f) {
        OneNewest(s, id, found.value.id, f);
      }
    } else {
      hide Newest;
      hide Before;
    }
  }

  lemma OneNewest(s: State, a: Id, b: Id, f: string)
    requires NewestPending(s, a, f) && NewestPending(s, b, f)
    ensures a == b
  {
    BeforeAntisymmetric(a, b);
    hide Before;
  }

  lemma FoundIsNewest(s: State, c: Candidate, f: string)
    requires KeysMatch(s) && FirstWith(Newest(s), f, true) == Some(c)
    ensures NewestPending(s, c.id, f)
  {
    var all := Newest(s);
    assert c in all;
    var i := FirstIndex(all, f);
    FirstWithIs(all, f, i);
    forall other |
      && other in s.candidates && other != c.id
      && s.candidates[other].status.Pending? && s.candidates[other].fingerprint == f
      ensures var a, b := s.candidates[other].createdAt, c.createdAt; a < b || (a == b && Before(other, c.id))
    {
      assert s.candidates[other] in all;
      var j :| 0 <= j < |all| && all[j] == s.candidates[other];
      assert i < j;
      NewestInOrder(s, i, j);
    }
    hide Newest;
    hide Before;
  }

  lemma {:induction false} FirstIndex(cs: seq<Candidate>, f: string) returns (i: nat)
    requires FirstWith(cs, f, true).Some?
    ensures i < |cs| && cs[i].fingerprint == f && cs[i].status.Pending?
    ensures forall j :: 0 <= j < i ==> cs[j].fingerprint != f || !cs[j].status.Pending?
  {
    if cs[0].fingerprint == f && cs[0].status.Pending? {
      i := 0;
    } else {
      var k := FirstIndex(cs[1..], f);
      i := k + 1;
    }
  }

  lemma PushHolds(cs: seq<Candidate>, found: Option<Candidate>, id: Id)
    ensures Holds(PushUnique(cs, found), id) <==>
            Holds(cs, id) || (found.Some? && found.value.status.Pending? && found.value.id == id)
  {
    var next := PushUnique(cs, found);
    if i :| 0 <= i < |cs| && cs[i].id == id {
      assert next[i].id == id;
    }
    if found.Some? && found.value.status.Pending? && !Holds(cs, found.value.id) {
      assert next[|cs|] == found.value;
    }
  }

  lemma {:induction false} WithSkippedHolds(s: State, cs: seq<Candidate>, skipped: seq<string>, id: Id)
    requires KeysMatch(s)
    ensures Holds(WithSkipped(s, cs, skipped), id) <==>
            Holds(cs, id) || exists f :: f in skipped && NewestPending(s, id, f)
    decreases |skipped|
  {
    hide KeysMatch;
    hide ByFingerprint;
    hide NewestPending;
    hide Holds;
    hide PushUnique;
    if skipped != [] {
      var f := skipped[0];
      FoundExactly(s, id, f);
      PushHolds(cs, ByFingerprint(s, f), id);
      WithSkippedHolds(s, PushUnique(cs, ByFingerprint(s, f)), skipped[1..], id);
      assert forall g :: g in skipped <==> g == f || g in skipped[1..];
    }
  }

  lemma SameNewest(s: State, t: State, drafts: seq<Candidate>, id: Id, f: string)
    requires Persisted(s, t, drafts) && IsKnown(s, f) && t == PersistAll(s, drafts)
    requires forall c :: c in drafts ==> !IsKnown(s, c.fingerprint)
    ensures NewestPending(s, id, f) <==> NewestPending(t, id, f)
  {
    hide Before;
    forall x | x in t.candidates && x !in s.candidates
      ensures t.candidates[x].fingerprint != f
    {
      PersistAdds(s, drafts, x);
    }
    hide PersistAll;
    hide IsKnown;
  }

  /** The candidates of a cycle are its drafts and, for each skipped fingerprint, the newest pending
      candidate with it. */
  lemma GatheredExactly(json: Json, s: State, input: Input, id: Id)
    requires Steady(s) && InputFits(s, input) && Distilled(json, s, input).Ok?
    ensures var d := Distilled(json, s, input).value;
            Holds(CandidatesOf(json, s, input), id) <==>
              Holds(d.drafts, id) || exists f :: f in d.skipped && NewestPending(s, id, f)
  {
    hide *;
    InputParts(s, input);
    var d := Distilled(json, s, input).value;
    var kept := PersistAll(s, d.drafts);
    SteadyParts(s);
    NoticedIs(json, s, input);
    DistilledFits(json, s, input);
    DistilledGather(json, s, input);
    DraftsAreNew(json, s, input);
    WithSkippedHolds(kept, d.drafts, d.skipped, id);
    forall f | f in d.skipped
      ensures NewestPending(s, id, f) <==> NewestPending(kept, id, f)
    {
      SameNewest(s, kept, d.drafts, id, f);
    }
  }

  /** So a rule that was promoted or rejected is not drafted, evaluated or promoted again by a cycle that
      distils it once more. */
  lemma SettledIsLeftAlone(json: Json, s: State, input: Input, id: Id)
    requires Steady(s) && InputFits(s, input) && Distilled(json, s, input).Ok?
    requires id in s.candidates && !s.candidates[id].status.Pending?
    ensures !Holds(CandidatesOf(json, s, input), id)
    ensures forall c :: c in Distilled(json, s, input).value.drafts ==> c.fingerprint != s.candidates[id].fingerprint
  {
    GatheredExactly(json, s, input, id);
    DraftsAreNew(json, s, input);
    DistilledFits(json, s, input);
    hide Distilled;
    hide CandidatesOf;
    var d := Distilled(json, s, input).value;
    assert IsKnown(s, s.candidates[id].fingerprint);
    assert !Holds(d.drafts, id);
  }
}
