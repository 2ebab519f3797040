/** Policies of a workspace in which some policy file does not parse: none can be promoted any more,
    and each attempt leaves a file behind. */
module Orphans {
  import opened Wrappers
  import opened Evolution
  import opened Bundles
  import opened Store
  import opened StoreRuns
  import opened StoreFiles
  import opened BundleRuns

  /** A policy file that a failed promotion left behind. */
  ghost predicate IsOrphan(json: Json, s: State, p: Path) {
    && p in s.files
    && exists id :: id in s.candidates && !InPromotion(s, id) && s.candidates[id].kind.RuntimePolicy? &&
                    Target(s.candidates[id]) == p && Written(json, s.candidates[id], None) == Some(s.files[p])
  }

  /** No policy is promoted; the policy files are those of `base` and orphans. */
  ghost predicate Stranded(json: Json, base: Files, s: State) {
    && !PoliciesParse(json, base)
    && (forall id :: InPromotion(s, id) ==> !s.candidates[id].kind.RuntimePolicy?)
    && (forall p :: IsSource(p, Policies) && p in base ==> Lookup(s.files, p) == Lookup(base, p))
    && (forall p :: IsSource(p, Policies) && p in s.files && p !in base ==> IsOrphan(json, s, p))
  }

  lemma StartIsStranded(json: Json, s: State)
    requires !PoliciesParse(json, s.files) && forall id :: !InPromotion(s, id)
    ensures Stranded(json, s.files, s)
  {
    hide PoliciesParse;
  }

  lemma StrandedParts(json: Json, base: Files, s: State)
    requires Stranded(json, base, s)
    ensures !PoliciesParse(json, s.files) && forall id :: InPromotion(s, id) ==> !s.candidates[id].kind.RuntimePolicy?
  {
    var p :| p in base && IsSource(p, Policies) && !Parses(json, base[p]);
    assert Lookup(s.files, p) == Lookup(base, p);
  }

  lemma OrphanKept(json: Json, s: State, t: State, p: Path)
    requires IsOrphan(json, s, p) && Moves(s, t) && Lookup(t.files, p) == Lookup(s.files, p)
    requires forall id :: InPromotion(t, id) ==> !t.candidates[id].kind.RuntimePolicy?
    ensures IsOrphan(json, t, p)
  {
    hide Core;
    var id :| id in s.candidates && !InPromotion(s, id) && s.candidates[id].kind.RuntimePolicy? &&
              Target(s.candidates[id]) == p && Written(json, s.candidates[id], None) == Some(s.files[p]);
    assert CandidateMoves(s.candidates[id], t.candidates[id]);
    CoreDecides(json, s.candidates[id], t.candidates[id], None);
    SameKind(s.candidates[id], t.candidates[id]);
    hide Target;
    hide Written;
  }

  lemma SameKind(a: Candidate, b: Candidate)
    requires Core(a) == Core(b)
    ensures a.kind == b.kind
  {
    assert Core(a).kind == Core(b).kind;
  }

  /** An operation that leaves the policy files alone and promotes no policy. */
  lemma StrandedKept(json: Json, base: Files, s: State, t: State)
    requires Stranded(json, base, s) && Moves(s, t)
    requires forall p :: IsSource(p, Policies) ==> Lookup(t.files, p) == Lookup(s.files, p)
    requires forall id :: InPromotion(t, id) ==> !t.candidates[id].kind.RuntimePolicy?
    ensures Stranded(json, base, t)
  {
    hide Moves;
    hide IsOrphan;
    hide PoliciesParse;
    forall p | IsSource(p, Policies) && p in t.files && p !in base
      ensures IsOrphan(json, t, p)
    {
      assert Lookup(t.files, p) == Lookup(s.files, p);
      OrphanKept(json, s, t, p);
    }
  }

  /** A promotion that goes through is none of a policy, and does not touch their files. */
  lemma StrandedPromotion(json: Json, base: Files, s: State, id: Id)
    requires Faithful(json) && Stranded(json, base, s) && KeysMatch(s) && Promotion(json, s, id, false).1.Ok?
    ensures var t := Promotion(json, s, id, false).0;
            && (forall p :: IsSource(p, Policies) ==> Lookup(t.files, p) == Lookup(s.files, p))
            && (forall x :: InPromotion(t, x) ==> !t.candidates[x].kind.RuntimePolicy?)
  {
    var t := Promotion(json, s, id, false).0;
    StrandedParts(json, base, s);
    PromotionGoesThrough(json, s, id, false);
    PromotionInstalls(json, s, id, false);
    var c := s.candidates[id];
    if c.kind.RuntimePolicy? {
      PolicyPromotionParses(json, s.files, c, false);
    }
    PolicyTarget(c);
    TargetIsTarget(c);
    hide Promotion;
    hide Installed;
    hide Written;
    hide Target;
    hide PoliciesParse;
  }

  /** A failed promotion leaves one more orphan, or nothing. */
  lemma StrandedFailure(json: Json, base: Files, s: State, id: Id)
    requires Faithful(json) && Stranded(json, base, s) && Settled(s) && Promotion(json, s, id, false).1.Err?
    ensures Stranded(json, base, Promotion(json, s, id, false).0)
  {
    var t := Promotion(json, s, id, false).0;
    PromotionMoves(json, s, id, false);
    SettledKeys(s);
    PromotionIs(json, s, id, false);
    FailedPromotionExactly(json, s, id, false);
    StrandedParts(json, base, s);
    hide PoliciesParse;
    hide Moves;
    hide Settled;
    if t.files == s.files {
      hide Promotion;
      SameCandidates(s, t);
      StrandedKept(json, base, s, t);
    } else {
      OrphanIs(json, s, id, false);
      hide Promotion;
      NewOrphan(json, base, s, t, id);
    }
  }

  lemma NewOrphan(json: Json, base: Files, s: State, t: State, id: Id)
    requires Stranded(json, base, s) && id in s.candidates && s.candidates[id].status.Pending?
    requires s.candidates[id].kind.RuntimePolicy? && Target(s.candidates[id]) !in s.files
    requires t.candidates == s.candidates
    requires Written(json, s.candidates[id], None).Some?
    requires t.files == s.files[Target(s.candidates[id]) := Written(json, s.candidates[id], None).value]
    ensures Stranded(json, base, t)
  {
    var q := Target(s.candidates[id]);
    hide Target;
    hide Written;
    hide PoliciesParse;
    assert !InPromotion(t, id);
    forall p | IsSource(p, Policies) && p in t.files && p !in base
      ensures IsOrphan(json, t, p)
    {
      if p != q {
        assert IsOrphan(json, s, p);
        var x :| x in s.candidates && !InPromotion(s, x) && s.candidates[x].kind.RuntimePolicy? &&
                 Target(s.candidates[x]) == p && Written(json, s.candidates[x], None) == Some(s.files[p]);
        assert !InPromotion(t, x);
      }
    }
    forall p | IsSource(p, Policies) && p in base
      ensures Lookup(t.files, p) == Lookup(base, p)
    {
      assert Lookup(s.files, p) == Lookup(base, p);
    }
  }

  lemma StrandedPromotes(json: Json, base: Files, s: State, id: Id)
    requires Faithful(json) && Stranded(json, base, s) && Settled(s)
    ensures Stranded(json, base, Promotion(json, s, id, false).0)
  {
    hide *;
    SettledKeys(s);
    if Promotion(json, s, id, false).1.Err? {
      StrandedFailure(json, base, s, id);
    } else {
      PromotionMoves(json, s, id, false);
      StrandedPromotion(json, base, s, id);
      StrandedKept(json, base, s, Promotion(json, s, id, false).0);
    }
  }

  /** A rollback of anything but a policy does not touch the policy files. */
  lemma StrandedRollback(json: Json, base: Files, s: State, id: Id)
    requires Stranded(json, base, s) && Aimed(s)
    ensures var t := Rollback(json, s, id).0;
            && (forall p :: IsSource(p, Policies) ==> Lookup(t.files, p) == Lookup(s.files, p))
            && (forall x :: InPromotion(t, x) ==> InPromotion(s, x) && t.candidates[x] == s.candidates[x])
  {
    RollbackIs(json, s, id);
    if InPromotion(s, id) && id in s.records {
      PolicyTarget(s.candidates[id]);
      TargetIsTarget(s.candidates[id]);
      PutThenRefresh(json, s.files, s.records[id].target, s.candidates[id].kind);
    }
    hide PoliciesParse;
    hide RefreshedFor;
    hide Put;
    hide Target;
    hide IsOrphan;
  }

  /** An operation that leaves the policy files alone and newly promotes nothing. */
  lemma QuietStrands(json: Json, base: Files, s: State, t: State)
    requires Stranded(json, base, s) && Moves(s, t)
    requires forall p :: IsSource(p, Policies) ==> Lookup(t.files, p) == Lookup(s.files, p)
    requires forall id :: InPromotion(t, id) ==> InPromotion(s, id)
    ensures Stranded(json, base, t)
  {
    StrandedParts(json, base, s);
    forall id | InPromotion(t, id)
      ensures !t.candidates[id].kind.RuntimePolicy?
    {
      assert CandidateMoves(s.candidates[id], t.candidates[id]);
      SameKind(s.candidates[id], t.candidates[id]);
    }
    hide *;
    StrandedKept(json, base, s, t);
  }

  lemma FinalizeStrands(json: Json, base: Files, s: State, id: Id)
    requires Faithful(json) && Stranded(json, base, s) && Settled(s)
    ensures Stranded(json, base, Finalize(json, s, id, false).0)
  {
    hide *;
    SettledKeys(s);
    FinalizeMoves(json, s, id, false);
    StrandedPromotes(json, base, s, id);
    FinalizeIs(json, s, id, false);
    var mid, t := Promotion(json, s, id, false).0, Finalize(json, s, id, false).0;
    if t != s && t != mid {
      SameStranded(json, base, mid, t);
    }
  }

  lemma SameStranded(json: Json, base: Files, s: State, t: State)
    requires Stranded(json, base, s) && t.candidates == s.candidates && t.files == s.files
    ensures Stranded(json, base, t)
  {
    hide PoliciesParse;
    hide Target;
    hide Written;
    assert forall id :: InPromotion(s, id) <==> InPromotion(t, id);
    forall p | IsSource(p, Policies) && p in t.files && p !in base
      ensures IsOrphan(json, t, p)
    {
      assert IsOrphan(json, s, p);
    }
  }

  lemma RollbackStrands(json: Json, base: Files, s: State, id: Id)
    requires Stranded(json, base, s) && Settled(s) && Aimed(s)
    ensures Stranded(json, base, Rollback(json, s, id).0)
  {
    hide *;
    RollbackMoves(json, s, id);
    StrandedRollback(json, base, s, id);
    QuietStrands(json, base, s, Rollback(json, s, id).0);
  }

  lemma EvaluationQuiet(json: Json, s: State, id: Id, v: Verdict)
    requires KeysMatch(s)
    ensures var t := Evaluation(json, s, id, v).0;
            && (forall p :: IsSource(p, Policies) ==> Lookup(t.files, p) == Lookup(s.files, p))
            && (forall x :: InPromotion(t, x) ==> InPromotion(s, x))
  {
    EvaluationIs(json, s, id, v);
    hide Evaluation;
  }

  lemma EvaluationStrands(json: Json, base: Files, s: State, id: Id, v: Verdict)
    requires Stranded(json, base, s) && Settled(s)
    ensures Stranded(json, base, Evaluation(json, s, id, v).0)
  {
    hide *;
    SettledKeys(s);
    EvaluationMoves(json, s, id, v);
    EvaluationQuiet(json, s, id, v);
    QuietStrands(json, base, s, Evaluation(json, s, id, v).0);
  }

  lemma RejectionQuiet(s: State, id: Id)
    requires KeysMatch(s)
    ensures var t := Rejection(s, id).0;
            t.files == s.files && forall x :: InPromotion(t, x) ==> InPromotion(s, x)
  {
    RejectionIs(s, id);
    hide Rejection;
  }

  lemma RejectionStrands(json: Json, base: Files, s: State, id: Id)
    requires Stranded(json, base, s) && Settled(s)
    ensures Stranded(json, base, Rejection(s, id).0)
  {
    hide *;
    SettledKeys(s);
    RejectionMoves(s, id);
    RejectionQuiet(s, id);
    QuietStrands(json, base, s, Rejection(s, id).0);
  }

  lemma ExpireStrands(json: Json, base: Files, s: State, now: int)
    requires Stranded(json, base, s) && Settled(s)
    ensures Stranded(json, base, Expire(s, now))
  {
    SettledKeys(s);
    ExpireMoves(s, now);
    ExpireIs(s, now);
    var t := Expire(s, now);
    hide Expire;
    hide Stranded;
    hide Settled;
    hide Moves;
    forall id | InPromotion(t, id)
      ensures InPromotion(s, id)
    {
      RejectedKeeps(s.candidates[id], id in s.canaries && Lapses(s.canaries[id], now));
    }
    QuietStrands(json, base, s, t);
  }

  lemma CaptureStrands(json: Json, base: Files, s: State, c: Candidate)
    requires Stranded(json, base, s) && Settled(s) && c.status.Pending? && c.id !in s.candidates
    ensures Stranded(json, base, WithCandidate(s, c))
  {
    CaptureMoves(s, c);
    hide Stranded;
    hide Settled;
    hide Moves;
    QuietStrands(json, base, s, WithCandidate(s, c));
  }

  lemma StepStrands(json: Json, base: Files, s: State, op: Op)
    requires Faithful(json) && Settled(s) && Aimed(s) && Stranded(json, base, s) && Enabled(s, op) && Unforced(op)
    ensures Stranded(json, base, Step(json, s, op))
  {
    hide Stranded;
    hide Aimed;
    hide Faithful;
    match op
    case Captures(c) => CaptureStrands(json, base, s, c);
    case Evaluates(id, v) => EvaluationStrands(json, base, s, id, v);
    case Rejects(id) => RejectionStrands(json, base, s, id);
    case Promotes(id, _) => StrandedPromotes(json, base, s, id);
    case RollsBack(id) => RollbackStrands(json, base, s, id);
    case Observes(tape, seen) =>
      SettledKeys(s);
      ObserveIs(s, tape, seen);
      SameStranded(json, base, s, Observe(s, tape, seen));
    case Expires(now) => ExpireStrands(json, base, s, now);
    case Stages(c, run, tape, policy, now) => SameStranded(json, base, s, Step(json, s, op));
    case Finalizes(id, _) => FinalizeStrands(json, base, s, id);
    case Writes(note) => SameStranded(json, base, s, Step(json, s, op));
  }

  /** In any run without force from a workspace in which some policy file does not parse, no policy
      is ever promoted; the policy files that were there stay as they are, and every other one is
      the rendered text of a policy that failed to be promoted. */
  lemma {:induction false} RunStrands(json: Json, base: Files, s: State, ops: seq<Op>)
    requires Faithful(json) && Settled(s) && Aimed(s) && Stranded(json, base, s) && IsRun(json, s, ops)
    requires forall i :: 0 <= i < |ops| ==> Unforced(ops[i])
    ensures Stranded(json, base, After(json, s, ops))
    decreases |ops|
  {
    hide Settled;
    hide Aimed;
    hide Stranded;
    hide Step;
    hide Enabled;
    hide Faithful;
    hide Unforced;
    if ops != [] {
      StepMoves(json, s, ops[0]);
      StepAims(json, s, ops[0]);
      StepStrands(json, base, s, ops[0]);
      assert forall i :: 0 <= i < |ops[1..]| ==> ops[1..][i] == ops[i + 1];
      RunStrands(json, base, Step(json, s, ops[0]), ops[1..]);
    }
  }
}
