/** Bundles over whole runs of store operations, forced ones included: what a reader of a bundle sees
    is always what its sources make. */
module BundleRuns {
  import opened Wrappers
  import opened Evolution
  import opened Bundles
  import opened BundleTexts
  import opened Store
  import opened StoreRuns
  import opened StoreFiles

  ghost predicate BundlesAgree(json: Json, files: Files) {
    forall area :: Agrees(json, files, area)
  }

  lemma RefreshKeepsAgreement(json: Json, files: Files, area: Area)
    requires BundlesAgree(json, files) && Refreshed(json, files, area).Ok?
    ensures BundlesAgree(json, Refreshed(json, files, area).value)
  {
    forall other
      ensures Agrees(json, Refreshed(json, files, area).value, other)
    {
      RefreshAgrees(json, files, area, other);
    }
  }

  /** A change to one target, and then a refresh of its area: whether that succeeds or not, every
      bundle agrees again. */
  lemma ChangeThenRefresh(json: Json, files: Files, written: Files, kind: Kind, target: Path)
    requires BundlesAgree(json, files) && IsTarget(target)
    requires forall area :: IsSource(target, area) ==> AreaOf(kind) == Some(area)
    requires forall p :: p != target ==> Lookup(written, p) == Lookup(files, p)
    ensures RefreshedFor(json, written, kind).Ok? ==> BundlesAgree(json, RefreshedFor(json, written, kind).value)
    ensures RefreshedFor(json, written, kind).Err? ==> BundlesAgree(json, written)
  {
    forall area | AreaOf(kind) != Some(area)
      ensures Agrees(json, written, area)
    {
      assert Agrees(json, files, area);
      ElsewhereAgrees(json, files, written, area);
    }
    hide BundleOf;
    if AreaOf(kind).Some? && RefreshedFor(json, written, kind).Ok? {
      forall other
        ensures Agrees(json, Refreshed(json, written, AreaOf(kind).value).value, other)
      {
        RefreshAgrees(json, written, AreaOf(kind).value, other);
      }
    }
  }

  lemma InstalledAgrees(json: Json, files: Files, c: Candidate, force: bool)
    requires BundlesAgree(json, files)
    ensures BundlesAgree(json, Installed(json, files, c, Target(c), force).0)
  {
    hide BundlesAgree;
    TargetIsTarget(c);
    var text := Written(json, c, Lookup(files, Target(c)));
    if text.Some? {
      ChangeThenRefresh(json, files, files[Target(c) := text.value], c.kind, Target(c));
    }
    hide RefreshedFor;
    hide Written;
  }

  lemma PromotionFiles(json: Json, s: State, id: Id, force: bool)
    ensures var t := Promotion(json, s, id, force).0;
            t.files == s.files ||
            (id in s.candidates
              && t.files == Installed(json, s.files, s.candidates[id], Target(s.candidates[id]), force).0)
  {
    hide Installed;
  }

  lemma PromotionAgrees(json: Json, s: State, id: Id, force: bool)
    requires BundlesAgree(json, s.files)
    ensures BundlesAgree(json, Promotion(json, s, id, force).0.files)
  {
    hide *;
    PromotionFiles(json, s, id, force);
    if id in s.candidates {
      InstalledAgrees(json, s.files, s.candidates[id], force);
    }
  }

  /** A promotion that goes through puts its own bundle right, however it was before. */
  lemma PromotionSetsBundle(json: Json, s: State, id: Id, force: bool)
    requires Promotion(json, s, id, force).1.Ok? && AreaOf(s.candidates[id].kind).Some?
    ensures Agrees(json, Promotion(json, s, id, force).0.files, AreaOf(s.candidates[id].kind).value)
  {
    PromotionRefreshes(json, s, id, force);
    var c := s.candidates[id];
    InstalledIs(json, s.files, c, Target(c), force);
    hide Promotion;
    hide Installed;
    hide Agrees;
    var area := AreaOf(c.kind).value;
    RefreshAgrees(json, s.files[Target(c) := Written(json, c, Lookup(s.files, Target(c))).value], area, area);
  }

  lemma PromotionRefreshes(json: Json, s: State, id: Id, force: bool)
    requires Promotion(json, s, id, force).1.Ok?
    ensures id in s.candidates
    ensures var c := s.candidates[id];
            Installed(json, s.files, c, Target(c), force) == (Promotion(json, s, id, force).0.files, None)
  {
    hide Installed;
  }

  /** So does a rollback. */
  lemma RollbackSetsBundle(json: Json, s: State, id: Id)
    requires Rollback(json, s, id).1.Ok? && AreaOf(s.candidates[id].kind).Some?
    ensures Agrees(json, Rollback(json, s, id).0.files, AreaOf(s.candidates[id].kind).value)
  {
    var files := RollbackRefreshes(json, s, id);
    hide *;
    var area := AreaOf(s.candidates[id].kind).value;
    RefreshedForArea(json, files, s.candidates[id].kind);
    RefreshAgrees(json, files, area, area);
  }

  lemma RefreshedForArea(json: Json, files: Files, kind: Kind)
    requires AreaOf(kind).Some?
    ensures RefreshedFor(json, files, kind) == Refreshed(json, files, AreaOf(kind).value)
  {
  }

  lemma RollbackRefreshes(json: Json, s: State, id: Id) returns (files: Files)
    requires Rollback(json, s, id).1.Ok?
    ensures id in s.candidates
    ensures RefreshedFor(json, files, s.candidates[id].kind) == Ok(Rollback(json, s, id).0.files)
  {
    hide RefreshedFor;
    hide Put;
    var record := s.records[id];
    files := Put(s.files, record.target,
                 if record.snapshot.Some? then Some(s.snapshots[record.snapshot.value]) else None);
  }

  lemma RollbackFiles(json: Json, s: State, id: Id)
    requires Aimed(s)
    ensures var t := Rollback(json, s, id).0;
            t.files == s.files ||
            (id in s.candidates &&
             exists text ::
               var c := s.candidates[id];
               var files := Put(s.files, Target(c), text);
               match RefreshedFor(json, files, c.kind)
               case Ok(refreshed) => t.files == refreshed
               case Err(_) => t.files == files)
  {
    hide RefreshedFor;
    hide Target;
    hide Put;
  }

  lemma PutElsewhere(files: Files, target: Path, text: Option<string>)
    ensures forall p :: p != target ==> Lookup(Put(files, target, text), p) == Lookup(files, p)
  {
  }

  lemma RollbackAgrees(json: Json, s: State, id: Id)
    requires Aimed(s) && BundlesAgree(json, s.files)
    ensures BundlesAgree(json, Rollback(json, s, id).0.files)
  {
    hide *;
    RollbackFiles(json, s, id);
    var t := Rollback(json, s, id).0;
    if t.files != s.files {
      var c := s.candidates[id];
      var text :|
        var files := Put(s.files, Target(c), text);
        match RefreshedFor(json, files, c.kind)
        case Ok(refreshed) => t.files == refreshed
        case Err(_) => t.files == files;
      TargetIsTarget(c);
      PutElsewhere(s.files, Target(c), text);
      ChangeThenRefresh(json, s.files, Put(s.files, Target(c), text), c.kind, Target(c));
    }
  }

  lemma EvaluationAgrees(json: Json, s: State, id: Id, v: Verdict)
    requires BundlesAgree(json, s.files)
    ensures BundlesAgree(json, Evaluation(json, s, id, v).0.files)
  {
    RefreshKeepsAgreement(json, s.files, Rules);
    hide BundlesAgree;
    hide Refreshed;
  }

  /** Evaluating a rule puts the rules bundle right; evaluating anything else leaves the files alone. */
  lemma EvaluationRefreshes(json: Json, s: State, id: Id, v: Verdict)
    requires Evaluation(json, s, id, v).1.Ok?
    ensures id in s.candidates
    ensures var t := Evaluation(json, s, id, v).0;
            if s.candidates[id].kind.PromptRule? then IsBundle(s.files, Rules, Lookup(t.files, Bundle(Rules)))
            else t.files == s.files
  {
    RefreshIsBundle(json, s.files, Rules);
    hide Refreshed;
    hide IsBundle;
  }

  /** Every operation keeps every bundle in agreement with its sources. */
  lemma StepAgrees(json: Json, s: State, op: Op)
    requires Aimed(s) && BundlesAgree(json, s.files)
    ensures BundlesAgree(json, Step(json, s, op).files)
  {
    hide BundlesAgree;
    match op
    case Captures(c) =>
    case Evaluates(id, v) => EvaluationAgrees(json, s, id, v);
    case Rejects(id) => RejectionIs(s, id);
    case Promotes(id, force) => PromotionAgrees(json, s, id, force);
    case RollsBack(id) => RollbackAgrees(json, s, id);
    case Observes(tape, seen) => ObserveIs(s, tape, seen);
    case Expires(now) => ExpireIs(s, now);
    case Stages(c, run, tape, policy, now) =>
    case Finalizes(id, force) =>
      PromotionAgrees(json, s, id, force);
      FinalizeIs(json, s, id, force);
    case Writes(note) =>
  }

  // ----- Records keep aiming -----

  lemma AimedPart(s: State, t: State)
    requires Aimed(s) && KeysMatch(t)
    requires forall id :: InPromotion(t, id) && id in t.records ==>
               && InPromotion(s, id) && id in s.records
               && Core(s.candidates[id]) == Core(t.candidates[id]) && t.records[id].target == s.records[id].target
    ensures Aimed(t)
  {
    hide Core;
    forall id | InPromotion(t, id) && id in t.records
      ensures t.records[id].target == Target(t.candidates[id])
    {
      CoreDecides(Json(_ => None, _ => ""), s.candidates[id], t.candidates[id], None);
    }
  }

  lemma NewlyAimed(s: State, t: State, id: Id, c: Candidate, target: Path)
    requires Aimed(s) && KeysMatch(t) && id in s.candidates && target == Target(s.candidates[id])
    requires t.candidates == s.candidates[id := c] && Core(c) == Core(s.candidates[id])
    requires t.records == s.records[id := RecordFor(s, s.candidates[id], target)]
    ensures Aimed(t)
  {
    CoreDecides(Json(_ => None, _ => ""), s.candidates[id], c, None);
    hide Target;
    hide Core;
  }

  lemma PromotedCore(c: Candidate, target: Option<Path>)
    ensures Core(c.(status := Promoted, promotedTo := target)) == Core(c)
  {
  }

  lemma PromotionAims(json: Json, s: State, id: Id, force: bool)
    requires Settled(s) && Aimed(s)
    ensures Aimed(Promotion(json, s, id, force).0)
  {
    PromotionMoves(json, s, id, force);
    var (t, r) := Promotion(json, s, id, force);
    assert KeysMatch(s) && KeysMatch(t);
    hide *;
    PromotionIs(json, s, id, force);
    if r.Ok? {
      PromotedCore(s.candidates[id], Some(r.value.target));
      NewlyAimed(s, t, id, t.candidates[id], r.value.target);
    } else {
      SameAims(s, t);
    }
  }

  lemma SameAims(s: State, t: State)
    requires Aimed(s) && KeysMatch(t) && t.candidates == s.candidates && t.records == s.records
    ensures Aimed(t)
  {
    hide Target;
  }

  lemma RollbackAims(json: Json, s: State, id: Id)
    requires Aimed(s)
    ensures Aimed(Rollback(json, s, id).0)
  {
    RollbackIs(json, s, id);
    hide Rollback;
    AimedPart(s, Rollback(json, s, id).0);
  }

  /** One candidate changes without being promoted. */
  lemma OtherwiseAimed(s: State, t: State, id: Id)
    requires Aimed(s) && KeysMatch(t) && t.records == s.records
    requires forall x :: x in t.candidates && x != id ==> Lookup(s.candidates, x) == Some(t.candidates[x])
    requires !InPromotion(t, id)
    ensures Aimed(t)
  {
    hide Target;
  }

  lemma EvaluationAims(json: Json, s: State, id: Id, v: Verdict)
    requires Aimed(s) && KeysMatch(Evaluation(json, s, id, v).0)
    ensures Aimed(Evaluation(json, s, id, v).0)
  {
    EvaluationIs(json, s, id, v);
    hide Evaluation;
    hide Target;
    var t := Evaluation(json, s, id, v).0;
    if t != s {
      OtherwiseAimed(s, t, id);
    }
  }

  lemma RejectionAims(s: State, id: Id)
    requires Aimed(s) && KeysMatch(Rejection(s, id).0)
    ensures Aimed(Rejection(s, id).0)
  {
    var (t, r) := Rejection(s, id);
    if r.Ok? {
      OtherwiseAimed(s, t, id);
    }
  }

  lemma ExpireAims(s: State, now: int)
    requires Aimed(s) && KeysMatch(Expire(s, now))
    ensures Aimed(Expire(s, now))
  {
    ExpireIs(s, now);
    hide Expire;
    hide Target;
    var t := Expire(s, now);
    forall id | InPromotion(t, id)
      ensures InPromotion(s, id) && Core(s.candidates[id]) == Core(t.candidates[id])
    {
      RejectedKeeps(s.candidates[id], id in s.canaries && Lapses(s.canaries[id], now));
    }
    AimedPart(s, t);
  }

  lemma ObserveAims(s: State, tape: string, seen: set<string>)
    requires Aimed(s) && KeysMatch(Observe(s, tape, seen))
    ensures Aimed(Observe(s, tape, seen))
  {
    ObserveIs(s, tape, seen);
    hide Observe;
    SameAims(s, Observe(s, tape, seen));
  }

  lemma CaptureAims(s: State, c: Candidate)
    requires Aimed(s) && KeysMatch(WithCandidate(s, c)) && c.status.Pending?
    ensures Aimed(WithCandidate(s, c))
  {
    OtherwiseAimed(s, WithCandidate(s, c), c.id);
  }

  lemma FinalizeAims(json: Json, s: State, id: Id, force: bool)
    requires Settled(s) && Aimed(s)
    ensures Aimed(Finalize(json, s, id, force).0)
  {
    FinalizeMoves(json, s, id, force);
    var mid, t := Promotion(json, s, id, force).0, Finalize(json, s, id, force).0;
    assert KeysMatch(s) && KeysMatch(t);
    hide *;
    PromotionAims(json, s, id, force);
    FinalizeIs(json, s, id, force);
    if t != s {
      SameAims(mid, t);
    }
  }

  lemma StageAims(s: State, c: Candidate, run: Run, tape: string, policy: AutoPolicy, now: int)
    requires Aimed(s) && KeysMatch(Stage(s, c, run, tape, policy, now).0)
    ensures Aimed(Stage(s, c, run, tape, policy, now).0)
  {
    SameAims(s, Stage(s, c, run, tape, policy, now).0);
  }

  lemma SettledKeys(s: State)
    requires Settled(s)
    ensures KeysMatch(s)
  {
  }

  lemma StepAims(json: Json, s: State, op: Op)
    requires Settled(s) && Aimed(s) && Enabled(s, op)
    ensures Aimed(Step(json, s, op))
  {
    StepMoves(json, s, op);
    SettledKeys(Step(json, s, op));
    hide Settled;
    hide Aimed;
    hide KeysMatch;
    match op
    case Captures(c) => CaptureAims(s, c);
    case Evaluates(id, v) => EvaluationAims(json, s, id, v);
    case Rejects(id) => RejectionAims(s, id);
    case Promotes(id, force) => PromotionAims(json, s, id, force);
    case RollsBack(id) => RollbackAims(json, s, id);
    case Observes(tape, seen) => ObserveAims(s, tape, seen);
    case Expires(now) => ExpireAims(s, now);
    case Stages(c, run, tape, policy, now) => StageAims(s, c, run, tape, policy, now);
    case Finalizes(id, force) => FinalizeAims(json, s, id, force);
    case Writes(note) => SameAims(s, Step(json, s, op));
  }

  /** Over any run, each bundle is the join, or the merge, of its sources, or absent when that is
      empty. */
  lemma {:induction false} RunAgrees(json: Json, s: State, ops: seq<Op>)
    requires Settled(s) && Aimed(s) && BundlesAgree(json, s.files) && IsRun(json, s, ops)
    ensures BundlesAgree(json, After(json, s, ops).files) && Aimed(After(json, s, ops))
    decreases |ops|
  {
    hide Settled;
    hide Aimed;
    hide BundlesAgree;
    hide Step;
    hide Enabled;
    if ops != [] {
      StepMoves(json, s, ops[0]);
      StepAims(json, s, ops[0]);
      StepAgrees(json, s, ops[0]);
      RunAgrees(json, Step(json, s, ops[0]), ops[1..]);
    }
  }

  /** In terms of files: after any run the rules and knowledge bundles are the texts of their sources,
      and that of policies the merged document, where every policy file is blank or parses. */
  lemma RunBundlesHold(json: Json, s: State, ops: seq<Op>)
    requires Settled(s) && Aimed(s) && BundlesAgree(json, s.files) && IsRun(json, s, ops)
    ensures var files := After(json, s, ops).files;
            && IsBundle(files, Rules, Lookup(files, Bundle(Rules)))
            && IsBundle(files, Knowledge, Lookup(files, Bundle(Knowledge)))
            && (PoliciesParse(json, files) ==> IsPolicyBundle(json, files, Lookup(files, Bundle(Policies))))
  {
    RunAgrees(json, s, ops);
    BundlesHold(json, After(json, s, ops).files);
    hide After;
    hide IsBundle;
    hide IsPolicyBundle;
    hide PoliciesParse;
  }

  lemma BundlesHold(json: Json, files: Files)
    requires BundlesAgree(json, files)
    ensures IsBundle(files, Rules, Lookup(files, Bundle(Rules)))
    ensures IsBundle(files, Knowledge, Lookup(files, Bundle(Knowledge)))
    ensures PoliciesParse(json, files) ==> IsPolicyBundle(json, files, Lookup(files, Bundle(Policies)))
  {
    assert Agrees(json, files, Rules) && Agrees(json, files, Knowledge) && Agrees(json, files, Policies);
    AgreesExactly(json, files, Rules);
    AgreesExactly(json, files, Knowledge);
    PolicyRefreshExactly(json, files);
    if BundleOf(json, files, Policies).Ok? {
      BundleOfIsPolicyBundle(json, files);
    }
    hide BundleOf;
    hide IsBundle;
    hide IsPolicyBundle;
    hide PoliciesParse;
  }

  // ----- Where the sources make no bundle -----

  /** A bundle whose sources do not parse afterwards is the one that was there. */
  ghost predicate Follows(json: Json, files: Files, after: Files, area: Area) {
    BundleOf(json, after, area).Err? ==> Lookup(after, Bundle(area)) == Lookup(files, Bundle(area))
  }

  lemma SameFollows(json: Json, files: Files, after: Files, area: Area)
    requires Lookup(after, Bundle(area)) == Lookup(files, Bundle(area))
    ensures Follows(json, files, after, area)
  {
    hide BundleOf;
  }

  lemma RefreshFollows(json: Json, files: Files, refreshed: Area, area: Area)
    requires Refreshed(json, files, refreshed).Ok?
    ensures Follows(json, files, Refreshed(json, files, refreshed).value, area)
  {
    hide *;
    var after := Refreshed(json, files, refreshed).value;
    if area == refreshed {
      RefreshMakes(json, files, area);
      MadeFollows(json, files, after, area);
    } else {
      RefreshedIs(json, files, refreshed);
      SameFollows(json, files, after, area);
    }
  }

  lemma MadeFollows(json: Json, files: Files, after: Files, area: Area)
    requires Made(json, after, area)
    ensures Follows(json, files, after, area)
  {
    hide BundleOf;
  }

  lemma ChangeFollows(json: Json, files: Files, written: Files, kind: Kind, target: Path, area: Area)
    requires IsTarget(target) && forall p :: p != target ==> Lookup(written, p) == Lookup(files, p)
    ensures RefreshedFor(json, written, kind).Ok? ==>
            Follows(json, files, RefreshedFor(json, written, kind).value, area)
    ensures Follows(json, files, written, area)
  {
    SameFollows(json, files, written, area);
    if AreaOf(kind).Some? && Refreshed(json, written, AreaOf(kind).value).Ok? {
      RefreshFollows(json, written, AreaOf(kind).value, area);
    }
    hide BundleOf;
    hide Refreshed;
  }

  lemma PromotionFollows(json: Json, s: State, id: Id, force: bool, area: Area)
    ensures Follows(json, s.files, Promotion(json, s, id, force).0.files, area)
  {
    hide *;
    PromotionFiles(json, s, id, force);
    SameFollows(json, s.files, s.files, area);
    if id in s.candidates {
      InstalledFollows(json, s.files, s.candidates[id], force, area);
    }
  }

  lemma InstalledFollows(json: Json, files: Files, c: Candidate, force: bool, area: Area)
    ensures Follows(json, files, Installed(json, files, c, Target(c), force).0, area)
  {
    hide Follows;
    TargetIsTarget(c);
    SameFollows(json, files, files, area);
    var text := Written(json, c, Lookup(files, Target(c)));
    if text.Some? {
      ChangeFollows(json, files, files[Target(c) := text.value], c.kind, Target(c), area);
    }
    hide RefreshedFor;
    hide Written;
  }

  lemma RollbackFollows(json: Json, s: State, id: Id, area: Area)
    requires Aimed(s)
    ensures Follows(json, s.files, Rollback(json, s, id).0.files, area)
  {
    hide *;
    RollbackFiles(json, s, id);
    SameFollows(json, s.files, s.files, area);
    var t := Rollback(json, s, id).0;
    if t.files != s.files {
      var c := s.candidates[id];
      var text :|
        var files := Put(s.files, Target(c), text);
        match RefreshedFor(json, files, c.kind)
        case Ok(refreshed) => t.files == refreshed
        case Err(_) => t.files == files;
      TargetIsTarget(c);
      PutElsewhere(s.files, Target(c), text);
      ChangeFollows(json, s.files, Put(s.files, Target(c), text), c.kind, Target(c), area);
    }
  }

  lemma EvaluationFollows(json: Json, s: State, id: Id, v: Verdict, area: Area)
    ensures Follows(json, s.files, Evaluation(json, s, id, v).0.files, area)
  {
    SameFollows(json, s.files, s.files, area);
    if Refreshed(json, s.files, Rules).Ok? {
      RefreshFollows(json, s.files, Rules, area);
    }
    hide Follows;
    hide Refreshed;
  }

  /** An operation after which a policy file does not parse leaves the policy bundle as it was. */
  lemma StepFollows(json: Json, s: State, op: Op, area: Area)
    requires Aimed(s)
    ensures Follows(json, s.files, Step(json, s, op).files, area)
  {
    assert KeysMatch(s);
    hide Aimed;
    hide Follows;
    SameFollows(json, s.files, s.files, area);
    match op
    case Captures(c) =>
    case Evaluates(id, v) => EvaluationFollows(json, s, id, v, area);
    case Rejects(id) => RejectionIs(s, id);
    case Promotes(id, force) => PromotionFollows(json, s, id, force, area);
    case RollsBack(id) => RollbackFollows(json, s, id, area);
    case Observes(tape, seen) => ObserveIs(s, tape, seen);
    case Expires(now) => ExpireIs(s, now);
    case Stages(c, run, tape, policy, now) =>
    case Finalizes(id, force) =>
      PromotionFollows(json, s, id, force, area);
      FinalizeIs(json, s, id, force);
    case Writes(note) =>
  }

  /** A run along which the sources of an area never make a bundle. */
  predicate StaysBroken(json: Json, s: State, ops: seq<Op>, area: Area)
    requires IsRun(json, s, ops)
    decreases |ops|
  {
    ops == [] ||
    (BundleOf(json, Step(json, s, ops[0]).files, area).Err? && StaysBroken(json, Step(json, s, ops[0]), ops[1..], area))
  }

  lemma {:induction false} BrokenKeepsBundle(json: Json, s: State, ops: seq<Op>, area: Area)
    requires Settled(s) && Aimed(s) && IsRun(json, s, ops) && StaysBroken(json, s, ops, area)
    ensures Lookup(After(json, s, ops).files, Bundle(area)) == Lookup(s.files, Bundle(area))
    decreases |ops|
  {
    hide Settled;
    hide Aimed;
    hide Step;
    hide Enabled;
    hide BundleOf;
    if ops != [] {
      StepMoves(json, s, ops[0]);
      StepAims(json, s, ops[0]);
      StepFollows(json, s, ops[0], area);
      BrokenKeepsBundle(json, Step(json, s, ops[0]), ops[1..], area);
    }
  }

  /** So whatever run led here, a bundle whose sources make none is the one they made when they last
      made one. */
  lemma BundleIsLastMade(json: Json, s: State, ops: seq<Op>, broken: seq<Op>, area: Area)
    requires Settled(s) && Aimed(s) && BundlesAgree(json, s.files)
    requires IsRun(json, s, ops) && BundleOf(json, After(json, s, ops).files, area).Ok?
    requires IsRun(json, After(json, s, ops), broken) && StaysBroken(json, After(json, s, ops), broken, area)
    ensures Lookup(After(json, After(json, s, ops), broken).files, Bundle(area)) ==
            BundleOf(json, After(json, s, ops).files, area).value
  {
    RunAgrees(json, s, ops);
    RunMoves(json, s, ops);
    var t := After(json, s, ops);
    assert Agrees(json, t.files, area);
    hide After;
    hide Settled;
    hide Aimed;
    hide BundleOf;
    BrokenKeepsBundle(json, t, broken, area);
  }

  // ----- Rollbacks commute, bundles included -----

  /** The bundle is there as its sources make it, and they do make one. */
  predicate Made(json: Json, files: Files, area: Area) {
    BundleOf(json, files, area) == Ok(Lookup(files, Bundle(area)))
  }

  lemma RefreshMakes(json: Json, files: Files, area: Area)
    requires Refreshed(json, files, area).Ok?
    ensures Made(json, Refreshed(json, files, area).value, area)
  {
    hide *;
    var after := Refreshed(json, files, area).value;
    RefreshedIs(json, files, area);
    SourcesKept(files, after, area, area);
    SameSourcesSameBundle(json, files, after, area);
    MadeIs(json, after, area);
  }

  lemma MadeIs(json: Json, files: Files, area: Area)
    ensures Made(json, files, area) <==> BundleOf(json, files, area) == Ok(Lookup(files, Bundle(area)))
  {
  }

  /** Sources and bundle of an area the two have in common. */
  ghost predicate SameArea(a: Files, b: Files, area: Area) {
    SameSources(a, b, area) && Lookup(a, Bundle(area)) == Lookup(b, Bundle(area))
  }

  lemma SameAreaMade(json: Json, a: Files, b: Files, area: Area)
    requires SameArea(a, b, area)
    ensures Made(json, a, area) <==> Made(json, b, area)
  {
    SameSourcesSameBundle(json, a, b, area);
    hide BundleOf;
  }

  lemma RefreshedElsewhere(json: Json, files: Files, kind: Kind, area: Area)
    requires RefreshedFor(json, files, kind).Ok? && AreaOf(kind) != Some(area)
    ensures SameArea(files, RefreshedFor(json, files, kind).value, area)
  {
    if AreaOf(kind).Some? {
      RefreshedIs(json, files, AreaOf(kind).value);
    }
    hide Refreshed;
  }

  lemma PutOutside(files: Files, c: Candidate, text: Option<string>, area: Area)
    requires AreaOf(c.kind) != Some(area)
    ensures SameArea(files, Put(files, Target(c), text), area)
  {
    TargetIsTarget(c);
    hide Target;
  }

  lemma RollbackAimed(json: Json, s: State, id: Id) returns (text: Option<string>)
    requires Aimed(s) && Rollback(json, s, id).1.Ok?
    ensures id in s.candidates
    ensures var c := s.candidates[id];
            RefreshedFor(json, Put(s.files, Target(c), text), c.kind) == Ok(Rollback(json, s, id).0.files)
    ensures Rollback(json, s, id).0.canaries == s.canaries
  {
    hide RefreshedFor;
    hide Put;
    hide Target;
    var record := s.records[id];
    text := if record.snapshot.Some? then Some(s.snapshots[record.snapshot.value]) else None;
  }

  /** A rollback that goes through makes the bundle of its area, and touches no other area. */
  lemma RollbackMakes(json: Json, s: State, id: Id, area: Area)
    requires Aimed(s) && Rollback(json, s, id).1.Ok?
    ensures id in s.candidates
    ensures var t := Rollback(json, s, id).0;
            if AreaOf(s.candidates[id].kind) == Some(area) then Made(json, t.files, area)
            else SameArea(s.files, t.files, area)
  {
    hide *;
    var text := RollbackAimed(json, s, id);
    var c := s.candidates[id];
    var files := Put(s.files, Target(c), text);
    if AreaOf(c.kind) == Some(area) {
      RefreshedForArea(json, files, c.kind);
      RefreshMakes(json, files, area);
    } else {
      PutOutside(s.files, c, text, area);
      RefreshedElsewhere(json, files, c.kind, area);
      SameAreaThrough(s.files, files, Rollback(json, s, id).0.files, area);
    }
  }

  lemma SameAreaThrough(a: Files, b: Files, c: Files, area: Area)
    requires SameArea(a, b, area) && SameArea(b, c, area)
    ensures SameArea(a, c, area)
  {
  }

  /** The bundle of an area that one of two rollbacks touched is made after both. */
  lemma RollbacksMake(json: Json, s: State, a: Id, b: Id, area: Area)
    requires Aimed(s) && Rollback(json, s, a).1.Ok? && Aimed(Rollback(json, s, a).0)
    requires Rollback(json, Rollback(json, s, a).0, b).1.Ok?
    ensures a in s.candidates && b in Rollback(json, s, a).0.candidates
    ensures var sa := Rollback(json, s, a).0;
            var ab := Rollback(json, sa, b).0;
            if AreaOf(s.candidates[a].kind) == Some(area) || AreaOf(sa.candidates[b].kind) == Some(area) then
              Made(json, ab.files, area)
            else SameArea(s.files, ab.files, area)
  {
    hide *;
    var sa := Rollback(json, s, a).0;
    var ab := Rollback(json, sa, b).0;
    RollbackMakes(json, s, a, area);
    RollbackMakes(json, sa, b, area);
    if AreaOf(sa.candidates[b].kind) != Some(area) {
      SameAreaMade(json, sa.files, ab.files, area);
      if AreaOf(s.candidates[a].kind) != Some(area) {
        SameAreaThrough(s.files, sa.files, ab.files, area);
      }
    }
  }

  lemma MadeTwice(json: Json, s: Files, a: Files, b: Files, area: Area)
    requires forall p: Path :: !p.Bundle? ==> Lookup(a, p) == Lookup(b, p)
    requires (Made(json, a, area) && Made(json, b, area)) || (SameArea(s, a, area) && SameArea(s, b, area))
    ensures Lookup(a, Bundle(area)) == Lookup(b, Bundle(area))
  {
    SameSourcesSameBundle(json, a, b, area);
    hide BundleOf;
  }

  lemma FilesEqual(a: Files, b: Files)
    requires forall p :: Lookup(a, p) == Lookup(b, p)
    ensures a == b
  {
    forall p
      ensures p in a <==> p in b
      ensures p in a ==> a[p] == b[p]
    {
      assert Lookup(a, p) == Lookup(b, p);
    }
  }

  lemma RolledBackParts(base: Files, s: State, t: State, id: Id)
    requires RolledBackTo(base, s, t, id)
    ensures id in s.candidates && id in s.records && t.snapshots == s.snapshots
    ensures t.candidates == s.candidates[id := BackAgain(s.candidates[id])]
    ensures t.records == s.records[id := s.records[id].(rolledBack := true)]
  {
    hide Target;
  }

  function BackAgain(c: Candidate): Candidate {
    c.(status := RolledBack, promotedTo := Some(Target(c)))
  }

  lemma UpdatesCommute<K, V>(m: map<K, V>, a: K, x: V, b: K, y: V)
    requires a != b
    ensures m[a := x][b := y] == m[b := y][a := x]
  {
  }

  lemma UpdatedElsewhere<K, V>(m: map<K, V>, a: K, x: V, b: K)
    requires a != b && b in m
    ensures b in m[a := x] && m[a := x][b] == m[b]
  {
  }

  lemma RollbacksRest(
    json: Json, base: Files, s: State, sa: State, ab: State, sb: State, ba: State, a: Id, b: Id)
    requires a != b && RolledBackTo(base, s, sa, a) && RolledBackTo(base, sa, ab, b)
    requires RolledBackTo(base, s, sb, b) && RolledBackTo(base, sb, ba, a)
    ensures ab.candidates == ba.candidates && ab.records == ba.records && ab.snapshots == ba.snapshots
    ensures a in s.candidates && b in s.candidates && b in sa.candidates && a in sb.candidates
    ensures sa.candidates[b] == s.candidates[b] && sb.candidates[a] == s.candidates[a]
  {
    hide *;
    RolledBackParts(base, s, sa, a);
    RolledBackParts(base, sa, ab, b);
    RolledBackParts(base, s, sb, b);
    RolledBackParts(base, sb, ba, a);
    var x, y := BackAgain(s.candidates[a]), BackAgain(s.candidates[b]);
    UpdatedElsewhere(s.candidates, a, x, b);
    UpdatedElsewhere(s.candidates, b, y, a);
    UpdatesCommute(s.candidates, a, x, b, y);
    var r, q := s.records[a].(rolledBack := true), s.records[b].(rolledBack := true);
    UpdatedElsewhere(s.records, a, r, b);
    UpdatedElsewhere(s.records, b, q, a);
    UpdatesCommute(s.records, a, r, b, q);
  }

  /** Two rollbacks lead to the same store in either order, but for the journal: files and bundles,
      candidates, records, snapshots and canaries. */
  lemma RollbacksCommuteWholly(json: Json, base: Files, s: State, a: Id, b: Id)
    requires Tracks(json, base, s) && Tracked(json, base, s, a) && Tracked(json, base, s, b) && a != b
    ensures var (ab, q) := Rollback(json, Rollback(json, s, a).0, b);
            var (ba, r) := Rollback(json, Rollback(json, s, b).0, a);
            q.Ok? && r.Ok? && ab == ba.(journal := ab.journal)
  {
    hide *;
    var sa, sb := Rollback(json, s, a).0, Rollback(json, s, b).0;
    var ab, ba := Rollback(json, sa, b).0, Rollback(json, sb, a).0;
    TracksParts(json, base, s);
    RollbackGoesThrough(json, base, s, a);
    RollbackGoesThrough(json, base, s, b);
    RollbackTracks(json, base, s, a);
    RollbackTracks(json, base, s, b);
    TracksParts(json, base, sa);
    TracksParts(json, base, sb);
    StillTracked(json, base, s, sa, a, b);
    StillTracked(json, base, s, sb, b, a);
    RollbackGoesThrough(json, base, sa, b);
    RollbackGoesThrough(json, base, sb, a);
    RollbacksRest(json, base, s, sa, ab, sb, ba, a, b);
    var _ := RollbackAimed(json, s, a);
    var _ := RollbackAimed(json, s, b);
    var _ := RollbackAimed(json, sa, b);
    var _ := RollbackAimed(json, sb, a);
    forall p: Path | !p.Bundle?
      ensures Lookup(ab.files, p) == Lookup(ba.files, p)
    {
      RollbacksCommute(json, base, s, a, b, p);
    }
    forall p: Path | p.Bundle?
      ensures Lookup(ab.files, p) == Lookup(ba.files, p)
    {
      RollbacksMake(json, s, a, b, p.area);
      RollbacksMake(json, s, b, a, p.area);
      MadeTwice(json, s.files, ab.files, ba.files, p.area);
    }
    FilesEqual(ab.files, ba.files);
  }
}
