/** Whole runs of store operations: how candidates and canaries move. */
module StoreRuns {
  import opened Wrappers
  import opened Evolution
  import opened Bundles
  import opened Sorting
  import opened Store

  // ----- Observing and expiring, all canaries at once -----

  ghost predicate KeysMatch(s: State) {
    && (forall id :: id in s.candidates ==> s.candidates[id].id == id)
    && (forall id :: id in s.canaries ==> s.canaries[id].candidateId == id)
    && (forall id :: id in s.records ==> s.records[id].candidateId == id)
  }

  predicate Among(ks: seq<Canary>, id: Id) {
    exists i | 0 <= i < |ks| :: ks[i].candidateId == id
  }

  /** A list of different canaries as they are stored. */
  ghost predicate Loaded(s: State, ks: seq<Canary>) {
    && (forall i :: 0 <= i < |ks| ==> ks[i].candidateId in s.canaries && s.canaries[ks[i].candidateId] == ks[i])
    && (forall i, j :: 0 <= i < j < |ks| ==> ks[i].candidateId != ks[j].candidateId)
  }

  lemma ListedIsLoaded(s: State)
    requires KeysMatch(s)
    ensures Loaded(s, Listed(s.canaries))
    ensures forall id :: id in s.canaries ==> Among(Listed(s.canaries), id)
  {
    BeforeIsTotalOrder();
    var ids := Sorted(s.canaries.Keys, Before);
    var ks := Listed(s.canaries);
    forall i, j | 0 <= i < j < |ids|
      ensures ids[i] != ids[j]
    {
      SortedInOrder(s.canaries.Keys, Before, i, j);
    }
    assert forall i :: 0 <= i < |ids| ==> ids[i] in ids;
    forall id | id in s.canaries
      ensures Among(ks, id)
    {
      assert id in ids;
      var i :| 0 <= i < |ids| && ids[i] == id;
      assert ks[i].candidateId == id;
    }
  }

  function Seen(k: Canary, tape: string, seen: set<string>): Canary {
    if k.status.Active? && k.fingerprint in seen then Again(k, tape) else k
  }

  function Lapsed(k: Canary, now: int): Canary {
    if Lapses(k, now) then k.(status := Expired) else k
  }

  lemma AmongTail(ks: seq<Canary>, id: Id)
    requires ks != []
    ensures Among(ks, id) <==> ks[0].candidateId == id || Among(ks[1..], id)
  {
    assert forall i :: 0 <= i < |ks[1..]| ==> ks[1..][i] == ks[i + 1];
    if Among(ks, id) && ks[0].candidateId != id {
      var i :| 0 <= i < |ks| && ks[i].candidateId == id;
      assert ks[1..][i - 1] == ks[i];
    }
  }

  lemma NotAmongTail(s: State, ks: seq<Canary>)
    requires ks != [] && Loaded(s, ks)
    ensures !Among(ks[1..], ks[0].candidateId)
  {
    assert forall i :: 0 <= i < |ks[1..]| ==> ks[1..][i] == ks[i + 1];
  }

  lemma LoadedTail(s: State, t: State, ks: seq<Canary>)
    requires ks != [] && Loaded(s, ks)
    requires t.canaries.Keys == s.canaries.Keys
    requires forall id :: id in s.canaries && id != ks[0].candidateId ==> t.canaries[id] == s.canaries[id]
    ensures Loaded(t, ks[1..])
  {
    assert forall i :: 0 <= i < |ks[1..]| ==> ks[1..][i] == ks[i + 1];
  }

  lemma {:induction false} ObservedAllIs(s: State, ks: seq<Canary>, tape: string, seen: set<string>)
    requires Loaded(s, ks)
    ensures var t := ObservedAll(s, ks, tape, seen);
            && t == s.(canaries := t.canaries, journal := t.journal)
            && t.canaries.Keys == s.canaries.Keys
            && forall id :: id in s.canaries ==>
                 t.canaries[id] == if Among(ks, id) then Seen(s.canaries[id], tape, seen) else s.canaries[id]
    decreases |ks|
  {
    if ks != [] {
      var next := ObservedOne(s, ks[0], tape, seen);
      LoadedTail(s, next, ks);
      ObservedAllIs(next, ks[1..], tape, seen);
      NotAmongTail(s, ks);
      forall id
        ensures Among(ks, id) <==> ks[0].candidateId == id || Among(ks[1..], id)
      {
        AmongTail(ks, id);
      }
    }
  }

  /** An observation counts once for every Active canary whose fingerprint was seen, and changes
      nothing else. */
  lemma ObserveIs(s: State, tape: string, seen: set<string>)
    requires KeysMatch(s)
    ensures var t := Observe(s, tape, seen);
            && t == s.(canaries := t.canaries, journal := t.journal)
            && t.canaries.Keys == s.canaries.Keys
            && (forall id :: id in s.canaries ==> t.canaries[id] == Seen(s.canaries[id], tape, seen))
            && forall id :: id in s.canaries ==>
                 var k := s.canaries[id];
                 t.canaries[id] ==
                   if k.status.Active? && k.fingerprint in seen then
                     k.(observations := k.observations + 1, lastTape := Some(tape))
                   else k
  {
    ListedIsLoaded(s);
    ObservedAllIs(s, Listed(s.canaries), tape, seen);
  }

  function RejectedIf(c: Candidate, rejects: bool): Candidate {
    if rejects && c.status.Pending? then c.(status := Rejected, promotedTo := None) else c
  }

  lemma RejectionIs(s: State, id: Id)
    requires KeysMatch(s)
    ensures var t := Rejection(s, id).0;
            && t == s.(candidates := t.candidates, journal := t.journal)
            && t.candidates.Keys == s.candidates.Keys
            && forall other :: other in s.candidates ==>
                 t.candidates[other] == RejectedIf(s.candidates[other], other == id)
  {
  }

  lemma ExpiredOneIs(s: State, k: Canary, now: int)
    requires KeysMatch(s) && k.candidateId in s.canaries && s.canaries[k.candidateId] == k
    ensures var t := ExpiredOne(s, k, now);
            && t == s.(canaries := t.canaries, candidates := t.candidates, journal := t.journal)
            && KeysMatch(t)
            && t.canaries.Keys == s.canaries.Keys && t.candidates.Keys == s.candidates.Keys
            && (forall id :: id in s.canaries ==>
                  t.canaries[id] == if id == k.candidateId then Lapsed(k, now) else s.canaries[id])
            && (forall id :: id in s.candidates ==>
                  t.candidates[id] == RejectedIf(s.candidates[id], id == k.candidateId && Lapses(k, now)))
  {
    if Lapses(k, now) {
      var marked := s.(canaries := s.canaries[k.candidateId := k.(status := Expired)]);
      RejectionIs(marked, k.candidateId);
      hide Rejection;
    }
  }

  /** What expiry makes of a state, for the canaries on a list. */
  ghost predicate ExpiredAmong(s: State, t: State, ks: seq<Canary>, now: int) {
    && t == s.(canaries := t.canaries, candidates := t.candidates, journal := t.journal)
    && t.canaries.Keys == s.canaries.Keys && t.candidates.Keys == s.candidates.Keys
    && (forall id :: id in s.canaries ==>
          t.canaries[id] == if Among(ks, id) then Lapsed(s.canaries[id], now) else s.canaries[id])
    && (forall id :: id in s.candidates ==>
          t.candidates[id] ==
            RejectedIf(s.candidates[id], Among(ks, id) && id in s.canaries && Lapses(s.canaries[id], now)))
  }

  lemma ExpiredAmongStep(s: State, next: State, t: State, ks: seq<Canary>, now: int)
    requires KeysMatch(s) && ks != [] && Loaded(s, ks)
    requires next == ExpiredOne(s, ks[0], now) && ExpiredAmong(next, t, ks[1..], now)
    ensures ExpiredAmong(s, t, ks, now)
  {
    hide *;
    var k := ks[0];
    FirstIsStored(s, ks);
    ExpiredOneIs(s, k, now);
    NotAmongTail(s, ks);
    ExpiredAmongParts(next, t, ks[1..], now);
    forall id
      ensures Among(ks, id) <==> k.candidateId == id || Among(ks[1..], id)
    {
      AmongTail(ks, id);
    }
    forall id | id in s.canaries
      ensures t.canaries[id] == if Among(ks, id) then Lapsed(s.canaries[id], now) else s.canaries[id]
    {
    }
    forall id | id in s.candidates
      ensures t.candidates[id] ==
              RejectedIf(s.candidates[id], Among(ks, id) && id in s.canaries && Lapses(s.canaries[id], now))
    {
      RejectedOnce(s.candidates[id], id == k.candidateId && Lapses(k, now));
    }
    ExpiredAmongIs(s, t, ks, now);
  }

  lemma FirstIsStored(s: State, ks: seq<Canary>)
    requires ks != [] && Loaded(s, ks)
    ensures ks[0].candidateId in s.canaries && s.canaries[ks[0].candidateId] == ks[0]
  {
  }

  lemma RejectedOnce(c: Candidate, rejects: bool)
    ensures RejectedIf(RejectedIf(c, rejects), false) == RejectedIf(c, rejects)
    ensures RejectedIf(c, false) == c
  {
  }

  lemma ExpiredAmongParts(s: State, t: State, ks: seq<Canary>, now: int)
    requires ExpiredAmong(s, t, ks, now)
    ensures t == s.(canaries := t.canaries, candidates := t.candidates, journal := t.journal)
    ensures t.canaries.Keys == s.canaries.Keys && t.candidates.Keys == s.candidates.Keys
    ensures forall id :: id in s.canaries ==>
              t.canaries[id] == if Among(ks, id) then Lapsed(s.canaries[id], now) else s.canaries[id]
    ensures forall id :: id in s.candidates ==>
              t.candidates[id] ==
                RejectedIf(s.candidates[id], Among(ks, id) && id in s.canaries && Lapses(s.canaries[id], now))
  {
  }

  lemma ExpiredAmongIs(s: State, t: State, ks: seq<Canary>, now: int)
    requires t == s.(canaries := t.canaries, candidates := t.candidates, journal := t.journal)
    requires t.canaries.Keys == s.canaries.Keys && t.candidates.Keys == s.candidates.Keys
    requires forall id :: id in s.canaries ==>
               t.canaries[id] == if Among(ks, id) then Lapsed(s.canaries[id], now) else s.canaries[id]
    requires forall id :: id in s.candidates ==>
               t.candidates[id] ==
                 RejectedIf(s.candidates[id], Among(ks, id) && id in s.canaries && Lapses(s.canaries[id], now))
    ensures ExpiredAmong(s, t, ks, now)
  {
  }

  lemma {:induction false} ExpiredAllIs(s: State, ks: seq<Canary>, now: int)
    requires KeysMatch(s) && Loaded(s, ks)
    ensures ExpiredAmong(s, ExpiredAll(s, ks, now), ks, now)
    decreases |ks|
  {
    if ks != [] {
      ExpiredOneIs(s, ks[0], now);
      hide ExpiredOne;
      var next := ExpiredOne(s, ks[0], now);
      LoadedTail(s, next, ks);
      hide KeysMatch;
      hide Loaded;
      ExpiredAllIs(next, ks[1..], now);
      hide ExpiredAmong;
      ExpiredAmongStep(s, next, ExpiredAll(s, ks, now), ks, now);
    }
  }

  /** Expiry ends every Active canary past its time and rejects its candidate where that is still
      pending; nothing else changes. */
  lemma ExpireIs(s: State, now: int)
    requires KeysMatch(s)
    ensures var t := Expire(s, now);
            && t == s.(canaries := t.canaries, candidates := t.candidates, journal := t.journal)
            && t.canaries.Keys == s.canaries.Keys && t.candidates.Keys == s.candidates.Keys
            && (forall id :: id in s.canaries ==> t.canaries[id] == Lapsed(s.canaries[id], now))
            && (forall id :: id in s.candidates ==>
                  t.candidates[id] == RejectedIf(s.candidates[id], id in s.canaries && Lapses(s.canaries[id], now)))
            && (forall id :: id in s.canaries ==>
                  var k := s.canaries[id];
                  t.canaries[id] == if k.status.Active? && k.expiresAt <= now then k.(status := Expired) else k)
            && (forall id :: id in s.candidates ==>
                  var c := s.candidates[id];
                  t.candidates[id] ==
                    if && id in s.canaries && s.canaries[id].status.Active? && s.canaries[id].expiresAt <= now
                       && c.status.Pending?
                    then c.(status := Rejected, promotedTo := None)
                    else c)
  {
    ListedIsLoaded(s);
    ExpiredAllIs(s, Listed(s.canaries), now);
  }

  // ----- Runs -----

  datatype Op =
    | Captures(candidate: Candidate)
    | Evaluates(id: Id, verdict: Verdict)
    | Rejects(id: Id)
    | Promotes(id: Id, force: bool)
    | RollsBack(id: Id)
    | Observes(tape: string, seen: set<string>)
    | Expires(now: int)
    | Stages(copy: Candidate, run: Run, tape: string, policy: AutoPolicy, now: int)
    | Finalizes(id: Id, force: bool)
    | Writes(note: Note)

  predicate Unforced(op: Op) {
    (op.Promotes? ==> !op.force) && (op.Finalizes? ==> !op.force)
  }

  /** A candidate as it is when captured. */
  predicate IsNew(c: Candidate) {
    && c.status.Pending? && c.promotedTo == None && c.evaluationPassed == None && c.requiresEvaluation
    && c.risk == RiskFor(c.kind) && c.fingerprint == Fingerprint(c.kind, c.title, c.content, TargetName(c))
  }

  /** Identifiers of new candidates are fresh; copies of candidates belong to captured ones. */
  predicate Enabled(s: State, op: Op) {
    match op
    case Captures(c) => IsNew(c) && c.id !in s.candidates && c.id !in s.canaries && c.id !in s.records
    case Stages(c, _, _, _, _) => c.id in s.candidates
    case _ => true
  }

  function Step(json: Json, s: State, op: Op): State {
    match op
    case Captures(c) => WithCandidate(s, c)
    case Evaluates(id, v) => Evaluation(json, s, id, v).0
    case Rejects(id) => Rejection(s, id).0
    case Promotes(id, force) => Promotion(json, s, id, force).0
    case RollsBack(id) => Rollback(json, s, id).0
    case Observes(tape, seen) => Observe(s, tape, seen)
    case Expires(now) => Expire(s, now)
    case Stages(c, run, tape, policy, now) => Stage(s, c, run, tape, policy, now).0
    case Finalizes(id, force) => Finalize(json, s, id, force).0
    case Writes(note) => s.(journal := s.journal + [note])
  }

  predicate IsRun(json: Json, s: State, ops: seq<Op>)
    decreases |ops|
  {
    ops == [] || (Enabled(s, ops[0]) && IsRun(json, Step(json, s, ops[0]), ops[1..]))
  }

  function After(json: Json, s: State, ops: seq<Op>): State
    decreases |ops|
  {
    if ops == [] then s else After(json, Step(json, s, ops[0]), ops[1..])
  }

  lemma {:induction false} RunConcat(json: Json, s: State, a: seq<Op>, b: seq<Op>)
    ensures After(json, s, a + b) == After(json, After(json, s, a), b)
    ensures IsRun(json, s, a + b) <==> IsRun(json, s, a) && IsRun(json, After(json, s, a), b)
    decreases |a|
  {
    hide Step;
    hide Enabled;
    if a == [] {
      assert a + b == b;
    } else {
      assert (a + b)[1..] == a[1..] + b;
      RunConcat(json, Step(json, s, a[0]), a[1..], b);
    }
  }

  lemma DraftIsNew(
    json: Json, kind: Kind, name: Option<string>, title: string, summary: string, content: string,
    sourceTape: Option<string>, id: Id, at: int)
    requires Drafted(json, kind, name, title, summary, content, sourceTape, id, at).Ok?
    ensures IsNew(Drafted(json, kind, name, title, summary, content, sourceTape, id, at).value)
  {
  }

  // ----- What each operation leaves alone -----

  lemma EvaluationIs(json: Json, s: State, id: Id, v: Verdict)
    requires KeysMatch(s)
    ensures var (t, r) := Evaluation(json, s, id, v);
            && t == s.(candidates := t.candidates, files := t.files, journal := t.journal)
            && (r.Err? ==> t == s)
            && (r.Ok? <==> id in s.candidates && s.candidates[id].status.Pending? &&
                           (s.candidates[id].kind.RuntimePolicy? ==> json.parse(s.candidates[id].content).Some?))
            && (r.Ok? ==> r.value == Run(v.runId, id, v.passed, v.score))
            && (r.Ok? ==> t.candidates == s.candidates[id :=
                            s.candidates[id].(latestEvaluation := Some(v.runId), evaluationPassed := Some(v.passed))])
            && (forall p :: p != Bundle(Rules) ==> Lookup(t.files, p) == Lookup(s.files, p))
  {
    hide BundleOf;
  }

  lemma InstalledIs(json: Json, files: Files, c: Candidate, target: Path, force: bool)
    ensures var (after, failure) := Installed(json, files, c, target, force);
            && (failure == None ==> Written(json, c, Lookup(files, target)).Some?)
            && (failure == None && AreaOf(c.kind).None? ==>
                  after == files[target := Written(json, c, Lookup(files, target)).value])
            && (failure == None && AreaOf(c.kind).Some? ==>
                  var written := files[target := Written(json, c, Lookup(files, target)).value];
                  Refreshed(json, written, AreaOf(c.kind).value) == Ok(after))
            && (failure == None && !c.kind.PromptRule? && !force ==> target !in files)
  {
    hide Refreshed;
    hide Written;
  }

  lemma PromotionIs(json: Json, s: State, id: Id, force: bool)
    requires KeysMatch(s)
    ensures var (t, r) := Promotion(json, s, id, force);
            && t.canaries == s.canaries
            && (r.Err? ==> t == s.(snapshots := t.snapshots, files := t.files))
            && (r.Ok? ==>
                  && id in s.candidates && s.candidates[id].status.Pending? && GateOpen(s.candidates[id], force)
                  && r.value.target == Target(s.candidates[id])
                  && t.candidates == s.candidates[id :=
                       s.candidates[id].(status := Promoted, promotedTo := Some(r.value.target))]
                  && t.records == s.records[id := RecordFor(s, s.candidates[id], r.value.target)])
  {
    hide Installed;
    hide RecordFor;
    hide Target;
    hide GateOpen;
  }

  lemma RollbackIs(json: Json, s: State, id: Id)
    requires KeysMatch(s)
    ensures var (t, r) := Rollback(json, s, id);
            && t.canaries == s.canaries && t.snapshots == s.snapshots
            && (r.Err? ==> t.candidates == s.candidates)
            && (t.records == s.records
              || (id in s.records && t.records == s.records[id := s.records[id].(rolledBack := true)]))
            && (r.Ok? ==>
                  && id in s.candidates && s.candidates[id].status.Promoted? && id in s.records
                  && t.candidates == s.candidates[id :=
                       s.candidates[id].(status := RolledBack, promotedTo := Some(s.records[id].target))])
  {
    hide RefreshedFor;
    hide Put;
  }

  // ----- How candidates and canaries move -----

  predicate StatusMoves(a: Status, b: Status) {
    a == b || (a.Pending? && (b.Rejected? || b.Promoted?)) || (a.Promoted? && b.RolledBack?)
  }

  predicate CanaryMoves(a: CanaryStatus, b: CanaryStatus) {
    a == b || a.Active?
  }

  /** What a candidate is, apart from where it stands. */
  function Core(c: Candidate): Candidate {
    c.(status := Pending, promotedTo := None, latestEvaluation := None, evaluationPassed := None)
  }

  predicate CandidateMoves(a: Candidate, b: Candidate) {
    Core(a) == Core(b) && StatusMoves(a.status, b.status)
  }

  /** No candidate and no canary disappears, and each moves along its states. */
  ghost predicate Moves(s: State, t: State) {
    && (forall id :: id in s.candidates ==> id in t.candidates && CandidateMoves(s.candidates[id], t.candidates[id]))
    && (forall id :: id in s.canaries ==>
          && id in t.canaries && CanaryMoves(s.canaries[id].status, t.canaries[id].status)
          && t.canaries[id].fingerprint == s.canaries[id].fingerprint)
  }

  /** A canary that is no longer Active has a candidate that is no longer pending. */
  ghost predicate Settled(s: State) {
    && KeysMatch(s)
    && (forall id :: id in s.canaries ==> id in s.candidates)
    && (forall id :: id in s.canaries && !s.canaries[id].status.Active? ==> !s.candidates[id].status.Pending?)
  }

  ghost predicate RecordsMatch(s: State) {
    forall id :: id in s.records ==> s.records[id].candidateId == id
  }

  lemma RecordsOf(s: State)
    requires Settled(s)
    ensures RecordsMatch(s)
  {
  }

  /** One candidate moves, and at most its own canary with it. */
  lemma OneMoves(s: State, t: State, id: Id, c: Candidate)
    requires Settled(s) && RecordsMatch(t) && id in s.candidates && c.id == id
    requires t.candidates == s.candidates[id := c] && CandidateMoves(s.candidates[id], c)
    requires t.canaries == s.canaries
    ensures Settled(t) && Moves(s, t)
  {
    hide Core;
  }

  lemma NoneMoves(s: State, t: State)
    requires Settled(s) && RecordsMatch(t) && t.candidates == s.candidates && t.canaries == s.canaries
    ensures Settled(t) && Moves(s, t)
  {
  }

  /** The canary of a candidate that is no longer pending moves. */
  lemma CanaryFollows(s: State, t: State, id: Id, k: Canary)
    requires Settled(s) && RecordsMatch(t) && t.candidates == s.candidates
    requires id in s.canaries && t.canaries == s.canaries[id := k]
    requires k.candidateId == id && k.fingerprint == s.canaries[id].fingerprint
    requires CanaryMoves(s.canaries[id].status, k.status) && !s.candidates[id].status.Pending?
    ensures Settled(t) && Moves(s, t)
  {
    hide Core;
  }

  lemma PromotionMoves(json: Json, s: State, id: Id, force: bool)
    requires Settled(s)
    ensures Settled(Promotion(json, s, id, force).0) && Moves(s, Promotion(json, s, id, force).0)
  {
    var (t, r) := Promotion(json, s, id, force);
    PromotionIs(json, s, id, force);
    hide *;
    RecordsOf(s);
    if r.Err? {
      SameRecords(s, t);
      NoneMoves(s, t);
    } else {
      var c := s.candidates[id].(status := Promoted, promotedTo := Some(r.value.target));
      RecordedOnce(s, t, id, r.value.target);
      PromotedMoves(s, id, c);
      OneMoves(s, t, id, c);
    }
  }

  lemma SameRecords(s: State, t: State)
    requires RecordsMatch(s) && t.records == s.records
    ensures RecordsMatch(t)
  {
  }

  lemma RecordedOnce(s: State, t: State, id: Id, target: Path)
    requires Settled(s) && id in s.candidates && t.records == s.records[id := RecordFor(s, s.candidates[id], target)]
    ensures RecordsMatch(t)
  {
  }

  lemma PromotedMoves(s: State, id: Id, c: Candidate)
    requires Settled(s) && id in s.candidates && s.candidates[id].status.Pending?
    requires exists target :: c == s.candidates[id].(status := Promoted, promotedTo := target)
    ensures c.id == id && CandidateMoves(s.candidates[id], c)
  {
  }

  lemma RollbackMoves(json: Json, s: State, id: Id)
    requires Settled(s)
    ensures Settled(Rollback(json, s, id).0) && Moves(s, Rollback(json, s, id).0)
  {
    RollbackIs(json, s, id);
    var (t, r) := Rollback(json, s, id);
    assert RecordsMatch(t);
    hide Rollback;
    if r.Err? {
      NoneMoves(s, t);
    } else {
      OneMoves(s, t, id, t.candidates[id]);
    }
  }

  lemma FinalizeMoves(json: Json, s: State, id: Id, force: bool)
    requires Settled(s)
    ensures Settled(Finalize(json, s, id, force).0) && Moves(s, Finalize(json, s, id, force).0)
  {
    PromotionMoves(json, s, id, force);
    PromotionIs(json, s, id, force);
    FinalizeIs(json, s, id, force);
    hide *;
    var (mid, r) := Promotion(json, s, id, force);
    var (t, q) := Finalize(json, s, id, force);
    if q.Ok? {
      var k := t.canaries[id];
      WasActive(s, mid, id);
      RecordsOf(mid);
      SameRecords(mid, t);
      CanaryFollows(mid, t, id, k);
      MovesTwice(s, mid, t, id);
    } else if t == s {
      RecordsOf(s);
      NoneMoves(s, t);
    }
  }

  lemma FinalizeIs(json: Json, s: State, id: Id, force: bool)
    requires KeysMatch(s)
    ensures var (mid, r) := Promotion(json, s, id, force);
            var (t, q) := Finalize(json, s, id, force);
            && (q.Ok? <==> r.Ok? && id in s.canaries && (force || Ready(s.canaries[id])))
            && (q.Err? ==> t == s || t == mid)
            && (q.Ok? ==>
                  && q == r
                  && t == mid.(canaries := t.canaries, journal := t.journal)
                  && t.canaries == s.canaries[id :=
                       s.canaries[id].(status := CanaryPromoted, promotedTo := Some(r.value.target))])
  {
    PromotionIs(json, s, id, force);
    hide Promotion;
  }

  lemma WasActive(s: State, mid: State, id: Id)
    requires Settled(s) && id in s.canaries && s.candidates[id].status.Pending?
    requires mid.canaries == s.canaries && Settled(mid)
    ensures s.canaries[id].status.Active? && s.canaries[id].candidateId == id
  {
  }

  lemma MovesTwice(s: State, mid: State, t: State, id: Id)
    requires Moves(s, mid) && Moves(mid, t) && mid.canaries == s.canaries && t.candidates == mid.candidates
    ensures Moves(s, t)
  {
  }

  lemma LapsedMoves(s: State, t: State, id: Id, now: int)
    requires Settled(s) && id in s.canaries && id in t.canaries && t.canaries[id] == Lapsed(s.canaries[id], now)
    requires id in t.candidates && t.candidates[id] == RejectedIf(s.candidates[id], Lapses(s.canaries[id], now))
    ensures CanaryMoves(s.canaries[id].status, t.canaries[id].status)
    ensures t.canaries[id].fingerprint == s.canaries[id].fingerprint && t.canaries[id].candidateId == id
    ensures !t.canaries[id].status.Active? ==> !t.candidates[id].status.Pending?
  {
  }

  lemma RejectedMoves(s: State, t: State, id: Id, rejects: bool)
    requires Settled(s) && id in s.candidates && id in t.candidates
    requires t.candidates[id] == RejectedIf(s.candidates[id], rejects)
    ensures CandidateMoves(s.candidates[id], t.candidates[id]) && t.candidates[id].id == id
  {
  }

  lemma CanariesHaveCandidates(s: State)
    requires Settled(s)
    ensures KeysMatch(s) && forall id :: id in s.canaries ==> id in s.candidates
  {
  }

  lemma MovesIs(s: State, t: State)
    requires RecordsMatch(t) && t.candidates.Keys == s.candidates.Keys && t.canaries.Keys == s.canaries.Keys
    requires forall id :: id in s.canaries ==> id in s.candidates
    requires forall id :: id in s.candidates ==>
             CandidateMoves(s.candidates[id], t.candidates[id]) && t.candidates[id].id == id
    requires forall id :: id in s.canaries ==>
               && CanaryMoves(s.canaries[id].status, t.canaries[id].status)
               && t.canaries[id].fingerprint == s.canaries[id].fingerprint && t.canaries[id].candidateId == id
               && (!t.canaries[id].status.Active? ==> !t.candidates[id].status.Pending?)
    ensures Settled(t) && Moves(s, t)
  {
    hide CandidateMoves;
    hide CanaryMoves;
  }

  lemma ExpireMoves(s: State, now: int)
    requires Settled(s)
    ensures Settled(Expire(s, now)) && Moves(s, Expire(s, now))
  {
    hide *;
    CanariesHaveCandidates(s);
    ExpireIs(s, now);
    var t := Expire(s, now);
    RecordsOf(s);
    SameRecords(s, t);
    forall id | id in s.candidates
      ensures CandidateMoves(s.candidates[id], t.candidates[id]) && t.candidates[id].id == id
    {
      RejectedMoves(s, t, id, id in s.canaries && Lapses(s.canaries[id], now));
    }
    forall id | id in s.canaries
      ensures CanaryMoves(s.canaries[id].status, t.canaries[id].status)
      ensures t.canaries[id].fingerprint == s.canaries[id].fingerprint && t.canaries[id].candidateId == id
      ensures !t.canaries[id].status.Active? ==> !t.candidates[id].status.Pending?
    {
      LapsedMoves(s, t, id, now);
    }
    MovesIs(s, t);
  }

  lemma SeenMoves(s: State, t: State, id: Id, tape: string, seen: set<string>)
    requires Settled(s) && id in s.canaries && id in t.canaries && t.canaries[id] == Seen(s.canaries[id], tape, seen)
    requires t.candidates == s.candidates
    ensures CanaryMoves(s.canaries[id].status, t.canaries[id].status)
    ensures t.canaries[id].fingerprint == s.canaries[id].fingerprint && t.canaries[id].candidateId == id
    ensures !t.canaries[id].status.Active? ==> !t.candidates[id].status.Pending?
  {
  }

  lemma ObserveMoves(s: State, tape: string, seen: set<string>)
    requires Settled(s)
    ensures Settled(Observe(s, tape, seen)) && Moves(s, Observe(s, tape, seen))
  {
    hide *;
    CanariesHaveCandidates(s);
    ObserveIs(s, tape, seen);
    var t := Observe(s, tape, seen);
    RecordsOf(s);
    SameRecords(s, t);
    forall id | id in s.candidates
      ensures CandidateMoves(s.candidates[id], t.candidates[id]) && t.candidates[id].id == id
    {
      SameMoves(s, id);
    }
    forall id | id in s.canaries
      ensures CanaryMoves(s.canaries[id].status, t.canaries[id].status)
      ensures t.canaries[id].fingerprint == s.canaries[id].fingerprint && t.canaries[id].candidateId == id
      ensures !t.canaries[id].status.Active? ==> !t.candidates[id].status.Pending?
    {
      SeenMoves(s, t, id, tape, seen);
    }
    MovesIs(s, t);
  }

  lemma SameMoves(s: State, id: Id)
    requires Settled(s) && id in s.candidates
    ensures CandidateMoves(s.candidates[id], s.candidates[id]) && s.candidates[id].id == id
  {
  }

  lemma EvaluationMoves(json: Json, s: State, id: Id, v: Verdict)
    requires Settled(s)
    ensures Settled(Evaluation(json, s, id, v).0) && Moves(s, Evaluation(json, s, id, v).0)
  {
    EvaluationIs(json, s, id, v);
    hide Evaluation;
    var t := Evaluation(json, s, id, v).0;
    if t == s {
      NoneMoves(s, t);
    } else {
      OneMoves(s, t, id, t.candidates[id]);
    }
  }

  lemma RejectionMoves(s: State, id: Id)
    requires Settled(s)
    ensures Settled(Rejection(s, id).0) && Moves(s, Rejection(s, id).0)
  {
    var (t, r) := Rejection(s, id);
    if r.Err? {
      NoneMoves(s, t);
    } else {
      OneMoves(s, t, id, r.value);
    }
  }

  lemma AddedMoves(s: State, t: State, id: Id, k: Canary)
    requires Settled(s) && RecordsMatch(t) && t.candidates == s.candidates && id in s.candidates && id !in s.canaries
    requires t.canaries == s.canaries[id := k] && k.candidateId == id && k.status.Active?
    ensures Settled(t) && Moves(s, t)
  {
    hide Core;
  }

  lemma StageMoves(s: State, c: Candidate, run: Run, tape: string, policy: AutoPolicy, now: int)
    requires Settled(s) && c.id in s.candidates
    ensures Settled(Stage(s, c, run, tape, policy, now).0) && Moves(s, Stage(s, c, run, tape, policy, now).0)
  {
    hide Settled;
    hide Moves;
    RecordsOf(s);
    var t := Stage(s, c, run, tape, policy, now).0;
    SameRecords(s, t);
    hide RecordsMatch;
    if t == s {
      NoneMoves(s, t);
    } else {
      AddedMoves(s, t, c.id, t.canaries[c.id]);
    }
  }

  lemma CaptureMoves(s: State, c: Candidate)
    requires Settled(s) && c.id !in s.candidates
    ensures Settled(WithCandidate(s, c)) && Moves(s, WithCandidate(s, c))
  {
    hide Core;
  }

  /** Every operation, forced or not, moves each candidate only from Pending to Rejected or to
      Promoted to RolledBack, and each canary only out of Active. */
  lemma StepMoves(json: Json, s: State, op: Op)
    requires Settled(s) && Enabled(s, op)
    ensures Settled(Step(json, s, op)) && Moves(s, Step(json, s, op))
  {
    hide Settled;
    hide Moves;
    hide Promotion;
    hide Rollback;
    hide Finalize;
    hide Evaluation;
    hide Rejection;
    hide Stage;
    match op
    case Captures(c) => CaptureMoves(s, c);
    case Evaluates(id, v) => EvaluationMoves(json, s, id, v);
    case Rejects(id) => RejectionMoves(s, id);
    case Promotes(id, force) => PromotionMoves(json, s, id, force);
    case RollsBack(id) => RollbackMoves(json, s, id);
    case Observes(tape, seen) => ObserveMoves(s, tape, seen);
    case Expires(now) => ExpireMoves(s, now);
    case Stages(c, run, tape, policy, now) => StageMoves(s, c, run, tape, policy, now);
    case Finalizes(id, force) => FinalizeMoves(json, s, id, force);
    case Writes(note) =>
      RecordsOf(s);
      NoneMoves(s, Step(json, s, op)) by {
        SameRecords(s, Step(json, s, op));
      }
  }

  predicate StatusReaches(a: Status, b: Status) {
    a == b || a.Pending? || (a.Promoted? && b.RolledBack?)
  }

  /** Over a whole run: nothing disappears or moves back. */
  ghost predicate Reaches(s: State, t: State) {
    && (forall id :: id in s.candidates ==>
          && id in t.candidates && Core(s.candidates[id]) == Core(t.candidates[id])
          && StatusReaches(s.candidates[id].status, t.candidates[id].status))
    && (forall id :: id in s.canaries ==>
          && id in t.canaries && CanaryMoves(s.canaries[id].status, t.canaries[id].status)
          && t.canaries[id].fingerprint == s.canaries[id].fingerprint)
  }

  lemma {:induction false} RunMoves(json: Json, s: State, ops: seq<Op>)
    requires Settled(s) && IsRun(json, s, ops)
    ensures Settled(After(json, s, ops)) && Reaches(s, After(json, s, ops))
    decreases |ops|
  {
    hide Settled;
    hide Step;
    hide Enabled;
    if ops != [] {
      var next := Step(json, s, ops[0]);
      StepMoves(json, s, ops[0]);
      RunMoves(json, next, ops[1..]);
      MovesThenReaches(s, next, After(json, s, ops));
    }
  }

  lemma MovesThenReaches(s: State, next: State, t: State)
    requires Moves(s, next) && Reaches(next, t)
    ensures Reaches(s, t)
  {
    hide Core;
  }
}
