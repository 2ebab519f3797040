/** The store of governed self-evolution: capturing, evaluating, promoting and rolling back
    candidates, and the canaries of the automatic loop. */
module Store {
  import opened Wrappers
  import opened Evolution
  import opened Bundles
  import opened BundleTexts
  import opened Sorting

  datatype State = State(
    candidates: map<Id, Candidate>, records: map<Id, Record>, snapshots: map<Id, string>,
    files: Files, canaries: map<Id, Canary>, journal: seq<Note>)

  // ----- Capturing -----

  /** What is captured: the trimmed texts, waiting for an evaluation, under a fingerprint that does
      not depend on whitespace around them. Skills carry their name twice, rules none. */
  ghost predicate IsDraft(
    c: Candidate, kind: Kind, name: Option<string>, title: string, summary: string, content: string)
  {
    && IsTrimOf(c.title, title) && IsTrimOf(c.summary, summary) && IsTrimOf(c.content, content)
    && c.kind == kind
    && c.risk == (match kind case PromptRule => Medium case Skill => High case CompiledKnowledge => Low
                             case RuntimePolicy => High)
    && TargetName(c) == (if kind.PromptRule? then None else name)
    && c.skillName == (if kind.Skill? then name else None)
    && c.fingerprint == Fingerprint(kind, title, content, TargetName(c))
    && c.status.Pending? && c.promotedTo.None? && c.latestEvaluation.None? && !GateOpen(c, false)
  }

  /** A new candidate, unless it is a policy that does not parse or one of its texts is blank. */
  function Drafted(
    json: Json, kind: Kind, name: Option<string>, title: string, summary: string, content: string,
    sourceTape: Option<string>, id: Id, at: int): (r: Result<Candidate, Error>)
    ensures var bad := kind.RuntimePolicy? && json.parse(content).None?;
            var blank := Blank(title) || Blank(summary) || Blank(content);
            && (r == Err(BadPolicy) <==> bad)
            && (r == Err(EmptyText) <==> !bad && blank)
            && (r.Ok? <==> !bad && !blank)
    ensures r.Ok? ==>
              && IsDraft(r.value, kind, name, title, summary, content)
              && r.value.id == id && r.value.sourceTape == sourceTape && r.value.createdAt == at
  {
    TrimIs(title);
    TrimIs(summary);
    TrimIs(content);
    if kind.RuntimePolicy? && json.parse(content).None? then Err(BadPolicy)
    else if Trim(title) == "" || Trim(summary) == "" || Trim(content) == "" then Err(EmptyText)
    else
      var target := if kind.PromptRule? then None else name;
      Ok(Candidate(
           id, kind, Trim(title), Trim(summary), Trim(content),
           target, if kind.Skill? then target else None, sourceTape,
           Pending, None, Fingerprint(kind, Trim(title), Trim(content), target),
           true, RiskFor(kind), None, None, at))
  }

  function Noted(s: State, c: Candidate, action: Action): State {
    s.(journal := s.journal + [Note(NameOr(c.sourceTape), Some(c.id), action)])
  }

  function WithCandidate(s: State, c: Candidate): State {
    s.(candidates := s.candidates[c.id := c])
  }

  // ----- Evaluating and rejecting -----

  /** What the evaluator found; evaluating a rule also refreshes the rules bundle. */
  datatype Verdict = Verdict(runId: Id, passed: bool, score: nat)

  function Evaluation(json: Json, s: State, id: Id, v: Verdict): (State, Result<Run, Error>) {
    if id !in s.candidates then (s, Err(NoCandidate))
    else
      var c := s.candidates[id];
      if !c.status.Pending? then (s, Err(NotPending))
      else if c.kind.RuntimePolicy? && json.parse(c.content).None? then (s, Err(BadPolicy))
      else
        var files := if c.kind.PromptRule? then Refreshed(json, s.files, Rules) else Ok(s.files);
        var judged := c.(latestEvaluation := Some(v.runId), evaluationPassed := Some(v.passed));
        (Noted(WithCandidate(s.(files := if files.Ok? then files.value else s.files), judged), c, WasEvaluated),
         Ok(Run(v.runId, c.id, v.passed, v.score)))
  }

  function Rejection(s: State, id: Id): (State, Result<Candidate, Error>) {
    if id !in s.candidates then (s, Err(NoCandidate))
    else
      var c := s.candidates[id];
      if !c.status.Pending? then (s, Err(NotPending))
      else
        var rejected := c.(status := Rejected, promotedTo := None);
        (Noted(WithCandidate(s, rejected), rejected, WasRejected), Ok(rejected))
  }

  // ----- Promoting and rolling back -----

  datatype Outcome = Outcome(candidate: Candidate, target: Path)

  /** Whatever is at the target is copied aside before anything is written. */
  function Snapshotted(s: State, id: Id, target: Path): State {
    if target in s.files then s.(snapshots := s.snapshots[id := s.files[target]]) else s
  }

  function RecordFor(s: State, c: Candidate, target: Path): Record {
    Record(c.id, target, if target in s.files then Some(c.id) else None, c.latestEvaluation, false)
  }

  /** The files once the candidate is at its target and its area is refreshed. When the refresh
      fails, the target stays written. */
  function Installed(json: Json, files: Files, c: Candidate, target: Path, force: bool): (Files, Option<Error>) {
    if !c.kind.PromptRule? && target in files && !force then (files, Some(TargetExists))
    else
      match Written(json, c, Lookup(files, target))
      case None => (files, Some(BadPolicy))
      case Some(text) =>
        var written := files[target := text];
        match RefreshedFor(json, written, c.kind)
        case Err(e) => (written, Some(e))
        case Ok(refreshed) => (refreshed, None)
  }

  function Promotion(json: Json, s: State, id: Id, force: bool): (State, Result<Outcome, Error>) {
    if id !in s.candidates then (s, Err(NoCandidate))
    else
      var c := s.candidates[id];
      if !c.status.Pending? then (s, Err(NotPending))
      else if !GateOpen(c, force) then (s, Err(GateClosed))
      else
        var target := Target(c);
        var (files, failure) := Installed(json, s.files, c, target, force);
        var installed := Snapshotted(s, c.id, target).(files := files);
        if failure.Some? then (installed, Err(failure.value))
        else
          var promoted := c.(status := Promoted, promotedTo := Some(target));
          var recorded := installed.(records := s.records[c.id := RecordFor(s, c, target)]);
          (Noted(WithCandidate(recorded, promoted), promoted, WasPromoted), Ok(Outcome(promoted, target)))
  }

  function Rollback(json: Json, s: State, id: Id): (State, Result<Outcome, Error>) {
    if id !in s.candidates then (s, Err(NoCandidate))
    else
      var c := s.candidates[id];
      if !c.status.Promoted? then (s, Err(NotPromoted))
      else if id !in s.records then (s, Err(NoRecord))
      else
        var record := s.records[id];
        if record.snapshot.Some? && record.snapshot.value !in s.snapshots then (s, Err(NoSnapshot))
        else
          var text := if record.snapshot.Some? then Some(s.snapshots[record.snapshot.value]) else None;
          var files := Put(s.files, record.target, text);
          var recorded := s.(files := files, records := s.records[record.candidateId := record.(rolledBack := true)]);
          match RefreshedFor(json, files, c.kind)
          case Err(e) => (recorded, Err(e))
          case Ok(refreshed) =>
            var back := c.(status := RolledBack, promotedTo := Some(record.target));
            (Noted(WithCandidate(recorded.(files := refreshed), back), back, WasRolledBack),
             Ok(Outcome(back, record.target)))
  }

  // ----- Canaries -----

  datatype AutoPolicy = AutoPolicy(
    minEvidence: nat, minScore: nat, canaryObservations: nat, canaryTtlHours: int,
    maxAutoRisk: Risk, maxDirectPromoteRisk: Risk)

  const HOUR := 3600

  function Listed(canaries: map<Id, Canary>): seq<Canary> {
    BeforeIsTotalOrder();
    Values(canaries, Sorted(canaries.Keys, Before))
  }

  function Values(canaries: map<Id, Canary>, ids: seq<Id>): (r: seq<Canary>)
    requires forall id :: id in ids ==> id in canaries
    ensures |r| == |ids| && forall i :: 0 <= i < |r| ==> r[i] == canaries[ids[i]]
  {
    if ids == [] then [] else [canaries[ids[0]]] + Values(canaries, ids[1..])
  }

  function WithCanary(s: State, k: Canary, note: Note): State {
    s.(canaries := s.canaries[k.candidateId := k], journal := s.journal + [note])
  }

  function ObservedOne(s: State, k: Canary, tape: string, seen: set<string>): State {
    if !k.status.Active? || k.fingerprint !in seen then s
    else
      WithCanary(s, Again(k, tape), Note(tape, Some(k.candidateId), WasObserved))
  }

  function ObservedAll(s: State, ks: seq<Canary>, tape: string, seen: set<string>): State
    decreases |ks|
  {
    if ks == [] then s else ObservedAll(ObservedOne(s, ks[0], tape, seen), ks[1..], tape, seen)
  }

  function Observe(s: State, tape: string, seen: set<string>): State {
    ObservedAll(s, Listed(s.canaries), tape, seen)
  }

  function Again(k: Canary, tape: string): Canary {
    k.(observations := k.observations + 1, lastTape := Some(tape))
  }

  /** The canaries an observation changes, as changed. */
  function SeenOf(ks: seq<Canary>, tape: string, seen: set<string>): seq<Canary> {
    if ks == [] then []
    else
      (if ks[0].status.Active? && ks[0].fingerprint in seen then [Again(ks[0], tape)] else []) +
      SeenOf(ks[1..], tape, seen)
  }

  predicate Lapses(k: Canary, now: int) {
    k.status.Active? && k.expiresAt <= now
  }

  function LapsedOf(ks: seq<Canary>, now: int): seq<Canary> {
    if ks == [] then []
    else (if Lapses(ks[0], now) then [ks[0].(status := Expired)] else []) + LapsedOf(ks[1..], now)
  }

  /** A failing rejection is ignored. */
  function ExpiredOne(s: State, k: Canary, now: int): State {
    if !Lapses(k, now) then s
    else
      var expired := s.(canaries := s.canaries[k.candidateId := k.(status := Expired)]);
      var rejected := Rejection(expired, k.candidateId).0;
      rejected.(journal := rejected.journal + [Note(NameOr(k.lastTape), Some(k.candidateId), WasExpired)])
  }

  function ExpiredAll(s: State, ks: seq<Canary>, now: int): State
    decreases |ks|
  {
    if ks == [] then s else ExpiredAll(ExpiredOne(s, ks[0], now), ks[1..], now)
  }

  function Expire(s: State, now: int): State {
    ExpiredAll(s, Listed(s.canaries), now)
  }

  /** `c` is the caller's copy of the candidate, which may differ from what is stored. */
  function NewCanary(c: Candidate, run: Run, tape: string, policy: AutoPolicy, now: int): Canary {
    Canary(c.id, c.fingerprint, c.title, Active, 1, policy.canaryObservations, run.id, run.passed, run.score,
           now + policy.canaryTtlHours * HOUR, Some(tape), None)
  }

  function Stage(s: State, c: Candidate, run: Run, tape: string, policy: AutoPolicy, now: int)
    : (State, Result<Canary, Error>)
  {
    if c.id in s.canaries then (s, Ok(s.canaries[c.id]))
    else if !c.status.Pending? then (s, Err(NotPending))
    else
      var k := NewCanary(c, run, tape, policy, now);
      (WithCanary(s, k, Note(tape, Some(c.id), WasStaged)), Ok(k))
  }

  predicate Ready(k: Canary) {
    k.status.Active? && k.observations >= k.required
  }

  function Finalize(json: Json, s: State, id: Id, force: bool): (State, Result<Outcome, Error>) {
    if id !in s.canaries then (s, Err(NoCanary))
    else
      var k := s.canaries[id];
      if !force && !Ready(k) then (s, Err(CanaryNotReady))
      else
        var (after, r) := Promotion(json, s, id, force);
        if r.Err? then (after, r)
        else
          (WithCanary(after, k.(status := CanaryPromoted, promotedTo := Some(r.value.target)),
                      Note(NameOr(k.lastTape), Some(id), WasPromoted)), r)
  }

  // ----- The store as it is kept -----

  class EvolutionStore {
    const json: Json
    var candidates: map<Id, Candidate>
    var records: map<Id, Record>
    var snapshots: map<Id, string>
    var files: Files
    var canaries: map<Id, Canary>
    var journal: seq<Note>

    constructor (json: Json, files: Files)
      ensures this.json == json && View() == State(map[], map[], map[], files, map[], [])
    {
      this.json := json;
      candidates, records, snapshots := map[], map[], map[];
      this.files := files;
      canaries, journal := map[], [];
    }

    function View(): State
      reads this
    {
      State(candidates, records, snapshots, files, canaries, journal)
    }

    method RecordAction(c: Candidate, action: Action)
      modifies this`journal
      ensures View() == Noted(old(View()), c, action)
    {
      journal := journal + [Note(NameOr(c.sourceTape), Some(c.id), action)];
    }

    method Capture(
      kind: Kind, name: Option<string>, title: string, summary: string, content: string,
      sourceTape: Option<string>, id: Id, at: int) returns (r: Result<Candidate, Error>)
      modifies this`candidates
      ensures r == Err(BadPolicy) <==> kind.RuntimePolicy? && json.parse(content).None?
      ensures r.Err? && r.error != BadPolicy ==> r.error == EmptyText
      ensures r.Ok? <==>
                && (kind.RuntimePolicy? ==> json.parse(content).Some?)
                && !Blank(title) && !Blank(summary) && !Blank(content)
      ensures r.Ok? ==>
                && IsDraft(r.value, kind, name, title, summary, content)
                && r.value.id == id && r.value.sourceTape == sourceTape && r.value.createdAt == at
      ensures View() == if r.Ok? then WithCandidate(old(View()), r.value) else old(View())
    {
      r := Drafted(json, kind, name, title, summary, content, sourceTape, id, at);
      if r.Ok? {
        candidates := candidates[id := r.value];
      }
    }

    /** Rewrites or removes the bundle of an area. */
    method RefreshBundle(area: Area) returns (failure: Option<Error>)
      modifies this`files
      ensures match Refreshed(json, old(files), area)
              case Ok(refreshed) => failure == None && files == refreshed
              case Err(e) => failure == Some(e) && files == old(files)
      ensures area != Policies ==> failure == None && IsBundle(old(files), area, Lookup(files, Bundle(area)))
      ensures area == Policies ==> (failure == None <==> PoliciesParse(json, old(files)))
      ensures area == Policies && failure == None ==>
                IsPolicyBundle(json, old(files), Lookup(files, Bundle(Policies)))
      ensures forall p :: p != Bundle(area) ==> Lookup(files, p) == Lookup(old(files), p)
    {
      if area != Policies {
        BundleOfIsBundle(json, files, area);
      } else {
        PolicyRefreshExactly(json, files);
        if BundleOf(json, files, area).Ok? {
          BundleOfIsPolicyBundle(json, files);
        }
      }
      hide IsBundle;
      hide IsPolicyBundle;
      hide BundleOf;
      hide PoliciesParse;
      var bundle := BundleOf(json, files, area);
      if bundle.Err? {
        return Some(bundle.error);
      }
      if bundle.value.Some? {
        files := files[Bundle(area) := bundle.value.value];
      } else {
        files := files - {Bundle(area)};
      }
      failure := None;
    }

    method RefreshView(kind: Kind) returns (failure: Option<Error>)
      modifies this`files
      ensures match RefreshedFor(json, old(files), kind)
              case Ok(refreshed) => failure == None && files == refreshed
              case Err(e) => failure == Some(e) && files == old(files)
    {
      match kind
      case PromptRule => failure := RefreshBundle(Rules);
      case CompiledKnowledge => failure := RefreshBundle(Knowledge);
      case RuntimePolicy => failure := RefreshBundle(Policies);
      case Skill => failure := None;
    }

    method Evaluate(id: Id, verdict: Verdict) returns (r: Result<Run, Error>)
      modifies this
      ensures (View(), r) == Evaluation(json, old(View()), id, verdict)
    {
      if id !in candidates {
        return Err(NoCandidate);
      }
      var c := candidates[id];
      if !c.status.Pending? {
        return Err(NotPending);
      }
      if c.kind.RuntimePolicy? && json.parse(c.content).None? {
        return Err(BadPolicy);
      }
      if c.kind.PromptRule? {
        var _ := RefreshBundle(Rules);
      }
      var judged := c.(latestEvaluation := Some(verdict.runId), evaluationPassed := Some(verdict.passed));
      candidates := candidates[c.id := judged];
      RecordAction(c, WasEvaluated);
      r := Ok(Run(verdict.runId, c.id, verdict.passed, verdict.score));
    }

    method Reject(id: Id) returns (r: Result<Candidate, Error>)
      modifies this
      ensures (View(), r) == Rejection(old(View()), id)
    {
      if id !in candidates {
        return Err(NoCandidate);
      }
      var c := candidates[id];
      if !c.status.Pending? {
        return Err(NotPending);
      }
      var rejected := c.(status := Rejected, promotedTo := None);
      candidates := candidates[c.id := rejected];
      RecordAction(rejected, WasRejected);
      r := Ok(rejected);
    }

    method NewPromotionRecord(c: Candidate, target: Path) returns (record: Record)
      modifies this`snapshots
      ensures View() == Snapshotted(old(View()), c.id, target)
      ensures record == RecordFor(old(View()), c, target)
    {
      var snapshot: Option<Id> := None;
      if target in files {
        snapshots := snapshots[c.id := files[target]];
        snapshot := Some(c.id);
      }
      record := Record(c.id, target, snapshot, c.latestEvaluation, false);
    }

    method PromoteCandidate(c: Candidate, target: Path, force: bool) returns (failure: Option<Error>)
      modifies this`files
      ensures (files, failure) == Installed(json, old(files), c, target, force)
    {
      if !c.kind.PromptRule? && target in files && !force {
        return Some(TargetExists);
      }
      var text := Written(json, c, Lookup(files, target));
      if text.None? {
        return Some(BadPolicy);
      }
      files := files[target := text.value];
      failure := RefreshView(c.kind);
    }

    method Promote(id: Id, force: bool) returns (r: Result<Outcome, Error>)
      modifies this
      ensures (View(), r) == Promotion(json, old(View()), id, force)
    {
      if id !in candidates {
        return Err(NoCandidate);
      }
      var c := candidates[id];
      if !c.status.Pending? {
        return Err(NotPending);
      }
      if !GateOpen(c, force) {
        return Err(GateClosed);
      }
      var target := Target(c);
      var record := NewPromotionRecord(c, target);
      var failure := PromoteCandidate(c, target, force);
      if failure.Some? {
        return Err(failure.value);
      }
      records := records[c.id := record];
      var promoted := c.(status := Promoted, promotedTo := Some(target));
      candidates := candidates[c.id := promoted];
      RecordAction(promoted, WasPromoted);
      r := Ok(Outcome(promoted, target));
    }

    method RollBack(id: Id) returns (r: Result<Outcome, Error>)
      modifies this
      ensures (View(), r) == Rollback(json, old(View()), id)
    {
      if id !in candidates {
        return Err(NoCandidate);
      }
      var c := candidates[id];
      if !c.status.Promoted? {
        return Err(NotPromoted);
      }
      if id !in records {
        return Err(NoRecord);
      }
      var record := records[id];
      match record.snapshot {
        case Some(path) =>
          if path !in snapshots {
            return Err(NoSnapshot);
          }
          files := files[record.target := snapshots[path]];
        case None =>
          files := files - {record.target};
      }
      records := records[record.candidateId := record.(rolledBack := true)];
      var failure := RefreshView(c.kind);
      if failure.Some? {
        return Err(failure.value);
      }
      var back := c.(status := RolledBack, promotedTo := Some(record.target));
      candidates := candidates[c.id := back];
      RecordAction(back, WasRolledBack);
      r := Ok(Outcome(back, record.target));
    }

    method WriteCanary(k: Canary, note: Note)
      modifies this`canaries, this`journal
      ensures View() == WithCanary(old(View()), k, note)
    {
      canaries := canaries[k.candidateId := k];
      journal := journal + [note];
    }

    method ObserveCanaries(tape: string, seen: set<string>) returns (changed: seq<Canary>)
      modifies this
      ensures View() == Observe(old(View()), tape, seen)
      ensures changed == SeenOf(Listed(old(canaries)), tape, seen)
    {
      hide ObservedAll;
      hide SeenOf;
      hide Listed;
      changed := [];
      var loaded := Listed(canaries);
      ObserveStart(View(), tape, seen);
      for i := 0 to |loaded|
        invariant ObservedAll(View(), loaded[i..], tape, seen) == Observe(old(View()), tape, seen)
        invariant changed + SeenOf(loaded[i..], tape, seen) == SeenOf(loaded, tape, seen)
      {
        ObserveStep(View(), loaded, i, tape, seen, changed);
        var k := loaded[i];
        if !k.status.Active? || k.fingerprint !in seen {
          continue;
        }
        var again := k.(observations := k.observations + 1, lastTape := Some(tape));
        WriteCanary(again, Note(tape, Some(k.candidateId), WasObserved));
        changed := changed + [again];
      }
      ObserveEnd(View(), loaded, tape, seen);
    }

    method ExpireCanaries(now: int) returns (expired: seq<Canary>)
      modifies this
      ensures View() == Expire(old(View()), now)
      ensures expired == LapsedOf(Listed(old(canaries)), now)
    {
      hide ExpiredAll;
      hide LapsedOf;
      hide Listed;
      expired := [];
      var loaded := Listed(canaries);
      ExpireStart(View(), now);
      for i := 0 to |loaded|
        invariant ExpiredAll(View(), loaded[i..], now) == Expire(old(View()), now)
        invariant expired + LapsedOf(loaded[i..], now) == LapsedOf(loaded, now)
      {
        ExpireStep(View(), loaded, i, now, expired);
        var k := loaded[i];
        if !k.status.Active? || k.expiresAt > now {
          continue;
        }
        canaries := canaries[k.candidateId := k.(status := Expired)];
        var _ := Reject(k.candidateId);
        journal := journal + [Note(NameOr(k.lastTape), Some(k.candidateId), WasExpired)];
        expired := expired + [k.(status := Expired)];
      }
      ExpireEnd(View(), loaded, now);
    }

    method StageCanary(c: Candidate, run: Run, tape: string, policy: AutoPolicy, now: int)
      returns (r: Result<Canary, Error>)
      modifies this
      ensures (View(), r) == Stage(old(View()), c, run, tape, policy, now)
    {
      if c.id in canaries {
        return Ok(canaries[c.id]);
      }
      if !c.status.Pending? {
        return Err(NotPending);
      }
      var k := NewCanary(c, run, tape, policy, now);
      WriteCanary(k, Note(tape, Some(c.id), WasStaged));
      r := Ok(k);
    }

    method FinalizeCanary(id: Id, force: bool) returns (r: Result<Outcome, Error>)
      modifies this
      ensures (View(), r) == Finalize(json, old(View()), id, force)
    {
      if id !in canaries {
        return Err(NoCanary);
      }
      var k := canaries[id];
      if !force && !Ready(k) {
        return Err(CanaryNotReady);
      }
      r := Promote(id, force);
      if r.Err? {
        return;
      }
      WriteCanary(k.(status := CanaryPromoted, promotedTo := Some(r.value.target)),
                  Note(NameOr(k.lastTape), Some(id), WasPromoted));
    }
  }

  // ----- One round of the loops over canaries -----

  lemma ObserveStart(s: State, tape: string, seen: set<string>)
    ensures var ks := Listed(s.canaries);
            && ObservedAll(s, ks[0..], tape, seen) == Observe(s, tape, seen)
            && [] + SeenOf(ks[0..], tape, seen) == SeenOf(ks, tape, seen)
  {
    var ks := Listed(s.canaries);
    assert ks[0..] == ks;
  }

  lemma ObserveStep(s: State, ks: seq<Canary>, i: nat, tape: string, seen: set<string>, changed: seq<Canary>)
    requires i < |ks|
    ensures ObservedAll(s, ks[i..], tape, seen) ==
            ObservedAll(ObservedOne(s, ks[i], tape, seen), ks[i + 1..], tape, seen)
    ensures changed + SeenOf(ks[i..], tape, seen) ==
            (if ks[i].status.Active? && ks[i].fingerprint in seen then changed + [Again(ks[i], tape)] else changed) +
            SeenOf(ks[i + 1..], tape, seen)
  {
    assert ks[i..][1..] == ks[i + 1..];
  }

  lemma ObserveEnd(s: State, ks: seq<Canary>, tape: string, seen: set<string>)
    ensures ObservedAll(s, ks[|ks|..], tape, seen) == s && SeenOf(ks[|ks|..], tape, seen) == []
  {
  }

  lemma ExpireStart(s: State, now: int)
    ensures var ks := Listed(s.canaries);
            ExpiredAll(s, ks[0..], now) == Expire(s, now) && [] + LapsedOf(ks[0..], now) == LapsedOf(ks, now)
  {
    var ks := Listed(s.canaries);
    assert ks[0..] == ks;
  }

  lemma ExpireStep(s: State, ks: seq<Canary>, i: nat, now: int, expired: seq<Canary>)
    requires i < |ks|
    ensures ExpiredAll(s, ks[i..], now) == ExpiredAll(ExpiredOne(s, ks[i], now), ks[i + 1..], now)
    ensures expired + LapsedOf(ks[i..], now) ==
            (if Lapses(ks[i], now) then expired + [ks[i].(status := Expired)] else expired) + LapsedOf(ks[i + 1..], now)
  {
    assert ks[i..][1..] == ks[i + 1..];
  }

  lemma ExpireEnd(s: State, ks: seq<Canary>, now: int)
    ensures ExpiredAll(s, ks[|ks|..], now) == s && LapsedOf(ks[|ks|..], now) == []
  {
  }
}
