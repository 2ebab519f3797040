/** The journal: it only grows, and each operation that goes through leaves its note. */
module Journals {
  import opened Wrappers
  import opened Evolution
  import opened Sequences
  import opened Bundles
  import opened Store
  import opened StoreRuns

  /** The note of an operation on a candidate. */
  function NoteOf(c: Candidate, action: Action): Note {
    Note(if c.sourceTape.Some? then c.sourceTape.value else "", Some(c.id), action)
  }

  /** Evaluating, rejecting, promoting and rolling back note what they did when they go through, and
      nothing when they fail; they return the candidate as it is stored then. */
  lemma OperationsNote(json: Json, s: State, id: Id, v: Verdict, force: bool)
    requires KeysMatch(s)
    ensures var (t, r) := Evaluation(json, s, id, v);
            t.journal == s.journal + if r.Ok? then [NoteOf(t.candidates[id], WasEvaluated)] else []
    ensures var (t, r) := Rejection(s, id);
            && t.journal == s.journal + (if r.Ok? then [NoteOf(t.candidates[id], WasRejected)] else [])
            && (r.Ok? ==> r.value == t.candidates[id])
    ensures var (t, r) := Promotion(json, s, id, force);
            && t.journal == s.journal + (if r.Ok? then [NoteOf(t.candidates[id], WasPromoted)] else [])
            && (r.Ok? ==> r.value == Outcome(t.candidates[id], Target(s.candidates[id])))
    ensures var (t, r) := Rollback(json, s, id);
            && t.journal == s.journal + (if r.Ok? then [NoteOf(t.candidates[id], WasRolledBack)] else [])
            && (r.Ok? ==> r.value == Outcome(t.candidates[id], s.records[id].target))
  {
    hide Installed;
    hide Refreshed;
    hide RefreshedFor;
    hide Target;
    hide Put;
    hide GateOpen;
    assert s.journal + [] == s.journal;
  }

  lemma FinalizeNotes(json: Json, s: State, id: Id, force: bool)
    requires KeysMatch(s)
    ensures var (t, r) := Finalize(json, s, id, force);
            if r.Ok? then
              t.journal == s.journal + [NoteOf(t.candidates[id], WasPromoted)] +
                [Note(if s.canaries[id].lastTape.Some? then s.canaries[id].lastTape.value
                  else "", Some(id), WasPromoted)]
            else t.journal == s.journal
  {
    PromotionNotes(json, s, id, force);
    FinalizeIs(json, s, id, force);
    hide Promotion;
    hide KeysMatch;
    hide NoteOf;
    assert s.journal + [] == s.journal;
  }

  lemma PromotionNotes(json: Json, s: State, id: Id, force: bool)
    requires KeysMatch(s)
    ensures var (t, r) := Promotion(json, s, id, force);
            && t.journal == s.journal + (if r.Ok? then [NoteOf(t.candidates[id], WasPromoted)] else [])
            && (r.Ok? ==> r.value.target == Target(s.candidates[id]) && id in t.candidates)
  {
    OperationsNote(json, s, id, Verdict("", false, 0), force);
    PromotionIs(json, s, id, force);
    hide Promotion;
    hide Evaluation;
    hide Rejection;
    hide Rollback;
    hide Target;
    hide NoteOf;
  }

  /** A staging notes itself when there is no canary yet, and nothing else. */
  lemma StageNotes(s: State, c: Candidate, run: Run, tape: string, policy: AutoPolicy, now: int)
    ensures var (t, r) := Stage(s, c, run, tape, policy, now);
            t.journal == s.journal +
              if c.id in s.canaries || r.Err? then [] else [Note(tape, Some(c.id), WasStaged)]
  {
    assert s.journal + [] == s.journal;
  }

  // ----- Observing -----

  function NotesOfSeen(kept: seq<Canary>, tape: string): (r: seq<Note>)
    ensures |r| == |kept| && forall i :: 0 <= i < |r| ==> r[i] == Note(tape, Some(kept[i].candidateId), WasObserved)
  {
    seq(|kept|, i requires 0 <= i < |kept| => Note(tape, Some(kept[i].candidateId), WasObserved))
  }

  function CountedAgain(kept: seq<Canary>, tape: string): (r: seq<Canary>)
    ensures |r| == |kept|
    ensures forall i :: 0 <= i < |r| ==>
              r[i] == kept[i].(observations := kept[i].observations + 1, lastTape := Some(tape))
  {
    seq(|kept|, i requires 0 <= i < |kept| =>
          kept[i].(observations := kept[i].observations + 1, lastTape := Some(tape)))
  }

  function If<T>(holds: bool, x: T): seq<T> {
    if holds then [x] else []
  }

  lemma IfIs<T>(holds: bool, x: T)
    ensures If(holds, x) == if holds then [x] else []
  {
  }

  lemma Grouped<T>(a: seq<T>, b: seq<T>, c: seq<T>)
    ensures a + b + c == a + (b + c)
  {
  }

  lemma SeenOfStep(s: State, ks: seq<Canary>, tape: string, seen: set<string>)
    requires ks != []
    ensures var k := ks[0];
            var turnsUp := k.status.Active? && k.fingerprint in seen;
            && SeenOf(ks, tape, seen) ==
               If(turnsUp, k.(observations := k.observations + 1, lastTape := Some(tape))) + SeenOf(ks[1..], tape, seen)
            && ObservedAll(s, ks, tape, seen) == ObservedAll(ObservedOne(s, k, tape, seen), ks[1..], tape, seen)
            && ObservedOne(s, k, tape, seen).journal ==
               s.journal + If(turnsUp, Note(tape, Some(k.candidateId), WasObserved))
  {
    assert s.journal + [] == s.journal;
  }

  lemma SeenAdds(k: Canary, turnsUp: bool, rest: seq<Canary>, tape: string)
    ensures NotesOfSeen(If(turnsUp, k) + rest, tape) ==
            If(turnsUp, Note(tape, Some(k.candidateId), WasObserved)) + NotesOfSeen(rest, tape)
    ensures CountedAgain(If(turnsUp, k) + rest, tape) ==
            If(turnsUp, k.(observations := k.observations + 1, lastTape := Some(tape))) + CountedAgain(rest, tape)
  {
  }

  /** What one canary adds to what the others make. */
  lemma SeenFirst(s: State, ks: seq<Canary>, tape: string, seen: set<string>, rest: seq<Canary>)
    requires ks != [] && SeenOf(ks[1..], tape, seen) == CountedAgain(rest, tape)
    requires ObservedAll(ObservedOne(s, ks[0], tape, seen), ks[1..], tape, seen).journal ==
             ObservedOne(s, ks[0], tape, seen).journal + NotesOfSeen(rest, tape)
    ensures var kept := If(ks[0].status.Active? && ks[0].fingerprint in seen, ks[0]) + rest;
            && SeenOf(ks, tape, seen) == CountedAgain(kept, tape)
            && ObservedAll(s, ks, tape, seen).journal == s.journal + NotesOfSeen(kept, tape)
  {
    hide *;
    var turnsUp := ks[0].status.Active? && ks[0].fingerprint in seen;
    SeenOfStep(s, ks, tape, seen);
    SeenAdds(ks[0], turnsUp, rest, tape);
    Grouped(s.journal, If(turnsUp, Note(tape, Some(ks[0].candidateId), WasObserved)), NotesOfSeen(rest, tape));
  }

  lemma {:induction false} ObservedNotes(s: State, ks: seq<Canary>, tape: string, seen: set<string>)
    returns (kept: seq<Canary>)
    ensures Keeps(ks, kept, (k: Canary) => k.status.Active? && k.fingerprint in seen)
    ensures SeenOf(ks, tape, seen) == CountedAgain(kept, tape)
    ensures ObservedAll(s, ks, tape, seen).journal == s.journal + NotesOfSeen(kept, tape)
    decreases |ks|
  {
    var turnedUp := (k: Canary) => k.status.Active? && k.fingerprint in seen;
    if ks == [] {
      kept := [];
      KeepsNothing(turnedUp);
    } else {
      hide *;
      var rest := ObservedNotes(ObservedOne(s, ks[0], tape, seen), ks[1..], tape, seen);
      KeepsFirst(ks, rest, turnedUp);
      IfIs(turnedUp(ks[0]), ks[0]);
      SeenFirst(s, ks, tape, seen, rest);
      kept := If(turnedUp(ks[0]), ks[0]) + rest;
    }
  }

  /** An observation reports and notes exactly the Active canaries whose fingerprint turned up, as they
      are listed. */
  lemma ObserveNotes(s: State, tape: string, seen: set<string>) returns (kept: seq<Canary>)
    ensures Keeps(Listed(s.canaries), kept, (k: Canary) => k.status.Active? && k.fingerprint in seen)
    ensures SeenOf(Listed(s.canaries), tape, seen) == CountedAgain(kept, tape)
    ensures Observe(s, tape, seen).journal == s.journal + NotesOfSeen(kept, tape)
  {
    kept := ObservedNotes(s, Listed(s.canaries), tape, seen);
  }

  // ----- Expiring -----

  function Lapse(kept: seq<Canary>): (r: seq<Canary>)
    ensures |r| == |kept| && forall i :: 0 <= i < |r| ==> r[i] == kept[i].(status := Expired)
  {
    seq(|kept|, i requires 0 <= i < |kept| => kept[i].(status := Expired))
  }

  /** An expiry, after the rejection of a candidate that was still waiting. */
  function LapseNote(s: State, k: Canary): seq<Note> {
    var id := k.candidateId;
    (if id in s.candidates && s.candidates[id].status.Pending? then [NoteOf(s.candidates[id], WasRejected)] else []) +
    [Note(if k.lastTape.Some? then k.lastTape.value else "", Some(id), WasExpired)]
  }

  function LapseNotes(s: State, kept: seq<Canary>): seq<Note> {
    if kept == [] then [] else LapseNote(s, kept[0]) + LapseNotes(s, kept[1..])
  }

  lemma {:induction false} SameLapseNotes(s: State, t: State, kept: seq<Canary>)
    requires forall k :: k in kept ==> Lookup(s.candidates, k.candidateId) == Lookup(t.candidates, k.candidateId)
    ensures LapseNotes(s, kept) == LapseNotes(t, kept)
  {
    if kept != [] {
      assert kept[0] in kept;
      SameLapseNotes(s, t, kept[1..]);
      var id := kept[0].candidateId;
      assert Lookup(s.candidates, id) == Lookup(t.candidates, id);
    }
  }

  lemma ExpiredOneNotes(s: State, k: Canary, now: int)
    requires KeysMatch(s)
    ensures ExpiredOne(s, k, now).journal ==
            s.journal + if k.status.Active? && k.expiresAt <= now then LapseNote(s, k) else []
  {
    if Lapses(k, now) {
      RejectionNotes(s.(canaries := s.canaries[k.candidateId := k.(status := Expired)]), k.candidateId);
      hide Rejection;
      hide NoteOf;
    } else {
      assert s.journal + [] == s.journal;
    }
  }

  lemma ExpiredOneKeeps(s: State, k: Canary, now: int)
    requires KeysMatch(s)
    ensures KeysMatch(ExpiredOne(s, k, now))
    ensures forall id :: id != k.candidateId ==>
              Lookup(ExpiredOne(s, k, now).candidates, id) == Lookup(s.candidates, id)
  {
    if Lapses(k, now) {
      RejectionIs(s.(canaries := s.canaries[k.candidateId := k.(status := Expired)]), k.candidateId);
      hide Rejection;
    }
  }

  lemma RejectionNotes(s: State, id: Id)
    requires KeysMatch(s)
    ensures Rejection(s, id).0.journal ==
            s.journal + if id in s.candidates && s.candidates[id].status.Pending? then
                          [NoteOf(s.candidates[id], WasRejected)]
                        else []
  {
    assert s.journal + [] == s.journal;
  }

  lemma LapsedOfStep(s: State, ks: seq<Canary>, now: int)
    requires ks != []
    ensures LapsedOf(ks, now) ==
            If(ks[0].status.Active? && ks[0].expiresAt <= now, ks[0].(status := Expired)) + LapsedOf(ks[1..], now)
    ensures ExpiredAll(s, ks, now) == ExpiredAll(ExpiredOne(s, ks[0], now), ks[1..], now)
  {
    hide ExpiredOne;
  }

  lemma LapseAdds(s: State, k: Canary, overdue: bool, rest: seq<Canary>)
    ensures LapseNotes(s, If(overdue, k) + rest) == (if overdue then LapseNote(s, k) else []) + LapseNotes(s, rest)
  {
    hide LapseNote;
    if overdue {
      assert ([k] + rest)[1..] == rest;
    } else {
      hide LapseNotes;
      assert [] + rest == rest;
    }
  }

  lemma LapseToo(k: Canary, overdue: bool, rest: seq<Canary>)
    ensures Lapse(If(overdue, k) + rest) == If(overdue, k.(status := Expired)) + Lapse(rest)
  {
  }

  lemma LapseFirst(s: State, ks: seq<Canary>, now: int, rest: seq<Canary>)
    requires KeysMatch(s) && ks != [] && LapsedOf(ks[1..], now) == Lapse(rest)
    requires ExpiredAll(ExpiredOne(s, ks[0], now), ks[1..], now).journal ==
             ExpiredOne(s, ks[0], now).journal + LapseNotes(s, rest)
    ensures var kept := If(ks[0].status.Active? && ks[0].expiresAt <= now, ks[0]) + rest;
            && LapsedOf(ks, now) == Lapse(kept)
            && ExpiredAll(s, ks, now).journal == s.journal + LapseNotes(s, kept)
  {
    hide *;
    var overdue := ks[0].status.Active? && ks[0].expiresAt <= now;
    LapsedOfStep(s, ks, now);
    ExpiredOneNotes(s, ks[0], now);
    LapseAdds(s, ks[0], overdue, rest);
    LapseToo(ks[0], overdue, rest);
    Grouped(s.journal, if overdue then LapseNote(s, ks[0]) else [], LapseNotes(s, rest));
  }

  lemma {:induction false} ExpiredNotes(s: State, ks: seq<Canary>, now: int) returns (kept: seq<Canary>)
    requires KeysMatch(s) && forall i, j :: 0 <= i < j < |ks| ==> ks[i].candidateId != ks[j].candidateId
    ensures Keeps(ks, kept, (k: Canary) => k.status.Active? && k.expiresAt <= now)
    ensures LapsedOf(ks, now) == Lapse(kept)
    ensures ExpiredAll(s, ks, now).journal == s.journal + LapseNotes(s, kept)
    decreases |ks|
  {
    var overdue := (k: Canary) => k.status.Active? && k.expiresAt <= now;
    if ks == [] {
      kept := [];
      KeepsNothing(overdue);
    } else {
      hide *;
      var next := ExpiredOne(s, ks[0], now);
      ExpiredOneKeeps(s, ks[0], now);
      var rest := ExpiredNotes(next, ks[1..], now);
      KeepsFirst(ks, rest, overdue);
      IfIs(overdue(ks[0]), ks[0]);
      KeptAreWanted(ks[1..], rest, overdue);
      SameLapseNotes(s, next, rest);
      LapseFirst(s, ks, now, rest);
      kept := If(overdue(ks[0]), ks[0]) + rest;
    }
  }

  /** An expiry reports and notes exactly the Active canaries whose time has come, as they are listed. */
  lemma ExpireNotes(s: State, now: int) returns (kept: seq<Canary>)
    requires KeysMatch(s)
    ensures Keeps(Listed(s.canaries), kept, (k: Canary) => k.status.Active? && k.expiresAt <= now)
    ensures LapsedOf(Listed(s.canaries), now) == Lapse(kept)
    ensures Expire(s, now).journal == s.journal + LapseNotes(s, kept)
  {
    ListedIsLoaded(s);
    kept := ExpiredNotes(s, Listed(s.canaries), now);
  }

  /** No operation takes anything out of the journal. */
  lemma StepNotes(json: Json, s: State, op: Op)
    requires KeysMatch(s)
    ensures s.journal <= Step(json, s, op).journal
  {
    hide Evaluation;
    hide Rejection;
    hide Promotion;
    hide Rollback;
    hide Finalize;
    hide KeysMatch;
    match op
    case Captures(c) =>
    case Evaluates(id, v) => OperationsNote(json, s, id, v, false);
    case Rejects(id) => OperationsNote(json, s, id, Verdict("", false, 0), false);
    case Promotes(id, force) => OperationsNote(json, s, id, Verdict("", false, 0), force);
    case RollsBack(id) => OperationsNote(json, s, id, Verdict("", false, 0), false);
    case Observes(tape, seen) => var _ := ObserveNotes(s, tape, seen);
    case Expires(now) => var _ := ExpireNotes(s, now);
    case Stages(c, run, tape, policy, now) => StageNotes(s, c, run, tape, policy, now);
    case Finalizes(id, force) => FinalizeNotes(json, s, id, force);
    case Writes(note) =>
  }

  /** Nor does any run. */
  lemma {:induction false} JournalGrows(json: Json, s: State, ops: seq<Op>)
    requires Settled(s) && IsRun(json, s, ops)
    ensures s.journal <= After(json, s, ops).journal
    decreases |ops|
  {
    hide Step;
    hide Enabled;
    hide Settled;
    if ops != [] {
      SettledIsKeyed(s);
      StepNotes(json, s, ops[0]);
      StepMoves(json, s, ops[0]);
      JournalGrows(json, Step(json, s, ops[0]), ops[1..]);
    }
  }

  lemma SettledIsKeyed(s: State)
    requires Settled(s)
    ensures KeysMatch(s)
  {
  }
}
