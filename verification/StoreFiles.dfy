/** The files a store leads to: promoted candidates stand at their targets, rollbacks restore what
    was there before, and bundles agree with their sources. */
module StoreFiles {
  import opened Wrappers
  import opened Evolution
  import opened Bundles
  import opened Store
  import opened StoreRuns

  predicate IsTarget(p: Path) {
    p.Fragment? || p.SkillFile?
  }

  predicate InPromotion(s: State, id: Id) {
    id in s.candidates && s.candidates[id].status.Promoted?
  }

  lemma TargetIsTarget(c: Candidate)
    ensures IsTarget(Target(c))
    ensures forall area :: IsSource(Target(c), area) <==> AreaOf(c.kind) == Some(area)
  {
  }

  /** Targets and their text depend on what a candidate is, not on where it stands. */
  lemma CoreDecides(json: Json, a: Candidate, b: Candidate, existing: Option<string>)
    requires Core(a) == Core(b)
    ensures Target(a) == Target(b) && Written(json, a, existing) == Written(json, b, existing)
  {
    assert RuleBlock(a) == RuleBlock(b) && KnowledgeBlock(a) == KnowledgeBlock(b) && RenderSkill(a) == RenderSkill(b);
  }

  /** A rule's target is its own. */
  lemma RuleTargetsDiffer(a: Candidate, b: Candidate)
    requires a.kind.PromptRule? && Target(a) == Target(b)
    ensures a.id == b.id
  {
    var x, y := a.id + ".md", b.id + ".md";
    assert x == y;
    assert a.id == x[..|x| - 3] && b.id == y[..|y| - 3];
  }

  // ----- When a promotion goes wrong half way -----

  /** A policy that is written parses, so only the other policy files matter. */
  lemma PolicyWritten(json: Json, files: Files, c: Candidate, existing: Option<string>)
    requires Faithful(json) && c.kind.RuntimePolicy? && Written(json, c, existing).Some?
    ensures PoliciesParse(json, files[Target(c) := Written(json, c, existing).value]) <==>
            PoliciesParse(json, files - {Target(c)})
  {
    var text := Written(json, c, existing).value;
    var after, others := files[Target(c) := text], files - {Target(c)};
    assert Parses(json, text);
    if PoliciesParse(json, after) {
      forall p | p in others && IsSource(p, Policies)
        ensures Parses(json, others[p])
      {
        assert p in after && after[p] == others[p];
      }
    }
  }

  lemma WithoutTarget(json: Json, files: Files, p: Path)
    ensures p !in files ==> files - {p} == files
    ensures PoliciesParse(json, files) ==> PoliciesParse(json, files - {p})
  {
  }

  /** A promotion that fails leaves the files as they were, except exactly when a policy was due,
      whose target was free or to be overwritten by force with another text, while some other policy
      file of the workspace does not parse: then the target stays behind, and its candidate pending. */
  lemma FailedPromotionExactly(json: Json, s: State, id: Id, force: bool)
    requires Faithful(json)
    ensures var (t, r) := Promotion(json, s, id, force);
            r.Err? && t.files != s.files <==>
            && id in s.candidates && s.candidates[id].status.Pending? && GateOpen(s.candidates[id], force)
            && var c := s.candidates[id];
            var target := Target(c);
            && c.kind.RuntimePolicy? && Written(json, c, None).Some?
            && (target in s.files ==> force && Lookup(s.files, target) != Written(json, c, None))
            && !PoliciesParse(json, s.files - {target})
  {
    if id in s.candidates && s.candidates[id].status.Pending? && GateOpen(s.candidates[id], force) {
      var c := s.candidates[id];
      var target := Target(c);
      var text := Written(json, c, Lookup(s.files, target));
      if c.kind.RuntimePolicy? && text.Some? && (target in s.files ==> force) {
        PolicyWritten(json, s.files, c, Lookup(s.files, target));
        PolicyRefreshExactly(json, s.files[target := text.value]);
        OverwritesExactly(s.files, target, text.value);
        hide PoliciesParse;
        hide Faithful;
        hide Sources;
        hide MergedPolicy;
      }
    }
  }

  lemma OverwritesExactly(files: Files, p: Path, text: string)
    ensures files[p := text] == files <==> Lookup(files, p) == Some(text)
  {
    if Lookup(files, p) != Some(text) {
      assert p in files[p := text] && files[p := text][p] == text;
    }
  }

  /** What it leaves is the rendered policy. */
  lemma OrphanIs(json: Json, s: State, id: Id, force: bool)
    requires Promotion(json, s, id, force).1.Err? && Promotion(json, s, id, force).0.files != s.files
    ensures id in s.candidates
    ensures var c := s.candidates[id];
            && Written(json, c, Lookup(s.files, Target(c))).Some?
            && Promotion(json, s, id, force).0.files ==
                 s.files[Target(c) := Written(json, c, Lookup(s.files, Target(c))).value]
  {
    hide RefreshedFor;
    hide Written;
    hide Target;
    hide GateOpen;
  }

  /** The candidate of an orphaned target cannot be promoted any more without force, nor rolled
      back. */
  lemma OrphanIsStuck(json: Json, s: State, id: Id)
    requires Faithful(json) && KeysMatch(s)
    requires Promotion(json, s, id, false).1.Err? && Promotion(json, s, id, false).0.files != s.files
    ensures var t := Promotion(json, s, id, false).0;
            && Promotion(json, t, id, false).1 == Err(TargetExists)
            && Rollback(json, t, id).1 == Err(NotPromoted)
  {
    FailedPromotionExactly(json, s, id, false);
    hide Refreshed;
    hide PoliciesParse;
    hide Faithful;
    hide GateOpen;
  }

  /** It does happen: one malformed policy file is enough. */
  lemma OrphanedTarget(json: Json, c: Candidate, malformed: string)
    requires Faithful(json) && json.parse(malformed).None? && Trim(malformed) != ""
    requires c.kind.RuntimePolicy? && c.status.Pending? && c.evaluationPassed == Some(true)
    requires json.parse(c.content).Some?
    ensures var s := State(map[c.id := c], map[], map[], map[Legacy(Policies) := malformed], map[], []);
            var (t, r) := Promotion(json, s, c.id, false);
            r == Err(BadPolicy) && Target(c) !in s.files && Target(c) in t.files && t.candidates == s.candidates
  {
    var s := State(map[c.id := c], map[], map[], map[Legacy(Policies) := malformed], map[], []);
    var written := s.files[Target(c) := Written(json, c, None).value];
    assert Legacy(Policies) in written && !Parses(json, written[Legacy(Policies)]);
    PolicyRefreshExactly(json, written);
    hide BundleOf;
    hide Faithful;
  }

  // ----- Files of promoted candidates -----

  /** What a rollback of the candidate needs: its record aims at its target, with what was there in
      `base` kept as a snapshot. */
  ghost predicate Restorable(base: Files, s: State, id: Id)
    requires id in s.candidates
  {
    var target := Target(s.candidates[id]);
    && id in s.records && s.records[id].target == target
    && (if target in base then s.records[id].snapshot == Some(id) && Lookup(s.snapshots, id) == Some(base[target])
        else s.records[id].snapshot == None)
  }

  ghost predicate Standing(json: Json, base: Files, s: State, id: Id)
    requires id in s.candidates
  {
    var c := s.candidates[id];
    && Written(json, c, Lookup(base, Target(c))).Some?
    && Lookup(s.files, Target(c)) == Written(json, c, Lookup(base, Target(c)))
  }

  ghost predicate Untaken(s: State, p: Path) {
    forall id :: InPromotion(s, id) ==> Target(s.candidates[id]) != p
  }

  predicate PolicyFragment(p: Path) {
    p.Fragment? && p.area.Policies?
  }

  /** All targets, but those of policies only where every policy file of `base` is blank or parses:
      elsewhere a promotion or rollback of a policy stops half way. */
  ghost predicate Covered(json: Json, base: Files, p: Path) {
    PoliciesParse(json, base) || !PolicyFragment(p)
  }

  ghost predicate Tracked(json: Json, base: Files, s: State, id: Id) {
    InPromotion(s, id) && Covered(json, base, Target(s.candidates[id]))
  }

  /** The covered target files are those of `base`, with the text of every promoted candidate at its
      own target. */
  ghost predicate Tracks(json: Json, base: Files, s: State) {
    && Aimed(s)
    && (PoliciesParse(json, base) ==> PoliciesParse(json, s.files))
    && (forall id :: Tracked(json, base, s, id) ==> Restorable(base, s, id) && Standing(json, base, s, id))
    && (forall a, b :: Tracked(json, base, s, a) && Tracked(json, base, s, b) && a != b ==>
          Target(s.candidates[a]) != Target(s.candidates[b]))
    && (forall p :: IsTarget(p) && Covered(json, base, p) && Untaken(s, p) ==> Lookup(s.files, p) == Lookup(base, p))
  }

  /** Records of promoted candidates aim at their targets. */
  ghost predicate Aimed(s: State) {
    && KeysMatch(s)
    && forall id :: InPromotion(s, id) && id in s.records ==> s.records[id].target == Target(s.candidates[id])
  }

  /** A store whose candidates are not promoted yet tracks its own files, whatever they hold. */
  lemma StartTracks(json: Json, s: State)
    requires KeysMatch(s) && forall id :: !InPromotion(s, id)
    ensures Tracks(json, s.files, s)
  {
  }

  lemma TracksParts(json: Json, base: Files, s: State)
    requires Tracks(json, base, s)
    ensures KeysMatch(s) && Aimed(s) && (PoliciesParse(json, base) ==> PoliciesParse(json, s.files))
    ensures forall id :: Tracked(json, base, s, id) ==> Restorable(base, s, id) && Standing(json, base, s, id)
  {
  }

  lemma UntakenIsBase(json: Json, base: Files, s: State, p: Path)
    requires Tracks(json, base, s) && IsTarget(p) && Covered(json, base, p) && Untaken(s, p)
    ensures Lookup(s.files, p) == Lookup(base, p)
  {
  }

  lemma TargetsDiffer(json: Json, base: Files, s: State, a: Id, b: Id)
    requires Tracks(json, base, s) && Tracked(json, base, s, a) && Tracked(json, base, s, b) && a != b
    ensures Target(s.candidates[a]) != Target(s.candidates[b])
  {
  }

  lemma NotTaken(s: State, p: Path, id: Id)
    requires Untaken(s, p) && InPromotion(s, id)
    ensures Target(s.candidates[id]) != p
  {
  }

  lemma TracksIs(json: Json, base: Files, s: State)
    requires Aimed(s) && (PoliciesParse(json, base) ==> PoliciesParse(json, s.files))
    requires forall id :: Tracked(json, base, s, id) ==>
               id in s.candidates && Restorable(base, s, id) && Standing(json, base, s, id)
    requires forall a, b :: Tracked(json, base, s, a) && Tracked(json, base, s, b) && a != b ==>
               Target(s.candidates[a]) != Target(s.candidates[b])
    requires forall p :: IsTarget(p) && Covered(json, base, p) && Untaken(s, p) ==>
             Lookup(s.files, p) == Lookup(base, p)
    ensures Tracks(json, base, s)
  {
  }

  lemma InPromotionIs(s: State, id: Id)
    ensures InPromotion(s, id) <==> id in s.candidates && s.candidates[id].status.Promoted?
  {
  }

  lemma TrackedIs(json: Json, base: Files, s: State, id: Id)
    ensures Tracked(json, base, s, id) <==> InPromotion(s, id) && Covered(json, base, Target(s.candidates[id]))
  {
  }

  /** The candidate, its record and its file are the same, as far as tracking goes. */
  lemma SameTracked(json: Json, base: Files, s: State, t: State, id: Id)
    requires InPromotion(s, id) && InPromotion(t, id) && Core(s.candidates[id]) == Core(t.candidates[id])
    requires Lookup(s.records, id) == Lookup(t.records, id) && Lookup(s.snapshots, id) == Lookup(t.snapshots, id)
    requires Lookup(s.files, Target(s.candidates[id])) == Lookup(t.files, Target(s.candidates[id]))
    ensures Target(s.candidates[id]) == Target(t.candidates[id])
    ensures Restorable(base, s, id) <==> Restorable(base, t, id)
    ensures Standing(json, base, s, id) <==> Standing(json, base, t, id)
  {
    CoreDecides(json, s.candidates[id], t.candidates[id], Lookup(base, Target(s.candidates[id])));
    hide Target;
    hide Written;
    hide Core;
  }

  lemma UntakenBoth(s: State, t: State, p: Path)
    requires Untaken(t, p)
    requires forall id :: InPromotion(s, id) ==>
             InPromotion(t, id) && Target(s.candidates[id]) == Target(t.candidates[id])
    ensures Untaken(s, p)
  {
    hide Target;
  }

  lemma AimedBoth(s: State, t: State)
    requires Aimed(s) && KeysMatch(t)
    requires forall id :: InPromotion(t, id) && id in t.records ==>
               && InPromotion(s, id) && id in s.records && t.records[id].target == s.records[id].target
               && Target(s.candidates[id]) == Target(t.candidates[id])
    ensures Aimed(t)
  {
    hide Target;
  }

  lemma SameRecord(s: State, t: State, id: Id)
    requires Lookup(s.records, id) == Lookup(t.records, id)
    ensures id in s.records <==> id in t.records
    ensures id in s.records ==> s.records[id] == t.records[id]
  {
  }

  /** Tracking only looks at promoted candidates, their records, and the files outside the bundles. */
  lemma SamePromotedTracks(json: Json, base: Files, s: State, t: State)
    requires Tracks(json, base, s) && KeysMatch(t)
    requires forall id :: InPromotion(s, id) <==> InPromotion(t, id)
    requires forall id :: InPromotion(s, id) ==> id in t.candidates && Core(s.candidates[id]) == Core(t.candidates[id])
    requires forall id :: InPromotion(s, id) ==> Lookup(s.records, id) == Lookup(t.records, id)
    requires forall id :: InPromotion(s, id) ==> Lookup(s.snapshots, id) == Lookup(t.snapshots, id)
    requires forall p: Path :: !p.Bundle? && Covered(json, base, p) ==> Lookup(s.files, p) == Lookup(t.files, p)
    requires PoliciesParse(json, base) ==> PoliciesParse(json, t.files)
    ensures Tracks(json, base, t)
  {
    hide *;
    TracksParts(json, base, s);
    PromotedAreStored(s);
    forall id | InPromotion(t, id)
      ensures Target(s.candidates[id]) == Target(t.candidates[id])
      ensures Tracked(json, base, s, id) <==> Tracked(json, base, t, id)
      ensures Tracked(json, base, t, id) ==> Restorable(base, t, id) && Standing(json, base, t, id)
      ensures id in t.records ==> id in s.records && t.records[id] == s.records[id]
    {
      CoreDecides(json, s.candidates[id], t.candidates[id], None);
      TrackedIs(json, base, s, id);
      TrackedIs(json, base, t, id);
      SameRecord(s, t, id);
      if Tracked(json, base, s, id) {
        TargetIsTarget(s.candidates[id]);
        TargetIsNoBundle(s.candidates[id]);
        SameTracked(json, base, s, t, id);
      }
    }
    forall id | Tracked(json, base, t, id)
      ensures InPromotion(t, id) && id in t.candidates && Tracked(json, base, s, id)
    {
      TrackedIs(json, base, t, id);
    }
    AimedBoth(s, t);
    forall a, b | Tracked(json, base, t, a) && Tracked(json, base, t, b) && a != b
      ensures Target(t.candidates[a]) != Target(t.candidates[b])
    {
      TrackedIs(json, base, t, a);
      TrackedIs(json, base, t, b);
      TargetsDiffer(json, base, s, a, b);
    }
    forall p | IsTarget(p) && Covered(json, base, p) && Untaken(t, p)
      ensures Lookup(t.files, p) == Lookup(base, p)
    {
      UntakenBoth(s, t, p);
      UntakenIsBase(json, base, s, p);
      TargetNoBundle(p);
    }
    TracksIs(json, base, t);
  }

  lemma TargetNoBundle(p: Path)
    requires IsTarget(p)
    ensures !p.Bundle?
  {
  }

  lemma TargetIsNoBundle(c: Candidate)
    ensures !Target(c).Bundle?
  {
  }

  lemma PromotedAreStored(s: State)
    ensures forall id :: InPromotion(s, id) ==> id in s.candidates
  {
  }

  lemma PoliciesElsewhere(json: Json, a: Files, b: Files)
    requires PoliciesParse(json, a) && forall p: Path :: !p.Bundle? ==> Lookup(a, p) == Lookup(b, p)
    ensures PoliciesParse(json, b)
  {
    forall p | p in b && IsSource(p, Policies)
      ensures Parses(json, b[p])
    {
      assert Lookup(a, p) == Lookup(b, p);
    }
  }

  // ----- Promoting -----

  /** No promoted candidate stands at a covered target of an unforced promotion that goes through. */
  lemma PromotedTargetFree(json: Json, base: Files, s: State, id: Id)
    requires Tracks(json, base, s) && Promotion(json, s, id, false).1.Ok? && id in s.candidates
    requires Covered(json, base, Target(s.candidates[id]))
    ensures Untaken(s, Target(s.candidates[id]))
  {
    PromotionIs(json, s, id, false);
    var c := s.candidates[id];
    InstalledIs(json, s.files, c, Target(c), false);
    assert !c.kind.PromptRule? ==> Target(c) !in s.files by {
      PromotionInstalls(json, s, id, false);
    }
    hide Promotion;
    hide Installed;
    hide Covered;
    forall other | InPromotion(s, other)
      ensures Target(s.candidates[other]) != Target(c)
    {
      if c.kind.PromptRule? && Target(s.candidates[other]) == Target(c) {
        RuleTargetsDiffer(c, s.candidates[other]);
      }
      assert Tracked(json, base, s, other) ==> Standing(json, base, s, other);
    }
  }

  lemma PromotionInstalls(json: Json, s: State, id: Id, force: bool)
    requires Promotion(json, s, id, force).1.Ok?
    ensures id in s.candidates
    ensures var c := s.candidates[id];
            Installed(json, s.files, c, Target(c), force) == (Promotion(json, s, id, force).0.files, None)
    ensures Promotion(json, s, id, force).0.snapshots ==
            Snapshotted(s, s.candidates[id].id, Target(s.candidates[id])).snapshots
  {
    hide Installed;
  }

  /** The files after a promotion: the target written, and bundles aside nothing else changed. */
  lemma InstalledFiles(json: Json, files: Files, c: Candidate, force: bool)
    requires Installed(json, files, c, Target(c), force).1 == None
    ensures var after := Installed(json, files, c, Target(c), force).0;
            && Written(json, c, Lookup(files, Target(c))).Some?
            && forall p: Path :: !p.Bundle? ==>
                 Lookup(after, p) == if p == Target(c) then Written(json, c, Lookup(files, p)) else Lookup(files, p)
  {
    InstalledIs(json, files, c, Target(c), force);
    TargetIsTarget(c);
    var after := Installed(json, files, c, Target(c), force).0;
    var written := files[Target(c) := Written(json, c, Lookup(files, Target(c))).value];
    if AreaOf(c.kind).Some? {
      RefreshAgrees(json, written, AreaOf(c.kind).value, Rules);
    }
    hide Refreshed;
    hide Installed;
    hide Written;
  }

  /** Installing keeps the workspace's policies parsing. */
  lemma InstalledParses(json: Json, files: Files, c: Candidate, force: bool)
    requires Faithful(json) && PoliciesParse(json, files) && Installed(json, files, c, Target(c), force).1 == None
    ensures PoliciesParse(json, Installed(json, files, c, Target(c), force).0)
  {
    InstalledFiles(json, files, c, force);
    InstalledIs(json, files, c, Target(c), force);
    var after := Installed(json, files, c, Target(c), force).0;
    hide Installed;
    forall p | p in after && IsSource(p, Policies)
      ensures Parses(json, after[p])
    {
      assert Lookup(after, p) == if p == Target(c) then Written(json, c, Lookup(files, p)) else Lookup(files, p);
    }
  }

  /** What a promotion that goes through does. */
  ghost predicate Promoted(json: Json, s: State, t: State, id: Id) {
    && id in s.candidates && !InPromotion(s, id)
    && var c := s.candidates[id];
    var target := Target(c);
    && c.id == id
    && t.candidates == s.candidates[id := c.(status := Status.Promoted, promotedTo := Some(target))]
    && t.records == s.records[id := RecordFor(s, c, target)]
    && t.snapshots == Snapshotted(s, id, target).snapshots
    && Written(json, c, Lookup(s.files, target)).Some?
    && forall p: Path :: !p.Bundle? ==>
         Lookup(t.files, p) == if p == target then Written(json, c, Lookup(s.files, p)) else Lookup(s.files, p)
  }

  lemma PromotionGoesThrough(json: Json, s: State, id: Id, force: bool)
    requires KeysMatch(s) && Promotion(json, s, id, force).1.Ok?
    ensures Promoted(json, s, Promotion(json, s, id, force).0, id)
  {
    PromotionIs(json, s, id, force);
    PromotionInstalls(json, s, id, force);
    InstalledFiles(json, s.files, s.candidates[id], force);
    hide Promotion;
    hide Installed;
    hide Written;
  }

  lemma NewlyPromoted(json: Json, base: Files, s: State, t: State, id: Id)
    requires Promoted(json, s, t, id)
    requires Lookup(s.files, Target(s.candidates[id])) == Lookup(base, Target(s.candidates[id]))
    ensures Restorable(base, t, id) && Standing(json, base, t, id)
    ensures Target(t.candidates[id]) == Target(s.candidates[id])
  {
    var c, d := s.candidates[id], t.candidates[id];
    assert Core(c) == Core(d);
    CoreDecides(json, c, d, Lookup(base, Target(c)));
    TargetIsTarget(c);
    hide Written;
    hide Target;
    hide Core;
  }

  lemma PromotedBefore(json: Json, base: Files, s: State, t: State, id: Id, other: Id)
    requires Promoted(json, s, t, id) && InPromotion(s, other)
    requires Restorable(base, s, other) && Standing(json, base, s, other)
    requires Target(s.candidates[other]) != Target(s.candidates[id])
    ensures t.candidates[other] == s.candidates[other]
    ensures Restorable(base, t, other) && Standing(json, base, t, other)
  {
    TargetIsTarget(s.candidates[other]);
    hide Written;
    hide Target;
  }

  lemma PromotedTracks(json: Json, base: Files, s: State, t: State, id: Id)
    requires Tracks(json, base, s) && Promoted(json, s, t, id) && KeysMatch(t)
    requires Covered(json, base, Target(s.candidates[id])) ==> Untaken(s, Target(s.candidates[id]))
    requires PoliciesParse(json, base) ==> PoliciesParse(json, t.files)
    ensures Tracks(json, base, t)
  {
    hide *;
    PromotedStored(json, s, t, id);
    PromotedAreStored(s);
    PromotedAreStored(t);
    var target := Target(s.candidates[id]);
    TargetIsTarget(s.candidates[id]);
    NewTarget(json, base, s, t, id);
    TracksParts(json, base, s);
    forall x | InPromotion(t, x)
      ensures Tracked(json, base, t, x) ==> Restorable(base, t, x) && Standing(json, base, t, x)
      ensures Target(t.candidates[x]) == Target(s.candidates[x])
      ensures x != id ==> InPromotion(s, x) && (Tracked(json, base, t, x) <==> Tracked(json, base, s, x))
      ensures x != id && Tracked(json, base, t, x) ==> Target(t.candidates[x]) != target
      ensures Tracked(json, base, t, x) ==> Covered(json, base, Target(t.candidates[x]))
    {
      InPromotionIs(t, x);
      TrackedIs(json, base, t, x);
      TrackedIs(json, base, s, x);
      if x != id {
        PromotedSame(json, s, t, id, x);
        if Tracked(json, base, s, x) {
          if Covered(json, base, target) {
            NotTaken(s, target, x);
          }
          PromotedBefore(json, base, s, t, id, x);
        }
      }
    }
    forall x | Tracked(json, base, t, x)
      ensures x in t.candidates && InPromotion(t, x)
    {
      TrackedIs(json, base, t, x);
    }
    forall a, b | Tracked(json, base, t, a) && Tracked(json, base, t, b) && a != b
      ensures Target(t.candidates[a]) != Target(t.candidates[b])
    {
      if a != id && b != id {
        TargetsDiffer(json, base, s, a, b);
      }
    }
    forall p | IsTarget(p) && Covered(json, base, p) && Untaken(t, p)
      ensures Lookup(t.files, p) == Lookup(base, p)
    {
      NotTaken(t, p, id);
      UntakenBoth(s, t, p);
      UntakenIsBase(json, base, s, p);
      PromotedFile(json, s, t, id, p);
    }
    PromotedAims(json, s, t, id);
    TracksIs(json, base, t);
  }

  /** The candidate just promoted. */
  lemma NewTarget(json: Json, base: Files, s: State, t: State, id: Id)
    requires Tracks(json, base, s) && Promoted(json, s, t, id)
    requires Covered(json, base, Target(s.candidates[id])) ==> Untaken(s, Target(s.candidates[id]))
    ensures id in t.candidates && Target(t.candidates[id]) == Target(s.candidates[id])
    ensures Tracked(json, base, t, id) ==> Restorable(base, t, id) && Standing(json, base, t, id)
  {
    PromotedTarget(json, s, t, id);
    if Covered(json, base, Target(s.candidates[id])) {
      hide *;
      TargetIsTarget(s.candidates[id]);
      UntakenIsBase(json, base, s, Target(s.candidates[id]));
      NewlyPromoted(json, base, s, t, id);
    }
  }

  lemma PromotedTarget(json: Json, s: State, t: State, id: Id)
    requires Promoted(json, s, t, id)
    ensures id in t.candidates && Target(t.candidates[id]) == Target(s.candidates[id])
  {
    CoreDecides(json, s.candidates[id], t.candidates[id], None);
    hide Target;
    hide Written;
  }

  lemma PromotedSame(json: Json, s: State, t: State, id: Id, other: Id)
    requires Promoted(json, s, t, id) && other != id && InPromotion(t, other)
    ensures InPromotion(s, other) && other in s.candidates && t.candidates[other] == s.candidates[other]
  {
    hide Target;
    hide Written;
  }

  lemma PromotedAims(json: Json, s: State, t: State, id: Id)
    requires Aimed(s) && Promoted(json, s, t, id) && KeysMatch(t)
    ensures Aimed(t)
  {
    PromotedTarget(json, s, t, id);
    hide Target;
    hide Written;
  }

  lemma PromotedStored(json: Json, s: State, t: State, id: Id)
    requires Promoted(json, s, t, id)
    ensures id in s.candidates && id in t.candidates
    ensures forall x :: InPromotion(t, x) <==> InPromotion(s, x) || x == id
  {
    hide Target;
    hide Written;
  }

  lemma PromotedFile(json: Json, s: State, t: State, id: Id, p: Path)
    requires Promoted(json, s, t, id) && IsTarget(p) && p != Target(s.candidates[id])
    ensures Lookup(t.files, p) == Lookup(s.files, p)
  {
  }

  /** The candidate takes a covered target from one that is promoted. */
  ghost predicate Usurps(json: Json, base: Files, s: State, id: Id)
    requires id in s.candidates
  {
    var target := Target(s.candidates[id]);
    Covered(json, base, target) && !Untaken(s, target)
  }

  lemma UsurpsIs(json: Json, base: Files, s: State, id: Id)
    requires id in s.candidates
    ensures var target := Target(s.candidates[id]);
            Usurps(json, base, s, id) <==> Covered(json, base, target) && !Untaken(s, target)
  {
  }

  lemma UsurpedBreaks(json: Json, base: Files, s: State, t: State, id: Id)
    requires Promoted(json, s, t, id) && Usurps(json, base, s, id)
    ensures !Tracks(json, base, t)
  {
    PromotedTarget(json, s, t, id);
    var target := Target(s.candidates[id]);
    var other :| InPromotion(s, other) && Target(s.candidates[other]) == target;
    hide Covered;
    hide Written;
    hide Restorable;
    hide Standing;
    assert t.candidates[other] == s.candidates[other];
    hide Target;
    assert Tracked(json, base, t, id) && Tracked(json, base, t, other);
  }

  /** A promotion, forced or not, keeps the files tracked exactly when it fails or takes no covered
      target from a candidate that is promoted. */
  lemma PromotionTracksExactly(json: Json, base: Files, s: State, id: Id, force: bool)
    requires Faithful(json) && Tracks(json, base, s)
    ensures Promotion(json, s, id, force).1.Ok? ==> id in s.candidates
    ensures var (t, r) := Promotion(json, s, id, force);
            Tracks(json, base, t) <==> r.Err? || !Usurps(json, base, s, id)
  {
    hide *;
    var (t, r) := Promotion(json, s, id, force);
    TracksParts(json, base, s);
    PromotionKeys(json, s, id, force);
    if r.Err? {
      FailedPromotionTracks(json, base, s, id, force);
    } else {
      PromotionGoesThrough(json, s, id, force);
      PromotedStored(json, s, t, id);
      UsurpsIs(json, base, s, id);
      if Usurps(json, base, s, id) {
        UsurpedBreaks(json, base, s, t, id);
      } else {
        if PoliciesParse(json, base) {
          PromotionParses(json, s, id, force);
        }
        PromotedTracks(json, base, s, t, id);
      }
    }
  }

  lemma UnforcedUsurpsNothing(json: Json, base: Files, s: State, id: Id)
    requires Tracks(json, base, s) && Promotion(json, s, id, false).1.Ok?
    ensures id in s.candidates && !Usurps(json, base, s, id)
  {
    PromotionInstalls(json, s, id, false);
    hide *;
    UsurpsIs(json, base, s, id);
    if Covered(json, base, Target(s.candidates[id])) {
      PromotedTargetFree(json, base, s, id);
    }
  }

  lemma PromotionKeys(json: Json, s: State, id: Id, force: bool)
    requires KeysMatch(s)
    ensures KeysMatch(Promotion(json, s, id, force).0)
  {
    PromotionIs(json, s, id, force);
    hide Promotion;
    hide Target;
  }

  lemma PromotionParses(json: Json, s: State, id: Id, force: bool)
    requires Faithful(json) && PoliciesParse(json, s.files) && Promotion(json, s, id, force).1.Ok?
    ensures PoliciesParse(json, Promotion(json, s, id, force).0.files)
  {
    PromotionInstalls(json, s, id, force);
    InstalledParses(json, s.files, s.candidates[id], force);
  }

  lemma FailedPromotionTracks(json: Json, base: Files, s: State, id: Id, force: bool)
    requires Faithful(json) && Tracks(json, base, s) && Promotion(json, s, id, force).1.Err?
    ensures Tracks(json, base, Promotion(json, s, id, force).0)
  {
    hide *;
    var t := Promotion(json, s, id, force).0;
    TracksParts(json, base, s);
    PromotedAreStored(s);
    PromotionKeys(json, s, id, force);
    PromotionIs(json, s, id, force);
    FailedPromotionFiles(json, base, s, id, force);
    SnapshotsAside(json, s, id, force);
    SameCandidates(s, t);
    SamePromotedTracks(json, base, s, t);
  }

  lemma SameCandidates(s: State, t: State)
    requires t.candidates == s.candidates
    ensures forall id :: InPromotion(s, id) <==> InPromotion(t, id)
  {
  }

  /** A failed promotion leaves the covered files alone, and policies that parse. */
  lemma FailedPromotionFiles(json: Json, base: Files, s: State, id: Id, force: bool)
    requires Faithful(json) && Promotion(json, s, id, force).1.Err?
    requires PoliciesParse(json, base) ==> PoliciesParse(json, s.files)
    ensures var t := Promotion(json, s, id, force).0;
            && (forall p: Path :: !p.Bundle? && Covered(json, base, p) ==> Lookup(s.files, p) == Lookup(t.files, p))
            && (PoliciesParse(json, base) ==> PoliciesParse(json, t.files))
  {
    FailedPromotionExactly(json, s, id, force);
    if Promotion(json, s, id, force).0.files != s.files {
      OrphanIs(json, s, id, force);
      PolicyTarget(s.candidates[id]);
      WithoutTarget(json, s.files, Target(s.candidates[id]));
    }
    hide Promotion;
    hide Written;
    hide Target;
    hide PoliciesParse;
    hide GateOpen;
  }

  lemma PolicyTarget(c: Candidate)
    ensures PolicyFragment(Target(c)) <==> c.kind.RuntimePolicy?
  {
  }

  /** A promotion copies aside only under the candidate's own name. */
  lemma SnapshotsAside(json: Json, s: State, id: Id, force: bool)
    requires KeysMatch(s)
    ensures forall other :: other != id ==>
            Lookup(Promotion(json, s, id, force).0.snapshots, other) == Lookup(s.snapshots, other)
    ensures Promotion(json, s, id, force).1.Err? && InPromotion(s, id) ==> Promotion(json, s, id, force).0 == s
  {
    hide Installed;
  }

  // ----- Rolling back -----

  /** What a rollback that goes through does. */
  ghost predicate RolledBackTo(base: Files, s: State, t: State, id: Id) {
    && InPromotion(s, id)
    && var c := s.candidates[id];
    var target := Target(c);
    && c.id == id && id in s.records
    && t.candidates == s.candidates[id := c.(status := RolledBack, promotedTo := Some(target))]
    && t.records == s.records[id := s.records[id].(rolledBack := true)]
    && t.snapshots == s.snapshots
    && forall p: Path :: !p.Bundle? ==>
      Lookup(t.files, p) == if p == target then Lookup(base, p) else Lookup(s.files, p)
  }

  lemma RestoredParses(json: Json, base: Files, files: Files, target: Path)
    requires PoliciesParse(json, base) && PoliciesParse(json, files)
    ensures PoliciesParse(json, Put(files, target, Lookup(base, target)))
  {
  }

  /** Refreshing succeeds for every kind but policies, and for these where all policy files parse. */
  lemma RefreshGoesThrough(json: Json, files: Files, kind: Kind)
    requires kind.RuntimePolicy? ==> PoliciesParse(json, files)
    ensures var r := RefreshedFor(json, files, kind);
            r.Ok? && forall p: Path :: !p.Bundle? ==> Lookup(r.value, p) == Lookup(files, p)
  {
    PolicyRefreshExactly(json, files);
    hide Sources;
    hide MergedPolicy;
  }

  lemma RollbackUnfolds(json: Json, s: State, id: Id, text: Option<string>)
    requires KeysMatch(s) && InPromotion(s, id) && id in s.records
    requires match s.records[id].snapshot
             case Some(path) => path in s.snapshots && text == Some(s.snapshots[path])
             case None => text == None
    requires RefreshedFor(json, Put(s.files, s.records[id].target, text), s.candidates[id].kind).Ok?
    ensures var (t, r) := Rollback(json, s, id);
            var record, c := s.records[id], s.candidates[id];
            && r.Ok? && KeysMatch(t) && c.id == id
            && t.files == RefreshedFor(json, Put(s.files, record.target, text), c.kind).value
            && t.candidates == s.candidates[id := c.(status := RolledBack, promotedTo := Some(record.target))]
            && t.records == s.records[id := record.(rolledBack := true)]
            && t.snapshots == s.snapshots
  {
    hide RefreshedFor;
    hide Put;
  }

  lemma RestorableText(base: Files, s: State, id: Id)
    requires id in s.candidates && Restorable(base, s, id)
    ensures id in s.records && s.records[id].target == Target(s.candidates[id])
    ensures match s.records[id].snapshot
            case Some(path) => path in s.snapshots && Lookup(base, Target(s.candidates[id])) == Some(s.snapshots[path])
            case None => Lookup(base, Target(s.candidates[id])) == None
  {
    hide Target;
  }

  lemma RestoredFiles(json: Json, base: Files, s: State, t: State, id: Id)
    requires InPromotion(s, id) && s.candidates[id].id == id && id in s.records
    requires t.candidates == s.candidates[id :=
               s.candidates[id].(status := RolledBack, promotedTo := Some(Target(s.candidates[id])))]
    requires t.records == s.records[id := s.records[id].(rolledBack := true)] && t.snapshots == s.snapshots
    requires var files := Put(s.files, Target(s.candidates[id]), Lookup(base, Target(s.candidates[id])));
             && (s.candidates[id].kind.RuntimePolicy? ==> PoliciesParse(json, files))
             && RefreshedFor(json, files, s.candidates[id].kind) == Ok(t.files)
    ensures RolledBackTo(base, s, t, id)
  {
    var files := Put(s.files, Target(s.candidates[id]), Lookup(base, Target(s.candidates[id])));
    RefreshGoesThrough(json, files, s.candidates[id].kind);
    hide PoliciesParse;
    hide RefreshedFor;
    hide Target;
  }

  /** The restored file of a policy leaves a workspace whose policies parse; other kinds do not care. */
  ghost predicate Restores(json: Json, base: Files, s: State, id: Id)
    requires id in s.candidates
  {
    var target := Target(s.candidates[id]);
    s.candidates[id].kind.RuntimePolicy? ==> PoliciesParse(json, Put(s.files, target, Lookup(base, target)))
  }

  /** In any store, a promoted candidate whose record and snapshot are intact can be rolled back, and
      its target is then as it was; a policy, where the policies left behind parse. */
  lemma RollbackRestores(json: Json, base: Files, s: State, id: Id)
    requires KeysMatch(s) && InPromotion(s, id) && Restorable(base, s, id) && Restores(json, base, s, id)
    ensures var (t, r) := Rollback(json, s, id);
            r.Ok? && RolledBackTo(base, s, t, id) && KeysMatch(t)
  {
    RestorableText(base, s, id);
    var target := Target(s.candidates[id]);
    RefreshGoesThrough(json, Put(s.files, target, Lookup(base, target)), s.candidates[id].kind);
    hide *;
    InPromotionIs(s, id);
    RollbackUnfolds(json, s, id, Lookup(base, target));
    RestoresIs(json, base, s, id);
    RestoredFiles(json, base, s, Rollback(json, s, id).0, id);
  }

  lemma RestoresIs(json: Json, base: Files, s: State, id: Id)
    requires id in s.candidates && Restores(json, base, s, id)
    ensures var target := Target(s.candidates[id]);
            s.candidates[id].kind.RuntimePolicy? ==> PoliciesParse(json, Put(s.files, target, Lookup(base, target)))
  {
  }

  /** A rule, a skill or a piece of knowledge that is promoted can always be rolled back, and its
      target is then as it was before; a policy, where the policy files of `base` parse. */
  lemma RollbackGoesThrough(json: Json, base: Files, s: State, id: Id)
    requires Tracks(json, base, s) && Tracked(json, base, s, id)
    ensures var (t, r) := Rollback(json, s, id);
            r.Ok? && RolledBackTo(base, s, t, id) && KeysMatch(t)
  {
    TracksParts(json, base, s);
    CoveredRestores(json, base, s, id);
    hide *;
    TrackedIs(json, base, s, id);
    RollbackRestores(json, base, s, id);
  }

  lemma CoveredRestores(json: Json, base: Files, s: State, id: Id)
    requires PoliciesParse(json, base) ==> PoliciesParse(json, s.files)
    requires Tracked(json, base, s, id)
    ensures Restores(json, base, s, id)
  {
    PolicyTarget(s.candidates[id]);
    if PoliciesParse(json, base) {
      RestoredParses(json, base, s.files, Target(s.candidates[id]));
    }
    hide Target;
    hide PoliciesParse;
  }

  lemma StillPromoted(json: Json, base: Files, s: State, t: State, id: Id, other: Id)
    requires RolledBackTo(base, s, t, id) && InPromotion(s, other) && other != id
    requires Restorable(base, s, other) && Standing(json, base, s, other)
    requires Target(s.candidates[other]) != Target(s.candidates[id])
    ensures InPromotion(t, other) && t.candidates[other] == s.candidates[other]
    ensures Restorable(base, t, other) && Standing(json, base, t, other)
  {
    TargetIsTarget(s.candidates[other]);
    hide Written;
    hide Target;
  }

  lemma RolledBackPromoted(base: Files, s: State, t: State, id: Id)
    requires RolledBackTo(base, s, t, id)
    ensures forall x :: InPromotion(t, x) <==> InPromotion(s, x) && x != id
  {
  }

  lemma RolledBackFile(base: Files, s: State, t: State, id: Id, p: Path)
    requires RolledBackTo(base, s, t, id) && IsTarget(p)
    ensures Lookup(t.files, p) == if p == Target(s.candidates[id]) then Lookup(base, p) else Lookup(s.files, p)
  {
  }

  lemma UntakenOtherwise(s: State, t: State, id: Id, p: Path)
    requires Untaken(t, p) && id in s.candidates && p != Target(s.candidates[id])
    requires forall x :: InPromotion(s, x) && x != id ==> InPromotion(t, x) && t.candidates[x] == s.candidates[x]
    ensures Untaken(s, p)
  {
    hide Target;
  }

  lemma RolledBackSame(base: Files, s: State, t: State, id: Id, other: Id)
    requires RolledBackTo(base, s, t, id) && InPromotion(s, other) && other != id
    ensures InPromotion(t, other) && other in t.candidates && other in s.candidates
    ensures t.candidates[other] == s.candidates[other]
    ensures other in t.records ==> other in s.records && t.records[other] == s.records[other]
  {
    hide Target;
  }

  lemma RolledBackParses(json: Json, base: Files, s: State, t: State, id: Id)
    requires RolledBackTo(base, s, t, id) && PoliciesParse(json, base) && PoliciesParse(json, s.files)
    ensures PoliciesParse(json, t.files)
  {
    hide Target;
    forall p | p in t.files && IsSource(p, Policies)
      ensures Parses(json, t.files[p])
    {
      assert Lookup(t.files, p) == if p == Target(s.candidates[id]) then Lookup(base, p) else Lookup(s.files, p);
    }
  }

  lemma RolledBackTracks(json: Json, base: Files, s: State, t: State, id: Id)
    requires Tracks(json, base, s) && Tracked(json, base, s, id) && RolledBackTo(base, s, t, id) && KeysMatch(t)
    ensures Tracks(json, base, t)
  {
    hide *;
    TrackedIs(json, base, s, id);
    InPromotionIs(s, id);
    TracksParts(json, base, s);
    RolledBackPromoted(base, s, t, id);
    forall x | InPromotion(s, x) && x != id
      ensures InPromotion(t, x) && x in t.candidates && x in s.candidates && t.candidates[x] == s.candidates[x]
      ensures x in t.records ==> x in s.records && t.records[x] == s.records[x]
      ensures Tracked(json, base, s, x) <==> Tracked(json, base, t, x)
      ensures Tracked(json, base, t, x) ==> Restorable(base, t, x) && Standing(json, base, t, x)
    {
      RolledBackSame(base, s, t, id, x);
      TrackedIs(json, base, s, x);
      TrackedIs(json, base, t, x);
      if Tracked(json, base, s, x) {
        TargetsDiffer(json, base, s, x, id);
        StillPromoted(json, base, s, t, id, x);
      }
    }
    forall x | Tracked(json, base, t, x)
      ensures InPromotion(t, x) && Tracked(json, base, s, x) && x != id && x in t.candidates
    {
      TrackedIs(json, base, t, x);
    }
    forall a, b | Tracked(json, base, t, a) && Tracked(json, base, t, b) && a != b
      ensures a in t.candidates && b in t.candidates && Target(t.candidates[a]) != Target(t.candidates[b])
    {
      TargetsDiffer(json, base, s, a, b);
    }
    forall p | IsTarget(p) && Covered(json, base, p) && Untaken(t, p)
      ensures Lookup(t.files, p) == Lookup(base, p)
    {
      RolledBackFile(base, s, t, id, p);
      if p != Target(s.candidates[id]) {
        UntakenOtherwise(s, t, id, p);
        UntakenIsBase(json, base, s, p);
      }
    }
    AimedBoth(s, t);
    if PoliciesParse(json, base) {
      RolledBackParses(json, base, s, t, id);
    }
    TracksIs(json, base, t);
  }

  /** What a rollback of a policy does outside the policy fragments, whether it goes through or not. */
  lemma PolicyRollbackElsewhere(json: Json, s: State, id: Id)
    requires Aimed(s) && InPromotion(s, id) && s.candidates[id].kind.RuntimePolicy?
    ensures var t := Rollback(json, s, id).0;
            && (forall p: Path :: !p.Bundle? && !PolicyFragment(p) ==> Lookup(t.files, p) == Lookup(s.files, p))
            && KeysMatch(t) && t.snapshots == s.snapshots
            && (forall other :: other != id ==>
                  Lookup(t.candidates, other) == Lookup(s.candidates, other)
                    && Lookup(t.records, other) == Lookup(s.records, other))
            && id in t.candidates && Core(t.candidates[id]) == Core(s.candidates[id])
            && (id in t.records ==> id in s.records && t.records[id].target == s.records[id].target)
  {
    RollbackIs(json, s, id);
    PolicyRollbackFiles(json, s, id);
    hide Rollback;
    hide Target;
  }

  lemma PolicyRollbackFiles(json: Json, s: State, id: Id)
    requires Aimed(s) && InPromotion(s, id) && s.candidates[id].kind.RuntimePolicy?
    ensures var t := Rollback(json, s, id).0;
            forall p: Path :: !p.Bundle? && !PolicyFragment(p) ==> Lookup(t.files, p) == Lookup(s.files, p)
  {
    PolicyTarget(s.candidates[id]);
    if id in s.records {
      PutThenRefresh(json, s.files, s.records[id].target, s.candidates[id].kind);
    }
    hide RefreshedFor;
    hide Put;
    hide Target;
  }

  lemma PutThenRefresh(json: Json, files: Files, target: Path, kind: Kind)
    ensures forall text, p: Path :: !p.Bundle? && p != target ==>
              var written := Put(files, target, text);
              && Lookup(written, p) == Lookup(files, p)
              && (RefreshedFor(json, written, kind).Ok? ==>
                Lookup(RefreshedFor(json, written, kind).value, p) == Lookup(files, p))
  {
    forall text
      ensures var written := Put(files, target, text);
              RefreshedFor(json, written, kind).Ok? ==>
                forall p: Path :: !p.Bundle? ==>
                  Lookup(RefreshedFor(json, written, kind).value, p) == Lookup(written, p)
    {
      hide BundleOf;
    }
    hide RefreshedFor;
  }

  lemma UncoveredRollbackTracks(json: Json, base: Files, s: State, id: Id)
    requires Tracks(json, base, s) && InPromotion(s, id) && !Tracked(json, base, s, id)
    ensures Tracks(json, base, Rollback(json, s, id).0)
  {
    hide *;
    var t := Rollback(json, s, id).0;
    TracksParts(json, base, s);
    PromotedAreStored(s);
    UncoveredIsPolicy(json, base, s, id);
    PolicyRollbackElsewhere(json, s, id);
    forall x | InPromotion(t, x)
      ensures InPromotion(s, x) && x in t.candidates && Target(s.candidates[x]) == Target(t.candidates[x])
      ensures x in t.records ==> x in s.records && t.records[x].target == s.records[x].target
      ensures Tracked(json, base, s, x) <==> Tracked(json, base, t, x)
      ensures Tracked(json, base, t, x) ==> x != id && Restorable(base, t, x) && Standing(json, base, t, x)
    {
      PolicyRollbackOthers(json, base, s, t, id, x);
    }
    forall x | Tracked(json, base, t, x)
      ensures x in t.candidates && InPromotion(t, x)
    {
      TrackedIs(json, base, t, x);
      InPromotionIs(t, x);
    }
    forall a, b | Tracked(json, base, t, a) && Tracked(json, base, t, b) && a != b
      ensures Target(t.candidates[a]) != Target(t.candidates[b])
    {
      TargetsDiffer(json, base, s, a, b);
    }
    forall p | IsTarget(p) && Covered(json, base, p) && Untaken(t, p)
      ensures Lookup(t.files, p) == Lookup(base, p)
    {
      CoveredNoPolicy(json, base, p);
      TargetNoBundle(p);
      UntakenButOne(json, s, t, id, p);
      UntakenIsBase(json, base, s, p);
    }
    AimedBoth(s, t);
    TracksIs(json, base, t);
  }

  lemma UncoveredIsPolicy(json: Json, base: Files, s: State, id: Id)
    requires InPromotion(s, id) && !Tracked(json, base, s, id)
    ensures !PoliciesParse(json, base) && id in s.candidates && s.candidates[id].kind.RuntimePolicy?
    ensures PolicyFragment(Target(s.candidates[id]))
  {
    PolicyTarget(s.candidates[id]);
    hide Target;
    hide PoliciesParse;
  }

  lemma CoveredNoPolicy(json: Json, base: Files, p: Path)
    requires Covered(json, base, p) && !PoliciesParse(json, base)
    ensures !PolicyFragment(p)
  {
    hide PoliciesParse;
  }

  lemma UntakenButOne(json: Json, s: State, t: State, id: Id, p: Path)
    requires Untaken(t, p) && !PolicyFragment(p) && id in s.candidates && PolicyFragment(Target(s.candidates[id]))
    requires forall x :: x != id ==> Lookup(t.candidates, x) == Lookup(s.candidates, x)
    ensures Untaken(s, p)
  {
    hide Target;
    forall x | InPromotion(s, x)
      ensures Target(s.candidates[x]) != p
    {
      assert x != id ==> Lookup(t.candidates, x) == Lookup(s.candidates, x);
      assert x != id ==> InPromotion(t, x);
    }
  }

  lemma PolicyRollbackOthers(json: Json, base: Files, s: State, t: State, id: Id, x: Id)
    requires InPromotion(s, id) && InPromotion(t, x) && !PoliciesParse(json, base)
    requires PolicyFragment(Target(s.candidates[id]))
    requires Tracked(json, base, s, x) ==> Restorable(base, s, x) && Standing(json, base, s, x)
    requires forall p: Path :: !p.Bundle? && !PolicyFragment(p) ==> Lookup(t.files, p) == Lookup(s.files, p)
    requires t.snapshots == s.snapshots && id in t.candidates && Core(t.candidates[id]) == Core(s.candidates[id])
    requires forall other :: other != id ==>
               Lookup(t.candidates, other) == Lookup(s.candidates, other)
                 && Lookup(t.records, other) == Lookup(s.records, other)
    requires id in t.records ==> id in s.records && t.records[id].target == s.records[id].target
    ensures InPromotion(s, x) && x in t.candidates && Target(s.candidates[x]) == Target(t.candidates[x])
    ensures x in t.records ==> x in s.records && t.records[x].target == s.records[x].target
    ensures Tracked(json, base, s, x) <==> Tracked(json, base, t, x)
    ensures Tracked(json, base, t, x) ==> x != id && Restorable(base, t, x) && Standing(json, base, t, x)
  {
    CoreDecides(json, s.candidates[id], t.candidates[id], None);
    hide PoliciesParse;
    hide Core;
    if x != id {
      assert Lookup(t.candidates, x) == Lookup(s.candidates, x) && Lookup(t.records, x) == Lookup(s.records, x);
      TargetIsTarget(s.candidates[x]);
      TargetIsNoBundle(s.candidates[x]);
    }
    hide Target;
    hide Written;
  }

  lemma RollbackTracks(json: Json, base: Files, s: State, id: Id)
    requires Tracks(json, base, s)
    ensures Tracks(json, base, Rollback(json, s, id).0)
  {
    if Tracked(json, base, s, id) {
      RollbackGoesThrough(json, base, s, id);
      hide *;
      RolledBackTracks(json, base, s, Rollback(json, s, id).0, id);
    } else if InPromotion(s, id) {
      hide *;
      UncoveredRollbackTracks(json, base, s, id);
    } else {
      hide Tracks;
      hide RefreshedFor;
    }
  }

  /** A rollback stops half way exactly when it is one of a policy that leaves some policy file of
      the workspace that does not parse: the target is restored and the record marked, and the
      candidate stays promoted. */
  lemma RollbackFailsExactly(json: Json, s: State, id: Id, text: Option<string>)
    requires KeysMatch(s) && InPromotion(s, id) && id in s.records
    requires match s.records[id].snapshot
             case Some(path) => path in s.snapshots && text == Some(s.snapshots[path])
             case None => text == None
    ensures var (t, r) := Rollback(json, s, id);
            var record := s.records[id];
            var files := Put(s.files, record.target, text);
            && (r.Err? <==> s.candidates[id].kind.RuntimePolicy? && !PoliciesParse(json, files))
            && (r.Err? ==>
                  && r.error == BadPolicy
                  && t == s.(files := files, records := s.records[id := record.(rolledBack := true)]))
  {
    PolicyRefreshExactly(json, Put(s.files, s.records[id].target, text));
    hide PoliciesParse;
    hide Put;
    hide Sources;
    hide MergedPolicy;
  }

  /** Every other failure changes nothing. */
  lemma RollbackRefused(json: Json, s: State, id: Id)
    requires Rollback(json, s, id).1.Err? && Rollback(json, s, id).1.error != BadPolicy
    ensures Rollback(json, s, id).0 == s
  {
    if id in s.candidates && id in s.records {
      var record := s.records[id];
      RefreshErrs(json, Put(s.files, record.target, None), s.candidates[id].kind);
      if record.snapshot.Some? && record.snapshot.value in s.snapshots {
        RefreshErrs(json, Put(s.files, record.target, Some(s.snapshots[record.snapshot.value])), s.candidates[id].kind);
      }
    }
    hide RefreshedFor;
    hide Put;
  }

  lemma RefreshErrs(json: Json, files: Files, kind: Kind)
    ensures RefreshedFor(json, files, kind).Err? ==> RefreshedFor(json, files, kind).error == BadPolicy
  {
    hide Sources;
    hide MergedPolicy;
  }

  // ----- Runs -----

  lemma QuietTracks(json: Json, base: Files, s: State, t: State)
    requires Tracks(json, base, s) && KeysMatch(t) && t.records == s.records && t.snapshots == s.snapshots
    requires forall p: Path :: !p.Bundle? ==> Lookup(s.files, p) == Lookup(t.files, p)
    requires forall id :: InPromotion(t, id) <==> InPromotion(s, id)
    requires forall id :: InPromotion(s, id) ==> id in t.candidates && Core(s.candidates[id]) == Core(t.candidates[id])
    ensures Tracks(json, base, t)
  {
    hide *;
    TracksParts(json, base, s);
    if PoliciesParse(json, base) {
      PoliciesElsewhere(json, s.files, t.files);
    }
    SamePromotedTracks(json, base, s, t);
  }

  lemma VerdictKeeps(s: State, t: State, id: Id, v: Verdict)
    requires KeysMatch(s) && id in s.candidates && t.canaries == s.canaries && t.records == s.records
    requires t.candidates == s.candidates[id :=
               s.candidates[id].(latestEvaluation := Some(v.runId), evaluationPassed := Some(v.passed))]
    ensures KeysMatch(t)
    ensures forall x :: InPromotion(t, x) <==> InPromotion(s, x)
    ensures forall x :: InPromotion(s, x) ==>
            x in s.candidates && x in t.candidates && Core(s.candidates[x]) == Core(t.candidates[x])
  {
  }

  lemma EvaluationTracks(json: Json, base: Files, s: State, id: Id, v: Verdict)
    requires Tracks(json, base, s)
    ensures Tracks(json, base, Evaluation(json, s, id, v).0)
  {
    hide *;
    TracksParts(json, base, s);
    EvaluationIs(json, s, id, v);
    var (t, r) := Evaluation(json, s, id, v);
    if r.Ok? {
      VerdictKeeps(s, t, id, v);
      QuietTracks(json, base, s, t);
    }
  }

  lemma RejectionTracks(json: Json, base: Files, s: State, id: Id)
    requires Tracks(json, base, s)
    ensures Tracks(json, base, Rejection(s, id).0)
  {
    hide *;
    TracksParts(json, base, s);
    RejectionIs(s, id);
    var t := Rejection(s, id).0;
    forall x | x in s.candidates
      ensures Core(t.candidates[x]) == Core(s.candidates[x]) && t.candidates[x].id == s.candidates[x].id
      ensures InPromotion(t, x) <==> InPromotion(s, x)
    {
      RejectedKeeps(s.candidates[x], x == id);
      InPromotionIs(s, x);
      InPromotionIs(t, x);
    }
    PromotedAreStored(s);
    PromotedAreStored(t);
    SameKeys(s, t);
    QuietTracks(json, base, s, t);
  }

  lemma SameKeys(s: State, t: State)
    requires KeysMatch(s) && t.candidates.Keys == s.candidates.Keys && t.canaries == s.canaries
    requires t.records == s.records
    requires forall id :: id in s.candidates ==> t.candidates[id].id == s.candidates[id].id
    ensures KeysMatch(t)
  {
  }

  lemma ObserveTracks(json: Json, base: Files, s: State, tape: string, seen: set<string>)
    requires Tracks(json, base, s)
    ensures Tracks(json, base, Observe(s, tape, seen))
  {
    hide *;
    TracksParts(json, base, s);
    ObserveIs(s, tape, seen);
    ObservedKeys(s, Observe(s, tape, seen), tape, seen);
    SameCandidatesTrack(json, base, s, Observe(s, tape, seen));
  }

  lemma ObservedKeys(s: State, t: State, tape: string, seen: set<string>)
    requires KeysMatch(s) && t.candidates == s.candidates && t.records == s.records
    requires t.canaries.Keys == s.canaries.Keys
    requires forall id :: id in s.canaries ==> t.canaries[id] == Seen(s.canaries[id], tape, seen)
    ensures KeysMatch(t)
  {
  }

  lemma RejectedKeeps(c: Candidate, rejects: bool)
    ensures var d := RejectedIf(c, rejects);
            Core(d) == Core(c) && d.id == c.id && (d.status.Promoted? <==> c.status.Promoted?)
  {
  }

  lemma ExpireTracks(json: Json, base: Files, s: State, now: int)
    requires Tracks(json, base, s)
    ensures Tracks(json, base, Expire(s, now))
  {
    hide *;
    TracksParts(json, base, s);
    ExpireIs(s, now);
    var t := Expire(s, now);
    forall id | id in s.candidates
      ensures Core(t.candidates[id]) == Core(s.candidates[id]) && t.candidates[id].id == s.candidates[id].id
      ensures InPromotion(t, id) <==> InPromotion(s, id)
    {
      RejectedKeeps(s.candidates[id], id in s.canaries && Lapses(s.canaries[id], now));
      InPromotionIs(s, id);
      InPromotionIs(t, id);
    }
    PromotedAreStored(s);
    PromotedAreStored(t);
    ExpiredKeys(s, t, now);
    QuietTracks(json, base, s, t);
  }

  lemma ExpiredKeys(s: State, t: State, now: int)
    requires KeysMatch(s) && t.candidates.Keys == s.candidates.Keys && t.canaries.Keys == s.canaries.Keys
    requires t.records == s.records
    requires forall id :: id in s.candidates ==> t.candidates[id].id == s.candidates[id].id
    requires forall id :: id in s.canaries ==> t.canaries[id] == Lapsed(s.canaries[id], now)
    ensures KeysMatch(t)
  {
  }

  lemma SameCandidatesTrack(json: Json, base: Files, s: State, t: State)
    requires Tracks(json, base, s) && KeysMatch(t)
    requires t.candidates == s.candidates && t.records == s.records && t.snapshots == s.snapshots && t.files == s.files
    ensures Tracks(json, base, t)
  {
    hide Tracks;
    QuietTracks(json, base, s, t);
  }

  lemma StageKeeps(s: State, c: Candidate, run: Run, tape: string, policy: AutoPolicy, now: int)
    requires KeysMatch(s)
    ensures var t := Stage(s, c, run, tape, policy, now).0;
            KeysMatch(t) && t == s.(canaries := t.canaries, journal := t.journal)
  {
  }

  lemma StageTracks(json: Json, base: Files, s: State, c: Candidate, run: Run, tape: string, policy: AutoPolicy,
      now: int)
    requires Tracks(json, base, s)
    ensures Tracks(json, base, Stage(s, c, run, tape, policy, now).0)
  {
    hide *;
    TracksParts(json, base, s);
    StageKeeps(s, c, run, tape, policy, now);
    SameCandidatesTrack(json, base, s, Stage(s, c, run, tape, policy, now).0);
  }

  lemma CaptureTracks(json: Json, base: Files, s: State, c: Candidate)
    requires Tracks(json, base, s) && IsNew(c) && c.id !in s.candidates
    ensures Tracks(json, base, WithCandidate(s, c))
  {
    TracksParts(json, base, s);
    hide Tracks;
    QuietTracks(json, base, s, WithCandidate(s, c));
  }

  lemma FinalizeTracksExactly(json: Json, base: Files, s: State, id: Id, force: bool)
    requires Faithful(json) && Tracks(json, base, s)
    ensures Finalize(json, s, id, force).1.Ok? ==> id in s.candidates
    ensures var (t, r) := Finalize(json, s, id, force);
            Tracks(json, base, t) <==> r.Err? || !Usurps(json, base, s, id)
  {
    hide *;
    TracksParts(json, base, s);
    PromotionTracksExactly(json, base, s, id, force);
    FinalizeIs(json, s, id, force);
    PromotionIs(json, s, id, force);
    var mid := Promotion(json, s, id, force).0;
    var (t, r) := Finalize(json, s, id, force);
    if r.Ok? {
      PromotionKeys(json, s, id, force);
      FinalizedKeys(mid, t, s, id);
      if Tracks(json, base, mid) {
        SameCandidatesTrack(json, base, mid, t);
      }
      if Tracks(json, base, t) {
        SameCandidatesTrack(json, base, t, mid);
      }
    } else {
      FinalizeErr(json, s, id, force);
    }
  }

  lemma FinalizeErr(json: Json, s: State, id: Id, force: bool)
    requires Finalize(json, s, id, force).1.Err?
    ensures Finalize(json, s, id, force).0 == s ||
            (Promotion(json, s, id, force).1.Err? && Finalize(json, s, id, force).0 == Promotion(json, s, id, force).0)
  {
    hide Promotion;
  }

  lemma FinalizedKeys(mid: State, t: State, s: State, id: Id)
    requires KeysMatch(s) && KeysMatch(mid) && t == mid.(canaries := t.canaries, journal := t.journal)
    requires id in s.canaries && exists k: Canary :: t.canaries == s.canaries[id := k] && k.candidateId == id
    ensures KeysMatch(t)
  {
  }

  /** A promotion that goes through takes no covered target from a candidate that is promoted; other
      operations are clear anyway. */
  ghost predicate Clear(json: Json, base: Files, s: State, op: Op) {
    match op
    case Promotes(id, force) =>
      Promotion(json, s, id, force).1.Ok? ==> id in s.candidates && !Usurps(json, base, s, id)
    case Finalizes(id, force) =>
      Finalize(json, s, id, force).1.Ok? ==> id in s.candidates && !Usurps(json, base, s, id)
    case _ => true
  }

  /** An operation, forced or not, keeps the files tracked exactly when it is clear. */
  lemma StepTracksExactly(json: Json, base: Files, s: State, op: Op)
    requires Faithful(json) && Tracks(json, base, s) && Enabled(s, op)
    ensures Tracks(json, base, Step(json, s, op)) <==> Clear(json, base, s, op)
  {
    hide Tracks;
    hide Usurps;
    hide Finalize;
    hide Promotion;
    match op
    case Captures(c) => CaptureTracks(json, base, s, c);
    case Evaluates(id, v) => EvaluationTracks(json, base, s, id, v);
    case Rejects(id) => RejectionTracks(json, base, s, id);
    case Promotes(id, force) => PromotionTracksExactly(json, base, s, id, force);
    case RollsBack(id) => RollbackTracks(json, base, s, id);
    case Observes(tape, seen) => ObserveTracks(json, base, s, tape, seen);
    case Expires(now) => ExpireTracks(json, base, s, now);
    case Stages(c, run, tape, policy, now) => StageTracks(json, base, s, c, run, tape, policy, now);
    case Finalizes(id, force) => FinalizeTracksExactly(json, base, s, id, force);
    case Writes(note) =>
      TracksParts(json, base, s);
      QuietTracks(json, base, s, Step(json, s, op));
  }

  lemma UnforcedIsClear(json: Json, base: Files, s: State, op: Op)
    requires Tracks(json, base, s) && Unforced(op)
    ensures Clear(json, base, s, op)
  {
    hide Tracks;
    hide Usurps;
    hide Promotion;
    match op
    case Promotes(id, _) =>
      if Promotion(json, s, id, false).1.Ok? {
        UnforcedUsurpsNothing(json, base, s, id);
      }
    case Finalizes(id, _) =>
      if Promotion(json, s, id, false).1.Ok? {
        UnforcedUsurpsNothing(json, base, s, id);
      }
    case _ =>
  }

  ghost predicate ClearRun(json: Json, base: Files, s: State, ops: seq<Op>)
    decreases |ops|
  {
    ops == [] || (Clear(json, base, s, ops[0]) && ClearRun(json, base, Step(json, s, ops[0]), ops[1..]))
  }

  /** In any run, forced promotions included, that takes no covered target from a promoted candidate,
      the covered target files are the first ones plus those of the candidates still promoted, which
      have different targets. */
  lemma {:induction false} RunTracks(json: Json, base: Files, s: State, ops: seq<Op>)
    requires Faithful(json) && Tracks(json, base, s) && IsRun(json, s, ops) && ClearRun(json, base, s, ops)
    ensures Tracks(json, base, After(json, s, ops))
    decreases |ops|
  {
    hide Tracks;
    hide Step;
    hide Enabled;
    hide Faithful;
    hide Clear;
    if ops != [] {
      StepTracksExactly(json, base, s, ops[0]);
      RunTracks(json, base, Step(json, s, ops[0]), ops[1..]);
    }
  }

  /** Runs without force are such runs. */
  lemma {:induction false} UnforcedRunIsClear(json: Json, base: Files, s: State, ops: seq<Op>)
    requires Faithful(json) && Tracks(json, base, s) && IsRun(json, s, ops)
    requires forall i :: 0 <= i < |ops| ==> Unforced(ops[i])
    ensures ClearRun(json, base, s, ops)
    decreases |ops|
  {
    hide Tracks;
    hide Step;
    hide Enabled;
    hide Faithful;
    hide Unforced;
    hide Clear;
    if ops != [] {
      UnforcedIsClear(json, base, s, ops[0]);
      StepTracksExactly(json, base, s, ops[0]);
      assert forall i :: 0 <= i < |ops[1..]| ==> ops[1..][i] == ops[i + 1];
      UnforcedRunIsClear(json, base, Step(json, s, ops[0]), ops[1..]);
    }
  }

  // ----- The files say who is promoted -----

  /** The same candidates are promoted. */
  ghost predicate SamePromoted(s: State, t: State) {
    forall id :: InPromotion(s, id) || InPromotion(t, id) ==>
                   InPromotion(s, id) && InPromotion(t, id) && Core(s.candidates[id]) == Core(t.candidates[id])
  }

  /** Whatever order promotions and rollbacks came in, the covered target files depend only on who is
      promoted in the end. */
  lemma PromotedDecideFiles(json: Json, base: Files, s: State, t: State, p: Path)
    requires Tracks(json, base, s) && Tracks(json, base, t) && SamePromoted(s, t) && IsTarget(p)
    requires Covered(json, base, p)
    ensures Lookup(s.files, p) == Lookup(t.files, p)
  {
    hide Core;
    hide Covered;
    if id :| InPromotion(s, id) && Target(s.candidates[id]) == p {
      CoreDecides(json, s.candidates[id], t.candidates[id], Lookup(base, p));
      assert Tracked(json, base, s, id) && Tracked(json, base, t, id);
      assert Standing(json, base, s, id) && Standing(json, base, t, id);
    } else {
      forall id | InPromotion(t, id)
        ensures Target(t.candidates[id]) != p
      {
        CoreDecides(json, s.candidates[id], t.candidates[id], None);
      }
      assert Untaken(s, p) && Untaken(t, p);
    }
  }

  lemma StillTracked(json: Json, base: Files, s: State, t: State, id: Id, other: Id)
    requires RolledBackTo(base, s, t, id) && Tracked(json, base, s, other) && other != id
    ensures Tracked(json, base, t, other) && t.candidates[other] == s.candidates[other]
  {
    hide Target;
    hide PoliciesParse;
  }

  /** Rollbacks commute: both orders go through, and leave the same files outside the bundles. */
  lemma RollbacksCommute(json: Json, base: Files, s: State, a: Id, b: Id, p: Path)
    requires Tracks(json, base, s) && Tracked(json, base, s, a) && Tracked(json, base, s, b) && a != b && !p.Bundle?
    ensures var ab := Rollback(json, Rollback(json, s, a).0, b);
            var ba := Rollback(json, Rollback(json, s, b).0, a);
            && ab.1.Ok? && ba.1.Ok?
            && Lookup(ab.0.files, p) == Lookup(ba.0.files, p)
  {
    hide *;
    var sa, sb := Rollback(json, s, a).0, Rollback(json, s, b).0;
    RollbackGoesThrough(json, base, s, a);
    RollbackGoesThrough(json, base, s, b);
    RollbackTracks(json, base, s, a);
    RollbackTracks(json, base, s, b);
    StillTracked(json, base, s, sa, a, b);
    StillTracked(json, base, s, sb, b, a);
    RollbackGoesThrough(json, base, sa, b);
    RollbackGoesThrough(json, base, sb, a);
    BothRolledBack(base, s, sa, Rollback(json, sa, b).0, sb, Rollback(json, sb, a).0, a, b, p);
  }

  lemma BothRolledBack(base: Files, s: State, sa: State, ab: State, sb: State, ba: State, a: Id, b: Id, p: Path)
    requires a != b && RolledBackTo(base, s, sa, a) && RolledBackTo(base, sa, ab, b) && !p.Bundle?
    requires RolledBackTo(base, s, sb, b) && RolledBackTo(base, sb, ba, a)
    ensures Lookup(ab.files, p) == Lookup(ba.files, p)
  {
    hide Target;
  }

  /** Rollbacks of two candidates at one target do not: a forced promotion over a promoted skill, and
      then both rolled back, leaves the first skill's text or nothing, by the order. */
  lemma UsurpedRollbacksDiffer(json: Json, a: Candidate, b: Candidate)
    requires a.id != b.id && a.kind.Skill? && b.kind.Skill? && Target(a) == Target(b)
    requires a.status.Pending? && b.status.Pending? && GateOpen(a, false)
    ensures var s := State(map[a.id := a, b.id := b], map[], map[], map[], map[], []);
            var t := After(json, s, [Promotes(a.id, false), Promotes(b.id, true)]);
            && InPromotion(t, a.id) && InPromotion(t, b.id)
            && Lookup(After(json, t, [RollsBack(a.id), RollsBack(b.id)]).files, Target(a)) == Some(RenderSkill(a))
            && Lookup(After(json, t, [RollsBack(b.id), RollsBack(a.id)]).files, Target(a)) == None
  {
    hide RenderSkill;
    hide Target;
    hide After;
    hide Step;
    var s := State(map[a.id := a, b.id := b], map[], map[], map[], map[], []);
    var x, y := RenderSkill(a), RenderSkill(b);
    var p := Target(a);
    TwoSteps(json, s, Promotes(a.id, false), Promotes(b.id, true));
    var s1 := Promotion(json, s, a.id, false).0;
    SkillPromotes(json, s, a.id, false);
    assert Lookup(s1.files, p) == Some(x);
    var t := Promotion(json, s1, b.id, true).0;
    SkillPromotes(json, s1, b.id, true);
    TwoSteps(json, t, RollsBack(a.id), RollsBack(b.id));
    TwoSteps(json, t, RollsBack(b.id), RollsBack(a.id));
    var ta, tb := Rollback(json, t, a.id).0, Rollback(json, t, b.id).0;
    SkillRollsBack(json, t, a.id);
    SkillRollsBack(json, ta, b.id);
    SkillRollsBack(json, t, b.id);
    SkillRollsBack(json, tb, a.id);
  }

  lemma TwoSteps(json: Json, s: State, first: Op, second: Op)
    ensures After(json, s, [first, second]) == Step(json, Step(json, s, first), second)
    ensures first.Promotes? ==> Step(json, s, first) == Promotion(json, s, first.id, first.force).0
    ensures first.RollsBack? ==> Step(json, s, first) == Rollback(json, s, first.id).0
    ensures second.Promotes? ==>
              Step(json, Step(json, s, first), second) ==
                Promotion(json, Step(json, s, first), second.id, second.force).0
    ensures second.RollsBack? ==>
              Step(json, Step(json, s, first), second) == Rollback(json, Step(json, s, first), second.id).0
  {
    hide Promotion;
    hide Rollback;
    var next := Step(json, s, first);
    assert [first, second][1..] == [second] && [second][1..] == [];
    assert After(json, next, [second]) == After(json, Step(json, next, second), []);
  }

  lemma SkillPromotes(json: Json, s: State, id: Id, force: bool)
    requires id in s.candidates && s.candidates[id].id == id && s.candidates[id].kind.Skill?
    requires s.candidates[id].status.Pending? && GateOpen(s.candidates[id], force)
    requires Target(s.candidates[id]) in s.files ==> force
    ensures var c := s.candidates[id];
            var t := Promotion(json, s, id, force).0;
            && t.candidates == s.candidates[id := c.(status := Status.Promoted, promotedTo := Some(Target(c)))]
            && t.files == s.files[Target(c) := RenderSkill(c)]
            && t.records == s.records[id := RecordFor(s, c, Target(c))]
            && t.snapshots == Snapshotted(s, id, Target(c)).snapshots
  {
    hide RenderSkill;
    hide Target;
  }

  lemma SkillRollsBack(json: Json, s: State, id: Id)
    requires InPromotion(s, id) && s.candidates[id].id == id && s.candidates[id].kind.Skill? && id in s.records
    requires s.records[id].candidateId == id
    requires s.records[id].snapshot.Some? ==> s.records[id].snapshot.value in s.snapshots
    ensures var record := s.records[id];
            var text := if record.snapshot.Some? then Some(s.snapshots[record.snapshot.value]) else None;
            var t := Rollback(json, s, id).0;
            && t.files == Put(s.files, record.target, text) && t.snapshots == s.snapshots
            && t.candidates == s.candidates[id :=
                 s.candidates[id].(status := RolledBack, promotedTo := Some(record.target))]
            && t.records == s.records[id := record.(rolledBack := true)]
  {
  }

  /** In any store, a promotion that went through, forced or not, can be rolled back exactly when it
      was none of a policy or every policy file parsed before; and whether the rollback goes through
      or not, it restores every file outside the bundles. */
  lemma RollbackUndoesPromotion(json: Json, s: State, id: Id, force: bool)
    requires KeysMatch(s) && Promotion(json, s, id, force).1.Ok?
    ensures id in s.candidates
    ensures var (u, r) := Rollback(json, Promotion(json, s, id, force).0, id);
            && (r.Ok? <==> (s.candidates[id].kind.RuntimePolicy? ==> PoliciesParse(json, s.files)))
            && forall p: Path :: !p.Bundle? ==> Lookup(u.files, p) == Lookup(s.files, p)
  {
    hide *;
    var t := Promotion(json, s, id, force).0;
    PromotionKeys(json, s, id, force);
    PromotionGoesThrough(json, s, id, force);
    PromotedStored(json, s, t, id);
    NewlyPromoted(json, s.files, s, t, id);
    UndoParsesExactly(json, s, t, id);
    RestorableText(s.files, t, id);
    InPromotionIs(t, id);
    var u := Rollback(json, t, id).0;
    if Restores(json, s.files, t, id) {
      RollbackRestores(json, s.files, t, id);
      Undone(json, s, t, u, id);
    } else {
      RollbackFailsExactly(json, t, id, Lookup(s.files, Target(t.candidates[id])));
    }
  }

  lemma Undone(json: Json, s: State, t: State, u: State, id: Id)
    requires Promoted(json, s, t, id) && RolledBackTo(s.files, t, u, id)
    ensures forall p: Path :: !p.Bundle? ==> Lookup(u.files, p) == Lookup(s.files, p)
  {
    PromotedTarget(json, s, t, id);
    hide Target;
    hide Written;
  }

  /** Taking a candidate away again leaves the files as they were, bundles aside. */
  lemma UndoParsesExactly(json: Json, s: State, t: State, id: Id)
    requires Promoted(json, s, t, id)
    ensures id in t.candidates && id in s.candidates && t.candidates[id].kind == s.candidates[id].kind
    ensures var target := Target(t.candidates[id]);
            var files := Put(t.files, target, Lookup(s.files, target));
            && (forall p: Path :: !p.Bundle? ==> Lookup(files, p) == Lookup(s.files, p))
            && (PoliciesParse(json, files) <==> PoliciesParse(json, s.files))
    ensures Restores(json, s.files, t, id) <==> (s.candidates[id].kind.RuntimePolicy? ==> PoliciesParse(json, s.files))
  {
    PromotedTarget(json, s, t, id);
    var target := Target(t.candidates[id]);
    var files := Put(t.files, target, Lookup(s.files, target));
    hide Target;
    hide Written;
    hide PoliciesParse;
    if PoliciesParse(json, files) {
      PoliciesElsewhere(json, files, s.files);
    }
    if PoliciesParse(json, s.files) {
      PoliciesElsewhere(json, s.files, files);
    }
  }

  /** A policy is promoted only where all other policies parse, and then all do. */
  lemma PolicyPromotionParses(json: Json, files: Files, c: Candidate, force: bool)
    requires Faithful(json) && c.kind.RuntimePolicy? && Installed(json, files, c, Target(c), force).1 == None
    ensures PoliciesParse(json, files - {Target(c)})
    ensures !force ==> PoliciesParse(json, files)
  {
    InstalledIs(json, files, c, Target(c), force);
    var existing := Lookup(files, Target(c));
    PolicyRefreshExactly(json, files[Target(c) := Written(json, c, existing).value]);
    PolicyWritten(json, files, c, existing);
    WithoutTarget(json, files, Target(c));
    hide PoliciesParse;
    hide Installed;
  }
}
