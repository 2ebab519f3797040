/** What a promotion leaves at its target: which file that is and what stands in it; and that promoted
    rules reach the bundle the prompt is made from. */
module PromotedTexts {
  import opened Wrappers
  import opened Evolution
  import opened Sequences
  import opened Bundles
  import opened BundleTexts
  import opened Store
  import opened StoreRuns
  import opened StoreFiles

  /** `t` is what stands in `s` between its outer whitespace, if anything. */
  ghost predicate TrimmedTo(t: string, s: string) {
    IsTrimOf(t, s) || (t == "" && Blank(s))
  }

  lemma TrimIsTrimmed(s: string)
    ensures TrimmedTo(Trim(s), s)
  {
    TrimIs(s);
    hide Trim;
    hide Blank;
    hide IsTrimOf;
  }

  lemma TrimmedUnique(a: string, b: string, s: string)
    requires TrimmedTo(a, s) && TrimmedTo(b, s)
    ensures a == b
  {
    if IsTrimOf(a, s) && IsTrimOf(b, s) {
      TrimIsUnique(a, b, s);
    } else if IsTrimOf(a, s) {
      var i, j := TrimEnds(a, s);
    } else if IsTrimOf(b, s) {
      var i, j := TrimEnds(b, s);
    }
  }

  // ----- The targets -----

  /** Rules go by their own identifier, everything else by its name. */
  predicate IsTargetOf(c: Candidate, p: Path) {
    var name := if c.artifactName.Some? then c.artifactName else c.skillName;
    var known := if name.Some? then name.value else "";
    match c.kind
    case PromptRule => p == Fragment(Rules, c.id + ".md")
    case Skill => p == SkillFile(known)
    case CompiledKnowledge => p == Fragment(Knowledge, known + ".md")
    case RuntimePolicy => p == Fragment(Policies, known + ".json")
  }

  lemma TargetIs(c: Candidate)
    ensures IsTargetOf(c, Target(c))
  {
  }

  // ----- The texts -----

  /** A rule's block: a heading with its title, and its content. */
  ghost predicate IsBlock(c: Candidate, block: string) {
    exists title, content, whole ::
      && TrimmedTo(title, c.title) && TrimmedTo(content, c.content)
      && whole == "## " + title + "\n" + content && TrimmedTo(block, whole)
  }

  predicate Within(part: string, text: string) {
    exists i | 0 <= i <= |text| :: OccursAt(text, part, i)
  }

  /** A rule is added after what stood in its fragment, unless it is there already; then the fragment
      stays, with a newline at its end. */
  ghost predicate IsRuleText(c: Candidate, existing: string, text: string) {
    exists block, before ::
      && IsBlock(c, block) && TrimmedTo(before, existing)
      && if Within(block, before) then
           text == existing || (existing != "" && existing[|existing| - 1] != '\n' && text == existing + "\n")
         else text == (if before == "" then "" else before + "\n\n") + block + "\n"
  }

  ghost predicate IsKnowledgeText(c: Candidate, text: string) {
    exists title, summary, content ::
      && TrimmedTo(title, c.title) && TrimmedTo(summary, c.summary) && TrimmedTo(content, c.content)
      && text == "## " + title + "\n" + summary + "\n\n" + content + "\n"
  }

  ghost predicate IsSkillText(c: Candidate, text: string) {
    exists title, summary, content ::
      && TrimmedTo(title, c.title) && TrimmedTo(summary, c.summary) && TrimmedTo(content, c.content)
      && text == "---\nname: " + (if c.skillName.Some? then c.skillName.value else "") +
                 "\ndescription: " + summary + "\n---\n" +
                 (if title == "" then "" else "# " + title + "\n\n") + content + "\n"
  }

  /** What a promotion writes, given what stood at the target. */
  ghost predicate IsPromotedText(json: Json, c: Candidate, existing: Option<string>, text: string) {
    match c.kind
    case PromptRule => IsRuleText(c, if existing.Some? then existing.value else "", text)
    case Skill => IsSkillText(c, text)
    case CompiledKnowledge => IsKnowledgeText(c, text)
    case RuntimePolicy => json.parse(c.content).Some? && json.parse(text) == json.parse(c.content)
  }

  lemma RuleBlockIs(c: Candidate)
    ensures IsBlock(c, Trim(RuleBlock(c)))
  {
    TrimIsTrimmed(c.title);
    TrimIsTrimmed(c.content);
    TrimIsTrimmed(RuleBlock(c));
    hide Trim;
    hide TrimmedTo;
  }

  lemma BlockIsNotEmpty(c: Candidate)
    ensures Trim(RuleBlock(c)) != "" && RuleBlock(c) != ""
  {
    var whole := RuleBlock(c);
    TrimIs(whole);
    assert whole[0] == '#';
    assert !Unicode.IsWhitespace(whole[0]);
  }

  lemma TrimOfIs(t: string, s: string, i: nat, j: nat)
    requires i < j <= |s| && t == s[i..j] && !Unicode.IsWhitespace(s[i]) && !Unicode.IsWhitespace(s[j - 1])
    requires forall k :: 0 <= k < i || j <= k < |s| ==> Unicode.IsWhitespace(s[k])
    ensures IsTrimOf(t, s)
  {
    hide Unicode.IsWhitespace;
    assert OccursAt(s, t, i) && Blank(s[..i]) && Blank(s[j..]);
  }

  lemma TrimmedNewline(t: string, s: string)
    requires TrimmedTo(t, s)
    ensures TrimmedTo(t, s + "\n")
  {
    assert Unicode.IsWhitespace('\n');
    hide Unicode.IsWhitespace;
    var more := s + "\n";
    assert forall k :: 0 <= k < |s| ==> more[k] == s[k];
    assert more[|s|] == '\n';
    if IsTrimOf(t, s) {
      var i, j := TrimEnds(t, s);
      hide IsTrimOf;
      assert more[i..j] == s[i..j];
      TrimOfIs(t, more, i, j);
    }
  }

  lemma NewlineTrims(s: string)
    ensures Trim(EnsureTrailingNewline(s)) == Trim(s)
  {
    TrimIsTrimmed(s);
    TrimIsTrimmed(s + "\n");
    hide Trim;
    hide TrimmedTo;
    TrimmedNewline(Trim(s), s);
    TrimmedUnique(Trim(s + "\n"), Trim(s), s + "\n");
  }

  lemma JoinedTwo(a: string, b: string)
    requires Trim(b) != ""
    ensures Joined(TrimmedParts([a, b]), "\n\n") ==
            (if Trim(a) == "" then "" else Trim(a) + "\n\n") + Trim(b)
  {
    hide Trim;
    assert [a, b][1..] == [b] && [b][1..] == [];
    assert TrimmedParts([b]) == [Trim(b)];
    if Trim(a) == "" {
      assert [] + [Trim(b)] == [Trim(b)];
    } else {
      assert [Trim(a)] + [Trim(b)] == [Trim(a), Trim(b)];
      assert [Trim(a), Trim(b)][1..] == [Trim(b)];
    }
  }

  lemma AppendedIs(existing: string, c: Candidate)
    ensures var block, before := Trim(RuleBlock(c)), Trim(existing);
            AppendRuleBlock(existing, c) ==
              if Contains(before, block) then EnsureTrailingNewline(existing)
              else (if before == "" then "" else before + "\n\n") + block + "\n"
  {
    BlockIsNotEmpty(c);
    NewlineTrims(existing);
    JoinedTwo(EnsureTrailingNewline(existing), RuleBlock(c));
    hide Trim;
    hide RuleBlock;
    hide Contains;
    hide TrimmedParts;
    hide Joined;
    hide EnsureTrailingNewline;
  }

  lemma RuleTextIs(existing: string, c: Candidate)
    ensures IsRuleText(c, existing, AppendRuleBlock(existing, c))
  {
    var block, before := Trim(RuleBlock(c)), Trim(existing);
    RuleBlockIs(c);
    TrimIsTrimmed(existing);
    AppendedIs(existing, c);
    assert Contains(before, block) <==> Within(block, before);
    hide Trim;
    hide IsBlock;
    hide TrimmedTo;
    hide Contains;
    hide Within;
    hide AppendRuleBlock;
    hide RuleBlock;
    assert IsBlock(c, block) && TrimmedTo(before, existing);
  }

  lemma KnowledgeTextIs(c: Candidate)
    ensures IsKnowledgeText(c, KnowledgeBlock(c) + "\n")
  {
    TrimIsTrimmed(c.title);
    TrimIsTrimmed(c.summary);
    TrimIsTrimmed(c.content);
    hide Trim;
    hide TrimmedTo;
    assert KnowledgeBlock(c) + "\n" ==
           "## " + Trim(c.title) + "\n" + Trim(c.summary) + "\n\n" + Trim(c.content) + "\n";
  }

  lemma SkillTextIs(c: Candidate)
    ensures IsSkillText(c, RenderSkill(c))
  {
    TrimIsTrimmed(c.title);
    TrimIsTrimmed(c.summary);
    TrimIsTrimmed(c.content);
    hide Trim;
    hide TrimmedTo;
  }

  lemma WrittenIs(json: Json, c: Candidate, existing: Option<string>)
    requires Faithful(json) && Written(json, c, existing).Some?
    ensures IsPromotedText(json, c, existing, Written(json, c, existing).value)
  {
    match c.kind
    case PromptRule => RuleTextIs(if existing.Some? then existing.value else "", c);
    case Skill => SkillTextIs(c);
    case CompiledKnowledge => KnowledgeTextIs(c);
    case RuntimePolicy =>
  }

  /** A promotion that goes through, forced or not, writes the candidate's text to its target, and
      touches no other file outside the bundles. */
  lemma PromotionWrites(json: Json, s: State, id: Id, force: bool)
    requires Faithful(json) && KeysMatch(s) && Promotion(json, s, id, force).1.Ok?
    ensures id in s.candidates
    ensures var t, c := Promotion(json, s, id, force).0, s.candidates[id];
            exists target ::
              && IsTargetOf(c, target) && target in t.files
              && IsPromotedText(json, c, Lookup(s.files, target), t.files[target])
              && forall p: Path :: !p.Bundle? && p != target ==> Lookup(t.files, p) == Lookup(s.files, p)
  {
    hide *;
    var t := Promotion(json, s, id, force).0;
    PromotionGoesThrough(json, s, id, force);
    PromotedWrites(json, s, t, id);
    var c := s.candidates[id];
    TargetIs(c);
    WrittenIs(json, c, Lookup(s.files, Target(c)));
    LookupIs(t.files, Target(c));
  }

  /** What it keeps for a rollback: a record of the target, of the evaluation that let it through, and
      of a snapshot with the text that stood there, if any. */
  lemma PromotionRecords(json: Json, s: State, id: Id, force: bool)
    requires KeysMatch(s) && Promotion(json, s, id, force).1.Ok?
    ensures id in s.candidates
    ensures var t, c := Promotion(json, s, id, force).0, s.candidates[id];
            exists target, snapshot: Option<Id> ::
              && IsTargetOf(c, target)
              && t.records == s.records[id := Record(id, target, snapshot, c.latestEvaluation, false)]
              && (snapshot.Some? <==> target in s.files)
              && t.snapshots == if snapshot.Some? then s.snapshots[snapshot.value := s.files[target]] else s.snapshots
  {
    PromotionGoesThrough(json, s, id, force);
    PromotedRecords(json, s, Promotion(json, s, id, force).0, id);
    hide Promotion;
    hide StoreFiles.Promoted;
    var c := s.candidates[id];
    TargetIs(c);
    hide Target;
    var record := RecordFor(s, c, Target(c));
    assert IsTargetOf(c, record.target) && (record.snapshot.Some? <==> record.target in s.files);
  }

  lemma PromotedRecords(json: Json, s: State, t: State, id: Id)
    requires StoreFiles.Promoted(json, s, t, id)
    ensures id in s.candidates && s.candidates[id].id == id
    ensures var c := s.candidates[id];
            t.records == s.records[id := RecordFor(s, c, Target(c))] &&
            t.snapshots == Snapshotted(s, id, Target(c)).snapshots
  {
    hide Target;
    hide Written;
    hide RecordFor;
    hide Snapshotted;
  }

  lemma LookupIs(files: Files, p: Path)
    ensures Lookup(files, p).Some? <==> p in files
    ensures p in files ==> files[p] == Lookup(files, p).value
  {
  }

  lemma PromotedWrites(json: Json, s: State, t: State, id: Id)
    requires StoreFiles.Promoted(json, s, t, id)
    ensures id in s.candidates
    ensures var c := s.candidates[id];
            && Written(json, c, Lookup(s.files, Target(c))).Some?
            && Lookup(t.files, Target(c)) == Written(json, c, Lookup(s.files, Target(c)))
            && forall p: Path :: !p.Bundle? && p != Target(c) ==> Lookup(t.files, p) == Lookup(s.files, p)
  {
    TargetIsNoBundle(s.candidates[id]);
    hide Target;
    hide Written;
  }

  /** So in any store that tracks, the file of every promoted candidate holds its text, written over what
      was there in `base`. */
  lemma StandingText(json: Json, base: Files, s: State, id: Id)
    requires Faithful(json) && Tracks(json, base, s) && Tracked(json, base, s, id)
    ensures id in s.candidates
    ensures var c := s.candidates[id];
            exists target ::
              IsTargetOf(c, target) && target in s.files &&
              IsPromotedText(json, c, Lookup(base, target), s.files[target])
  {
    hide *;
    TracksParts(json, base, s);
    TrackedIs(json, base, s, id);
    InPromotionIs(s, id);
    var c := s.candidates[id];
    StandingIs(json, base, s, id);
    TargetIs(c);
    WrittenIs(json, c, Lookup(base, Target(c)));
    LookupIs(s.files, Target(c));
  }

  lemma StandingIs(json: Json, base: Files, s: State, id: Id)
    requires id in s.candidates && Standing(json, base, s, id)
    ensures var c := s.candidates[id];
            && Written(json, c, Lookup(base, Target(c))).Some?
            && Lookup(s.files, Target(c)) == Written(json, c, Lookup(base, Target(c)))
  {
    hide Written;
    hide Target;
  }

  // ----- Rules reach the prompt -----

  /** A part of one piece of a laid out text is a part of the text. */
  lemma PartWithin(part: string, text: string, parts: seq<string>, separator: string, i: nat)
    requires i < |parts| && LaidOut(text, parts, separator) && Within(part, parts[i])
    ensures Within(part, text)
  {
    var starts :| StandAt(text, parts, separator, starts);
    StandAtParts(text, parts, separator, starts, i);
    var k :| 0 <= k <= |parts[i]| && OccursAt(parts[i], part, k);
    hide StandAt;
    hide LaidOut;
    OccursFurther(part, text, starts[i], starts[i] + |parts[i]|, k);
  }

  lemma OccursFurther(part: string, text: string, n: nat, e: nat, k: nat)
    requires n <= e <= |text| && OccursAt(text[n..e], part, k)
    ensures Within(part, text)
  {
    SliceOfSlice(text, n, e, k, k + |part|);
    assert OccursAt(text, part, n + k);
  }

  lemma SliceOfSlice(text: string, n: nat, e: nat, i: nat, j: nat)
    requires n <= e <= |text| && i <= j <= e - n
    ensures text[n..e][i..j] == text[n + i..n + j]
  {
    var a, b := text[n..e][i..j], text[n + i..n + j];
    assert |a| == |b|;
    forall k | 0 <= k < |a|
      ensures a[k] == b[k]
    {
      assert a[k] == text[n..e][i + k] == text[n + (i + k)];
    }
  }

  lemma PrefixWithin(part: string, text: string, n: nat)
    requires n <= |text| && Within(part, text[..n])
    ensures Within(part, text)
  {
    var k :| 0 <= k <= n && OccursAt(text[..n], part, k);
    assert text[..n][k..k + |part|] == text[k..k + |part|];
    assert OccursAt(text, part, k);
  }

  /** What stands in a source, trimmed, stands in the bundle. */
  lemma SourceInBundle(files: Files, area: Area, bundle: string, p: Path, part: string)
    requires IsBundle(files, area, Some(bundle)) && IsSource(p, area) && p in files && !Blank(files[p])
    requires forall t :: IsTrimOf(t, files[p]) ==> Within(part, t)
    ensures Within(part, bundle)
  {
    hide Lists;
    hide AreTrimmed;
    hide LaidOut;
    hide Within;
    hide Blank;
    hide IsTrimOf;
    var paths, parts :|
      && Lists(files, area, paths) && AreTrimmed(files, paths, parts)
      && paths != [] && bundle != "" && bundle[|bundle| - 1] == '\n'
      && LaidOut(bundle[..|bundle| - 1], parts, "\n\n");
    var i := ListedAt(files, area, paths, p);
    TrimmedAt(files, paths, parts, i);
    PartWithin(part, bundle[..|bundle| - 1], parts, "\n\n", i);
    PrefixWithin(part, bundle, |bundle| - 1);
  }

  lemma ListedAt(files: Files, area: Area, paths: seq<Path>, p: Path) returns (i: nat)
    requires Lists(files, area, paths) && p in files && IsSource(p, area) && !Blank(files[p])
    ensures i < |paths| && paths[i] == p
  {
    i :| 0 <= i < |paths| && paths[i] == p;
  }

  lemma TrimmedAt(files: Files, paths: seq<Path>, parts: seq<string>, i: nat)
    requires AreTrimmed(files, paths, parts) && i < |paths|
    ensures |parts| == |paths| && paths[i] in files && IsTrimOf(parts[i], files[paths[i]])
  {
    hide IsTrimOf;
  }

  lemma ABundleThere(files: Files, area: Area, bundle: Option<string>, p: Path)
    requires IsBundle(files, area, bundle) && IsSource(p, area) && p in files && !Blank(files[p])
    ensures bundle.Some?
  {
    hide AreTrimmed;
    hide LaidOut;
    hide Ahead;
    hide Blank;
  }

  lemma BlockInText(c: Candidate, existing: string, text: string, t: string)
    requires IsRuleText(c, existing, text) && IsTrimOf(t, text)
    ensures exists block :: IsBlock(c, block) && Within(block, t)
  {
    hide IsBlock;
    var block, before :|
      && IsBlock(c, block) && TrimmedTo(before, existing)
      && if Within(block, before) then
           text == existing || (existing != "" && existing[|existing| - 1] != '\n' && text == existing + "\n")
         else text == (if before == "" then "" else before + "\n\n") + block + "\n";
    BlockEnds(c, block);
    if Within(block, before) {
      NewlineTrimmed(existing, text, before, t);
    } else {
      BlockAtEnd(before, existing, block, text, t);
    }
  }

  lemma BlockEnds(c: Candidate, block: string)
    requires IsBlock(c, block)
    ensures block != "" && !Unicode.IsWhitespace(block[0]) && !Unicode.IsWhitespace(block[|block| - 1])
  {
    var title, content, whole :|
      && TrimmedTo(title, c.title) && TrimmedTo(content, c.content)
      && whole == "## " + title + "\n" + content && TrimmedTo(block, whole);
    assert whole[0] == '#' && !Unicode.IsWhitespace('#');
    hide Unicode.IsWhitespace;
  }

  lemma NewlineTrimmed(existing: string, text: string, before: string, t: string)
    requires TrimmedTo(before, existing) && IsTrimOf(t, text)
    requires text == existing || text == existing + "\n"
    ensures t == before
  {
    if text == existing {
      TrimmedUnique(t, before, text);
    } else {
      var i, j := TrimEnds(t, text);
      assert j <= |existing| by {
        assert text[|existing|] == '\n' && Unicode.IsWhitespace('\n');
      }
      assert existing[i..j] == t && OccursAt(existing, t, i);
      assert forall k :: 0 <= k < |existing| ==> existing[k] == text[k];
      assert Blank(existing[..i]) && Blank(existing[j..]);
      hide Unicode.IsWhitespace;
      assert IsTrimOf(t, existing);
      TrimmedUnique(t, before, existing);
    }
  }

  lemma BlockAtEnd(before: string, existing: string, block: string, text: string, t: string)
    requires TrimmedTo(before, existing) && IsTrimOf(t, text)
    requires block != "" && !Unicode.IsWhitespace(block[0]) && !Unicode.IsWhitespace(block[|block| - 1])
    requires text == (if before == "" then "" else before + "\n\n") + block + "\n"
    ensures Within(block, t)
  {
    var i, j := TrimEnds(t, text);
    var n := |text| - 1 - |block|;
    assert text[n] == block[0] && text[|text| - 2] == block[|block| - 1] && text[|text| - 1] == '\n';
    assert Unicode.IsWhitespace('\n');
    hide Unicode.IsWhitespace;
    assert i <= n && j == |text| - 1;
    assert text[n..n + |block|] == block;
    assert t[n - i..n - i + |block|] == text[n..n + |block|];
    assert OccursAt(t, block, n - i);
  }

  lemma BlockUnique(c: Candidate, a: string, b: string)
    requires IsBlock(c, a) && IsBlock(c, b)
    ensures a == b
  {
    hide TrimmedTo;
    var title, content, whole :|
      && TrimmedTo(title, c.title) && TrimmedTo(content, c.content)
      && whole == "## " + title + "\n" + content && TrimmedTo(a, whole);
    var title', content', whole' :|
      && TrimmedTo(title', c.title) && TrimmedTo(content', c.content)
      && whole' == "## " + title' + "\n" + content' && TrimmedTo(b, whole');
    TrimmedUnique(title, title', c.title);
    TrimmedUnique(content, content', c.content);
    TrimmedUnique(a, b, whole);
  }

  lemma RuleTextIsFilled(c: Candidate, existing: string, text: string)
    requires IsRuleText(c, existing, text)
    ensures !Blank(text)
  {
    hide IsBlock;
    var block, before :|
      && IsBlock(c, block) && TrimmedTo(before, existing)
      && if Within(block, before) then
           text == existing || (existing != "" && existing[|existing| - 1] != '\n' && text == existing + "\n")
         else text == (if before == "" then "" else before + "\n\n") + block + "\n";
    BlockEnds(c, block);
    hide Unicode.IsWhitespace;
    if Within(block, before) {
      assert before != "";
      var i, j := TrimEnds(before, existing);
      assert text[i] == existing[i];
    } else {
      assert text[|text| - 2] == block[|block| - 1];
    }
  }

  /** In any store that tracks and whose rules bundle is as it should be, every promoted rule stands in
      the bundle. */
  lemma PromotedRuleInBundle(json: Json, base: Files, s: State, id: Id)
    requires Faithful(json) && Tracks(json, base, s) && Tracked(json, base, s, id)
    requires s.candidates[id].kind.PromptRule? && Agrees(json, s.files, Rules)
    ensures Bundle(Rules) in s.files
    ensures exists block :: IsBlock(s.candidates[id], block) && Within(block, s.files[Bundle(Rules)])
  {
    var c := s.candidates[id];
    StandingText(json, base, s, id);
    AgreesExactly(json, s.files, Rules);
    var target :|
      IsTargetOf(c, target) && target in s.files &&
      IsPromotedText(json, c, Lookup(base, target), s.files[target]);
    var existing := if Lookup(base, target).Some? then Lookup(base, target).value else "";
    var text := s.files[target];
    assert IsRuleText(c, existing, text) && IsSource(target, Rules);
    RuleTextIsFilled(c, existing, text);
    RuleBlockIs(c);
    var block := Trim(RuleBlock(c));
    hide *;
    LookupIs(s.files, Bundle(Rules));
    ABundleThere(s.files, Rules, Lookup(s.files, Bundle(Rules)), target);
    forall t | IsTrimOf(t, text)
      ensures Within(block, t)
    {
      BlockInText(c, existing, text, t);
      var other :| IsBlock(c, other) && Within(other, t);
      BlockUnique(c, block, other);
    }
    SourceInBundle(s.files, Rules, s.files[Bundle(Rules)], target, block);
  }
}
