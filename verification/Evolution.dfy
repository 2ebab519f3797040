/** What governed self-evolution stores: candidates, promotions, canaries and the files they lead
    to, with the texts rendered for them. */
module Evolution {
  import opened Wrappers
  import Unicode

  // ----- Text -----

  function TrimStart(s: string): string {
    if s != "" && Unicode.IsWhitespace(s[0]) then TrimStart(s[1..]) else s
  }

  function TrimEnd(s: string): string {
    if s != "" && Unicode.IsWhitespace(s[|s| - 1]) then TrimEnd(s[..|s| - 1]) else s
  }

  function Trim(s: string): string {
    TrimEnd(TrimStart(s))
  }

  predicate OccursAt(s: string, part: string, i: nat) {
    i + |part| <= |s| && s[i..i + |part|] == part
  }

  predicate Blank(s: string) {
    forall i :: 0 <= i < |s| ==> Unicode.IsWhitespace(s[i])
  }

  /** `t` is what of `s` stands between its first and its last character that is not whitespace. */
  ghost predicate IsTrimOf(t: string, s: string) {
    && t != "" && !Unicode.IsWhitespace(t[0]) && !Unicode.IsWhitespace(t[|t| - 1])
    && exists i: nat :: OccursAt(s, t, i) && Blank(s[..i]) && Blank(s[i + |t|..])
  }

  lemma {:induction false} TrimStartIs(s: string) returns (i: nat)
    ensures i <= |s| && TrimStart(s) == s[i..] && Blank(s[..i])
    ensures i < |s| ==> !Unicode.IsWhitespace(s[i])
  {
    if s != "" && Unicode.IsWhitespace(s[0]) {
      var k := TrimStartIs(s[1..]);
      i := k + 1;
      assert s[..i] == [s[0]] + s[1..][..k];
    } else {
      i := 0;
    }
  }

  lemma {:induction false} TrimEndIs(s: string) returns (j: nat)
    ensures j <= |s| && TrimEnd(s) == s[..j] && Blank(s[j..])
    ensures 0 < j ==> !Unicode.IsWhitespace(s[j - 1])
  {
    if s != "" && Unicode.IsWhitespace(s[|s| - 1]) {
      j := TrimEndIs(s[..|s| - 1]);
      assert s[..|s| - 1][..j] == s[..j];
      assert s[j..] == s[..|s| - 1][j..] + [s[|s| - 1]];
    } else {
      j := |s|;
    }
  }

  lemma TrimIs(s: string)
    ensures Trim(s) == "" <==> Blank(s)
    ensures Trim(s) != "" ==> IsTrimOf(Trim(s), s)
    ensures Trim(Trim(s)) == Trim(s)
  {
    var i := TrimStartIs(s);
    var rest := s[i..];
    var j := TrimEndIs(rest);
    if j > 0 {
      assert rest[0] == s[i] && !Unicode.IsWhitespace(rest[0]);
      assert OccursAt(s, rest[..j], i) && s[i + j..] == rest[j..];
    } else {
      assert rest[0..] == rest && s == s[..i] + rest;
    }
  }

  lemma TrimEnds(t: string, s: string) returns (i: nat, j: nat)
    requires IsTrimOf(t, s)
    ensures i < j <= |s| && t == s[i..j] && !Unicode.IsWhitespace(s[i]) && !Unicode.IsWhitespace(s[j - 1])
    ensures forall k :: 0 <= k < i || j <= k < |s| ==> Unicode.IsWhitespace(s[k])
  {
    i :| OccursAt(s, t, i) && Blank(s[..i]) && Blank(s[i + |t|..]);
    j := i + |t|;
    assert s[i] == t[0] && s[j - 1] == t[|t| - 1];
    forall k | 0 <= k < i || j <= k < |s|
      ensures Unicode.IsWhitespace(s[k])
    {
      assert k >= j ==> s[k] == s[j..][k - j];
    }
  }

  lemma TrimIsUnique(a: string, b: string, s: string)
    requires IsTrimOf(a, s) && IsTrimOf(b, s)
    ensures a == b
  {
    var i, j := TrimEnds(a, s);
    var m, n := TrimEnds(b, s);
  }

  predicate Contains(s: string, part: string) {
    exists i | 0 <= i <= |s| :: OccursAt(s, part, i)
  }

  function EnsureTrailingNewline(s: string): string {
    if s == "" || s[|s| - 1] == '\n' then s else s + "\n"
  }

  function TrimmedParts(parts: seq<string>): seq<string> {
    if parts == [] then []
    else (if Trim(parts[0]) == "" then [] else [Trim(parts[0])]) + TrimmedParts(parts[1..])
  }

  function Joined(parts: seq<string>, separator: string): string {
    if parts == [] then ""
    else if |parts| == 1 then parts[0]
    else parts[0] + separator + Joined(parts[1..], separator)
  }

  // ----- Entities -----

  type Id = string

  datatype Kind = PromptRule | Skill | CompiledKnowledge | RuntimePolicy

  datatype Status = Pending | Promoted | Rejected | RolledBack

  datatype Risk = Low | Medium | High

  function RiskRank(r: Risk): nat {
    match r case Low => 0 case Medium => 1 case High => 2
  }

  predicate RiskAllows(risk: Risk, limit: Risk) {
    RiskRank(risk) <= RiskRank(limit)
  }

  function RiskFor(kind: Kind): Risk {
    match kind
    case PromptRule => Medium
    case Skill => High
    case CompiledKnowledge => Low
    case RuntimePolicy => High
  }

  function KindName(kind: Kind): string {
    match kind
    case PromptRule => "prompt_rule"
    case Skill => "skill"
    case CompiledKnowledge => "compiled_knowledge"
    case RuntimePolicy => "runtime_policy"
  }

  /** Places of a workspace that evolution writes to. An area has fragments, named by file, a legacy
      file beside them, and a bundle made from all of these. */
  datatype Area = Rules | Knowledge | Policies

  datatype Path = Fragment(area: Area, file: string) | Legacy(area: Area) | Bundle(area: Area)
    | SkillFile(skill: string)

  type Files = map<Path, string>

  function Lookup<K, V>(m: map<K, V>, k: K): Option<V> {
    if k in m then Some(m[k]) else None
  }

  datatype Candidate = Candidate(
    id: Id, kind: Kind, title: string, summary: string, content: string,
    artifactName: Option<string>, skillName: Option<string>, sourceTape: Option<string>,
    status: Status, promotedTo: Option<Path>, fingerprint: string,
    requiresEvaluation: bool, risk: Risk,
    latestEvaluation: Option<Id>, evaluationPassed: Option<bool>, createdAt: int)

  datatype Run = Run(id: Id, candidateId: Id, passed: bool, score: nat)

  datatype Record = Record(
    candidateId: Id, target: Path, snapshot: Option<Id>, evaluationId: Option<Id>, rolledBack: bool)

  datatype CanaryStatus = Active | CanaryPromoted | Expired

  datatype Canary = Canary(
    candidateId: Id, fingerprint: string, title: string, status: CanaryStatus,
    observations: nat, required: nat, evaluationId: Id, evaluationPassed: bool, evaluationScore: nat,
    expiresAt: int, lastTape: Option<string>, promotedTo: Option<Path>)

  datatype Action = WasDistilled | WasEvaluated | WasObserved | WasStaged | WasPromoted | WasRejected | WasRolledBack
    | WasExpired

  datatype Note = Note(tape: string, candidate: Option<Id>, action: Action)

  datatype Error =
    | NoCandidate | NotPending | NotPromoted | GateClosed | TargetExists | BadPolicy
    | NoRecord | NoSnapshot | NoCanary | CanaryNotReady | EmptyText

  // ----- Runtime policies -----

  datatype PolicyDocument = PolicyDocument(
    enabled: Option<bool>, minEvidence: Option<nat>, minScore: Option<nat>, canaryObservations: Option<nat>,
    canaryTtlHours: Option<int>, maxAutoRisk: Option<Risk>, maxDirectPromoteRisk: Option<Risk>)

  const EMPTY_POLICY := PolicyDocument(None, None, None, None, None, None, None)

  function Or<T>(a: Option<T>, b: Option<T>): Option<T> {
    if a.Some? then a else b
  }

  function Merge(d: PolicyDocument, later: PolicyDocument): PolicyDocument {
    PolicyDocument(
      Or(later.enabled, d.enabled), Or(later.minEvidence, d.minEvidence), Or(later.minScore, d.minScore),
      Or(later.canaryObservations, d.canaryObservations), Or(later.canaryTtlHours, d.canaryTtlHours),
      Or(later.maxAutoRisk, d.maxAutoRisk), Or(later.maxDirectPromoteRisk, d.maxDirectPromoteRisk))
  }

  /** The JSON library, for policy documents. */
  datatype Json = Json(parse: string -> Option<PolicyDocument>, render: PolicyDocument -> string)

  /** What is assumed of it: what is rendered parses back, even with a newline after it, and is not
      blank. */
  ghost predicate Faithful(json: Json) {
    forall d :: json.parse(json.render(d) + "\n") == Some(d) && Trim(json.render(d) + "\n") != ""
  }

  // ----- Candidates -----

  function TargetName(c: Candidate): Option<string> {
    Or(c.artifactName, c.skillName)
  }

  function NameOr(name: Option<string>): string {
    if name.Some? then name.value else ""
  }

  /** What is hashed to identify a candidate; hashing is taken to be injective. */
  function Fingerprint(kind: Kind, title: string, content: string, target: Option<string>): string {
    KindName(kind) + "\n" + NameOr(target) + "\n" + Trim(title) + "\n" + Trim(content)
  }

  function Target(c: Candidate): Path {
    match c.kind
    case PromptRule => Fragment(Rules, c.id + ".md")
    case Skill => SkillFile(NameOr(TargetName(c)))
    case CompiledKnowledge => Fragment(Knowledge, NameOr(TargetName(c)) + ".md")
    case RuntimePolicy => Fragment(Policies, NameOr(TargetName(c)) + ".json")
  }

  predicate GateOpen(c: Candidate, force: bool) {
    force || !c.requiresEvaluation || c.evaluationPassed == Some(true)
  }

  // ----- Rendered files -----

  function RuleBlock(c: Candidate): string {
    "## " + Trim(c.title) + "\n" + Trim(c.content)
  }

  function AppendRuleBlock(existing: string, c: Candidate): string {
    var block := RuleBlock(c);
    if Contains(Trim(existing), Trim(block)) then EnsureTrailingNewline(existing)
    else Joined(TrimmedParts([EnsureTrailingNewline(existing), block]), "\n\n") + "\n"
  }

  function KnowledgeBlock(c: Candidate): string {
    "## " + Trim(c.title) + "\n" + Trim(c.summary) + "\n\n" + Trim(c.content)
  }

  function SkillTitle(c: Candidate): string {
    if Trim(c.title) == "" then "" else "# " + Trim(c.title) + "\n\n"
  }

  function RenderSkill(c: Candidate): string {
    "---\nname: " + NameOr(c.skillName) + "\ndescription: " + Trim(c.summary) + "\n---\n" +
    SkillTitle(c) + Trim(c.content) + "\n"
  }

  /** What promoting the candidate writes to its target, given what is there: nothing for a policy
      that does not parse. */
  function Written(json: Json, c: Candidate, existing: Option<string>): Option<string> {
    match c.kind
    case PromptRule => Some(AppendRuleBlock(if existing.Some? then existing.value else "", c))
    case Skill => Some(RenderSkill(c))
    case CompiledKnowledge => Some(KnowledgeBlock(c) + "\n")
    case RuntimePolicy =>
      match json.parse(c.content)
      case None => None
      case Some(d) => Some(json.render(d) + "\n")
  }
}
