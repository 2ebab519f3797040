/** Bundles: files made from an area's legacy file and its fragments, in the order of their names. */
module Bundles {
  import opened Wrappers
  import opened Evolution
  import opened Sorting

  function Text(files: Files, p: Path): string {
    if p in files then files[p] else ""
  }

  function FragmentFiles(files: Files, area: Area): set<string> {
    set p | p in files.Keys && p.Fragment? && p.area == area :: p.file
  }

  function FragmentOrder(files: Files, area: Area): seq<string> {
    BeforeIsTotalOrder();
    Sorted(FragmentFiles(files, area), Before)
  }

  function FragmentTexts(files: Files, area: Area, names: seq<string>): seq<string> {
    if names == [] then []
    else [Text(files, Fragment(area, names[0]))] + FragmentTexts(files, area, names[1..])
  }

  function Sources(files: Files, area: Area): seq<string> {
    [Text(files, Legacy(area))] + FragmentTexts(files, area, FragmentOrder(files, area))
  }

  function MergedPolicy(json: Json, d: PolicyDocument, sources: seq<string>): Option<PolicyDocument>
    decreases |sources|
  {
    if sources == [] then Some(d)
    else if Trim(sources[0]) == "" then MergedPolicy(json, d, sources[1..])
    else
      match json.parse(sources[0])
      case None => None
      case Some(later) => MergedPolicy(json, Merge(d, later), sources[1..])
  }

  /** The bundle an area should have; an error where a policy does not parse. */
  function BundleOf(json: Json, files: Files, area: Area): Result<Option<string>, Error> {
    var sources := Sources(files, area);
    var text := Joined(TrimmedParts(sources), "\n\n");
    match area
    case Rules => Ok(if Trim(text) == "" then None else Some(Trim(text) + "\n"))
    case Knowledge => Ok(if Trim(text) == "" then None else Some(EnsureTrailingNewline(text)))
    case Policies =>
      match MergedPolicy(json, EMPTY_POLICY, sources)
      case None => Err(BadPolicy)
      case Some(d) => Ok(if d == EMPTY_POLICY then None else Some(json.render(d) + "\n"))
  }

  function AreaOf(kind: Kind): Option<Area> {
    match kind
    case PromptRule => Some(Rules)
    case Skill => None
    case CompiledKnowledge => Some(Knowledge)
    case RuntimePolicy => Some(Policies)
  }

  function Put(files: Files, p: Path, text: Option<string>): Files {
    if text.Some? then files[p := text.value] else files - {p}
  }

  /** The files after a refresh of one area. */
  function Refreshed(json: Json, files: Files, area: Area): Result<Files, Error> {
    match BundleOf(json, files, area)
    case Err(e) => Err(e)
    case Ok(text) => Ok(Put(files, Bundle(area), text))
  }

  function RefreshedFor(json: Json, files: Files, kind: Kind): Result<Files, Error> {
    match AreaOf(kind)
    case None => Ok(files)
    case Some(area) => Refreshed(json, files, area)
  }

  /** The bundle of an area is what its sources make, as far as they make one. */
  predicate Agrees(json: Json, files: Files, area: Area) {
    match BundleOf(json, files, area)
    case Err(_) => true
    case Ok(text) => Lookup(files, Bundle(area)) == text
  }

  // ----- What a bundle depends on -----

  predicate IsSource(p: Path, area: Area) {
    p == Legacy(area) || (p.Fragment? && p.area == area)
  }

  ghost predicate SameSources(a: Files, b: Files, area: Area) {
    forall p :: IsSource(p, area) ==> Lookup(a, p) == Lookup(b, p)
  }

  lemma {:induction false} FragmentTextsSame(a: Files, b: Files, area: Area, names: seq<string>)
    requires SameSources(a, b, area)
    ensures FragmentTexts(a, area, names) == FragmentTexts(b, area, names)
  {
    if names != [] {
      FragmentTextsSame(a, b, area, names[1..]);
      assert IsSource(Fragment(area, names[0]), area);
    }
  }

  lemma SameSourcesSameBundle(json: Json, a: Files, b: Files, area: Area)
    requires SameSources(a, b, area)
    ensures Sources(a, area) == Sources(b, area)
    ensures BundleOf(json, a, area) == BundleOf(json, b, area)
  {
    assert FragmentFiles(a, area) == FragmentFiles(b, area) by {
      forall f
        ensures f in FragmentFiles(a, area) <==> Fragment(area, f) in a
        ensures f in FragmentFiles(b, area) <==> Fragment(area, f) in b
        ensures Fragment(area, f) in a <==> Fragment(area, f) in b
      {
        assert IsSource(Fragment(area, f), area);
        assert Lookup(a, Fragment(area, f)) == Lookup(b, Fragment(area, f));
      }
    }
    FragmentTextsSame(a, b, area, FragmentOrder(a, area));
    assert IsSource(Legacy(area), area);
  }

  /** After a refresh the area's bundle agrees with its sources, and the other areas keep theirs. */
  lemma RefreshAgrees(json: Json, files: Files, area: Area, other: Area)
    requires Refreshed(json, files, area).Ok?
    ensures var after := Refreshed(json, files, area).value;
            && Agrees(json, after, area)
            && (Agrees(json, files, other) ==> Agrees(json, after, other))
            && forall p :: p != Bundle(area) ==> Lookup(after, p) == Lookup(files, p)
  {
    hide *;
    var after := Refreshed(json, files, area).value;
    RefreshedIs(json, files, area);
    SourcesKept(files, after, area, area);
    SourcesKept(files, after, area, other);
    SameSourcesSameBundle(json, files, after, area);
    SameSourcesSameBundle(json, files, after, other);
    AgreesIs(json, after, area);
    AgreesIs(json, files, other);
    AgreesIs(json, after, other);
  }

  lemma RefreshedIs(json: Json, files: Files, area: Area)
    requires Refreshed(json, files, area).Ok?
    ensures var after := Refreshed(json, files, area).value;
            && BundleOf(json, files, area) == Ok(Lookup(after, Bundle(area)))
            && forall p :: p != Bundle(area) ==> Lookup(after, p) == Lookup(files, p)
  {
    hide BundleOf;
  }

  lemma SourcesKept(files: Files, after: Files, area: Area, other: Area)
    requires forall p :: p != Bundle(area) ==> Lookup(after, p) == Lookup(files, p)
    ensures SameSources(files, after, other)
  {
  }

  lemma AgreesIs(json: Json, files: Files, area: Area)
    ensures Agrees(json, files, area) <==>
            BundleOf(json, files, area).Err? || BundleOf(json, files, area).value == Lookup(files, Bundle(area))
  {
    hide BundleOf;
  }

  /** Changing a file that is no source of an area, nor its bundle, leaves the area alone. */
  lemma ElsewhereAgrees(json: Json, a: Files, b: Files, area: Area)
    requires forall p :: IsSource(p, area) || p == Bundle(area) ==> Lookup(a, p) == Lookup(b, p)
    ensures Agrees(json, a, area) <==> Agrees(json, b, area)
  {
    SameSourcesSameBundle(json, a, b, area);
  }

  /** Fragments come in strictly increasing order of their names, each of them once. */
  lemma FragmentsInOrder(files: Files, area: Area, i: nat, j: nat)
    requires i < j < |FragmentOrder(files, area)|
    ensures Before(FragmentOrder(files, area)[i], FragmentOrder(files, area)[j])
    ensures FragmentOrder(files, area)[i] != FragmentOrder(files, area)[j]
    ensures forall f :: f in FragmentOrder(files, area) <==> Fragment(area, f) in files
  {
    BeforeIsTotalOrder();
    SortedInOrder(FragmentFiles(files, area), Before, i, j);
    forall f
      ensures f in FragmentFiles(files, area) <==> Fragment(area, f) in files
    {
      if Fragment(area, f) in files {
        assert Fragment(area, f) in files.Keys;
      }
    }
  }

  // ----- Policies -----

  predicate Parses(json: Json, text: string) {
    Trim(text) == "" || json.parse(text).Some?
  }

  /** Every policy file of the workspace is blank or parses. */
  ghost predicate PoliciesParse(json: Json, files: Files) {
    forall p :: p in files && IsSource(p, Policies) ==> Parses(json, files[p])
  }

  lemma {:induction false} MergeParses(json: Json, d: PolicyDocument, sources: seq<string>)
    ensures MergedPolicy(json, d, sources).Some? <==>
            forall i :: 0 <= i < |sources| ==> Parses(json, sources[i])
    decreases |sources|
  {
    if sources != [] {
      assert forall i :: 0 <= i < |sources[1..]| ==> sources[1..][i] == sources[i + 1];
      if Trim(sources[0]) == "" {
        MergeParses(json, d, sources[1..]);
      } else if json.parse(sources[0]).Some? {
        MergeParses(json, Merge(d, json.parse(sources[0]).value), sources[1..]);
      }
      if MergedPolicy(json, d, sources).Some? {
        forall i | 0 <= i < |sources|
          ensures Parses(json, sources[i])
        {
          if i > 0 {
            assert sources[i] == sources[1..][i - 1];
          }
        }
      }
    }
  }

  lemma {:induction false} FragmentTextsAre(files: Files, area: Area, names: seq<string>, i: nat)
    requires i < |names|
    ensures |FragmentTexts(files, area, names)| == |names|
    ensures FragmentTexts(files, area, names)[i] == Text(files, Fragment(area, names[i]))
  {
    if i > 0 {
      FragmentTextsAre(files, area, names[1..], i - 1);
    } else if |names| > 1 {
      FragmentTextsAre(files, area, names[1..], 0);
    }
  }

  lemma {:induction false} FragmentTextsCount(files: Files, area: Area, names: seq<string>)
    ensures |FragmentTexts(files, area, names)| == |names|
  {
    if names != [] {
      FragmentTextsCount(files, area, names[1..]);
    }
  }

  lemma SourceParses(json: Json, files: Files, p: Path)
    requires IsSource(p, Policies)
    requires forall i :: 0 <= i < |Sources(files, Policies)| ==> Parses(json, Sources(files, Policies)[i])
    ensures Parses(json, Text(files, p))
  {
    var names := FragmentOrder(files, Policies);
    var texts := FragmentTexts(files, Policies, names);
    FragmentTextsCount(files, Policies, names);
    assert Sources(files, Policies) == [Text(files, Legacy(Policies))] + texts;
    if p == Legacy(Policies) {
      assert Sources(files, Policies)[0] == Text(files, p);
    } else if p in files {
      assert p in files.Keys;
      assert p.file in FragmentFiles(files, Policies);
      var i :| 0 <= i < |names| && names[i] == p.file;
      FragmentTextsAre(files, Policies, names, i);
      assert Sources(files, Policies)[i + 1] == texts[i];
    }
  }

  /** A refresh of the policies succeeds exactly when every policy file is blank or parses. */
  lemma PolicyRefreshExactly(json: Json, files: Files)
    ensures BundleOf(json, files, Policies).Ok? <==> PoliciesParse(json, files)
  {
    var names := FragmentOrder(files, Policies);
    var texts := FragmentTexts(files, Policies, names);
    var sources := Sources(files, Policies);
    FragmentTextsCount(files, Policies, names);
    MergeParses(json, EMPTY_POLICY, sources);
    if MergedPolicy(json, EMPTY_POLICY, sources).Some? {
      forall p | p in files && IsSource(p, Policies)
        ensures Parses(json, files[p])
      {
        SourceParses(json, files, p);
      }
    }
    if PoliciesParse(json, files) {
      forall i | 0 <= i < |sources|
        ensures Parses(json, sources[i])
      {
        if i > 0 {
          FragmentTextsAre(files, Policies, names, i - 1);
          assert sources[i] == texts[i - 1];
          assert names[i - 1] in FragmentFiles(files, Policies);
        }
      }
    }
  }

  /** The value a field of the merged policy gets: the last one set, in the order of the sources. */
  function LastSet<T>(json: Json, field: PolicyDocument -> Option<T>, d: Option<T>, sources: seq<string>): Option<T>
    decreases |sources|
  {
    if sources == [] then d
    else
      var last := sources[|sources| - 1];
      var parsed := if Trim(last) == "" then None else json.parse(last);
      if parsed.Some? && field(parsed.value).Some? then field(parsed.value)
      else LastSet(json, field, d, sources[..|sources| - 1])
  }

  lemma {:induction false} LastSetFirst<T>(json: Json, field: PolicyDocument -> Option<T>, d: Option<T>,
      sources: seq<string>)
    requires sources != []
    ensures LastSet(json, field, d, sources) ==
            var first := sources[0];
            var parsed := if Trim(first) == "" then None else json.parse(first);
            LastSet(json, field, if parsed.Some? then Or(field(parsed.value), d) else d, sources[1..])
    decreases |sources|
  {
    if |sources| > 1 {
      LastSetFirst(json, field, d, sources[..|sources| - 1]);
      assert sources[..|sources| - 1][1..] == sources[1..][..|sources| - 2];
      assert sources[1..][|sources| - 2] == sources[|sources| - 1];
    }
  }

  lemma {:induction false} MergedFieldIsLastSet<T>(
    json: Json, field: PolicyDocument -> Option<T>, d: PolicyDocument, sources: seq<string>)
    requires forall a, b :: field(Merge(a, b)) == Or(field(b), field(a))
    requires MergedPolicy(json, d, sources).Some?
    ensures field(MergedPolicy(json, d, sources).value) == LastSet(json, field, field(d), sources)
    decreases |sources|
  {
    hide Merge;
    if sources != [] {
      LastSetFirst(json, field, field(d), sources);
      if Trim(sources[0]) == "" {
        MergedFieldIsLastSet(json, field, d, sources[1..]);
      } else {
        MergedFieldIsLastSet(json, field, Merge(d, json.parse(sources[0]).value), sources[1..]);
      }
    }
  }
}
