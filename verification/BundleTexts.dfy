/** What bundles hold, in terms of the files they are made from. */
module BundleTexts {
  import opened Wrappers
  import opened Evolution
  import opened Sorting
  import opened Sequences
  import opened Bundles

  /** The legacy file comes first, then the fragments by their names. */
  predicate Ahead(p: Path, q: Path) {
    q.Fragment? && (p.Legacy? || (p.Fragment? && p.file != q.file && Before(p.file, q.file)))
  }

  predicate InOrder(paths: seq<Path>) {
    forall i, j :: 0 <= i < j < |paths| ==> Ahead(paths[i], paths[j])
  }

  /** The files of an area that hold some text, in order, each once. */
  ghost predicate Lists(files: Files, area: Area, paths: seq<Path>) {
    && InOrder(paths)
    && (forall i :: 0 <= i < |paths| ==>
          IsSource(paths[i], area) && paths[i] in files && !Blank(files[paths[i]]))
    && (forall p :: p in files && IsSource(p, area) && !Blank(files[p]) ==> p in paths)
  }

  ghost predicate AreTrimmed(files: Files, paths: seq<Path>, parts: seq<string>) {
    && |parts| == |paths|
    && forall i :: 0 <= i < |paths| ==> paths[i] in files && IsTrimOf(parts[i], files[paths[i]])
  }

  /** The bundle of rules or knowledge: their trimmed texts with a blank line between two neighbours and
      a newline at the end, or nothing where there is no text. */
  ghost predicate IsBundle(files: Files, area: Area, bundle: Option<string>) {
    exists paths, parts ::
      && Lists(files, area, paths) && AreTrimmed(files, paths, parts)
      && match bundle
         case None => paths == []
         case Some(text) =>
           && paths != [] && text != "" && text[|text| - 1] == '\n'
           && LaidOut(text[..|text| - 1], parts, "\n\n")
  }

  // ----- Which files there are -----

  function FragmentPaths(area: Area, names: seq<string>): (r: seq<Path>)
    ensures |r| == |names| && forall i :: 0 <= i < |r| ==> r[i] == Fragment(area, names[i])
  {
    seq(|names|, i requires 0 <= i < |names| => Fragment(area, names[i]))
  }

  function SourcePaths(files: Files, area: Area): seq<Path> {
    [Legacy(area)] + FragmentPaths(area, FragmentOrder(files, area))
  }

  function TextsOf(files: Files, paths: seq<Path>): (r: seq<string>)
    ensures |r| == |paths| && forall i :: 0 <= i < |r| ==> r[i] == Text(files, paths[i])
  {
    seq(|paths|, i requires 0 <= i < |paths| => Text(files, paths[i]))
  }

  lemma SourcesAre(files: Files, area: Area)
    ensures Sources(files, area) == TextsOf(files, SourcePaths(files, area))
  {
    var names := FragmentOrder(files, area);
    var texts := FragmentTexts(files, area, names);
    FragmentTextsCount(files, area, names);
    forall i | 0 <= i < |names|
      ensures texts[i] == Text(files, Fragment(area, names[i]))
    {
      FragmentTextsAre(files, area, names, i);
    }
    hide FragmentTexts;
    hide FragmentOrder;
  }

  lemma SourcePathsAre(files: Files, area: Area)
    ensures InOrder(SourcePaths(files, area))
    ensures forall p :: p in SourcePaths(files, area) ==> IsSource(p, area)
    ensures forall p :: p in files && IsSource(p, area) ==> p in SourcePaths(files, area)
  {
    var names, paths := FragmentOrder(files, area), SourcePaths(files, area);
    forall i, j | 0 <= i < j < |paths|
      ensures Ahead(paths[i], paths[j])
    {
      if i > 0 {
        FragmentsInOrder(files, area, i - 1, j - 1);
      }
    }
    forall p | p in files && IsSource(p, area)
      ensures p in paths
    {
      if p.Fragment? {
        assert p in files.Keys;
        assert p.file in names;
        var i :| 0 <= i < |names| && names[i] == p.file;
        assert paths[i + 1] == p;
      } else {
        assert paths[0] == p;
      }
    }
    hide FragmentOrder;
  }

  /** Those that hold some text. */
  function Filled(files: Files, paths: seq<Path>): (r: seq<Path>)
    ensures forall p :: p in r <==> p in paths && !Blank(Text(files, p))
  {
    if paths == [] then []
    else (if Blank(Text(files, paths[0])) then [] else [paths[0]]) + Filled(files, paths[1..])
  }

  lemma {:induction false} FilledInOrder(files: Files, paths: seq<Path>)
    requires InOrder(paths)
    ensures InOrder(Filled(files, paths))
  {
    if paths != [] {
      RestInOrder(paths);
      FilledInOrder(files, paths[1..]);
      var filled := Filled(files, paths[1..]);
      assert Filled(files, paths) == (if Blank(Text(files, paths[0])) then [] else [paths[0]]) + filled;
      hide *;
      FirstInOrder(paths[0], filled);
      assert [] + filled == filled;
    }
  }

  lemma RestInOrder(paths: seq<Path>)
    requires paths != [] && InOrder(paths)
    ensures InOrder(paths[1..]) && forall p :: p in paths[1..] ==> Ahead(paths[0], p)
  {
    hide Ahead;
    var rest := paths[1..];
    assert forall i :: 0 <= i < |rest| ==> rest[i] == paths[i + 1];
  }

  lemma FirstInOrder(p: Path, rest: seq<Path>)
    requires InOrder(rest) && forall q :: q in rest ==> Ahead(p, q)
    ensures InOrder([p] + rest)
  {
    hide Ahead;
  }

  lemma FilledLists(files: Files, area: Area)
    ensures Lists(files, area, Filled(files, SourcePaths(files, area)))
  {
    var paths := SourcePaths(files, area);
    SourcePathsAre(files, area);
    FilledInOrder(files, paths);
    hide SourcePaths;
    hide Filled;
    hide InOrder;
    forall p | p in Filled(files, paths)
      ensures IsSource(p, area) && p in files && !Blank(files[p])
    {
      assert Text(files, p) != "";
    }
  }

  lemma {:induction false} PartsAre(files: Files, paths: seq<Path>)
    ensures var parts, filled := TrimmedParts(TextsOf(files, paths)), Filled(files, paths);
            && |parts| == |filled|
            && forall i :: 0 <= i < |parts| ==> filled[i] in files && IsTrimOf(parts[i], files[filled[i]])
  {
    if paths != [] {
      PartsAre(files, paths[1..]);
      assert TextsOf(files, paths)[1..] == TextsOf(files, paths[1..]);
      TrimIs(Text(files, paths[0]));
    }
    hide Trim;
    hide Blank;
    hide IsTrimOf;
  }

  // ----- The text of a bundle -----

  lemma {:induction false} JoinedIsLaidOut(parts: seq<string>, separator: string)
    ensures LaidOut(Joined(parts, separator), parts, separator)
  {
    if |parts| == 1 {
      LaidOutOne(parts[0], separator);
      assert parts == [parts[0]];
    } else if parts != [] {
      JoinedIsLaidOut(parts[1..], separator);
      LaidOutFirst(parts, Joined(parts[1..], separator), separator);
    }
  }

  predicate IsTrimmed(s: string) {
    s != "" && Trim(s) == s
  }

  lemma TrimmedEnds(s: string)
    requires s != "" && !Unicode.IsWhitespace(s[0]) && !Unicode.IsWhitespace(s[|s| - 1])
    ensures IsTrimmed(s)
  {
    TrimIs(s);
    assert OccursAt(s, s, 0) && s[..0] == "" && s[|s|..] == "";
    assert IsTrimOf(s, s);
    hide Trim;
    TrimIsUnique(Trim(s), s, s);
  }

  /** Trimmed parts make a trimmed text. */
  lemma LaidOutIsTrimmed(text: string, parts: seq<string>, separator: string)
    requires parts != [] && LaidOut(text, parts, separator)
    requires forall i :: 0 <= i < |parts| ==>
               parts[i] != "" && !Unicode.IsWhitespace(parts[i][0]) && !Unicode.IsWhitespace(parts[i][|parts[i]| - 1])
    ensures IsTrimmed(text) && text[|text| - 1] != '\n'
  {
    hide IsTrimmed;
    var starts :| StandAt(text, parts, separator, starts);
    var last := |parts| - 1;
    StandAtParts(text, parts, separator, starts, 0);
    StandAtParts(text, parts, separator, starts, last);
    hide StandAt;
    hide LaidOut;
    assert text[0] == text[0..|parts[0]|][0] == parts[0][0];
    var n := starts[last];
    assert text[|text| - 1] == text[n..n + |parts[last]|][|parts[last]| - 1] == parts[last][|parts[last]| - 1];
    TrimmedEnds(text);
  }

  lemma PartsEnds(files: Files, paths: seq<Path>, parts: seq<string>)
    requires AreTrimmed(files, paths, parts)
    ensures forall i :: 0 <= i < |parts| ==>
              parts[i] != "" && !Unicode.IsWhitespace(parts[i][0]) && !Unicode.IsWhitespace(parts[i][|parts[i]| - 1])
  {
    hide Blank;
    hide OccursAt;
    hide Unicode.IsWhitespace;
  }

  lemma MadeText(json: Json, files: Files, area: Area)
    requires area != Policies
    ensures var text := Joined(TrimmedParts(Sources(files, area)), "\n\n");
            && BundleOf(json, files, area).Ok?
            && (IsTrimmed(text) && text[|text| - 1] != '\n' ==> BundleOf(json, files, area).value == Some(text + "\n"))
            && (text == "" ==> BundleOf(json, files, area).value == None)
  {
    hide Sources;
    hide TrimmedParts;
    hide Joined;
  }

  /** The rules and knowledge bundles are made from their sources as they should. */
  lemma BundleOfIsBundle(json: Json, files: Files, area: Area)
    requires area != Policies
    ensures BundleOf(json, files, area).Ok? && IsBundle(files, area, BundleOf(json, files, area).value)
  {
    var paths := Filled(files, SourcePaths(files, area));
    var parts := TrimmedParts(Sources(files, area));
    var text := Joined(parts, "\n\n");
    hide *;
    SourcesAre(files, area);
    FilledLists(files, area);
    PartsAre(files, SourcePaths(files, area));
    TrimmedAre(files, paths, parts);
    JoinedIsLaidOut(parts, "\n\n");
    MadeText(json, files, area);
    PartsEnds(files, paths, parts);
    if parts == [] {
      LaidOutNothing(text, parts);
      BundleIs(files, area, None, paths, parts);
    } else {
      LaidOutIsTrimmed(text, parts, "\n\n");
      assert (text + "\n")[..|text + "\n"| - 1] == text;
      BundleIs(files, area, Some(text + "\n"), paths, parts);
    }
  }

  lemma LaidOutNothing(text: string, parts: seq<string>)
    requires parts == [] && LaidOut(text, parts, "\n\n")
    ensures text == ""
  {
  }

  lemma TrimmedAre(files: Files, paths: seq<Path>, parts: seq<string>)
    requires |parts| == |paths|
    requires forall i :: 0 <= i < |paths| ==> paths[i] in files && IsTrimOf(parts[i], files[paths[i]])
    ensures AreTrimmed(files, paths, parts)
  {
    hide IsTrimOf;
  }

  lemma BundleIs(files: Files, area: Area, bundle: Option<string>, paths: seq<Path>, parts: seq<string>)
    requires Lists(files, area, paths) && AreTrimmed(files, paths, parts)
    requires match bundle
             case None => paths == []
             case Some(text) =>
               && paths != [] && text != "" && text[|text| - 1] == '\n'
               && LaidOut(text[..|text| - 1], parts, "\n\n")
    ensures IsBundle(files, area, bundle)
  {
    hide Lists;
    hide AreTrimmed;
    hide LaidOut;
  }

  // ----- Only one bundle is right -----

  lemma AheadOneWay(p: Path, q: Path)
    requires Ahead(p, q)
    ensures !Ahead(q, p)
  {
    if p.Fragment? {
      BeforeAntisymmetric(p.file, q.file);
    }
    hide Before;
  }

  lemma {:induction false} InOrderUnique(a: seq<Path>, b: seq<Path>)
    requires InOrder(a) && InOrder(b) && forall p :: p in a <==> p in b
    ensures a == b
    decreases |a|
  {
    hide Ahead;
    if a == [] {
      assert forall i :: 0 <= i < |b| ==> b[i] in b;
    } else {
      assert a[0] in b && b[0] in b && b[0] in a;
      var i :| 0 <= i < |b| && b[i] == a[0];
      var j :| 0 <= j < |a| && a[j] == b[0];
      if i > 0 && j > 0 {
        AheadOneWay(a[0], a[j]);
      }
      assert a[0] == b[0];
      forall p
        ensures p in a[1..] <==> p in b[1..]
      {
        OthersIn(a, p);
        OthersIn(b, p);
      }
      InOrderUnique(a[1..], b[1..]);
    }
  }

  lemma OthersIn(a: seq<Path>, p: Path)
    requires a != [] && InOrder(a)
    ensures p in a[1..] <==> p in a && p != a[0]
  {
    if p in a && p != a[0] {
      var i :| 0 <= i < |a| && a[i] == p;
      assert a[1..][i - 1] == p;
    }
    if p in a[1..] {
      var i :| 0 <= i < |a[1..]| && a[1..][i] == p;
      assert Ahead(a[0], a[i + 1]);
      if p == a[0] {
        AheadOneWay(p, p);
      }
    }
    hide Ahead;
  }

  lemma ListsUnique(files: Files, area: Area, a: seq<Path>, b: seq<Path>)
    requires Lists(files, area, a) && Lists(files, area, b)
    ensures a == b
  {
    hide Ahead;
    hide Blank;
    forall p
      ensures p in a <==> p in b
    {
    }
    InOrderUnique(a, b);
  }

  lemma PartsUnique(files: Files, paths: seq<Path>, a: seq<string>, b: seq<string>)
    requires AreTrimmed(files, paths, a) && AreTrimmed(files, paths, b)
    ensures a == b
  {
    hide IsTrimOf;
    forall i | 0 <= i < |a|
      ensures a[i] == b[i]
    {
      TrimIsUnique(a[i], b[i], files[paths[i]]);
    }
  }

  lemma BundleUnique(files: Files, area: Area, a: Option<string>, b: Option<string>)
    requires IsBundle(files, area, a) && IsBundle(files, area, b)
    ensures a == b
  {
    hide Lists;
    hide AreTrimmed;
    hide LaidOut;
    var p, x :|
      && Lists(files, area, p) && AreTrimmed(files, p, x)
      && match a
         case None => p == []
         case Some(text) =>
           p != [] && text != "" && text[|text| - 1] == '\n' && LaidOut(text[..|text| - 1], x, "\n\n");
    var q, y :|
      && Lists(files, area, q) && AreTrimmed(files, q, y)
      && match b
         case None => q == []
         case Some(text) =>
           q != [] && text != "" && text[|text| - 1] == '\n' && LaidOut(text[..|text| - 1], y, "\n\n");
    ListsUnique(files, area, p, q);
    PartsUnique(files, p, x, y);
    if p != [] {
      var s, t := a.value, b.value;
      LaidOutUnique(s[..|s| - 1], t[..|t| - 1], x, "\n\n");
      assert s == s[..|s| - 1] + "\n" && t == t[..|t| - 1] + "\n";
    }
  }

  /** A bundle of rules or knowledge agrees with its sources exactly when it is the one it should be. */
  lemma AgreesExactly(json: Json, files: Files, area: Area)
    requires area != Policies
    ensures Agrees(json, files, area) <==> IsBundle(files, area, Lookup(files, Bundle(area)))
  {
    BundleOfIsBundle(json, files, area);
    var made := BundleOf(json, files, area).value;
    hide BundleOf;
    hide IsBundle;
    if IsBundle(files, area, Lookup(files, Bundle(area))) {
      BundleUnique(files, area, made, Lookup(files, Bundle(area)));
    }
  }

  /** A refresh of rules or knowledge goes through, and leaves that bundle there. */
  lemma RefreshIsBundle(json: Json, files: Files, area: Area)
    requires area != Policies
    ensures Refreshed(json, files, area).Ok?
    ensures var after := Refreshed(json, files, area).value;
            && IsBundle(files, area, Lookup(after, Bundle(area)))
            && forall p :: p != Bundle(area) ==> Lookup(after, p) == Lookup(files, p)
  {
    BundleOfIsBundle(json, files, area);
    assert Refreshed(json, files, area).Ok? by {
      hide BundleOf;
      hide IsBundle;
    }
    RefreshedIs(json, files, area);
    hide BundleOf;
    hide IsBundle;
    hide Refreshed;
  }

  // ----- Policies -----

  /** The last document that sets the field decides it. */
  predicate LastOf<T(==)>(docs: seq<PolicyDocument>, field: PolicyDocument -> Option<T>, v: Option<T>) {
    if v.None? then forall i :: 0 <= i < |docs| ==> field(docs[i]).None?
    else
      exists i :: 0 <= i < |docs| && field(docs[i]) == v && forall j :: i < j < |docs| ==> field(docs[j]).None?
  }

  /** All seven fields of a merged policy. */
  predicate IsMerged(docs: seq<PolicyDocument>, d: PolicyDocument) {
    && LastOf(docs, (x: PolicyDocument) => x.enabled, d.enabled)
    && LastOf(docs, (x: PolicyDocument) => x.minEvidence, d.minEvidence)
    && LastOf(docs, (x: PolicyDocument) => x.minScore, d.minScore)
    && LastOf(docs, (x: PolicyDocument) => x.canaryObservations, d.canaryObservations)
    && LastOf(docs, (x: PolicyDocument) => x.canaryTtlHours, d.canaryTtlHours)
    && LastOf(docs, (x: PolicyDocument) => x.maxAutoRisk, d.maxAutoRisk)
    && LastOf(docs, (x: PolicyDocument) => x.maxDirectPromoteRisk, d.maxDirectPromoteRisk)
  }

  ghost predicate AreParsed(json: Json, files: Files, paths: seq<Path>, docs: seq<PolicyDocument>) {
    && |docs| == |paths|
    && forall i :: 0 <= i < |paths| ==> paths[i] in files && json.parse(files[paths[i]]) == Some(docs[i])
  }

  /** The policy bundle: the merged document, or nothing where it sets no field. */
  ghost predicate IsPolicyBundle(json: Json, files: Files, bundle: Option<string>) {
    exists paths, docs, d ::
      && Lists(files, Policies, paths) && AreParsed(json, files, paths, docs) && IsMerged(docs, d)
      && bundle == if d == PolicyDocument(None, None, None, None, None, None, None) then None
                   else Some(json.render(d) + "\n")
  }

  function Documents(json: Json, texts: seq<string>): seq<PolicyDocument> {
    if texts == [] then []
    else
      var d := if Trim(texts[0]) == "" then None else json.parse(texts[0]);
      (if d.Some? then [d.value] else []) + Documents(json, texts[1..])
  }

  lemma {:induction false} DocumentsAre(json: Json, files: Files, paths: seq<Path>, d: PolicyDocument)
    requires MergedPolicy(json, d, TextsOf(files, paths)).Some?
    ensures AreParsed(json, files, Filled(files, paths), Documents(json, TextsOf(files, paths)))
    decreases |paths|
  {
    if paths != [] {
      var text, later := Text(files, paths[0]), paths[1..];
      TrimIs(text);
      assert TextsOf(files, paths)[1..] == TextsOf(files, later);
      hide Merge;
      hide Filled;
      hide Documents;
      hide AreParsed;
      DocumentsAre(json, files, later, if Trim(text) == "" then d else Merge(d, json.parse(text).value));
      FirstParsed(json, files, paths, later);
    }
  }

  lemma FirstParsed(json: Json, files: Files, paths: seq<Path>, later: seq<Path>)
    requires paths != [] && later == paths[1..]
    requires AreParsed(json, files, Filled(files, later), Documents(json, TextsOf(files, later)))
    requires var text := Text(files, paths[0]);
             (Trim(text) == "" <==> Blank(text)) && (Trim(text) != "" ==> json.parse(text).Some?)
    ensures AreParsed(json, files, Filled(files, paths), Documents(json, TextsOf(files, paths)))
  {
    var text := Text(files, paths[0]);
    var filled, docs := Filled(files, later), Documents(json, TextsOf(files, later));
    assert TextsOf(files, paths)[1..] == TextsOf(files, later);
    if Trim(text) == "" {
      assert Filled(files, paths) == [] + filled && Documents(json, TextsOf(files, paths)) == [] + docs;
      hide *;
      assert [] + filled == filled && [] + docs == docs;
    } else {
      var doc := json.parse(text).value;
      assert Filled(files, paths) == [paths[0]] + filled;
      assert Documents(json, TextsOf(files, paths)) == [doc] + docs;
      assert text != "";
      assert paths[0] in files && files[paths[0]] == text;
      hide *;
      FirstParsedToo(json, files, paths[0], doc, filled, docs);
    }
  }

  lemma FirstParsedToo(
    json: Json, files: Files, p: Path, d: PolicyDocument, paths: seq<Path>, docs: seq<PolicyDocument>)
    requires AreParsed(json, files, paths, docs) && p in files && json.parse(files[p]) == Some(d)
    ensures AreParsed(json, files, [p] + paths, [d] + docs)
  {
  }

  lemma {:induction false} DocumentsSnoc(json: Json, texts: seq<string>)
    requires texts != []
    ensures var n := |texts| - 1;
            var d := if Trim(texts[n]) == "" then None else json.parse(texts[n]);
            Documents(json, texts) == Documents(json, texts[..n]) + if d.Some? then [d.value] else []
  {
    var n := |texts| - 1;
    hide Trim;
    if n > 0 {
      DocumentsSnoc(json, texts[1..]);
      assert texts[1..][..n - 1] == texts[..n][1..] && texts[1..][n - 1] == texts[n];
    }
  }

  lemma {:induction false} LastSetIsLastOf<T>(json: Json, field: PolicyDocument -> Option<T>, texts: seq<string>)
    ensures LastOf(Documents(json, texts), field, LastSet(json, field, None, texts))
  {
    if texts != [] {
      var n := |texts| - 1;
      LastSetIsLastOf(json, field, texts[..n]);
      DocumentsSnoc(json, texts);
      var d := if Trim(texts[n]) == "" then None else json.parse(texts[n]);
      hide Trim;
      hide Documents;
      LastOfSnoc(Documents(json, texts[..n]), field, LastSet(json, field, None, texts[..n]), d);
    }
  }

  lemma LastOfSnoc<T>(
    docs: seq<PolicyDocument>, field: PolicyDocument -> Option<T>, v: Option<T>, d: Option<PolicyDocument>)
    requires LastOf(docs, field, v)
    ensures LastOf(docs + (if d.Some? then [d.value] else []), field,
                   if d.Some? && field(d.value).Some? then field(d.value) else v)
  {
    var all := docs + (if d.Some? then [d.value] else []);
    if d.Some? && field(d.value).Some? {
      assert all[|docs|] == d.value;
    } else if v.Some? {
      var i :| 0 <= i < |docs| && field(docs[i]) == v && forall j :: i < j < |docs| ==> field(docs[j]).None?;
      assert all[i] == docs[i];
    }
  }

  /** Each field of the merged policy is the last one set, in the order of the sources. */
  lemma MergedIs(json: Json, texts: seq<string>)
    requires MergedPolicy(json, EMPTY_POLICY, texts).Some?
    ensures IsMerged(Documents(json, texts), MergedPolicy(json, EMPTY_POLICY, texts).value)
  {
    FieldIs(json, (x: PolicyDocument) => x.enabled, texts);
    FieldIs(json, (x: PolicyDocument) => x.minEvidence, texts);
    FieldIs(json, (x: PolicyDocument) => x.minScore, texts);
    FieldIs(json, (x: PolicyDocument) => x.canaryObservations, texts);
    FieldIs(json, (x: PolicyDocument) => x.canaryTtlHours, texts);
    FieldIs(json, (x: PolicyDocument) => x.maxAutoRisk, texts);
    FieldIs(json, (x: PolicyDocument) => x.maxDirectPromoteRisk, texts);
    hide LastOf;
    hide Documents;
    hide MergedPolicy;
  }

  lemma FieldIs<T>(json: Json, field: PolicyDocument -> Option<T>, texts: seq<string>)
    requires forall a, b :: field(Merge(a, b)) == Or(field(b), field(a))
    requires MergedPolicy(json, EMPTY_POLICY, texts).Some? && field(EMPTY_POLICY) == None
    ensures LastOf(Documents(json, texts), field, field(MergedPolicy(json, EMPTY_POLICY, texts).value))
  {
    MergedFieldIsLastSet(json, field, EMPTY_POLICY, texts);
    LastSetIsLastOf(json, field, texts);
    hide Merge;
    hide LastOf;
    hide Documents;
    hide MergedPolicy;
  }

  /** Where every policy file is blank or parses, the policy bundle is made as it should. */
  lemma BundleOfIsPolicyBundle(json: Json, files: Files)
    requires BundleOf(json, files, Policies).Ok?
    ensures IsPolicyBundle(json, files, BundleOf(json, files, Policies).value)
  {
    var paths := SourcePaths(files, Policies);
    var filled, texts := Filled(files, paths), Sources(files, Policies);
    PolicyBundleOf(json, files);
    hide *;
    SourcesAre(files, Policies);
    DocumentsAre(json, files, paths, EMPTY_POLICY);
    MergedIs(json, texts);
    FilledLists(files, Policies);
    EmptyIs();
    PolicyBundleIs(
      json, files, BundleOf(json, files, Policies).value, filled, Documents(json, texts),
      MergedPolicy(json, EMPTY_POLICY, texts).value);
  }

  lemma EmptyIs()
    ensures EMPTY_POLICY == PolicyDocument(None, None, None, None, None, None, None)
  {
  }

  lemma PolicyBundleOf(json: Json, files: Files)
    requires BundleOf(json, files, Policies).Ok?
    ensures MergedPolicy(json, EMPTY_POLICY, Sources(files, Policies)).Some?
    ensures var d := MergedPolicy(json, EMPTY_POLICY, Sources(files, Policies)).value;
            BundleOf(json, files, Policies).value == if d == EMPTY_POLICY then None else Some(json.render(d) + "\n")
  {
    hide MergedPolicy;
    hide Sources;
  }

  lemma PolicyBundleIs(
    json: Json, files: Files, bundle: Option<string>, paths: seq<Path>, docs: seq<PolicyDocument>, d: PolicyDocument)
    requires Lists(files, Policies, paths) && AreParsed(json, files, paths, docs) && IsMerged(docs, d)
    requires bundle == if d == PolicyDocument(None, None, None, None, None, None, None) then None
                       else Some(json.render(d) + "\n")
    ensures IsPolicyBundle(json, files, bundle)
  {
    hide Lists;
    hide AreParsed;
    hide IsMerged;
  }
}
