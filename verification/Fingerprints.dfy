/** When two candidates pass for the same, and how risks compare. */
module Fingerprints {
  import opened Wrappers
  import opened Evolution

  predicate OneLine(s: string) {
    forall i :: 0 <= i < |s| ==> s[i] != '\n'
  }

  lemma {:induction false} FirstLinesAgree(a: string, b: string, x: string, y: string)
    requires OneLine(a) && OneLine(b)
    ensures a + "\n" + x == b + "\n" + y <==> a == b && x == y
  {
    var s, t := a + "\n" + x, b + "\n" + y;
    if s == t {
      assert s[|a|] == '\n' && t[|b|] == '\n';
      assert forall i :: 0 <= i < |a| ==> s[i] == a[i];
      assert forall i :: 0 <= i < |b| ==> t[i] == b[i];
      assert |a| == |b|;
      assert a == s[..|a|] && b == t[..|b|];
      assert x == s[|a| + 1..] && y == t[|b| + 1..];
    }
  }

  lemma KindsDiffer(a: Kind, b: Kind)
    ensures OneLine(KindName(a)) && (KindName(a) == KindName(b) <==> a == b)
  {
    assert KindName(PromptRule)[1] == 'r' && KindName(Skill)[1] == 'k';
    assert KindName(CompiledKnowledge)[1] == 'o' && KindName(RuntimePolicy)[1] == 'u';
  }

  /** Names are single lines. Then candidates have the same fingerprint exactly when their kinds, names
      and trimmed texts, one after the other, are the same. */
  lemma FingerprintsAgree(
    k: Kind, title: string, content: string, name: Option<string>,
    k': Kind, title': string, content': string, name': Option<string>)
    requires OneLine(NameOr(name)) && OneLine(NameOr(name'))
    ensures Fingerprint(k, title, content, name) == Fingerprint(k', title', content', name') <==>
            && k == k' && (if name.Some? then name.value else "") == (if name'.Some? then name'.value else "")
            && Trim(title) + "\n" + Trim(content) == Trim(title') + "\n" + Trim(content')
  {
    hide Trim;
    var x, y := Trim(title) + "\n" + Trim(content), Trim(title') + "\n" + Trim(content');
    KindsDiffer(k, k');
    KindsDiffer(k', k);
    FirstLinesAgree(NameOr(name), NameOr(name'), x, y);
    FirstLinesAgree(KindName(k), KindName(k'), NameOr(name) + "\n" + x, NameOr(name') + "\n" + y);
    Regroup(KindName(k), NameOr(name), Trim(title), Trim(content));
    Regroup(KindName(k'), NameOr(name'), Trim(title'), Trim(content'));
    hide OneLine;
    hide KindName;
  }

  lemma Regroup(a: string, b: string, c: string, d: string)
    ensures a + "\n" + b + "\n" + c + "\n" + d == a + "\n" + (b + "\n" + (c + "\n" + d))
  {
  }

  /** So titles of one line, and contents, are told apart up to the whitespace around them. */
  lemma SameTexts(
    k: Kind, title: string, content: string, title': string, content': string, name: Option<string>)
    requires OneLine(NameOr(name)) && OneLine(Trim(title)) && OneLine(Trim(title'))
    ensures Fingerprint(k, title, content, name) == Fingerprint(k, title', content', name) <==>
            Trim(title) == Trim(title') && Trim(content) == Trim(content')
  {
    FingerprintsAgree(k, title, content, name, k, title', content', name);
    FirstLinesAgree(Trim(title), Trim(title'), Trim(content), Trim(content'));
    hide Fingerprint;
    hide Trim;
    hide OneLine;
  }

  /** Where a title goes over two lines this fails: its second line may as well begin the content. */
  lemma LongTitlesCollide(k: Kind, name: Option<string>)
    ensures Fingerprint(k, "a\nb", "c", name) == Fingerprint(k, "a", "b\nc", name)
  {
    AlreadyTrimmed("a\nb");
    AlreadyTrimmed("a");
    AlreadyTrimmed("b\nc");
    AlreadyTrimmed("c");
    hide Trim;
    hide KindName;
    var head := KindName(k) + "\n" + NameOr(name) + "\n";
    assert "a\nb" + "\n" + "c" == "a" + "\n" + "b\nc";
    assert head + "a\nb" + "\n" + "c" == head + ("a\nb" + "\n" + "c");
    assert head + "a" + "\n" + "b\nc" == head + ("a" + "\n" + "b\nc");
  }

  lemma AlreadyTrimmed(s: string)
    requires s != "" && !Unicode.IsWhitespace(s[0]) && !Unicode.IsWhitespace(s[|s| - 1])
    ensures Trim(s) == s
  {
    TrimIs(s);
    assert OccursAt(s, s, 0) && s[..0] == "" && s[|s|..] == "";
    assert IsTrimOf(s, s);
    hide Trim;
    TrimIsUnique(Trim(s), s, s);
  }

  /** A limit admits the risks up to itself. */
  lemma RisksInOrder(risk: Risk, limit: Risk)
    ensures RiskAllows(risk, limit) <==> risk == Low || limit == High || (risk == Medium && limit == Medium)
  {
  }
}
