/** Code fences in a reply: the scanner that decides whether a text ends inside one, and a count of
    fences that does not depend on where the scanner stands. */
module Fences {
  import opened Wrappers
  import opened Unicode

  const FENCE := "```"

  predicate FenceAt(s: string, i: nat) {
    i + 3 <= |s| && s[i] == '`' && s[i + 1] == '`' && s[i + 2] == '`'
  }

  predicate EndsTag(c: char) {
    c == '\n' || c == '`'
  }

  /** Where the tag that starts at `i` ends. */
  function TagEnd(s: string, i: nat): (j: nat)
    requires i <= |s|
    ensures i <= j <= |s| && (j < |s| ==> EndsTag(s[j]))
    ensures forall k :: i <= k < j ==> !EndsTag(s[k])
    decreases |s| - i
  {
    if i == |s| || EndsTag(s[i]) then i else TagEnd(s, i + 1)
  }

  /** The tags of the fences met by a scan from `i`. */
  function Tags(s: string, i: nat): seq<string>
    requires i <= |s|
    decreases |s| - i
  {
    if |s| < i + 3 then []
    else if FenceAt(s, i) then [s[i + 3..TagEnd(s, i + 3)]] + Tags(s, TagEnd(s, i + 3))
    else Tags(s, i + 1)
  }

  function UnclosedTag(s: string): Option<string> {
    var tags := Tags(s, 0);
    if |tags| % 2 == 1 then Some(tags[|tags| - 1]) else None
  }

  /** Where the fences are that a scan from `from` meets: each is the first after the tag of the one
      before, which runs to the next newline or backtick. */
  predicate IsScan(s: string, from: nat, ps: seq<nat>)
    requires from <= |s|
    decreases |ps|
  {
    if ps == [] then forall i :: from <= i < |s| ==> !FenceAt(s, i)
    else
      && from <= ps[0] && FenceAt(s, ps[0]) && (forall i :: from <= i < ps[0] ==> !FenceAt(s, i))
      && IsScan(s, TagEnd(s, ps[0] + 3), ps[1..])
  }

  /** The tag of a fence. */
  predicate IsTagAt(s: string, p: nat, tag: string) {
    && p + 3 + |tag| <= |s| && s[p + 3..p + 3 + |tag|] == tag && CleanTag(tag)
    && (p + 3 + |tag| < |s| ==> s[p + 3 + |tag|] == '\n' || s[p + 3 + |tag|] == '`')
  }

  lemma TagAtIs(s: string, p: nat)
    requires FenceAt(s, p)
    ensures IsTagAt(s, p, s[p + 3..TagEnd(s, p + 3)])
  {
    var e := TagEnd(s, p + 3);
    assert forall k :: p + 3 <= k < e ==> s[p + 3..e][k - p - 3] == s[k];
  }

  lemma ScanSkips(s: string, from: nat, ps: seq<nat>)
    requires from < |s| && !FenceAt(s, from) && IsScan(s, from + 1, ps)
    ensures IsScan(s, from, ps)
  {
    hide FenceAt;
  }

  lemma ScanMeets(s: string, from: nat, ps: seq<nat>)
    requires FenceAt(s, from) && IsScan(s, TagEnd(s, from + 3), ps)
    ensures IsScan(s, from, [from] + ps)
  {
    hide TagEnd;
    assert ([from] + ps)[1..] == ps;
  }

  lemma {:induction false} ScanOf(s: string, from: nat) returns (ps: seq<nat>)
    requires from <= |s|
    ensures IsScan(s, from, ps) && |ps| == |Tags(s, from)|
    ensures forall k :: 0 <= k < |ps| ==> IsTagAt(s, ps[k], Tags(s, from)[k])
    decreases |s| - from
  {
    hide IsTagAt;
    if |s| < from + 3 {
      ps := [];
    } else if FenceAt(s, from) {
      hide IsScan;
      var rest := ScanOf(s, TagEnd(s, from + 3));
      ps := [from] + rest;
      ScanMeets(s, from, rest);
      TagAtIs(s, from);
    } else {
      hide IsScan;
      ps := ScanOf(s, from + 1);
      ScanSkips(s, from, ps);
    }
  }

  /** A text leaves open the fence it meets last, when it meets an odd number of them. */
  lemma UnclosedTagIsLast(s: string)
    ensures exists ps ::
              && IsScan(s, 0, ps) && (UnclosedTag(s).Some? <==> |ps| % 2 == 1)
              && (UnclosedTag(s).Some? ==> IsTagAt(s, ps[|ps| - 1], UnclosedTag(s).value))
  {
    var ps := ScanOf(s, 0);
    hide IsScan;
    hide IsTagAt;
    assert IsScan(s, 0, ps);
  }

  lemma {:induction false} ScanUnique(s: string, from: nat, ps: seq<nat>, qs: seq<nat>)
    requires from <= |s| && IsScan(s, from, ps) && IsScan(s, from, qs)
    ensures ps == qs
    decreases |ps|
  {
    hide TagEnd;
    if ps != [] && qs != [] {
      assert ps[0] == qs[0];
      ScanUnique(s, TagEnd(s, ps[0] + 3), ps[1..], qs[1..]);
    }
  }

  method UnclosedFenceTag(prefix: string) returns (r: Option<string>)
    ensures r == UnclosedTag(prefix)
  {
    var tags: seq<string> := [];
    var i := 0;
    while i + 3 <= |prefix|
      invariant i <= |prefix|
      invariant Tags(prefix, 0) == tags + Tags(prefix, i)
      decreases |prefix| - i
    {
      if FenceAt(prefix, i) {
        var j := i + 3;
        while j < |prefix| && prefix[j] != '\n' && prefix[j] != '`'
          invariant i + 3 <= j <= |prefix|
          invariant TagEnd(prefix, i + 3) == TagEnd(prefix, j)
        {
          j := j + 1;
        }
        assert tags + ([prefix[i + 3..j]] + Tags(prefix, j)) == (tags + [prefix[i + 3..j]]) + Tags(prefix, j);
        tags := tags + [prefix[i + 3..j]];
        i := j;
      } else {
        i := i + 1;
      }
    }
    assert tags + [] == tags;
    r := if |tags| % 2 == 1 then Some(tags[|tags| - 1]) else None;
  }

  // ----- Counting fences by runs of backticks -----

  /** Backticks at the end of `s` that do not complete a fence, when `p` precede it. */
  function Pending(s: string, p: nat): (r: nat)
    requires p < 3
    ensures r < 3
  {
    if s == "" then p
    else Pending(s[1..], if s[0] != '`' || p == 2 then 0 else p + 1)
  }

  /** One fence for every three backticks of a run, when `p` backticks precede `s`. */
  function RunCount(s: string, p: nat): nat
    requires p < 3
  {
    if s == "" then 0
    else (if s[0] == '`' && p == 2 then 1 else 0) + RunCount(s[1..], if s[0] != '`' || p == 2 then 0 else p + 1)
  }

  function Advance(c: char, p: nat): (r: nat)
    requires p < 3
    ensures r < 3
  {
    if c != '`' || p == 2 then 0 else p + 1
  }

  lemma FencesStep(s: string, i: nat, p: nat)
    requires p < 3 && i <= |s|
    ensures i == |s| ==> RunCount(s[i..], p) == 0
    ensures i < |s| ==>
              RunCount(s[i..], p) == (if s[i] == '`' && p == 2 then 1 else 0) + RunCount(s[i + 1..], Advance(s[i], p))
  {
    if i < |s| {
      assert s[i..][1..] == s[i + 1..];
    }
  }

  function FenceCount(s: string): nat {
    RunCount(s, 0)
  }

  lemma {:induction false} FencesConcat(a: string, b: string, p: nat)
    requires p < 3
    ensures RunCount(a + b, p) == RunCount(a, p) + RunCount(b, Pending(a, p))
    ensures Pending(a + b, p) == Pending(b, Pending(a, p))
  {
    if a == "" {
      assert a + b == b;
    } else {
      FencesConcat(a[1..], b, if a[0] != '`' || p == 2 then 0 else p + 1);
      assert (a + b)[1..] == a[1..] + b;
    }
  }

  lemma {:induction false} NoBackticks(s: string, p: nat)
    requires p < 3 && '`' !in s
    ensures RunCount(s, p) == 0 && (s != "" ==> Pending(s, p) == 0)
  {
    if s != "" {
      assert s[0] in s;
      NoBackticks(s[1..], 0);
    }
  }

  /** Skipping text without a backtick, one character at a time, changes nothing. */
  lemma {:induction false} FencesSkip(s: string, i: nat, j: nat)
    requires i <= j <= |s| && forall k :: i <= k < j ==> s[k] != '`'
    ensures RunCount(s[i..], 0) == RunCount(s[j..], 0)
    decreases j - i
  {
    if i < j {
      assert s[i..][1..] == s[i + 1..];
      FencesSkip(s, i + 1, j);
    }
  }

  /** The scanner meets exactly the fences counted by runs. */
  lemma {:induction false} ScannerCountsRuns(s: string, i: nat)
    requires i <= |s|
    ensures |Tags(s, i)| == RunCount(s[i..], 0)
    decreases |s| - i
  {
    hide RunCount;
    FencesStep(s, i, 0);
    if i + 3 <= |s| && FenceAt(s, i) {
      FencesStep(s, i + 1, 1);
      FencesStep(s, i + 2, 2);
      var j := TagEnd(s, i + 3);
      FencesSkip(s, i + 3, j);
      ScannerCountsRuns(s, j);
    } else if i < |s| {
      ScannerCountsRuns(s, i + 1);
      ShortRunIsNone(s, i);
    }
  }

  /** One or two backticks that start no fence count for nothing. */
  lemma ShortRunIsNone(s: string, i: nat)
    requires i < |s| && !FenceAt(s, i)
    ensures RunCount(s[i..], 0) == RunCount(s[i + 1..], 0)
  {
    hide RunCount;
    FencesStep(s, i, 0);
    FencesStep(s, i + 1, 0);
    FencesStep(s, i + 1, 1);
    if i + 1 < |s| {
      FencesStep(s, i + 2, 1);
      FencesStep(s, i + 2, 2);
    }
  }

  /** Backticks at the start of `s`. */
  function LeadingBackticks(s: string): nat {
    if s == "" || s[0] != '`' then 0 else 1 + LeadingBackticks(s[1..])
  }

  /** What a cut loses: a fence of which some backticks stand on either side. */
  predicate Severs(p: nat, s: string) {
    p + LeadingBackticks(s) % 3 >= 3
  }

  /** A run at the start makes as many fences as it has threes, those before it included. */
  lemma {:induction false} RunIsThirds(s: string, p: nat)
    requires p < 3
    ensures LeadingBackticks(s) <= |s|
    ensures RunCount(s, p) == (p + LeadingBackticks(s)) / 3 + RunCount(s[LeadingBackticks(s)..], 0)
  {
    if s != "" && s[0] == '`' {
      var n := LeadingBackticks(s[1..]);
      RunIsThirds(s[1..], Advance('`', p));
      assert s[1..][n..] == s[n + 1..];
      hide LeadingBackticks;
      assert (p + n + 1) / 3 == if p == 2 then 1 + n / 3 else (p + 1 + n) / 3;
    } else {
      assert s[0..] == s;
    }
  }

  lemma SeveringLosesOne(s: string, p: nat)
    requires p < 3
    ensures RunCount(s, p) == RunCount(s, 0) + if Severs(p, s) then 1 else 0
  {
    RunIsThirds(s, p);
    RunIsThirds(s, 0);
    hide RunCount;
    hide LeadingBackticks;
  }

  // ----- What tags look like -----

  /** Every tag that could follow a fence in `s` has at most `bound` bytes. */
  ghost predicate TagsWithin(s: string, bound: int) {
    forall i: nat :: FenceAt(s, i) ==> ByteLen(s[i + 3..TagEnd(s, i + 3)]) <= bound
  }

  predicate CleanTag(tag: string) {
    '`' !in tag && '\n' !in tag
  }

  lemma {:induction false} TagsAreTags(s: string, i: nat, bound: int)
    requires i <= |s| && TagsWithin(s, bound)
    ensures forall t :: t in Tags(s, i) ==> CleanTag(t) && ByteLen(t) <= bound
    decreases |s| - i
  {
    if i + 3 <= |s| {
      if FenceAt(s, i) {
        TagsAreTags(s, TagEnd(s, i + 3), bound);
      } else {
        TagsAreTags(s, i + 1, bound);
      }
    }
  }

  lemma {:induction false} TagEndShift(s: string, k: nat, i: nat)
    requires k + i <= |s|
    ensures TagEnd(s[k..], i) + k == TagEnd(s, k + i)
    decreases |s| - i
  {
    if k + i < |s| && !EndsTag(s[k + i]) {
      TagEndShift(s, k, i + 1);
    }
  }

  lemma TagsWithinSuffix(s: string, k: nat, bound: int)
    requires k <= |s| && TagsWithin(s, bound)
    ensures TagsWithin(s[k..], bound)
  {
    forall i: nat | FenceAt(s[k..], i)
      ensures ByteLen(s[k..][i + 3..TagEnd(s[k..], i + 3)]) <= bound
    {
      TagEndShift(s, k, i + 3);
      assert FenceAt(s, k + i);
      SliceOfSuffix(s, k, i + 3, TagEnd(s[k..], i + 3));
    }
  }

  lemma {:induction false} TagEndPrefix(s: string, k: nat, i: nat)
    requires i <= k <= |s|
    ensures TagEnd(s[..k], i) == if TagEnd(s, i) <= k then TagEnd(s, i) else k
    decreases k - i
  {
    if i < k && !EndsTag(s[i]) {
      TagEndPrefix(s, k, i + 1);
    }
  }

  lemma SliceOfPrefix(s: string, k: nat, i: nat, j: nat, m: nat)
    requires i <= j <= k <= |s| && j <= m <= |s|
    ensures s[..k][i..j] == s[i..m][..j - i]
  {
  }

  lemma SliceOfSuffix(s: string, k: nat, i: nat, j: nat)
    requires i <= j && k + j <= |s|
    ensures s[k..][i..j] == s[k + i..k + j]
  {
  }

  lemma TagShorterInPrefix(s: string, k: nat, i: nat)
    requires k <= |s| && FenceAt(s[..k], i)
    ensures FenceAt(s, i)
    ensures ByteLen(s[..k][i + 3..TagEnd(s[..k], i + 3)]) <= ByteLen(s[i + 3..TagEnd(s, i + 3)])
  {
    hide ByteLen;
    TagEndPrefix(s, k, i + 3);
    hide TagEnd;
    var j, m := TagEnd(s[..k], i + 3), TagEnd(s, i + 3);
    SliceOfPrefix(s, k, i + 3, j, m);
    ByteLenSplit(s[i + 3..m], j - (i + 3));
  }

  lemma TagsWithinPrefix(s: string, k: nat, bound: int)
    requires k <= |s| && TagsWithin(s, bound)
    ensures TagsWithin(s[..k], bound)
  {
    forall i: nat | FenceAt(s[..k], i)
      ensures ByteLen(s[..k][i + 3..TagEnd(s[..k], i + 3)]) <= bound
    {
      TagShorterInPrefix(s, k, i);
    }
  }
}
