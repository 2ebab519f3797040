/** What is kept of a sequence, and texts laid out one after another: relations to hold the functions
    of the other modules against. */
module Sequences {

  // ----- Keeping some elements -----

  predicate Increasing(picks: seq<nat>) {
    forall i, j :: 0 <= i < j < |picks| ==> picks[i] < picks[j]
  }

  /** `picks` are the indices of the elements that are wanted, in order, and `kept` those elements. */
  ghost predicate Picks<T>(all: seq<T>, kept: seq<T>, wanted: T -> bool, picks: seq<nat>) {
    && |picks| == |kept| && Increasing(picks)
    && (forall j :: 0 <= j < |picks| ==> picks[j] < |all| && wanted(all[picks[j]]) && kept[j] == all[picks[j]])
    && (forall i :: 0 <= i < |all| && wanted(all[i]) ==> i in picks)
  }

  /** Exactly the wanted elements, each as often as it occurs and in the same order. */
  ghost predicate Keeps<T>(all: seq<T>, kept: seq<T>, wanted: T -> bool) {
    exists picks :: Picks(all, kept, wanted, picks)
  }

  function Shifted(picks: seq<nat>): (r: seq<nat>)
    ensures |r| == |picks| && forall i :: 0 <= i < |r| ==> r[i] == picks[i] + 1
  {
    seq(|picks|, i requires 0 <= i < |picks| => picks[i] + 1)
  }

  lemma ShiftedHas(picks: seq<nat>, i: nat)
    ensures i > 0 && i - 1 in picks ==> i in Shifted(picks)
  {
    if i > 0 && i - 1 in picks {
      var j :| 0 <= j < |picks| && picks[j] == i - 1;
      assert Shifted(picks)[j] == i;
    }
  }

  lemma KeepsNothing<T>(wanted: T -> bool)
    ensures Keeps([], [], wanted)
  {
    assert Picks([], [], wanted, []);
  }

  lemma PicksSkip<T>(all: seq<T>, kept: seq<T>, wanted: T -> bool, picks: seq<nat>)
    requires all != [] && !wanted(all[0]) && Picks(all[1..], kept, wanted, picks)
    ensures Picks(all, kept, wanted, Shifted(picks))
  {
    forall i | 0 <= i < |all| && wanted(all[i])
      ensures i in Shifted(picks)
    {
      assert all[1..][i - 1] == all[i];
      ShiftedHas(picks, i);
    }
  }

  lemma PickTaken<T>(all: seq<T>, kept: seq<T>, wanted: T -> bool, picks: seq<nat>, j: nat)
    requires all != [] && kept != [] && j < |picks| && Picks(all[1..], kept[1..], wanted, picks)
    ensures picks[j] + 1 < |all| && wanted(all[picks[j] + 1]) && j + 1 < |kept| && kept[j + 1] == all[picks[j] + 1]
  {
    assert all[1..][picks[j]] == all[picks[j] + 1] && kept[1..][j] == kept[j + 1];
  }

  lemma PickFound<T>(all: seq<T>, kept: seq<T>, wanted: T -> bool, picks: seq<nat>, i: nat)
    requires all != [] && kept != [] && Picks(all[1..], kept[1..], wanted, picks)
    requires 0 < i < |all| && wanted(all[i])
    ensures i - 1 in picks
  {
    assert all[1..][i - 1] == all[i];
  }

  lemma PicksAre<T>(all: seq<T>, kept: seq<T>, wanted: T -> bool, picks: seq<nat>)
    requires |picks| == |kept| && Increasing(picks)
    requires forall j :: 0 <= j < |picks| ==> picks[j] < |all| && wanted(all[picks[j]]) && kept[j] == all[picks[j]]
    requires forall i :: 0 <= i < |all| && wanted(all[i]) ==> i in picks
    ensures Picks(all, kept, wanted, picks)
  {
  }

  lemma PicksSize<T>(all: seq<T>, kept: seq<T>, wanted: T -> bool, picks: seq<nat>)
    requires Picks(all, kept, wanted, picks)
    ensures |picks| == |kept| && Increasing(picks)
  {
  }

  function Also(picks: seq<nat>): (r: seq<nat>)
    ensures |r| == |picks| + 1 && r[0] == 0 && forall i :: 0 < i < |r| ==> r[i] == picks[i - 1] + 1
  {
    [0] + Shifted(picks)
  }

  lemma AlsoHas(picks: seq<nat>, i: nat)
    requires i == 0 || i - 1 in picks
    ensures i in Also(picks)
  {
    if i > 0 {
      var j :| 0 <= j < |picks| && picks[j] == i - 1;
      assert Also(picks)[j + 1] == i;
    } else {
      assert Also(picks)[0] == 0;
    }
  }

  lemma PicksTake<T>(all: seq<T>, kept: seq<T>, wanted: T -> bool, picks: seq<nat>)
    requires all != [] && kept != [] && kept[0] == all[0] && wanted(all[0])
    requires Picks(all[1..], kept[1..], wanted, picks)
    ensures Picks(all, kept, wanted, Also(picks))
  {
    PicksSize(all[1..], kept[1..], wanted, picks);
    var more := Also(picks);
    assert Increasing(more);
    hide *;
    forall j | 0 <= j < |more|
      ensures more[j] < |all| && wanted(all[more[j]]) && kept[j] == all[more[j]]
    {
      if j > 0 {
        PickTaken(all, kept, wanted, picks, j - 1);
      }
    }
    forall i | 0 <= i < |all| && wanted(all[i])
      ensures i in more
    {
      if i > 0 {
        PickFound(all, kept, wanted, picks, i);
      }
      AlsoHas(picks, i);
    }
    PicksAre(all, kept, wanted, more);
  }

  lemma KeepsFirst<T>(all: seq<T>, kept: seq<T>, wanted: T -> bool)
    requires all != [] && Keeps(all[1..], kept, wanted)
    ensures Keeps(all, (if wanted(all[0]) then [all[0]] else []) + kept, wanted)
  {
    hide Picks;
    var picks :| Picks(all[1..], kept, wanted, picks);
    if wanted(all[0]) {
      var more := [all[0]] + kept;
      assert more[1..] == kept;
      PicksTake(all, more, wanted, picks);
    } else {
      assert [] + kept == kept;
      PicksSkip(all, kept, wanted, picks);
    }
  }

  lemma KeptAreWanted<T>(all: seq<T>, kept: seq<T>, wanted: T -> bool)
    requires Keeps(all, kept, wanted)
    ensures forall x :: x in kept <==> x in all && wanted(x)
  {
    var picks :| Picks(all, kept, wanted, picks);
    forall x | x in all && wanted(x)
      ensures x in kept
    {
      var i :| 0 <= i < |all| && all[i] == x;
      assert i in picks;
      var j :| 0 <= j < |picks| && picks[j] == i;
      assert kept[j] == x;
    }
  }

  lemma IncreasingUnique(a: seq<nat>, b: seq<nat>)
    requires Increasing(a) && Increasing(b) && forall i :: i in a <==> i in b
    ensures a == b
    decreases |a|
  {
    if a == [] {
      assert forall i :: 0 <= i < |b| ==> b[i] in b;
    } else {
      assert a[0] in a && b != [];
      assert b[0] in b;
      assert a[0] == b[0];
      forall i
        ensures i in a[1..] <==> i in b[1..]
      {
        RestHas(a, i);
        RestHas(b, i);
      }
      IncreasingUnique(a[1..], b[1..]);
    }
  }

  lemma RestHas(a: seq<nat>, i: nat)
    requires a != [] && Increasing(a)
    ensures i in a[1..] <==> i in a && i != a[0]
  {
    if i in a && i != a[0] {
      var k :| 0 <= k < |a| && a[k] == i;
      assert a[1..][k - 1] == i;
    }
  }

  /** What is kept is determined. */
  lemma KeepsUnique<T>(all: seq<T>, a: seq<T>, b: seq<T>, wanted: T -> bool)
    requires Keeps(all, a, wanted) && Keeps(all, b, wanted)
    ensures a == b
  {
    var p :| Picks(all, a, wanted, p);
    var q :| Picks(all, b, wanted, q);
    forall i
      ensures i in p <==> i in q
    {
    }
    IncreasingUnique(p, q);
  }

  // ----- Texts one after another -----

  /** `parts[i]` stands in the text from `starts[i]` on, the separator between two neighbours, and
      nothing else. */
  predicate StandAt(text: string, parts: seq<string>, separator: string, starts: seq<nat>) {
    && |starts| == |parts| > 0 && starts[0] == 0
    && (forall i :: 0 <= i < |parts| ==>
          starts[i] + |parts[i]| <= |text| && text[starts[i]..starts[i] + |parts[i]|] == parts[i])
    && (forall i :: 0 < i < |parts| ==>
          && starts[i] == starts[i - 1] + |parts[i - 1]| + |separator|
          && text[starts[i] - |separator|..starts[i]] == separator)
    && |text| == starts[|parts| - 1] + |parts[|parts| - 1]|
  }

  ghost predicate LaidOut(text: string, parts: seq<string>, separator: string) {
    if parts == [] then text == "" else exists starts :: StandAt(text, parts, separator, starts)
  }

  function Moved(starts: seq<nat>, n: nat): (r: seq<nat>)
    ensures |r| == |starts| && forall i :: 0 <= i < |r| ==> r[i] == starts[i] + n
  {
    seq(|starts|, i requires 0 <= i < |starts| => starts[i] + n)
  }

  lemma LaidOutOne(part: string, separator: string)
    ensures LaidOut(part, [part], separator)
  {
    assert StandAt(part, [part], separator, [0]);
  }

  lemma SliceOfSuffix(text: string, n: nat, i: nat, j: nat)
    requires i <= j && n + j <= |text|
    ensures text[n..][i..j] == text[n + i..n + j]
  {
  }

  lemma StandAtParts(text: string, parts: seq<string>, separator: string, starts: seq<nat>, i: nat)
    requires StandAt(text, parts, separator, starts) && i < |parts|
    ensures |starts| == |parts| && starts[0] == 0
    ensures starts[i] + |parts[i]| <= |text| && text[starts[i]..starts[i] + |parts[i]|] == parts[i]
    ensures i > 0 ==>
              && starts[i] == starts[i - 1] + |parts[i - 1]| + |separator|
              && text[starts[i] - |separator|..starts[i]] == separator
    ensures |text| == starts[|parts| - 1] + |parts[|parts| - 1]|
  {
  }

  function MovedOn(starts: seq<nat>, n: nat): (r: seq<nat>)
    ensures |r| == |starts| + 1 && r[0] == 0 && forall i :: 0 < i < |r| ==> r[i] == starts[i - 1] + n
  {
    [0] + Moved(starts, n)
  }

  lemma StandAtIs(text: string, parts: seq<string>, separator: string, starts: seq<nat>)
    requires |starts| == |parts| > 0 && starts[0] == 0
    requires forall i :: 0 <= i < |parts| ==>
               starts[i] + |parts[i]| <= |text| && text[starts[i]..starts[i] + |parts[i]|] == parts[i]
    requires forall i :: 0 < i < |parts| ==>
               && starts[i] == starts[i - 1] + |parts[i - 1]| + |separator|
               && text[starts[i] - |separator|..starts[i]] == separator
    requires |text| == starts[|parts| - 1] + |parts[|parts| - 1]|
    ensures StandAt(text, parts, separator, starts)
  {
  }

  /** Where part `i` stands when a first part and a separator are put in front. */
  lemma StandsLater(
    text: string, parts: seq<string>, separator: string, n: nat, starts: seq<nat>, i: nat)
    requires |parts| > 1 && n == |parts[0]| + |separator| <= |text| && 0 < i < |parts|
    requires StandAt(text[n..], parts[1..], separator, starts)
    ensures |starts| == |parts| - 1
    ensures var p := starts[i - 1] + n; p + |parts[i]| <= |text| && text[p..p + |parts[i]|] == parts[i]
    ensures i == 1 ==> starts[i - 1] == 0
    ensures i > 1 ==>
              && starts[i - 1] == starts[i - 2] + |parts[i - 1]| + |separator|
              && text[starts[i - 1] + n - |separator|..starts[i - 1] + n] == separator
    ensures i == |parts| - 1 ==> |text| == starts[i - 1] + n + |parts[i]|
  {
    hide *;
    var rest, tail := text[n..], parts[1..];
    assert parts[i] == tail[i - 1];
    StandAtParts(rest, tail, separator, starts, i - 1);
    SliceOfSuffix(text, n, starts[i - 1], starts[i - 1] + |parts[i]|);
    if i > 1 {
      assert parts[i - 1] == tail[i - 2];
      SliceOfSuffix(text, n, starts[i - 1] - |separator|, starts[i - 1]);
    }
  }

  /** A first part and a separator in front of parts that are laid out. */
  lemma StandAfterFirst(
    text: string, parts: seq<string>, separator: string, n: nat, starts: seq<nat>)
    requires |parts| > 1 && n == |parts[0]| + |separator| <= |text|
    requires text[..|parts[0]|] == parts[0] && text[|parts[0]|..n] == separator
    requires StandAt(text[n..], parts[1..], separator, starts)
    ensures StandAt(text, parts, separator, MovedOn(starts, n))
  {
    hide *;
    var more := MovedOn(starts, n);
    StandsLater(text, parts, separator, n, starts, |parts| - 1);
    forall i | 0 <= i < |parts|
      ensures more[i] + |parts[i]| <= |text| && text[more[i]..more[i] + |parts[i]|] == parts[i]
    {
      if i > 0 {
        StandsLater(text, parts, separator, n, starts, i);
      }
    }
    forall i | 0 < i < |parts|
      ensures more[i] == more[i - 1] + |parts[i - 1]| + |separator|
      ensures text[more[i] - |separator|..more[i]] == separator
    {
      StandsLater(text, parts, separator, n, starts, i);
    }
    StandAtIs(text, parts, separator, more);
  }

  lemma LaidOutFirst(parts: seq<string>, text: string, separator: string)
    requires |parts| > 1 && LaidOut(text, parts[1..], separator)
    ensures LaidOut(parts[0] + separator + text, parts, separator)
  {
    var starts :| StandAt(text, parts[1..], separator, starts);
    var n := |parts[0]| + |separator|;
    var whole := parts[0] + separator + text;
    assert whole[n..] == text && whole[..|parts[0]|] == parts[0] && whole[|parts[0]|..n] == separator;
    hide StandAt;
    StandAfterFirst(whole, parts, separator, n, starts);
  }

  lemma {:induction false} StartsUnique(
    a: string, b: string, parts: seq<string>, separator: string, p: seq<nat>, q: seq<nat>, i: nat)
    requires StandAt(a, parts, separator, p) && StandAt(b, parts, separator, q) && i < |parts|
    ensures p[i] == q[i] && p[i] + |parts[i]| <= |a| && q[i] + |parts[i]| <= |b|
    ensures a[..p[i] + |parts[i]|] == b[..p[i] + |parts[i]|]
    decreases i
  {
    StandAtParts(a, parts, separator, p, i);
    StandAtParts(b, parts, separator, q, i);
    hide *;
    if i > 0 {
      StartsUnique(a, b, parts, separator, p, q, i - 1);
      OneFurther(a, b, p[i - 1] + |parts[i - 1]|, p[i], p[i] + |parts[i]|);
    } else {
      OneFurther(a, b, 0, 0, |parts[0]|);
    }
  }

  lemma OneFurther(a: string, b: string, d: nat, p: nat, e: nat)
    requires d <= p <= e <= |a| && e <= |b|
    requires a[..d] == b[..d] && a[d..p] == b[d..p] && a[p..e] == b[p..e]
    ensures a[..e] == b[..e]
  {
    assert a[..e] == a[..d] + a[d..p] + a[p..e];
    assert b[..e] == b[..d] + b[d..p] + b[p..e];
  }

  /** The text is determined by its parts. */
  lemma LaidOutUnique(a: string, b: string, parts: seq<string>, separator: string)
    requires LaidOut(a, parts, separator) && LaidOut(b, parts, separator)
    ensures a == b
  {
    if parts != [] {
      var p :| StandAt(a, parts, separator, p);
      var q :| StandAt(b, parts, separator, q);
      StartsUnique(a, b, parts, separator, p, q, |parts| - 1);
      assert a == a[..|a|] && b == b[..|b|];
    }
  }
}
