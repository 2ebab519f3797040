/** Assembling the system prompt within a byte budget: sections are emptied in priority order, and
    the one that no longer has to go entirely is cut. */
module PromptBudget {
  import opened Wrappers
  import opened Unicode
  import opened Sequences

  const PROTECTED: nat := 255
  const SEPARATOR := "\n\n"

  /** A rendered section; those of priority `PROTECTED` are never cut. */
  datatype Section = Section(priority: nat, text: string)

  /** A section as it is configured and rendered, before its own limit is applied. */
  datatype Source = Source(priority: nat, content: string, maxChars: Option<nat>)

  // ----- Cutting one section -----

  /** How many leading characters start before byte `end`. */
  function CharsBefore(s: string, end: nat): (k: nat)
    ensures k <= |s|
  {
    if s == "" || end == 0 then 0
    else 1 + CharsBefore(s[1..], if end <= Width(s[0]) then 0 else end - Width(s[0]))
  }

  function Truncated(s: string, max: nat): string {
    if ByteLen(s) <= max then s
    else s[..CharsBefore(s, if max <= 3 then 0 else max - 3)] + "..."
  }

  method TruncateChars(s: string, max: nat) returns (r: string)
    ensures r == Truncated(s, max)
  {
    if ByteLen(s) <= max {
      return s;
    }
    var end := if max <= 3 then 0 else max - 3;
    var i, at := 0, 0;
    r := "";
    while i < |s| && at < end
      invariant i <= |s| && r == s[..i]
      invariant CharsBefore(s, end) == i + CharsBefore(s[i..], if at <= end then end - at else 0)
    {
      assert s[i..][1..] == s[i + 1..];
      r := r + [s[i]];
      at := at + Width(s[i]);
      i := i + 1;
    }
    r := r + "...";
  }

  /** What is left of a text cut to a limit: all of it where it fits, else the characters that start
      before the limit less three bytes, and an ellipsis. */
  ghost predicate IsCutTo(s: string, max: nat, r: string) {
    if ByteLen(s) <= max then r == s
    else
      var end := if max <= 3 then 0 else max - 3;
      exists k | 0 <= k <= |s| ::
        && r == s[..k] + "..."
        && (forall i :: 0 <= i < k ==> ByteLen(s[..i]) < end)
        && (k < |s| ==> ByteLen(s[..k]) >= end)
  }

  lemma {:induction false} CharsBeforeAre(s: string, end: nat)
    ensures forall i :: 0 <= i < CharsBefore(s, end) ==> ByteLen(s[..i]) < end
    ensures CharsBefore(s, end) < |s| ==> ByteLen(s[..CharsBefore(s, end)]) >= end
  {
    var k := CharsBefore(s, end);
    if k > 0 {
      var less := if end <= Width(s[0]) then 0 else end - Width(s[0]);
      CharsBeforeAre(s[1..], less);
      assert s[..k][1..] == s[1..][..k - 1];
      forall i | 0 <= i < k
        ensures ByteLen(s[..i]) < end
      {
        if i > 0 {
          assert s[..i][1..] == s[1..][..i - 1];
        }
      }
    }
  }

  lemma TruncatedIs(s: string, max: nat)
    ensures IsCutTo(s, max, Truncated(s, max))
  {
    var end := if max <= 3 then 0 else max - 3;
    CharsBeforeAre(s, end);
    hide CharsBefore;
    hide ByteLen;
  }

  lemma {:induction false} CharsBeforeBytes(s: string, end: nat)
    ensures ByteLen(s[..CharsBefore(s, end)]) <= if end == 0 then 0 else end + 3
  {
    var k := CharsBefore(s, end);
    if k > 0 {
      CharsBeforeBytes(s[1..], if end <= Width(s[0]) then 0 else end - Width(s[0]));
      assert s[..k][1..] == s[1..][..k - 1];
    }
  }

  /** A cut section may exceed its limit, by at most 3 bytes: the last character kept starts before
      the limit but may end after it. */
  lemma TruncatedBytes(s: string, max: nat)
    ensures ByteLen(Truncated(s, max)) <= max + 3
    ensures s != "" ==> Truncated(s, max) != ""
  {
    if ByteLen(s) > max {
      var end := if max <= 3 then 0 else max - 3;
      CharsBeforeBytes(s, end);
      ByteLenConcat(s[..CharsBefore(s, end)], "...");
      assert ByteLen("...") == 3;
    }
  }

  lemma {:induction false} CharsBeforeReaches(s: string, end: nat)
    requires end <= ByteLen(s)
    ensures ByteLen(s[..CharsBefore(s, end)]) >= end
  {
    var k := CharsBefore(s, end);
    if k > 0 {
      CharsBeforeReaches(s[1..], if end <= Width(s[0]) then 0 else end - Width(s[0]));
      assert s[..k][1..] == s[1..][..k - 1];
    }
  }

  lemma {:induction false} CharsBeforeBoundary(s: string, end: nat, k: nat)
    requires k <= |s| && ByteLen(s[..k]) == end
    ensures CharsBefore(s, end) == k
  {
    if k > 0 {
      assert s[..k][1..] == s[1..][..k - 1];
      CharsBeforeBoundary(s[1..], end - Width(s[0]), k - 1);
    }
  }

  /** The limit leaves room for the ellipsis, and a character ends right before it. */
  predicate EndsBeforeEllipsis(s: string, max: nat) {
    max >= 3 && exists k :: 0 <= k <= |s| && ByteLen(s[..k]) == max - 3
  }

  /** A text that has to be cut stays within its limit exactly when the limit leaves room for the
      ellipsis and a character ends right before it. */
  lemma TruncatedWithinLimit(s: string, max: nat)
    requires ByteLen(s) > max
    ensures ByteLen(Truncated(s, max)) <= max <==> EndsBeforeEllipsis(s, max)
  {
    var end := if max <= 3 then 0 else max - 3;
    var cut := CharsBefore(s, end);
    CharsBeforeReaches(s, end);
    ByteLenConcat(s[..cut], "...");
    assert ByteLen("...") == 3;
    if max >= 3 && exists k :: 0 <= k <= |s| && ByteLen(s[..k]) == max - 3 {
      var k :| 0 <= k <= |s| && ByteLen(s[..k]) == max - 3;
      CharsBeforeBoundary(s, end, k);
    }
  }

  // ----- Sizes -----

  function NonEmpty(sections: seq<Section>): seq<Section> {
    if sections == [] then []
    else (if sections[0].text == "" then [] else [sections[0]]) + NonEmpty(sections[1..])
  }

  function JoinAll(sections: seq<Section>): string {
    if sections == [] then ""
    else if |sections| == 1 then sections[0].text
    else sections[0].text + SEPARATOR + JoinAll(sections[1..])
  }

  function JoinSections(sections: seq<Section>): string {
    JoinAll(NonEmpty(sections))
  }

  /** Bytes of all sections that hold text, with two for a separator after each. */
  function Charge(sections: seq<Section>): nat {
    if sections == [] then 0
    else (if sections[0].text == "" then 0 else ByteLen(sections[0].text) + 2) + Charge(sections[1..])
  }

  function TotalLen(sections: seq<Section>): nat {
    if sections == [] then 0 else ByteLen(sections[0].text) + TotalLen(sections[1..])
  }

  function TotalSize(sections: seq<Section>): nat {
    TotalLen(sections) + (if sections == [] then 0 else |sections| - 1) * 2
  }

  function Texts(sections: seq<Section>): (r: seq<string>)
    ensures |r| == |sections| && forall i :: 0 <= i < |r| ==> r[i] == sections[i].text
  {
    seq(|sections|, i requires 0 <= i < |sections| => sections[i].text)
  }

  /** The prompt is the texts of the sections that hold some, in order, with a blank line between two
      neighbours and nothing else. */
  ghost predicate IsPrompt(prompt: string, sections: seq<Section>) {
    exists kept :: Keeps(sections, kept, (s: Section) => s.text != "") && LaidOut(prompt, Texts(kept), "\n\n")
  }

  lemma {:induction false} JoinAllIsLaidOut(sections: seq<Section>)
    ensures LaidOut(JoinAll(sections), Texts(sections), "\n\n")
  {
    if |sections| == 1 {
      LaidOutOne(sections[0].text, "\n\n");
      assert Texts(sections) == [sections[0].text];
    } else if sections != [] {
      JoinAllIsLaidOut(sections[1..]);
      assert Texts(sections)[1..] == Texts(sections[1..]);
      LaidOutFirst(Texts(sections), JoinAll(sections[1..]), "\n\n");
    }
  }

  lemma {:induction false} NonEmptyKeeps(sections: seq<Section>)
    ensures Keeps(sections, NonEmpty(sections), (s: Section) => s.text != "")
  {
    var holds := (s: Section) => s.text != "";
    if sections == [] {
      KeepsNothing(holds);
    } else {
      NonEmptyKeeps(sections[1..]);
      KeepsFirst(sections, NonEmpty(sections[1..]), holds);
    }
  }

  lemma JoinedIsPrompt(sections: seq<Section>)
    ensures IsPrompt(JoinSections(sections), sections)
  {
    NonEmptyKeeps(sections);
    JoinAllIsLaidOut(NonEmpty(sections));
  }

  /** Which determines it. */
  lemma PromptUnique(a: string, b: string, sections: seq<Section>)
    requires IsPrompt(a, sections) && IsPrompt(b, sections)
    ensures a == b
  {
    var holds := (s: Section) => s.text != "";
    var x :| Keeps(sections, x, holds) && LaidOut(a, Texts(x), "\n\n");
    var y :| Keeps(sections, y, holds) && LaidOut(b, Texts(y), "\n\n");
    KeepsUnique(sections, x, y, holds);
    LaidOutUnique(a, b, Texts(x), "\n\n");
  }

  lemma {:induction false} JoinAllBytes(sections: seq<Section>)
    requires forall s :: s in sections ==> s.text != ""
    ensures ByteLen(JoinAll(sections)) == if sections == [] then 0 else Charge(sections) - 2
  {
    if |sections| > 1 {
      JoinAllBytes(sections[1..]);
      ByteLenConcat(sections[0].text + SEPARATOR, JoinAll(sections[1..]));
      ByteLenConcat(sections[0].text, SEPARATOR);
      assert ByteLen(SEPARATOR) == 2;
    }
  }

  lemma {:induction false} NonEmptyCharge(sections: seq<Section>)
    ensures Charge(NonEmpty(sections)) == Charge(sections)
    ensures forall s :: s in NonEmpty(sections) ==> s.text != ""
    ensures NonEmpty(sections) == [] <==> Charge(sections) == 0
  {
    if sections != [] {
      NonEmptyCharge(sections[1..]);
      if sections[0].text != "" {
        assert NonEmpty(sections)[1..] == NonEmpty(sections[1..]);
      } else {
        assert NonEmpty(sections) == NonEmpty(sections[1..]);
      }
    }
  }

  /** The charge is the size of the joined prompt, one separator apart. */
  lemma JoinedBytes(sections: seq<Section>)
    ensures ByteLen(JoinSections(sections)) == if Charge(sections) == 0 then 0 else Charge(sections) - 2
  {
    NonEmptyCharge(sections);
    JoinAllBytes(NonEmpty(sections));
  }

  lemma {:induction false} TotalSizeIsCharge(sections: seq<Section>)
    requires forall s :: s in sections ==> s.text != ""
    ensures sections != [] ==> TotalSize(sections) == Charge(sections) - 2
    ensures sections == [] ==> TotalSize(sections) == 0
  {
    if sections != [] {
      assert sections[0] in sections;
      TotalSizeIsCharge(sections[1..]);
    }
  }

  lemma {:induction false} ChargeUpdate(sections: seq<Section>, i: nat, s: Section)
    requires i < |sections|
    ensures Charge(sections[i := s]) ==
            Charge(sections) - Charge([sections[i]]) + Charge([s])
  {
    assert Charge([s]) == (if s.text == "" then 0 else ByteLen(s.text) + 2) + Charge([s][1..]);
    assert Charge([sections[i]][1..]) == 0;
    if i > 0 {
      ChargeUpdate(sections[1..], i - 1, s);
      assert sections[i := s][1..] == sections[1..][i - 1 := s];
    } else {
      assert sections[i := s][1..] == sections[1..];
    }
  }

  // ----- The order of truncation -----

  ghost predicate Precedes(s: seq<Section>, a: nat, b: nat)
    requires a < |s| && b < |s|
  {
    s[a].priority < s[b].priority || (s[a].priority == s[b].priority && a < b)
  }

  predicate Indices(o: seq<nat>, n: nat) {
    forall i :: 0 <= i < |o| ==> o[i] < n
  }

  /** The first `n` indices, sorted stably by priority. */
  function Order(s: seq<Section>, n: nat): (o: seq<nat>)
    requires n <= |s|
    ensures |o| == n && Indices(o, n)
  {
    if n == 0 then [] else Inserted(s, Order(s, n - 1), n - 1)
  }

  function Inserted(s: seq<Section>, o: seq<nat>, k: nat): (r: seq<nat>)
    requires k < |s| && Indices(o, k)
    ensures |r| == |o| + 1 && Indices(r, k + 1)
    decreases |o|
  {
    if o == [] || s[o[|o| - 1]].priority <= s[k].priority then o + [k]
    else Inserted(s, o[..|o| - 1], k) + [o[|o| - 1]]
  }

  ghost predicate Sorted(s: seq<Section>, o: seq<nat>)
    requires Indices(o, |s|)
  {
    forall i, j :: 0 <= i < j < |o| ==> Precedes(s, o[i], o[j])
  }

  lemma SortedSnoc(s: seq<Section>, o: seq<nat>, x: nat)
    requires Indices(o, |s|) && x < |s| && Sorted(s, o) && forall y :: y in o ==> Precedes(s, y, x)
    ensures Indices(o + [x], |s|) && Sorted(s, o + [x])
  {
    hide Precedes;
  }

  lemma SortedFront(s: seq<Section>, o: seq<nat>)
    requires o != [] && Indices(o, |s|) && Sorted(s, o)
    ensures var front, last := o[..|o| - 1], o[|o| - 1];
            o == front + [last] && Sorted(s, front) && forall y :: y in front ==> Precedes(s, y, last)
  {
    hide Precedes;
  }

  lemma {:induction false} InsertedSorted(s: seq<Section>, o: seq<nat>, k: nat)
    requires k < |s| && Indices(o, k) && Sorted(s, o)
    ensures Sorted(s, Inserted(s, o, k))
    ensures forall x :: x in Inserted(s, o, k) <==> x in o || x == k
    decreases |o|
  {
    if o == [] {
      SortedSnoc(s, o, k);
    } else {
      SortedFront(s, o);
      var front, last := o[..|o| - 1], o[|o| - 1];
      hide Sorted;
      if s[last].priority > s[k].priority {
        InsertedSorted(s, front, k);
        SortedSnoc(s, Inserted(s, front, k), last);
      } else {
        SortedSnoc(s, o, k);
      }
    }
  }

  /** The order lists every index once, by priority and then by position. */
  lemma {:induction false} OrderSorts(s: seq<Section>, n: nat)
    requires n <= |s|
    ensures Sorted(s, Order(s, n))
    ensures forall x: nat :: x in Order(s, n) <==> x < n
  {
    if n > 0 {
      OrderSorts(s, n - 1);
      InsertedSorted(s, Order(s, n - 1), n - 1);
    }
  }

  // ----- The truncation -----

  /** `s` with those of the sections listed in `o` that are not protected emptied. */
  function Emptied(s: seq<Section>, o: seq<nat>): (r: seq<Section>)
    requires Indices(o, |s|)
    ensures |r| == |s| && forall i :: 0 <= i < |s| ==>
              r[i] == if i in o && s[i].priority != PROTECTED then s[i].(text := "") else s[i]
    decreases |o|
  {
    if o == [] then s
    else
      var last := o[|o| - 1];
      assert o == o[..|o| - 1] + [last];
      var t := Emptied(s, o[..|o| - 1]);
      if s[last].priority == PROTECTED then t else t[last := s[last].(text := "")]
  }

  /** The sections after the first `k` in the order of truncation were dealt with. */
  function EmptiedTo(s: seq<Section>, k: nat): (r: seq<Section>)
    requires k <= |s|
    ensures |r| == |s|
  {
    Emptied(s, Order(s, |s|)[..k])
  }

  /** The budget still to be met after emptying `k` sections; it is the size of the joined prompt
      as long as some section holds text. */
  function SizeAt(s: seq<Section>, k: nat): int
    requires k <= |s|
  {
    Charge(EmptiedTo(s, k)) - 2
  }

  function At(s: seq<Section>, k: nat): nat
    requires k < |s|
    ensures At(s, k) < |s|
  {
    Order(s, |s|)[k]
  }

  /** No section was emptied in vain: emptying it left the prompt at `cap` or more. */
  ghost predicate Needed(s: seq<Section>, cap: nat, k: nat)
    requires k <= |s|
  {
    forall i :: 0 <= i < k && s[At(s, i)].priority != PROTECTED ==>
      SizeAt(s, i) >= cap + ByteLen(s[At(s, i)].text)
  }

  /** The budget is met by emptying the first `k` sections and, if `cut`, shortening the next one by
      exactly what is still too much. */
  ghost predicate Outcome(s: seq<Section>, cap: nat, k: nat, cut: bool, r: seq<Section>) {
    && k <= |s| && Needed(s, cap, k)
    && (if cut then
          && k < |s| && s[At(s, k)].priority != PROTECTED
          && var next := s[At(s, k)];
          && 0 < SizeAt(s, k) - cap < ByteLen(next.text)
          && r == EmptiedTo(s, k)[At(s, k) :=
                    next.(text := Truncated(next.text, ByteLen(next.text) - (SizeAt(s, k) - cap)))]
        else
          && r == EmptiedTo(s, k)
          && (k == |s| || SizeAt(s, k) <= cap))
  }

  /** Every section not protected is empty. */
  predicate OnlyProtected(s: seq<Section>) {
    forall i :: 0 <= i < |s| && s[i].priority != PROTECTED ==> s[i].text == ""
  }

  predicate AllHoldText(s: seq<Section>) {
    forall i :: 0 <= i < |s| ==> s[i].text != ""
  }

  lemma {:induction false} ChargeBounds(s: seq<Section>)
    ensures Charge(s) == 0 || Charge(s) >= 3
    ensures Charge(s) == 0 <==> forall i :: 0 <= i < |s| ==> s[i].text == ""
    ensures forall i :: 0 <= i < |s| && s[i].text != "" ==> Charge(s) >= ByteLen(s[i].text) + 2
  {
    if s != [] {
      ChargeBounds(s[1..]);
      assert forall i :: 1 <= i < |s| ==> s[i] == s[1..][i - 1];
    }
  }

  /** Section number `k` in the order is not among those before it. */
  lemma NextUntouched(s: seq<Section>, k: nat)
    requires k < |s|
    ensures EmptiedTo(s, k)[At(s, k)] == s[At(s, k)]
    ensures EmptiedTo(s, k + 1) == if s[At(s, k)].priority == PROTECTED then EmptiedTo(s, k)
                                   else EmptiedTo(s, k)[At(s, k) := s[At(s, k)].(text := "")]
  {
    var o := Order(s, |s|);
    OrderSorts(s, |s|);
    assert o[..k + 1][..k] == o[..k];
    forall i | 0 <= i < k
      ensures o[i] != o[k]
    {
      assert Precedes(s, o[i], o[k]);
    }
  }

  lemma StepEmpties(s: seq<Section>, k: nat)
    requires k < |s| && AllHoldText(s)
    ensures SizeAt(s, k + 1) == SizeAt(s, k) -
              if s[At(s, k)].priority == PROTECTED then 0 else ByteLen(s[At(s, k)].text) + 2
    ensures SizeAt(s, k) >= ByteLen(s[At(s, k)].text)
  {
    hide EmptiedTo;
    hide Order;
    NextUntouched(s, k);
    var next := s[At(s, k)];
    ChargeUpdate(EmptiedTo(s, k), At(s, k), next.(text := ""));
    ChargeBounds(EmptiedTo(s, k));
    assert Charge([next]) == ByteLen(next.text) + 2 + Charge([next][1..]);
  }

  /** The word falls below zero exactly when the last section that holds text must go. */
  lemma SizeNegative(s: seq<Section>, k: nat)
    requires k <= |s| && AllHoldText(s)
    ensures SizeAt(s, k) == -2 <==> SizeAt(s, k) < 1
    ensures SizeAt(s, k) < 0 ==> forall i :: 0 <= i < |s| ==> s[i].priority != PROTECTED
    ensures SizeAt(s, |s|) < 0 <== forall i :: 0 <= i < |s| ==> s[i].priority != PROTECTED
  {
    OrderSorts(s, |s|);
    ChargeBounds(EmptiedTo(s, k));
    ChargeBounds(EmptiedTo(s, |s|));
    assert Order(s, |s|)[..|s|] == Order(s, |s|);
    if SizeAt(s, k) < 0 {
      forall i | 0 <= i < |s|
        ensures s[i].priority != PROTECTED
      {
        assert EmptiedTo(s, k)[i].text == "";
      }
    }
  }

  /** Emptying more never makes the prompt longer. */
  lemma {:induction false} SizeShrinks(s: seq<Section>, k: nat, m: nat)
    requires k <= m <= |s| && AllHoldText(s)
    ensures SizeAt(s, m) <= SizeAt(s, k)
    decreases m - k
  {
    if k < m {
      StepEmpties(s, k);
      SizeShrinks(s, k + 1, m);
    }
  }

  lemma SizeAtStart(s: seq<Section>)
    requires s != [] && AllHoldText(s)
    ensures SizeAt(s, 0) == TotalSize(s) && EmptiedTo(s, 0) == s
  {
    TotalSizeIsCharge(s);
    assert Order(s, |s|)[..0] == [];
  }

  /** Truncates in place. `current` is a machine word: when the subtraction would fall below zero,
      which aborts a checked build, the result is `true`. */
  method TruncateToBudget(sections: array<Section>, total: nat, cap: nat) returns (underflow: bool)
    requires total == TotalSize(sections[..]) && total > cap
    requires AllHoldText(sections[..])
    modifies sections
    ensures underflow <==>
              cap == 0 && forall i :: 0 <= i < sections.Length ==> old(sections[..])[i].priority != PROTECTED
    ensures !underflow ==> exists k, cut :: Outcome(old(sections[..]), cap, k, cut, sections[..])
    ensures !underflow ==> sections[..] == Shortened(old(sections[..]), cap)
  {
    hide EmptiedTo;
    hide SizeAt;
    hide Order;
    hide Needed;
    hide Outcome;
    hide At;
    hide AllHoldText;
    hide Indices;
    hide ByteLen;
    hide TotalSize;
    hide Truncated;
    ghost var s := sections[..];
    Start(s, cap);
    var indices := Order(sections[..], sections.Length);
    var current := total;
    var at := 0;
    ghost var cut := false;
    while at < |indices|
      invariant at <= |indices|
      invariant sections[..] == EmptiedTo(s, at)
      invariant current == SizeAt(s, at) && current >= 0
      invariant Needed(s, cap, at) && !cut
    {
      if current <= cap {
        break;
      }
      Round(s, cap, at);
      var idx := indices[at];
      assert sections[idx] == sections[..][idx];
      if sections[idx].priority == PROTECTED {
        at := at + 1;
        continue;
      }
      var sectionLen := ByteLen(sections[idx].text);
      ghost var before := sections[..];
      var needToRemove := current - cap;
      if sectionLen <= needToRemove {
        if current < sectionLen + 2 {
          return true;
        }
        current := current - (sectionLen + 2);
        sections[idx] := sections[idx].(text := "");
        assert sections[..] == before[idx := s[idx].(text := "")];
        at := at + 1;
      } else {
        var text := TruncateChars(sections[idx].text, sectionLen - needToRemove);
        sections[idx] := sections[idx].(text := text);
        assert sections[..] == before[idx := s[idx].(text := text)];
        CutOutcome(s, cap, at, sections[..]);
        OutcomeIsShortened(s, cap, at, true, sections[..]);
        cut := true;
        current := cap;
        break;
      }
    }
    if !cut {
      WholeOutcome(s, cap, at, sections[..]);
      OutcomeIsShortened(s, cap, at, false, sections[..]);
    }
    SizeNegative(s, at);
    SizeShrinks(s, at, |s|);
    return false;
  }

  lemma Start(s: seq<Section>, cap: nat)
    requires AllHoldText(s) && TotalSize(s) > cap
    ensures EmptiedTo(s, 0) == s && SizeAt(s, 0) == TotalSize(s) && Needed(s, cap, 0)
  {
    assert s != [];
    hide EmptiedTo;
    hide SizeAt;
    SizeAtStart(s);
    NeededStart(s, cap);
  }

  /** What one round of the loop finds and does. */
  lemma Round(s: seq<Section>, cap: nat, k: nat)
    requires k < |s| && AllHoldText(s) && Needed(s, cap, k) && SizeAt(s, k) > cap
    ensures var next := s[At(s, k)];
            && At(s, k) == Order(s, |s|)[k]
            && EmptiedTo(s, k)[At(s, k)] == next
            && SizeAt(s, k) >= ByteLen(next.text)
            && (next.priority == PROTECTED ==>
                  EmptiedTo(s, k + 1) == EmptiedTo(s, k) && SizeAt(s, k + 1) == SizeAt(s, k) && Needed(s, cap, k + 1))
            && (next.priority != PROTECTED ==>
                  && EmptiedTo(s, k + 1) == EmptiedTo(s, k)[At(s, k) := next.(text := "")]
                  && SizeAt(s, k + 1) == SizeAt(s, k) - (ByteLen(next.text) + 2)
                  && (ByteLen(next.text) <= SizeAt(s, k) - cap ==> Needed(s, cap, k + 1)))
    ensures SizeAt(s, k + 1) < 0 ==> forall i :: 0 <= i < |s| ==> s[i].priority != PROTECTED
    ensures SizeAt(s, k + 1) < 0 ==> SizeAt(s, k + 1) == -2
  {
    hide *;
    OrderLength(s);
    NextUntouched(s, k);
    StepEmpties(s, k);
    NeededStep(s, cap, k);
    SizeNegative(s, k + 1);
  }

  lemma CutOutcome(s: seq<Section>, cap: nat, k: nat, r: seq<Section>)
    requires k < |s| && Needed(s, cap, k) && s[At(s, k)].priority != PROTECTED
    requires 0 < SizeAt(s, k) - cap < ByteLen(s[At(s, k)].text)
    requires r == EmptiedTo(s, k)[At(s, k) := s[At(s, k)].(
                    text := Truncated(s[At(s, k)].text, ByteLen(s[At(s, k)].text) - (SizeAt(s, k) - cap)))]
    ensures Outcome(s, cap, k, true, r)
  {
  }

  lemma WholeOutcome(s: seq<Section>, cap: nat, k: nat, r: seq<Section>)
    requires k <= |s| && Needed(s, cap, k) && r == EmptiedTo(s, k) && (k == |s| || SizeAt(s, k) <= cap)
    ensures Outcome(s, cap, k, false, r)
  {
  }

  lemma NeededStart(s: seq<Section>, cap: nat)
    ensures Needed(s, cap, 0)
  {
  }

  lemma NeededStep(s: seq<Section>, cap: nat, k: nat)
    requires k < |s| && Needed(s, cap, k)
    ensures s[At(s, k)].priority == PROTECTED || SizeAt(s, k) >= cap + ByteLen(s[At(s, k)].text) ==>
              Needed(s, cap, k + 1)
  {
  }

  // ----- What the prompt is left with -----

  /** The cut section makes up for what was still too much, to within 3 bytes. */
  lemma CutFits(s: seq<Section>, cap: nat, k: nat, limit: nat)
    requires AllHoldText(s) && k < |s| && s[At(s, k)].priority != PROTECTED
    requires SizeAt(s, k) > cap && limit == ByteLen(s[At(s, k)].text) - (SizeAt(s, k) - cap)
    ensures var next := s[At(s, k)];
            Charge(EmptiedTo(s, k)[At(s, k) := next.(text := Truncated(next.text, limit))]) - 2 <= cap + 3
  {
    hide Truncated;
    var next := s[At(s, k)];
    var shorter := next.(text := Truncated(next.text, limit));
    TruncatedBytes(next.text, limit);
    NextUntouched(s, k);
    hide EmptiedTo;
    hide Order;
    ChargeUpdate(EmptiedTo(s, k), At(s, k), shorter);
    assert Charge([next]) == ByteLen(next.text) + 2 + Charge([next][1..]);
    assert Charge([shorter]) == ByteLen(shorter.text) + 2 + Charge([shorter][1..]);
  }

  /** The joined prompt exceeds the budget by at most 3 bytes, unless nothing but the protected
      sections is left. */
  lemma OutcomeFits(s: seq<Section>, cap: nat, k: nat, cut: bool, r: seq<Section>)
    requires AllHoldText(s) && Outcome(s, cap, k, cut, r)
    ensures ByteLen(JoinSections(r)) <= cap + 3 || (OnlyProtected(r) && r == EmptiedTo(s, |s|))
  {
    hide *;
    JoinedBytes(r);
    OutcomeIs(s, cap, k, cut, r);
    if cut {
      CutFits(s, cap, k, ByteLen(s[At(s, k)].text) - (SizeAt(s, k) - cap));
    } else if k == |s| {
      AllEmptied(s);
    } else {
      SizeAtIs(s, k);
    }
  }

  // ----- The outcome, from the sections and the cap alone -----

  /** After `k` sections the budget is met, or the next one need not go entirely. */
  predicate Stops(s: seq<Section>, cap: nat, k: nat) {
    k < |s| ==>
      || SizeAt(s, k) <= cap
      || (s[At(s, k)].priority != PROTECTED && SizeAt(s, k) - cap < ByteLen(s[At(s, k)].text))
  }

  /** The first such number of sections. */
  function StopFrom(s: seq<Section>, cap: nat, k: nat): (m: nat)
    requires k <= |s|
    ensures k <= m <= |s| && Stops(s, cap, m)
    ensures forall i :: k <= i < m ==> !Stops(s, cap, i)
    decreases |s| - k
  {
    if k == |s| || Stops(s, cap, k) then k else StopFrom(s, cap, k + 1)
  }

  /** The first sections in the order are emptied until the budget is met or the next one need not go
      entirely; that one is cut. */
  function Shortened(s: seq<Section>, cap: nat): seq<Section> {
    var m := StopFrom(s, cap, 0);
    if m == |s| || SizeAt(s, m) <= cap then EmptiedTo(s, m)
    else
      var next := s[At(s, m)];
      EmptiedTo(s, m)[At(s, m) := next.(text := Truncated(next.text, ByteLen(next.text) - (SizeAt(s, m) - cap)))]
  }

  lemma StopsIs(s: seq<Section>, cap: nat, k: nat)
    requires k < |s|
    ensures Stops(s, cap, k) <==>
            || SizeAt(s, k) <= cap
            || (s[At(s, k)].priority != PROTECTED && SizeAt(s, k) - cap < ByteLen(s[At(s, k)].text))
  {
    hide SizeAt;
    hide At;
  }

  lemma NeededAt(s: seq<Section>, cap: nat, k: nat, i: nat)
    requires AllHoldText(s) && k <= |s| && Needed(s, cap, k) && i < k
    ensures s[At(s, i)].priority != PROTECTED ==>
              SizeAt(s, i) >= cap + ByteLen(s[At(s, i)].text) && SizeAt(s, i) > cap
  {
    hide SizeAt;
    hide At;
    assert s[At(s, i)].text != "";
  }

  lemma StopFromIs(s: seq<Section>, cap: nat, k: nat)
    requires k <= |s| && (k == |s| || Stops(s, cap, k)) && forall i :: 0 <= i < k ==> !Stops(s, cap, i)
    ensures StopFrom(s, cap, 0) == k
  {
    hide Stops;
  }

  /** Emptying sections that are protected does nothing. */
  lemma {:induction false} OnlyProtectedBetween(s: seq<Section>, k: nat, m: nat)
    requires k <= m <= |s| && forall i :: k <= i < m ==> s[At(s, i)].priority == PROTECTED
    ensures EmptiedTo(s, m) == EmptiedTo(s, k)
    decreases m - k
  {
    hide *;
    if k < m {
      OnlyProtectedBetween(s, k, m - 1);
      NextUntouched(s, m - 1);
    }
  }

  /** There is only one outcome. */
  lemma OutcomeIsShortened(s: seq<Section>, cap: nat, k: nat, cut: bool, r: seq<Section>)
    requires AllHoldText(s) && Outcome(s, cap, k, cut, r)
    ensures r == Shortened(s, cap)
  {
    hide *;
    OutcomeIs(s, cap, k, cut, r);
    OutcomeNeeded(s, cap, k, cut, r);
    ShortenedIs(s, cap);
    var m := StopFrom(s, cap, 0);
    if cut {
      forall i | 0 <= i < k
        ensures !Stops(s, cap, i)
      {
        StopsIs(s, cap, i);
        NeededAt(s, cap, k, i);
        SizeShrinks(s, i, k);
      }
      StopsIs(s, cap, k);
      StopFromIs(s, cap, k);
    } else {
      FirstStop(s, cap, k);
    }
  }

  lemma OutcomeNeeded(s: seq<Section>, cap: nat, k: nat, cut: bool, r: seq<Section>)
    requires Outcome(s, cap, k, cut, r)
    ensures k <= |s| && Needed(s, cap, k)
  {
    hide Needed;
    hide EmptiedTo;
    hide SizeAt;
    hide Truncated;
    hide At;
  }

  lemma ShortenedIs(s: seq<Section>, cap: nat)
    ensures var m := StopFrom(s, cap, 0);
            && m <= |s|
            && Shortened(s, cap) ==
                 if m == |s| || SizeAt(s, m) <= cap then EmptiedTo(s, m)
                 else
                   var next := s[At(s, m)];
                   EmptiedTo(s, m)[At(s, m) :=
                     next.(text := Truncated(next.text, ByteLen(next.text) - (SizeAt(s, m) - cap)))]
  {
    hide StopFrom;
    hide EmptiedTo;
    hide SizeAt;
    hide Truncated;
    hide At;
  }

  lemma StopFromParts(s: seq<Section>, cap: nat)
    ensures var m := StopFrom(s, cap, 0);
            && m <= |s| && (m < |s| ==> Stops(s, cap, m)) && forall i :: 0 <= i < m ==> !Stops(s, cap, i)
  {
    hide Stops;
  }

  /** Where the budget was met without a cut, only protected sections come after the first stop. */
  lemma FirstStop(s: seq<Section>, cap: nat, k: nat)
    requires AllHoldText(s) && k <= |s| && Needed(s, cap, k) && (k == |s| || SizeAt(s, k) <= cap)
    ensures var m := StopFrom(s, cap, 0);
            m <= k && EmptiedTo(s, m) == EmptiedTo(s, k) && (m == |s| || SizeAt(s, m) <= cap)
  {
    hide *;
    var m := StopFrom(s, cap, 0);
    StopFromParts(s, cap);
    if k < |s| {
      StopsIs(s, cap, k);
    }
    if m < k {
      StopsIs(s, cap, m);
      NeededAt(s, cap, k, m);
      forall i | m <= i < k
        ensures s[At(s, i)].priority == PROTECTED
      {
        NeededAt(s, cap, k, i);
        SizeShrinks(s, m, i);
      }
      OnlyProtectedBetween(s, m, k);
    }
  }

  /** The prompt exceeds the budget at all exactly when the section that is cut has no character that
      ends right before its ellipsis, or, where none is, when the protected sections alone exceed it. */
  lemma ExceedsExactly(s: seq<Section>, cap: nat)
    requires AllHoldText(s) && TotalSize(s) > cap
    ensures ByteLen(JoinSections(Shortened(s, cap))) > cap <==>
            var m := StopFrom(s, cap, 0);
            if m < |s| && SizeAt(s, m) > cap then
              var next := s[At(s, m)];
              !EndsBeforeEllipsis(next.text, ByteLen(next.text) - (SizeAt(s, m) - cap))
            else SizeAt(s, |s|) > cap
  {
    hide *;
    var m := StopFrom(s, cap, 0);
    ShortenedIs(s, cap);
    StopFromParts(s, cap);
    JoinedBytes(Shortened(s, cap));
    if m < |s| && SizeAt(s, m) > cap {
      StopsIs(s, cap, m);
      CutExceedsExactly(s, cap, m, Shortened(s, cap));
    } else {
      SizeAtIs(s, m);
      SizeShrinks(s, m, |s|);
    }
  }

  /** The same in terms of how the outcome came about. */
  lemma OutcomeExceedsExactly(s: seq<Section>, cap: nat, k: nat, cut: bool, r: seq<Section>)
    requires AllHoldText(s) && Outcome(s, cap, k, cut, r)
    ensures k <= |s| && (cut ==> k < |s|)
    ensures ByteLen(JoinSections(r)) > cap <==>
            if cut then
              var next := s[At(s, k)];
              !EndsBeforeEllipsis(next.text, ByteLen(next.text) - (SizeAt(s, k) - cap))
            else SizeAt(s, |s|) > cap
  {
    hide *;
    JoinedBytes(r);
    OutcomeIs(s, cap, k, cut, r);
    if cut {
      CutExceedsExactly(s, cap, k, r);
    } else {
      SizeAtIs(s, k);
      SizeShrinks(s, k, |s|);
    }
  }

  lemma CutExceedsExactly(s: seq<Section>, cap: nat, k: nat, r: seq<Section>)
    requires k < |s| && s[At(s, k)].priority != PROTECTED
    requires var next := s[At(s, k)];
             && 0 < SizeAt(s, k) - cap < ByteLen(next.text)
             && r == EmptiedTo(s, k)[At(s, k) :=
                       next.(text := Truncated(next.text, ByteLen(next.text) - (SizeAt(s, k) - cap)))]
    ensures var next := s[At(s, k)];
            && Charge(r) >= 2
            && (Charge(r) - 2 > cap <==>
                !EndsBeforeEllipsis(next.text, ByteLen(next.text) - (SizeAt(s, k) - cap)))
  {
    hide *;
    var next := s[At(s, k)];
    var limit := ByteLen(next.text) - (SizeAt(s, k) - cap);
    NotEmpty(next.text);
    TruncatedWithinLimit(next.text, limit);
    TruncatedBytes(next.text, limit);
    CutCharge(s, k, Truncated(next.text, limit));
    SizeAtIs(s, k);
  }

  lemma NotEmpty(s: string)
    requires ByteLen(s) > 0
    ensures s != ""
  {
  }

  lemma CutCharge(s: seq<Section>, k: nat, text: string)
    requires k < |s| && s[At(s, k)].text != "" && text != ""
    ensures var next := s[At(s, k)];
            && Charge(EmptiedTo(s, k)[At(s, k) := next.(text := text)]) ==
                 Charge(EmptiedTo(s, k)) - ByteLen(next.text) + ByteLen(text)
            && Charge(EmptiedTo(s, k)[At(s, k) := next.(text := text)]) >= 2
  {
    hide *;
    var next := s[At(s, k)];
    var shorter := next.(text := text);
    NextUntouched(s, k);
    ChargeUpdate(EmptiedTo(s, k), At(s, k), shorter);
    ChargeOne(next);
    ChargeOne(shorter);
    ChargeBounds(EmptiedTo(s, k)[At(s, k) := shorter]);
    assert EmptiedTo(s, k)[At(s, k) := shorter][At(s, k)] == shorter;
  }

  lemma ChargeOne(s: Section)
    ensures Charge([s]) == if s.text == "" then 0 else ByteLen(s.text) + 2
  {
    assert [s][1..] == [];
  }

  lemma OutcomeIs(s: seq<Section>, cap: nat, k: nat, cut: bool, r: seq<Section>)
    requires Outcome(s, cap, k, cut, r)
    ensures k <= |s|
    ensures !cut ==> r == EmptiedTo(s, k) && (k == |s| || SizeAt(s, k) <= cap)
    ensures cut ==> k < |s| && At(s, k) < |s| && s[At(s, k)].priority != PROTECTED
    ensures cut ==>
              var next := s[At(s, k)];
              && 0 < SizeAt(s, k) - cap < ByteLen(next.text)
              && r == EmptiedTo(s, k)[At(s, k) :=
                        next.(text := Truncated(next.text, ByteLen(next.text) - (SizeAt(s, k) - cap)))]
  {
    hide EmptiedTo;
    hide SizeAt;
    hide Truncated;
    hide At;
  }

  lemma SizeAtIs(s: seq<Section>, k: nat)
    requires k <= |s|
    ensures SizeAt(s, k) == Charge(EmptiedTo(s, k)) - 2
  {
  }

  lemma AllEmptied(s: seq<Section>)
    ensures OnlyProtected(EmptiedTo(s, |s|))
  {
    OrderSorts(s, |s|);
    assert Order(s, |s|)[..|s|] == Order(s, |s|);
    hide Order;
  }

  /** Whatever comes among the first `k` precedes whatever does not. */
  lemma OrderRanks(s: seq<Section>, k: nat, a: nat, b: nat)
    requires k <= |s| && a < |s| && b < |s|
    requires a in Order(s, |s|)[..k] && b !in Order(s, |s|)[..k]
    ensures Precedes(s, a, b)
  {
    var o := Order(s, |s|);
    OrderSorts(s, |s|);
    assert b in o;
    var i :| 0 <= i < k && o[..k][i] == a;
    var j :| 0 <= j < |o| && o[j] == b;
    assert j >= k by {
      assert forall m :: 0 <= m < k ==> o[m] in o[..k];
    }
    assert Precedes(s, o[i], o[j]);
  }

  /** Sections are given up strictly in order: whatever was emptied or cut precedes every section
      that could have been and was not. */
  lemma OutcomeByPriority(s: seq<Section>, cap: nat, k: nat, cut: bool, r: seq<Section>, a: nat, b: nat)
    requires AllHoldText(s) && Outcome(s, cap, k, cut, r)
    requires a < |s| && b < |s| && r[a] != s[a] && r[b] == s[b] && s[b].priority != PROTECTED
    ensures Precedes(s, a, b)
  {
    hide *;
    var o := Order(s, |s|);
    OutcomeIs(s, cap, k, cut, r);
    OrderLength(s);
    ChangedOrNot(s, cap, k, cut, r, a);
    ChangedOrNot(s, cap, k, cut, r, b);
    if a in o[..k] {
      if cut {
        NextUntouched(s, k);
        NextIsLater(s, k);
      }
      OrderRanks(s, k, a, b);
    } else {
      assert o[..k + 1] == o[..k] + [o[k]];
      OrderRanks(s, k + 1, a, b);
    }
  }

  lemma OrderLength(s: seq<Section>)
    ensures |Order(s, |s|)| == |s|
    ensures forall k :: 0 <= k < |s| ==> At(s, k) == Order(s, |s|)[k]
  {
    hide Order;
  }

  lemma NextIsLater(s: seq<Section>, k: nat)
    requires k < |s|
    ensures Order(s, |s|)[k] !in Order(s, |s|)[..k]
  {
    var o := Order(s, |s|);
    OrderSorts(s, |s|);
    hide Order;
    forall i | 0 <= i < k
      ensures o[..k][i] != o[k]
    {
      assert Precedes(s, o[i], o[k]);
    }
  }

  /** A section that may be given up was changed exactly when it is among the first `k`, or the one
      that was cut. */
  lemma ChangedOrNot(s: seq<Section>, cap: nat, k: nat, cut: bool, r: seq<Section>, i: nat)
    requires AllHoldText(s) && Outcome(s, cap, k, cut, r) && i < |s|
    ensures k <= |s| && |r| == |s| && (cut ==> k < |s|)
    ensures r[i] != s[i] ==> i in Order(s, |s|)[..k] || (cut && i == Order(s, |s|)[k])
    ensures r[i] == s[i] && s[i].priority != PROTECTED ==> i !in Order(s, |s|)[..k] || (cut && i == Order(s, |s|)[k])
  {
    OutcomeIs(s, cap, k, cut, r);
    hide Outcome;
    hide SizeAt;
    hide Order;
    hide Truncated;
  }

  /** Protected sections are untouched, and at most one section keeps part of its text. */
  lemma OutcomeSpares(s: seq<Section>, cap: nat, k: nat, cut: bool, r: seq<Section>)
    requires AllHoldText(s) && Outcome(s, cap, k, cut, r)
    ensures |r| == |s|
    ensures forall i :: 0 <= i < |s| && s[i].priority == PROTECTED ==> r[i] == s[i]
    ensures forall a, b ::
              0 <= a < |s| && 0 <= b < |s| && r[a] != s[a] && r[b] != s[b] && r[a].text != "" && r[b].text != ""
              ==> a == b
  {
    hide Order;
  }

  // ----- Building the prompt -----

  /** Sections that render to nothing are dropped, the others cut to their own limit. */
  function Rendered(sources: seq<Source>): (s: seq<Section>)
  {
    if sources == [] then []
    else
      var src := sources[0];
      var text := if src.maxChars.Some? then Truncated(src.content, src.maxChars.value) else src.content;
      (if src.content == "" then [] else [Section(src.priority, text)]) + Rendered(sources[1..])
  }

  /** The sections are those of the sources with some content, in order, each cut to its own limit. */
  ghost predicate AreRendered(sources: seq<Source>, s: seq<Section>) {
    exists kept :: Keeps(sources, kept, (src: Source) => src.content != "") && AreCut(kept, s)
  }

  ghost predicate AreCut(sources: seq<Source>, s: seq<Section>) {
    |s| == |sources| &&
    forall i :: 0 <= i < |s| ==>
      && s[i].priority == sources[i].priority
      && match sources[i].maxChars
         case None => s[i].text == sources[i].content
         case Some(max) => IsCutTo(sources[i].content, max, s[i].text)
  }

  function WithContent(sources: seq<Source>): seq<Source> {
    if sources == [] then []
    else (if sources[0].content != "" then [sources[0]] else []) + WithContent(sources[1..])
  }

  lemma {:induction false} WithContentKeeps(sources: seq<Source>)
    ensures Keeps(sources, WithContent(sources), (src: Source) => src.content != "")
  {
    var holds := (src: Source) => src.content != "";
    if sources == [] {
      KeepsNothing(holds);
    } else {
      WithContentKeeps(sources[1..]);
      KeepsFirst(sources, WithContent(sources[1..]), holds);
    }
  }

  lemma {:induction false} RenderedAreCut(sources: seq<Source>)
    ensures AreCut(WithContent(sources), Rendered(sources))
  {
    if sources != [] {
      RenderedAreCut(sources[1..]);
      if sources[0].maxChars.Some? {
        TruncatedIs(sources[0].content, sources[0].maxChars.value);
      }
      hide IsCutTo;
      hide Truncated;
    }
  }

  lemma RenderedAre(sources: seq<Source>)
    ensures AreRendered(sources, Rendered(sources))
  {
    WithContentKeeps(sources);
    RenderedAreCut(sources);
    hide AreCut;
  }

  lemma {:induction false} RenderedHoldText(sources: seq<Source>)
    ensures AllHoldText(Rendered(sources))
  {
    if sources != [] {
      RenderedHoldText(sources[1..]);
      if sources[0].maxChars.Some? {
        TruncatedBytes(sources[0].content, sources[0].maxChars.value);
      }
    }
  }

  /** The prompt within its budget; `None` when the size word would fall below zero, which happens
      only for a budget of 0 with nothing protected. */
  method Build(sources: seq<Source>, cap: nat) returns (prompt: Option<string>)
    ensures var s := Rendered(sources);
            prompt == None <==> cap == 0 && s != [] && forall i :: 0 <= i < |s| ==> s[i].priority != PROTECTED
    ensures prompt.Some? && TotalSize(Rendered(sources)) <= cap ==>
              prompt.value == JoinSections(Rendered(sources)) && ByteLen(prompt.value) == TotalSize(Rendered(sources))
    ensures prompt.Some? ==>
              var s := Rendered(sources);
              ByteLen(prompt.value) <= cap + 3 || prompt.value == JoinSections(EmptiedTo(s, |s|))
    ensures prompt.Some? && TotalSize(Rendered(sources)) > cap ==>
              prompt.value == JoinSections(Shortened(Rendered(sources), cap))
    ensures var s := Rendered(sources);
            && AreRendered(sources, s)
            && (prompt.Some? ==> IsPrompt(prompt.value, if TotalSize(s) <= cap then s else Shortened(s, cap)))
  {
    hide *;
    ghost var s := Rendered(sources);
    RenderedAre(sources);
    JoinedIsPrompt(s);
    JoinedIsPrompt(Shortened(s, cap));
    var rendered := Rendered(sources);
    RenderedHoldText(sources);
    SizeOfFresh(rendered);
    var total := TotalSize(rendered);
    if total <= cap {
      return Some(JoinSections(rendered));
    }
    var sections := new Section[|rendered|](i requires 0 <= i < |rendered| => rendered[i]);
    assert sections[..] == rendered;
    var underflow := TruncateToBudget(sections, total, cap);
    if underflow {
      return None;
    }
    ghost var k, cut :| Outcome(rendered, cap, k, cut, sections[..]);
    OutcomeFits(rendered, cap, k, cut, sections[..]);
    prompt := Some(JoinSections(sections[..]));
  }

  lemma SizeOfFresh(s: seq<Section>)
    requires AllHoldText(s)
    ensures ByteLen(JoinSections(s)) == TotalSize(s)
    ensures s != [] ==> TotalSize(s) > 0
    ensures s == [] ==> TotalSize(s) == 0
  {
    JoinedBytes(s);
    TotalSizeIsCharge(s);
    ChargeBounds(s);
  }
}
