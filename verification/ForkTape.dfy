/** Forks of a tape: inside a fork, writes go to a store in memory and reads overlay it on the
    parent's log; at its end the fork is merged back or dropped. */
module ForkTape {
  import opened Wrappers
  import opened Tape
  import opened Sequences

  // ----- Queries -----

  /** `kinds` empty means every kind. */
  datatype Query = Query(tape: string, kinds: seq<Kind>, afterLast: bool, afterAnchor: Option<string>)

  datatype FetchError = NotFound

  /** What the query builder can produce: one selection at most, and no empty anchor name. */
  predicate Buildable(q: Query) {
    q.afterAnchor.Some? ==> !q.afterLast && q.afterAnchor.value != ""
  }

  predicate Selects(q: Query) {
    q.afterLast || q.afterAnchor.Some?
  }

  predicate Matches(e: Entry, q: Query) {
    e.kind.Anchor? && (q.afterLast || (q.afterAnchor.Some? && e.name == q.afterAnchor))
  }

  /** The greatest index of an anchor the query selects. */
  function LastMatch(entries: seq<Entry>, q: Query): (r: Option<nat>)
    ensures r.Some? ==> r.value < |entries| && Matches(entries[r.value], q)
    ensures forall i :: 0 <= i < |entries| && Matches(entries[i], q) ==> r.Some? && i <= r.value
  {
    if entries == [] then None
    else
      var last := |entries| - 1;
      if Matches(entries[last], q) then Some(last) else LastMatch(entries[..last], q)
  }

  predicate Wanted(e: Entry, kinds: seq<Kind>) {
    kinds == [] || e.kind in kinds
  }

  function OfKinds(entries: seq<Entry>, kinds: seq<Kind>): seq<Entry> {
    if entries == [] then []
    else (if Wanted(entries[0], kinds) then [entries[0]] else []) + OfKinds(entries[1..], kinds)
  }

  /** Exactly the entries of the kinds asked for, in order; all of them when none is. */
  lemma {:induction false} OfKindsKeeps(entries: seq<Entry>, kinds: seq<Kind>)
    ensures Keeps(entries, OfKinds(entries, kinds), (e: Entry) => kinds == [] || e.kind in kinds)
  {
    var asked := (e: Entry) => kinds == [] || e.kind in kinds;
    if entries == [] {
      KeepsNothing(asked);
    } else {
      OfKindsKeeps(entries[1..], kinds);
      KeepsFirst(entries, OfKinds(entries[1..], kinds), asked);
    }
  }

  /** A query of one log. */
  function Fetch(log: seq<Entry>, q: Query): Result<seq<Entry>, FetchError> {
    if !Selects(q) then Ok(OfKinds(log, q.kinds))
    else
      match LastMatch(log, q)
      case None => Err(NotFound)
      case Some(i) => Ok(OfKinds(log[i + 1..], q.kinds))
  }

  // ----- The overlay -----

  predicate Boundary(e: Entry, q: Query) {
    e.kind.Anchor? && (q.afterLast || q.afterAnchor == Some(if e.name.Some? then e.name.value else ""))
  }

  /** The entries kept so far, followed by those a fork adds: a boundary the kind filter lets
      through drops everything before it, parent included. */
  function Overlay(kept: seq<Entry>, fork: seq<Entry>, q: Query): seq<Entry>
    decreases |fork|
  {
    if fork == [] then kept
    else
      var e := fork[0];
      if !Wanted(e, q.kinds) then Overlay(kept, fork[1..], q)
      else if Boundary(e, q) then Overlay([], fork[1..], q)
      else Overlay(kept + [e], fork[1..], q)
  }

  /** What the overlay takes from the parent: nothing after an error. */
  function Answer(r: Result<seq<Entry>, FetchError>): seq<Entry> {
    if r.Ok? then r.value else []
  }

  function IfWanted(e: Entry, kinds: seq<Kind>): seq<Entry> {
    if Wanted(e, kinds) then [e] else []
  }

  lemma OfKindsStep(entries: seq<Entry>, kinds: seq<Kind>)
    ensures OfKinds(entries, kinds) ==
            if entries == [] then [] else IfWanted(entries[0], kinds) + OfKinds(entries[1..], kinds)
  {
    hide Wanted;
  }

  lemma {:induction false} OfKindsConcat(a: seq<Entry>, b: seq<Entry>, kinds: seq<Kind>)
    ensures OfKinds(a + b, kinds) == OfKinds(a, kinds) + OfKinds(b, kinds)
    decreases |a|
  {
    hide *;
    OfKindsStep(a, kinds);
    if a == [] {
      assert a + b == b;
    } else {
      OfKindsStep(a + b, kinds);
      assert (a + b)[1..] == a[1..] + b;
      OfKindsConcat(a[1..], b, kinds);
    }
  }

  lemma OfKindsSplit(entries: seq<Entry>, k: nat, kinds: seq<Kind>)
    requires k < |entries|
    ensures OfKinds(entries, kinds) ==
            OfKinds(entries[..k], kinds) +
            ((if Wanted(entries[k], kinds) then [entries[k]] else []) + OfKinds(entries[k + 1..], kinds))
  {
    OfKindsConcat(entries[..k], entries[k..], kinds);
    assert entries == entries[..k] + entries[k..];
    assert entries[k..][1..] == entries[k + 1..];
  }

  lemma {:induction false} AllWanted(entries: seq<Entry>)
    ensures OfKinds(entries, []) == entries
  {
    if entries != [] {
      AllWanted(entries[1..]);
    }
  }

  lemma BoundaryMatches(e: Entry, q: Query)
    requires Buildable(q)
    ensures Boundary(e, q) <==> Matches(e, q)
  {
  }

  predicate AnchorsSeen(q: Query) {
    q.kinds == [] || Kind.Anchor in q.kinds
  }

  lemma {:induction false} OverlayWithoutBoundary(kept: seq<Entry>, fork: seq<Entry>, q: Query)
    requires forall i :: 0 <= i < |fork| ==> !Wanted(fork[i], q.kinds) || !Boundary(fork[i], q)
    ensures Overlay(kept, fork, q) == kept + OfKinds(fork, q.kinds)
    decreases |fork|
  {
    hide Boundary;
    hide Wanted;
    if fork == [] {
      assert kept + [] == kept;
    } else {
      var e := fork[0];
      assert forall i :: 0 <= i < |fork[1..]| ==> fork[1..][i] == fork[i + 1];
      if Wanted(e, q.kinds) {
        OverlayWithoutBoundary(kept + [e], fork[1..], q);
        assert kept + ([e] + OfKinds(fork[1..], q.kinds)) == kept + [e] + OfKinds(fork[1..], q.kinds);
      } else {
        OverlayWithoutBoundary(kept, fork[1..], q);
        assert [] + OfKinds(fork[1..], q.kinds) == OfKinds(fork[1..], q.kinds);
      }
    }
  }

  /** Only what follows the last boundary the filter lets through survives. */
  lemma {:induction false} OverlayFromBoundary(kept: seq<Entry>, fork: seq<Entry>, q: Query, k: nat)
    requires k < |fork| && Wanted(fork[k], q.kinds) && Boundary(fork[k], q)
    requires forall i :: k < i < |fork| ==> !Wanted(fork[i], q.kinds) || !Boundary(fork[i], q)
    ensures Overlay(kept, fork, q) == OfKinds(fork[k + 1..], q.kinds)
    decreases |fork|
  {
    hide Boundary;
    hide Wanted;
    var e, rest := fork[0], fork[1..];
    assert forall i :: 0 <= i < |rest| ==> rest[i] == fork[i + 1];
    if k == 0 {
      OverlayWithoutBoundary([], rest, q);
      assert [] + OfKinds(rest, q.kinds) == OfKinds(rest, q.kinds);
    } else {
      assert rest[k..] == fork[k + 1..];
      var next := if !Wanted(e, q.kinds) then kept else if Boundary(e, q) then [] else kept + [e];
      OverlayFromBoundary(next, rest, q, k - 1);
    }
  }

  // ----- Against one flat log -----

  lemma LastMatchStep(entries: seq<Entry>, q: Query)
    ensures LastMatch(entries, q) ==
            if entries == [] then None
            else if Matches(entries[|entries| - 1], q) then Some(|entries| - 1)
            else LastMatch(entries[..|entries| - 1], q)
  {
  }

  lemma SnocOfConcat(a: seq<Entry>, b: seq<Entry>)
    requires b != []
    ensures (a + b)[..|a + b| - 1] == a + b[..|b| - 1] && (a + b)[|a + b| - 1] == b[|b| - 1]
  {
  }

  lemma {:induction false} LastMatchConcat(parent: seq<Entry>, fork: seq<Entry>, q: Query)
    ensures LastMatch(parent + fork, q) ==
            if LastMatch(fork, q).Some? then Some(|parent| + LastMatch(fork, q).value) else LastMatch(parent, q)
    decreases |fork|
  {
    hide *;
    LastMatchStep(fork, q);
    if fork == [] {
      assert parent + fork == parent;
    } else {
      SnocOfConcat(parent, fork);
      LastMatchStep(parent + fork, q);
      LastMatchConcat(parent, fork[..|fork| - 1], q);
    }
  }

  /** Whether entries the selection should have dropped stay in the overlay: the kind filter hides
      the fork's last selected anchor, and lets through entries from before it. */
  predicate Leaks(parent: seq<Entry>, fork: seq<Entry>, q: Query) {
    && !AnchorsSeen(q)
    && LastMatch(fork, q).Some?
    && (Answer(Fetch(parent, q)) != [] || OfKinds(fork[..LastMatch(fork, q).value], q.kinds) != [])
  }

  /** The overlay refines one flat log, exactly: a fetch that selects no anchor always agrees with
      the same fetch of the parent's entries followed by the fork's. One that selects an anchor
      agrees if and only if such an anchor exists and nothing leaks past the fork's. */
  lemma OverlayAgreesExactly(parent: seq<Entry>, fork: seq<Entry>, q: Query)
    requires Buildable(q)
    ensures Fetch(parent + fork, q) == Ok(Overlay(Answer(Fetch(parent, q)), fork, q)) <==>
            !Selects(q) || (LastMatch(parent + fork, q).Some? && !Leaks(parent, fork, q))
  {
    hide Overlay;
    if !Selects(q) {
      AgreesUnselected(parent, fork, q);
    } else {
      LastMatchConcat(parent, fork, q);
      if LastMatch(fork, q).Some? {
        if AnchorsSeen(q) {
          AgreesInFork(parent, fork, q);
        } else {
          AgreesHidden(parent, fork, q);
        }
      } else if LastMatch(parent, q).Some? {
        AgreesInParent(parent, fork, q);
      }
    }
  }

  lemma AgreesUnselected(parent: seq<Entry>, fork: seq<Entry>, q: Query)
    requires Buildable(q) && !Selects(q)
    ensures Fetch(parent + fork, q) == Ok(Overlay(Answer(Fetch(parent, q)), fork, q))
  {
    OverlayWithoutBoundary(OfKinds(parent, q.kinds), fork, q);
    OfKindsConcat(parent, fork, q.kinds);
  }

  lemma ForkSuffix(parent: seq<Entry>, fork: seq<Entry>, k: nat)
    requires k < |fork|
    ensures (parent + fork)[|parent| + k + 1..] == fork[k + 1..]
  {
  }

  lemma FetchIs(log: seq<Entry>, q: Query)
    ensures Fetch(log, q) ==
            if !Selects(q) then Ok(OfKinds(log, q.kinds))
            else if LastMatch(log, q).None? then Err(NotFound)
            else Ok(OfKinds(log[LastMatch(log, q).value + 1..], q.kinds))
  {
  }

  lemma LastMatchBounds(entries: seq<Entry>, q: Query)
    ensures LastMatch(entries, q).Some? ==> LastMatch(entries, q).value < |entries|
  {
  }

  lemma BoundaryAt(fork: seq<Entry>, q: Query, k: nat)
    requires Buildable(q) && AnchorsSeen(q) && LastMatch(fork, q) == Some(k)
    ensures k < |fork| && Wanted(fork[k], q.kinds) && Boundary(fork[k], q)
    ensures forall i :: k < i < |fork| ==> !Wanted(fork[i], q.kinds) || !Boundary(fork[i], q)
  {
    forall i | 0 <= i < |fork|
      ensures Boundary(fork[i], q) <==> Matches(fork[i], q)
    {
      BoundaryMatches(fork[i], q);
    }
  }

  lemma AgreesInFork(parent: seq<Entry>, fork: seq<Entry>, q: Query)
    requires Buildable(q) && Selects(q) && LastMatch(fork, q).Some? && AnchorsSeen(q)
    ensures Fetch(parent + fork, q) == Ok(Overlay(Answer(Fetch(parent, q)), fork, q))
  {
    hide *;
    var k := LastMatch(fork, q).value;
    LastMatchConcat(parent, fork, q);
    BoundaryAt(fork, q, k);
    LastMatchBounds(parent + fork, q);
    ForkSuffix(parent, fork, k);
    FetchIs(parent + fork, q);
    OverlayFromBoundary(Answer(Fetch(parent, q)), fork, q, k);
  }

  lemma NeverBoundary(fork: seq<Entry>, q: Query)
    requires Buildable(q) && (AnchorsSeen(q) ==> LastMatch(fork, q).None?)
    ensures forall i :: 0 <= i < |fork| ==> !Wanted(fork[i], q.kinds) || !Boundary(fork[i], q)
  {
    forall i | 0 <= i < |fork|
      ensures !Wanted(fork[i], q.kinds) || !Boundary(fork[i], q)
    {
      BoundaryMatches(fork[i], q);
    }
  }

  lemma AgreesInParent(parent: seq<Entry>, fork: seq<Entry>, q: Query)
    requires Buildable(q) && Selects(q) && LastMatch(fork, q).None? && LastMatch(parent, q).Some?
    ensures Fetch(parent + fork, q) == Ok(Overlay(Answer(Fetch(parent, q)), fork, q))
  {
    var k := LastMatch(parent, q).value;
    LastMatchConcat(parent, fork, q);
    NeverBoundary(fork, q);
    OverlayWithoutBoundary(Answer(Fetch(parent, q)), fork, q);
    assert (parent + fork)[k + 1..] == parent[k + 1..] + fork;
    OfKindsConcat(parent[k + 1..], fork, q.kinds);
  }

  lemma AgreesHidden(parent: seq<Entry>, fork: seq<Entry>, q: Query)
    requires Buildable(q) && Selects(q) && LastMatch(fork, q).Some? && !AnchorsSeen(q)
    ensures Fetch(parent + fork, q) == Ok(Overlay(Answer(Fetch(parent, q)), fork, q)) <==> !Leaks(parent, fork, q)
  {
    hide *;
    var k := LastMatch(fork, q).value;
    var kept := Answer(Fetch(parent, q));
    LastMatchBounds(fork, q);
    LastMatchConcat(parent, fork, q);
    LastMatchBounds(parent + fork, q);
    ForkSuffix(parent, fork, k);
    NeverBoundary(fork, q);
    OverlayWithoutBoundary(kept, fork, q);
    OfKindsSplit(fork, k, q.kinds);
    UnwantedMatch(fork, q, k);
    var before, after := OfKinds(fork[..k], q.kinds), OfKinds(fork[k + 1..], q.kinds);
    NothingFirst(after);
    LengthDecides(kept, before, after);
    FetchIs(parent + fork, q);
    LeaksIs(parent, fork, q);
  }

  lemma UnwantedMatch(fork: seq<Entry>, q: Query, k: nat)
    requires !AnchorsSeen(q) && LastMatch(fork, q) == Some(k)
    ensures k < |fork| && !Wanted(fork[k], q.kinds)
  {
  }

  lemma NothingFirst(entries: seq<Entry>)
    ensures [] + entries == entries
  {
  }

  lemma LeaksIs(parent: seq<Entry>, fork: seq<Entry>, q: Query)
    requires !AnchorsSeen(q) && LastMatch(fork, q).Some?
    ensures Leaks(parent, fork, q) <==>
            Answer(Fetch(parent, q)) != [] || OfKinds(fork[..LastMatch(fork, q).value], q.kinds) != []
  {
  }

  lemma LengthDecides(kept: seq<Entry>, before: seq<Entry>, after: seq<Entry>)
    ensures kept + (before + after) == after <==> kept == [] && before == []
  {
    if kept + (before + after) == after {
      assert |kept + (before + after)| == |kept| + |before| + |after|;
    }
  }
}
