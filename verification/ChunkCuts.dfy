/** Where a reply is cut, in terms of the text alone: each chunk ends at the last paragraph end, line end
    or word end in the second half of what fits, or takes all that fits. */
module ChunkCuts {
  import opened Wrappers
  import opened Unicode
  import opened Fences
  import opened ChunkText
  import opened ChunkProperties

  /** `n` is the greatest number of leading characters that take at most `room` bytes. */
  predicate FitExactly(s: string, room: nat, n: nat) {
    n <= |s| && ByteLen(s[..n]) <= room && (n < |s| ==> ByteLen(s[..n + 1]) > room)
  }

  /** The needle starts at `i`, at `lower` at least and `upper` at most, and nowhere later up to there. */
  predicate LastStart(s: string, needle: string, lower: nat, upper: nat, i: nat) {
    && lower <= i <= upper && StartsWith(s, needle, i)
    && forall j: nat :: i < j <= upper ==> !StartsWith(s, needle, j)
  }

  predicate NoStartIn(s: string, needle: string, lower: nat, upper: nat) {
    forall j: nat :: lower <= j <= upper ==> !StartsWith(s, needle, j)
  }

  /** Where `n` characters fit, a paragraph end in the second half wins over a line end there, this over
      a blank, and among equals the last one wins. */
  predicate CutsWell(s: string, n: nat, cut: nat) {
    || LastStart(s, "\n\n", n / 2, n, cut)
    || (NoStartIn(s, "\n\n", n / 2, n) && LastStart(s, "\n", n / 2, n, cut))
    || (NoStartIn(s, "\n\n", n / 2, n) && NoStartIn(s, "\n", n / 2, n) && LastStart(s, " ", n / 2, n, cut))
    || (NoStartIn(s, "\n\n", n / 2, n) && NoStartIn(s, "\n", n / 2, n) && NoStartIn(s, " ", n / 2, n) && cut == n)
  }

  lemma {:induction false} FittingExactly(s: string, room: nat)
    ensures FitExactly(s, room, Fitting(s, room))
  {
    var n := Fitting(s, room);
    if n > 0 {
      FittingExactly(s[1..], room - Width(s[0]));
      assert s[..n][1..] == s[1..][..n - 1];
      if n < |s| {
        assert s[..n + 1][1..] == s[1..][..n];
      }
    } else if s != "" {
      assert s[..1][1..] == "";
    }
  }

  lemma {:induction false} BytesGrow(s: string, i: nat, j: nat)
    requires i <= j <= |s|
    ensures ByteLen(s[..i]) <= ByteLen(s[..j]) && (i < j ==> ByteLen(s[..i]) < ByteLen(s[..j]))
  {
    ByteLenSplit(s[..j], i);
    assert s[..j][..i] == s[..i];
    hide ByteLen;
  }

  /** Only one number fits exactly. */
  lemma FitUnique(s: string, room: nat, a: nat, b: nat)
    requires FitExactly(s, room, a) && FitExactly(s, room, b)
    ensures a == b
  {
    hide ByteLen;
    if a < b {
      BytesGrow(s, a + 1, b);
    } else if b < a {
      BytesGrow(s, b + 1, a);
    }
  }

  lemma LastAboveIs(s: string, needle: string, n: nat)
    requires needle != ""
    ensures match LastAbove(s, needle, n, n / 2)
            case Some(i) => LastStart(s, needle, n / 2, n, i)
            case None => NoStartIn(s, needle, n / 2, n)
  {
    hide StartsWith;
  }

  lemma CutAtCutsWell(s: string, n: nat)
    ensures CutsWell(s, n, CutAt(s, n))
  {
    LastAboveIs(s, "\n\n", n);
    LastAboveIs(s, "\n", n);
    LastAboveIs(s, " ", n);
    hide LastAbove;
    hide StartsWith;
  }

  /** One iteration of the loop: what it cuts off is decided by the bytes left beside the opener, and
      all whitespace after the cut is dropped. */
  ghost predicate IsCutOff(remaining: string, p: Piece, cap: nat) {
    && |p.body| + |p.dropped| <= |remaining| && p.body + p.dropped == remaining[..|p.body| + |p.dropped|]
    && (|p.body| + |p.dropped| < |remaining| ==> !IsWhitespace(remaining[|p.body| + |p.dropped|]))
    && (forall c :: c in p.dropped ==> IsWhitespace(c))
    && forall n: nat :: FitExactly(remaining, BytesBeside(p.carry, cap), n) ==> CutsWell(remaining, n, |p.body|)
  }

  /** The bytes an opener "```tag\n" leaves, one at least. */
  function BytesBeside(carry: Option<string>, cap: nat): nat {
    var opener := if carry.Some? then 4 + ByteLen(carry.value) else 0;
    if opener < cap then cap - opener else 1
  }

  lemma NextIsCutOff(remaining: string, carry: Option<string>, cap: nat)
    ensures IsCutOff(remaining, Next(remaining, carry, cap), cap)
  {
    var p := Next(remaining, carry, cap);
    var room := BytesBeside(carry, cap);
    OpenerBytes(carry);
    assert Room(carry, cap) == room;
    var n := Fitting(remaining, room);
    assert |p.body| == CutAt(remaining, n);
    DroppedIsWhitespace(remaining, carry, cap);
    FittingExactly(remaining, room);
    CutAtCutsWell(remaining, n);
    hide *;
    forall m: nat | FitExactly(remaining, room, m)
      ensures CutsWell(remaining, m, |p.body|)
    {
      FitUnique(remaining, room, n, m);
    }
    NextParts(remaining, carry, cap);
    CutOffIs(remaining, p, carry, cap);
  }

  lemma NextParts(remaining: string, carry: Option<string>, cap: nat)
    ensures var p := Next(remaining, carry, cap);
            && p.carry == carry && |p.body| + |p.dropped| <= |remaining|
            && p.body + p.dropped == remaining[..|p.body| + |p.dropped|]
            && (|p.body| + |p.dropped| < |remaining| ==> !IsWhitespace(remaining[|p.body| + |p.dropped|]))
  {
    var p := Next(remaining, carry, cap);
    var cut := |p.body|;
    assert |p.dropped| == LeadingWs(remaining[cut..]);
    assert cut + |p.dropped| < |remaining| ==> remaining[cut..][|p.dropped|] == remaining[cut + |p.dropped|];
    hide CutAt;
    hide Fitting;
    hide UnclosedTag;
    hide IsWhitespace;
  }

  lemma CutOffIs(remaining: string, p: Piece, carry: Option<string>, cap: nat)
    requires p.carry == carry && |p.body| + |p.dropped| <= |remaining|
    requires p.body + p.dropped == remaining[..|p.body| + |p.dropped|]
    requires |p.body| + |p.dropped| < |remaining| ==> !IsWhitespace(remaining[|p.body| + |p.dropped|])
    requires forall c :: c in p.dropped ==> IsWhitespace(c)
    requires forall n: nat ::
               FitExactly(remaining, BytesBeside(carry, cap), n) ==> CutsWell(remaining, n, |p.body|)
    ensures IsCutOff(remaining, p, cap)
  {
    hide CutsWell;
    hide FitExactly;
    hide IsWhitespace;
    hide BytesBeside;
  }

  // ----- Whole replies -----

  /** Every piece is cut off what is left of the text while that exceeds the cap; the rest is the tail. */
  ghost predicate WellCut(remaining: string, ps: seq<Piece>, cap: nat)
    decreases |ps|
  {
    if ps == [] then remaining == ""
    else if ps[0].ending.Tail? then |ps| == 1 && ps[0].body == remaining && ByteLen(remaining) <= cap
    else
      && ByteLen(remaining) > cap && IsCutOff(remaining, ps[0], cap)
      && WellCut(remaining[|ps[0].body| + |ps[0].dropped|..], ps[1..], cap)
  }

  lemma {:induction false} PiecesWellCut(remaining: string, carry: Option<string>, cap: nat)
    requires Pieces(remaining, carry, cap).Some?
    ensures WellCut(remaining, Pieces(remaining, carry, cap).value, cap)
    decreases |remaining|
  {
    hide *;
    if ByteLen(remaining) > cap {
      var p, ps := PiecesFirst(remaining, carry, cap);
      NextIsCutOff(remaining, carry, cap);
      PiecesWellCut(remaining[|p.body| + |p.dropped|..], Carried(p), cap);
      FirstWellCut(remaining, p, ps, cap);
    } else {
      PiecesTail(remaining, carry, cap);
      TailWellCut(remaining, Pieces(remaining, carry, cap).value, cap);
    }
  }

  lemma PiecesFirst(remaining: string, carry: Option<string>, cap: nat) returns (p: Piece, ps: seq<Piece>)
    requires Pieces(remaining, carry, cap).Some? && ByteLen(remaining) > cap
    ensures p == Next(remaining, carry, cap) && !p.ending.Tail?
    ensures 0 < |p.body| + |p.dropped| <= |remaining|
    ensures Pieces(remaining[|p.body| + |p.dropped|..], Carried(p), cap) == Some(ps)
    ensures Pieces(remaining, carry, cap) == Some([p] + ps)
  {
    hide Next;
    hide Carried;
    hide ByteLen;
    p := Next(remaining, carry, cap);
    ps := Pieces(Rest(remaining, p), Carried(p), cap).value;
  }

  lemma PiecesTail(remaining: string, carry: Option<string>, cap: nat)
    requires Pieces(remaining, carry, cap).Some? && ByteLen(remaining) <= cap
    ensures var ps := Pieces(remaining, carry, cap).value;
            if ps == [] then remaining == "" else |ps| == 1 && ps[0].ending.Tail? && ps[0].body == remaining
  {
  }

  lemma FirstWellCut(remaining: string, p: Piece, ps: seq<Piece>, cap: nat)
    requires !p.ending.Tail? && |p.body| + |p.dropped| <= |remaining|
    requires ByteLen(remaining) > cap && IsCutOff(remaining, p, cap)
    requires WellCut(remaining[|p.body| + |p.dropped|..], ps, cap)
    ensures WellCut(remaining, [p] + ps, cap)
  {
    hide ByteLen;
    hide IsCutOff;
    assert ([p] + ps)[1..] == ps;
  }

  lemma TailWellCut(remaining: string, ps: seq<Piece>, cap: nat)
    requires ByteLen(remaining) <= cap
    requires if ps == [] then remaining == "" else |ps| == 1 && ps[0].ending.Tail? && ps[0].body == remaining
    ensures WellCut(remaining, ps, cap)
  {
    hide ByteLen;
  }

  /** Where a reply is cut. */
  lemma RepliesAreWellCut(text: string, cap: nat)
    requires PiecesOf(text, cap).Some?
    ensures WellCut(text, PiecesOf(text, cap).value, cap)
  {
    if ByteLen(text) > cap {
      PiecesWellCut(text, None, cap);
    }
  }
}
