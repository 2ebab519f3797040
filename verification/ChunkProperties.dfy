/** What splitting guarantees: text is conserved, chunks respect their true bound, fences stay
    balanced, and the loop ends whenever every tag leaves room for a character. */
module ChunkProperties {
  import opened Wrappers
  import opened Unicode
  import opened Fences
  import opened ChunkText

  // ----- Fences of a chunk -----

  ghost predicate CleanCarry(carry: Option<string>) {
    carry.Some? ==> CleanTag(carry.value)
  }

  /** The reopened fence is the first one of its chunk, and the rest is scanned as if it were not
      there. */
  lemma OpenerTags(tag: string, body: string)
    requires CleanTag(tag)
    ensures var s := Opener(Some(tag)) + body;
            Tags(s, 0) == [tag] + Tags(body, 0)
  {
    var s := Opener(Some(tag)) + body;
    var j := 3 + |tag|;
    assert s[3..j] == tag;
    assert s[j] == '\n';
    assert forall k :: 3 <= k < j ==> s[k] == tag[k - 3];
    TagEndIs(s, 3, j);
    assert Tags(s, 0) == [tag] + Tags(s, j);
    assert s[j + 1..] == body;
    TagsShift(s, j + 1, 0);
    assert |s| < j + 3 ==> Tags(s, j + 1) == [];
  }

  lemma {:induction false} TagEndIs(s: string, i: nat, j: nat)
    requires i <= j < |s| && EndsTag(s[j]) && forall k :: i <= k < j ==> !EndsTag(s[k])
    ensures TagEnd(s, i) == j
    decreases j - i
  {
    if i < j {
      TagEndIs(s, i + 1, j);
    }
  }

  lemma {:induction false} TagsShift(s: string, k: nat, i: nat)
    requires k + i <= |s|
    ensures Tags(s[k..], i) == Tags(s, k + i)
    decreases |s| - i
  {
    hide *;
    TagsStep(s[k..], i);
    TagsStep(s, k + i);
    if k + i + 3 <= |s| {
      FenceShift(s, k, i);
      if FenceAt(s, k + i) {
        TagEndShift(s, k, i + 3);
        var j := TagEnd(s[k..], i + 3);
        SliceOfSuffix(s, k, i + 3, j);
        TagsShift(s, k, j);
      } else {
        TagsShift(s, k, i + 1);
      }
    }
  }

  lemma TagsStep(s: string, i: nat)
    requires i <= |s|
    ensures Tags(s, i) ==
            if |s| < i + 3 then []
            else if FenceAt(s, i) then [s[i + 3..TagEnd(s, i + 3)]] + Tags(s, TagEnd(s, i + 3))
            else Tags(s, i + 1)
  {
  }

  lemma FenceShift(s: string, k: nat, i: nat)
    requires k + i + 3 <= |s|
    ensures FenceAt(s[k..], i) <==> FenceAt(s, k + i)
  {
  }

  lemma TagsOfPiece(carry: Option<string>, body: string)
    requires CleanCarry(carry)
    ensures Tags(Opener(carry) + body, 0) == (if carry.Some? then [carry.value] else []) + Tags(body, 0)
  {
    if carry.Some? {
      OpenerTags(carry.value, body);
    } else {
      assert "" + body == body;
    }
  }

  function Open(carry: Option<string>): nat {
    if carry.Some? then 1 else 0
  }

  /** A piece carries a fence on exactly when it holds an odd number of them. */
  lemma CarriedIsParity(p: Piece)
    requires CleanCarry(p.carry)
    ensures Open(Carried(p)) == (Open(p.carry) + FenceCount(p.body)) % 2
    ensures CleanCarry(Carried(p))
  {
    TagsOfPiece(p.carry, p.body);
    ScannerCountsRuns(p.body, 0);
    assert p.body[0..] == p.body;
    var s := Opener(p.carry) + p.body;
    TagsAreTags(s, 0, ByteLen(s)) by {
      forall i: nat | FenceAt(s, i)
        ensures ByteLen(s[i + 3..TagEnd(s, i + 3)]) <= ByteLen(s)
      {
        SliceBytes(s, i + 3, TagEnd(s, i + 3));
      }
    }
  }

  lemma SliceBytes(s: string, i: nat, j: nat)
    requires i <= j <= |s|
    ensures ByteLen(s[i..j]) <= ByteLen(s)
  {
    ByteLenSplit(s, j);
    ByteLenSplit(s[..j], i);
    assert s[..j][i..] == s[i..j];
  }

  /** An iteration that consumes nothing leaves the loop in the state it was in. */
  lemma StuckIsFixpoint(remaining: string, carry: Option<string>, cap: nat)
    requires CleanCarry(carry) && Stuck(remaining, carry, cap)
    ensures var p := Next(remaining, carry, cap);
            Rest(remaining, p) == remaining && Carried(p) == carry
  {
    var p := Next(remaining, carry, cap);
    TagsOfPiece(carry, p.body);
    assert Tags("", 0) == [];
  }

  lemma OpenerFences(carry: Option<string>, body: string)
    requires CleanCarry(carry)
    ensures FenceCount(Opener(carry) + body) == Open(carry) + FenceCount(body)
  {
    TagsOfPiece(carry, body);
    ScannerCountsRuns(body, 0);
    ScannerCountsRuns(Opener(carry) + body, 0);
    assert body[0..] == body && (Opener(carry) + body)[0..] == Opener(carry) + body;
  }

  /** Every chunk but a tail holds an even number of fences. */
  lemma ChunkBalanced(p: Piece)
    requires CleanCarry(p.carry) && !p.ending.Tail? && (p.ending.Closed? <==> Carried(p).Some?)
    ensures |Tags(Render(p), 0)| % 2 == 0
  {
    hide RunCount;
    hide Pending;
    hide Tags;
    hide Carried;
    var s := Opener(p.carry) + p.body;
    CarriedIsParity(p);
    OpenerFences(p.carry, p.body);
    if p.ending.Closed? {
      FencesConcat(s, "\n" + FENCE, 0);
      ClosingFence(Pending(s, 0));
    } else {
      assert Render(p) == s;
    }
    ScannerCountsFences(Render(p));
  }

  lemma ClosingFence(p: nat)
    requires p < 3
    ensures RunCount("\n" + FENCE, p) == 1
  {
    var s := "\n```";
    assert s[1..] == "```" && s[1..][1..] == "``" && s[1..][1..][1..] == "`" && s[1..][1..][1..][1..] == "";
    assert RunCount("", 0) == 0;
    assert RunCount("`", 2) == 1;
    assert RunCount("``", 1) == 1;
    assert RunCount("```", 0) == 1;
  }

  // ----- Whole runs -----

  /** How each piece follows from the one before. */
  ghost predicate Linked(ps: seq<Piece>, carry: Option<string>)
    decreases |ps|
  {
    ps == [] ||
    (&& ps[0].carry == carry && CleanCarry(carry)
     && (ps[0].ending.Tail? ==> |ps| == 1 && ps[0].dropped == "")
     && (!ps[0].ending.Tail? ==>
           && (ps[0].ending.Closed? <==> Carried(ps[0]).Some?)
           && Linked(ps[1..], Carried(ps[0]))))
  }

  lemma {:induction false} PiecesLinked(remaining: string, carry: Option<string>, cap: nat)
    requires CleanCarry(carry) && Pieces(remaining, carry, cap).Some?
    ensures Linked(Pieces(remaining, carry, cap).value, carry)
    decreases |remaining|
  {
    if ByteLen(remaining) > cap {
      var p := Next(remaining, carry, cap);
      CarriedIsParity(p);
      PiecesLinked(Rest(remaining, p), Carried(p), cap);
      var ps := Pieces(Rest(remaining, p), Carried(p), cap).value;
      assert ([p] + ps)[1..] == ps;
    }
  }

  /** Closing and reopening: a closed chunk is followed by one that reopens the same tag, any other
      by one that reopens nothing; and every chunk but the tail is balanced. */
  lemma {:induction false} LinkedFences(ps: seq<Piece>, carry: Option<string>, i: nat)
    requires Linked(ps, carry) && i < |ps|
    ensures CleanCarry(ps[i].carry) && (ps[i].ending.Tail? ==> i == |ps| - 1)
    ensures !ps[i].ending.Tail? ==> |Tags(Render(ps[i]), 0)| % 2 == 0
    ensures i + 1 < |ps| ==>
              ps[i + 1].carry == if ps[i].ending.Closed? then UnclosedTag(Opener(ps[i].carry) + ps[i].body) else None
    decreases |ps|
  {
    if i == 0 {
      if !ps[0].ending.Tail? {
        ChunkBalanced(ps[0]);
        if |ps| > 1 {
          assert ps[1] == ps[1..][0];
        }
      }
    } else {
      LinkedFences(ps[1..], Carried(ps[0]), i - 1);
    }
  }

  // ----- Conservation -----

  /** The pieces put back together, dropped whitespace included. */
  function Flatten(ps: seq<Piece>): string {
    if ps == [] then "" else ps[0].body + ps[0].dropped + Flatten(ps[1..])
  }

  lemma {:induction false} PiecesConserve(remaining: string, carry: Option<string>, cap: nat)
    requires Pieces(remaining, carry, cap).Some?
    ensures var ps := Pieces(remaining, carry, cap).value;
            && Flatten(ps) == remaining
            && forall i :: 0 <= i < |ps| ==> forall c :: c in ps[i].dropped ==> IsWhitespace(c)
    decreases |remaining|
  {
    hide *;
    var ps := Pieces(remaining, carry, cap).value;
    var p := Next(remaining, carry, cap);
    var rest := Rest(remaining, p);
    if ByteLen(remaining) > cap {
      NextIs(remaining, carry, cap);
      PiecesUnfold(remaining, carry, cap);
      PiecesConserve(rest, Carried(p), cap);
      DroppedIsWhitespace(remaining, carry, cap);
      FlattenStep(p, Pieces(rest, Carried(p), cap).value);
      RestCompletes(remaining, p, carry, cap);
    } else {
      TailConserves(remaining, carry, cap);
    }
  }

  lemma PiecesUnfold(remaining: string, carry: Option<string>, cap: nat)
    requires ByteLen(remaining) > cap && Pieces(remaining, carry, cap).Some?
    ensures var p := Next(remaining, carry, cap);
            var rest := Rest(remaining, p);
            && |rest| < |remaining| && Pieces(rest, Carried(p), cap).Some?
            && Pieces(remaining, carry, cap).value == [p] + Pieces(rest, Carried(p), cap).value
  {
    hide Next;
    hide Carried;
  }

  lemma FlattenStep(p: Piece, ps: seq<Piece>)
    ensures Flatten([p] + ps) == p.body + p.dropped + Flatten(ps)
  {
    assert ([p] + ps)[1..] == ps;
  }

  lemma RestCompletes(remaining: string, p: Piece, carry: Option<string>, cap: nat)
    requires p == Next(remaining, carry, cap)
    ensures p.body + p.dropped + Rest(remaining, p) == remaining
  {
    hide Next;
  }

  lemma TailConserves(remaining: string, carry: Option<string>, cap: nat)
    requires ByteLen(remaining) <= cap
    ensures Pieces(remaining, carry, cap).Some?
    ensures var ps := Pieces(remaining, carry, cap).value;
            && Flatten(ps) == remaining
            && forall i :: 0 <= i < |ps| ==> forall c :: c in ps[i].dropped ==> IsWhitespace(c)
  {
    var ps := Pieces(remaining, carry, cap).value;
    if remaining != "" {
      assert ps[1..] == [];
    }
  }

  lemma DroppedIsWhitespace(remaining: string, carry: Option<string>, cap: nat)
    ensures forall c :: c in Next(remaining, carry, cap).dropped ==> IsWhitespace(c)
  {
    var p := Next(remaining, carry, cap);
    var rest := remaining[|p.body|..];
    assert p.dropped == rest[..LeadingWs(rest)];
    forall i | 0 <= i < |p.dropped|
      ensures IsWhitespace(p.dropped[i])
    {
      assert p.dropped[i] == rest[i];
    }
  }

  /** No text is lost but whitespace after a cut, and nothing is added but openers and closers. */
  lemma TextConserved(text: string, cap: nat)
    requires PiecesOf(text, cap).Some?
    ensures var ps := PiecesOf(text, cap).value;
            && Flatten(ps) == text
            && forall i :: 0 <= i < |ps| ==> forall c :: c in ps[i].dropped ==> IsWhitespace(c)
  {
    if ByteLen(text) <= cap {
      var ps := PiecesOf(text, cap).value;
      assert ps[1..] == [];
    } else {
      PiecesConserve(text, None, cap);
    }
  }

  lemma PiecesOfLinked(text: string, cap: nat)
    requires PiecesOf(text, cap).Some?
    ensures Linked(PiecesOf(text, cap).value, None)
  {
    if ByteLen(text) > cap {
      PiecesLinked(text, None, cap);
    }
  }

  /** Fence safety of a whole reply. */
  lemma FencesSafe(text: string, cap: nat, i: nat)
    requires PiecesOf(text, cap).Some? && i < |PiecesOf(text, cap).value|
    ensures var ps := PiecesOf(text, cap).value;
            && (i < |ps| - 1 ==> |Tags(Render(ps[i]), 0)| % 2 == 0)
            && (i + 1 < |ps| ==>
                  ps[i + 1].carry == if ps[i].ending.Closed? then UnclosedTag(Opener(ps[i].carry) + ps[i].body)
                    else None)
  {
    PiecesOfLinked(text, cap);
    LinkedFences(PiecesOf(text, cap).value, None, i);
  }

  // ----- The fences of the last chunk -----

  /** How many cuts separate the backticks of a fence. */
  function SeveredCuts(ps: seq<Piece>): nat {
    if |ps| <= 1 then 0
    else (if Severs(Pending(ps[0].body + ps[0].dropped, 0), Flatten(ps[1..])) then 1 else 0) + SeveredCuts(ps[1..])
  }

  /** Whether the reply, read chunk by chunk, ends inside a fence: its tail does, or its last piece
      had to be closed. */
  function OpenAtEnd(ps: seq<Piece>, carry: Option<string>): nat {
    if ps == [] then Open(carry)
    else if ps[0].ending.Tail? then FenceCount(Render(ps[0])) % 2
    else OpenAtEnd(ps[1..], Carried(ps[0]))
  }

  lemma PieceFences(body: string, dropped: string, rest: string)
    requires forall c :: c in dropped ==> IsWhitespace(c)
    ensures FenceCount(body + dropped + rest) == FenceCount(body) + FenceCount(rest) +
              if Severs(Pending(body + dropped, 0), rest) then 1 else 0
  {
    FencesConcat(body + dropped, rest, 0);
    FencesConcat(body, dropped, 0);
    NoBackticks(dropped, Pending(body, 0));
    SeveringLosesOne(rest, Pending(body + dropped, 0));
  }

  function Lost(ps: seq<Piece>): nat
    requires ps != []
  {
    if Severs(Pending(ps[0].body + ps[0].dropped, 0), Flatten(ps[1..])) then 1 else 0
  }

  lemma EndStep(ps: seq<Piece>, carry: Option<string>)
    requires ps != [] && Linked(ps, carry) && !ps[0].ending.Tail?
    ensures Linked(ps[1..], Carried(ps[0])) && ps[0].carry == carry
    ensures OpenAtEnd(ps, carry) == OpenAtEnd(ps[1..], Carried(ps[0]))
    ensures SeveredCuts(ps) == Lost(ps) + SeveredCuts(ps[1..])
    ensures Flatten(ps) == ps[0].body + ps[0].dropped + Flatten(ps[1..])
  {
    hide Carried;
    hide Pending;
    if |ps| == 1 {
      assert Flatten(ps[1..]) == "";
      NothingSevered(Pending(ps[0].body + ps[0].dropped, 0));
    }
  }

  lemma EndTail(ps: seq<Piece>, carry: Option<string>)
    requires ps != [] && Linked(ps, carry) && ps[0].ending.Tail?
    ensures OpenAtEnd(ps, carry) == (Open(carry) + FenceCount(Flatten(ps))) % 2
    ensures SeveredCuts(ps) == 0
  {
    var p := ps[0];
    assert ps[1..] == [];
    assert Flatten(ps) == p.body;
    OpenerFences(carry, p.body);
    assert Render(p) == Opener(carry) + p.body;
  }

  lemma {:induction false} EndParity(ps: seq<Piece>, carry: Option<string>)
    requires Linked(ps, carry) && CleanCarry(carry)
    requires forall i :: 0 <= i < |ps| ==> forall c :: c in ps[i].dropped ==> IsWhitespace(c)
    ensures (OpenAtEnd(ps, carry) + SeveredCuts(ps)) % 2 == (Open(carry) + FenceCount(Flatten(ps))) % 2
    decreases |ps|
  {
    if ps == [] {
    } else if ps[0].ending.Tail? {
      EndTail(ps, carry);
    } else {
      EndCut(ps, carry);
    }
  }

  lemma {:induction false} EndCut(ps: seq<Piece>, carry: Option<string>)
    requires ps != [] && !ps[0].ending.Tail? && Linked(ps, carry) && CleanCarry(carry)
    requires forall i :: 0 <= i < |ps| ==> forall c :: c in ps[i].dropped ==> IsWhitespace(c)
    ensures (OpenAtEnd(ps, carry) + SeveredCuts(ps)) % 2 == (Open(carry) + FenceCount(Flatten(ps))) % 2
    decreases |ps|, 0
  {
    hide *;
    var p := ps[0];
    EndStep(ps, carry);
    CarriedIsParity(p);
    assert forall i :: 0 <= i < |ps[1..]| ==> ps[1..][i] == ps[i + 1];
    EndParity(ps[1..], Carried(p));
    PieceFencesLost(ps);
  }

  lemma PieceFencesLost(ps: seq<Piece>)
    requires ps != [] && forall c :: c in ps[0].dropped ==> IsWhitespace(c)
    ensures FenceCount(ps[0].body + ps[0].dropped + Flatten(ps[1..])) ==
            FenceCount(ps[0].body) + FenceCount(Flatten(ps[1..])) + Lost(ps)
  {
    PieceFences(ps[0].body, ps[0].dropped, Flatten(ps[1..]));
  }

  lemma NothingSevered(p: nat)
    requires p < 3
    ensures !Severs(p, "")
  {
  }

  /** The chunks end inside a fence exactly when the text does, up to the parity of the cuts that
      separated the backticks of a fence. */
  lemma LastChunkParity(text: string, cap: nat)
    requires PiecesOf(text, cap).Some?
    ensures var ps := PiecesOf(text, cap).value;
            && OpenAtEnd(ps, None) == (|Tags(text, 0)| + SeveredCuts(ps)) % 2
            && (OpenAtEnd(ps, None) == |Tags(text, 0)| % 2 <==> SeveredCuts(ps) % 2 == 0)
  {
    hide *;
    var ps := PiecesOf(text, cap).value;
    PiecesOfLinked(text, cap);
    TextConserved(text, cap);
    EndParityFromStart(ps);
    ScannerCountsFences(text);
    OpenIsBit(ps, None);
  }

  lemma EndParityFromStart(ps: seq<Piece>)
    requires Linked(ps, None)
    requires forall i :: 0 <= i < |ps| ==> forall c :: c in ps[i].dropped ==> IsWhitespace(c)
    ensures (OpenAtEnd(ps, None) + SeveredCuts(ps)) % 2 == FenceCount(Flatten(ps)) % 2
  {
    EndParity(ps, None);
  }

  lemma ScannerCountsFences(text: string)
    ensures |Tags(text, 0)| == FenceCount(text)
  {
    ScannerCountsRuns(text, 0);
    assert text[0..] == text;
  }

  lemma {:induction false} OpenIsBit(ps: seq<Piece>, carry: Option<string>)
    ensures OpenAtEnd(ps, carry) <= 1
    decreases |ps|
  {
    if ps != [] && !ps[0].ending.Tail? {
      OpenIsBit(ps[1..], Carried(ps[0]));
    }
  }

  // ----- Sizes -----

  lemma {:induction false} FittingBytes(s: string, cap: nat)
    ensures ByteLen(s[..Fitting(s, cap)]) <= cap
  {
    var n := Fitting(s, cap);
    if n > 0 {
      FittingBytes(s[1..], cap - Width(s[0]));
      assert s[..n][1..] == s[1..][..n - 1];
    }
  }

  /** What one iteration cuts off, with its opener, fits the cap, or is a single character where
      the opener alone fills it. */
  lemma NextBytes(remaining: string, carry: Option<string>, cap: nat)
    ensures var p := Next(remaining, carry, cap);
            var opener := ByteLen(Opener(carry));
            ByteLen(Opener(carry) + p.body) <= if opener + 1 <= cap then cap else opener + 1
  {
    var p := Next(remaining, carry, cap);
    var fits := Fitting(remaining, Room(carry, cap));
    FittingBytes(remaining, Room(carry, cap));
    ByteLenSplit(remaining[..fits], |p.body|);
    assert remaining[..fits][..|p.body|] == p.body;
    ByteLenConcat(Opener(carry), p.body);
  }

  lemma RenderBytes(p: Piece)
    ensures ByteLen(Render(p)) == ByteLen(Opener(p.carry) + p.body) + if p.ending.Closed? then 4 else 0
  {
    if p.ending.Closed? {
      ByteLenConcat(Opener(p.carry) + p.body, "\n" + FENCE);
      assert "\n" + FENCE == "\n```";
      assert ByteLen("\n```") == 4;
    } else {
      assert Opener(p.carry) + p.body + "" == Opener(p.carry) + p.body;
    }
  }

  lemma OpenerBytes(carry: Option<string>)
    ensures ByteLen(Opener(carry)) == if carry.Some? then 4 + ByteLen(carry.value) else 0
  {
    if carry.Some? {
      ByteLenConcat(FENCE + carry.value, "\n");
      ByteLenConcat(FENCE, carry.value);
      assert ByteLen(FENCE) == 3 && ByteLen("\n") == 1;
    }
  }

  ghost predicate CarryWithin(carry: Option<string>, bound: int) {
    CleanCarry(carry) && (carry.Some? ==> ByteLen(carry.value) <= bound)
  }

  lemma CutsPrefix(remaining: string, p: Piece)
    requires |p.body| + |p.dropped| <= |remaining| && p.body + p.dropped == remaining[..|p.body| + |p.dropped|]
    ensures p.body == remaining[..|p.body|]
  {
    assert (p.body + p.dropped)[..|p.body|] == p.body;
  }

  lemma NextIs(remaining: string, carry: Option<string>, cap: nat)
    ensures var p := Next(remaining, carry, cap);
            && p.carry == carry && |p.body| + |p.dropped| <= |remaining|
            && p.body == remaining[..|p.body|]
            && Rest(remaining, p) == remaining[|p.body| + |p.dropped|..]
  {
    hide CutAt;
    hide Fitting;
    hide UnclosedTag;
    CutsPrefix(remaining, Next(remaining, carry, cap));
  }

  /** The tag carried on is one of those the scanner meets. */
  lemma CarriedIsTag(p: Piece)
    requires Carried(p).Some?
    ensures Carried(p).value in Tags(Opener(p.carry) + p.body, 0)
  {
    hide Tags;
  }

  lemma TagsOfText(carry: Option<string>, tags: seq<string>, bound: int, tag: string)
    requires CarryWithin(carry, bound) && (forall t :: t in tags ==> CleanTag(t) && ByteLen(t) <= bound)
    requires tag in (if carry.Some? then [carry.value] else []) + tags
    ensures CarryWithin(Some(tag), bound)
  {
    hide ByteLen;
    hide CleanTag;
  }

  /** A tag that is carried was found in the text. */
  lemma CarriedWithin(remaining: string, carry: Option<string>, cap: nat, bound: int)
    requires TagsWithin(remaining, bound) && CarryWithin(carry, bound)
    ensures var p := Next(remaining, carry, cap);
            CarryWithin(Carried(p), bound) && TagsWithin(Rest(remaining, p), bound)
  {
    hide *;
    var p := Next(remaining, carry, cap);
    NextIs(remaining, carry, cap);
    TagsWithinSuffix(remaining, |p.body| + |p.dropped|, bound);
    TagsWithinPrefix(remaining, |p.body|, bound);
    TagsAreTags(p.body, 0, bound);
    WithinIsClean(carry, bound);
    TagsOfPiece(carry, p.body);
    if Carried(p).Some? {
      CarriedIsTag(p);
      TagsOfText(carry, Tags(p.body, 0), bound, Carried(p).value);
    } else {
      NoneWithin(bound);
    }
  }

  lemma WithinIsClean(carry: Option<string>, bound: int)
    requires CarryWithin(carry, bound)
    ensures CleanCarry(carry)
  {
  }

  lemma NoneWithin(bound: int)
    ensures CarryWithin(None, bound)
  {
  }

  /** The bound on a chunk, given that no tag exceeds `bound` bytes. */
  predicate FitsBound(p: Piece, cap: nat, bound: int) {
    var chunk := ByteLen(Render(p));
    match p.ending
    case Plain => chunk <= cap
    case Closed => chunk <= cap + 4
    case Tail => chunk <= cap + if p.carry.Some? then 4 + bound else 0
  }

  lemma {:induction false} PiecesFit(remaining: string, carry: Option<string>, cap: nat, bound: int)
    requires Pieces(remaining, carry, cap).Some?
    requires cap >= 1 && bound + 5 <= cap && TagsWithin(remaining, bound) && CarryWithin(carry, bound)
    ensures forall p :: p in Pieces(remaining, carry, cap).value ==> FitsBound(p, cap, bound)
    ensures carry.None? && (forall i: nat :: !FenceAt(remaining, i)) ==>
              forall p :: p in Pieces(remaining, carry, cap).value ==> !p.ending.Closed? && p.carry.None?
    decreases |remaining|
  {
    OpenerBytes(carry);
    if ByteLen(remaining) > cap {
      var p := Next(remaining, carry, cap);
      NextBytes(remaining, carry, cap);
      RenderBytes(p);
      CarriedWithin(remaining, carry, cap, bound);
      PiecesFit(Rest(remaining, p), Carried(p), cap, bound);
      if carry.None? && forall i: nat :: !FenceAt(remaining, i) {
        CarriedWithin(remaining, carry, cap, -1);
      }
    } else if remaining != "" {
      var p := Piece(carry, remaining, Tail, "");
      RenderBytes(p);
      ByteLenConcat(Opener(carry), remaining);
    }
  }

  /** Chunks respect the cap up to the 4 bytes of a closing fence, and the tail up to its opener,
      when every tag leaves room for one more byte. */
  lemma ChunksFit(text: string, cap: nat, bound: int)
    requires PiecesOf(text, cap).Some? && cap >= 1 && bound + 5 <= cap && TagsWithin(text, bound)
    ensures forall p :: p in PiecesOf(text, cap).value ==> FitsBound(p, cap, bound)
  {
    if ByteLen(text) > cap {
      PiecesFit(text, None, cap, bound);
    } else {
      RenderBytes(Piece(None, text, Tail, ""));
      assert "" + text == text;
    }
  }

  /** Without fences the promise of at most `cap` bytes is kept. */
  lemma FencelessChunksFit(text: string, cap: nat)
    requires PiecesOf(text, cap).Some? && cap >= 1 && forall i: nat :: !FenceAt(text, i)
    ensures forall p :: p in PiecesOf(text, cap).value ==> ByteLen(Render(p)) <= cap
  {
    if ByteLen(text) > cap {
      PiecesFit(text, None, cap, -4);
    } else {
      RenderBytes(Piece(None, text, Tail, ""));
      assert "" + text == text;
    }
  }

  // ----- Termination -----

  /** An iteration consumes nothing exactly when the next character is neither whitespace nor small
      enough for the room beside the opener. */
  lemma StuckExactly(remaining: string, carry: Option<string>, cap: nat)
    requires ByteLen(remaining) > cap
    ensures remaining != ""
    ensures Stuck(remaining, carry, cap) <==>
            !IsWhitespace(remaining[0]) && Width(remaining[0]) > Room(carry, cap)
  {
    var room := Room(carry, cap);
    var fits := Fitting(remaining, room);
    var cut := CutAt(remaining, fits);
    var p := Next(remaining, carry, cap);
    assert |p.body| == cut && |p.dropped| == LeadingWs(remaining[cut..]);
    assert remaining[0..] == remaining;
    hide *;
    FirstFits(remaining, room);
    LeadingWsFirst(remaining);
    assert Stuck(remaining, carry, cap) <==> p.body == "" && p.dropped == "" by {
      StuckIs(remaining, carry, cap);
    }
    if cut == 0 && fits > 0 {
      CutAtWhitespace(remaining, fits);
    }
  }

  lemma StuckIs(remaining: string, carry: Option<string>, cap: nat)
    requires ByteLen(remaining) > cap
    ensures Stuck(remaining, carry, cap) <==>
            Next(remaining, carry, cap).body == "" && Next(remaining, carry, cap).dropped == ""
  {
  }

  lemma FirstFits(s: string, room: nat)
    requires s != ""
    ensures Fitting(s, room) == 0 <==> Width(s[0]) > room
  {
  }

  lemma LeadingWsFirst(s: string)
    requires s != ""
    ensures LeadingWs(s) == 0 <==> !IsWhitespace(s[0])
  {
  }

  /** Cutting before the first character means it is whitespace. */
  lemma CutAtWhitespace(s: string, fits: nat)
    requires 0 < fits <= |s| && CutAt(s, fits) == 0
    ensures IsWhitespace(s[0])
  {
    var para := LastAbove(s, "\n\n", fits, fits / 2);
    var line := LastAbove(s, "\n", fits, fits / 2);
    var word := LastAbove(s, " ", fits, fits / 2);
    if para.Some? {
      assert s[0..2] == "\n\n" && s[0..2][0] == s[0];
    } else if line.Some? {
      assert s[0..1] == "\n" && s[0..1][0] == s[0];
    } else {
      assert s[0..1] == " " && s[0..1][0] == s[0];
    }
  }

  ghost predicate WidthsWithin(s: string, w: nat) {
    forall i :: 0 <= i < |s| && !IsWhitespace(s[i]) ==> Width(s[i]) <= w
  }

  lemma {:induction false} PiecesEnd(remaining: string, carry: Option<string>, cap: nat, w: nat, bound: int)
    requires WidthsWithin(remaining, w)
    requires w <= 1 || (w + 4 + bound <= cap && w <= cap)
    requires TagsWithin(remaining, bound) && CarryWithin(carry, bound)
    ensures Pieces(remaining, carry, cap).Some?
    decreases |remaining|
  {
    hide Next;
    hide Carried;
    hide IsWhitespace;
    hide TagsWithin;
    hide CleanCarry;
    if ByteLen(remaining) > cap {
      OpenerBytes(carry);
      StuckExactly(remaining, carry, cap);
      var p := Next(remaining, carry, cap);
      CarriedWithin(remaining, carry, cap, bound);
      var rest := Rest(remaining, p);
      forall i | 0 <= i < |rest| && !IsWhitespace(rest[i])
        ensures Width(rest[i]) <= w
      {
        assert rest[i] == remaining[|p.body| + |p.dropped| + i];
      }
      PiecesEnd(rest, Carried(p), cap, w, bound);
    }
  }

  /** Splitting ends when the cap has room for an opener with the longest tag and the widest
      character; so does any text of one-byte characters, whatever the cap. */
  lemma ChunkEnds(text: string, cap: nat, w: nat, bound: int)
    requires WidthsWithin(text, w) && TagsWithin(text, bound)
    requires w <= 1 || (w + 4 + bound <= cap && w <= cap)
    ensures PiecesOf(text, cap).Some?
  {
    if ByteLen(text) > cap {
      PiecesEnd(text, None, cap, w, bound);
    }
  }

  /** The instance that holds for every text: 8 bytes beyond the longest tag. */
  lemma ChunkEndsWithRoom(text: string, cap: nat)
    requires cap >= 8 && TagsWithin(text, cap - 8)
    ensures PiecesOf(text, cap).Some?
  {
    ChunkEnds(text, cap, 4, cap - 8);
  }

  lemma {:induction false} FittingStopsAt(s: string, cap: nat, i: nat)
    requires i < |s| && Width(s[i]) > cap
    ensures Fitting(s, cap) <= i
  {
    if i > 0 && Width(s[0]) <= cap {
      FittingStopsAt(s[1..], cap - Width(s[0]), i - 1);
    }
  }

  lemma {:induction false} ByteLenAtLeast(s: string, i: nat)
    requires i < |s|
    ensures ByteLen(s) >= Width(s[i])
  {
    if i > 0 {
      ByteLenAtLeast(s[1..], i - 1);
    }
  }

  predicate TooWide(c: char, cap: nat) {
    !IsWhitespace(c) && Width(c) > if cap == 0 then 1 else cap
  }

  lemma DroppedAt(remaining: string, carry: Option<string>, cap: nat)
    ensures var p := Next(remaining, carry, cap);
            forall m :: |p.body| <= m < |p.body| + |p.dropped| ==> IsWhitespace(remaining[m])
  {
    var p := Next(remaining, carry, cap);
    DroppedIsWhitespace(remaining, carry, cap);
    var whole := p.body + p.dropped;
    forall m | |p.body| <= m < |p.body| + |p.dropped|
      ensures IsWhitespace(remaining[m])
    {
      assert remaining[m] == whole[m] == p.dropped[m - |p.body|];
    }
  }

  lemma NoFencesInSuffix(s: string, n: nat)
    requires n <= |s| && forall k: nat :: !FenceAt(s, k)
    ensures forall k: nat :: !FenceAt(s[n..], k)
  {
    forall k: nat
      ensures FenceAt(s[n..], k) <==> FenceAt(s, n + k)
    {
    }
  }

  lemma NextStopsAt(remaining: string, cap: nat, i: nat)
    requires i < |remaining| && TooWide(remaining[i], cap)
    ensures |Next(remaining, None, cap).body| <= i
  {
    OpenerBytes(None);
    FittingStopsAt(remaining, Room(None, cap), i);
  }

  lemma {:induction false} FencelessLoops(remaining: string, cap: nat, i: nat)
    requires i < |remaining| && TooWide(remaining[i], cap)
    requires forall k: nat :: !FenceAt(remaining, k)
    ensures Pieces(remaining, None, cap) == None
    decreases |remaining|
  {
    hide Next;
    hide Carried;
    hide IsWhitespace;
    hide FenceAt;
    hide Width;
    ByteLenAtLeast(remaining, i);
    var p := Next(remaining, None, cap);
    NextStopsAt(remaining, cap, i);
    if |p.body| + |p.dropped| > 0 {
      var n := |p.body| + |p.dropped|;
      DroppedAt(remaining, None, cap);
      assert n <= i;
      CarriedWithin(remaining, None, cap, -1);
      var rest := Rest(remaining, p);
      assert rest[i - n] == remaining[i];
      NoFencesInSuffix(remaining, n);
      FencelessLoops(rest, cap, i - n);
    }
  }

  /** A text without fences is split for ever exactly when it exceeds the cap and holds a character,
      not whitespace, that the cap has no room for. */
  lemma FencelessEndsExactly(text: string, cap: nat)
    requires forall i: nat :: !FenceAt(text, i)
    ensures PiecesOf(text, cap) == None <==>
            ByteLen(text) > cap && exists i :: 0 <= i < |text| && TooWide(text[i], cap)
  {
    if ByteLen(text) > cap {
      if exists i :: 0 <= i < |text| && TooWide(text[i], cap) {
        var i :| 0 <= i < |text| && TooWide(text[i], cap);
        FencelessLoops(text, cap, i);
      } else {
        var w := if cap == 0 then 1 else cap;
        assert WidthsWithin(text, w);
        PiecesEnd(text, None, cap, w, -4);
      }
    }
  }

  // ----- Where the promises fail -----

  lemma {:induction false} FittingExact(s: string, n: nat)
    requires n <= |s| && forall i :: 0 <= i < n ==> Width(s[i]) == 1
    ensures Fitting(s, n) == n
  {
    if n > 0 {
      FittingExact(s[1..], n - 1);
    } else if s != "" {
      assert Width(s[0]) > 0;
    }
  }

  lemma NoStart(s: string, needle: string, from: nat)
    requires needle != "" && IsWhitespace(needle[0])
    requires from < |s| && forall i :: 0 <= i <= from ==> !IsWhitespace(s[i])
    ensures LastIndexOf(s, needle, from).None?
  {
    forall i: nat
      ensures StartsWith(s, needle, i) ==> s[i] == needle[0]
    {
    }
  }

  lemma NoWhitespaceNoBoundary(s: string, fits: nat)
    requires fits < |s| && forall i :: 0 <= i <= fits ==> !IsWhitespace(s[i])
    ensures CutAt(s, fits) == fits
  {
    NoStart(s, "\n\n", fits);
    NoStart(s, "\n", fits);
    NoStart(s, " ", fits);
  }

  /** The first piece of a text that starts with `cap` one-byte characters and holds no whitespace
      there. */
  lemma SolidStart(text: string, cap: nat)
    requires 1 <= cap < |text|
    requires forall i :: 0 <= i <= cap ==> !IsWhitespace(text[i])
    requires forall i :: 0 <= i < cap ==> Width(text[i]) == 1
    ensures ByteLen(text) > cap
    ensures var p := Next(text, None, cap);
            p.body == text[..cap] && p.dropped == "" && (p.ending.Closed? <==> UnclosedTag(text[..cap]).Some?)
  {
    hide Width;
    hide IsWhitespace;
    hide UnclosedTag;
    hide CutAt;
    hide Fitting;
    FittingExact(text, cap);
    NoWhitespaceNoBoundary(text, cap);
    assert Opener(None) == "" && Room(None, cap) == cap;
    assert "" + text[..cap] == text[..cap];
    NoLeadingWs(text, cap);
  }

  lemma NoLeadingWs(s: string, i: nat)
    requires i < |s| && !IsWhitespace(s[i])
    ensures LeadingWs(s[i..]) == 0
  {
    assert s[i..][0] == s[i];
  }

  /** A chunk that has to be closed can exceed the cap by the whole closing fence. */
  lemma ClosedChunkExceedsCap(text: string, cap: nat)
    requires 1 <= cap < |text|
    requires forall i :: 0 <= i <= cap ==> !IsWhitespace(text[i])
    requires forall i :: 0 <= i < cap ==> Width(text[i]) == 1
    requires FenceCount(text[..cap]) % 2 == 1
    requires PiecesOf(text, cap).Some?
    ensures PiecesOf(text, cap).value != [] && ByteLen(Render(PiecesOf(text, cap).value[0])) == cap + 4
  {
    SolidStart(text, cap);
    ScannerCountsFences(text[..cap]);
    var p := Next(text, None, cap);
    RenderBytes(p);
    assert "" + text[..cap] == text[..cap];
    OneBytePerChar(text[..cap]);
  }

  lemma {:induction false} OneBytePerChar(s: string)
    requires forall i :: 0 <= i < |s| ==> Width(s[i]) == 1
    ensures ByteLen(s) == |s|
  {
    if s != "" {
      OneBytePerChar(s[1..]);
    }
  }

  /** A tag that fills the first chunk leaves no room for a wide character: the loop never ends. */
  lemma LongTagLoops(tag: string, s: string, cap: nat)
    requires cap == 3 + |tag| && CleanTag(tag) && s != "" && ByteLen(s) > cap
    requires forall i :: 0 <= i < |tag| ==> !IsWhitespace(tag[i]) && Width(tag[i]) == 1
    requires !IsWhitespace(s[0]) && Width(s[0]) > 1
    ensures PiecesOf(FENCE + tag + s, cap) == None
  {
    hide *;
    var text := FENCE + tag + s;
    LongTagFirst(tag, s, cap);
    OnlyTag(tag);
    LongTagRoom(tag, cap);
    StuckExactly(s, Some(tag), cap);
    PiecesStep(text, None, cap, []);
    PiecesStep(s, Some(tag), cap, []);
    StuckRest(s, Some(tag), cap);
    PiecesOfIs(text, cap);
    AfterNone(Pieces(text, None, cap));
    AfterNone(Pieces(s, Some(tag), cap));
    AfterNoneIs([Next(text, None, cap)], Pieces(s, Some(tag), cap));
  }

  lemma AfterNone(ps: Option<seq<Piece>>)
    ensures After([], ps) == None <==> ps == None
  {
  }

  lemma AfterNoneIs(done: seq<Piece>, ps: Option<seq<Piece>>)
    ensures After([] + done, ps) == None <==> ps == None
  {
  }

  lemma PiecesOfIs(text: string, cap: nat)
    ensures ByteLen(text) > cap ==> PiecesOf(text, cap) == Pieces(text, None, cap)
  {
  }

  lemma StuckRest(s: string, carry: Option<string>, cap: nat)
    requires Stuck(s, carry, cap)
    ensures Rest(s, Next(s, carry, cap)) == s
  {
  }

  lemma LongTagRoom(tag: string, cap: nat)
    requires cap == 3 + |tag| && forall i :: 0 <= i < |tag| ==> Width(tag[i]) == 1
    ensures Room(Some(tag), cap) == 1
  {
    OpenerBytes(Some(tag));
    OneBytePerChar(tag);
  }

  lemma LongTagFirst(tag: string, s: string, cap: nat)
    requires cap == 3 + |tag| && CleanTag(tag) && s != ""
    requires forall i :: 0 <= i < |tag| ==> !IsWhitespace(tag[i]) && Width(tag[i]) == 1
    requires !IsWhitespace(s[0])
    ensures var text := FENCE + tag + s;
            var p := Next(text, None, cap);
            && ByteLen(text) > cap
            && Rest(text, p) == s && s != text
            && Carried(p) == UnclosedTag(FENCE + tag)
  {
    var text := FENCE + tag + s;
    assert text[..cap] == FENCE + tag && text[cap..] == s;
    assert forall i :: 3 <= i < cap ==> text[i] == tag[i - 3];
    assert forall i :: 0 <= i < 3 ==> text[i] == '`';
    assert text[cap] == s[0];
    SolidStart(text, cap);
    var p := Next(text, None, cap);
    hide *;
    assert |s| < |text|;
    CarriedOf(p);
    RestOf(text, p, cap);
  }

  lemma CarriedOf(p: Piece)
    requires p.carry == None
    ensures Carried(p) == UnclosedTag(p.body)
  {
    assert "" + p.body == p.body;
  }

  lemma RestOf(text: string, p: Piece, cap: nat)
    requires cap <= |text| && p.body == text[..cap] && p.dropped == ""
    ensures Rest(text, p) == text[cap..]
  {
  }

  lemma OnlyTag(tag: string)
    requires CleanTag(tag)
    ensures UnclosedTag(FENCE + tag) == Some(tag)
  {
    var s := FENCE + tag;
    assert forall k :: 3 <= k < |s| ==> s[k] == tag[k - 3] && s[k] in tag;
    TagEndPast(s, 3);
    assert FenceAt(s, 0) && s[3..|s|] == tag;
    assert Tags(s, |s|) == [];
    assert Tags(s, 0) == [tag] + Tags(s, |s|);
  }

  lemma {:induction false} TagEndPast(s: string, i: nat)
    requires i <= |s| && forall k :: i <= k < |s| ==> !EndsTag(s[k])
    ensures TagEnd(s, i) == |s|
    decreases |s| - i
  {
    if i < |s| {
      TagEndPast(s, i + 1);
    }
  }
}
