/** How large chunks get whatever the text, and how tight the conditions on caps and tags are. */
module ChunkBounds {
  import opened Wrappers
  import opened Unicode
  import opened Fences
  import opened ChunkText
  import opened ChunkProperties

  function Max(a: int, b: int): int {
    if a < b then b else a
  }

  // ----- The bound that holds for every text -----

  /** An opener exceeds the cap by at most a byte; a chunk takes the cap, or one byte beside an opener
      that fills it, and a closing fence; the tail takes the cap and its own opener. */
  predicate SizeBound(p: Piece, cap: nat) {
    var c, opener, chunk := Max(cap, 1), ByteLen(Opener(p.carry)), ByteLen(Render(p));
    && opener <= c + 1
    && match p.ending
       case Plain => chunk <= Max(c, opener + 1)
       case Closed => chunk <= Max(c, opener + 1) + 4
       case Tail => chunk <= cap + opener
  }

  /** What is cut off fits the room beside the opener, so a tag in it is 3 bytes smaller at least. */
  lemma BodyBytes(remaining: string, carry: Option<string>, cap: nat)
    ensures ByteLen(Next(remaining, carry, cap).body) <= Max(cap, 1)
  {
    var p := Next(remaining, carry, cap);
    var fits := Fitting(remaining, Room(carry, cap));
    FittingBytes(remaining, Room(carry, cap));
    ByteLenSplit(remaining[..fits], |p.body|);
    assert remaining[..fits][..|p.body|] == p.body;
  }

  lemma TagsFitBody(body: string)
    ensures TagsWithin(body, ByteLen(body) - 3)
  {
    forall i: nat | FenceAt(body, i)
      ensures ByteLen(body[i + 3..TagEnd(body, i + 3)]) <= ByteLen(body) - 3
    {
      SliceFits(body, i + 3, TagEnd(body, i + 3));
    }
    hide *;
  }

  lemma SliceFits(s: string, i: nat, j: nat)
    requires i <= j <= |s|
    ensures ByteLen(s[i..j]) <= ByteLen(s) - i
  {
    hide *;
    ByteLenSplit(s, i);
    ByteLenSplit(s[i..], j - i);
    assert s[i..][..j - i] == s[i..j];
  }

  lemma WiderTags(s: string, a: int, b: int)
    requires TagsWithin(s, a) && a <= b
    ensures TagsWithin(s, b)
  {
    hide ByteLen;
  }

  lemma CarriedFits(remaining: string, carry: Option<string>, cap: nat)
    requires CarryWithin(carry, Max(cap, 1) - 3)
    ensures CarryWithin(Carried(Next(remaining, carry, cap)), Max(cap, 1) - 3)
  {
    hide *;
    var p := Next(remaining, carry, cap);
    var bound := Max(cap, 1) - 3;
    NextIs(remaining, carry, cap);
    BodyBytes(remaining, carry, cap);
    TagsFitBody(p.body);
    WiderTags(p.body, ByteLen(p.body) - 3, bound);
    TagsAreTags(p.body, 0, bound);
    WithinIsClean(carry, bound);
    TagsOfPiece(carry, p.body);
    if Carried(p).Some? {
      CarriedIsTag(p);
      TagsOfText(carry, Tags(p.body, 0), bound, Carried(p).value);
    } else {
      NoneWithin(bound);
    }
  }

  lemma PieceSize(remaining: string, carry: Option<string>, cap: nat)
    requires CarryWithin(carry, Max(cap, 1) - 3)
    ensures SizeBound(Next(remaining, carry, cap), cap)
  {
    var p := Next(remaining, carry, cap);
    hide Next;
    hide Render;
    NextIs(remaining, carry, cap);
    OpenerBytes(carry);
    NextBytes(remaining, carry, cap);
    RenderBytes(p);
    hide ByteLen;
    hide Opener;
  }

  lemma TailSize(remaining: string, carry: Option<string>, cap: nat)
    requires CarryWithin(carry, Max(cap, 1) - 3) && ByteLen(remaining) <= cap
    ensures SizeBound(Piece(carry, remaining, Tail, ""), cap)
  {
    OpenerBytes(carry);
    RenderBytes(Piece(carry, remaining, Tail, ""));
    ByteLenConcat(Opener(carry), remaining);
  }

  lemma {:induction false} PieceSizes(remaining: string, carry: Option<string>, cap: nat)
    requires CarryWithin(carry, Max(cap, 1) - 3) && Pieces(remaining, carry, cap).Some?
    ensures forall p :: p in Pieces(remaining, carry, cap).value ==> SizeBound(p, cap)
    decreases |remaining|
  {
    hide SizeBound;
    hide CarryWithin;
    hide Next;
    hide Carried;
    if ByteLen(remaining) > cap {
      var p := Next(remaining, carry, cap);
      PieceSize(remaining, carry, cap);
      CarriedFits(remaining, carry, cap);
      PieceSizes(Rest(remaining, p), Carried(p), cap);
    } else {
      TailSize(remaining, carry, cap);
    }
  }

  /** The size of every chunk of every text, whatever its tags. */
  lemma ChunkSizes(text: string, cap: nat)
    requires PiecesOf(text, cap).Some?
    ensures forall p :: p in PiecesOf(text, cap).value ==> SizeBound(p, cap)
  {
    hide SizeBound;
    NoneWithin(Max(cap, 1) - 3);
    if ByteLen(text) > cap {
      PieceSizes(text, None, cap);
    } else {
      TailSize(text, None, cap);
    }
  }

  /** So a chunk exceeds the cap by at most 6 bytes, and the tail by at most its opener, which is no
      larger than the cap and a byte. */
  lemma ChunksNearCap(text: string, cap: nat, p: Piece)
    requires cap >= 1 && PiecesOf(text, cap).Some? && p in PiecesOf(text, cap).value
    ensures !p.ending.Tail? ==> ByteLen(Render(p)) <= cap + 6
    ensures p.ending.Tail? ==> ByteLen(Render(p)) <= cap + ByteLen(Opener(p.carry)) <= 2 * cap + 1
  {
    ChunkSizes(text, cap);
    hide Render;
    hide Opener;
    hide PiecesOf;
    assert SizeBound(p, cap);
  }

  // ----- Texts that reach it -----

  lemma StartChars(s: string, needle: string)
    requires needle != ""
    ensures forall i: nat :: StartsWith(s, needle, i) ==> s[i] == needle[0] && (|needle| > 1 ==> s[i + 1] == needle[1])
  {
    forall i: nat | StartsWith(s, needle, i)
      ensures s[i] == needle[0] && (|needle| > 1 ==> s[i + 1] == needle[1])
    {
      assert s[i..i + |needle|] == needle;
    }
  }

  lemma CutOne(s: string)
    requires s != "" && !IsWhitespace(s[0])
    ensures CutAt(s, 1) == 1
  {
    StartChars(s, "\n\n");
    StartChars(s, "\n");
    StartChars(s, " ");
  }

  lemma FitsOne(s: string)
    requires s != "" && Width(s[0]) == 1
    ensures Fitting(s, 1) == 1
  {
    assert |s| > 1 ==> Fitting(s[1..], 0) == 0;
  }

  lemma OneCharIsNoFence(tag: string, c: string)
    requires CleanTag(tag) && |c| == 1
    ensures UnclosedTag(Opener(Some(tag)) + c) == Some(tag)
  {
    TagsOfPiece(Some(tag), c);
    assert Tags(c, 0) == [];
    assert Tags(Opener(Some(tag)) + c, 0) == [tag];
  }

  /** Beside an opener that fills the cap a chunk is one character and the two fences. */
  lemma OneCharChunk(tag: string, s: string, cap: nat)
    requires CleanTag(tag) && 4 + ByteLen(tag) >= cap
    requires s != "" && !IsWhitespace(s[0]) && Width(s[0]) == 1
    ensures var p := Next(s, Some(tag), cap);
            p.ending.Closed? && ByteLen(Render(p)) == 9 + ByteLen(tag)
  {
    var p := Next(s, Some(tag), cap);
    OpenerBytes(Some(tag));
    assert Room(Some(tag), cap) == 1;
    CutOne(s);
    FitsOne(s);
    assert p.body == s[..1];
    OneCharIsNoFence(tag, s[..1]);
    hide *;
    RenderBytes(p);
    ByteLenConcat(Opener(Some(tag)), s[..1]);
    OneByte(s[..1]);
  }

  lemma OneByte(c: string)
    requires |c| == 1
    ensures ByteLen(c) == Width(c[0])
  {
    assert c[1..] == "";
  }

  /** A tag that fills the first chunk: where the next character is small enough for the loop to go
      on, the second chunk exceeds the cap by 6 bytes. */
  lemma LongTagOverflows(tag: string, s: string, cap: nat)
    requires cap == 3 + |tag| && CleanTag(tag) && s != "" && ByteLen(s) > cap
    requires forall i :: 0 <= i < |tag| ==> !IsWhitespace(tag[i]) && Width(tag[i]) == 1
    requires !IsWhitespace(s[0]) && Width(s[0]) == 1
    requires PiecesOf(FENCE + tag + s, cap).Some?
    ensures var ps := PiecesOf(FENCE + tag + s, cap).value;
            |ps| > 1 && ps[1].ending.Closed? && ByteLen(Render(ps[1])) == cap + 6
  {
    hide *;
    var text := FENCE + tag + s;
    LongTagFirst(tag, s, cap);
    OnlyTag(tag);
    OneBytePerChar(tag);
    OneCharChunk(tag, s, cap);
    PiecesOfIs(text, cap);
    PiecesUnfold(text, None, cap);
    PiecesUnfold(s, Some(tag), cap);
  }

  // ----- A fence on a line of its own -----

  lemma {:induction false} FittingUpTo(s: string, n: nat, cap: nat)
    requires n <= |s| && n <= cap && forall i :: 0 <= i < n ==> Width(s[i]) == 1
    requires n < |s| ==> Width(s[n]) > cap - n
    ensures Fitting(s, cap) == n
  {
    if n > 0 {
      FittingUpTo(s[1..], n - 1, cap - 1);
    }
  }

  /** The only newline in reach, not followed by another. */
  lemma CutAtNewline(s: string, n: nat, fits: nat)
    requires n <= fits <= n + 1 < |s| && s[n] == '\n'
    requires forall i :: 0 <= i <= n + 1 && i != n ==> s[i] != '\n'
    ensures CutAt(s, fits) == n
  {
    StartChars(s, "\n\n");
    StartChars(s, "\n");
    assert StartsWith(s, "\n", n);
    assert LastIndexOf(s, "\n", fits) == Some(n);
  }

  /** The fence is cut off at the end of its line when the next line has no room beside it. */
  lemma FenceLineFirst(tag: string, s: string, cap: nat)
    requires CleanTag(tag) && forall i :: 0 <= i < |tag| ==> Width(tag[i]) == 1
    requires 3 + |tag| <= cap && s != "" && !IsWhitespace(s[0]) && Width(s[0]) > cap - 4 - |tag|
    requires ByteLen(s) > cap
    ensures var text := FENCE + tag + "\n" + s;
            var p := Next(text, None, cap);
            && ByteLen(text) > cap
            && Rest(text, p) == s && |s| < |text|
            && Carried(p) == Some(tag)
  {
    var text, n := FENCE + tag + "\n" + s, 3 + |tag|;
    var p := Next(text, None, cap);
    FenceLineText(tag, s);
    var fits := if cap == n then n else n + 1;
    FenceLineFits(tag, s, cap, fits);
    CutAtNewline(text, n, fits);
    assert Room(None, cap) == cap && text[n..][0] == '\n' && text[n..][1..] == s;
    assert LeadingWs(text[n..]) == 1 by {
      assert LeadingWs(s) == 0;
    }
    hide *;
    CarriedOf(p);
    OnlyTag(tag);
    NextAt(text, None, cap, n);
    RestAt(text, p, n);
    ByteLenConcat(FENCE + tag + "\n", s);
  }

  lemma FenceLineText(tag: string, s: string)
    requires CleanTag(tag) && s != "" && !IsWhitespace(s[0])
    ensures var text, n := FENCE + tag + "\n" + s, 3 + |tag|;
            && |text| == n + 1 + |s| && text[..n] == FENCE + tag && text[n + 1..] == s
            && text[n] == '\n' && text[n + 1] == s[0] != '\n'
            && (forall i :: 0 <= i < 3 ==> text[i] == '`')
            && (forall i :: 3 <= i < n ==> text[i] == tag[i - 3] && text[i] != '\n' && text[i] != '`')
  {
  }

  lemma FenceLineFits(tag: string, s: string, cap: nat, fits: nat)
    requires CleanTag(tag) && forall i :: 0 <= i < |tag| ==> Width(tag[i]) == 1
    requires 3 + |tag| <= cap && s != "" && !IsWhitespace(s[0]) && Width(s[0]) > cap - 4 - |tag|
    requires fits == if cap == 3 + |tag| then cap else 4 + |tag|
    ensures Fitting(FENCE + tag + "\n" + s, cap) == fits
  {
    FenceLineText(tag, s);
    hide IsWhitespace;
    FittingUpTo(FENCE + tag + "\n" + s, fits, cap);
  }

  /** Its tag is the only one, when the rest holds no backtick. */
  lemma FenceLineTags(tag: string, s: string)
    requires CleanTag(tag) && s != "" && !IsWhitespace(s[0]) && '`' !in s
    ensures TagsWithin(FENCE + tag + "\n" + s, ByteLen(tag))
  {
    var text, n := FENCE + tag + "\n" + s, 3 + |tag|;
    FenceLineText(tag, s);
    assert forall k :: n < k < |text| ==> text[k] == s[k - n - 1] && text[k] in s;
    forall i: nat | FenceAt(text, i)
      ensures ByteLen(text[i + 3..TagEnd(text, i + 3)]) <= ByteLen(tag)
    {
      assert text[i..i + 3][2] == text[i + 2];
      assert i == 0;
      TagEndIs(text, 3, n);
      assert text[3..n] == tag;
    }
  }

  // ----- How tight the conditions are -----

  function Repeat(c: char, n: nat): (s: string)
    ensures |s| == n && forall i :: 0 <= i < n ==> s[i] == c
  {
    seq(n, _ => c)
  }

  function CharOfWidth(w: nat): (c: char)
    requires 1 <= w <= 4
    ensures Width(c) == w && !IsWhitespace(c) && c != '`'
  {
    if w == 1 then 'a' else if w == 2 then '\U{E9}' else if w == 3 then '\U{4E2D}' else '\U{1F600}'
  }

  lemma {:induction false} RepeatBytes(s: string, w: nat)
    requires forall i :: 0 <= i < |s| ==> Width(s[i]) == w
    ensures ByteLen(s) == |s| * w
  {
    if s != "" {
      RepeatBytes(s[1..], w);
    }
  }

  /** A fence line with a tag of `n` letters, and a line of characters of width `w`. */
  function FenceLine(n: nat, w: nat, cap: nat): string
    requires 1 <= w <= 4
  {
    FENCE + Repeat('a', n) + "\n" + Repeat(CharOfWidth(w), cap + 1)
  }

  lemma FenceLineIs(n: nat, w: nat, cap: nat)
    requires 1 <= w <= 4 && 3 + n <= cap && w > cap - 4 - n
    ensures var tag, s, text := Repeat('a', n), Repeat(CharOfWidth(w), cap + 1), FenceLine(n, w, cap);
            && CleanTag(tag) && ByteLen(tag) == n
            && s != "" && !IsWhitespace(s[0]) && Width(s[0]) == w && ByteLen(s) > cap
            && TagsWithin(text, n) && WidthsWithin(text, w)
            && ByteLen(text) > cap && Rest(text, Next(text, None, cap)) == s && |s| < |text|
            && Carried(Next(text, None, cap)) == Some(tag)
  {
    hide *;
    var tag, s := Repeat('a', n), Repeat(CharOfWidth(w), cap + 1);
    Letters(tag);
    RepeatBytes(tag, 1);
    RepeatBytes(s, w);
    assert (cap + 1) * w > cap;
    FenceLineParts(n, w, cap);
    FenceLineTags(tag, s);
    FenceLineFirst(tag, s, cap);
    FenceLineWidths(tag, s, w);
  }

  lemma Letters(tag: string)
    requires forall i :: 0 <= i < |tag| ==> tag[i] == 'a'
    ensures CleanTag(tag) && forall i :: 0 <= i < |tag| ==> !IsWhitespace(tag[i]) && Width(tag[i]) == 1
  {
  }

  lemma FenceLineParts(n: nat, w: nat, cap: nat)
    requires 1 <= w <= 4
    ensures FenceLine(n, w, cap) == FENCE + Repeat('a', n) + "\n" + Repeat(CharOfWidth(w), cap + 1)
  {
  }

  lemma FenceLineWidths(tag: string, s: string, w: nat)
    requires w >= 1 && forall i :: 0 <= i < |tag| ==> Width(tag[i]) == 1
    requires forall i :: 0 <= i < |s| ==> Width(s[i]) == w
    ensures WidthsWithin(FENCE + tag + "\n" + s, w)
  {
    hide IsWhitespace;
  }

  /** A cap that holds no fence: chunks reopen and close nothing. */
  lemma SmallCarriesNothing(carry: Option<string>, cap: nat)
    requires cap < 3 && CarryWithin(carry, Max(cap, 1) - 3)
    ensures carry == None
  {
  }

  lemma SmallPiece(remaining: string, cap: nat)
    requires cap < 3
    ensures var p := Next(remaining, None, cap);
            Carried(p) == None && p.carry == None && p.ending.Plain?
  {
    NoneWithin(Max(cap, 1) - 3);
    CarriedFits(remaining, None, cap);
    SmallCarriesNothing(Carried(Next(remaining, None, cap)), cap);
    hide UnclosedTag;
    hide CutAt;
    hide Fitting;
  }

  lemma {:induction false} SmallPieces(remaining: string, cap: nat)
    requires cap < 3 && Pieces(remaining, None, cap).Some?
    ensures forall p :: p in Pieces(remaining, None, cap).value ==> p.carry == None && !p.ending.Closed?
    decreases |remaining|
  {
    hide Next;
    hide Carried;
    if ByteLen(remaining) > cap {
      var p := Next(remaining, None, cap);
      SmallPiece(remaining, cap);
      SmallPieces(Rest(remaining, p), cap);
    }
  }

  lemma SuffixWidths(s: string, k: nat, w: nat)
    requires k <= |s| && WidthsWithin(s, w)
    ensures WidthsWithin(s[k..], w)
  {
    hide IsWhitespace;
    hide Width;
    assert forall i :: 0 <= i < |s[k..]| ==> s[k..][i] == s[k + i];
  }

  lemma {:induction false} SmallEnds(remaining: string, cap: nat, w: nat)
    requires cap < 3 && WidthsWithin(remaining, w) && w <= Max(cap, 1)
    ensures Pieces(remaining, None, cap).Some?
    decreases |remaining|
  {
    hide Next;
    hide Carried;
    hide IsWhitespace;
    if ByteLen(remaining) > cap {
      StuckExactly(remaining, None, cap);
      assert Room(None, cap) == Max(cap, 1) by {
        OpenerBytes(None);
      }
      var p := Next(remaining, None, cap);
      SmallPiece(remaining, cap);
      SuffixWidths(remaining, |p.body| + |p.dropped|, w);
      SmallEnds(Rest(remaining, p), cap, w);
    }
  }

  /** All texts with tags of at most `bound` bytes and characters of at most `w` bytes are split in
      the end exactly when their characters take one byte, or the cap has room for an opener with such
      a tag and such a character; or, where it has none for a fence, for such a character. */
  lemma ChunkEndsTight(cap: nat, w: nat, bound: nat)
    requires 1 <= w <= 4
    ensures (forall text :: WidthsWithin(text, w) && TagsWithin(text, bound) ==> PiecesOf(text, cap).Some?) <==>
            w <= 1 || (if cap < 3 then w <= cap else w + 4 + bound <= cap)
  {
    hide *;
    if cap < 3 && 1 < w {
      SmallEndsTight(cap, w, bound);
    } else if w <= 1 || w + 4 + bound <= cap {
      forall text | WidthsWithin(text, w) && TagsWithin(text, bound)
        ensures PiecesOf(text, cap).Some?
      {
        ChunkEnds(text, cap, w, bound);
      }
    } else {
      var n := if bound < cap - 3 then bound else cap - 3;
      var text := FenceLine(n, w, cap);
      FenceLineIs(n, w, cap);
      WiderTags(text, n, bound);
      FenceLineLoops(n, w, cap);
    }
  }

  lemma PiecesOfEnds(text: string, cap: nat)
    ensures PiecesOf(text, cap).Some? <==> ByteLen(text) <= cap || Pieces(text, None, cap).Some?
  {
  }

  /** A text of one character repeated, with no fence. */
  lemma Plainly(w: nat, n: nat)
    requires 1 <= w <= 4 && n > 0
    ensures var text := Repeat(CharOfWidth(w), n);
            && WidthsWithin(text, w) && (forall i: nat :: !FenceAt(text, i)) && ByteLen(text) == n * w
            && text != "" && !IsWhitespace(text[0]) && Width(text[0]) == w
            && forall bound :: TagsWithin(text, bound)
  {
    var text := Repeat(CharOfWidth(w), n);
    RepeatBytes(text, w);
    forall i: nat
      ensures !FenceAt(text, i)
    {
      assert i + 3 <= |text| ==> text[i..i + 3][0] == text[i];
    }
    hide IsWhitespace;
    hide Width;
  }

  lemma SmallEndsTight(cap: nat, w: nat, bound: nat)
    requires cap < 3 && 2 <= w <= 4
    ensures (forall text :: WidthsWithin(text, w) && TagsWithin(text, bound) ==> PiecesOf(text, cap).Some?) <==>
            w <= cap
  {
    hide *;
    if w <= cap {
      forall text | WidthsWithin(text, w)
        ensures PiecesOf(text, cap).Some?
      {
        AtLeast(cap);
        SmallEnds(text, cap, w);
        PiecesOfEnds(text, cap);
      }
    } else {
      var text := Repeat(CharOfWidth(w), cap + 1);
      Plainly(w, cap + 1);
      assert (cap + 1) * w > cap;
      TooWideIs(text[0], cap);
      FencelessEndsExactly(text, cap);
    }
  }

  lemma AtLeast(cap: nat)
    ensures Max(cap, 1) >= cap
  {
  }

  lemma TooWideIs(c: char, cap: nat)
    requires !IsWhitespace(c) && Width(c) > cap && Width(c) > 1
    ensures TooWide(c, cap)
  {
  }

  lemma FenceLineLoops(n: nat, w: nat, cap: nat)
    requires 2 <= w <= 4 && 3 + n <= cap && w > cap - 4 - n
    ensures PiecesOf(FenceLine(n, w, cap), cap) == None
  {
    hide *;
    var tag, s, text := Repeat('a', n), Repeat(CharOfWidth(w), cap + 1), FenceLine(n, w, cap);
    FenceLineIs(n, w, cap);
    RoomIs(tag, cap);
    StuckExactly(s, Some(tag), cap);
    PiecesOfIs(text, cap);
    PiecesStep(text, None, cap, []);
    PiecesStep(s, Some(tag), cap, []);
    StuckRest(s, Some(tag), cap);
    AfterNone(Pieces(text, None, cap));
    AfterNone(Pieces(s, Some(tag), cap));
    AfterNoneIs([Next(text, None, cap)], Pieces(s, Some(tag), cap));
  }

  lemma RoomIs(tag: string, cap: nat)
    ensures Room(Some(tag), cap) == if cap - 4 - ByteLen(tag) >= 1 then cap - 4 - ByteLen(tag) else 1
  {
    OpenerBytes(Some(tag));
  }

  /** Chunks exceed the cap by a closing fence at most, for all texts with tags of at most `bound`
      bytes, exactly when the cap has room for an opener with such a tag and one byte, or for a byte
      but for no fence. */
  lemma ChunksFitTight(cap: nat, bound: nat)
    ensures (forall text, p ::
               TagsWithin(text, bound) && PiecesOf(text, cap).Some? && p in PiecesOf(text, cap).value ==>
               FitsBound(p, cap, bound)) <==>
            if cap < 3 then cap >= 1 else bound + 5 <= cap
  {
    hide *;
    if cap < 3 {
      SmallFitsTight(cap, bound);
    } else if bound + 5 <= cap {
      forall text, p | TagsWithin(text, bound) && PiecesOf(text, cap).Some? && p in PiecesOf(text, cap).value
        ensures FitsBound(p, cap, bound)
      {
        ChunksFit(text, cap, bound);
      }
    } else {
      var n := if bound < cap - 3 then bound else cap - 3;
      var text := FenceLine(n, 1, cap);
      FenceLineIs(n, 1, cap);
      WiderTags(text, n, bound);
      FenceLineOverflows(n, cap, bound);
    }
  }

  lemma SmallFits(text: string, cap: nat, bound: int, p: Piece)
    requires 1 <= cap < 3 && PiecesOf(text, cap).Some? && p in PiecesOf(text, cap).value
    ensures FitsBound(p, cap, bound)
  {
    ChunkSizes(text, cap);
    if ByteLen(text) > cap {
      SmallPieces(text, cap);
    }
    OpenerBytes(None);
    hide Render;
    hide Pieces;
    assert SizeBound(p, cap) && p.carry == None && !p.ending.Closed?;
  }

  lemma SmallFitsTight(cap: nat, bound: nat)
    requires cap < 3
    ensures (forall text, p ::
               TagsWithin(text, bound) && PiecesOf(text, cap).Some? && p in PiecesOf(text, cap).value ==>
               FitsBound(p, cap, bound)) <==>
            cap >= 1
  {
    hide *;
    if cap >= 1 {
      forall text, p | PiecesOf(text, cap).Some? && p in PiecesOf(text, cap).value
        ensures FitsBound(p, cap, bound)
      {
        SmallFits(text, cap, bound, p);
      }
    } else {
      var text := Repeat(CharOfWidth(1), 1);
      Plainly(1, 1);
      ChunkEnds(text, 0, 1, bound);
      PiecesOfIs(text, 0);
      PiecesUnfold(text, None, 0);
      SmallPiece(text, 0);
      FirstOfNothing(text);
      assert Next(text, None, 0) in PiecesOf(text, 0).value;
      PlainFits(Next(text, None, 0), 0, bound);
    }
  }

  lemma PlainFits(p: Piece, cap: nat, bound: int)
    requires p.ending.Plain?
    ensures FitsBound(p, cap, bound) <==> ByteLen(Render(p)) <= cap
  {
  }

  /** With no room at all a chunk takes one character all the same. */
  lemma FirstOfNothing(text: string)
    requires text != "" && !IsWhitespace(text[0]) && Width(text[0]) == 1
    ensures ByteLen(Render(Next(text, None, 0))) > 0
  {
    var p := Next(text, None, 0);
    OpenerBytes(None);
    assert Room(None, 0) == 1;
    CutOne(text);
    FitsOne(text);
    assert p.body == text[..1];
    hide *;
    RenderBytes(p);
    ByteLenConcat(Opener(p.carry), text[..1]);
    OneByte(text[..1]);
  }

  lemma FenceLineOverflows(n: nat, cap: nat, bound: int)
    requires 3 + n <= cap <= 4 + n
    ensures var text := FenceLine(n, 1, cap);
            PiecesOf(text, cap).Some? && exists p :: p in PiecesOf(text, cap).value && !FitsBound(p, cap, bound)
  {
    hide *;
    var tag, s, text := Repeat('a', n), Repeat(CharOfWidth(1), cap + 1), FenceLine(n, 1, cap);
    FenceLineIs(n, 1, cap);
    ChunkEnds(text, cap, 1, n);
    PiecesOfIs(text, cap);
    PiecesUnfold(text, None, cap);
    PiecesUnfold(s, Some(tag), cap);
    OneCharChunk(tag, s, cap);
    var p := PiecesOf(text, cap).value[1];
    assert p == Next(s, Some(tag), cap);
    ClosedFits(p, cap, bound);
  }

  lemma ClosedFits(p: Piece, cap: nat, bound: int)
    requires p.ending.Closed?
    ensures FitsBound(p, cap, bound) <==> ByteLen(Render(p)) <= cap + 4
  {
  }
}
