/** Splitting a long reply into chunks: cuts prefer paragraph, line and word ends, whitespace after
    a cut is dropped, and an open code fence is closed and reopened with its tag. */
module ChunkText {
  import opened Wrappers
  import opened Unicode
  import opened Fences

  // ----- Finding the cut -----

  /** How many leading characters fit within `cap` bytes. */
  function Fitting(s: string, cap: nat): (n: nat)
    ensures n <= |s|
  {
    if s == "" || Width(s[0]) > cap then 0 else 1 + Fitting(s[1..], cap - Width(s[0]))
  }

  method CharsFittingBytes(chars: string, cap: nat) returns (n: nat)
    ensures n == Fitting(chars, cap)
  {
    var bytes := 0;
    for i := 0 to |chars|
      invariant bytes <= cap
      invariant Fitting(chars, cap) == i + Fitting(chars[i..], cap - bytes)
    {
      if bytes + Width(chars[i]) > cap {
        return i;
      }
      assert chars[i..][1..] == chars[i + 1..];
      bytes := bytes + Width(chars[i]);
    }
    n := |chars|;
  }

  predicate StartsWith(s: string, needle: string, i: nat) {
    i + |needle| <= |s| && s[i..i + |needle|] == needle
  }

  /** The greatest index up to `from` at which `needle` starts. */
  function LastIndexOf(s: string, needle: string, from: nat): (r: Option<nat>)
    requires needle != ""
    ensures r.Some? ==> r.value <= from && StartsWith(s, needle, r.value)
    ensures forall i: nat :: i <= from && StartsWith(s, needle, i) ==> r.Some? && i <= r.value
  {
    if StartsWith(s, needle, from) then Some(from)
    else if from == 0 then None
    else LastIndexOf(s, needle, from - 1)
  }

  function LastAbove(s: string, needle: string, from: nat, lower: nat): Option<nat>
    requires needle != ""
  {
    var r := LastIndexOf(s, needle, from);
    if r.Some? && r.value >= lower then r else None
  }

  /** Where to cut, given how many characters fit. */
  function CutAt(s: string, fits: nat): (cut: nat)
    ensures cut <= fits
  {
    var para := LastAbove(s, "\n\n", fits, fits / 2);
    var line := LastAbove(s, "\n", fits, fits / 2);
    var word := LastAbove(s, " ", fits, fits / 2);
    if para.Some? then para.value
    else if line.Some? then line.value
    else if word.Some? then word.value
    else fits
  }

  function LeadingWs(s: string): (n: nat)
    ensures n <= |s|
    ensures forall i :: 0 <= i < n ==> IsWhitespace(s[i])
    ensures n < |s| ==> !IsWhitespace(s[n])
  {
    if s == "" || !IsWhitespace(s[0]) then 0 else 1 + LeadingWs(s[1..])
  }

  method StripLeadingWs(chars: string) returns (rest: string)
    ensures rest == chars[LeadingWs(chars)..]
  {
    var start := 0;
    while start < |chars| && IsWhitespace(chars[start])
      invariant start <= |chars| && LeadingWs(chars) == start + LeadingWs(chars[start..])
    {
      assert chars[start..][1..] == chars[start + 1..];
      start := start + 1;
    }
    rest := chars[start..];
  }

  // ----- Pieces of the reply -----

  /** The last piece is the `Tail`; a piece cut off the rest is `Plain`, or `Closed` when its fence
      had to be closed. */
  datatype Ending = Plain | Closed | Tail

  /** A chunk, with the fence it reopens and the whitespace dropped after it. */
  datatype Piece = Piece(carry: Option<string>, body: string, ending: Ending, dropped: string)

  function Opener(carry: Option<string>): string {
    if carry.Some? then FENCE + carry.value + "\n" else ""
  }

  function Render(p: Piece): string {
    Opener(p.carry) + p.body + if p.ending.Closed? then "\n" + FENCE else ""
  }

  function Room(carry: Option<string>, cap: nat): nat {
    var n := ByteLen(Opener(carry));
    if n + 1 <= cap then cap - n else 1
  }

  lemma SlicesMeet(s: string, i: nat, n: nat)
    requires i + n <= |s|
    ensures s[..i] + s[i..][..n] == s[..i + n]
  {
  }

  /** One iteration of the loop. */
  function Next(remaining: string, carry: Option<string>, cap: nat): (p: Piece)
    ensures p.carry == carry && !p.ending.Tail?
    ensures |p.body| + |p.dropped| <= |remaining|
    ensures p.body + p.dropped == remaining[..|p.body| + |p.dropped|]
  {
    var cut := CutAt(remaining, Fitting(remaining, Room(carry, cap)));
    var body := remaining[..cut];
    var rest := remaining[cut..];
    SlicesMeet(remaining, cut, LeadingWs(rest));
    Piece(carry, body, if UnclosedTag(Opener(carry) + body).Some? then Closed else Plain, rest[..LeadingWs(rest)])
  }

  function Carried(p: Piece): Option<string> {
    UnclosedTag(Opener(p.carry) + p.body)
  }

  function Rest(remaining: string, p: Piece): string
    requires |p.body| + |p.dropped| <= |remaining|
  {
    remaining[|p.body| + |p.dropped|..]
  }

  /** The whole loop. `None` when an iteration consumes nothing: it leaves the state of the loop as
      it found it, and the loop goes on for ever. */
  function Pieces(remaining: string, carry: Option<string>, cap: nat): Option<seq<Piece>>
    decreases |remaining|
  {
    if ByteLen(remaining) <= cap then
      Some(if remaining == "" then [] else [Piece(carry, remaining, Tail, "")])
    else
      var p := Next(remaining, carry, cap);
      if |p.body| + |p.dropped| == 0 then None
      else
        var ps := Pieces(Rest(remaining, p), Carried(p), cap);
        if ps.Some? then Some([p] + ps.value) else None
  }

  function PiecesOf(text: string, cap: nat): Option<seq<Piece>> {
    if ByteLen(text) <= cap then Some([Piece(None, text, Tail, "")]) else Pieces(text, None, cap)
  }

  function RenderAll(ps: seq<Piece>): seq<string> {
    if ps == [] then [] else [Render(ps[0])] + RenderAll(ps[1..])
  }

  lemma {:induction false} RenderAllSnoc(ps: seq<Piece>, p: Piece)
    ensures RenderAll(ps + [p]) == RenderAll(ps) + [Render(p)]
  {
    if ps != [] {
      RenderAllSnoc(ps[1..], p);
      assert (ps + [p])[1..] == ps[1..] + [p];
    }
  }

  /** Whether the source's loop would stay where it is. */
  ghost predicate Stuck(remaining: string, carry: Option<string>, cap: nat) {
    ByteLen(remaining) > cap && Next(remaining, carry, cap).body == "" && Next(remaining, carry, cap).dropped == ""
  }

  /** The chunks of a reply, or `None` when the source loops for ever. */
  method Chunk(text: string, cap: nat) returns (r: Option<seq<string>>)
    ensures r == match PiecesOf(text, cap) case None => None case Some(ps) => Some(RenderAll(ps))
  {
    hide *;
    ChunkStart(text, cap);
    if ByteLen(text) <= cap {
      return Some([text]);
    }
    var chunks: seq<string> := [];
    var remaining := text;
    var carry: Option<string> := None;
    ghost var done: seq<Piece> := [];
    while ByteLen(remaining) > cap
      invariant chunks == RenderAll(done)
      invariant PiecesOf(text, cap) == After(done, Pieces(remaining, carry, cap))
      decreases |remaining|
    {
      var prefix := Opener(carry);
      var fits := CharsFittingBytes(remaining, Room(carry, cap));
      FittingCut(remaining, fits, Room(carry, cap));
      var cut := CutAt(remaining, fits);
      var body := remaining[..cut];
      var tag := UnclosedFenceTag(prefix + body);
      var rest := StripLeadingWs(remaining[cut..]);
      ghost var p := Next(remaining, carry, cap);
      ChunkStep(remaining, carry, cap, cut, rest, done);
      if rest == remaining {
        return None;
      }
      assert |rest| < |remaining|;
      chunks := chunks + [prefix + (if tag.Some? then body + "\n```" else body)];
      done := done + [p];
      carry := tag;
      remaining := rest;
    }
    ChunkTail(remaining, carry, cap, done);
    assert chunks + [] == chunks;
    if remaining != "" {
      chunks := chunks + [Opener(carry) + remaining];
    }
    r := Some(chunks);
  }

  ghost function After(done: seq<Piece>, ps: Option<seq<Piece>>): Option<seq<Piece>> {
    if ps.Some? then Some(done + ps.value) else None
  }

  lemma ChunkStart(text: string, cap: nat)
    ensures ByteLen(text) <= cap ==> PiecesOf(text, cap).Some? && RenderAll(PiecesOf(text, cap).value) == [text]
    ensures ByteLen(text) > cap ==> PiecesOf(text, cap) == After([], Pieces(text, None, cap))
    ensures RenderAll([]) == []
  {
    var p := Piece(None, text, Tail, "");
    assert Render(p) == text;
    assert RenderAll([p]) == [text];
    assert forall ps: seq<Piece> :: [] + ps == ps;
  }

  lemma FittingCut(s: string, fits: nat, cap: nat)
    requires fits == Fitting(s, cap)
    ensures CutAt(s, fits) <= fits <= |s|
  {
  }

  lemma NextRenders(remaining: string, carry: Option<string>, cap: nat)
    ensures var p := Next(remaining, carry, cap);
            Render(p) == Opener(carry) + if Carried(p).Some? then p.body + "\n```" else p.body
  {
    var p := Next(remaining, carry, cap);
    if p.ending.Closed? {
      assert Opener(carry) + p.body + ("\n" + FENCE) == Opener(carry) + (p.body + "\n```");
    } else {
      assert Opener(carry) + p.body + "" == Opener(carry) + p.body;
    }
  }

  /** One unfolding of the loop, whatever came before. */
  lemma PiecesStep(remaining: string, carry: Option<string>, cap: nat, done: seq<Piece>)
    requires ByteLen(remaining) > cap
    ensures var p := Next(remaining, carry, cap);
            var rest := Rest(remaining, p);
            After(done, Pieces(remaining, carry, cap)) ==
              if rest == remaining then None
              else After(done + [p], Pieces(rest, Carried(p), cap))
  {
    hide Next;
    hide Carried;
    var p := Next(remaining, carry, cap);
    var rest := Rest(remaining, p);
    assert |rest| == |remaining| - (|p.body| + |p.dropped|);
    if |p.body| + |p.dropped| == 0 {
      assert rest == remaining;
    } else {
      var ps := Pieces(rest, Carried(p), cap);
      if ps.Some? {
        assert done + ([p] + ps.value) == done + [p] + ps.value;
      }
    }
  }

  lemma ChunkStep(remaining: string, carry: Option<string>, cap: nat, cut: nat, rest: string, done: seq<Piece>)
    requires ByteLen(remaining) > cap
    requires cut == CutAt(remaining, Fitting(remaining, Room(carry, cap))) && cut <= |remaining|
    requires rest == remaining[cut..][LeadingWs(remaining[cut..])..]
    ensures var p := Next(remaining, carry, cap);
            var tag := UnclosedTag(Opener(carry) + remaining[..cut]);
            && RenderAll(done + [p]) ==
                 RenderAll(done) + [Opener(carry) + if tag.Some? then remaining[..cut] + "\n```" else remaining[..cut]]
            && |rest| <= |remaining|
            && After(done, Pieces(remaining, carry, cap)) ==
                 if rest == remaining then None else After(done + [p], Pieces(rest, tag, cap))
  {
    hide *;
    var p := Next(remaining, carry, cap);
    NextAt(remaining, carry, cap, cut);
    SuffixOfSuffix(remaining, cut, LeadingWs(remaining[cut..]));
    RestAt(remaining, p, cut);
    RenderAllSnoc(done, p);
    NextRenders(remaining, carry, cap);
    PiecesStep(remaining, carry, cap, done);
  }

  lemma NextAt(remaining: string, carry: Option<string>, cap: nat, cut: nat)
    requires cut == CutAt(remaining, Fitting(remaining, Room(carry, cap))) && cut <= |remaining|
    ensures var p := Next(remaining, carry, cap);
            && p.carry == carry && p.body == remaining[..cut] && |p.body| == cut
            && |p.dropped| == LeadingWs(remaining[cut..]) <= |remaining| - cut
  {
    hide CutAt;
    hide Fitting;
    hide UnclosedTag;
  }

  lemma SuffixOfSuffix(s: string, i: nat, n: nat)
    requires i + n <= |s|
    ensures s[i..][n..] == s[i + n..]
  {
  }

  lemma RestAt(remaining: string, p: Piece, cut: nat)
    requires cut <= |remaining| && p.body == remaining[..cut] && cut + |p.dropped| <= |remaining|
    ensures Rest(remaining, p) == remaining[cut + |p.dropped|..]
    ensures Carried(p) == UnclosedTag(Opener(p.carry) + remaining[..cut])
  {
    hide UnclosedTag;
  }

  lemma ChunkTail(remaining: string, carry: Option<string>, cap: nat, done: seq<Piece>)
    requires ByteLen(remaining) <= cap
    ensures After(done, Pieces(remaining, carry, cap)).Some?
    ensures RenderAll(After(done, Pieces(remaining, carry, cap)).value) ==
            RenderAll(done) + if remaining == "" then [] else [Opener(carry) + remaining]
  {
    if remaining == "" {
      assert done + [] == done;
    } else {
      var p := Piece(carry, remaining, Tail, "");
      RenderAllSnoc(done, p);
      assert Render(p) == Opener(carry) + remaining;
    }
  }
}
