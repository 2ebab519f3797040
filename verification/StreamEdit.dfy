/** The streaming find-and-replace behind `fs.edit`: a file is read line by line through a rolling
    buffer, and the bytes written must be those of a replacement over the whole file at once. */
module StreamEdit {
  import opened Wrappers
  import opened Utf8

  const NEWLINE: byte := 0x0A

  datatype Request = Request(
    needle: seq<byte>, replacement: seq<byte>, start: nat, replaceAll: bool, occurrence: nat)

  datatype EditError = EmptyOld | CannotRead | BadEncoding | NotFound(start: nat)

  // ----- Searching -----

  predicate MatchAt(t: seq<byte>, needle: seq<byte>, i: nat) {
    i + |needle| <= |t| && t[i..i + |needle|] == needle
  }

  /** The first occurrence at or after `from`, as `str::find` reports it. */
  function Find(t: seq<byte>, needle: seq<byte>, from: nat := 0): (r: Option<nat>)
    requires from <= |t|
    ensures r.None? ==> forall i: nat :: from <= i ==> !MatchAt(t, needle, i)
    ensures r.Some? ==> from <= r.value && MatchAt(t, needle, r.value)
    ensures r.Some? ==> r.value + |needle| <= |t| && t[r.value..r.value + |needle|] == needle
    ensures r.Some? ==> forall i: nat :: from <= i < r.value ==> !MatchAt(t, needle, i)
    decreases |t| - from
  {
    if MatchAt(t, needle, from) then Some(from)
    else if from == |t| then None
    else Find(t, needle, from + 1)
  }

  lemma MatchIgnoresTail(a: seq<byte>, b: seq<byte>, needle: seq<byte>, i: nat)
    requires i + |needle| <= |a|
    ensures MatchAt(a + b, needle, i) <==> MatchAt(a, needle, i)
  {
    assert (a + b)[i..i + |needle|] == a[i..i + |needle|];
  }

  lemma MatchShift(a: seq<byte>, b: seq<byte>, needle: seq<byte>, i: nat)
    ensures MatchAt(a + b, needle, |a| + i) <==> MatchAt(b, needle, i)
  {
    if i + |needle| <= |b| {
      assert (a + b)[|a| + i..|a| + i + |needle|] == b[i..i + |needle|];
    }
  }

  /** What was found in a prefix of the text is the first occurrence in the whole text. */
  lemma FindIgnoresTail(a: seq<byte>, b: seq<byte>, needle: seq<byte>)
    requires Find(a, needle).Some?
    ensures Find(a + b, needle) == Find(a, needle)
  {
    var i := Find(a, needle).value;
    forall j: nat | j <= i
      ensures MatchAt(a + b, needle, j) <==> MatchAt(a, needle, j)
    {
      MatchIgnoresTail(a, b, needle, j);
    }
  }

  // ----- The whole-file replacement -----

  datatype Edited = Edited(text: seq<byte>, replaced: bool)

  /** Left to right over the whole text `t`, adding to what was `written`, with `seen` occurrences
      already passed and `replaced` telling whether one of them was replaced. */
  function Edit(written: seq<byte>, t: seq<byte>, req: Request, seen: nat, replaced: bool): Edited
    requires req.needle != []
    decreases |t|
  {
    match Find(t, req.needle)
    case None => Edited(written + t, replaced)
    case Some(i) =>
      var rest := t[i + |req.needle|..];
      if req.replaceAll then
        Edit(written + t[..i] + req.replacement, rest, req, seen + 1, true)
      else if seen + 1 == req.occurrence then
        Edited(written + t[..i] + req.replacement + rest, true)
      else
        Edit(written + t[..i + |req.needle|], rest, req, seen + 1, replaced)
  }

  lemma FindIs(t: seq<byte>, needle: seq<byte>, k: nat)
    requires MatchAt(t, needle, k) && forall i: nat :: i < k ==> !MatchAt(t, needle, i)
    ensures Find(t, needle) == Some(k)
  {
  }

  /** One step of the replacement. */
  lemma EditStep(w: seq<byte>, t: seq<byte>, req: Request, seen: nat, replaced: bool)
    requires req.needle != []
    ensures Edit(w, t, req, seen, replaced) ==
            match Find(t, req.needle)
            case None => Edited(w + t, replaced)
            case Some(i) =>
              var n := i + |req.needle|;
              if req.replaceAll then
                Edit(w + t[..i] + req.replacement, t[n..], req, seen + 1, true)
              else if seen + 1 == req.occurrence then
                Edited(w + t[..i] + req.replacement + t[n..], true)
              else
                Edit(w + t[..n], t[n..], req, seen + 1, replaced)
  {
    hide MatchAt;
    hide Find;
  }

  /** Where the first occurrence is, when none begins in the first part of the text. */
  lemma FindAfterPrefix(a: seq<byte>, b: seq<byte>, needle: seq<byte>)
    requires forall i: nat :: i < |a| ==> !MatchAt(a + b, needle, i)
    ensures Find(b, needle).None? ==> Find(a + b, needle).None?
    ensures Find(b, needle).Some? ==> Find(a + b, needle) == Some(|a| + Find(b, needle).value)
  {
    hide MatchAt;
    forall i: nat | |a| <= i
      ensures MatchAt(a + b, needle, i) <==> MatchAt(b, needle, i - |a|)
    {
      MatchShift(a, b, needle, i - |a|);
    }
    if Find(b, needle).Some? {
      FindIs(a + b, needle, |a| + Find(b, needle).value);
    }
  }

  /** Cutting a concatenation inside its second part. */
  lemma CutAfterPrefix(w: seq<byte>, a: seq<byte>, b: seq<byte>, k: nat)
    requires k <= |b|
    ensures (a + b)[|a| + k..] == b[k..]
    ensures w + (a + b)[..|a| + k] == w + a + b[..k]
  {
    assert (a + b)[..|a| + k] == a + b[..k];
    assert w + (a + b[..k]) == w + a + b[..k];
  }

  /** Text in which no occurrence begins passes through unchanged. */
  lemma EditPassesPrefix(w: seq<byte>, a: seq<byte>, b: seq<byte>, req: Request, seen: nat, replaced: bool)
    requires req.needle != []
    requires forall i: nat :: i < |a| ==> !MatchAt(a + b, req.needle, i)
    ensures Edit(w, a + b, req, seen, replaced) == Edit(w + a, b, req, seen, replaced)
  {
    hide MatchAt;
    hide Find;
    FindAfterPrefix(a, b, req.needle);
    if Find(b, req.needle).Some? {
      var k := Find(b, req.needle).value;
      CutAfterPrefix(w, a, b, k);
      CutAfterPrefix(w, a, b, k + |req.needle|);
    } else {
      assert w + (a + b) == w + a + b;
    }
  }

  // ----- A declarative reading of the replacement -----

  /** `gaps[0] + needle + gaps[1] + needle + ... + gaps[n]`. */
  function Join(gaps: seq<seq<byte>>, needle: seq<byte>): seq<byte>
    requires gaps != []
  {
    if |gaps| == 1 then gaps[0] else gaps[0] + needle + Join(gaps[1..], needle)
  }

  /** What occurrence number `k` (counting from 1) becomes. */
  function Separator(req: Request, k: nat): seq<byte> {
    if req.replaceAll || k == req.occurrence then req.replacement else req.needle
  }

  /** The gaps again, with the occurrences between them, the first of which is number
      `seen + 1`, exchanged as requested. */
  function Exchange(gaps: seq<seq<byte>>, req: Request, seen: nat): seq<byte>
    requires gaps != []
  {
    if |gaps| == 1 then gaps[0]
    else gaps[0] + Separator(req, seen + 1) + Exchange(gaps[1..], req, seen + 1)
  }

  /** `t` is the gaps separated by the needle, and each separator is the leftmost occurrence in
      what follows the one before it. */
  ghost predicate IsLeftmostSplit(t: seq<byte>, needle: seq<byte>, gaps: seq<seq<byte>>) {
    && gaps != []
    && t == Join(gaps, needle)
    && (forall k :: 0 <= k < |gaps| - 1 ==> Find(gaps[k] + needle, needle) == Some(|gaps[k]|))
    && Find(gaps[|gaps| - 1], needle).None?
  }

  function Gaps(t: seq<byte>, needle: seq<byte>): (g: seq<seq<byte>>)
    requires needle != []
    ensures g != []
    decreases |t|
  {
    match Find(t, needle)
    case None => [t]
    case Some(i) => [t[..i]] + Gaps(t[i + |needle|..], needle)
  }

  /** An occurrence is still the first when the text is cut after it. */
  lemma FindInHead(head: seq<byte>, tail: seq<byte>, needle: seq<byte>, i: nat)
    requires i + |needle| == |head|
    ensures Find(head, needle) == Some(i) <==> Find(head + tail, needle) == Some(i)
  {
    hide MatchAt;
    forall j: nat | j <= i
      ensures MatchAt(head + tail, needle, j) <==> MatchAt(head, needle, j)
    {
      MatchIgnoresTail(head, tail, needle, j);
    }
    if Find(head, needle) == Some(i) {
      FindIs(head + tail, needle, i);
    }
    if Find(head + tail, needle) == Some(i) {
      FindIs(head, needle, i);
    }
  }

  /** Every text has a leftmost split. */
  lemma {:induction false} GapsSplit(t: seq<byte>, needle: seq<byte>)
    requires needle != []
    ensures IsLeftmostSplit(t, needle, Gaps(t, needle))
    decreases |t|
  {
    hide MatchAt;
    if Find(t, needle).Some? {
      var i := Find(t, needle).value;
      var head, rest := t[..i + |needle|], t[i + |needle|..];
      GapsSplit(rest, needle);
      SplitExtends(t[..i], rest, needle, Gaps(rest, needle)) by {
        assert t == head + rest;
        assert head == t[..i] + needle;
        FindInHead(head, rest, needle, i);
      }
      assert t == t[..i] + needle + rest;
    }
  }

  lemma JoinStep(g: seq<byte>, gaps: seq<seq<byte>>, needle: seq<byte>)
    requires gaps != []
    ensures Join([g] + gaps, needle) == g + needle + Join(gaps, needle)
  {
    assert ([g] + gaps)[1..] == gaps;
  }

  lemma SplitExtends(g: seq<byte>, rest: seq<byte>, needle: seq<byte>, gaps: seq<seq<byte>>)
    requires IsLeftmostSplit(rest, needle, gaps) && Find(g + needle, needle) == Some(|g|)
    ensures IsLeftmostSplit(g + needle + rest, needle, [g] + gaps)
  {
    hide MatchAt;
    hide Find;
    hide Join;
    JoinStep(g, gaps, needle);
    var all := [g] + gaps;
    assert all[|all| - 1] == gaps[|gaps| - 1];
    forall k | 0 <= k < |all| - 1
      ensures Find(all[k] + needle, needle) == Some(|all[k]|)
    {
      assert k > 0 ==> all[k] == gaps[k - 1];
    }
  }

  /** The first separator of a leftmost split is what `Find` reports. */
  lemma SplitHead(t: seq<byte>, needle: seq<byte>, gaps: seq<seq<byte>>)
    requires needle != [] && IsLeftmostSplit(t, needle, gaps)
    ensures |gaps| == 1 ==> t == gaps[0] && Find(t, needle) == None
    ensures |gaps| > 1 ==>
              && Find(t, needle) == Some(|gaps[0]|)
              && |gaps[0]| + |needle| <= |t|
              && t[..|gaps[0]|] == gaps[0]
              && t[..|gaps[0]| + |needle|] == gaps[0] + needle
              && IsLeftmostSplit(t[|gaps[0]| + |needle|..], needle, gaps[1..])
  {
    if |gaps| > 1 {
      hide MatchAt;
      hide Find;
      var head, rest := gaps[0] + needle, Join(gaps[1..], needle);
      FindInHead(head, rest, needle, |gaps[0]|);
      assert t == head + rest;
      assert t[|head|..] == rest;
    }
  }

  /** No text has two leftmost splits. */
  lemma {:induction false} SplitUnique(t: seq<byte>, needle: seq<byte>, g: seq<seq<byte>>, h: seq<seq<byte>>)
    requires needle != []
    requires IsLeftmostSplit(t, needle, g) && IsLeftmostSplit(t, needle, h)
    ensures g == h
    decreases |t|
  {
    SplitHead(t, needle, g);
    SplitHead(t, needle, h);
    assert |g| > 0 && |h| > 0;
    hide IsLeftmostSplit;
    if |g| > 1 {
      SplitUnique(t[|g[0]| + |needle|..], needle, g[1..], h[1..]);
      assert g == [g[0]] + g[1..] && h == [h[0]] + h[1..];
    } else {
      assert g == [g[0]] && h == [h[0]];
    }
  }

  lemma AssociateFour(w: seq<byte>, a: seq<byte>, b: seq<byte>, c: seq<byte>)
    ensures w + a + b + c == w + (a + b + c)
    ensures w + (a + b) + c == w + (a + b + c)
  {
  }

  lemma ExchangeStep(w: seq<byte>, gaps: seq<seq<byte>>, req: Request, seen: nat)
    requires gaps != []
    ensures |gaps| == 1 ==> Exchange(gaps, req, seen) == gaps[0]
    ensures |gaps| > 1 ==>
              var sep := if req.replaceAll || seen + 1 == req.occurrence then req.replacement else req.needle;
              var tail := Exchange(gaps[1..], req, seen + 1);
              && w + gaps[0] + sep + tail == w + Exchange(gaps, req, seen)
              && w + (gaps[0] + sep) + tail == w + Exchange(gaps, req, seen)
  {
    if |gaps| > 1 {
      AssociateFour(w, gaps[0], Separator(req, seen + 1), Exchange(gaps[1..], req, seen + 1));
    }
  }

  /** The replacement is exactly the exchange of the separators: all of them, or only number
      `occurrence`; and it reports a replacement iff there is such a separator. */
  lemma {:induction false} EditExchangesSeparators(
    w: seq<byte>, t: seq<byte>, req: Request, seen: nat, replaced: bool, gaps: seq<seq<byte>>)
    requires req.needle != [] && gaps != [] && IsLeftmostSplit(t, req.needle, gaps)
    ensures var e := Edit(w, t, req, seen, replaced);
            && e.text == w + Exchange(gaps, req, seen)
            && (e.replaced <==>
                (replaced || if req.replaceAll then |gaps| > 1 else seen < req.occurrence < seen + |gaps|))
    decreases |t|
  {
    hide *;
    SplitHead(t, req.needle, gaps);
    EditStep(w, t, req, seen, replaced);
    ExchangeStep(w, gaps, req, seen);
    if |gaps| > 1 {
      var g, rest := gaps[0], t[|gaps[0]| + |req.needle|..];
      if req.replaceAll {
        EditExchangesSeparators(w + g + req.replacement, rest, req, seen + 1, true, gaps[1..]);
      } else if seen + 1 == req.occurrence {
        OnlyNeedles(rest, req, seen + 1, gaps[1..]);
      } else {
        EditExchangesSeparators(w + (g + req.needle), rest, req, seen + 1, replaced, gaps[1..]);
      }
    }
  }

  /** Past the occurrence that was asked for, every separator is the needle. */
  lemma {:induction false} OnlyNeedles(t: seq<byte>, req: Request, seen: nat, gaps: seq<seq<byte>>)
    requires req.needle != [] && IsLeftmostSplit(t, req.needle, gaps)
    requires !req.replaceAll && req.occurrence <= seen
    ensures Exchange(gaps, req, seen) == t
    decreases |gaps|
  {
    SplitHead(t, req.needle, gaps);
    if |gaps| > 1 {
      OnlyNeedles(t[|gaps[0]| + |req.needle|..], req, seen + 1, gaps[1..]);
    }
  }

  // ----- Reading and writing -----

  /** Length of the first line, its newline included. */
  function LineLength(s: seq<byte>): (n: nat)
    ensures n <= |s| && (s != [] ==> n > 0)
    ensures NEWLINE !in s[..n] || (s[n - 1] == NEWLINE && NEWLINE !in s[..n - 1])
    ensures n < |s| ==> s[n - 1] == NEWLINE
  {
    if s == [] then 0
    else if s[0] == NEWLINE then 1
    else
      var n := LineLength(s[1..]);
      assert s[..1 + n] == [s[0]] + s[1..][..n];
      assert n > 0 ==> s[..n] == [s[0]] + s[1..][..n - 1];
      1 + n
  }

  lemma LineOfValid(s: seq<byte>)
    requires Valid(s)
    ensures Valid(s[..LineLength(s)]) && Valid(s[LineLength(s)..])
  {
    hide LineLength;
    var n := LineLength(s);
    if n < |s| {
      NewlineEndsChar(s, n - 1);
    } else {
      assert s[..n] == s && s[n..] == [];
    }
  }

  datatype ReadOutcome = Eof | Line(line: seq<byte>) | NotUtf8

  /** A buffered reader over what is left of a file. */
  class LineReader {
    var rest: seq<byte>

    constructor (content: seq<byte>)
      ensures rest == content
    {
      rest := content;
    }

    method ReadLine() returns (r: ReadOutcome)
      modifies this
      ensures old(rest) == old(rest)[..LineLength(old(rest))] + rest
      ensures r == if old(rest) == [] then Eof
                   else if Valid(old(rest)[..LineLength(old(rest))]) then Line(old(rest)[..LineLength(old(rest))])
                   else NotUtf8
      ensures Valid(old(rest)) ==> !r.NotUtf8? && Valid(rest)
    {
      hide *;
      var n := LineLength(rest);
      var line := rest[..n];
      if Valid(rest) {
        LineOfValid(rest);
      }
      r := if rest == [] then Eof else if Valid(line) then Line(line) else NotUtf8;
      rest := rest[n..];
    }
  }

  /** The temporary file that replaces the target once it is persisted. Text reaches it either as
      a `str`, which must be valid, or copied raw from the reader. */
  class TextWriter {
    var written: seq<byte>

    constructor ()
      ensures written == []
    {
      written := [];
    }

    method WriteStr(text: seq<byte>)
      requires Valid(text)
      modifies this
      ensures written == old(written) + text
    {
      written := written + text;
    }

    method CopyFrom(reader: LineReader)
      modifies this, reader
      ensures written == old(written) + old(reader.rest) && reader.rest == []
    {
      written := written + reader.rest;
      reader.rest := [];
    }
  }

  /** The longest prefix that leaves at least `keep` bytes and ends on a character boundary. */
  method FlushablePrefixLen(text: seq<byte>, keep: nat) returns (split: nat)
    ensures split <= |text| && CharBoundary(text, split)
    ensures split > 0 ==> split + keep <= |text|
    ensures forall i :: split < i <= |text| - keep ==> !CharBoundary(text, i)
  {
    split := if keep <= |text| then |text| - keep else 0;
    while split > 0 && !CharBoundary(text, split)
      invariant split <= |text| && (split > 0 ==> split + keep <= |text|)
      invariant forall i :: split < i <= |text| - keep ==> !CharBoundary(text, i)
    {
      split := split - 1;
    }
  }

  method FlushPending(writer: TextWriter, pending: seq<byte>, keep: nat) returns (left: seq<byte>, ghost split: nat)
    requires Valid(pending)
    modifies writer
    ensures split <= |pending| && (split > 0 ==> split + keep <= |pending|)
    ensures forall i :: split < i <= |pending| - keep ==> !CharBoundary(pending, i)
    ensures writer.written == old(writer.written) + pending[..split]
    ensures left == pending[split..] && Valid(left)
  {
    var cut := FlushablePrefixLen(pending, keep);
    split := cut;
    ValidSplit(pending, cut);
    if cut == 0 {
      return pending, split;
    }
    writer.WriteStr(pending[..cut]);
    left := pending[cut..];
  }

  lemma StepOverEnd(w: seq<byte>, replaced: bool, pending: seq<byte>, req: Request, seen: nat)
    requires req.needle != [] && Find(pending, req.needle).None?
    ensures Edit(w, pending + [], req, seen, replaced) == Edited(w + pending, replaced)
  {
    assert pending + [] == pending;
  }

  lemma EmptyPending(needle: seq<byte>)
    requires needle != []
    ensures Valid([]) && Find([], needle).None?
  {
  }

  lemma StepOverMatch(w: seq<byte>, replaced: bool, pending: seq<byte>, tail: seq<byte>, req: Request, seen: nat)
    requires req.needle != [] && Find(pending, req.needle).Some?
    ensures var i := Find(pending, req.needle).value;
            var n := i + |req.needle|;
            Edit(w, pending + tail, req, seen, replaced) ==
              if req.replaceAll then
                Edit(w + pending[..i] + req.replacement, pending[n..] + tail, req, seen + 1, true)
              else if seen + 1 == req.occurrence then
                Edited(w + pending[..i] + req.replacement + pending[n..] + tail, true)
              else
                Edit(w + pending[..n], pending[n..] + tail, req, seen + 1, replaced)
  {
    hide MatchAt;
    hide Find;
    FindIgnoresTail(pending, tail, req.needle);
    var i := Find(pending, req.needle).value;
    var n := i + |req.needle|;
    EditStep(w, pending + tail, req, seen, replaced);
    hide Edit;
    assert (pending + tail)[n..] == pending[n..] + tail;
    assert (pending + tail)[..i] == pending[..i];
    assert (pending + tail)[..n] == pending[..n];
    AssociateFour(w + pending[..i], req.replacement, pending[n..], tail);
  }

  /** Flushing is safe: an occurrence that begins in the flushed bytes would end inside the
      buffer, where there is none, because `|needle| - 1` bytes are kept. */
  lemma StepOverFlush(w: seq<byte>, replaced: bool, pending: seq<byte>, split: nat, tail: seq<byte>,
                      req: Request, seen: nat)
    requires req.needle != [] && Find(pending, req.needle).None?
    requires split <= |pending| && (split > 0 ==> split + (|req.needle| - 1) <= |pending|)
    ensures Edit(w, pending + tail, req, seen, replaced)
         == Edit(w + pending[..split], pending[split..] + tail, req, seen, replaced)
    ensures Find(pending[split..], req.needle).None?
  {
    var a, b := pending[..split], pending[split..] + tail;
    assert pending + tail == a + b;
    forall i: nat | i < |a|
      ensures !MatchAt(a + b, req.needle, i)
    {
      MatchIgnoresTail(pending, tail, req.needle, i);
    }
    EditPassesPrefix(w, a, b, req, seen, replaced);
    NoMatchInSuffix(pending, split, req.needle);
  }

  // ----- How far the file is read -----

  /** The occurrence that is wanted, if it is only one, lies in the text. */
  predicate Finished(text: seq<byte>, req: Request)
    requires req.needle != []
  {
    !req.replaceAll && Edit([], text, req, 0, false).replaced
  }

  /** Reading on from `rest`, after the lines of `done`, comes to a line that is not UTF-8. */
  predicate Unreadable(done: seq<byte>, rest: seq<byte>, req: Request)
    requires req.needle != []
    decreases |rest|
  {
    rest != [] &&
    var n := LineLength(rest);
    !Valid(rest[..n]) || (!Finished(done + rest[..n], req) && Unreadable(done + rest[..n], rest[n..], req))
  }

  lemma UnreadableStep(done: seq<byte>, rest: seq<byte>, req: Request)
    requires req.needle != []
    ensures rest == [] ==> !Unreadable(done, rest, req)
    ensures rest != [] ==>
              var n := LineLength(rest);
              Unreadable(done, rest, req) <==>
                !Valid(rest[..n]) || (!Finished(done + rest[..n], req) && Unreadable(done + rest[..n], rest[n..], req))
  {
    hide Valid;
    hide Finished;
    hide LineLength;
  }

  /** Line number `n`, counting from 0, is not UTF-8, and the wanted occurrence is not before it. */
  ghost predicate FailsAt(done: seq<byte>, t: seq<byte>, req: Request, n: nat)
    requires req.needle != []
  {
    var k := PrefixLength(t, n);
    && k < |t| && !Valid(t[k..][..LineLength(t[k..])])
    && !Finished(done + t[..k], req)
  }

  lemma FinishedStays(a: seq<byte>, b: seq<byte>, req: Request)
    requires req.needle != [] && Finished(a, req)
    ensures Finished(a + b, req)
  {
    hide *;
    FinishedIs(a, req);
    FinishedIs(a + b, req);
    EditStaysReplaced([], [], a, b, req, 0);
  }

  lemma FinishedIs(t: seq<byte>, req: Request)
    requires req.needle != []
    ensures Finished(t, req) <==> !req.replaceAll && Edit([], t, req, 0, false).replaced
  {
    hide Edit;
  }

  lemma {:induction false} EditStaysReplaced(
    w: seq<byte>, v: seq<byte>, a: seq<byte>, b: seq<byte>, req: Request, seen: nat)
    requires req.needle != [] && !req.replaceAll && Edit(w, a, req, seen, false).replaced
    ensures Edit(v, a + b, req, seen, false).replaced
    decreases |a|
  {
    hide *;
    EditStep(w, a, req, seen, false);
    if Find(a, req.needle).Some? {
      var n := Find(a, req.needle).value + |req.needle|;
      FindIgnoresTail(a, b, req.needle);
      EditStep(v, a + b, req, seen, false);
      if seen + 1 != req.occurrence {
        assert (a + b)[n..] == a[n..] + b;
        EditStaysReplaced(w + a[..n], v + (a + b)[..n], a[n..], b, req, seen + 1);
      }
    }
  }

  lemma FlagIgnoresWritten(w: seq<byte>, t: seq<byte>, req: Request)
    requires req.needle != []
    ensures Edit(w, t, req, 0, false).replaced == Edit([], t, req, 0, false).replaced
  {
    hide *;
    var gaps := Gaps(t, req.needle);
    GapsSplit(t, req.needle);
    SplitIsSome(t, req.needle, gaps);
    EditExchangesSeparators(w, t, req, 0, false, gaps);
    EditExchangesSeparators([], t, req, 0, false, gaps);
  }

  lemma SplitIsSome(t: seq<byte>, needle: seq<byte>, gaps: seq<seq<byte>>)
    requires IsLeftmostSplit(t, needle, gaps)
    ensures gaps != []
  {
  }

  lemma FailsAtFirst(done: seq<byte>, t: seq<byte>, req: Request)
    requires req.needle != [] && t != []
    ensures !Finished(done, req) ==> (FailsAt(done, t, req, 0) <==> !Valid(t[..LineLength(t)]))
  {
    assert t[0..] == t && done + t[..0] == done;
    hide Finished;
    hide Valid;
    hide LineLength;
  }

  lemma FailsAtLater(done: seq<byte>, t: seq<byte>, req: Request, n: nat)
    requires req.needle != [] && t != [] && n > 0
    ensures var k := LineLength(t);
            FailsAt(done, t, req, n) <==> FailsAt(done + t[..k], t[k..], req, n - 1)
  {
    hide *;
    PrefixStep(t, n);
    var k := LineLength(t);
    var rest := t[k..];
    var m := PrefixLength(rest, n - 1);
    TakeLine(done, t, k, m);
    assert rest[..m] == t[k..][..m] && |t| == k + |rest|;
    FailsAtIs(done, t, req, n);
    FailsAtIs(done + t[..k], rest, req, n - 1);
  }

  lemma FailsAtIs(done: seq<byte>, t: seq<byte>, req: Request, n: nat)
    requires req.needle != []
    ensures var k := PrefixLength(t, n);
            FailsAt(done, t, req, n) <==>
              k < |t| && !Valid(t[k..][..LineLength(t[k..])]) && !Finished(done + t[..k], req)
  {
    hide Finished;
    hide Valid;
    hide LineLength;
    hide PrefixLength;
  }

  lemma FailsAtEnd(done: seq<byte>, req: Request, n: nat)
    requires req.needle != []
    ensures !FailsAt(done, [], req, n)
  {
  }

  lemma FailsAtUnfinished(done: seq<byte>, t: seq<byte>, req: Request, n: nat)
    requires req.needle != [] && FailsAt(done, t, req, n)
    ensures !Finished(done, req)
  {
    hide Valid;
    hide LineLength;
    if Finished(done, req) {
      FinishedStays(done, t[..PrefixLength(t, n)], req);
    }
    hide Finished;
  }

  /** Reading fails exactly when some line that is not UTF-8 does not come after the one in which the
      wanted occurrence ends. */
  lemma {:induction false} UnreadableExactly(done: seq<byte>, t: seq<byte>, req: Request)
    requires req.needle != [] && !Finished(done, req)
    ensures Unreadable(done, t, req) <==> exists n: nat :: FailsAt(done, t, req, n)
    decreases |t|
  {
    hide *;
    UnreadableStep(done, t, req);
    if t == [] {
      forall n: nat
        ensures !FailsAt(done, t, req, n)
      {
        FailsAtEnd(done, req, n);
      }
    } else {
      var k := LineLength(t);
      var line, rest := t[..k], t[k..];
      FailsAtFirst(done, t, req);
      forall n: nat | n > 0
        ensures FailsAt(done, t, req, n) <==> FailsAt(done + line, rest, req, n - 1)
      {
        FailsAtLater(done, t, req, n);
      }
      if !Finished(done + line, req) {
        UnreadableExactly(done + line, rest, req);
        if n: nat :| FailsAt(done + line, rest, req, n) {
          assert FailsAt(done, t, req, n + 1);
        }
      } else {
        forall n: nat | n > 0
          ensures !FailsAt(done, t, req, n)
        {
          if FailsAt(done, t, req, n) {
            FailsAtUnfinished(done + line, rest, req, n - 1);
          }
        }
      }
    }
  }

  // ----- The stream -----

  /** What is written and still pending is as good as the lines read so far, whatever follows. */
  ghost predicate Follows(
    start: seq<byte>, done: seq<byte>, w: seq<byte>, pending: seq<byte>, req: Request, seen: nat, replaced: bool)
    requires req.needle != []
  {
    forall tail :: Edit(w, pending + tail, req, seen, replaced) == Edit(start, done + tail, req, 0, false)
  }

  lemma FollowsAt(
    start: seq<byte>, done: seq<byte>, w: seq<byte>, pending: seq<byte>, req: Request, seen: nat, replaced: bool,
    tail: seq<byte>)
    requires req.needle != [] && Follows(start, done, w, pending, req, seen, replaced)
    ensures Edit(w, pending + tail, req, seen, replaced) == Edit(start, done + tail, req, 0, false)
  {
    hide Edit;
  }

  lemma FollowsFromStart(start: seq<byte>, req: Request)
    requires req.needle != []
    ensures Follows(start, [], start, [], req, 0, false)
  {
    hide Edit;
  }

  lemma FollowsLine(
    start: seq<byte>, done: seq<byte>, w: seq<byte>, pending: seq<byte>, req: Request, seen: nat, replaced: bool,
    line: seq<byte>)
    requires req.needle != [] && Follows(start, done, w, pending, req, seen, replaced)
    ensures Follows(start, done + line, w, pending + line, req, seen, replaced)
  {
    hide Edit;
    forall tail
      ensures Edit(w, pending + line + tail, req, seen, replaced) == Edit(start, done + line + tail, req, 0, false)
    {
      Reassociate(pending, line, tail);
      Reassociate(done, line, tail);
      FollowsAt(start, done, w, pending, req, seen, replaced, line + tail);
    }
  }

  lemma FollowsMatch(
    start: seq<byte>, done: seq<byte>, w: seq<byte>, pending: seq<byte>, req: Request, seen: nat, replaced: bool)
    requires req.needle != [] && Follows(start, done, w, pending, req, seen, replaced)
    requires Find(pending, req.needle).Some? && (req.replaceAll || seen + 1 != req.occurrence)
    ensures var i := Find(pending, req.needle).value;
            var n := i + |req.needle|;
            if req.replaceAll then
              Follows(start, done, w + pending[..i] + req.replacement, pending[n..], req, seen + 1, true)
            else Follows(start, done, w + pending[..n], pending[n..], req, seen + 1, replaced)
  {
    hide Edit;
    var n := Find(pending, req.needle).value + |req.needle|;
    forall tail
      ensures Edit(start, done + tail, req, 0, false) ==
              if req.replaceAll then
                Edit(w + pending[..n - |req.needle|] + req.replacement, pending[n..] + tail, req, seen + 1, true)
              else Edit(w + pending[..n], pending[n..] + tail, req, seen + 1, replaced)
    {
      FollowsAt(start, done, w, pending, req, seen, replaced, tail);
      StepOverMatch(w, replaced, pending, tail, req, seen);
    }
  }

  lemma FollowsFlush(
    start: seq<byte>, done: seq<byte>, w: seq<byte>, pending: seq<byte>, req: Request, seen: nat, replaced: bool,
    split: nat)
    requires req.needle != [] && Follows(start, done, w, pending, req, seen, replaced)
    requires Find(pending, req.needle).None?
    requires split <= |pending| && (split > 0 ==> split + (|req.needle| - 1) <= |pending|)
    ensures Follows(start, done, w + pending[..split], pending[split..], req, seen, replaced)
    ensures Find(pending[split..], req.needle).None?
  {
    hide Edit;
    hide Find;
    forall tail
      ensures Edit(w + pending[..split], pending[split..] + tail, req, seen, replaced) ==
              Edit(start, done + tail, req, 0, false)
    {
      FollowsAt(start, done, w, pending, req, seen, replaced, tail);
      StepOverFlush(w, replaced, pending, split, tail, req, seen);
    }
    StepOverFlush(w, replaced, pending, split, [], req, seen);
  }

  /** Without an occurrence in the buffer, the lines read so far do not hold the wanted one. */
  lemma NotFinishedYet(
    start: seq<byte>, done: seq<byte>, w: seq<byte>, pending: seq<byte>, req: Request, seen: nat, replaced: bool)
    requires req.needle != [] && Follows(start, done, w, pending, req, seen, replaced)
    requires Find(pending, req.needle).None? && (replaced ==> req.replaceAll)
    ensures !Finished(done, req)
  {
    hide *;
    FollowsAt(start, done, w, pending, req, seen, replaced, []);
    StepOverEnd(w, replaced, pending, req, seen);
    assert done + [] == done;
    FlagIgnoresWritten(start, done, req);
    FinishedIs(done, req);
  }

  lemma FinishedNow(
    start: seq<byte>, done: seq<byte>, w: seq<byte>, pending: seq<byte>, req: Request, seen: nat, replaced: bool)
    requires req.needle != [] && Follows(start, done, w, pending, req, seen, replaced)
    requires Find(pending, req.needle).Some? && !req.replaceAll && seen + 1 == req.occurrence
    ensures Finished(done, req)
  {
    hide *;
    FollowsAt(start, done, w, pending, req, seen, replaced, []);
    StepOverMatch(w, replaced, pending, [], req, seen);
    assert done + [] == done;
    FlagIgnoresWritten(start, done, req);
    FinishedIs(done, req);
  }

  lemma {:induction false} ValidIsReadable(done: seq<byte>, t: seq<byte>, req: Request)
    requires req.needle != [] && Valid(t)
    ensures !Unreadable(done, t, req)
    decreases |t|
  {
    hide *;
    UnreadableStep(done, t, req);
    if t != [] {
      LineOfValid(t);
      var n := LineLength(t);
      ValidIsReadable(done + t[..n], t[n..], req);
    }
  }

  /** Where the stream stands: `done` was read of `all`, `w` is written and `pending` still to be. */
  ghost predicate Midway(
    start: seq<byte>, all: seq<byte>, done: seq<byte>, rest: seq<byte>, w: seq<byte>, pending: seq<byte>,
    req: Request, seen: nat, replaced: bool)
    requires req.needle != []
  {
    && done + rest == all && Unreadable(done, rest, req) == Unreadable([], all, req)
    && Follows(start, done, w, pending, req, seen, replaced)
    && Valid(pending) && (replaced ==> req.replaceAll)
  }

  lemma MidwayIs(
    start: seq<byte>, all: seq<byte>, done: seq<byte>, rest: seq<byte>, w: seq<byte>, pending: seq<byte>,
    req: Request, seen: nat, replaced: bool)
    requires req.needle != []
    ensures Midway(start, all, done, rest, w, pending, req, seen, replaced) <==>
            && done + rest == all && Unreadable(done, rest, req) == Unreadable([], all, req)
            && Follows(start, done, w, pending, req, seen, replaced)
            && Valid(pending) && (replaced ==> req.replaceAll)
  {
    hide Follows;
    hide Unreadable;
    hide Valid;
  }

  lemma AtTheStart(start: seq<byte>, all: seq<byte>, req: Request)
    requires req.needle != []
    ensures Midway(start, all, [], all, start, [], req, 0, false) && Find([], req.needle).None?
  {
    FollowsFromStart(start, req);
    EmptyPending(req.needle);
    hide Follows;
    hide Unreadable;
  }

  /** A line was read: into the buffer with it, unless it is not UTF-8. */
  lemma LineRead(
    start: seq<byte>, all: seq<byte>, done: seq<byte>, before: seq<byte>, w: seq<byte>, pending: seq<byte>,
    req: Request, seen: nat, replaced: bool)
    requires req.needle != [] && before != [] && Midway(start, all, done, before, w, pending, req, seen, replaced)
    requires Find(pending, req.needle).None?
    ensures !Finished(done, req)
    ensures var n := LineLength(before);
            var line, rest := before[..n], before[n..];
            && |rest| < |before|
            && (!Valid(line) ==> Unreadable([], all, req))
            && (Valid(line) ==>
                  && done + line + rest == all && Valid(pending + line) && (replaced ==> req.replaceAll)
                  && Follows(start, done + line, w, pending + line, req, seen, replaced)
                  && (!Finished(done + line, req) ==> Unreadable(done + line, rest, req) == Unreadable([], all, req))
                  && (Finished(done + line, req) ==> !Unreadable([], all, req)))
  {
    hide *;
    MidwayIs(start, all, done, before, w, pending, req, seen, replaced);
    UnreadableStep(done, before, req);
    NotFinishedYet(start, done, w, pending, req, seen, replaced);
    LineIsNotEmpty(before);
    var n := LineLength(before);
    if Valid(before[..n]) {
      FollowsLine(start, done, w, pending, req, seen, replaced, before[..n]);
      ValidConcat(pending, before[..n]);
      assert done + before[..n] + before[n..] == done + before;
    }
  }

  lemma LineIsNotEmpty(t: seq<byte>)
    requires t != []
    ensures 0 < LineLength(t) <= |t|
  {
  }

  /** The whole text was read, and the buffer holds nothing to replace. */
  lemma AllRead(
    start: seq<byte>, all: seq<byte>, done: seq<byte>, w: seq<byte>, pending: seq<byte>, req: Request, seen: nat,
    replaced: bool)
    requires req.needle != [] && Midway(start, all, done, [], w, pending, req, seen, replaced)
    requires Find(pending, req.needle).None?
    ensures Edited(w + pending, replaced) == Edit(start, all, req, 0, false) && !Unreadable([], all, req)
  {
    hide *;
    MidwayIs(start, all, done, [], w, pending, req, seen, replaced);
    UnreadableStep(done, [], req);
    FollowsAt(start, done, w, pending, req, seen, replaced, []);
    StepOverEnd(w, replaced, pending, req, seen);
    assert done + [] == all;
  }

  /** The wanted occurrence is in the buffer: what is left of the text follows as it is. */
  lemma WantedFound(
    start: seq<byte>, done: seq<byte>, rest: seq<byte>, w: seq<byte>, pending: seq<byte>, req: Request, seen: nat,
    replaced: bool)
    requires req.needle != [] && Follows(start, done, w, pending, req, seen, replaced)
    requires Find(pending, req.needle).Some? && !req.replaceAll && seen + 1 == req.occurrence
    ensures Finished(done, req)
    ensures var i := Find(pending, req.needle).value;
            Edited(w + pending[..i] + req.replacement + pending[i + |req.needle|..] + rest, true) ==
              Edit(start, done + rest, req, 0, false)
  {
    hide *;
    FollowsAt(start, done, w, pending, req, seen, replaced, rest);
    StepOverMatch(w, replaced, pending, rest, req, seen);
    FinishedNow(start, done, w, pending, req, seen, replaced);
  }

  /** The buffer holds no occurrence any more: part of it is flushed, and the next line may come. */
  lemma LineDone(
    start: seq<byte>, all: seq<byte>, done: seq<byte>, rest: seq<byte>, w: seq<byte>, pending: seq<byte>,
    req: Request, seen: nat, replaced: bool, split: nat)
    requires req.needle != [] && Follows(start, done, w, pending, req, seen, replaced)
    requires Find(pending, req.needle).None? && (replaced ==> req.replaceAll) && done + rest == all
    requires !Finished(done, req) ==> Unreadable(done, rest, req) == Unreadable([], all, req)
    requires split <= |pending| && (split > 0 ==> split + (|req.needle| - 1) <= |pending|)
    requires Valid(pending[split..])
    ensures Midway(start, all, done, rest, w + pending[..split], pending[split..], req, seen, replaced)
    ensures Find(pending[split..], req.needle).None?
  {
    hide *;
    NotFinishedYet(start, done, w, pending, req, seen, replaced);
    FollowsFlush(start, done, w, pending, req, seen, replaced, split);
    MidwayIs(start, all, done, rest, w + pending[..split], pending[split..], req, seen, replaced);
  }

  /** Writes the whole-file replacement of what the reader holds. It fails exactly when it reads a line
      that is not UTF-8. */
  method ReplaceStream(reader: LineReader, writer: TextWriter, req: Request) returns (r: Result<bool, EditError>)
    requires req.needle != [] && Valid(req.needle) && Valid(req.replacement)
    modifies reader, writer
    ensures r.Ok? ==>
              Edited(writer.written, r.value) == Edit(old(writer.written), old(reader.rest), req, 0, false)
    ensures r.Err? <==> Unreadable([], old(reader.rest), req)
    ensures r.Err? ==> r.error == BadEncoding
    ensures Valid(old(reader.rest)) ==> r.Ok?
  {
    hide *;
    ghost var start, all, done: seq<byte> := writer.written, reader.rest, [];
    if Valid(all) {
      ValidIsReadable([], all, req);
    }
    AtTheStart(start, all, req);
    var pending: seq<byte> := [];
    var replaced := false;
    var matchCount := 0;
    while true
      invariant Midway(start, all, done, reader.rest, writer.written, pending, req, matchCount, replaced)
      invariant Find(pending, req.needle).None?
      decreases |reader.rest|
    {
      ghost var before := reader.rest;
      if before == [] {
        AllRead(start, all, done, writer.written, pending, req, matchCount, replaced);
        ValidPending(start, all, done, before, writer.written, pending, req, matchCount, replaced);
      } else {
        LineRead(start, all, done, before, writer.written, pending, req, matchCount, replaced);
      }
      var line := reader.ReadLine();
      match line {
        case NotUtf8 =>
          return Err(BadEncoding);
        case Eof =>
          break;
        case Line(text) =>
          SameRest(before, text, reader.rest);
          pending := pending + text;
          done := done + text;
      }
      ghost var after := reader.rest;
      var found := Find(pending, req.needle);
      while found.Some?
        invariant Valid(pending) && found == Find(pending, req.needle) && (replaced ==> req.replaceAll)
        invariant reader.rest == after
        invariant Follows(start, done, writer.written, pending, req, matchCount, replaced)
        decreases |pending|
      {
        var split := found.value;
        OccurrenceOnBoundaries(pending, req.needle, split);
        if !req.replaceAll && matchCount + 1 == req.occurrence {
          WantedFound(start, done, after, writer.written, pending, req, matchCount, replaced);
        } else {
          FollowsMatch(start, done, writer.written, pending, req, matchCount, replaced);
        }
        matchCount := matchCount + 1;
        if req.replaceAll || matchCount == req.occurrence {
          writer.WriteStr(pending[..split]);
          writer.WriteStr(req.replacement);
          pending := pending[split + |req.needle|..];
          replaced := true;
          if !req.replaceAll {
            writer.WriteStr(pending);
            writer.CopyFrom(reader);
            return Ok(true);
          }
        } else {
          ValidSplit(pending, split + |req.needle|);
          writer.WriteStr(pending[..split + |req.needle|]);
          pending := pending[split + |req.needle|..];
        }
        found := Find(pending, req.needle);
      }
      ghost var written, full := writer.written, pending;
      ghost var cut;
      pending, cut := FlushPending(writer, pending, |req.needle| - 1);
      LineDone(start, all, done, after, written, full, req, matchCount, replaced, cut);
    }
    writer.WriteStr(pending);
    r := Ok(replaced);
  }

  lemma SameRest(before: seq<byte>, line: seq<byte>, rest: seq<byte>)
    requires line == before[..LineLength(before)] && before == line + rest
    ensures rest == before[LineLength(before)..]
  {
    hide LineLength;
  }

  lemma ValidPending(
    start: seq<byte>, all: seq<byte>, done: seq<byte>, rest: seq<byte>, w: seq<byte>, pending: seq<byte>,
    req: Request, seen: nat, replaced: bool)
    requires req.needle != [] && Midway(start, all, done, rest, w, pending, req, seen, replaced)
    ensures Valid(pending)
  {
    hide Valid;
    hide Follows;
    hide Unreadable;
  }

  lemma Reassociate(a: seq<byte>, b: seq<byte>, c: seq<byte>)
    ensures a + (b + c) == (a + b) + c
  {
  }

  lemma NoMatchInSuffix(t: seq<byte>, cut: nat, needle: seq<byte>)
    requires cut <= |t| && Find(t, needle).None?
    ensures Find(t[cut..], needle).None?
  {
    forall i: nat
      ensures !MatchAt(t[cut..], needle, i)
    {
      assert t == t[..cut] + t[cut..];
      MatchShift(t[..cut], t[cut..], needle, i);
    }
  }

  // ----- The leading lines -----

  /** Length of the first `start` lines. */
  function PrefixLength(t: seq<byte>, start: nat): (n: nat)
    ensures n <= |t|
    decreases start
  {
    if start == 0 then 0
    else LineLength(t) + PrefixLength(t[LineLength(t)..], start - 1)
  }

  function Newlines(t: seq<byte>): nat {
    if t == [] then 0 else (if t[0] == NEWLINE then 1 else 0) + Newlines(t[1..])
  }

  lemma {:induction false} NewlinesConcat(a: seq<byte>, b: seq<byte>)
    ensures Newlines(a + b) == Newlines(a) + Newlines(b)
  {
    if a == [] {
      assert a + b == b;
    } else {
      NewlinesConcat(a[1..], b);
      assert (a + b)[1..] == a[1..] + b;
    }
  }

  lemma {:induction false} NoNewlines(t: seq<byte>)
    requires NEWLINE !in t
    ensures Newlines(t) == 0
  {
    if t != [] {
      NoNewlines(t[1..]);
    }
  }

  lemma LineHasOneNewline(t: seq<byte>)
    requires t != []
    ensures var line := t[..LineLength(t)];
            Newlines(line) == (if t[|line| - 1] == NEWLINE then 1 else 0)
  {
    var n := LineLength(t);
    var line := t[..n];
    if line[n - 1] == NEWLINE {
      assert line[..n - 1] == t[..n - 1];
      NoNewlines(line[..n - 1]);
      assert line == line[..n - 1] + [NEWLINE];
      NewlinesConcat(line[..n - 1], [NEWLINE]);
    } else {
      NoNewlines(line);
    }
  }

  lemma NewlinesSplit(t: seq<byte>, k: nat)
    requires k <= |t|
    ensures Newlines(t) == Newlines(t[..k]) + Newlines(t[k..])
  {
    hide *;
    NewlinesConcat(t[..k], t[k..]);
    assert t == t[..k] + t[k..];
  }

  lemma NewlinesInHead(t: seq<byte>, k: nat, m: nat)
    requires k + m <= |t|
    ensures Newlines(t[..k + m]) == Newlines(t[..k]) + Newlines(t[k..][..m])
  {
    hide *;
    NewlinesSplit(t[..k + m], k);
    assert t[..k + m][..k] == t[..k];
    assert t[..k + m][k..] == t[k..][..m];
  }

  lemma FirstLine(t: seq<byte>)
    requires t != []
    ensures var k := LineLength(t);
            && Newlines(t) == Newlines(t[k..]) + (if t[k - 1] == NEWLINE then 1 else 0)
            && (t[k..] == [] ==> Newlines(t[k..]) == 0)
  {
    hide *;
    LineHasOneNewline(t);
    NewlinesSplit(t, LineLength(t));
    if t[LineLength(t)..] == [] {
      NoNewlines(t[LineLength(t)..]);
    }
  }

  lemma FirstLineInHead(t: seq<byte>, m: nat)
    requires t != [] && m <= |t| - LineLength(t)
    ensures var k := LineLength(t);
            && Newlines(t[..k + m]) == Newlines(t[k..][..m]) + (if t[k - 1] == NEWLINE then 1 else 0)
            && (m == 0 ==> Newlines(t[k..][..m]) == 0)
  {
    hide *;
    LineHasOneNewline(t);
    NewlinesInHead(t, LineLength(t), m);
    if m == 0 {
      NoNewlines(t[LineLength(t)..][..m]);
    }
  }

  /** The first `start` lines end right after newline number `start`, or with the text when it has
      fewer. */
  lemma {:induction false} PrefixEndsAfterNewline(t: seq<byte>, start: nat)
    ensures var n := PrefixLength(t, start);
            if Newlines(t) < start then n == |t|
            else Newlines(t[..n]) == start && (start > 0 ==> n > 0 && t[n - 1] == NEWLINE)
    decreases start
  {
    hide *;
    PrefixStep(t, start);
    if start > 0 && t != [] {
      var rest := t[LineLength(t)..];
      PrefixEndsAfterNewline(rest, start - 1);
      PrefixStep(rest, start - 1);
      FirstLine(t);
      FirstLineInHead(t, PrefixLength(rest, start - 1));
    } else {
      NoNewlines(t[..0]);
      assert t == [] ==> t == t[..0];
    }
  }

  lemma PrefixStep(t: seq<byte>, start: nat)
    ensures start == 0 || t == [] ==> PrefixLength(t, start) == 0
    ensures start > 0 && t != [] ==>
              PrefixLength(t, start) == LineLength(t) + PrefixLength(t[LineLength(t)..], start - 1)
  {
    if t == [] {
      EmptyPrefix(start);
    }
  }

  lemma TakeLine(before: seq<byte>, t: seq<byte>, done: nat, k: nat)
    requires done + k <= |t|
    ensures t[done..][k..] == t[done + k..]
    ensures before + t[..done] + t[done..][..k] == before + t[..done + k]
  {
    assert t[..done] + t[done..][..k] == t[..done + k];
    assert before + t[..done] + t[done..][..k] == before + (t[..done] + t[done..][..k]);
  }

  /** The first `start` lines are UTF-8. */
  predicate PrefixReadable(t: seq<byte>, start: nat)
    decreases start
  {
    start == 0 || t == [] || (Valid(t[..LineLength(t)]) && PrefixReadable(t[LineLength(t)..], start - 1))
  }

  lemma PrefixReadableStep(t: seq<byte>, start: nat)
    ensures start == 0 || t == [] ==> PrefixReadable(t, start)
    ensures start > 0 && t != [] ==>
              (PrefixReadable(t, start) <==> Valid(t[..LineLength(t)]) && PrefixReadable(t[LineLength(t)..], start - 1))
  {
    hide Valid;
    hide LineLength;
  }

  /** After a newline a text is valid when both parts are. */
  lemma ValidSum(line: seq<byte>, tail: seq<byte>)
    requires line != [] && (tail != [] ==> line[|line| - 1] == NEWLINE)
    ensures Valid(line + tail) <==> Valid(line) && Valid(tail)
  {
    assert NEWLINE == 0x0A;
    hide *;
    if Valid(line) && Valid(tail) {
      ValidConcat(line, tail);
    }
    var s := line + tail;
    if tail == [] {
      assert s == line;
      NothingIsValid();
    } else if Valid(s) {
      NewlineEndsChar(s, |line| - 1);
      assert s[..|line|] == line && s[|line|..] == tail;
    }
  }

  lemma HeadOf(t: seq<byte>, k: nat, m: nat)
    requires k + m <= |t|
    ensures t[..k + m] == t[..k] + t[k..][..m]
  {
  }

  lemma LineEnds(t: seq<byte>)
    requires t != []
    ensures 0 < LineLength(t) <= |t| && (LineLength(t) < |t| ==> t[LineLength(t) - 1] == NEWLINE)
  {
  }

  lemma NothingIsValid()
    ensures Valid([])
  {
  }

  /** So they are exactly when they are as a whole. */
  lemma {:induction false} PrefixReadableExactly(t: seq<byte>, start: nat)
    ensures PrefixReadable(t, start) <==> Valid(t[..PrefixLength(t, start)])
    decreases start
  {
    hide *;
    PrefixReadableStep(t, start);
    PrefixStep(t, start);
    NothingIsValid();
    if start > 0 && t != [] {
      var rest := t[LineLength(t)..];
      PrefixReadableExactly(rest, start - 1);
      var m := PrefixLength(rest, start - 1);
      LineEnds(t);
      HeadOf(t, LineLength(t), m);
      ValidSum(t[..LineLength(t)], rest[..m]);
    } else {
      assert t[..0] == [];
    }
  }

  method CopyPrefixLines(reader: LineReader, writer: TextWriter, start: nat) returns (r: Result<(), EditError>)
    modifies reader, writer
    ensures var t := old(reader.rest);
            var n := PrefixLength(t, start);
            && (r.Ok? ==> writer.written == old(writer.written) + t[..n] && reader.rest == t[n..])
            && (r.Err? ==> r.error == BadEncoding)
            && (r.Ok? <==> Valid(t[..n]))
            && (Valid(t) ==> r.Ok? && Valid(reader.rest))
  {
    hide *;
    ghost var t := reader.rest;
    ghost var n := PrefixLength(t, start);
    ghost var done: nat := 0;
    ghost var before := writer.written;
    assert before + t[..0] == before;
    PrefixReadableExactly(t, start);
    for i := 0 to start
      invariant done <= n && reader.rest == t[done..]
      invariant writer.written == before + t[..done]
      invariant n == done + PrefixLength(reader.rest, start - i)
      invariant Valid(t) ==> Valid(reader.rest)
      invariant PrefixReadable(t, start) == PrefixReadable(reader.rest, start - i)
    {
      PrefixStep(reader.rest, start - i);
      PrefixReadableStep(reader.rest, start - i);
      var line := reader.ReadLine();
      match line {
        case NotUtf8 =>
          return Err(BadEncoding);
        case Eof =>
          assert done == n;
          break;
        case Line(text) =>
          writer.WriteStr(text);
          TakeLine(before, t, done, |text|);
          done := done + |text|;
      }
    }
    PrefixStep(reader.rest, 0);
    PrefixReadableStep(reader.rest, 0);
    r := Ok(());
  }

  lemma {:induction false} EmptyPrefix(start: nat)
    ensures PrefixLength([], start) == 0
    decreases start
  {
    if start > 0 {
      EmptyPrefix(start - 1);
    }
  }

  // ----- The edit of a file -----

  /** A file on disk; `None` when it does not exist. */
  class TextFile {
    var content: Option<seq<byte>>

    constructor (initial: Option<seq<byte>>)
      ensures content == initial
    {
      content := initial;
    }
  }

  /** The target is replaced in one step and only after a match was replaced; any error leaves it
      as it was. */
  method EditTextFile(file: TextFile, req: Request) returns (r: Result<(), EditError>)
    requires Valid(req.needle) && Valid(req.replacement)
    modifies file
    ensures req.needle == [] ==> r == Err(EmptyOld)
    ensures req.needle != [] && old(file.content).None? ==> r == Err(CannotRead)
    ensures r.Err? ==> file.content == old(file.content)
    ensures req.needle != [] && old(file.content).Some? ==>
              var t := old(file.content).value;
              var n := PrefixLength(t, req.start);
              var e := Edit(t[..n], t[n..], req, 0, false);
              && (r.Ok? ==> e.replaced && file.content == Some(e.text))
              && (r == Err(NotFound(req.start)) ==> !e.replaced)
              && (r.Err? ==> r.error == NotFound(req.start) || r.error == BadEncoding)
              && (r == Err(BadEncoding) <==> !Valid(t[..n]) || Unreadable([], t[n..], req))
              && (Valid(t) ==> (r.Ok? <==> e.replaced) && r != Err(BadEncoding))
  {
    if req.needle == [] {
      return Err(EmptyOld);
    }
    if file.content.None? {
      return Err(CannotRead);
    }
    hide *;
    var reader := new LineReader(file.content.value);
    var writer := new TextWriter();
    var copied := CopyPrefixLines(reader, writer, req.start);
    if copied.Err? {
      return Err(copied.error);
    }
    assert writer.written == old(file.content).value[..PrefixLength(old(file.content).value, req.start)];
    var replaced := ReplaceStream(reader, writer, req);
    if replaced.Err? {
      return Err(replaced.error);
    }
    if !replaced.value {
      return Err(NotFound(req.start));
    }
    file.content := Some(writer.written);
    r := Ok(());
  }
}
