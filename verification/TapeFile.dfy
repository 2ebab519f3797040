/** A tape kept in a file of one JSON object per line, read through a cache that remembers up to
    which byte the file has been parsed. Several caches may share one file. */
module TapeFile {
  import opened Wrappers
  import opened Utf8
  import opened Tape

  const LF: byte := 0x0A
  const CR: byte := 0x0D

  /** The JSON and string libraries: how an entry prints, how a line is trimmed and parsed. */
  datatype Codec = Codec(
    render: Entry -> seq<byte>, trim: seq<byte> -> seq<byte>, parse: seq<byte> -> Option<Entry>)

  /** What is assumed of them: an entry prints as one non-empty line of text that trimming leaves
      alone, and parses back. */
  ghost predicate Faithful(codec: Codec) {
    forall e :: PrintsBack(codec, e)
  }

  ghost predicate PrintsBack(codec: Codec, e: Entry) {
    var line := codec.render(e);
    && line != [] && Valid(line) && LF !in line && line[|line| - 1] != CR
    && codec.trim(line) == line && codec.parse(line) == Some(e)
  }

  // ----- Lines of a file -----

  /** Length of the first line, its newline included. */
  function LineEnd(b: seq<byte>): (n: nat)
    ensures n <= |b| && (b != [] ==> n > 0)
    ensures LF !in b[..if n > 0 then n - 1 else 0]
    ensures LF in b ==> n > 0 && b[n - 1] == LF
    ensures LF !in b ==> n == |b|
  {
    if b == [] then 0
    else if b[0] == LF then 1
    else
      assert b == [b[0]] + b[1..];
      var m := LineEnd(b[1..]);
      assert m > 0 ==> b[..m] == [b[0]] + b[1..][..m - 1];
      1 + m
  }

  function Head(b: seq<byte>): seq<byte> {
    b[..LineEnd(b)]
  }

  function Tail(b: seq<byte>): (t: seq<byte>)
    ensures b != [] ==> |t| < |b|
    ensures Head(b) + t == b && |Head(b)| + |t| == |b|
  {
    b[LineEnd(b)..]
  }

  /** What `lines()` makes of one line: no newline, no carriage return before it, and nothing where
      the bytes are not UTF-8. */
  function RawLine(line: seq<byte>): Option<seq<byte>> {
    if !Valid(line) then None
    else if line == [] || line[|line| - 1] != LF then Some(line)
    else if |line| > 1 && line[|line| - 2] == CR then Some(line[..|line| - 2])
    else Some(line[..|line| - 1])
  }

  function Record(codec: Codec, raw: seq<byte>): Option<Entry> {
    var line := codec.trim(raw);
    if line == [] then None else codec.parse(line)
  }

  /** The entry on a raw line, if any, as a sequence. */
  function Parsed(codec: Codec, raw: seq<byte>): seq<Entry> {
    match Record(codec, raw)
    case Some(e) => [e]
    case None => []
  }

  // ----- The cache -----

  datatype Cache = Cache(entries: seq<Entry>, offset: nat)

  /** Entries on the lines that end after `offset`, when `current` bytes were counted before `b`. */
  function Fresh(codec: Codec, b: seq<byte>, current: nat, offset: nat): seq<Entry>
    decreases |b|
  {
    if b == [] then []
    else
      match RawLine(Head(b))
      case None => Fresh(codec, Tail(b), current, offset)
      case Some(raw) =>
        var next := current + |raw| + 1;
        (if next <= offset then [] else Parsed(codec, raw)) + Fresh(codec, Tail(b), next, offset)
  }

  /** The entry of one line of the file, if any. */
  function OfLine(codec: Codec, line: seq<byte>): seq<Entry> {
    match RawLine(line)
    case None => []
    case Some(raw) => Parsed(codec, raw)
  }

  /** The whole file, parsed at once. */
  function ParseAll(codec: Codec, b: seq<byte>): seq<Entry>
    decreases |b|
  {
    if b == [] then [] else OfLine(codec, Head(b)) + ParseAll(codec, Tail(b))
  }

  function Contents(file: Option<seq<byte>>): seq<byte> {
    if file.Some? then file.value else []
  }

  function AfterRead(codec: Codec, file: Option<seq<byte>>, c: Cache): Cache {
    match file
    case None => Cache([], 0)
    case Some(b) =>
      var kept := if |b| < c.offset then Cache([], 0) else c;
      Cache(kept.entries + Fresh(codec, b, 0, kept.offset), |b|)
  }

  /** The line an append writes, after its read. */
  function Line(codec: Codec, c: Cache, e: Entry): seq<byte> {
    codec.render(e.(id := NextId(c.entries))) + [LF]
  }

  function AfterAppend(codec: Codec, file: Option<seq<byte>>, c: Cache, e: Entry): (seq<byte>, Cache) {
    var read := AfterRead(codec, file, c);
    var line := Line(codec, read, e);
    (Contents(file) + line, Cache(read.entries + [e.(id := NextId(read.entries))], read.offset + |line|))
  }

  // ----- Clean files -----

  /** Newline-terminated lines of UTF-8 text without carriage returns at their ends. */
  predicate CleanLine(line: seq<byte>) {
    line != [] && Valid(line) && line[|line| - 1] == LF && (|line| > 1 ==> line[|line| - 2] != CR)
  }

  predicate Clean(b: seq<byte>)
    decreases |b|
  {
    b == [] || (CleanLine(Head(b)) && Clean(Tail(b)))
  }

  lemma {:induction false} LineEndIs(b: seq<byte>, n: nat)
    requires 0 < n <= |b| && b[n - 1] == LF && LF !in b[..n - 1]
    ensures LineEnd(b) == n
  {
    if n > 1 {
      assert b[0] in b[..n - 1];
      assert b[1..][..n - 2] == b[..n - 1][1..];
      LineEndIs(b[1..], n - 1);
    }
  }

  lemma CleanSplit(b: seq<byte>)
    requires b != [] && Clean(b)
    ensures CleanLine(Head(b)) && Clean(Tail(b)) && LineEnd(b) > 0
    ensures b[LineEnd(b) - 1] == LF && LF !in b[..LineEnd(b) - 1]
  {
    var n := LineEnd(b);
    assert Head(b)[n - 1] == b[n - 1];
  }

  lemma SliceOfConcat(a: seq<byte>, b: seq<byte>, n: nat)
    requires n <= |a|
    ensures (a + b)[..n] == a[..n] && (a + b)[n..] == a[n..] + b
  {
  }

  lemma Pieces(b: seq<byte>)
    ensures LineEnd(b) <= |b| && Head(b) == b[..LineEnd(b)] && Tail(b) == b[LineEnd(b)..]
  {
  }

  lemma HeadOf(a: seq<byte>, b: seq<byte>)
    requires a != [] && Clean(a)
    ensures Head(a + b) == Head(a) && Tail(a + b) == Tail(a) + b
  {
    hide *;
    var n := LineEnd(a);
    CleanSplit(a);
    Pieces(a);
    Pieces(a + b);
    SliceOfConcat(a, b, n - 1);
    SliceOfConcat(a, b, n);
    LineEndIs(a + b, n);
  }

  lemma RawOfClean(line: seq<byte>)
    requires CleanLine(line)
    ensures RawLine(line) == Some(line[..|line| - 1])
  {
    hide Valid;
  }

  /** A line of a clean file, unfolded. */
  lemma FreshStep(codec: Codec, b: seq<byte>, current: nat, offset: nat)
    requires b != [] && Clean(b)
    ensures Fresh(codec, b, current, offset) ==
            (if current + |Head(b)| <= offset then [] else OfLine(codec, Head(b))) +
            Fresh(codec, Tail(b), current + |Head(b)|, offset)
  {
    hide *;
    CleanSplit(b);
    RawOfClean(Head(b));
    OfLineIs(codec, Head(b));
    FreshIs(codec, b, current, offset);
  }

  lemma OfLineIs(codec: Codec, line: seq<byte>)
    requires RawLine(line).Some?
    ensures OfLine(codec, line) == Parsed(codec, RawLine(line).value)
  {
  }

  lemma FreshIs(codec: Codec, b: seq<byte>, current: nat, offset: nat)
    requires b != [] && RawLine(Head(b)).Some?
    ensures var next := current + |RawLine(Head(b)).value| + 1;
            Fresh(codec, b, current, offset) ==
              (if next <= offset then [] else Parsed(codec, RawLine(Head(b)).value)) +
              Fresh(codec, Tail(b), next, offset)
  {
    hide RawLine;
    hide Head;
    hide Tail;
    hide Parsed;
  }

  lemma ParseStep(codec: Codec, b: seq<byte>)
    ensures ParseAll(codec, b) == if b == [] then [] else OfLine(codec, Head(b)) + ParseAll(codec, Tail(b))
  {
  }

  lemma FreshNone(codec: Codec, current: nat, offset: nat)
    ensures Fresh(codec, [], current, offset) == []
  {
  }

  lemma CleanStep(b: seq<byte>)
    ensures Clean(b) <==> b == [] || (CleanLine(Head(b)) && Clean(Tail(b)))
  {
  }

  lemma NothingBefore<T>(a: seq<T>, b: seq<T>)
    requires a == []
    ensures a + b == b
  {
  }

  lemma {:induction false} CleanConcat(a: seq<byte>, b: seq<byte>)
    requires Clean(a) && Clean(b)
    ensures Clean(a + b)
    decreases |a|
  {
    hide *;
    CleanStep(a);
    if a == [] {
      NothingBefore(a, b);
    } else {
      HeadOf(a, b);
      CleanConcat(Tail(a), b);
      CleanStep(a + b);
    }
  }

  lemma {:induction false} ParseConcat(codec: Codec, a: seq<byte>, b: seq<byte>)
    requires Clean(a) && Clean(b)
    ensures ParseAll(codec, a + b) == ParseAll(codec, a) + ParseAll(codec, b)
    decreases |a|
  {
    hide *;
    CleanStep(a);
    ParseStep(codec, a);
    if a == [] {
      NothingBefore(a, b);
      NothingBefore(ParseAll(codec, a), ParseAll(codec, b));
    } else {
      HeadOf(a, b);
      ParseStep(codec, a + b);
      ParseConcat(codec, Tail(a), b);
      assert OfLine(codec, Head(a)) + (ParseAll(codec, Tail(a)) + ParseAll(codec, b)) ==
             OfLine(codec, Head(a)) + ParseAll(codec, Tail(a)) + ParseAll(codec, b);
    }
  }

  /** Entries of the lines that end at or before `offset`. */
  ghost function Skipped(codec: Codec, b: seq<byte>, current: nat, offset: nat): seq<Entry>
    decreases |b|
  {
    if b == [] then []
    else
      (if current + |Head(b)| <= offset then OfLine(codec, Head(b)) else []) +
      Skipped(codec, Tail(b), current + |Head(b)|, offset)
  }

  lemma SkippedStep(codec: Codec, b: seq<byte>, current: nat, offset: nat)
    ensures Skipped(codec, b, current, offset) ==
            if b == [] then []
            else
              (if current + |Head(b)| <= offset then OfLine(codec, Head(b)) else []) +
              Skipped(codec, Tail(b), current + |Head(b)|, offset)
  {
  }

  lemma {:induction false} AllFresh(codec: Codec, b: seq<byte>, current: nat, offset: nat)
    requires Clean(b) && offset <= current
    ensures Fresh(codec, b, current, offset) == ParseAll(codec, b)
    ensures Skipped(codec, b, current, offset) == []
    decreases |b|
  {
    hide *;
    CleanStep(b);
    ParseStep(codec, b);
    SkippedStep(codec, b, current, offset);
    FreshNone(codec, current, offset);
    if b != [] {
      HeadIsSome(b);
      FreshStep(codec, b, current, offset);
      AllFresh(codec, Tail(b), current + |Head(b)|, offset);
    }
  }

  lemma HeadIsSome(b: seq<byte>)
    requires b != []
    ensures |Head(b)| > 0
  {
  }

  lemma {:induction false} SkippedThenFresh(codec: Codec, b: seq<byte>, current: nat, offset: nat)
    requires Clean(b)
    ensures ParseAll(codec, b) == Skipped(codec, b, current, offset) + Fresh(codec, b, current, offset)
    decreases |b|
  {
    hide *;
    CleanStep(b);
    ParseStep(codec, b);
    SkippedStep(codec, b, current, offset);
    FreshNone(codec, current, offset);
    if b != [] {
      FreshStep(codec, b, current, offset);
      var next := current + |Head(b)|;
      SkippedThenFresh(codec, Tail(b), next, offset);
      if next > offset {
        AllFresh(codec, Tail(b), next, offset);
      }
    }
  }

  lemma {:induction false} FreshAfterPrefix(codec: Codec, a: seq<byte>, b: seq<byte>, current: nat)
    requires Clean(a) && Clean(b)
    ensures Fresh(codec, a + b, current, current + |a|) == ParseAll(codec, b)
    decreases |a|
  {
    hide *;
    CleanStep(a);
    if a == [] {
      NothingBefore(a, b);
      AllFresh(codec, b, current, current);
    } else {
      CleanConcat(a, b);
      HeadOf(a, b);
      FreshStep(codec, a + b, current, current + |a|);
      FreshAfterPrefix(codec, Tail(a), b, current + |Head(a)|);
    }
  }

  /** A line that ends the way lines end is worth the entry its trimmed text parses to, if any, whatever
      the text; one that is not UTF-8 is worth nothing. */
  lemma LineIsWorth(codec: Codec, text: seq<byte>, carriage: bool, rest: seq<byte>)
    requires LF !in text && (text != [] && !carriage ==> text[|text| - 1] != CR)
    ensures var line := text + (if carriage then [CR, LF] else [LF]);
            var trimmed := codec.trim(text);
            ParseAll(codec, line + rest) ==
              (if !Valid(line) || trimmed == [] || codec.parse(trimmed).None? then []
               else [codec.parse(trimmed).value]) + ParseAll(codec, rest)
  {
    var line := text + (if carriage then [CR, LF] else [LF]);
    var b := line + rest;
    RawOf(text, carriage);
    FirstLineIs(line, rest);
    hide Valid;
    hide Head;
    hide Tail;
    hide RawLine;
  }

  lemma RawOf(text: seq<byte>, carriage: bool)
    requires text != [] && !carriage ==> text[|text| - 1] != CR
    ensures var line := text + (if carriage then [CR, LF] else [LF]);
            RawLine(line) == if Valid(line) then Some(text) else None
  {
    var line := text + (if carriage then [CR, LF] else [LF]);
    assert line[..|text|] == text;
    assert |line| > 1 ==> line[|line| - 2] == if carriage then CR else text[|text| - 1];
    hide Valid;
  }

  lemma FirstLineIs(line: seq<byte>, rest: seq<byte>)
    requires line != [] && line[|line| - 1] == LF && LF !in line[..|line| - 1]
    ensures Head(line + rest) == line && Tail(line + rest) == rest && line + rest != []
  {
    var b := line + rest;
    assert b[..|line| - 1] == line[..|line| - 1];
    LineEndIs(b, |line|);
    hide LineEnd;
  }

  // ----- What the cache knows -----

  /** The cache holds the parse of a prefix of the file that ends with a line. */
  predicate Synced(codec: Codec, b: seq<byte>, c: Cache) {
    && c.offset <= |b|
    && Clean(b[..c.offset]) && Clean(b[c.offset..])
    && c.entries == ParseAll(codec, b[..c.offset])
  }

  predicate Current(codec: Codec, b: seq<byte>, c: Cache) {
    c.entries == ParseAll(codec, b) && c.offset == |b|
  }

  /** Reading incrementally gives what parsing the whole file gives. */
  lemma ReadCatchesUp(codec: Codec, file: Option<seq<byte>>, c: Cache)
    requires Synced(codec, Contents(file), c)
    ensures Current(codec, Contents(file), AfterRead(codec, file, c))
    ensures Synced(codec, Contents(file), AfterRead(codec, file, c))
  {
    hide Clean;
    hide ParseAll;
    hide Fresh;
    EmptyIsClean(codec);
    if file.Some? {
      var a, b := file.value[..c.offset], file.value[c.offset..];
      assert a + b == file.value;
      FreshAfterPrefix(codec, a, b, 0);
      ParseConcat(codec, a, b);
      CleanConcat(a, b);
      assert file.value[..|file.value|] == file.value && file.value[|file.value|..] == [];
    } else {
      assert Contents(file)[..0] == [] && Contents(file)[0..] == [];
    }
  }

  /** A cache is a prefix of what a full parse gives. */
  lemma SyncedIsPrefix(codec: Codec, b: seq<byte>, c: Cache)
    requires Synced(codec, b, c)
    ensures c.entries <= ParseAll(codec, b) && Clean(b)
  {
    hide Clean;
    hide ParseAll;
    ParseConcat(codec, b[..c.offset], b[c.offset..]);
    CleanConcat(b[..c.offset], b[c.offset..]);
    assert b[..c.offset] + b[c.offset..] == b;
  }

  /** Whatever a cache holds, reading a clean file gives its entries exactly when the file is
      shorter than the offset, or the cache holds the entries of the lines that end within it. So a
      file reset and grown again behind a cache is read correctly only by luck. */
  lemma ReadIsRightExactly(codec: Codec, b: seq<byte>, c: Cache)
    requires Clean(b)
    ensures AfterRead(codec, Some(b), c).entries == ParseAll(codec, b) <==>
            |b| < c.offset || c.entries == Skipped(codec, b, 0, c.offset)
  {
    if |b| < c.offset {
      AllFresh(codec, b, 0, 0);
    } else {
      SkippedThenFresh(codec, b, 0, c.offset);
      var skipped, added := Skipped(codec, b, 0, c.offset), Fresh(codec, b, 0, c.offset);
      if c.entries + added == skipped + added {
        assert c.entries == (c.entries + added)[..|c.entries|];
        assert skipped == (skipped + added)[..|skipped|];
      }
    }
  }

  lemma WrittenLine(codec: Codec, e: Entry)
    requires Faithful(codec)
    ensures var line := codec.render(e) + [LF];
            Clean(line) && ParseAll(codec, line) == [e]
  {
    var text := codec.render(e);
    var line := text + [LF];
    assert PrintsBack(codec, e);
    assert CleanLine(line) by {
      assert Valid([LF]) by {
        assert [LF][..1] == [LF] && [LF][1..] == [];
      }
      ValidConcat(text, [LF]);
    }
    assert line[..|line| - 1] == text;
    LineEndIs(line, |line|);
    OneLine(codec, line, e);
  }

  lemma OneLine(codec: Codec, line: seq<byte>, e: Entry)
    requires CleanLine(line) && LineEnd(line) == |line|
    requires PrintsBack(codec, e) && codec.render(e) == line[..|line| - 1]
    ensures Clean(line) && ParseAll(codec, line) == [e]
  {
    RawOfClean(line);
    assert Head(line) == line && Tail(line) == [];
    hide CleanLine;
    hide RawLine;
    hide LineEnd;
    hide Valid;
    assert Clean([]) && ParseAll(codec, []) == [];
  }

  /** An append adds its entry, numbered after the last one, to the file; the appending cache stays
      up to date. */
  lemma AppendAdds(codec: Codec, file: Option<seq<byte>>, c: Cache, e: Entry)
    requires Faithful(codec) && Synced(codec, Contents(file), c)
    ensures var (b, after) := AfterAppend(codec, file, c, e);
            && ParseAll(codec, b) ==
                 ParseAll(codec, Contents(file)) + [e.(id := NextId(ParseAll(codec, Contents(file))))]
            && Current(codec, b, after) && Synced(codec, b, after)
  {
    hide *;
    SyncedIsPrefix(codec, Contents(file), c);
    ReadCatchesUp(codec, file, c);
    AppendAfterRead(codec, file, c, e);
  }

  lemma AppendAfterRead(codec: Codec, file: Option<seq<byte>>, c: Cache, e: Entry)
    requires Faithful(codec) && Clean(Contents(file))
    requires Current(codec, Contents(file), AfterRead(codec, file, c))
    ensures var (b, after) := AfterAppend(codec, file, c, e);
            && ParseAll(codec, b) ==
                 ParseAll(codec, Contents(file)) + [e.(id := NextId(ParseAll(codec, Contents(file))))]
            && Current(codec, b, after) && Synced(codec, b, after)
  {
    var before := Contents(file);
    var stored := e.(id := NextId(ParseAll(codec, before)));
    var line := codec.render(stored) + [LF];
    hide AfterRead;
    hide ParseAll;
    hide Clean;
    hide Faithful;
    WrittenLine(codec, stored);
    ParseConcat(codec, before, line);
    CleanConcat(before, line);
    var b := before + line;
    assert b[..|b|] == b && b[|b|..] == [];
    EmptyIsClean(codec);
  }

  lemma EmptyIsClean(codec: Codec)
    ensures Clean([]) && ParseAll(codec, []) == []
  {
  }

  /** Every other cache of the file stays a prefix of it. */
  lemma AppendKeepsSynced(codec: Codec, b: seq<byte>, line: seq<byte>, c: Cache)
    requires Synced(codec, b, c) && Clean(line)
    ensures Synced(codec, b + line, c)
  {
    hide Clean;
    hide ParseAll;
    SliceOfConcat(b, line, c.offset);
    CleanConcat(b[c.offset..], line);
  }

  /** Reading with a size measured before another process appended a line counts the line now, and
      again at the next read. */
  lemma RacingReadDuplicates(codec: Codec, b: seq<byte>, e: Entry)
    requires Faithful(codec) && Clean(b)
    ensures var longer := b + codec.render(e) + [LF];
            var raced := Cache(Fresh(codec, longer, 0, 0), |b|);
            AfterRead(codec, Some(longer), raced).entries == ParseAll(codec, longer) + [e]
  {
    hide *;
    var line := codec.render(e) + [LF];
    WrittenLine(codec, e);
    LineAssoc(b, codec.render(e));
    CleanConcat(b, line);
    AllFresh(codec, b + line, 0, 0);
    FreshAfterPrefix(codec, b, line, 0);
    ReadsOn(codec, b + line, Cache(ParseAll(codec, b + line), |b|));
  }

  lemma LineAssoc(b: seq<byte>, text: seq<byte>)
    ensures b + text + [LF] == b + (text + [LF])
  {
  }

  lemma ReadsOn(codec: Codec, b: seq<byte>, c: Cache)
    requires c.offset <= |b|
    ensures AfterRead(codec, Some(b), c).entries == c.entries + Fresh(codec, b, 0, c.offset)
  {
  }

  // ----- The operations -----

  /** The file as the operating system keeps it. */
  class Disk {
    var file: Option<seq<byte>>

    constructor ()
      ensures file == None
    {
      file := None;
    }
  }

  class TapeFile {
    const disk: Disk
    const codec: Codec
    var readEntries: seq<Entry>
    var readOffset: nat

    constructor (disk: Disk, codec: Codec)
      ensures this.disk == disk && this.codec == codec && View() == Cache([], 0)
    {
      this.disk := disk;
      this.codec := codec;
      readEntries := [];
      readOffset := 0;
    }

    function View(): Cache
      reads this
    {
      Cache(readEntries, readOffset)
    }

    method ResetCache()
      modifies this
      ensures View() == Cache([], 0)
    {
      readEntries := [];
      readOffset := 0;
    }

    method Reset()
      modifies this, disk
      ensures disk.file == None && View() == Cache([], 0)
      ensures Synced(codec, Contents(disk.file), View())
    {
      disk.file := None;
      ResetCache();
    }

    method ReadNewEntries(fileSize: nat)
      requires disk.file.Some?
      modifies this
      ensures readEntries == old(readEntries) + Fresh(codec, disk.file.value, 0, old(readOffset))
      ensures readOffset == fileSize
    {
      hide Fresh;
      hide RawLine;
      hide Head;
      hide Tail;
      var unread := disk.file.value;
      var current: nat := 0;
      ghost var whole := readEntries + Fresh(codec, unread, 0, readOffset);
      while unread != []
        invariant readOffset == old(readOffset) && disk.file == old(disk.file)
        invariant whole == readEntries + Fresh(codec, unread, current, readOffset)
        decreases |unread|
      {
        ReadStep(codec, unread, current, readOffset, readEntries);
        var line := RawLine(Head(unread));
        unread := Tail(unread);
        if line.Some? {
          current := current + |line.value| + 1;
          if current > readOffset {
            var entry := Record(codec, line.value);
            if entry.Some? {
              readEntries := readEntries + [entry.value];
            }
          }
        }
      }
      FreshNone(codec, current, readOffset);
      readOffset := fileSize;
    }

    method Read() returns (entries: seq<Entry>)
      modifies this
      ensures View() == AfterRead(codec, disk.file, old(View())) && entries == readEntries
      ensures old(Synced(codec, Contents(disk.file), View())) ==>
                entries == ParseAll(codec, Contents(disk.file)) && readOffset == |Contents(disk.file)|
    {
      ghost var before := View();
      if Synced(codec, Contents(disk.file), before) {
        ReadCatchesUp(codec, disk.file, before);
      }
      if disk.file.None? {
        ResetCache();
        return [];
      }
      var fileSize := |disk.file.value|;
      if fileSize < readOffset {
        ResetCache();
      }
      ReadNewEntries(fileSize);
      entries := readEntries;
    }

    method Append(e: Entry)
      modifies this, disk
      ensures var (b, after) := AfterAppend(codec, old(disk.file), old(View()), e);
              disk.file == Some(b) && View() == after
      ensures old(Faithful(codec) && Synced(codec, Contents(disk.file), View())) ==>
                && ParseAll(codec, Contents(disk.file)) ==
                     old(ParseAll(codec, Contents(disk.file))) + [readEntries[|readEntries| - 1]]
                && Current(codec, Contents(disk.file), View())
    {
      hide AfterAppend;
      hide AfterRead;
      hide Synced;
      hide Faithful;
      hide Current;
      hide ParseAll;
      AppendHolds(codec, disk.file, View(), e);
      AppendIs(codec, disk.file, View(), e);
      var _ := Read();
      var stored := e.(id := if readEntries == [] then 1 else readEntries[|readEntries| - 1].id + 1);
      var line := codec.render(stored) + [LF];
      disk.file := Some((if disk.file.Some? then disk.file.value else []) + line);
      readEntries := readEntries + [stored];
      readOffset := readOffset + |line|;
    }
  }

  lemma AppendIs(codec: Codec, file: Option<seq<byte>>, c: Cache, e: Entry)
    ensures var read := AfterRead(codec, file, c);
            var stored := e.(id := if read.entries == [] then 1 else read.entries[|read.entries| - 1].id + 1);
            var line := codec.render(stored) + [LF];
            AfterAppend(codec, file, c, e) ==
              ((if file.Some? then file.value else []) + line, Cache(read.entries + [stored], read.offset + |line|))
  {
    hide AfterRead;
  }

  lemma AppendHolds(codec: Codec, file: Option<seq<byte>>, c: Cache, e: Entry)
    ensures var (b, after) := AfterAppend(codec, file, c, e);
            && after.entries != []
            && (Faithful(codec) && Synced(codec, Contents(file), c) ==>
                  && ParseAll(codec, b) == ParseAll(codec, Contents(file)) + [after.entries[|after.entries| - 1]]
                  && Current(codec, b, after))
  {
    var (b, after) := AfterAppend(codec, file, c, e);
    if Faithful(codec) && Synced(codec, Contents(file), c) {
      AppendAdds(codec, file, c, e);
      ReadCatchesUp(codec, file, c);
    }
  }

  /** One iteration of the reading loop. */
  lemma ReadStep(codec: Codec, b: seq<byte>, current: nat, offset: nat, entries: seq<Entry>)
    requires b != []
    ensures entries + Fresh(codec, b, current, offset) ==
            match RawLine(Head(b))
            case None => entries + Fresh(codec, Tail(b), current, offset)
            case Some(raw) =>
              var next := current + |raw| + 1;
              (if next <= offset then entries else entries + Parsed(codec, raw)) + Fresh(codec, Tail(b), next, offset)
  {
    hide RawLine;
    hide Parsed;
    hide Head;
    hide Tail;
    var line := RawLine(Head(b));
    if line.Some? {
      var next := current + |line.value| + 1;
      var more := if next <= offset then [] else Parsed(codec, line.value);
      assert entries + (more + Fresh(codec, Tail(b), next, offset)) ==
             entries + more + Fresh(codec, Tail(b), next, offset);
    }
  }
}
