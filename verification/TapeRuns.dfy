/** Several caches of one tape file, over whole runs: their reads and appends interleave in any
    order. */
module TapeRuns {
  import opened Wrappers
  import opened Utf8
  import opened Tape
  import opened TapeFile

  /** `appended` is history: what was appended so far, in order. */
  datatype World = World(file: Option<seq<byte>>, caches: seq<Cache>, appended: seq<Entry>)

  datatype Op = Reads(cache: nat) | Appends(cache: nat, entry: Entry)

  function Step(codec: Codec, w: World, op: Op): World
    requires op.cache < |w.caches|
  {
    match op
    case Reads(i) => w.(caches := w.caches[i := AfterRead(codec, w.file, w.caches[i])])
    case Appends(i, e) =>
      var (b, c) := AfterAppend(codec, w.file, w.caches[i], e);
      World(Some(b), w.caches[i := c], w.appended + [e])
  }

  predicate IsRun(w: World, ops: seq<Op>) {
    forall k :: 0 <= k < |ops| ==> ops[k].cache < |w.caches|
  }

  function Run(codec: Codec, w: World, ops: seq<Op>): (r: World)
    requires IsRun(w, ops)
    ensures |r.caches| == |w.caches|
  {
    if ops == [] then w
    else
      var before := Run(codec, w, ops[..|ops| - 1]);
      assert ops[|ops| - 1].cache < |w.caches|;
      Step(codec, before, ops[|ops| - 1])
  }

  /** The file holds what it held at first and then what was appended, numbered from there; every
      cache holds a prefix of it. */
  predicate Sound(codec: Codec, first: seq<Entry>, w: World) {
    && ParseAll(codec, Contents(w.file)) == first + Numbered(w.appended, NextId(first))
    && forall i :: 0 <= i < |w.caches| ==> Synced(codec, Contents(w.file), w.caches[i])
  }

  lemma NextIdAfter(first: seq<Entry>, appended: seq<Entry>)
    ensures NextId(first + Numbered(appended, NextId(first))) == NextId(first) + |appended|
  {
  }

  lemma AppendKeepsOthers(codec: Codec, w: World, i: nat, j: nat, e: Entry)
    requires Faithful(codec) && i < |w.caches| && j < |w.caches|
    requires Synced(codec, Contents(w.file), w.caches[i]) && Synced(codec, Contents(w.file), w.caches[j])
    ensures Synced(codec, AfterAppend(codec, w.file, w.caches[i], e).0, w.caches[j])
  {
    var read := AfterRead(codec, w.file, w.caches[i]);
    var stored := e.(id := NextId(read.entries));
    hide Synced;
    hide Faithful;
    hide AfterRead;
    WrittenLine(codec, stored);
    AppendKeepsSynced(codec, Contents(w.file), codec.render(stored) + [LF], w.caches[j]);
  }

  lemma AppendIsSound(codec: Codec, first: seq<Entry>, w: World, i: nat, e: Entry)
    requires Faithful(codec) && i < |w.caches| && Sound(codec, first, w)
    ensures Sound(codec, first, Step(codec, w, Appends(i, e)))
    ensures Current(codec, Contents(Step(codec, w, Appends(i, e)).file), Step(codec, w, Appends(i, e)).caches[i])
  {
    hide AfterAppend;
    hide Synced;
    hide Faithful;
    hide ParseAll;
    hide Numbered;
    hide NextId;
    AppendAdds(codec, w.file, w.caches[i], e);
    NextIdAfter(first, w.appended);
    NumberedSnoc(w.appended, e, NextId(first));
    forall j | 0 <= j < |w.caches|
      ensures Synced(codec, AfterAppend(codec, w.file, w.caches[i], e).0, w.caches[j])
    {
      AppendKeepsOthers(codec, w, i, j, e);
    }
  }

  lemma ReadIsSound(codec: Codec, first: seq<Entry>, w: World, i: nat)
    requires i < |w.caches| && Sound(codec, first, w)
    ensures Sound(codec, first, Step(codec, w, Reads(i)))
    ensures Current(codec, Contents(w.file), Step(codec, w, Reads(i)).caches[i])
  {
    hide AfterRead;
    hide Synced;
    hide ParseAll;
    hide Numbered;
    ReadCatchesUp(codec, w.file, w.caches[i]);
  }

  lemma {:induction false} RunIsSound(codec: Codec, first: seq<Entry>, w: World, ops: seq<Op>)
    requires Faithful(codec) && Sound(codec, first, w) && IsRun(w, ops)
    ensures Sound(codec, first, Run(codec, w, ops))
  {
    hide Sound;
    hide Faithful;
    hide Step;
    if ops != [] {
      var before, op := ops[..|ops| - 1], ops[|ops| - 1];
      RunIsSound(codec, first, w, before);
      match op
      case Reads(i) => ReadIsSound(codec, first, Run(codec, w, before), i);
      case Appends(i, e) => AppendIsSound(codec, first, Run(codec, w, before), i, e);
    }
  }

  function AppendedBy(ops: seq<Op>): seq<Entry> {
    if ops == [] then []
    else AppendedBy(ops[..|ops| - 1]) + if ops[|ops| - 1].Appends? then [ops[|ops| - 1].entry] else []
  }

  lemma {:induction false} RunAppends(codec: Codec, w: World, ops: seq<Op>)
    requires IsRun(w, ops)
    ensures Run(codec, w, ops).appended == w.appended + AppendedBy(ops)
  {
    if ops != [] {
      RunAppends(codec, w, ops[..|ops| - 1]);
    }
  }

  /** Fresh caches on a clean file, or on no file yet. */
  function Opened(file: Option<seq<byte>>, n: nat): World {
    World(file, seq(n, _ => Cache([], 0)), [])
  }

  lemma OpenedIsSound(codec: Codec, file: Option<seq<byte>>, n: nat)
    requires Clean(Contents(file))
    ensures Sound(codec, ParseAll(codec, Contents(file)), Opened(file, n))
  {
    var b := Contents(file);
    EmptyIsClean(codec);
    assert b[..0] == [] && b[0..] == b;
    assert ParseAll(codec, b) + [] == ParseAll(codec, b);
  }

  /** Over any interleaving the file parses to its first entries and then everything appended, in
      order and numbered consecutively, and every cache holds a prefix of that. */
  lemma CachesAgree(codec: Codec, file: Option<seq<byte>>, n: nat, ops: seq<Op>)
    requires Faithful(codec) && Clean(Contents(file)) && IsRun(Opened(file, n), ops)
    ensures var w := Run(codec, Opened(file, n), ops);
            var first := ParseAll(codec, Contents(file));
            && ParseAll(codec, Contents(w.file)) == first + Numbered(AppendedBy(ops), NextId(first))
            && forall i :: 0 <= i < n ==> w.caches[i].entries <= ParseAll(codec, Contents(w.file))
  {
    var start := Opened(file, n);
    var w := Run(codec, start, ops);
    var first := ParseAll(codec, Contents(file));
    OpenedIsSound(codec, file, n);
    RunIsSound(codec, first, start, ops);
    RunAppends(codec, start, ops);
    assert start.appended + AppendedBy(ops) == AppendedBy(ops);
    forall i | 0 <= i < n
      ensures w.caches[i].entries <= ParseAll(codec, Contents(w.file))
    {
      SyncedIsPrefix(codec, Contents(w.file), w.caches[i]);
    }
  }

  /** A read at any point of a run gives all that was appended before it, whoever appended it. */
  lemma ReadsSeeEverything(codec: Codec, file: Option<seq<byte>>, n: nat, ops: seq<Op>, i: nat)
    requires Faithful(codec) && Clean(Contents(file)) && IsRun(Opened(file, n), ops) && i < n
    ensures var w := Run(codec, Opened(file, n), ops);
            var first := ParseAll(codec, Contents(file));
            var c := AfterRead(codec, w.file, w.caches[i]);
            c.entries == first + Numbered(AppendedBy(ops), NextId(first)) && c.offset == |Contents(w.file)|
  {
    var start := Opened(file, n);
    var w := Run(codec, start, ops);
    var first := ParseAll(codec, Contents(file));
    OpenedIsSound(codec, file, n);
    RunIsSound(codec, first, start, ops);
    RunAppends(codec, start, ops);
    assert start.appended + AppendedBy(ops) == AppendedBy(ops);
    ReadCatchesUp(codec, w.file, w.caches[i]);
  }

  /** On a tape that started empty, the n entries carry the ids 1 to n. */
  lemma IdsCount(codec: Codec, n: nat, ops: seq<Op>, k: nat)
    requires Faithful(codec) && IsRun(Opened(None, n), ops)
    requires k < |ParseAll(codec, Contents(Run(codec, Opened(None, n), ops).file))|
    ensures |ParseAll(codec, Contents(Run(codec, Opened(None, n), ops).file))| == |AppendedBy(ops)|
    ensures ParseAll(codec, Contents(Run(codec, Opened(None, n), ops).file))[k] == AppendedBy(ops)[k].(id := k + 1)
  {
    EmptyIsClean(codec);
    CachesAgree(codec, None, n, ops);
    assert [] + Numbered(AppendedBy(ops), 1) == Numbered(AppendedBy(ops), 1);
  }
}
