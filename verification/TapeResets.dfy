/** Runs of one tape file with resets: what a single instance can rely on, and up to which reset
    several can. */
module TapeResets {
  import opened Wrappers
  import opened Utf8
  import opened Tape
  import opened TapeFile

  /** History: what the file parsed to at first, nothing after a reset, and what was appended since. */
  datatype World = World(file: Option<seq<byte>>, caches: seq<Cache>, first: seq<Entry>, appended: seq<Entry>)

  datatype Op = Reads(cache: nat) | Appends(cache: nat, entry: Entry) | Resets(cache: nat)

  function Step(codec: Codec, w: World, op: Op): World
    requires op.cache < |w.caches|
  {
    match op
    case Reads(i) => w.(caches := w.caches[i := AfterRead(codec, w.file, w.caches[i])])
    case Appends(i, e) =>
      var (b, c) := AfterAppend(codec, w.file, w.caches[i], e);
      World(Some(b), w.caches[i := c], w.first, w.appended + [e])
    case Resets(i) => World(None, w.caches[i := Cache([], 0)], [], [])
  }

  predicate IsRun(w: World, ops: seq<Op>) {
    forall k :: 0 <= k < |ops| ==> ops[k].cache < |w.caches|
  }

  function Run(codec: Codec, w: World, ops: seq<Op>): (r: World)
    requires IsRun(w, ops)
    ensures |r.caches| == |w.caches|
  {
    if ops == [] then w
    else
      var before := Run(codec, w, ops[..|ops| - 1]);
      assert ops[|ops| - 1].cache < |w.caches|;
      Step(codec, before, ops[|ops| - 1])
  }

  function Opened(codec: Codec, file: Option<seq<byte>>, n: nat): World {
    World(file, seq(n, _ => Cache([], 0)), ParseAll(codec, Contents(file)), [])
  }

  // ----- What the file holds -----

  ghost predicate Logged(codec: Codec, w: World) {
    && Clean(Contents(w.file))
    && ParseAll(codec, Contents(w.file)) == w.first + Numbered(w.appended, NextId(w.first))
  }

  /** The instance finds its file gone or shorter than what it counted, or with the lines it knows. */
  ghost predicate Notices(codec: Codec, w: World, i: nat)
    requires i < |w.caches|
  {
    var b, c := Contents(w.file), w.caches[i];
    w.file.None? || |b| < c.offset || c.entries == Skipped(codec, b, 0, c.offset)
  }

  /** Exactly then a read gives what is in the file. */
  lemma NoticingExactly(codec: Codec, w: World, i: nat)
    requires Logged(codec, w) && i < |w.caches|
    ensures Notices(codec, w, i) <==> Current(codec, Contents(w.file), AfterRead(codec, w.file, w.caches[i]))
    ensures Current(codec, Contents(w.file), AfterRead(codec, w.file, w.caches[i])) ==>
              AfterRead(codec, w.file, w.caches[i]).entries == w.first + Numbered(w.appended, NextId(w.first))
  {
    EmptyIsClean(codec);
    if w.file.Some? {
      ReadIsRightExactly(codec, w.file.value, w.caches[i]);
    }
    hide ParseAll;
    hide Clean;
    hide Skipped;
    hide Fresh;
  }

  /** Every instance that reads or appends notices what happened to the file; one that resets it need
      not. */
  ghost predicate Attentive(codec: Codec, w: World, ops: seq<Op>)
    requires IsRun(w, ops)
  {
    ops == [] ||
    (var before, last := ops[..|ops| - 1], ops[|ops| - 1];
     && Attentive(codec, w, before)
     && last.cache < |w.caches|
     && (last.Resets? || Notices(codec, Run(codec, w, before), last.cache)))
  }

  lemma LoggedIs(codec: Codec, w: World)
    ensures Logged(codec, w) <==>
            Clean(Contents(w.file)) &&
            ParseAll(codec, Contents(w.file)) == w.first + Numbered(w.appended, NextId(w.first))
  {
  }

  lemma StepIs(codec: Codec, w: World, op: Op)
    requires op.cache < |w.caches|
    ensures var v := Step(codec, w, op);
            match op
            case Reads(i) =>
              && v.file == w.file && v.caches[i] == AfterRead(codec, w.file, w.caches[i])
              && v.first == w.first && v.appended == w.appended
            case Appends(i, e) =>
              && v.file == Some(AfterAppend(codec, w.file, w.caches[i], e).0)
              && v.caches[i] == AfterAppend(codec, w.file, w.caches[i], e).1
              && v.first == w.first && v.appended == w.appended + [e]
            case Resets(i) => v.file == None && v.first == [] && v.appended == []
    ensures |Step(codec, w, op).caches| == |w.caches|
    ensures Step(codec, w, op).file.Some? ==> Contents(Step(codec, w, op).file) == Step(codec, w, op).file.value
    ensures Contents(None) == []
  {
    hide AfterRead;
    hide AfterAppend;
  }

  lemma StepLogs(codec: Codec, w: World, op: Op)
    requires Faithful(codec) && Logged(codec, w) && op.cache < |w.caches|
    requires op.Resets? || Notices(codec, w, op.cache)
    ensures Logged(codec, Step(codec, w, op))
    ensures !op.Resets? ==> Synced(codec, Contents(Step(codec, w, op).file), Step(codec, w, op).caches[op.cache])
  {
    hide *;
    var v := Step(codec, w, op);
    LoggedIs(codec, w);
    LoggedIs(codec, v);
    StepIs(codec, w, op);
    match op {
      case Reads(i) =>
        NoticingExactly(codec, w, i);
        CurrentIsSynced(codec, Contents(w.file), AfterRead(codec, w.file, w.caches[i]));
      case Appends(i, e) =>
        NoticingExactly(codec, w, i);
        AppendAfterRead(codec, w.file, w.caches[i], e);
        NextIdOf(w.first, w.appended);
        NumberedSnoc(w.appended, e, NextId(w.first));
        SyncedIsPrefix(codec, Contents(v.file), v.caches[i]);
        Assoc(w.first, Numbered(w.appended, NextId(w.first)), e.(id := NextId(w.first) + |w.appended|));
      case Resets(i) =>
        EmptyIsClean(codec);
        NothingNumbered();
    }
  }

  lemma Assoc(a: seq<Entry>, b: seq<Entry>, e: Entry)
    ensures a + b + [e] == a + (b + [e])
  {
  }

  lemma NothingNumbered()
    ensures [] + Numbered([], NextId([])) == []
  {
  }

  lemma NextIdOf(first: seq<Entry>, appended: seq<Entry>)
    ensures NextId(first + Numbered(appended, NextId(first))) == NextId(first) + |appended|
  {
  }

  lemma CurrentIsSynced(codec: Codec, b: seq<byte>, c: Cache)
    requires Clean(b) && Current(codec, b, c)
    ensures Synced(codec, b, c)
  {
    EmptyIsClean(codec);
    assert b[..|b|] == b && b[|b|..] == [];
    hide Clean;
    hide ParseAll;
  }

  lemma {:induction false} RunLogs(codec: Codec, w: World, ops: seq<Op>)
    requires Faithful(codec) && Logged(codec, w) && IsRun(w, ops) && Attentive(codec, w, ops)
    ensures Logged(codec, Run(codec, w, ops))
  {
    hide Logged;
    hide Faithful;
    hide Step;
    hide Notices;
    if ops != [] {
      var before := ops[..|ops| - 1];
      RunLogs(codec, w, before);
      StepLogs(codec, Run(codec, w, before), ops[|ops| - 1]);
    }
  }

  // ----- What was appended since the last reset -----

  /** Whether there was a reset, and what was appended after the last one. */
  function Since(ops: seq<Op>): (bool, seq<Entry>) {
    if ops == [] then (false, [])
    else
      var (reset, entries) := Since(ops[..|ops| - 1]);
      match ops[|ops| - 1]
      case Reads(_) => (reset, entries)
      case Appends(_, e) => (reset, entries + [e])
      case Resets(_) => (true, [])
  }

  lemma {:induction false} RunSince(codec: Codec, w: World, ops: seq<Op>)
    requires IsRun(w, ops)
    ensures var (reset, entries) := Since(ops);
            && Run(codec, w, ops).first == (if reset then [] else w.first)
            && Run(codec, w, ops).appended == (if reset then [] else w.appended) + entries
  {
    hide AfterRead;
    hide AfterAppend;
    if ops != [] {
      RunSince(codec, w, ops[..|ops| - 1]);
    }
  }

  lemma OpenedIsLogged(codec: Codec, file: Option<seq<byte>>, n: nat)
    requires Clean(Contents(file))
    ensures Logged(codec, Opened(codec, file, n))
  {
    var first := ParseAll(codec, Contents(file));
    assert first + Numbered([], NextId(first)) == first;
  }

  /** With resets by any instance, as long as each notices those of the others, the file parses to
      what was appended since the last one, numbered from 1, or to its first entries and then all
      that was appended; and so a read gives exactly when its instance notices. */
  lemma ResetRunsAgree(codec: Codec, file: Option<seq<byte>>, n: nat, ops: seq<Op>, i: nat)
    requires Faithful(codec) && Clean(Contents(file)) && i < n
    requires IsRun(Opened(codec, file, n), ops) && Attentive(codec, Opened(codec, file, n), ops)
    ensures var w := Run(codec, Opened(codec, file, n), ops);
            var (reset, entries) := Since(ops);
            var first := if reset then [] else ParseAll(codec, Contents(file));
            && ParseAll(codec, Contents(w.file)) == first + Numbered(entries, NextId(first))
            && (Notices(codec, w, i) <==>
                  AfterRead(codec, w.file, w.caches[i]) ==
                    Cache(first + Numbered(entries, NextId(first)), |Contents(w.file)|))
  {
    var start := Opened(codec, file, n);
    var w := Run(codec, start, ops);
    OpenedIsLogged(codec, file, n);
    RunLogs(codec, start, ops);
    RunSince(codec, start, ops);
    NoticingExactly(codec, w, i);
    assert start.appended + Since(ops).1 == Since(ops).1;
    hide Notices;
    hide AfterRead;
    hide ParseAll;
    hide Numbered;
    hide Run;
    hide Attentive;
  }

  // ----- Who notices -----

  /** An instance in step with the file notices. */
  lemma InStepNotices(codec: Codec, w: World, i: nat)
    requires Logged(codec, w) && i < |w.caches| && Synced(codec, Contents(w.file), w.caches[i])
    ensures Notices(codec, w, i)
  {
    ReadCatchesUp(codec, w.file, w.caches[i]);
    NoticingExactly(codec, w, i);
    hide Notices;
    hide AfterRead;
  }

  /** A reset leaves in step with the file the instance that made it, and of the others exactly those
      that had counted nothing of it. */
  lemma ResetLeavesBehind(codec: Codec, w: World, i: nat, j: nat)
    requires i < |w.caches| && j < |w.caches| && Synced(codec, Contents(w.file), w.caches[j])
    ensures var v := Step(codec, w, Resets(i));
            Synced(codec, Contents(v.file), v.caches[j]) <==> j == i || w.caches[j].offset == 0
  {
    EmptyIsClean(codec);
    var b: seq<byte> := [];
    assert b[..0] == [] && b[0..] == [];
    if w.caches[j].offset == 0 {
      assert Contents(w.file)[..0] == [];
    }
    hide Clean;
    hide ParseAll;
  }

  lemma StepKeepsInStep(codec: Codec, w: World, op: Op, j: nat)
    requires Faithful(codec) && Logged(codec, w) && op.cache < |w.caches| && j < |w.caches|
    requires op.Resets? || Notices(codec, w, op.cache)
    requires Synced(codec, Contents(w.file), w.caches[j]) && (op.Resets? ==> op.cache == j)
    ensures Synced(codec, Contents(Step(codec, w, op).file), Step(codec, w, op).caches[j])
  {
    if op.Resets? {
      ResetLeavesBehind(codec, w, op.cache, j);
    } else if op.cache == j {
      StepLogs(codec, w, op);
    } else if op.Appends? {
      AppendKeepsInStep(codec, w, op.cache, op.entry, j);
    }
    hide Synced;
    hide Notices;
    hide AfterRead;
    hide AfterAppend;
  }

  lemma AppendKeepsInStep(codec: Codec, w: World, i: nat, e: Entry, j: nat)
    requires Faithful(codec) && i < |w.caches| && j < |w.caches|
    requires Synced(codec, Contents(w.file), w.caches[j])
    ensures Synced(codec, AfterAppend(codec, w.file, w.caches[i], e).0, w.caches[j])
  {
    var stored := e.(id := NextId(AfterRead(codec, w.file, w.caches[i]).entries));
    hide Synced;
    hide Faithful;
    hide AfterRead;
    WrittenLine(codec, stored);
    AppendKeepsSynced(codec, Contents(w.file), codec.render(stored) + [LF], w.caches[j]);
  }

  /** Instance `j` stays in step, and so notices, at least until another one resets the file. */
  lemma {:induction false} InStepUntilReset(codec: Codec, w: World, ops: seq<Op>, j: nat)
    requires Faithful(codec) && Logged(codec, w) && IsRun(w, ops) && Attentive(codec, w, ops)
    requires j < |w.caches| && Synced(codec, Contents(w.file), w.caches[j])
    requires forall k :: 0 <= k < |ops| && ops[k].Resets? ==> ops[k].cache == j
    ensures var v := Run(codec, w, ops);
            Logged(codec, v) && Synced(codec, Contents(v.file), v.caches[j]) && Notices(codec, v, j)
  {
    RunLogs(codec, w, ops);
    hide Logged;
    hide Faithful;
    hide Step;
    hide Notices;
    hide Synced;
    if ops != [] {
      var before := ops[..|ops| - 1];
      assert forall k :: 0 <= k < |before| ==> before[k] == ops[k];
      InStepUntilReset(codec, w, before, j);
      StepKeepsInStep(codec, Run(codec, w, before), ops[|ops| - 1], j);
    }
    InStepNotices(codec, Run(codec, w, ops), j);
  }

  /** A single instance is attentive in every run, resets included. */
  lemma {:induction false} AloneIsAttentive(codec: Codec, w: World, ops: seq<Op>)
    requires Faithful(codec) && Logged(codec, w) && IsRun(w, ops)
    requires |w.caches| == 1 && Synced(codec, Contents(w.file), w.caches[0])
    ensures Attentive(codec, w, ops)
  {
    hide Logged;
    hide Faithful;
    hide Step;
    hide Notices;
    hide Synced;
    if ops != [] {
      var before := ops[..|ops| - 1];
      assert forall k :: 0 <= k < |before| ==> before[k] == ops[k];
      AloneIsAttentive(codec, w, before);
      InStepUntilReset(codec, w, before, 0);
    }
  }

  /** So over any run of reads, appends and resets of one instance, every read gives what was appended
      since the last reset. */
  lemma AloneReadsSeeEverything(codec: Codec, file: Option<seq<byte>>, ops: seq<Op>)
    requires Faithful(codec) && Clean(Contents(file)) && IsRun(Opened(codec, file, 1), ops)
    ensures var w := Run(codec, Opened(codec, file, 1), ops);
            var (reset, entries) := Since(ops);
            var first := if reset then [] else ParseAll(codec, Contents(file));
            && ParseAll(codec, Contents(w.file)) == first + Numbered(entries, NextId(first))
            && AfterRead(codec, w.file, w.caches[0]) ==
                 Cache(first + Numbered(entries, NextId(first)), |Contents(w.file)|)
  {
    var start := Opened(codec, file, 1);
    OpenedIsLogged(codec, file, 1);
    OpenedInStep(codec, file);
    AloneIsAttentive(codec, start, ops);
    InStepUntilReset(codec, start, ops, 0);
    ResetRunsAgree(codec, file, 1, ops, 0);
    hide Notices;
    hide Run;
    hide AfterRead;
  }

  lemma OpenedInStep(codec: Codec, file: Option<seq<byte>>)
    requires Clean(Contents(file))
    ensures Synced(codec, Contents(file), Opened(codec, file, 1).caches[0])
  {
    EmptyIsClean(codec);
    assert Contents(file)[..0] == [] && Contents(file)[0..] == Contents(file);
    hide Clean;
    hide ParseAll;
  }
}
