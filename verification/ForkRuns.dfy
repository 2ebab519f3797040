/** The stores behind a fork, and what a whole fork does to the parent's tapes. */
module ForkRuns {
  import opened Wrappers
  import opened Tape
  import opened ForkTape

  /** The store in memory keeps only the newest entries of a tape. */
  const MAX_ENTRIES_PER_TAPE := 10_000

  type Logs = map<string, seq<Entry>>

  function LogOf(logs: Logs, tape: string): seq<Entry> {
    if tape in logs then logs[tape] else []
  }

  function LastFew(entries: seq<Entry>, n: nat): seq<Entry> {
    if |entries| <= n then entries else entries[|entries| - n..]
  }

  // ----- The store in memory -----

  datatype Memory = Memory(tapes: Logs, nextIds: map<string, int>)

  function MemoryAppend(m: Memory, tape: string, e: Entry): Memory {
    var id := if tape in m.nextIds then m.nextIds[tape] else 1;
    Memory(m.tapes[tape := LastFew(LogOf(m.tapes, tape) + [e.(id := id)], MAX_ENTRIES_PER_TAPE)],
           m.nextIds[tape := id + 1])
  }

  function MemoryReset(m: Memory, tape: string): Memory {
    Memory(m.tapes - {tape}, m.nextIds - {tape})
  }

  class MemoryStore {
    var tapes: Logs
    var nextIds: map<string, int>

    constructor ()
      ensures View() == Memory(map[], map[])
    {
      tapes := map[];
      nextIds := map[];
    }

    function View(): Memory
      reads this
    {
      Memory(tapes, nextIds)
    }

    method Reset(tape: string)
      modifies this
      ensures View() == MemoryReset(old(View()), tape)
    {
      nextIds := nextIds - {tape};
      tapes := tapes - {tape};
    }

    method Append(tape: string, e: Entry)
      modifies this
      ensures View() == MemoryAppend(old(View()), tape, e)
    {
      var nextId := if tape in nextIds then nextIds[tape] else 1;
      nextIds := nextIds[tape := nextId + 1];
      var entries := (if tape in tapes then tapes[tape] else []) + [e.(id := nextId)];
      if |entries| > MAX_ENTRIES_PER_TAPE {
        entries := entries[|entries| - MAX_ENTRIES_PER_TAPE..];
      }
      tapes := tapes[tape := entries];
    }
  }

  // ----- The parent -----

  function LogAppend(logs: Logs, tape: string, e: Entry): Logs {
    logs[tape := LogOf(logs, tape) + [e.(id := NextId(LogOf(logs, tape)))]]
  }

  /** A store that answers queries from one flat log per tape. */
  class LogStore {
    var logs: Logs

    constructor (logs: Logs)
      ensures this.logs == logs
    {
      this.logs := logs;
    }

    method FetchAll(q: Query) returns (r: Result<seq<Entry>, FetchError>)
      ensures r == Fetch(LogOf(logs, q.tape), q)
    {
      r := Fetch(LogOf(logs, q.tape), q);
    }

    method Reset(tape: string)
      modifies this
      ensures logs == old(logs) - {tape}
    {
      logs := logs - {tape};
    }

    method Append(tape: string, e: Entry)
      modifies this
      ensures logs == LogAppend(old(logs), tape, e)
    {
      logs := LogAppend(logs, tape, e);
    }
  }

  // ----- Forks -----

  /** The state inside a fork. */
  datatype Fork = Fork(parent: Logs, tape: string, memory: Memory, wasReset: bool)

  datatype Op = Appends(tape: string, entry: Entry) | Resets(tape: string)

  function Begin(parent: Logs, tape: string): Fork {
    Fork(parent, tape, Memory(map[], map[]), false)
  }

  function Step(f: Fork, op: Op): Fork {
    match op
    case Appends(tape, e) => f.(memory := MemoryAppend(f.memory, tape, e))
    case Resets(tape) =>
      if tape == f.tape then f.(memory := MemoryReset(f.memory, tape), wasReset := true)
      else f.(parent := f.parent - {tape})
  }

  /** What a fetch inside the fork returns. */
  function View(f: Fork, q: Query): seq<Entry> {
    var kept := if q.tape == f.tape && f.wasReset then [] else Answer(Fetch(LogOf(f.parent, q.tape), q));
    Overlay(kept, LogOf(f.memory.tapes, q.tape), q)
  }

  /** The parent's tapes after the fork. */
  function Ended(f: Fork, mergeBack: bool): Logs {
    var entries := LogOf(f.memory.tapes, f.tape);
    if mergeBack && entries != [] then
      var log := LogOf(f.parent, f.tape);
      f.parent[f.tape := log + Numbered(entries, NextId(log))]
    else f.parent
  }

  /** `store` is the store of the current fork, if there is one. */
  class ForkTapeStore {
    const parent: LogStore
    var store: MemoryStore?
    var forkTape: string
    var wasReset: bool

    constructor (parent: LogStore)
      ensures this.parent == parent && store == null
    {
      this.parent := parent;
      store := null;
      forkTape := "";
      wasReset := false;
    }

    function Footprint(): set<object>
      reads this
    {
      {this, parent} + if store == null then {} else {store}
    }

    ghost function State(): Fork
      requires store != null
      reads this, parent, store
    {
      Fork(parent.logs, forkTape, store.View(), wasReset)
    }

    method Reset(tape: string)
      modifies Footprint()
      ensures store == old(store)
      ensures store != null ==> State() == Step(old(State()), Resets(tape))
      ensures store == null ==> parent.logs == old(parent.logs) - {tape}
    {
      if store != null && forkTape == tape {
        store.Reset(tape);
        wasReset := true;
        return;
      }
      parent.Reset(tape);
    }

    method Append(tape: string, e: Entry)
      modifies Footprint()
      ensures store == old(store)
      ensures store != null ==> State() == Step(old(State()), Appends(tape, e))
      ensures store == null ==> parent.logs == LogAppend(old(parent.logs), tape, e)
    {
      if store != null {
        store.Append(tape, e);
      } else {
        parent.Append(tape, e);
      }
    }

    method FetchAll(q: Query) returns (entries: seq<Entry>)
      ensures store != null ==> entries == View(State(), q)
      ensures store == null ==> entries == Answer(Fetch(LogOf(parent.logs, q.tape), q))
    {
      var isForkQuery := store != null && forkTape == q.tape;
      var parentEntries: seq<Entry> := [];
      if !(isForkQuery && wasReset) {
        var answer := parent.FetchAll(q);
        parentEntries := if answer.Ok? then answer.value else [];
      }
      var forkEntries: seq<Entry> := [];
      if store != null && q.tape in store.tapes {
        var stored := store.tapes[q.tape];
        ghost var whole := Overlay(parentEntries, stored, q);
        assert stored[0..] == stored && parentEntries + [] == parentEntries;
        for i := 0 to |stored|
          invariant whole == Overlay(parentEntries + forkEntries, stored[i..], q)
        {
          var entry := stored[i];
          OverlayStep(parentEntries, forkEntries, stored, i, q);
          if q.kinds != [] && entry.kind !in q.kinds {
            continue;
          }
          if Boundary(entry, q) {
            forkEntries := [];
            parentEntries := [];
            continue;
          }
          forkEntries := forkEntries + [entry];
        }
        assert stored[|stored|..] == [];
      }
      entries := parentEntries + forkEntries;
    }

    method BeginFork(tape: string)
      requires store == null
      modifies this
      ensures store != null && fresh(store)
      ensures State() == Begin(old(parent.logs), tape)
    {
      store := new MemoryStore();
      forkTape := tape;
      wasReset := false;
    }

    method EndFork(mergeBack: bool)
      requires store != null
      modifies Footprint()
      ensures store == null
      ensures parent.logs == old(Ended(State(), mergeBack))
    {
      if mergeBack && forkTape in store.tapes {
        var entries := store.tapes[forkTape];
        ghost var logs := parent.logs;
        ghost var log := LogOf(logs, forkTape);
        for i := 0 to |entries|
          invariant parent.logs == if i == 0 then logs else logs[forkTape := log + Numbered(entries[..i], NextId(log))]
          invariant store == old(store) && forkTape == old(forkTape) && store.View() == old(store.View())
        {
          MergeStep(logs, forkTape, entries, i);
          parent.Append(forkTape, entries[i]);
        }
        assert entries[..|entries|] == entries;
      }
      store := null;
    }
  }

  lemma OverlayStep(kept: seq<Entry>, added: seq<Entry>, stored: seq<Entry>, i: nat, q: Query)
    requires i < |stored|
    ensures Overlay(kept + added, stored[i..], q) ==
            if !Wanted(stored[i], q.kinds) then Overlay(kept + added, stored[i + 1..], q)
            else if Boundary(stored[i], q) then Overlay([] + [], stored[i + 1..], q)
            else Overlay(kept + (added + [stored[i]]), stored[i + 1..], q)
  {
    assert stored[i..][1..] == stored[i + 1..];
    assert kept + added + [stored[i]] == kept + (added + [stored[i]]);
  }

  lemma MergeStep(logs: Logs, tape: string, entries: seq<Entry>, i: nat)
    requires i < |entries|
    ensures var log := LogOf(logs, tape);
            var merged := if i == 0 then logs else logs[tape := log + Numbered(entries[..i], NextId(log))];
            LogAppend(merged, tape, entries[i]) == logs[tape := log + Numbered(entries[..i + 1], NextId(log))]
  {
    hide *;
    var log := LogOf(logs, tape);
    var first := NextId(log);
    var so := Numbered(entries[..i], first);
    NumberedStep(entries, first, i);
    NextAfter(log, so);
    LogAppendIs(if i == 0 then logs else logs[tape := log + so], logs, tape, log + so, entries[i]);
    if i == 0 {
      assert log + so == log;
    }
    assert log + so + [entries[i].(id := first + i)] == log + (so + [entries[i].(id := first + i)]);
  }

  lemma NumberedStep(entries: seq<Entry>, first: int, i: nat)
    requires i < |entries|
    ensures var so := Numbered(entries[..i], first);
            && |so| == i && (so != [] ==> so[i - 1].id == first + i - 1)
            && Numbered(entries[..i + 1], first) == so + [entries[i].(id := first + i)]
  {
    hide Numbered;
    NumberedSnoc(entries[..i], entries[i], first);
    assert entries[..i] + [entries[i]] == entries[..i + 1];
  }

  lemma LogAppendIs(merged: Logs, logs: Logs, tape: string, log: seq<Entry>, e: Entry)
    requires merged == logs[tape := log] || (merged == logs && LogOf(logs, tape) == log)
    ensures LogAppend(merged, tape, e) == logs[tape := log + [e.(id := NextId(log))]]
  {
  }

  lemma NextAfter(log: seq<Entry>, so: seq<Entry>)
    requires so != [] ==> so[|so| - 1].id == NextId(log) + |so| - 1
    ensures NextId(log + so) == NextId(log) + |so|
  {
    if so == [] {
      assert log + so == log;
    }
  }

  // ----- Whole forks -----

  function Run(f: Fork, ops: seq<Op>): Fork {
    if ops == [] then f else Step(Run(f, ops[..|ops| - 1]), ops[|ops| - 1])
  }

  /** What was appended to the tape after its last reset. */
  function SinceReset(ops: seq<Op>, tape: string): seq<Entry> {
    if ops == [] then []
    else
      var earlier := SinceReset(ops[..|ops| - 1], tape);
      match ops[|ops| - 1]
      case Appends(t, e) => if t == tape then earlier + [e] else earlier
      case Resets(t) => if t == tape then [] else earlier
  }

  function WithoutResetTapes(parent: Logs, tape: string, ops: seq<Op>): Logs {
    if ops == [] then parent
    else
      var earlier := WithoutResetTapes(parent, tape, ops[..|ops| - 1]);
      match ops[|ops| - 1]
      case Appends(_, _) => earlier
      case Resets(t) => if t == tape then earlier else earlier - {t}
  }

  lemma LastFewSnoc(entries: seq<Entry>, e: Entry, n: nat)
    ensures LastFew(LastFew(entries, n) + [e], n) == LastFew(entries + [e], n)
  {
  }

  /** What the store in memory holds for the forked tape, and that nothing was merged yet. */
  predicate Holds(f: Fork, parent: Logs, tape: string, ops: seq<Op>) {
    var since := SinceReset(ops, tape);
    && f.tape == tape
    && f.parent == WithoutResetTapes(parent, tape, ops)
    && LogOf(f.memory.tapes, tape) == LastFew(Numbered(since, 1), MAX_ENTRIES_PER_TAPE)
    && (if tape in f.memory.nextIds then f.memory.nextIds[tape] else 1) == 1 + |since|
    && (f.wasReset <==> Resets(tape) in ops)
  }

  lemma SnocIs(ops: seq<Op>, op: Op, parent: Logs, tape: string)
    ensures SinceReset(ops + [op], tape) ==
            match op
            case Appends(t, e) => if t == tape then SinceReset(ops, tape) + [e] else SinceReset(ops, tape)
            case Resets(t) => if t == tape then [] else SinceReset(ops, tape)
    ensures WithoutResetTapes(parent, tape, ops + [op]) ==
            if op.Appends? || op.tape == tape then WithoutResetTapes(parent, tape, ops)
            else WithoutResetTapes(parent, tape, ops) - {op.tape}
    ensures forall o :: o in ops + [op] <==> o in ops || o == op
  {
    assert (ops + [op])[..|ops|] == ops;
  }

  /** What one append to the forked tape does to the store in memory. */
  lemma MemoryKeepsNewest(m: Memory, tape: string, since: seq<Entry>, e: Entry)
    requires LogOf(m.tapes, tape) == LastFew(Numbered(since, 1), MAX_ENTRIES_PER_TAPE)
    requires (if tape in m.nextIds then m.nextIds[tape] else 1) == 1 + |since|
    ensures var after := MemoryAppend(m, tape, e);
            && LogOf(after.tapes, tape) == LastFew(Numbered(since + [e], 1), MAX_ENTRIES_PER_TAPE)
            && (if tape in after.nextIds then after.nextIds[tape] else 1) == 1 + |since + [e]|
  {
    NumberedSnoc(since, e, 1);
    LastFewSnoc(Numbered(since, 1), e.(id := 1 + |since|), MAX_ENTRIES_PER_TAPE);
    hide Numbered;
    hide LastFew;
  }

  lemma MemoryKeepsOthers(m: Memory, tape: string, other: string, e: Entry)
    requires other != tape
    ensures var after := MemoryAppend(m, other, e);
            && LogOf(after.tapes, tape) == LogOf(m.tapes, tape)
            && (tape in after.nextIds <==> tape in m.nextIds)
            && (tape in m.nextIds ==> after.nextIds[tape] == m.nextIds[tape])
  {
    hide LastFew;
  }

  lemma HoldsStep(f: Fork, parent: Logs, tape: string, ops: seq<Op>, op: Op)
    requires Holds(f, parent, tape, ops)
    ensures Holds(Step(f, op), parent, tape, ops + [op])
  {
    SnocIs(ops, op, parent, tape);
    hide SinceReset;
    hide WithoutResetTapes;
    hide MemoryAppend;
    hide LastFew;
    if op.Appends? {
      hide LogOf;
      if op.tape == tape {
        MemoryKeepsNewest(f.memory, tape, SinceReset(ops, tape), op.entry);
      } else {
        MemoryKeepsOthers(f.memory, tape, op.tape, op.entry);
      }
    } else if op.tape == tape {
      NothingKept(f.memory, tape);
    }
  }

  lemma NothingKept(m: Memory, tape: string)
    ensures LogOf(MemoryReset(m, tape).tapes, tape) == LastFew(Numbered([], 1), MAX_ENTRIES_PER_TAPE) == []
    ensures tape !in MemoryReset(m, tape).nextIds
  {
  }

  lemma {:induction false} MemoryHolds(parent: Logs, tape: string, ops: seq<Op>)
    ensures Holds(Run(Begin(parent, tape), ops), parent, tape, ops)
  {
    if ops != [] {
      hide Step;
      hide Holds;
      var before, op := ops[..|ops| - 1], ops[|ops| - 1];
      MemoryHolds(parent, tape, before);
      assert ops == before + [op];
      HoldsStep(Run(Begin(parent, tape), before), parent, tape, before, op);
    }
  }

  lemma {:induction false} ForkTapeUntouched(parent: Logs, tape: string, ops: seq<Op>)
    ensures LogOf(WithoutResetTapes(parent, tape, ops), tape) == LogOf(parent, tape)
    ensures tape in WithoutResetTapes(parent, tape, ops) <==> tape in parent
    ensures forall t :: t in WithoutResetTapes(parent, tape, ops) <==> t in parent && (t == tape || Resets(t) !in ops)
    ensures forall t :: t in WithoutResetTapes(parent, tape, ops) ==>
            WithoutResetTapes(parent, tape, ops)[t] == parent[t]
  {
    if ops != [] {
      ForkTapeUntouched(parent, tape, ops[..|ops| - 1]);
      assert ops == ops[..|ops| - 1] + [ops[|ops| - 1]];
    }
  }

  function Everything(tape: string): Query {
    Query(tape, [], false, None)
  }

  /** Inside a fork, a fetch of the whole tape gives the parent's entries and then the newest of
      those appended in the fork, numbered from 1; after a reset, only those appended since. */
  lemma ViewIsLog(parent: Logs, tape: string, ops: seq<Op>)
    ensures View(Run(Begin(parent, tape), ops), Everything(tape)) ==
            (if Resets(tape) in ops then [] else LogOf(parent, tape)) +
            LastFew(Numbered(SinceReset(ops, tape), 1), MAX_ENTRIES_PER_TAPE)
  {
    hide SinceReset;
    hide WithoutResetTapes;
    hide Numbered;
    var f := Run(Begin(parent, tape), ops);
    hide Run;
    MemoryHolds(parent, tape, ops);
    ForkTapeUntouched(parent, tape, ops);
    var fork := LogOf(f.memory.tapes, tape);
    AllWanted(LogOf(parent, tape));
    AllWanted(fork);
    OverlayWithoutBoundary([], fork, Everything(tape));
    OverlayWithoutBoundary(LogOf(parent, tape), fork, Everything(tape));
  }

  /** A fork that is dropped leaves the forked tape as it was, whatever happened inside; other tapes
      lose exactly what was reset, and gain nothing. */
  lemma DroppedForkLeavesNothing(parent: Logs, tape: string, ops: seq<Op>)
    ensures var after := Ended(Run(Begin(parent, tape), ops), false);
            && LogOf(after, tape) == LogOf(parent, tape)
            && forall t :: t != tape ==> LogOf(after, t) == if Resets(t) in ops then [] else LogOf(parent, t)
  {
    hide Run;
    MemoryHolds(parent, tape, ops);
    ForkTapeUntouched(parent, tape, ops);
  }

  predicate SameButIds(a: seq<Entry>, b: seq<Entry>) {
    |a| == |b| && forall k :: 0 <= k < |a| ==> a[k].(id := 0) == b[k].(id := 0)
  }

  /** Merging back gives the parent what the fork showed, up to ids, exactly when the fork was not
      reset or the parent's tape was empty: a reset in the fork is forgotten by the merge. */
  lemma MergeKeepsView(parent: Logs, tape: string, ops: seq<Op>)
    ensures var f := Run(Begin(parent, tape), ops);
            SameButIds(LogOf(Ended(f, true), tape), View(f, Everything(tape))) <==>
            Resets(tape) !in ops || LogOf(parent, tape) == []
  {
    hide *;
    var f := Run(Begin(parent, tape), ops);
    ViewIsLog(parent, tape, ops);
    ForkLogs(parent, tape, ops);
    MergedLog(f, LogOf(parent, tape));
    var fork := LogOf(f.memory.tapes, tape);
    SameAfterMerge(LogOf(parent, tape), fork, Resets(tape) in ops);
  }

  lemma ForkLogs(parent: Logs, tape: string, ops: seq<Op>)
    ensures var f := Run(Begin(parent, tape), ops);
            && f.tape == tape && LogOf(f.parent, tape) == LogOf(parent, tape)
            && LogOf(f.memory.tapes, tape) == LastFew(Numbered(SinceReset(ops, tape), 1), MAX_ENTRIES_PER_TAPE)
  {
    hide Run;
    MemoryHolds(parent, tape, ops);
    ForkTapeUntouched(parent, tape, ops);
  }

  lemma MergedLog(f: Fork, log: seq<Entry>)
    requires LogOf(f.parent, f.tape) == log
    ensures LogOf(Ended(f, true), f.tape) == log + Numbered(LogOf(f.memory.tapes, f.tape), NextId(log))
  {
    assert Numbered([], NextId(log)) == [];
    assert log + [] == log;
  }

  lemma SameAfterMerge(log: seq<Entry>, fork: seq<Entry>, reset: bool)
    ensures SameButIds(log + Numbered(fork, NextId(log)), (if reset then [] else log) + fork) <==> !reset || log == []
  {
    var merged := log + Numbered(fork, NextId(log));
    assert |merged| == |log| + |fork|;
  }

  /** Merging changes no other tape: what was appended to them inside the fork is lost. */
  lemma MergeTouchesOneTape(parent: Logs, tape: string, ops: seq<Op>, other: string)
    requires other != tape
    ensures LogOf(Ended(Run(Begin(parent, tape), ops), true), other) ==
            if Resets(other) in ops then [] else LogOf(parent, other)
  {
    hide Run;
    hide Numbered;
    MemoryHolds(parent, tape, ops);
    ForkTapeUntouched(parent, tape, ops);
  }
}
