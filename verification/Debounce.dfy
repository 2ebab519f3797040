/** The debounce protocol over whole runs: messages arrive and timers fire in any interleaving.
    A timer sleeps at least the debounce interval, and timers need not fire in order. */
module Debounce {
  import opened Wrappers
  import opened Feishu

  datatype Timer = Timer(chat: string, generation: nat, deadline: int)

  datatype Arrival = Arrival(chat: string, item: Item, at: int)

  /** A flushed batch, and how long its chat had been silent. */
  datatype Flush = Flush(chat: string, items: seq<Item>, silence: int)

  /** `timers` are the live ones, in the order they were armed; the last two fields are history. */
  datatype World = World(
    now: int, queued: map<string, QueuedBatch>, timers: seq<Timer>,
    arrivals: seq<Arrival>, flushes: seq<Flush>)

  datatype Event = Message(chat: string, item: Item, at: int) | Fires(index: nat, at: int)

  function Start(now: int): World {
    World(now, map[], [], [], [])
  }

  predicate Enabled(w: World, e: Event) {
    w.now <= e.at && (e.Fires? ==> e.index < |w.timers| && w.timers[e.index].deadline <= e.at)
  }

  function Step(w: World, e: Event): World
    requires Enabled(w, e)
  {
    match e
    case Message(chat, item, at) =>
      var queued := Enqueued(w.queued, chat, item);
      World(at, queued,
            w.timers + [Timer(chat, queued[chat].generation, at + BATCH_DEBOUNCE)],
            w.arrivals + [Arrival(chat, item, at)], w.flushes)
    case Fires(i, at) =>
      var t := w.timers[i];
      var timers := w.timers[..i] + w.timers[i + 1..];
      if Flushes(w.queued, t.chat, t.generation) then
        World(at, w.queued - {t.chat}, timers, w.arrivals,
              w.flushes + [Flush(t.chat, w.queued[t.chat].items, at - LastArrival(w.arrivals, t.chat))])
      else
        w.(now := at, timers := timers)
  }

  predicate IsRun(w: World, es: seq<Event>)
    decreases |es|
  {
    es == [] || (Enabled(w, es[0]) && IsRun(Step(w, es[0]), es[1..]))
  }

  function After(w: World, es: seq<Event>): World
    requires IsRun(w, es)
    decreases |es|
  {
    if es == [] then w else After(Step(w, es[0]), es[1..])
  }

  // ----- What was said in a chat -----

  function LastArrival(arrivals: seq<Arrival>, chat: string): int {
    if arrivals == [] then 0
    else
      var a := arrivals[|arrivals| - 1];
      if a.chat == chat then a.at else LastArrival(arrivals[..|arrivals| - 1], chat)
  }

  function Arrived(arrivals: seq<Arrival>, chat: string): seq<Item> {
    if arrivals == [] then []
    else
      var a := arrivals[|arrivals| - 1];
      Arrived(arrivals[..|arrivals| - 1], chat) + if a.chat == chat then [a.item] else []
  }

  function Flushed(flushes: seq<Flush>, chat: string): seq<Item> {
    if flushes == [] then []
    else
      var f := flushes[|flushes| - 1];
      Flushed(flushes[..|flushes| - 1], chat) + if f.chat == chat then f.items else []
  }

  function Waiting(queued: map<string, QueuedBatch>, chat: string): seq<Item> {
    if chat in queued then queued[chat].items else []
  }

  // ----- Nothing is lost, nothing is duplicated -----

  predicate HasTimer(timers: seq<Timer>, chat: string, generation: nat) {
    exists i :: 0 <= i < |timers| && timers[i].chat == chat && timers[i].generation == generation
  }

  ghost predicate Accounted(w: World) {
    forall c :: Arrived(w.arrivals, c) == Flushed(w.flushes, c) + Waiting(w.queued, c)
  }

  ghost predicate Armed(w: World) {
    forall c :: c in w.queued ==> HasTimer(w.timers, c, w.queued[c].generation)
  }

  lemma StepAccounted(w: World, e: Event)
    requires Enabled(w, e) && Accounted(w)
    ensures Accounted(Step(w, e))
  {
    var v := Step(w, e);
    forall c
      ensures Arrived(v.arrivals, c) == Flushed(v.flushes, c) + Waiting(v.queued, c)
    {
      assert Arrived(w.arrivals, c) == Flushed(w.flushes, c) + Waiting(w.queued, c);
      match e
      case Message(chat, item, at) =>
        assert v.arrivals[..|w.arrivals|] == w.arrivals;
      case Fires(i, at) =>
        if |v.flushes| > |w.flushes| {
          assert v.flushes[..|w.flushes|] == w.flushes;
        }
    }
  }

  lemma StepArmed(w: World, e: Event)
    requires Enabled(w, e) && Armed(w)
    ensures Armed(Step(w, e))
  {
    var v := Step(w, e);
    forall c | c in v.queued
      ensures HasTimer(v.timers, c, v.queued[c].generation)
    {
      match e
      case Message(chat, item, at) =>
        if c == chat {
          assert v.timers[|w.timers|].generation == v.queued[c].generation;
        } else {
          var k :| 0 <= k < |w.timers| && w.timers[k].chat == c && w.timers[k].generation == w.queued[c].generation;
          assert v.timers[k] == w.timers[k];
        }
      case Fires(i, at) =>
        var k :| 0 <= k < |w.timers| && w.timers[k].chat == c && w.timers[k].generation == w.queued[c].generation;
        assert k != i;
        assert v.timers[if k < i then k else k - 1] == w.timers[k];
    }
  }

  lemma {:induction false} RunKeeps(w: World, es: seq<Event>)
    requires IsRun(w, es) && Accounted(w) && Armed(w)
    ensures Accounted(After(w, es)) && Armed(After(w, es))
    decreases |es|
  {
    if es != [] {
      StepAccounted(w, es[0]);
      StepArmed(w, es[0]);
      RunKeeps(Step(w, es[0]), es[1..]);
    }
  }

  /** In every run, whichever timers fire when, each chat's flushed batches followed by its waiting
      items are its messages in order, and every waiting batch has a live timer that will flush it. */
  lemma NothingLost(now: int, es: seq<Event>, chat: string)
    requires IsRun(Start(now), es)
    ensures var w := After(Start(now), es);
            && Arrived(w.arrivals, chat) == Flushed(w.flushes, chat) + Waiting(w.queued, chat)
            && (chat in w.queued ==> HasTimer(w.timers, chat, w.queued[chat].generation))
  {
    RunKeeps(Start(now), es);
  }

  /** Once every timer has fired nothing waits: all messages were flushed. */
  lemma AllTimersFired(now: int, es: seq<Event>, chat: string)
    requires IsRun(Start(now), es) && After(Start(now), es).timers == []
    ensures var w := After(Start(now), es);
            w.queued == map[] && Flushed(w.flushes, chat) == Arrived(w.arrivals, chat)
  {
    RunKeeps(Start(now), es);
    var w := After(Start(now), es);
    assert forall c :: c !in w.queued;
    assert Arrived(w.arrivals, chat) == Flushed(w.flushes, chat) + Waiting(w.queued, chat);
  }

  // ----- When a batch is flushed too early -----

  ghost predicate Quiet(w: World) {
    forall f :: f in w.flushes ==> f.silence >= BATCH_DEBOUNCE
  }

  /** A timer that flushes its chat while a timer armed later for it still sleeps. */
  predicate Premature(w: World, e: Event)
    requires Enabled(w, e)
  {
    e.Fires? &&
    var t := w.timers[e.index];
    && Flushes(w.queued, t.chat, t.generation)
    && exists j :: e.index < j < |w.timers| && w.timers[j].chat == t.chat && w.timers[j].deadline > e.at
  }

  predicate IsPunctualRun(w: World, es: seq<Event>)
    requires IsRun(w, es)
    decreases |es|
  {
    es == [] || (!Premature(w, es[0]) && IsPunctualRun(Step(w, es[0]), es[1..]))
  }

  predicate IsLastTimer(timers: seq<Timer>, chat: string, k: int) {
    && 0 <= k < |timers| && timers[k].chat == chat
    && forall j :: k < j < |timers| ==> timers[j].chat != chat
  }

  /** The last timer of a chat is the one its waiting batch is waiting for. */
  ghost predicate LastTimerIsCurrent(w: World, chat: string) {
    chat in w.queued ==>
      exists k :: IsLastTimer(w.timers, chat, k) && w.timers[k].generation == w.queued[chat].generation &&
                  w.timers[k].deadline == LastArrival(w.arrivals, chat) + BATCH_DEBOUNCE
  }

  /** Timers run out in the order they were armed in. */
  ghost predicate Timed(w: World) {
    && (forall i, j :: 0 <= i < j < |w.timers| ==> w.timers[i].deadline <= w.timers[j].deadline)
    && (forall i :: 0 <= i < |w.timers| ==> w.timers[i].deadline <= w.now + BATCH_DEBOUNCE)
    && (forall c :: LastTimerIsCurrent(w, c))
  }

  lemma StepTimed(w: World, e: Event)
    requires Enabled(w, e) && Timed(w)
    ensures Timed(Step(w, e))
  {
    var v := Step(w, e);
    if e.Fires? {
      assert forall k :: 0 <= k < |v.timers| ==> v.timers[k] == w.timers[if k < e.index then k else k + 1];
    }
    forall c
      ensures LastTimerIsCurrent(v, c)
    {
      assert LastTimerIsCurrent(w, c);
      if e.Message? {
        MessageTimed(w, e, c);
      } else {
        FiringTimed(w, e, c);
      }
    }
    hide LastTimerIsCurrent;
    hide LastArrival;
  }

  lemma MessageTimed(w: World, e: Event, c: string)
    requires Enabled(w, e) && e.Message? && LastTimerIsCurrent(w, c)
    ensures LastTimerIsCurrent(Step(w, e), c)
  {
    var v := Step(w, e);
    assert v.arrivals[..|w.arrivals|] == w.arrivals;
    if c == e.chat {
      assert IsLastTimer(v.timers, c, |w.timers|);
    } else if c in w.queued {
      var k :| IsLastTimer(w.timers, c, k) && w.timers[k].generation == w.queued[c].generation &&
               w.timers[k].deadline == LastArrival(w.arrivals, c) + BATCH_DEBOUNCE;
      assert IsLastTimer(v.timers, c, k);
    }
  }

  lemma FiringTimed(w: World, e: Event, c: string)
    requires Enabled(w, e) && e.Fires? && LastTimerIsCurrent(w, c)
    ensures LastTimerIsCurrent(Step(w, e), c)
  {
    var v := Step(w, e);
    if c in v.queued {
      var k :| IsLastTimer(w.timers, c, k) && w.timers[k].generation == w.queued[c].generation &&
               w.timers[k].deadline == LastArrival(w.arrivals, c) + BATCH_DEBOUNCE;
      assert k != e.index;
      assert forall j :: 0 <= j < |v.timers| ==> v.timers[j] == w.timers[if j < e.index then j else j + 1];
      assert IsLastTimer(v.timers, c, if k < e.index then k else k - 1);
    }
    hide LastArrival;
  }

  /** A step flushes a chat that was not yet silent for the whole interval exactly when it is premature. */
  lemma PrematureExactly(w: World, e: Event)
    requires Enabled(w, e) && Timed(w)
    ensures |w.flushes| <= |Step(w, e).flushes| && Step(w, e).flushes[..|w.flushes|] == w.flushes
    ensures (forall f :: f in Step(w, e).flushes[|w.flushes|..] ==> f.silence >= BATCH_DEBOUNCE) <==> !Premature(w, e)
  {
    var v := Step(w, e);
    assert e.Message? ==> v.flushes == w.flushes;
    if e.Fires? && Flushes(w.queued, w.timers[e.index].chat, w.timers[e.index].generation) {
      var chat := w.timers[e.index].chat;
      var silence := e.at - LastArrival(w.arrivals, chat);
      assert v.flushes[|w.flushes|..] == [Flush(chat, w.queued[chat].items, silence)];
      assert LastTimerIsCurrent(w, chat);
      var k :| IsLastTimer(w.timers, chat, k) && w.timers[k].generation == w.queued[chat].generation &&
               w.timers[k].deadline == LastArrival(w.arrivals, chat) + BATCH_DEBOUNCE;
      assert silence < BATCH_DEBOUNCE <==> w.timers[k].deadline > e.at;
    }
    hide LastArrival;
  }

  lemma StepQuietExactly(w: World, e: Event)
    requires Enabled(w, e) && Timed(w)
    ensures Quiet(Step(w, e)) <==> Quiet(w) && !Premature(w, e)
  {
    PrematureExactly(w, e);
    var v := Step(w, e);
    hide Step;
    hide Premature;
    hide Timed;
    assert v.flushes == w.flushes + v.flushes[|w.flushes|..];
  }

  lemma {:induction false} RunQuietExactly(w: World, es: seq<Event>)
    requires IsRun(w, es) && Timed(w)
    ensures Timed(After(w, es))
    ensures Quiet(After(w, es)) <==> Quiet(w) && IsPunctualRun(w, es)
    decreases |es|
  {
    if es != [] {
      StepTimed(w, es[0]);
      StepQuietExactly(w, es[0]);
      RunQuietExactly(Step(w, es[0]), es[1..]);
    }
    hide Timed;
    hide Quiet;
    hide Step;
    hide Premature;
  }

  /** In a run every batch is flushed after the whole interval of silence exactly when no step of the
      run is premature. */
  lemma QuietExactly(now: int, es: seq<Event>)
    requires IsRun(Start(now), es)
    ensures (forall f :: f in After(Start(now), es).flushes ==> f.silence >= BATCH_DEBOUNCE) <==>
            IsPunctualRun(Start(now), es)
  {
    RunQuietExactly(Start(now), es);
  }

  /** Wherever a run has come to, its next step flushes too early exactly when it is premature. */
  lemma EarlyFlushExactly(now: int, es: seq<Event>, e: Event)
    requires IsRun(Start(now), es) && Enabled(After(Start(now), es), e)
    ensures var w := After(Start(now), es);
            (exists f :: f in Step(w, e).flushes[|w.flushes|..] && f.silence < BATCH_DEBOUNCE) <==> Premature(w, e)
  {
    RunQuietExactly(Start(now), es);
    PrematureExactly(After(Start(now), es), e);
    hide Premature;
    hide Step;
  }

  // ----- The timers of a chat that fire in order are never premature -----

  predicate InOrder(w: World, e: Event)
    requires Enabled(w, e)
  {
    e.Fires? ==> forall j :: 0 <= j < e.index ==> w.timers[j].chat != w.timers[e.index].chat
  }

  predicate IsOrderedRun(w: World, es: seq<Event>)
    requires IsRun(w, es)
    decreases |es|
  {
    es == [] || (InOrder(w, es[0]) && IsOrderedRun(Step(w, es[0]), es[1..]))
  }

  /** The live timers of a chat belong to its waiting batch: their generations rise, up to the
      current one. */
  ghost predicate Orderly(w: World) {
    && (forall i :: 0 <= i < |w.timers| ==>
          var t := w.timers[i]; t.chat in w.queued && t.generation <= w.queued[t.chat].generation)
    && (forall i, j :: 0 <= i < j < |w.timers| && w.timers[i].chat == w.timers[j].chat ==>
          w.timers[i].generation < w.timers[j].generation)
  }

  lemma StepOrderly(w: World, e: Event)
    requires Enabled(w, e) && InOrder(w, e) && Orderly(w)
    ensures Orderly(Step(w, e)) && !Premature(w, e)
  {
    var v := Step(w, e);
    if e.Fires? {
      assert forall k :: 0 <= k < |v.timers| ==> v.timers[k] == w.timers[if k < e.index then k else k + 1];
    }
    hide LastArrival;
  }

  lemma {:induction false} OrderedIsPunctual(w: World, es: seq<Event>)
    requires IsRun(w, es) && IsOrderedRun(w, es) && Orderly(w)
    ensures IsPunctualRun(w, es)
    decreases |es|
  {
    if es != [] {
      StepOrderly(w, es[0]);
      OrderedIsPunctual(Step(w, es[0]), es[1..]);
    }
  }

  /** So no batch of theirs is flushed before its chat was silent for the whole interval. */
  lemma OrderedRunsAreQuiet(now: int, es: seq<Event>, f: Flush)
    requires IsRun(Start(now), es) && IsOrderedRun(Start(now), es)
    requires f in After(Start(now), es).flushes
    ensures f.silence >= BATCH_DEBOUNCE
  {
    OrderedIsPunctual(Start(now), es);
    QuietExactly(now, es);
  }

  /** A message in a chat with nothing waiting. */
  lemma FirstMessage(w: World, c: string, item: Item, at: int)
    requires w.now <= at && w.queued == map[]
    ensures Enabled(w, Message(c, item, at))
    ensures Step(w, Message(c, item, at)) ==
            World(at, map[c := QueuedBatch([item], 1)], w.timers + [Timer(c, 1, at + BATCH_DEBOUNCE)],
                  w.arrivals + [Arrival(c, item, at)], w.flushes)
  {
    var none: seq<Item> := [];
    assert none + [item] == [item];
    assert Enqueued(w.queued, c, item) == map[c := QueuedBatch([item], 1)];
  }

  lemma SecondMessage(w: World, c: string, first: Item, item: Item, at: int)
    requires w.now <= at && w.queued == map[c := QueuedBatch([first], 1)]
    ensures Enabled(w, Message(c, item, at))
    ensures Step(w, Message(c, item, at)) ==
            World(at, map[c := QueuedBatch([first, item], 2)], w.timers + [Timer(c, 2, at + BATCH_DEBOUNCE)],
                  w.arrivals + [Arrival(c, item, at)], w.flushes)
  {
    assert [first] + [item] == [first, item];
    assert Enqueued(w.queued, c, item) == map[c := QueuedBatch([first, item], 2)];
  }

  /** Out of order it can be flushed early: generations restart at 1 after a flush, so the timer of
      a message already flushed passes for that of a later one. */
  lemma StaleTimerFlushesEarly(c: string, a: Item, b: Item, d: Item)
    ensures var es := [Message(c, a, 0), Message(c, b, 100), Fires(1, 1600), Message(c, d, 1610), Fires(0, 1700)];
            && IsRun(Start(0), es)
            && After(Start(0), es).flushes == [Flush(c, [a, b], 1500), Flush(c, [d], 90)]
  {
    hide Enqueued;
    hide IsRun;
    hide After;
    var es := [Message(c, a, 0), Message(c, b, 100), Fires(1, 1600), Message(c, d, 1610), Fires(0, 1700)];
    FirstMessage(Start(0), c, a, 0);
    var w1 := Step(Start(0), es[0]);
    SecondMessage(w1, c, a, b, 100);
    var w2 := Step(w1, es[1]);
    assert LastArrival(w2.arrivals, c) == 100;
    var w3 := Step(w2, es[2]);
    assert w3.queued == map[] && w3.timers == [Timer(c, 1, 1500)];
    assert w3.flushes == [Flush(c, [a, b], 1500)];
    FirstMessage(w3, c, d, 1610);
    var w4 := Step(w3, es[3]);
    assert LastArrival(w4.arrivals, c) == 1610;
    assert w4.timers[0] == Timer(c, 1, 1500);
    var w5 := Step(w4, es[4]);
    assert w5.flushes == w3.flushes + [Flush(c, [d], 90)];
    FiveSteps(Start(0), es, w1, w2, w3, w4);
  }

  lemma FiveSteps(w: World, es: seq<Event>, w1: World, w2: World, w3: World, w4: World)
    requires |es| == 5
    requires Enabled(w, es[0]) && w1 == Step(w, es[0])
    requires Enabled(w1, es[1]) && w2 == Step(w1, es[1])
    requires Enabled(w2, es[2]) && w3 == Step(w2, es[2])
    requires Enabled(w3, es[3]) && w4 == Step(w3, es[3])
    requires Enabled(w4, es[4])
    ensures IsRun(w, es) && After(w, es) == Step(w4, es[4])
  {
    hide Enabled;
    hide Step;
    assert IsRun(w4, es[4..]) && After(w4, es[4..]) == Step(w4, es[4]);
    assert es[3..][1..] == es[4..] && es[2..][1..] == es[3..] && es[1..][1..] == es[2..];
    assert IsRun(w3, es[3..]) && After(w3, es[3..]) == Step(w4, es[4]);
    assert IsRun(w2, es[2..]) && After(w2, es[2..]) == Step(w4, es[4]);
    assert IsRun(w1, es[1..]) && After(w1, es[1..]) == Step(w4, es[4]);
  }
}
