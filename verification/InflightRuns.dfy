/** The in-flight queues over whole runs of flushes, takes and shifts: every batch leaves its queue
    once and in order, taken or expired. */
module InflightRuns {
  import opened Wrappers
  import opened Feishu

  datatype Fate = Taken | Shifted | Discarded

  /** How and when a batch left the queue of its chat. */
  datatype Departure = Departure(chat: string, batch: InflightBatch, fate: Fate, at: int)

  datatype Arrival = Arrival(chat: string, batch: InflightBatch)

  /** The last two fields are history. */
  datatype World = World(
    now: int, inflight: map<string, seq<InflightBatch>>, flushed: seq<Arrival>, departed: seq<Departure>)

  datatype Event =
    | Flush(chat: string, items: seq<Item>, at: int)
    | Take(chat: string, at: int)
    | Shift(chat: string, at: int)

  function Start(now: int): World {
    World(now, map[], [], [])
  }

  predicate Enabled(w: World, e: Event) {
    w.now <= e.at
  }

  function Departures(chat: string, q: seq<InflightBatch>, fate: Fate, at: int): (ds: seq<Departure>)
    ensures |ds| == |q| && forall i :: 0 <= i < |q| ==> ds[i] == Departure(chat, q[i], fate, at)
  {
    seq(|q|, i requires 0 <= i < |q| => Departure(chat, q[i], fate, at))
  }

  /** What taking a batch leaves in the queue. */
  function Left(q: seq<InflightBatch>, at: int): seq<InflightBatch> {
    var alive := DropExpired(q, at);
    if alive == [] then [] else alive[1..]
  }

  /** What it takes out: expired batches, and then the first one still alive. */
  function Sweeping(chat: string, q: seq<InflightBatch>, at: int): seq<Departure> {
    Departures(chat, Gone(q, at), Discarded, at) + Departures(chat, First(q, at), Taken, at)
  }

  function Gone(q: seq<InflightBatch>, at: int): seq<InflightBatch> {
    q[..|q| - |DropExpired(q, at)|]
  }

  function First(q: seq<InflightBatch>, at: int): seq<InflightBatch> {
    var alive := DropExpired(q, at);
    if alive == [] then [] else alive[..1]
  }

  function Step(w: World, e: Event): World {
    var q := Queue(w.inflight, e.chat);
    match e
    case Flush(chat, items, at) =>
      var batch := InflightBatch(items, at);
      World(at, WithQueue(w.inflight, chat, q + [batch]), w.flushed + [Arrival(chat, batch)], w.departed)
    case Take(chat, at) =>
      World(at, WithQueue(w.inflight, chat, Left(q, at)), w.flushed, w.departed + Sweeping(chat, q, at))
    case Shift(chat, at) =>
      if q == [] then w.(now := at)
      else World(at, WithQueue(w.inflight, chat, q[1..]), w.flushed, w.departed + [Departure(chat, q[0], Shifted, at)])
  }

  predicate IsRun(w: World, es: seq<Event>)
    decreases |es|
  {
    es == [] || (Enabled(w, es[0]) && IsRun(Step(w, es[0]), es[1..]))
  }

  function After(w: World, es: seq<Event>): World
    decreases |es|
  {
    if es == [] then w else After(Step(w, es[0]), es[1..])
  }

  // ----- The batches of a chat -----

  function FlushedOf(flushed: seq<Arrival>, chat: string): seq<InflightBatch> {
    if flushed == [] then []
    else
      var a := flushed[|flushed| - 1];
      FlushedOf(flushed[..|flushed| - 1], chat) + if a.chat == chat then [a.batch] else []
  }

  function DepartedOf(departed: seq<Departure>, chat: string): seq<InflightBatch> {
    if departed == [] then []
    else
      var d := departed[|departed| - 1];
      DepartedOf(departed[..|departed| - 1], chat) + if d.chat == chat then [d.batch] else []
  }

  lemma {:induction false} DepartedConcat(a: seq<Departure>, b: seq<Departure>, chat: string)
    ensures DepartedOf(a + b, chat) == DepartedOf(a, chat) + DepartedOf(b, chat)
  {
    if b == [] {
      assert a + b == a;
    } else {
      assert (a + b)[..|a + b| - 1] == a + b[..|b| - 1];
      DepartedConcat(a, b[..|b| - 1], chat);
    }
  }

  lemma {:induction false} DeparturesOf(chat: string, q: seq<InflightBatch>, fate: Fate, at: int, other: string)
    ensures DepartedOf(Departures(chat, q, fate, at), other) == if other == chat then q else []
  {
    var ds := Departures(chat, q, fate, at);
    if q != [] {
      DeparturesOf(chat, q[..|q| - 1], fate, at, other);
      assert ds[..|ds| - 1] == Departures(chat, q[..|q| - 1], fate, at);
      assert q == q[..|q| - 1] + [q[|q| - 1]];
    }
  }

  lemma QueueAfter(inflight: map<string, seq<InflightBatch>>, chat: string, q: seq<InflightBatch>, other: string)
    ensures Queue(WithQueue(inflight, chat, q), other) == if other == chat then q else Queue(inflight, other)
  {
  }

  // ----- Nothing is lost, nothing is delivered twice -----

  ghost predicate Conserved(w: World) {
    forall c :: FlushedOf(w.flushed, c) == DepartedOf(w.departed, c) + Queue(w.inflight, c)
  }

  /** Only expired batches are discarded, and no expired one is taken. */
  ghost predicate Just(w: World) {
    forall d :: d in w.departed && !d.fate.Shifted? ==> (d.fate.Discarded? <==> Expired(d.batch, d.at))
  }

  lemma StepConserved(w: World, e: Event)
    requires Conserved(w)
    ensures Conserved(Step(w, e))
  {
    var v := Step(w, e);
    forall c
      ensures FlushedOf(v.flushed, c) == DepartedOf(v.departed, c) + Queue(v.inflight, c)
    {
      assert FlushedOf(w.flushed, c) == DepartedOf(w.departed, c) + Queue(w.inflight, c);
      match e
      case Flush(chat, items, at) => FlushConserved(w, chat, items, at, c);
      case Take(chat, at) => TakeConserved(w, chat, at, c);
      case Shift(chat, at) => ShiftConserved(w, chat, at, c);
    }
  }

  lemma FlushConserved(w: World, chat: string, items: seq<Item>, at: int, c: string)
    requires FlushedOf(w.flushed, c) == DepartedOf(w.departed, c) + Queue(w.inflight, c)
    ensures var v := Step(w, Flush(chat, items, at));
            FlushedOf(v.flushed, c) == DepartedOf(v.departed, c) + Queue(v.inflight, c)
  {
    var v := Step(w, Flush(chat, items, at));
    QueueAfter(w.inflight, chat, Queue(w.inflight, chat) + [InflightBatch(items, at)], c);
    assert v.flushed[..|w.flushed|] == w.flushed;
  }

  lemma TakeConserved(w: World, chat: string, at: int, c: string)
    requires FlushedOf(w.flushed, c) == DepartedOf(w.departed, c) + Queue(w.inflight, c)
    ensures var v := Step(w, Take(chat, at));
            FlushedOf(v.flushed, c) == DepartedOf(v.departed, c) + Queue(v.inflight, c)
  {
    var q := Queue(w.inflight, chat);
    hide *;
    StepTake(w, chat, at);
    QueueAfter(w.inflight, chat, Left(q, at), c);
    SweepingOf(chat, q, at, c);
    DepartedConcat(w.departed, Sweeping(chat, q, at), c);
    if c == chat {
      assert DepartedOf(w.departed, c) + q ==
             DepartedOf(w.departed, c) + DepartedOf(Sweeping(chat, q, at), c) + Left(q, at);
    }
  }

  lemma StepTake(w: World, chat: string, at: int)
    ensures var q, v := Queue(w.inflight, chat), Step(w, Take(chat, at));
            && v.flushed == w.flushed && v.departed == w.departed + Sweeping(chat, q, at)
            && v.inflight == WithQueue(w.inflight, chat, Left(q, at))
  {
    hide Sweeping;
    hide Left;
  }

  lemma SweepingOf(chat: string, q: seq<InflightBatch>, at: int, c: string)
    ensures c == chat ==> q == DepartedOf(Sweeping(chat, q, at), c) + Left(q, at)
    ensures c != chat ==> DepartedOf(Sweeping(chat, q, at), c) == []
  {
    hide *;
    var gone, first := Gone(q, at), First(q, at);
    GoneFirstLeft(q, at);
    DeparturesOf(chat, gone, Discarded, at, c);
    DeparturesOf(chat, first, Taken, at, c);
    SweepingIs(chat, q, at);
    DepartedConcat(Departures(chat, gone, Discarded, at), Departures(chat, first, Taken, at), c);
  }

  lemma SweepingIs(chat: string, q: seq<InflightBatch>, at: int)
    ensures Sweeping(chat, q, at) ==
            Departures(chat, Gone(q, at), Discarded, at) + Departures(chat, First(q, at), Taken, at)
  {
  }

  lemma GoneFirstLeft(q: seq<InflightBatch>, at: int)
    ensures q == Gone(q, at) + First(q, at) + Left(q, at)
  {
    DropExpiredIsSuffix(q, at);
    hide DropExpired;
  }

  lemma ShiftConserved(w: World, chat: string, at: int, c: string)
    requires FlushedOf(w.flushed, c) == DepartedOf(w.departed, c) + Queue(w.inflight, c)
    ensures var v := Step(w, Shift(chat, at));
            FlushedOf(v.flushed, c) == DepartedOf(v.departed, c) + Queue(v.inflight, c)
  {
    var v, q := Step(w, Shift(chat, at)), Queue(w.inflight, chat);
    if q != [] {
      QueueAfter(w.inflight, chat, q[1..], c);
      assert v.departed[..|w.departed|] == w.departed;
      assert q == [q[0]] + q[1..];
    }
  }

  lemma SweepingIsJust(chat: string, q: seq<InflightBatch>, at: int, d: Departure)
    requires Chronological(q) && d in Sweeping(chat, q, at)
    ensures d.fate.Discarded? <==> Expired(d.batch, d.at)
  {
    DropsExactlyExpired(q, at);
    var alive := DropExpired(q, at);
    hide DropExpired;
    hide Chronological;
    var gone, first := Gone(q, at), First(q, at);
    if d in Departures(chat, gone, Discarded, at) {
      var i :| 0 <= i < |gone| && Departures(chat, gone, Discarded, at)[i] == d;
      assert d.batch == q[i];
    } else {
      var i :| 0 <= i < |first| && Departures(chat, first, Taken, at)[i] == d;
      assert d.batch == q[|q| - |alive|];
    }
  }

  lemma StepJust(w: World, e: Event)
    requires Just(w) && QueuesOk(w.inflight, w.now) && Enabled(w, e)
    ensures Just(Step(w, e))
  {
    var q := Queue(w.inflight, e.chat);
    QueueIsChronological(w.inflight, w.now, e.chat);
    hide QueuesOk;
    hide Expired;
    hide Sweeping;
    hide Left;
    if e.Take? {
      forall d | d in Sweeping(e.chat, q, e.at)
        ensures d.fate.Discarded? <==> Expired(d.batch, d.at)
      {
        SweepingIsJust(e.chat, q, e.at, d);
      }
    }
  }

  lemma QueueIsChronological(inflight: map<string, seq<InflightBatch>>, clock: int, chat: string)
    requires QueuesOk(inflight, clock)
    ensures Chronological(Queue(inflight, chat))
  {
  }

  lemma StepQueues(w: World, e: Event)
    requires QueuesOk(w.inflight, w.now) && Enabled(w, e)
    ensures QueuesOk(Step(w, e).inflight, Step(w, e).now)
  {
    hide QueuesOk;
    hide DropExpired;
    match e
    case Flush(chat, items, at) => QueuesPush(w.inflight, w.now, at, chat, items);
    case Take(chat, at) => QueuesTake(w.inflight, w.now, at, chat);
    case Shift(chat, at) =>
      QueuesLater(w.inflight, w.now, at);
      var q := Queue(w.inflight, chat);
      if q != [] {
        QueuesPop(w.inflight, w.now, at, chat, q[1..]);
      }
  }

  lemma {:induction false} RunKeeps(w: World, es: seq<Event>)
    requires IsRun(w, es) && Conserved(w) && Just(w) && QueuesOk(w.inflight, w.now)
    ensures Conserved(After(w, es)) && Just(After(w, es))
    decreases |es|
  {
    hide Conserved;
    hide Just;
    hide QueuesOk;
    hide Step;
    if es != [] {
      StepConserved(w, es[0]);
      StepJust(w, es[0]);
      StepQueues(w, es[0]);
      RunKeeps(Step(w, es[0]), es[1..]);
    }
  }

  /** In every run the batches of a chat that left its queue, followed by those still in it, are the
      flushed ones, each once and in order; and one that was swept or taken was swept exactly when it
      had expired. */
  lemma BatchesConserved(now: int, es: seq<Event>, chat: string, d: Departure)
    requires IsRun(Start(now), es)
    ensures var w := After(Start(now), es);
            && FlushedOf(w.flushed, chat) == DepartedOf(w.departed, chat) + Queue(w.inflight, chat)
            && (d in w.departed && !d.fate.Shifted? ==>
                  (d.fate.Discarded? <==> d.at - d.batch.startedAt > 30 * 60 * 1000))
  {
    RunKeeps(Start(now), es);
    hide After;
  }
}
