/** The shared state of the Feishu channel, as it is kept: its methods are steps of the debounce
    protocol and of the in-flight queues. */
module FeishuChannel {
  import opened Wrappers
  import opened Feishu
  import Debounce
  import InflightRuns

  /** The sweep of expired heads. */
  method Sweep(q: seq<InflightBatch>, now: int) returns (queue: seq<InflightBatch>)
    ensures queue == DropExpired(q, now)
  {
    queue := q;
    while queue != [] && now - queue[0].startedAt > INFLIGHT_TTL
      invariant DropExpired(queue, now) == DropExpired(q, now)
    {
      queue := queue[1..];
    }
  }

  class FeishuState {
    var seen: seq<Seen>
    var queued: map<string, QueuedBatch>
    var inflight: map<string, seq<InflightBatch>>
    /** Every id that was let through, oldest first. */
    ghost var accepted: seq<string>
    /** The latest time seen. */
    ghost var clock: int

    ghost predicate Valid()
      reads this
    {
      && WindowOf(seen, accepted)
      && BatchesOk(queued)
      && QueuesOk(inflight, clock)
    }

    constructor ()
      ensures Valid() && accepted == [] && queued == map[] && inflight == map[]
    {
      seen, queued, inflight, accepted, clock := [], map[], map[], [], 0;
    }

    /** The window is exact and ignores the clock: an id is a duplicate iff it is among the last
        `SEEN_CAP - 1` accepted ones. */
    method AlreadySeen(eventId: string, now: int) returns (duplicate: bool)
      requires Valid()
      modifies `seen, `accepted
      ensures Valid()
      ensures eventId == "" ==> !duplicate && seen == old(seen) && accepted == old(accepted)
      ensures eventId != "" ==> (duplicate <==> eventId in Last(old(accepted), SEEN_CAP - 1))
      ensures eventId != "" ==> accepted == old(accepted) + if duplicate then [] else [eventId]
    {
      if eventId == "" {
        return false;
      }
      hide WindowOf;
      hide QueuesOk;
      hide BatchesOk;
      hide Last;
      ghost var before := accepted;
      if |seen| >= SEEN_CAP {
        while seen != []
          invariant WindowOf(seen, accepted) && accepted == before && |seen| <= SEEN_CAP
        {
          if |seen| < SEEN_CAP || now - seen[0].at <= SEEN_TTL {
            break;
          }
          WindowEvicts(seen, accepted);
          seen := seen[1..];
        }
        while |seen| >= SEEN_CAP
          invariant WindowOf(seen, accepted) && accepted == before && |seen| <= SEEN_CAP
        {
          WindowEvicts(seen, accepted);
          seen := seen[1..];
        }
      }
      WindowDecides(seen, accepted, eventId);
      duplicate := exists i :: 0 <= i < |seen| && seen[i].id == eventId;
      if !duplicate {
        WindowAdmits(seen, accepted, eventId, now);
        seen := seen + [Seen(eventId, now)];
        accepted := accepted + [eventId];
      }
    }

    /** The oldest batch still alive, with the expired ones before it discarded. */
    method TakeInflight(chat: string, now: int) returns (batch: Option<InflightBatch>)
      requires Valid() && clock <= now
      modifies `inflight, `clock
      ensures Valid() && clock == now
      ensures var alive := DropExpired(Queue(old(inflight), chat), now);
              if alive == [] then batch == None && inflight == WithQueue(old(inflight), chat, [])
              else batch == Some(alive[0]) && inflight == WithQueue(old(inflight), chat, alive[1..])
      ensures forall w: InflightRuns.World :: w.inflight == old(inflight) ==>
                var v := InflightRuns.Step(w, InflightRuns.Take(chat, now));
                && v.inflight == inflight
                && v.departed == w.departed +
                     InflightRuns.Departures(chat, InflightRuns.Gone(Queue(old(inflight), chat), now),
                                             InflightRuns.Discarded, now) +
                     if batch.Some? then [InflightRuns.Departure(chat, batch.value, InflightRuns.Taken, now)] else []
    {
      hide WindowOf;
      hide BatchesOk;
      hide QueuesOk;
      hide DropExpired;
      QueuesTake(inflight, clock, now, chat);
      clock := now;
      if chat !in inflight {
        DropExpiredStep([], now);
        assert inflight == inflight - {chat};
        return None;
      }
      var queue := Sweep(inflight[chat], now);
      if queue == [] {
        inflight := inflight - {chat};
        return None;
      }
      batch := Some(queue[0]);
      queue := queue[1..];
      inflight := inflight[chat := queue];
      if queue == [] {
        inflight := inflight - {chat};
      }
      assert inflight == WithQueue(old(inflight), chat, queue);
    }

    /** The oldest batch, expired or not. */
    method ShiftInflight(chat: string) returns (batch: Option<InflightBatch>)
      requires Valid()
      modifies `inflight
      ensures Valid()
      ensures var q := Queue(old(inflight), chat);
              if q == [] then batch == None && inflight == old(inflight)
              else batch == Some(q[0]) && inflight == WithQueue(old(inflight), chat, q[1..])
      ensures forall w: InflightRuns.World, at: int :: w.inflight == old(inflight) ==>
                var v := InflightRuns.Step(w, InflightRuns.Shift(chat, at));
                && v.inflight == inflight
                && v.departed == w.departed +
                     if batch.Some? then [InflightRuns.Departure(chat, batch.value, InflightRuns.Shifted, at)] else []
    {
      hide WindowOf;
      hide BatchesOk;
      if chat !in inflight {
        return None;
      }
      var queue := inflight[chat];
      batch := Some(queue[0]);
      queue := queue[1..];
      QueuesPop(inflight, clock, clock, chat, queue);
      inflight := inflight[chat := queue];
      if queue == [] {
        inflight := inflight - {chat};
      }
      assert inflight == WithQueue(old(inflight), chat, queue);
    }

    /** Adds a message to its chat's batch; the caller arms a timer with the returned generation. */
    method Enqueue(chat: string, item: Item) returns (generation: nat)
      requires Valid()
      modifies `queued
      ensures Valid()
      ensures queued == Enqueued(old(queued), chat, item) && generation == queued[chat].generation
      ensures forall w: Debounce.World, at: int :: w.queued == old(queued) && w.now <= at ==>
                var v := Debounce.Step(w, Debounce.Message(chat, item, at));
                && v.queued == queued
                && v.timers == w.timers + [Debounce.Timer(chat, generation, at + BATCH_DEBOUNCE)]
    {
      hide WindowOf;
      hide QueuesOk;
      hide BatchesOk;
      EnqueuedOk(queued, chat, item);
      if chat !in queued {
        queued := queued[chat := QueuedBatch([], 0)];
      }
      var batch := queued[chat];
      batch := batch.(items := batch.items + [item]);
      batch := batch.(generation := batch.generation + 1);
      queued := queued[chat := batch];
      generation := batch.generation;
      assert queued == Enqueued(old(queued), chat, item);
    }

    /** What a timer does when it fires: nothing, unless its generation is current. */
    method FlushBatch(chat: string, generation: nat, now: int) returns (items: Option<seq<Item>>)
      requires Valid() && clock <= now
      modifies `queued, `inflight, `clock
      ensures Valid() && clock == now
      ensures if Flushes(old(queued), chat, generation) then
                && items == Some(old(queued)[chat].items)
                && queued == old(queued) - {chat}
                && inflight == WithQueue(old(inflight), chat,
                     Queue(old(inflight), chat) + [InflightBatch(items.value, now)])
              else
                items == None && queued == old(queued) && inflight == old(inflight)
      ensures forall w: Debounce.World, i: nat ::
                && w.queued == old(queued) && Debounce.Enabled(w, Debounce.Fires(i, now))
                && w.timers[i].chat == chat && w.timers[i].generation == generation ==>
                var v := Debounce.Step(w, Debounce.Fires(i, now));
                && v.queued == queued && (items.Some? <==> |v.flushes| > |w.flushes|)
                && (items.Some? ==> v.flushes[|w.flushes|].chat == chat && v.flushes[|w.flushes|].items == items.value)
      ensures forall w: InflightRuns.World :: w.inflight == old(inflight) && items.Some? ==>
                InflightRuns.Step(w, InflightRuns.Flush(chat, items.value, now)).inflight == inflight
    {
      hide WindowOf;
      hide QueuesOk;
      QueuesLater(inflight, clock, now);
      clock := now;
      if chat !in queued || queued[chat].generation != generation {
        return None;
      }
      var batch := queued[chat];
      queued := queued - {chat};
      QueuesPush(inflight, old(clock), now, chat, batch.items);
      var queue := if chat in inflight then inflight[chat] else [];
      inflight := inflight[chat := queue + [InflightBatch(batch.items, now)]];
      items := Some(batch.items);
    }
  }
}
