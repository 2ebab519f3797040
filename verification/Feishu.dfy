/** The dedup window, the debounce batches and the in-flight queues of the Feishu channel. Times are
    milliseconds of a monotone clock. */
module Feishu {
  import opened Wrappers

  const BATCH_DEBOUNCE: int := 1500
  const INFLIGHT_TTL: int := 30 * 60 * 1000
  const SEEN_CAP: nat := 2000
  const SEEN_TTL: int := 24 * 60 * 60 * 1000

  datatype Seen = Seen(id: string, at: int)

  datatype Item = Item(messageId: string, text: string)

  datatype InflightBatch = InflightBatch(items: seq<Item>, startedAt: int)

  datatype QueuedBatch = QueuedBatch(items: seq<Item>, generation: nat)

  // ----- Dedup -----

  function Ids(seen: seq<Seen>): (ids: seq<string>)
    ensures |ids| == |seen|
    ensures forall i :: 0 <= i < |ids| ==> ids[i] == seen[i].id
  {
    if seen == [] then [] else [seen[0].id] + Ids(seen[1..])
  }

  function Last<T>(s: seq<T>, n: nat): seq<T> {
    if n <= |s| then s[|s| - n..] else s
  }

  /** What the window holds, given every id accepted so far: the latest `SEEN_CAP - 1` at least,
      and never more than `SEEN_CAP`. */
  ghost predicate WindowOf(seen: seq<Seen>, accepted: seq<string>) {
    && |seen| <= SEEN_CAP && |seen| <= |accepted|
    && (|seen| == |accepted| || |seen| >= SEEN_CAP - 1)
    && Ids(seen) == accepted[|accepted| - |seen|..]
  }

  lemma WindowEvicts(seen: seq<Seen>, accepted: seq<string>)
    requires WindowOf(seen, accepted) && |seen| == SEEN_CAP
    ensures WindowOf(seen[1..], accepted)
  {
    assert Ids(seen[1..]) == accepted[|accepted| - |seen[1..]|..];
  }

  lemma WindowAdmits(seen: seq<Seen>, accepted: seq<string>, id: string, now: int)
    requires WindowOf(seen, accepted) && |seen| < SEEN_CAP
    ensures WindowOf(seen + [Seen(id, now)], accepted + [id])
  {
    var s, a := seen + [Seen(id, now)], accepted + [id];
    assert Ids(s) == a[|a| - |s|..];
  }

  lemma WindowDecides(seen: seq<Seen>, accepted: seq<string>, id: string)
    requires WindowOf(seen, accepted) && |seen| < SEEN_CAP
    ensures (exists i :: 0 <= i < |seen| && seen[i].id == id) <==> id in Last(accepted, SEEN_CAP - 1)
  {
    assert Ids(seen) == Last(accepted, SEEN_CAP - 1);
    if exists i :: 0 <= i < |seen| && seen[i].id == id {
      var i :| 0 <= i < |seen| && seen[i].id == id;
      assert Ids(seen)[i] == id;
    }
  }

  // ----- Debounce -----

  /** The batch of a chat after one more message. */
  function Enqueued(queued: map<string, QueuedBatch>, chat: string, item: Item): map<string, QueuedBatch> {
    var batch := if chat in queued then queued[chat] else QueuedBatch([], 0);
    queued[chat := QueuedBatch(batch.items + [item], batch.generation + 1)]
  }

  predicate BatchesOk(queued: map<string, QueuedBatch>) {
    forall c :: c in queued ==> queued[c].items != [] && queued[c].generation > 0
  }

  lemma EnqueuedOk(queued: map<string, QueuedBatch>, chat: string, item: Item)
    requires BatchesOk(queued)
    ensures BatchesOk(Enqueued(queued, chat, item)) && BatchesOk(queued - {chat})
  {
  }

  predicate Flushes(queued: map<string, QueuedBatch>, chat: string, generation: nat) {
    chat in queued && queued[chat].generation == generation
  }

  // ----- In-flight queues -----

  function Queue(inflight: map<string, seq<InflightBatch>>, chat: string): seq<InflightBatch> {
    if chat in inflight then inflight[chat] else []
  }

  /** A queue is stored under its chat only while it holds something. */
  function WithQueue(inflight: map<string, seq<InflightBatch>>, chat: string, q: seq<InflightBatch>)
    : map<string, seq<InflightBatch>>
  {
    if q == [] then inflight - {chat} else inflight[chat := q]
  }

  predicate Expired(b: InflightBatch, now: int) {
    now - b.startedAt > INFLIGHT_TTL
  }

  /** What is left of a queue once the expired batches at its head are discarded. */
  function DropExpired(q: seq<InflightBatch>, now: int): (alive: seq<InflightBatch>)
    ensures |alive| <= |q|
  {
    if q != [] && Expired(q[0], now) then DropExpired(q[1..], now) else q
  }

  lemma DropExpiredIsSuffix(q: seq<InflightBatch>, now: int)
    ensures DropExpired(q, now) == q[|q| - |DropExpired(q, now)|..]
  {
  }

  lemma DropExpiredStep(q: seq<InflightBatch>, now: int)
    ensures q != [] && Expired(q[0], now) ==> DropExpired(q, now) == DropExpired(q[1..], now)
    ensures q == [] || !Expired(q[0], now) ==> DropExpired(q, now) == q
  {
  }

  /** On a chronological queue that discards exactly the expired batches. */
  lemma {:induction false} DropsExactlyExpired(q: seq<InflightBatch>, now: int)
    requires Chronological(q)
    ensures DropExpired(q, now) == q[|q| - |DropExpired(q, now)|..]
    ensures forall i :: 0 <= i < |q| ==>
              (now - q[i].startedAt > 30 * 60 * 1000 <==> i < |q| - |DropExpired(q, now)|)
  {
    if q != [] && Expired(q[0], now) {
      DropsExactlyExpired(q[1..], now);
      assert forall i :: 1 <= i < |q| ==> q[i] == q[1..][i - 1];
    }
  }

  predicate Chronological(q: seq<InflightBatch>) {
    forall i, j :: 0 <= i < j < |q| ==> q[i].startedAt <= q[j].startedAt
  }

  ghost predicate QueuesOk(inflight: map<string, seq<InflightBatch>>, clock: int) {
    forall c :: c in inflight ==>
      inflight[c] != [] && Chronological(inflight[c]) && inflight[c][|inflight[c]| - 1].startedAt <= clock
  }

  /** Taking batches from the front of a queue keeps the queues in order. */
  lemma QueuesPop(inflight: map<string, seq<InflightBatch>>, clock: int, now: int, chat: string, q: seq<InflightBatch>)
    requires QueuesOk(inflight, clock) && clock <= now
    requires |q| <= |Queue(inflight, chat)|
    requires q == Queue(inflight, chat)[|Queue(inflight, chat)| - |q|..]
    ensures QueuesOk(WithQueue(inflight, chat, q), now)
  {
  }

  lemma QueuesLater(inflight: map<string, seq<InflightBatch>>, clock: int, now: int)
    requires QueuesOk(inflight, clock) && clock <= now
    ensures QueuesOk(inflight, now)
  {
  }

  lemma QueuesPush(inflight: map<string, seq<InflightBatch>>, clock: int, now: int, chat: string, items: seq<Item>)
    requires QueuesOk(inflight, clock) && clock <= now
    ensures QueuesOk(inflight[chat := Queue(inflight, chat) + [InflightBatch(items, now)]], now)
  {
  }

  lemma QueuesTake(inflight: map<string, seq<InflightBatch>>, clock: int, now: int, chat: string)
    requires QueuesOk(inflight, clock) && clock <= now
    ensures var alive := DropExpired(Queue(inflight, chat), now);
            QueuesOk(WithQueue(inflight, chat, if alive == [] then [] else alive[1..]), now)
  {
    hide QueuesOk;
    hide DropExpired;
    var q := Queue(inflight, chat);
    var alive := DropExpired(q, now);
    DropExpiredIsSuffix(q, now);
    if alive != [] {
      assert alive[1..] == q[|q| - |alive[1..]|..];
    }
    QueuesPop(inflight, clock, now, chat, if alive == [] then [] else alive[1..]);
  }
}
