/** Per-tool circuit breaker: calls begin and finish in any interleaving, and only finished calls
    change the state. */
module CircuitBreaker {
  import opened Wrappers

  datatype CircuitState = CircuitState(consecutiveFailures: nat, trippedAt: Option<int>)

  const CLOSED := CircuitState(0, None)

  /** A finished call. */
  datatype Completion = Completion(tool: string, ok: bool, at: int)

  // ----- The completion history -----

  /** The completions of one tool, oldest first. */
  function Of(history: seq<Completion>, tool: string): seq<Completion> {
    if history == [] then []
    else
      var before := Of(history[..|history| - 1], tool);
      var last := history[|history| - 1];
      if last.tool == tool then before + [last] else before
  }

  /** Length of the run of failures that ends the history. */
  function TrailingFailures(h: seq<Completion>): nat {
    if h == [] || h[|h| - 1].ok then 0 else 1 + TrailingFailures(h[..|h| - 1])
  }

  predicate LastAllFailed(h: seq<Completion>, n: nat) {
    n <= |h| && forall i :: |h| - n <= i < |h| ==> !h[i].ok
  }

  lemma {:induction false} TrailingFailuresCount(h: seq<Completion>, n: nat)
    ensures n <= TrailingFailures(h) <==> LastAllFailed(h, n)
    decreases |h|
  {
    if n > 0 && h != [] && !h[|h| - 1].ok {
      TrailingFailuresCount(h[..|h| - 1], n - 1);
    }
  }

  /** A breaker configured with 0 behaves as one configured with 1. */
  function Threshold(maxFailures: nat): nat {
    if maxFailures == 0 then 1 else maxFailures
  }

  /** The state a history leads to. */
  function StateAfter(h: seq<Completion>, maxFailures: nat): CircuitState {
    var n := TrailingFailures(h);
    CircuitState(n, if n >= Threshold(maxFailures) then Some(h[|h| - 1].at) else None)
  }

  /** When a call is turned away: the last `Threshold` completions failed, the latest of them less
      than the timeout ago. */
  predicate Rejects(h: seq<Completion>, maxFailures: nat, timeout: int, now: int) {
    LastAllFailed(h, Threshold(maxFailures)) && now - h[|h| - 1].at < timeout
  }

  lemma OfSnoc(history: seq<Completion>, c: Completion, tool: string)
    ensures Of(history + [c], tool) == if c.tool == tool then Of(history, tool) + [c] else Of(history, tool)
  {
    assert (history + [c])[..|history|] == history;
  }

  lemma StateStep(h: seq<Completion>, c: Completion, maxFailures: nat)
    ensures StateAfter(h + [c], maxFailures) ==
            var n := StateAfter(h, maxFailures).consecutiveFailures + 1;
            if c.ok then CLOSED
            else CircuitState(n, if n >= Threshold(maxFailures) then Some(c.at) else None)
  {
    assert (h + [c])[..|h|] == h;
  }

  /** The stored states are those the completion history leads to. */
  ghost predicate Consistent(states: map<string, CircuitState>, history: seq<Completion>, maxFailures: nat) {
    forall tool :: Stored(states, tool) == StateAfter(Of(history, tool), maxFailures)
  }

  function Stored(states: map<string, CircuitState>, tool: string): CircuitState {
    if tool in states then states[tool] else CLOSED
  }

  lemma StoreStep(states: map<string, CircuitState>, history: seq<Completion>, maxFailures: nat, c: Completion)
    requires Consistent(states, history, maxFailures)
    ensures var n := Stored(states, c.tool).consecutiveFailures + 1;
            var next := if c.ok then CLOSED
                        else CircuitState(n, if n >= Threshold(maxFailures) then Some(c.at) else None);
            Consistent(states[c.tool := next], history + [c], maxFailures)
  {
    StateStep(Of(history, c.tool), c, maxFailures);
    hide StateAfter;
    hide Of;
    forall t
      ensures Of(history + [c], t) == if c.tool == t then Of(history, t) + [c] else Of(history, t)
    {
      OfSnoc(history, c, t);
    }
  }

  class Breaker {
    const maxFailures: nat
    const resetTimeout: int
    var states: map<string, CircuitState>
    ghost var history: seq<Completion>
    ghost var inFlight: multiset<string>

    ghost predicate Valid()
      reads this
    {
      Consistent(states, history, maxFailures)
    }

    constructor (maxFailures: nat, resetTimeout: int)
      ensures Valid() && history == [] && inFlight == multiset{}
      ensures this.maxFailures == maxFailures && this.resetTimeout == resetTimeout
    {
      this.maxFailures, this.resetTimeout := maxFailures, resetTimeout;
      states, history, inFlight := map[], [], multiset{};
    }

    method IsTripped(tool: string, now: int) returns (tripped: bool)
      requires Valid()
      ensures tripped <==> Rejects(Of(history, tool), maxFailures, resetTimeout, now)
    {
      TrailingFailuresCount(Of(history, tool), Threshold(maxFailures));
      assert Stored(states, tool) == StateAfter(Of(history, tool), maxFailures);
      if tool in states && states[tool].trippedAt.Some? {
        return now - states[tool].trippedAt.value < resetTimeout;
      }
      return false;
    }

    /** A call begins, unless it is rejected; a rejected call leaves no trace. */
    method Begin(tool: string, now: int) returns (admitted: bool)
      requires Valid()
      modifies this
      ensures Valid() && history == old(history) && states == old(states)
      ensures admitted <==> !Rejects(Of(history, tool), maxFailures, resetTimeout, now)
      ensures inFlight == old(inFlight) + if admitted then multiset{tool} else multiset{}
    {
      var tripped := IsTripped(tool, now);
      admitted := !tripped;
      if admitted {
        inFlight := inFlight + multiset{tool};
      }
    }

    /** A call that was admitted, however long ago, finishes. */
    method Finish(tool: string, ok: bool, now: int)
      requires Valid() && tool in inFlight
      modifies this
      ensures Valid() && history == old(history) + [Completion(tool, ok, now)]
      ensures inFlight == old(inFlight) - multiset{tool}
    {
      ghost var done := Completion(tool, ok, now);
      StoreStep(states, history, maxFailures, done);
      hide Consistent;
      if ok {
        states := states[tool := CLOSED];
      } else {
        var state := if tool in states then states[tool] else CLOSED;
        state := state.(consecutiveFailures := state.consecutiveFailures + 1);
        if state.consecutiveFailures >= maxFailures {
          state := state.(trippedAt := Some(now));
        }
        states := states[tool := state];
      }
      history := history + [done];
      inFlight := inFlight - multiset{tool};
    }
  }
}
