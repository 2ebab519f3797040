/** Entries of a tape, the append-only log of a conversation. */
module Tape {
  import opened Wrappers

  datatype Kind = Anchor | Message | System | Event | ToolCall | ToolResult | Error | Decision | DecisionRevoked

  /** `name` is the payload's "name" where that is a string; `body` stands for the rest of the
      payload, the metadata and the date. */
  datatype Entry = Entry(id: int, kind: Kind, name: Option<string>, body: string)

  /** The number of the next entry of a log. */
  function NextId(entries: seq<Entry>): int {
    if entries == [] then 1 else entries[|entries| - 1].id + 1
  }

  /** What an append stores: the entry under a number of the tape's own. */
  function Numbered(entries: seq<Entry>, first: int): (r: seq<Entry>)
    ensures |r| == |entries|
    ensures forall k :: 0 <= k < |r| ==> r[k] == entries[k].(id := first + k)
  {
    if entries == [] then [] else [entries[0].(id := first)] + Numbered(entries[1..], first + 1)
  }

  lemma NumberedSnoc(entries: seq<Entry>, e: Entry, first: int)
    ensures Numbered(entries + [e], first) == Numbered(entries, first) + [e.(id := first + |entries|)]
  {
  }
}
