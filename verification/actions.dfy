/** The actions the reducer consumes: the `pending`, `fulfilled` and `rejected`
    steps of the two async operations `checkNodeStatus` and `checkNodeBlocks`,
    plus any action the reducer does not know. `meta.arg` (the node the
    operation was started for) is kept as its url, the only part the reducer
    looks at. */
module NodeActions {
  import opened NodeTypes

  datatype Action =
    | StatusPending(arg: string)
    | StatusFulfilled(arg: string, nodeName: string)
    | StatusRejected(arg: string)
    | BlocksPending(arg: string)
    | BlocksFulfilled(arg: string, data: seq<Block>)
    | BlocksRejected(arg: string)
    | Unknown

  /** A step of the status probe. */
  predicate IsStatus(a: Action) {
    a.StatusPending? || a.StatusFulfilled? || a.StatusRejected?
  }

  /** A step of the block fetch. */
  predicate IsBlocks(a: Action) {
    a.BlocksPending? || a.BlocksFulfilled? || a.BlocksRejected?
  }

  /** The final step of one run of an operation. */
  predicate IsTerminal(a: Action) {
    a.StatusFulfilled? || a.StatusRejected? || a.BlocksFulfilled? || a.BlocksRejected?
  }

  /** `a` was dispatched for the node with this url. */
  predicate Targets(a: Action, url: string) {
    !a.Unknown? && a.arg == url
  }

  /** How one run of an async operation ends: the parsed response body, or
      the error it failed with. The transport behind it is not modelled. */
  datatype Outcome<T> = Resolved(body: T) | Failed(message: string)

  /** The actions one `checkNodeStatus(arg)` run dispatches: `pending`, then
      `fulfilled` carrying `node_name` or `rejected`. */
  function StatusRun(arg: Node, outcome: Outcome<string>): (evs: seq<Action>)
    ensures |evs| == 2
    ensures evs[0].StatusPending? && !IsTerminal(evs[0])
    ensures IsStatus(evs[1]) && IsTerminal(evs[1])
    ensures Targets(evs[0], arg.url) && Targets(evs[1], arg.url)
    ensures evs[1].StatusFulfilled? <==> outcome.Resolved?
    ensures outcome.Resolved? ==> evs[1].nodeName == outcome.body
  {
    [StatusPending(arg.url),
     match outcome
     case Resolved(name) => StatusFulfilled(arg.url, name)
     case Failed(_) => StatusRejected(arg.url)]
  }

  /** The actions one `checkNodeBlocks(arg)` run dispatches: `pending`, then
      `fulfilled` carrying the block list or `rejected`. */
  function BlocksRun(arg: Node, outcome: Outcome<seq<Block>>): (evs: seq<Action>)
    ensures |evs| == 2
    ensures evs[0].BlocksPending? && !IsTerminal(evs[0])
    ensures IsBlocks(evs[1]) && IsTerminal(evs[1])
    ensures Targets(evs[0], arg.url) && Targets(evs[1], arg.url)
    ensures evs[1].BlocksFulfilled? <==> outcome.Resolved?
    ensures outcome.Resolved? ==> evs[1].data == outcome.body
  {
    [BlocksPending(arg.url),
     match outcome
     case Resolved(data) => BlocksFulfilled(arg.url, data)
     case Failed(_) => BlocksRejected(arg.url)]
  }
}
