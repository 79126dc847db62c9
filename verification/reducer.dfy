/** The nodes reducer: a pure transition `(NodesState, Action) -> NodesState`
    that finds the entry by url and rewrites only that entry's fields. */
module NodesReducer {
  import opened Wrappers
  import opened NodeTypes
  import opened NodeActions

  /** Position of the first entry whose url is `url`, if any. */
  function FindIndex(list: seq<Node>, url: string): (r: Option<nat>)
    ensures r.Some? ==> r.value < |list| && list[r.value].url == url
    ensures r.Some? ==> forall j :: 0 <= j < r.value ==> list[j].url != url
    ensures r.None? <==> forall j :: 0 <= j < |list| ==> list[j].url != url
  {
    if |list| == 0 then None
    else if list[0].url == url then Some(0)
    else match FindIndex(list[1..], url)
      case None => None
      case Some(k) => Some(k + 1)
  }

  /** The change one action makes to the entry it targets. */
  function Apply(n: Node, a: Action): (r: Node)
    ensures r.url == n.url
    // status actions touch only online, name and loading
    ensures IsStatus(a) ==> r.blocks == n.blocks
    // block actions touch only blocks
    ensures IsBlocks(a) ==> r.online == n.online && r.name == n.name && r.loading == n.loading
    // only a successful probe renames the node
    ensures !a.StatusFulfilled? ==> r.name == n.name
    // the block history only grows, and only a successful fetch grows it
    ensures n.blocks.data <= r.blocks.data
    ensures !a.BlocksFulfilled? ==> r.blocks.data == n.blocks.data
    // a terminal step clears the in-flight flag of its own operation
    ensures IsTerminal(a) && IsStatus(a) ==> !r.loading
    ensures IsTerminal(a) && IsBlocks(a) ==> !r.blocks.loading
  {
    match a
    case StatusPending(_) => n.(loading := true)
    case StatusFulfilled(_, name) => n.(online := true, name := name, loading := false)
    case StatusRejected(_) => n.(online := false, loading := false)
    case BlocksPending(_) => n.(blocks := n.blocks.(loading := true))
    case BlocksFulfilled(_, data) => n.(blocks := Blocks(false, n.blocks.data + data))
    case BlocksRejected(_) => n.(blocks := n.blocks.(loading := false))
    case Unknown => n
  }

  /** One reducer step on a defined state: the entry list keeps its length
      and order. An action whose url matches no entry leaves the state as it
      is. */
  function Reduce(s: NodesState, a: Action): (r: NodesState)
    ensures SameShape(s.list, r.list)
  {
    if a.Unknown? then s
    else match FindIndex(s.list, a.arg)
      case None => s
      case Some(i) => NodesState(s.list[i := Apply(s.list[i], a)])
  }

  /** Which entries one step changes, and how. */
  lemma ReduceFrame(s: NodesState, a: Action)
    ensures var r := Reduce(s, a);
      // every entry is either untouched or changed by this action
      && (forall i :: 0 <= i < |s.list| ==>
            r.list[i] == s.list[i] || r.list[i] == Apply(s.list[i], a))
      // non-interference: entries of other urls are untouched
      && (forall i :: 0 <= i < |s.list| && !Targets(a, s.list[i].url) ==>
            r.list[i] == s.list[i])
      // the first entry with the target url takes the change ...
      && (forall i :: 0 <= i < |s.list| ==>
            (Targets(a, s.list[i].url) && (forall j :: 0 <= j < i ==> s.list[j].url != a.arg)) ==>
            r.list[i] == Apply(s.list[i], a))
      // ... and a later duplicate of its url does not
      && (forall i, j :: 0 <= j < i < |s.list| && s.list[j].url == s.list[i].url ==>
            r.list[i] == s.list[i])
  {
  }

  /** With one entry per url, the targeted entry is exactly the one changed. */
  lemma ReduceUnique(s: NodesState, a: Action, i: int)
    requires UniqueUrls(s.list)
    requires 0 <= i < |s.list|
    ensures Reduce(s, a).list[i] ==
      if Targets(a, s.list[i].url) then Apply(s.list[i], a) else s.list[i]
  {
    ReduceFrame(s, a);
    if Targets(a, s.list[i].url) {
      assert forall j :: 0 <= j < i ==> s.list[j].url != a.arg;
    }
  }

  /** The reducer as the store calls it: an `undefined` state stands for the
      initial registry `initial`. */
  function Reducer(initial: NodesState, state: Option<NodesState>, a: Action): (r: NodesState)
    ensures state.None? && a.Unknown? ==> r == initial
    ensures state.Some? && a.Unknown? ==> r == state.value
    ensures SameShape(state.GetOr(initial).list, r.list)
  {
    Reduce(state.GetOr(initial), a)
  }

  /** The state after dispatching `evs` in order, starting from `s`. */
  function Run(s: NodesState, evs: seq<Action>): (r: NodesState)
    ensures SameShape(s.list, r.list)
    decreases |evs|
  {
    if |evs| == 0 then s
    else Reduce(Run(s, evs[..|evs| - 1]), evs[|evs| - 1])
  }
}
