/** What the registry looks like after any finite sequence of actions.
    The real store receives the steps of up to 2N async operations in any
    completion order; here that is an arbitrary `seq<Action>` folded through
    the reducer (`Run`). The theorems compare `Run` with a reference
    description that never mentions the reducer. */
module History {
  import opened Wrappers
  import opened NodeTypes
  import opened NodeActions
  import opened NodesReducer

  /** Per-node reference semantics: the actions for the node's url applied
      to that node alone, in order. */
  function NodeRun(n: Node, evs: seq<Action>): (r: Node)
    ensures r.url == n.url
    decreases |evs|
  {
    if |evs| == 0 then n
    else
      var m := NodeRun(n, evs[..|evs| - 1]);
      var a := evs[|evs| - 1];
      if Targets(a, n.url) then Apply(m, a) else m
  }

  /** The value carried by the last action for `url` that `view` maps to a
      value; `seed` when there is none. */
  function Latest<T>(evs: seq<Action>, url: string, view: Action -> Option<T>, seed: T): T
    decreases |evs|
  {
    if |evs| == 0 then seed
    else
      var a := evs[|evs| - 1];
      if Targets(a, url) && view(a).Some? then view(a).value
      else Latest(evs[..|evs| - 1], url, view, seed)
  }

  /** The name a successful probe reports. */
  function NameSet(a: Action): Option<string> {
    if a.StatusFulfilled? then Some(a.nodeName) else None
  }

  /** The liveness a finished probe reports. */
  function OnlineSet(a: Action): Option<bool> {
    if a.StatusFulfilled? then Some(true)
    else if a.StatusRejected? then Some(false)
    else None
  }

  /** Whether a probe is in flight after a status step. */
  function LoadingSet(a: Action): Option<bool> {
    if IsStatus(a) then Some(a.StatusPending?) else None
  }

  /** Whether a fetch is in flight after a block step. */
  function BlocksLoadingSet(a: Action): Option<bool> {
    if IsBlocks(a) then Some(a.BlocksPending?) else None
  }

  /** Every block the successful fetches for `url` brought, in completion
      order. */
  function Received(evs: seq<Action>, url: string): seq<Block>
    decreases |evs|
  {
    if |evs| == 0 then []
    else
      var a := evs[|evs| - 1];
      Received(evs[..|evs| - 1], url)
        + (if a.BlocksFulfilled? && a.arg == url then a.data else [])
  }

  /** The node `n` becomes after `evs`, field by field: liveness, name and
      both loading flags from the last action that sets them, and the block
      history extended by everything received. */
  function Expected(n: Node, evs: seq<Action>): Node {
    Node(
      Latest(evs, n.url, OnlineSet, n.online),
      Latest(evs, n.url, NameSet, n.name),
      n.url,
      Latest(evs, n.url, LoadingSet, n.loading),
      Blocks(
        Latest(evs, n.url, BlocksLoadingSet, n.blocks.loading),
        n.blocks.data + Received(evs, n.url)))
  }

  /** The per-node semantics agrees with the reference description. */
  lemma {:induction false} NodeRunIsExpected(n: Node, evs: seq<Action>)
    ensures NodeRun(n, evs) == Expected(n, evs)
    decreases |evs|
  {
    if |evs| > 0 {
      var init, a := evs[..|evs| - 1], evs[|evs| - 1];
      NodeRunIsExpected(n, init);
      if Targets(a, n.url) && a.BlocksFulfilled? {
        assert n.blocks.data + Received(evs, n.url)
            == n.blocks.data + Received(init, n.url) + a.data;
      } else {
        assert Received(evs, n.url) == Received(init, n.url) + [];
      }
    }
  }

  /** With one entry per url, the registry evolves entry by entry: entry `i`
      after `evs` is its own per-node run. */
  lemma {:induction false} RunIsPointwise(s: NodesState, evs: seq<Action>)
    requires UniqueUrls(s.list)
    ensures forall i :: 0 <= i < |s.list| ==> Run(s, evs).list[i] == NodeRun(s.list[i], evs)
    decreases |evs|
  {
    if |evs| > 0 {
      var init, a := evs[..|evs| - 1], evs[|evs| - 1];
      RunIsPointwise(s, init);
      var t := Run(s, init);
      SameShapeKeepsUniqueUrls(s.list, t.list);
      forall i | 0 <= i < |s.list|
        ensures Run(s, evs).list[i] == NodeRun(s.list[i], evs)
      {
        ReduceUnique(t, a, i);
      }
    }
  }

  /** The main theorem: with one entry per url, each entry after any action
      sequence is described by `Expected`. */
  lemma RunIsExpected(s: NodesState, evs: seq<Action>, i: int)
    requires UniqueUrls(s.list) && 0 <= i < |s.list|
    ensures Run(s, evs).list[i] == Expected(s.list[i], evs)
  {
    RunIsPointwise(s, evs);
    NodeRunIsExpected(s.list[i], evs);
  }

  /** `Latest` picks the value of the last action that sets one. */
  lemma {:induction false} LatestIsLast<T>(evs: seq<Action>, url: string, view: Action -> Option<T>,
                                           seed: T, k: int)
    requires 0 <= k < |evs| && Targets(evs[k], url) && view(evs[k]).Some?
    requires forall m :: k < m < |evs| ==> !(Targets(evs[m], url) && view(evs[m]).Some?)
    ensures Latest(evs, url, view, seed) == view(evs[k]).value
    decreases |evs|
  {
    if k < |evs| - 1 {
      var init := evs[..|evs| - 1];
      assert forall m :: k < m < |init| ==> init[m] == evs[m];
      LatestIsLast(init, url, view, seed, k);
    }
  }

  /** `Latest` is the seed when no action for `url` sets a value. */
  lemma {:induction false} LatestUnset<T>(evs: seq<Action>, url: string, view: Action -> Option<T>, seed: T)
    requires forall m :: 0 <= m < |evs| ==> !(Targets(evs[m], url) && view(evs[m]).Some?)
    ensures Latest(evs, url, view, seed) == seed
    decreases |evs|
  {
    if |evs| > 0 {
      var init := evs[..|evs| - 1];
      assert forall m :: 0 <= m < |init| ==> init[m] == evs[m];
      LatestUnset(init, url, view, seed);
    }
  }

  /** Last write wins: a node's name is the one carried by the last
      successful probe for its url, whatever happened in between. */
  lemma LastWriteWins(s: NodesState, evs: seq<Action>, i: int, k: int)
    requires UniqueUrls(s.list) && 0 <= i < |s.list|
    requires 0 <= k < |evs| && evs[k].StatusFulfilled? && evs[k].arg == s.list[i].url
    requires forall m :: k < m < |evs| ==> !(evs[m].StatusFulfilled? && evs[m].arg == s.list[i].url)
    ensures Run(s, evs).list[i].name == evs[k].nodeName
  {
    RunIsExpected(s, evs, i);
    LatestIsLast(evs, s.list[i].url, NameSet, s.list[i].name, k);
  }

  /** A node whose probes never succeeded keeps its seed name, however often
      they failed. */
  lemma NameNeverSetKeepsSeed(s: NodesState, evs: seq<Action>, i: int)
    requires UniqueUrls(s.list) && 0 <= i < |s.list|
    requires forall m :: 0 <= m < |evs| ==> !(evs[m].StatusFulfilled? && evs[m].arg == s.list[i].url)
    ensures Run(s, evs).list[i].name == s.list[i].name
  {
    RunIsExpected(s, evs, i);
    LatestUnset(evs, s.list[i].url, NameSet, s.list[i].name);
  }

  /** A node no action targets keeps its seed values exactly. This needs no
      uniqueness of urls. */
  lemma {:induction false} UntargetedUnchanged(s: NodesState, evs: seq<Action>, i: int)
    requires 0 <= i < |s.list|
    requires forall m :: 0 <= m < |evs| ==> !Targets(evs[m], s.list[i].url)
    ensures Run(s, evs).list[i] == s.list[i]
    decreases |evs|
  {
    if |evs| > 0 {
      var init := evs[..|evs| - 1];
      assert forall m :: 0 <= m < |init| ==> init[m] == evs[m];
      UntargetedUnchanged(s, init, i);
      ReduceFrame(Run(s, init), evs[|evs| - 1]);
    }
  }

  /** Block history is append-only: every entry's earlier blocks stay a
      prefix of its later blocks. */
  lemma {:induction false} AppendOnly(s: NodesState, evs: seq<Action>)
    ensures forall i :: 0 <= i < |s.list| ==>
      s.list[i].blocks.data <= Run(s, evs).list[i].blocks.data
    decreases |evs|
  {
    if |evs| > 0 {
      var init := evs[..|evs| - 1];
      AppendOnly(s, init);
      var t := Run(s, init);
      ReduceFrame(t, evs[|evs| - 1]);
      forall i | 0 <= i < |s.list|
        ensures s.list[i].blocks.data <= Run(s, evs).list[i].blocks.data
      {
        assert t.list[i].blocks.data <= Run(s, evs).list[i].blocks.data;
      }
    }
  }

  /** Block actions never change what status actions set: online, name and
      loading of every entry survive any sequence of block actions. */
  lemma {:induction false} BlockActionsKeepStatus(s: NodesState, evs: seq<Action>)
    requires forall m :: 0 <= m < |evs| ==> !IsStatus(evs[m])
    ensures forall i :: 0 <= i < |s.list| ==>
      var n, r := s.list[i], Run(s, evs).list[i];
      r.online == n.online && r.name == n.name && r.loading == n.loading
    decreases |evs|
  {
    if |evs| > 0 {
      var init := evs[..|evs| - 1];
      assert forall m :: 0 <= m < |init| ==> init[m] == evs[m];
      BlockActionsKeepStatus(s, init);
      ReduceFrame(Run(s, init), evs[|evs| - 1]);
    }
  }

  /** Status actions never change a node's blocks. */
  lemma {:induction false} StatusActionsKeepBlocks(s: NodesState, evs: seq<Action>)
    requires forall m :: 0 <= m < |evs| ==> !IsBlocks(evs[m])
    ensures forall i :: 0 <= i < |s.list| ==> Run(s, evs).list[i].blocks == s.list[i].blocks
    decreases |evs|
  {
    if |evs| > 0 {
      var init := evs[..|evs| - 1];
      assert forall m :: 0 <= m < |init| ==> init[m] == evs[m];
      StatusActionsKeepBlocks(s, init);
      ReduceFrame(Run(s, init), evs[|evs| - 1]);
    }
  }

  /** Successful fetches that bring no blocks leave every block history as
      it was, however often they repeat. */
  lemma {:induction false} EmptyFetchesKeepData(s: NodesState, evs: seq<Action>)
    requires forall m :: 0 <= m < |evs| && evs[m].BlocksFulfilled? ==> evs[m].data == []
    ensures forall i :: 0 <= i < |s.list| ==> Run(s, evs).list[i].blocks.data == s.list[i].blocks.data
    decreases |evs|
  {
    if |evs| > 0 {
      var init := evs[..|evs| - 1];
      assert forall m :: 0 <= m < |init| ==> init[m] == evs[m];
      EmptyFetchesKeepData(s, init);
      var t := Run(s, init);
      ReduceFrame(t, evs[|evs| - 1]);
      forall i | 0 <= i < |s.list|
        ensures Run(s, evs).list[i].blocks.data == s.list[i].blocks.data
      {
        assert t.list[i].blocks.data + [] == t.list[i].blocks.data;
      }
    }
  }
}
