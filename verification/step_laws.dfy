/** Laws about a single reducer step: the transition table exercised by the
    reducer's unit tests, and how two steps combine. */
module StepLaws {
  import opened Wrappers
  import opened NodeTypes
  import opened NodeActions
  import opened NodesReducer

  /** Every entry other than position `i` is unchanged. */
  ghost predicate OthersUnchanged(before: seq<Node>, after: seq<Node>, i: int)
    requires |before| == |after|
  {
    forall j :: 0 <= j < |before| && j != i ==> after[j] == before[j]
  }

  /** An undefined state stands for the initial registry for every action,
      known or not: the reducer then acts on `initial` as on a defined state. */
  lemma UndefinedStateIsInitial(initial: NodesState, a: Action)
    ensures Reducer(initial, None, a) == Reducer(initial, Some(initial), a)
    ensures Reducer(initial, None, a) == Reduce(initial, a)
  {
  }

  /** `checkNodeStatus.pending`: only the target's `loading` becomes true. */
  lemma StatusPendingStep(s: NodesState, i: int)
    requires UniqueUrls(s.list) && 0 <= i < |s.list|
    ensures var r := Reduce(s, StatusPending(s.list[i].url)).list;
      && |r| == |s.list|
      && r[i] == s.list[i].(loading := true)
      && OthersUnchanged(s.list, r, i)
  {
    ReduceUnique(s, StatusPending(s.list[i].url), i);
  }

  /** `checkNodeStatus.fulfilled`: the target comes online under the reported
      name and stops loading; its blocks and every other entry are kept. */
  lemma StatusFulfilledStep(s: NodesState, i: int, name: string)
    requires UniqueUrls(s.list) && 0 <= i < |s.list|
    ensures var r := Reduce(s, StatusFulfilled(s.list[i].url, name)).list;
      && |r| == |s.list|
      && r[i] == s.list[i].(online := true, name := name, loading := false)
      && OthersUnchanged(s.list, r, i)
  {
    ReduceUnique(s, StatusFulfilled(s.list[i].url, name), i);
  }

  /** `checkNodeStatus.rejected`: the target goes offline and stops loading,
      keeping the name it had. */
  lemma StatusRejectedStep(s: NodesState, i: int)
    requires UniqueUrls(s.list) && 0 <= i < |s.list|
    ensures var r := Reduce(s, StatusRejected(s.list[i].url)).list;
      && |r| == |s.list|
      && r[i] == s.list[i].(online := false, loading := false)
      && r[i].name == s.list[i].name
      && OthersUnchanged(s.list, r, i)
  {
    ReduceUnique(s, StatusRejected(s.list[i].url), i);
  }

  /** `checkNodeBlocks.pending`: only the target's `blocks.loading` becomes
      true; its block data is kept. */
  lemma BlocksPendingStep(s: NodesState, i: int)
    requires UniqueUrls(s.list) && 0 <= i < |s.list|
    ensures var r := Reduce(s, BlocksPending(s.list[i].url)).list;
      && |r| == |s.list|
      && r[i] == s.list[i].(blocks := s.list[i].blocks.(loading := true))
      && r[i].blocks.data == s.list[i].blocks.data
      && OthersUnchanged(s.list, r, i)
  {
    ReduceUnique(s, BlocksPending(s.list[i].url), i);
  }

  /** `checkNodeBlocks.fulfilled`: the received blocks are appended after the
      ones already held, without removing duplicates. */
  lemma BlocksFulfilledStep(s: NodesState, i: int, data: seq<Block>)
    requires UniqueUrls(s.list) && 0 <= i < |s.list|
    ensures var r := Reduce(s, BlocksFulfilled(s.list[i].url, data)).list;
      && |r| == |s.list|
      && r[i] == s.list[i].(blocks := Blocks(false, s.list[i].blocks.data + data))
      && |r[i].blocks.data| == |s.list[i].blocks.data| + |data|
      && OthersUnchanged(s.list, r, i)
  {
    ReduceUnique(s, BlocksFulfilled(s.list[i].url, data), i);
  }

  /** `checkNodeBlocks.rejected`: the target stops loading blocks and keeps
      the block data it had. */
  lemma BlocksRejectedStep(s: NodesState, i: int)
    requires UniqueUrls(s.list) && 0 <= i < |s.list|
    ensures var r := Reduce(s, BlocksRejected(s.list[i].url)).list;
      && |r| == |s.list|
      && r[i] == s.list[i].(blocks := s.list[i].blocks.(loading := false))
      && r[i].blocks.data == s.list[i].blocks.data
      && OthersUnchanged(s.list, r, i)
  {
    ReduceUnique(s, BlocksRejected(s.list[i].url), i);
  }

  /** The lookup sees only the urls, so it gives the same answer on any list
      of the same shape. */
  lemma FindIndexSameShape(l1: seq<Node>, l2: seq<Node>, url: string)
    requires SameShape(l1, l2)
    ensures FindIndex(l1, url) == FindIndex(l2, url)
  {
    var r1, r2 := FindIndex(l1, url), FindIndex(l2, url);
    if r1.Some? && r2.Some? {
      assert l2[r1.value].url == url;
      assert l1[r2.value].url == url;
    }
  }

  /** Two actions may be applied in either order with the same result. */
  ghost predicate Independent(a: Action, b: Action) {
    a.Unknown? || b.Unknown? || a.arg != b.arg || IsStatus(a) != IsStatus(b)
  }

  /** A status step and a block step on the same node touch disjoint fields,
      so they commute. */
  lemma ApplyStatusBlocksCommute(n: Node, a: Action, b: Action)
    requires IsStatus(a) && IsBlocks(b)
    ensures Apply(Apply(n, a), b) == Apply(Apply(n, b), a)
  {
  }

  /** The step `Reduce` takes once the lookup has found position `i`. */
  lemma ReduceAt(s: NodesState, a: Action, i: nat)
    requires !a.Unknown? && FindIndex(s.list, a.arg) == Some(i)
    ensures i < |s.list|
    ensures Reduce(s, a) == NodesState(s.list[i := Apply(s.list[i], a)])
  {
  }

  /** Independent actions commute: actions for different nodes, and a status
      action with a block action for the same node. */
  lemma ReduceCommutes(s: NodesState, a: Action, b: Action)
    requires Independent(a, b)
    ensures Reduce(Reduce(s, a), b) == Reduce(Reduce(s, b), a)
  {
    if a.Unknown? || b.Unknown? {
      return;
    }
    var fa, fb := FindIndex(s.list, a.arg), FindIndex(s.list, b.arg);
    if fa.None? || fb.None? {
      return;
    }
    if fa.value == fb.value {
      if IsStatus(a) {
        CommuteOnOneEntry(s, a, b, fa.value);
      } else {
        CommuteOnOneEntry(s, b, a, fa.value);
      }
    } else {
      CommuteOnTwoEntries(s, a, b, fa.value, fb.value);
    }
  }

  /** Both actions land on entry `i`, touching disjoint fields. */
  lemma CommuteOnOneEntry(s: NodesState, a: Action, b: Action, i: nat)
    requires IsStatus(a) && IsBlocks(b)
    requires FindIndex(s.list, a.arg) == Some(i) && FindIndex(s.list, b.arg) == Some(i)
    ensures Reduce(Reduce(s, a), b) == Reduce(Reduce(s, b), a)
  {
    FindIndexSameShape(s.list, Reduce(s, a).list, b.arg);
    FindIndexSameShape(s.list, Reduce(s, b).list, a.arg);
    ReduceAt(s, a, i);
    ReduceAt(s, b, i);
    ReduceAt(Reduce(s, a), b, i);
    ReduceAt(Reduce(s, b), a, i);
    ApplyStatusBlocksCommute(s.list[i], a, b);
  }

  /** The actions land on different entries. */
  lemma CommuteOnTwoEntries(s: NodesState, a: Action, b: Action, i: nat, j: nat)
    requires !a.Unknown? && !b.Unknown? && i != j
    requires FindIndex(s.list, a.arg) == Some(i) && FindIndex(s.list, b.arg) == Some(j)
    ensures Reduce(Reduce(s, a), b) == Reduce(Reduce(s, b), a)
  {
    FindIndexSameShape(s.list, Reduce(s, a).list, b.arg);
    FindIndexSameShape(s.list, Reduce(s, b).list, a.arg);
    ReduceAt(s, a, i);
    ReduceAt(s, b, j);
    ReduceAt(Reduce(s, a), b, j);
    ReduceAt(Reduce(s, b), a, i);
    UpdatesCommute(s.list, i, j, Apply(s.list[i], a), Apply(s.list[j], b));
  }

  /** Updates at two different positions of a list commute. */
  lemma UpdatesCommute(l: seq<Node>, i: nat, j: nat, x: Node, y: Node)
    requires i < |l| && j < |l| && i != j
    ensures l[i := x][j := y] == l[j := y][i := x]
    ensures l[i := x][j] == l[j] && l[j := y][i] == l[i]
  {
  }

  /** Dispatching a step twice is the same as dispatching it once, except for
      a successful fetch that brought blocks (see `FetchTwiceAppendsTwice`). */
  lemma ReduceIdempotent(s: NodesState, a: Action)
    requires !a.BlocksFulfilled? || a.data == []
    ensures Reduce(Reduce(s, a), a) == Reduce(s, a)
  {
    if !a.Unknown? {
      FindIndexSameShape(s.list, Reduce(s, a).list, a.arg);
      if a.BlocksFulfilled? {
        match FindIndex(s.list, a.arg)
        case None =>
        case Some(i) =>
          assert s.list[i].blocks.data + [] == s.list[i].blocks.data;
      }
    }
  }

  /** Repeating a successful fetch appends its blocks a second time, so it is
      idempotent exactly when it brought no blocks. */
  lemma FetchTwiceAppendsTwice(s: NodesState, i: int, data: seq<Block>)
    requires UniqueUrls(s.list) && 0 <= i < |s.list|
    ensures var a := BlocksFulfilled(s.list[i].url, data);
      && Reduce(Reduce(s, a), a).list[i].blocks.data == s.list[i].blocks.data + data + data
      && (Reduce(Reduce(s, a), a) == Reduce(s, a) <==> data == [])
  {
    var a := BlocksFulfilled(s.list[i].url, data);
    var s1 := Reduce(s, a);
    ReduceUnique(s, a, i);
    SameShapeKeepsUniqueUrls(s.list, s1.list);
    ReduceUnique(s1, a, i);
    var s2 := Reduce(s1, a);
    if s2 == s1 {
      assert |s2.list[i].blocks.data| == |s1.list[i].blocks.data| + |data|;
    } else if data == [] {
      ReduceIdempotent(s, a);
    }
  }
}
