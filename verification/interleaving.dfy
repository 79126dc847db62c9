/** Completion order. The 2N operations started for N nodes may finish in any
    order; what the registry ends up holding depends only on the order of
    each node's own status steps and, separately, of its own block steps. */
module Interleaving {
  import opened Wrappers
  import opened NodeTypes
  import opened NodeActions
  import opened NodesReducer
  import opened History

  /** The steps of one operation for `url`, in dispatch order: the status
      probe's when `status` holds, the block fetch's otherwise. */
  function Track(evs: seq<Action>, url: string, status: bool): (r: seq<Action>)
    ensures |r| <= |evs|
    ensures forall k :: 0 <= k < |r| ==> Targets(r[k], url) && IsStatus(r[k]) == status
    decreases |evs|
  {
    if |evs| == 0 then []
    else
      var a := evs[|evs| - 1];
      Track(evs[..|evs| - 1], url, status)
        + (if Targets(a, url) && IsStatus(a) == status then [a] else [])
  }

  /** The tracks of two batches dispatched in turn are the first batch's
      tracks followed by the second's. */
  lemma {:induction false} TrackConcat(x: seq<Action>, y: seq<Action>, url: string, status: bool)
    ensures Track(x + y, url, status) == Track(x, url, status) + Track(y, url, status)
    decreases |y|
  {
    if |y| == 0 {
      assert x + y == x;
    } else {
      var init := y[..|y| - 1];
      TrackConcat(x, init, url, status);
      assert (x + y)[..|x + y| - 1] == x + init;
    }
  }

  /** Two action sequences that interleave the same per-node tracks. */
  ghost predicate SameTracks(e1: seq<Action>, e2: seq<Action>, url: string) {
    && Track(e1, url, true) == Track(e2, url, true)
    && Track(e1, url, false) == Track(e2, url, false)
  }

  /** A field set only by one operation's steps can be read off that
      operation's track alone. */
  lemma {:induction false} LatestOnTrack<T>(evs: seq<Action>, url: string, view: Action -> Option<T>,
                                            seed: T, status: bool)
    requires forall a :: view(a).Some? ==> !a.Unknown? && IsStatus(a) == status
    ensures Latest(Track(evs, url, status), url, view, seed) == Latest(evs, url, view, seed)
    decreases |evs|
  {
    if |evs| > 0 {
      var init, a := evs[..|evs| - 1], evs[|evs| - 1];
      LatestOnTrack(init, url, view, seed, status);
      var t := Track(init, url, status);
      if Targets(a, url) && IsStatus(a) == status {
        assert (t + [a])[..|t|] == t;
      } else {
        assert t + [] == t;
      }
    }
  }

  /** The blocks received for `url` can be read off its fetch track alone. */
  lemma {:induction false} ReceivedOnTrack(evs: seq<Action>, url: string)
    ensures Received(Track(evs, url, false), url) == Received(evs, url)
    decreases |evs|
  {
    if |evs| > 0 {
      var init, a := evs[..|evs| - 1], evs[|evs| - 1];
      ReceivedOnTrack(init, url);
      var t := Track(init, url, false);
      if Targets(a, url) && !IsStatus(a) {
        assert (t + [a])[..|t|] == t;
      } else {
        assert t + [] == t;
      }
    }
  }

  /** The reference description of a node depends only on its two tracks. */
  lemma ExpectedByTracks(n: Node, e1: seq<Action>, e2: seq<Action>)
    requires SameTracks(e1, e2, n.url)
    ensures Expected(n, e1) == Expected(n, e2)
  {
    forall e | e == e1 || e == e2
      ensures Latest(e, n.url, OnlineSet, n.online) == Latest(Track(e, n.url, true), n.url, OnlineSet, n.online)
      ensures Latest(e, n.url, NameSet, n.name) == Latest(Track(e, n.url, true), n.url, NameSet, n.name)
      ensures Latest(e, n.url, LoadingSet, n.loading) == Latest(Track(e, n.url, true), n.url, LoadingSet, n.loading)
      ensures Latest(e, n.url, BlocksLoadingSet, n.blocks.loading)
        == Latest(Track(e, n.url, false), n.url, BlocksLoadingSet, n.blocks.loading)
      ensures Received(e, n.url) == Received(Track(e, n.url, false), n.url)
    {
      LatestOnTrack(e, n.url, OnlineSet, n.online, true);
      LatestOnTrack(e, n.url, NameSet, n.name, true);
      LatestOnTrack(e, n.url, LoadingSet, n.loading, true);
      LatestOnTrack(e, n.url, BlocksLoadingSet, n.blocks.loading, false);
      ReceivedOnTrack(e, n.url);
    }
  }

  /** Order independence: any two dispatch orders that keep each node's
      status steps and block steps in the same relative order produce the
      same registry. In particular steps for different nodes, and one node's
      status and block steps, may interleave freely. */
  lemma OrderIndependence(s: NodesState, e1: seq<Action>, e2: seq<Action>)
    requires UniqueUrls(s.list)
    requires forall i :: 0 <= i < |s.list| ==> SameTracks(e1, e2, s.list[i].url)
    ensures Run(s, e1) == Run(s, e2)
  {
    var r1, r2 := Run(s, e1), Run(s, e2);
    forall i | 0 <= i < |s.list|
      ensures r1.list[i] == r2.list[i]
    {
      RunIsExpected(s, e1, i);
      RunIsExpected(s, e2, i);
      ExpectedByTracks(s.list[i], e1, e2);
    }
    assert r1.list == r2.list;
  }

  /** Dispatching `e1` then `e2` is running `e2` on the result of `e1`. */
  lemma {:induction false} RunConcat(s: NodesState, e1: seq<Action>, e2: seq<Action>)
    ensures Run(s, e1 + e2) == Run(Run(s, e1), e2)
    decreases |e2|
  {
    if |e2| == 0 {
      assert e1 + e2 == e1;
    } else {
      var init := e2[..|e2| - 1];
      RunConcat(s, e1, init);
      assert (e1 + e2)[..|e1 + e2| - 1] == e1 + init;
    }
  }

  /** A node whose last status step was terminal is idle, and online exactly
      when that step was a success. */
  lemma IdleAfterTerminalProbe(s: NodesState, evs: seq<Action>, i: int, k: int)
    requires UniqueUrls(s.list) && 0 <= i < |s.list|
    requires 0 <= k < |evs| && Targets(evs[k], s.list[i].url) && IsStatus(evs[k]) && IsTerminal(evs[k])
    requires forall m :: k < m < |evs| ==> !(Targets(evs[m], s.list[i].url) && IsStatus(evs[m]))
    ensures !Run(s, evs).list[i].loading
    ensures Run(s, evs).list[i].online <==> evs[k].StatusFulfilled?
  {
    RunIsExpected(s, evs, i);
    LatestIsLast(evs, s.list[i].url, LoadingSet, s.list[i].loading, k);
    LatestIsLast(evs, s.list[i].url, OnlineSet, s.list[i].online, k);
  }

  /** A node whose last block step was terminal is not fetching. */
  lemma IdleAfterTerminalFetch(s: NodesState, evs: seq<Action>, i: int, k: int)
    requires UniqueUrls(s.list) && 0 <= i < |s.list|
    requires 0 <= k < |evs| && Targets(evs[k], s.list[i].url) && IsBlocks(evs[k]) && IsTerminal(evs[k])
    requires forall m :: k < m < |evs| ==> !(Targets(evs[m], s.list[i].url) && IsBlocks(evs[m]))
    ensures !Run(s, evs).list[i].blocks.loading
  {
    RunIsExpected(s, evs, i);
    LatestIsLast(evs, s.list[i].url, BlocksLoadingSet, s.list[i].blocks.loading, k);
  }

  /** One complete probe run, started with any record of the node (even a
      stale one: only its url matters), leaves the node idle, online exactly
      when it succeeded, renamed only on success, and every other entry and
      the node's blocks as they were. */
  lemma ProbeRunSettles(s: NodesState, arg: Node, outcome: Outcome<string>, i: int)
    requires UniqueUrls(s.list) && 0 <= i < |s.list| && arg.url == s.list[i].url
    ensures var r := Run(s, StatusRun(arg, outcome)).list;
      && !r[i].loading
      && (r[i].online <==> outcome.Resolved?)
      && r[i].name == (if outcome.Resolved? then outcome.body else s.list[i].name)
      && r[i].blocks == s.list[i].blocks
      && forall j :: 0 <= j < |s.list| && j != i ==> r[j] == s.list[j]
  {
    var evs := StatusRun(arg, outcome);
    assert evs[..1] == [evs[0]];
    var s1 := Reduce(s, evs[0]);
    assert Run(s, evs[..1]) == s1 by {
      assert evs[..1][..0] == [];
    }
    assert Run(s, evs) == Reduce(s1, evs[1]);
    ReduceUnique(s, evs[0], i);
    SameShapeKeepsUniqueUrls(s.list, s1.list);
    forall j | 0 <= j < |s.list|
      ensures Run(s, evs).list[j] == if j == i then Apply(Apply(s.list[i], evs[0]), evs[1]) else s.list[j]
    {
      ReduceUnique(s, evs[0], j);
      ReduceUnique(s1, evs[1], j);
    }
  }

  /** One complete fetch run leaves the node not fetching, its history
      extended by exactly the blocks received (nothing on failure), and
      everything else as it was. */
  lemma FetchRunSettles(s: NodesState, arg: Node, outcome: Outcome<seq<Block>>, i: int)
    requires UniqueUrls(s.list) && 0 <= i < |s.list| && arg.url == s.list[i].url
    ensures var r := Run(s, BlocksRun(arg, outcome)).list;
      && !r[i].blocks.loading
      && r[i].blocks.data == s.list[i].blocks.data + (if outcome.Resolved? then outcome.body else [])
      && r[i].online == s.list[i].online && r[i].name == s.list[i].name
      && r[i].loading == s.list[i].loading
      && forall j :: 0 <= j < |s.list| && j != i ==> r[j] == s.list[j]
  {
    var evs := BlocksRun(arg, outcome);
    assert evs[..1] == [evs[0]];
    var s1 := Reduce(s, evs[0]);
    assert Run(s, evs[..1]) == s1 by {
      assert evs[..1][..0] == [];
    }
    assert Run(s, evs) == Reduce(s1, evs[1]);
    ReduceUnique(s, evs[0], i);
    SameShapeKeepsUniqueUrls(s.list, s1.list);
    forall j | 0 <= j < |s.list|
      ensures Run(s, evs).list[j] == if j == i then Apply(Apply(s.list[i], evs[0]), evs[1]) else s.list[j]
    {
      ReduceUnique(s, evs[0], j);
      ReduceUnique(s1, evs[1], j);
    }
    assert s.list[i].blocks.data + [] == s.list[i].blocks.data;
  }

  /** Order within one track does matter: a probe's `pending` step that
      arrives after its result leaves the node loading, unlike the order in
      which the steps are dispatched. */
  lemma TrackOrderMatters(s: NodesState, i: int, name: string)
    requires UniqueUrls(s.list) && 0 <= i < |s.list|
    ensures var u := s.list[i].url;
      && Run(s, [StatusFulfilled(u, name), StatusPending(u)]).list[i].loading
      && !Run(s, [StatusPending(u), StatusFulfilled(u, name)]).list[i].loading
  {
    var u := s.list[i].url;
    IdleAfterTerminalProbe(s, [StatusPending(u), StatusFulfilled(u, name)], i, 1);
    var e := [StatusFulfilled(u, name), StatusPending(u)];
    RunIsExpected(s, e, i);
    LatestIsLast(e, u, LoadingSet, s.list[i].loading, 1);
  }

  /** The part of one action that belongs to a track. */
  function Keep(a: Action, url: string, status: bool): seq<Action> {
    if Targets(a, url) && IsStatus(a) == status then [a] else []
  }

  lemma TrackSnoc(x: seq<Action>, a: Action, url: string, status: bool)
    ensures Track(x + [a], url, status) == Track(x, url, status) + Keep(a, url, status)
  {
    assert (x + [a])[..|x|] == x;
  }

  lemma TrackFour(a: Action, b: Action, c: Action, d: Action, url: string, status: bool)
    ensures Track([a, b, c, d], url, status)
      == Keep(a, url, status) + Keep(b, url, status) + Keep(c, url, status) + Keep(d, url, status)
  {
    TrackSnoc([], a, url, status);
    assert [a] == [] + [a];
    TrackSnoc([a], b, url, status);
    TrackSnoc([a, b], c, url, status);
    TrackSnoc([a, b, c], d, url, status);
    assert [a, b] == [a] + [b];
    assert [a, b, c] == [a, b] + [c];
    assert [a, b, c, d] == [a, b, c] + [d];
  }

  lemma TrackEight(a0: Action, a1: Action, a2: Action, a3: Action,
                   a4: Action, a5: Action, a6: Action, a7: Action, url: string, status: bool)
    ensures Track([a0, a1, a2, a3] + [a4, a5, a6, a7], url, status)
      == (Keep(a0, url, status) + Keep(a1, url, status) + Keep(a2, url, status) + Keep(a3, url, status))
       + (Keep(a4, url, status) + Keep(a5, url, status) + Keep(a6, url, status) + Keep(a7, url, status))
  {
    TrackConcat([a0, a1, a2, a3], [a4, a5, a6, a7], url, status);
    TrackFour(a0, a1, a2, a3, url, status);
    TrackFour(a4, a5, a6, a7, url, status);
  }

  /** The track `t` picked out of the eight steps of a two-node batch:
      the two steps of the run it belongs to, whatever their order. */
  lemma TwoNodeBatchTracks(sp0: Action, st0: Action, bp0: Action, bt0: Action,
                           sp1: Action, st1: Action, bp1: Action, bt1: Action,
                           u0: string, u1: string, url: string, status: bool)
    requires u0 != u1
    requires IsStatus(sp0) && IsStatus(st0) && IsBlocks(bp0) && IsBlocks(bt0)
    requires IsStatus(sp1) && IsStatus(st1) && IsBlocks(bp1) && IsBlocks(bt1)
    requires Targets(sp0, u0) && Targets(st0, u0) && Targets(bp0, u0) && Targets(bt0, u0)
    requires Targets(sp1, u1) && Targets(st1, u1) && Targets(bp1, u1) && Targets(bt1, u1)
    ensures Track([sp0, st0, bp0, bt0] + [sp1, st1, bp1, bt1], url, status)
         == Track([sp0, bp0, sp1, bp1] + [bt1, st0, bt0, st1], url, status)
  {
    TrackEight(sp0, st0, bp0, bt0, sp1, st1, bp1, bt1, url, status);
    TrackEight(sp0, bp0, sp1, bp1, bt1, st0, bt0, st1, url, status);
    var ks0, kt0 := Keep(sp0, url, status), Keep(st0, url, status);
    var kp0, kb0 := Keep(bp0, url, status), Keep(bt0, url, status);
    var ks1, kt1 := Keep(sp1, url, status), Keep(st1, url, status);
    var kp1, kb1 := Keep(bp1, url, status), Keep(bt1, url, status);
    if url == u0 && status {
      assert kp0 == kb0 == ks1 == kt1 == kp1 == kb1 == [];
      assert ks0 + kt0 + kp0 + kb0 == [sp0, st0] && ks1 + kt1 + kp1 + kb1 == [];
      assert ks0 + kp0 + ks1 + kp1 == [sp0] && kb1 + kt0 + kb0 + kt1 == [st0];
    } else if url == u0 {
      assert ks0 == kt0 == ks1 == kt1 == kp1 == kb1 == [];
      assert ks0 + kt0 + kp0 + kb0 == [bp0, bt0] && ks1 + kt1 + kp1 + kb1 == [];
      assert ks0 + kp0 + ks1 + kp1 == [bp0] && kb1 + kt0 + kb0 + kt1 == [bt0];
    } else if url == u1 && status {
      assert ks0 == kt0 == kp0 == kb0 == kp1 == kb1 == [];
      assert ks0 + kt0 + kp0 + kb0 == [] && ks1 + kt1 + kp1 + kb1 == [sp1, st1];
      assert ks0 + kp0 + ks1 + kp1 == [sp1] && kb1 + kt0 + kb0 + kt1 == [st1];
    } else if url == u1 {
      assert ks0 == kt0 == kp0 == kb0 == ks1 == kt1 == [];
      assert ks0 + kt0 + kp0 + kb0 == [] && ks1 + kt1 + kp1 + kb1 == [bp1, bt1];
      assert ks0 + kp0 + ks1 + kp1 == [bp1] && kb1 + kt0 + kb0 + kt1 == [bt1];
    } else {
      assert ks0 == kt0 == kp0 == kb0 == ks1 == kt1 == kp1 == kb1 == [];
      assert ks0 + kt0 + kp0 + kb0 == [] && ks1 + kt1 + kp1 + kb1 == [];
      assert ks0 + kp0 + ks1 + kp1 == [] && kb1 + kt0 + kb0 + kt1 == [];
    }
  }

  /** One probe run and one fetch run per node of a two-node registry,
      dispatched run after run, or with every `pending` first and the results
      arriving in an unrelated order, end in the same registry. */
  lemma TwoNodeBatch(n0: Node, n1: Node, p0: Outcome<string>, p1: Outcome<string>,
                     f0: Outcome<seq<Block>>, f1: Outcome<seq<Block>>)
    requires n0.url != n1.url
    ensures var s := NodesState([n0, n1]);
      var sequential := StatusRun(n0, p0) + BlocksRun(n0, f0) + StatusRun(n1, p1) + BlocksRun(n1, f1);
      var interleaved := [StatusRun(n0, p0)[0], BlocksRun(n0, f0)[0], StatusRun(n1, p1)[0], BlocksRun(n1, f1)[0],
                          BlocksRun(n1, f1)[1], StatusRun(n0, p0)[1], BlocksRun(n0, f0)[1], StatusRun(n1, p1)[1]];
      Run(s, sequential) == Run(s, interleaved)
  {
    var s := NodesState([n0, n1]);
    var r0, b0, r1, b1 := StatusRun(n0, p0), BlocksRun(n0, f0), StatusRun(n1, p1), BlocksRun(n1, f1);
    var sequential := [r0[0], r0[1], b0[0], b0[1]] + [r1[0], r1[1], b1[0], b1[1]];
    var interleaved := [r0[0], b0[0], r1[0], b1[0]] + [b1[1], r0[1], b0[1], r1[1]];
    assert r0 + b0 + r1 + b1 == sequential;
    assert interleaved == [r0[0], b0[0], r1[0], b1[0], b1[1], r0[1], b0[1], r1[1]];
    forall i | 0 <= i < 2
      ensures SameTracks(sequential, interleaved, s.list[i].url)
    {
      TwoNodeBatchTracks(r0[0], r0[1], b0[0], b0[1], r1[0], r1[1], b1[0], b1[1],
                         n0.url, n1.url, s.list[i].url, true);
      TwoNodeBatchTracks(r0[0], r0[1], b0[0], b0[1], r1[0], r1[1], b1[0], b1[1],
                         n0.url, n1.url, s.list[i].url, false);
    }
    OrderIndependence(s, sequential, interleaved);
  }
}
