/** The dispatch sequences of the store tests, over a registry of four seed
    nodes a.com, b.com, c.com and d.com with empty names, and the two-node
    interleaving example. */
module Scenarios {
  import opened NodeTypes
  import opened NodeActions
  import opened NodesReducer
  import opened History
  import opened Interleaving

  const A: Node := SeedNode("a.com", "")
  const B: Node := SeedNode("b.com", "")
  const C: Node := SeedNode("c.com", "")
  const D: Node := SeedNode("d.com", "")

  const Seed: NodesState := NodesState([A, B, C, D])

  /** Eight successful probes, every one started with a seed record. */
  const StatusBurst: seq<Action> := [
    StatusFulfilled(A.url, "alpha"), StatusFulfilled(B.url, "beta"),
    StatusFulfilled(A.url, "gamma"), StatusFulfilled(C.url, "delta"),
    StatusFulfilled(B.url, "epsilon"), StatusFulfilled(A.url, "zeta"),
    StatusFulfilled(A.url, "eta"), StatusFulfilled(A.url, "theta")]

  /** Four successful fetches that brought no blocks. */
  const EmptyFetches: seq<Action> := [
    BlocksFulfilled(B.url, []), BlocksFulfilled(A.url, []),
    BlocksFulfilled(C.url, []), BlocksFulfilled(B.url, [])]

  /** The registry the store tests expect after the probes. */
  const AfterProbes: NodesState := NodesState([
    A.(online := true, name := "theta"),
    B.(online := true, name := "epsilon"),
    C.(online := true, name := "delta"),
    D])

  /** The seed registry has one entry per url. */
  lemma SeedUrlsUnique()
    ensures UniqueUrls(Seed.list)
  {
  }

  /** After probes only, a node whose last action was a successful probe is
      online under that probe's name and idle, with its blocks untouched. */
  lemma ProbedNode(s: NodesState, evs: seq<Action>, i: int, k: int)
    requires UniqueUrls(s.list) && 0 <= i < |s.list|
    requires forall m :: 0 <= m < |evs| ==> !IsBlocks(evs[m])
    requires 0 <= k < |evs| && evs[k].StatusFulfilled? && evs[k].arg == s.list[i].url
    requires forall m :: k < m < |evs| ==> !Targets(evs[m], s.list[i].url)
    ensures Run(s, evs).list[i] == s.list[i].(online := true, name := evs[k].nodeName, loading := false)
  {
    LastWriteWins(s, evs, i, k);
    IdleAfterTerminalProbe(s, evs, i, k);
    StatusActionsKeepBlocks(s, evs);
  }

  /** After empty fetches only, a node whose last action was one of them
      is exactly as it was before them, provided it was not fetching. */
  lemma EmptyFetchedNode(s: NodesState, evs: seq<Action>, i: int, k: int)
    requires UniqueUrls(s.list) && 0 <= i < |s.list| && !s.list[i].blocks.loading
    requires forall m :: 0 <= m < |evs| ==> evs[m].BlocksFulfilled? && evs[m].data == []
    requires 0 <= k < |evs| && evs[k].arg == s.list[i].url
    requires forall m :: k < m < |evs| ==> !Targets(evs[m], s.list[i].url)
    ensures Run(s, evs).list[i] == s.list[i]
  {
    EmptyFetchesKeepData(s, evs);
    BlockActionsKeepStatus(s, evs);
    IdleAfterTerminalFetch(s, evs, i, k);
  }

  /** Each node is named by its last successful probe; d.com, never probed,
      keeps its seed values. */
  lemma StatusBurstOutcome()
    ensures Run(Seed, StatusBurst) == AfterProbes
  {
    var r := Run(Seed, StatusBurst);
    SeedUrlsUnique();
    forall i | 0 <= i < 4
      ensures r.list[i] == AfterProbes.list[i]
    {
      if i == 3 {
        UntargetedUnchanged(Seed, StatusBurst, 3);
      } else {
        // the last probe for a.com, b.com and c.com
        var k := if i == 0 then 7 else if i == 1 then 4 else 3;
        ProbedNode(Seed, StatusBurst, i, k);
      }
    }
    assert r.list == AfterProbes.list;
  }

  /** Empty fetches change nothing at all on the probed registry: block
      histories stay as they were and the names and liveness set by the
      probes stay. */
  lemma EmptyFetchesChangeNothing()
    ensures Run(AfterProbes, EmptyFetches) == AfterProbes
  {
    var s := AfterProbes;
    var r := Run(s, EmptyFetches);
    assert UniqueUrls(s.list) by {
      SeedUrlsUnique();
    }
    forall i | 0 <= i < 4
      ensures r.list[i] == s.list[i]
    {
      if i == 3 {
        UntargetedUnchanged(s, EmptyFetches, 3);
      } else {
        // the last fetch for a.com, b.com and c.com
        var k := if i == 0 then 1 else if i == 1 then 3 else 2;
        EmptyFetchedNode(s, EmptyFetches, i, k);
      }
    }
    assert r.list == s.list;
  }

  /** The second store test: the empty fetches dispatched after the probes
      leave the registry the probes produced. */
  lemma EmptyFetchesOutcome()
    ensures Run(Seed, StatusBurst + EmptyFetches) == AfterProbes
  {
    RunConcat(Seed, StatusBurst, EmptyFetches);
    StatusBurstOutcome();
    EmptyFetchesChangeNothing();
  }

  /** Two probes whose steps interleave end as if they had run one after the
      other: each node online under its own reported name and idle. */
  lemma InterleavedProbes()
    ensures var expected := [A.(online := true, name := "alpha"), B.(online := true, name := "beta")];
      && Run(NodesState([A, B]), [
           StatusPending(A.url), StatusPending(B.url),
           StatusFulfilled(B.url, "beta"), StatusFulfilled(A.url, "alpha")]).list == expected
      && Run(NodesState([A, B]), [
           StatusPending(A.url), StatusFulfilled(A.url, "alpha"),
           StatusPending(B.url), StatusFulfilled(B.url, "beta")]).list == expected
  {
    var s := NodesState([A, B]);
    var e1 := [StatusPending(A.url), StatusPending(B.url),
               StatusFulfilled(B.url, "beta"), StatusFulfilled(A.url, "alpha")];
    var e2 := [StatusPending(A.url), StatusFulfilled(A.url, "alpha"),
               StatusPending(B.url), StatusFulfilled(B.url, "beta")];
    ProbedNode(s, e1, 0, 3);
    ProbedNode(s, e1, 1, 2);
    ProbedNode(s, e2, 0, 1);
    ProbedNode(s, e2, 1, 3);
  }
}
