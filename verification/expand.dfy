/** The expand/collapse state of the nodes list view: which node's panel is
    open (`expandedNodeURL`, `null` when none) and whether block details are
    shown (`flagEnableBlock`). */
module Expand {
  import opened Wrappers
  import opened NodeTypes

  datatype ExpandState = ExpandState(expandedUrl: Option<string>, blocksEnabled: bool)

  /** The state the view mounts with: nothing expanded, details hidden. */
  const Initial: ExpandState := ExpandState(None, false)

  /** Details are shown exactly while some panel is expanded. */
  predicate Consistent(st: ExpandState) {
    st.blocksEnabled <==> st.expandedUrl.Some?
  }

  /** The panel of the node with this url is open; `null` matches no url. */
  predicate IsExpanded(st: ExpandState, url: string) {
    st.expandedUrl == Some(url)
  }

  /** A click on the panel of the node with `url`. Both state updates read
      the expanded url as it was before the click (the flag's updater
      ignores its previous value), so they form one transition. */
  function Toggle(st: ExpandState, url: string): (r: ExpandState)
    // clicking the open panel closes it and hides the details
    ensures IsExpanded(st, url) ==> r == Initial
    // clicking any other panel opens it (closing the previous one) and shows details
    ensures !IsExpanded(st, url) ==> IsExpanded(r, url) && r.blocksEnabled
    // whatever the state before, the flag agrees with the expanded url after
    ensures Consistent(r)
  {
    var same := st.expandedUrl == Some(url);
    ExpandState(if same then None else Some(url), !same)
  }

  /** The state after a sequence of clicks. */
  function ToggleAll(st: ExpandState, clicks: seq<string>): (r: ExpandState)
    ensures Consistent(st) ==> Consistent(r)
    ensures |clicks| > 0 ==> (IsExpanded(r, clicks[|clicks| - 1]) <==> r.blocksEnabled)
    // after a click, the only url that can be expanded is the last one clicked
    ensures |clicks| > 0 ==> r.expandedUrl == None || r.expandedUrl == Some(clicks[|clicks| - 1])
    decreases |clicks|
  {
    if |clicks| == 0 then st
    else Toggle(ToggleAll(st, clicks[..|clicks| - 1]), clicks[|clicks| - 1])
  }

  /** Every state the view can reach from mounting keeps the flag and the
      expanded url in agreement. */
  lemma ReachableIsConsistent(clicks: seq<string>)
    ensures Consistent(ToggleAll(Initial, clicks))
  {
  }

  /** Clicking a closed panel twice ends with everything closed; that is the
      starting state exactly when nothing was open to begin with. */
  lemma ToggleTwice(st: ExpandState, url: string)
    requires Consistent(st) && !IsExpanded(st, url)
    ensures Toggle(Toggle(st, url), url) == Initial
    ensures Toggle(Toggle(st, url), url) == st <==> st.expandedUrl.None?
  {
  }

  /** The `expanded` flag handed to each node's panel, in list order. */
  function Expansions(st: ExpandState, list: seq<Node>): (r: seq<bool>)
    ensures |r| == |list|
    ensures forall i :: 0 <= i < |list| ==> (r[i] <==> IsExpanded(st, list[i].url))
    // with one entry per url, at most one panel is expanded ...
    ensures UniqueUrls(list) ==>
      forall i, j :: 0 <= i < |r| && 0 <= j < |r| ==> (r[i] && r[j] ==> i == j)
    // ... and none while the details flag is off
    ensures Consistent(st) && !st.blocksEnabled ==> forall i :: 0 <= i < |r| ==> !r[i]
  {
    seq(|list|, i requires 0 <= i < |list| => IsExpanded(st, list[i].url))
  }

  /** After any click sequence from mounting, the only panel that can be
      open is that of the last node clicked; with one entry per url, at most
      one panel is open, and none when the details flag is off. */
  lemma AtMostOneExpanded(clicks: seq<string>, list: seq<Node>)
    requires UniqueUrls(list)
    ensures var st := ToggleAll(Initial, clicks);
      var r := Expansions(st, list);
      && (forall i :: 0 <= i < |list| && r[i] ==>
            |clicks| > 0 && list[i].url == clicks[|clicks| - 1])
      && (forall i, j :: 0 <= i < |list| && 0 <= j < |list| ==> (r[i] && r[j] ==> i == j))
      && (!st.blocksEnabled ==> forall i :: 0 <= i < |list| ==> !r[i])
  {
    ReachableIsConsistent(clicks);
  }
}
