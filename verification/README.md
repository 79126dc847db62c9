# Node synchronisation reducer — a Dafny model

This project models the state core of a dashboard that polls a fixed set of
network nodes. Each node's liveness and display name come from a status probe
(`checkNodeStatus`), and its block history comes from a block fetch
(`checkNodeBlocks`). Each run of these async operations dispatches a `pending`
action and then one `fulfilled` or `rejected` action. The nodes reducer folds
these actions into the registry, an ordered list of `Node` records. It finds
the target entry by url and rewrites only that entry's fields:

- status actions set `online`, `name` and `loading`;
- block actions set `blocks.loading` and append to `blocks.data`.

The model is pure Dafny with immutable datatypes. The real app can receive
the steps of its concurrent operations in any order. Here that is any finite
`seq<Action>`, folded through the reducer by `Run`. Separately, the model
covers the list view's expand/collapse state from `src/containers/Nodes.tsx`.

Modules, one per file:

- `NodeTypes` (`node_types.dfy`): the record shapes of `src/types/Node.ts`, the seed node, and the registry invariant (one entry per url).
- `NodeActions` (`actions.dfy`): the seven actions, and the two actions that one probe run or one fetch run dispatches.
- `NodesReducer` (`reducer.dfy`): lookup by url, the per-entry change `Apply`, one step `Reduce`, the store-facing `Reducer`, and `Run`.
- `StepLaws` (`step_laws.dfy`): the transition table, commutation and idempotence of single steps.
- `History` (`history.dfy`): a reference description of each node after any action sequence (`Expected`) that does not use the reducer, and the theorem that the reducer meets it.
- `Interleaving` (`interleaving.dfy`): order independence across nodes and across one node's two operations, and how a complete run settles a node.
- `Scenarios` (`scenarios.dfy`): the dispatch sequences of the store tests.
- `Expand` (`expand.dfy`): the toggle state machine of the list view.
- `Wrappers` (`wrappers.dfy`): `Option`.

The reducer source (`src/reducers/nodes.ts`) is not part of this model. Its
behaviour is taken from the assertions of `src/reducers/nodes.spec.ts` and
`src/store/store.spec.ts`. Two points that those tests leave open are decided
as follows:

- The reducer updates the first entry whose url equals the action's target (`Array.find` semantics). Under the registry invariant of one entry per url, this is the same as updating every matching entry.
- An action whose url matches no entry leaves the state unchanged.

Actions carry only the url of `meta.arg`. The store tests dispatch actions
built from stale seed records, and the live entries still change, so the
reducer cannot be matching whole records.

## Model

| member | source | states |
|---|---|---|
| NodeActions.StatusRun | src/reducers/nodes.spec.ts:260-301 | a status probe run dispatches exactly two actions for the node's url: `pending`, then one terminal action; it is `fulfilled` with the reported name exactly when the probe resolved |
| NodeActions.BlocksRun | src/reducers/nodes.spec.ts:303-372 | a block fetch run dispatches `pending` and then one terminal action for the same url; it is `fulfilled` with the received list exactly when the fetch resolved |
| NodesReducer.FindIndex | src/store/store.spec.ts:122-162 | the lookup returns the first position holding the url, and returns none exactly when no entry has that url |
| NodesReducer.Apply | src/reducers/nodes.spec.ts:68-226 | a step keeps the url; status steps leave blocks alone and block steps leave online/name/loading alone; only a successful probe renames; the block data only grows, and only on a successful fetch; a terminal step clears its own in-flight flag (status and block fields are disjoint, src/types/Node.ts:5-7) |
| NodesReducer.Reduce | src/store/store.spec.ts:169-258 | a step never adds, removes or reorders entries: same length, same url at each position |
| NodesReducer.ReduceFrame | src/reducers/nodes.spec.ts:68-226 | entries of other urls are untouched; the first entry with the target url takes the change; a later duplicate of that url does not |
| NodesReducer.ReduceUnique | src/reducers/nodes.spec.ts:68-84 | with unique urls, entry i becomes `Apply(entry, a)` when the action targets its url and is unchanged otherwise |
| NodesReducer.Reducer | src/reducers/nodes.spec.ts:61-66 | an unknown action on an undefined state yields the initial state; on a defined state it changes nothing |
| NodesReducer.Run | src/store/store.spec.ts:165 | any action sequence keeps the registry's length and url order |
| StepLaws.UndefinedStateIsInitial | src/reducers/nodes.spec.ts:61-66 | for every action, known or unknown, an undefined state behaves exactly as the initial registry given as a defined state |
| StepLaws.StatusPendingStep | src/reducers/nodes.spec.ts:68-84 | status `pending` sets only the target's `loading`; every other entry is unchanged |
| StepLaws.StatusFulfilledStep | src/reducers/nodes.spec.ts:86-108 | status `fulfilled` sets online, the reported name and loading = false on the target only |
| StepLaws.StatusRejectedStep | src/reducers/nodes.spec.ts:110-136 | status `rejected` sets offline and not loading, and keeps the name the node had |
| StepLaws.BlocksPendingStep | src/reducers/nodes.spec.ts:138-157 | blocks `pending` sets only the target's `blocks.loading`; its data is kept |
| StepLaws.BlocksFulfilledStep | src/reducers/nodes.spec.ts:159-196 | blocks `fulfilled` clears `blocks.loading` and sets data to old data followed by the payload, without deduplication |
| StepLaws.BlocksRejectedStep | src/reducers/nodes.spec.ts:198-226 | blocks `rejected` clears `blocks.loading` and keeps the data |
| StepLaws.ApplyStatusBlocksCommute | src/types/Node.ts:5-7 | `loading` and `blocks.loading` are separate fields, so a status step and a block step on one node commute |
| StepLaws.ReduceCommutes | src/store/store.spec.ts:123-165 | steps for different urls commute, and so do a status step and a block step for the same url |
| StepLaws.ReduceIdempotent | src/reducers/nodes.spec.ts:198-226 | dispatching any step twice equals dispatching it once, except a fetch that brought blocks |
| StepLaws.FetchTwiceAppendsTwice | src/reducers/nodes.spec.ts:159-196 | repeating a successful fetch appends its payload again, so it is idempotent exactly when the payload is empty |
| History.NodeRunIsExpected | src/reducers/nodes.spec.ts:68-226 | folding one node's steps yields the fields `Expected` gives: liveness, name and loading flags from the last step that sets each, and seed data followed by every block received |
| History.RunIsPointwise | src/store/store.spec.ts:122-261 | with unique urls, each registry entry after any sequence equals that node's own run of the sequence |
| History.RunIsExpected | src/store/store.spec.ts:122-384 | with unique urls, each entry after any sequence is exactly `Expected` of its seed |
| History.LastWriteWins | src/store/store.spec.ts:122-261 | a node's name is the name carried by the last successful probe for its url |
| History.NameNeverSetKeepsSeed | src/reducers/nodes.spec.ts:110-136 | a node with no successful probe keeps its seed name, however many probes failed |
| History.UntargetedUnchanged | src/store/store.spec.ts:236-257 | an entry whose url no action targets keeps its seed values exactly |
| History.AppendOnly | src/reducers/nodes.spec.ts:182-193 | every entry's earlier block data stays a prefix of its later block data |
| History.BlockActionsKeepStatus | src/store/store.spec.ts:292-357 | block actions never change online, name or loading set by earlier status actions |
| History.StatusActionsKeepBlocks | src/store/store.spec.ts:169-235 | status actions never change a node's blocks |
| History.EmptyFetchesKeepData | src/store/store.spec.ts:264-384 | successful fetches with empty payloads leave every block history unchanged, even when repeated |
| Interleaving.OrderIndependence | src/store/store.spec.ts:122-165 | two dispatch orders that keep each node's status steps and block steps in the same relative order give the same registry |
| Interleaving.TrackConcat | src/store/store.spec.ts:264-289 | the tracks of two batches dispatched in turn are the first batch's tracks followed by the second's |
| Interleaving.TwoNodeBatch | src/reducers/nodes.spec.ts:260-372 | for two nodes with one probe run and one fetch run each, dispatching run after run and dispatching every `pending` first with the results in another order give the same registry |
| Interleaving.RunConcat | src/store/store.spec.ts:264-289 | dispatching two batches in turn on one store is running the second on the result of the first |
| Interleaving.IdleAfterTerminalProbe | src/reducers/nodes.spec.ts:86-136 | a node whose last status step was terminal is not loading, and is online exactly when that step succeeded |
| Interleaving.IdleAfterTerminalFetch | src/reducers/nodes.spec.ts:159-226 | a node whose last block step was terminal is not fetching |
| Interleaving.ProbeRunSettles | src/reducers/nodes.spec.ts:260-301 | a complete probe run leaves the node idle and online exactly on success; it renames the node only on success and touches nothing else; any record with the node's url may start it |
| Interleaving.FetchRunSettles | src/reducers/nodes.spec.ts:303-372 | a complete fetch run leaves the node not fetching; the history is extended by exactly the blocks received (nothing on failure); nothing else changes |
| Interleaving.TrackOrderMatters | src/reducers/nodes.spec.ts:68-108 | a `pending` step that arrives after its probe's result leaves the node loading; in dispatch order it ends idle |
| Scenarios.StatusBurstOutcome | src/store/store.spec.ts:122-262 | after the eight probes, a.com is theta, b.com is epsilon and c.com is delta, all online; d.com keeps its seed values |
| Scenarios.EmptyFetchesOutcome | src/store/store.spec.ts:264-384 | the four empty fetches that follow leave the whole registry as the probes left it |
| Scenarios.InterleavedProbes | src/reducers/nodes.spec.ts:68-108 | for two nodes, interleaved probes and one-after-the-other probes both end with each node online under its own name |
| Expand.Toggle | src/containers/Nodes.tsx:25-36 | clicking the open panel collapses it (no url, details off); clicking any other panel makes it the expanded one with details on; afterwards the flag always agrees with the expanded url |
| Expand.ToggleAll | src/containers/Nodes.tsx:14-15 | any click sequence preserves "details on exactly when some url is expanded" |
| Expand.ReachableIsConsistent | src/containers/Nodes.tsx:14-36 | every state reachable from the initial (null, false) satisfies the flag/url agreement |
| Expand.ToggleTwice | src/containers/Nodes.tsx:25-36 | clicking a closed panel twice ends with everything collapsed, which is the start state exactly when nothing was expanded |
| Expand.Expansions | src/containers/Nodes.tsx:43-51 | the `expanded` flags handed to the panels, in list order: with one entry per url at most one is set, and none while the details flag is off |
| Expand.AtMostOneExpanded | src/containers/Nodes.tsx:14-47 | after any click sequence from mounting, the only panel that can be open is that of the last node clicked; with unique urls at most one panel is open, and none while the details flag is off |

## Left out

- `src/reducers/nodes.ts`, `src/reducers/initialState.ts` and `src/store/configureStore.ts` are not part of this model. The reducer is written from the test assertions. The initial registry is a parameter of `Reducer`.
- The HTTP transport and JSON parsing of the two thunks are network I/O. They appear only as an `Outcome`: a parsed body or a failure message. The reducer ignores the message.
- The mount effect that dispatches one probe batch and one fetch batch for every node (`src/containers/Nodes.tsx:19-23`) is fire-and-forget wiring. A batch is any sequence containing the runs. `OrderIndependence` covers every order in which those runs' steps can arrive, and `TwoNodeBatch` shows it for a two-node batch; the general N-node batch is not stated as its own lemma.
- Promises and real async interleaving are not modelled. Any completion order is a `seq<Action>`.
- Redux Toolkit store wiring and middleware typing (`src/store/store.spec.ts:103-119`) are library plumbing.
- Rendering in `src/components/Node.tsx` is presentational. That covers the `"Unknown"` name fallback and hiding blocks with an empty id.
- Block hashes are opaque strings. The chain is not checked, by the code or here.
- `index` and `timestamp` are JavaScript numbers. They are modelled as unbounded integers: every fixture value is an integer, and the reducer never reads these fields, so modelling them as `int` changes no transition. Floating point is not modelled.
- Expand.Toggle: React applies the two state updates of one click together, and both read the pre-click expanded url. The model makes one click one atomic transition. Clicks faster than a re-render are not modelled.
- A timeout or cancellation policy for a hung request does not exist in the code. A run that never ends leaves its loading flag set, which the model shows by simply not dispatching the terminal step.

## Notes

- Clicking one panel twice restores the previous state only when no panel was open before. If another panel was open, the two clicks end with every panel closed (`Expand.ToggleTwice`).
- The registry's final state does not depend on arrival order only while each operation's `pending` arrives before its result. A `pending` that arrives after its result leaves the node loading (`Interleaving.TrackOrderMatters`). Across nodes, and between one node's probe and fetch, any order gives the same registry (`Interleaving.OrderIndependence`).
