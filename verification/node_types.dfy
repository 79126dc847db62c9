/** The record shapes of `src/types/Node.ts` and the registry that holds them. */
module NodeTypes {

  /** The `attributes` of one block. `index` and `timestamp` are JavaScript
      numbers; they are `int` here because every fixture value is an integer
      and the reducer never reads these fields, so the choice changes no
      transition. Hashes are opaque strings: the chain is never checked. */
  datatype Attributes = Attributes(
    index: int,
    timestamp: int,
    data: string,
    previousHash: string,
    hash: string)

  /** One block. The JSON field `type` is called `kind` here (`type` is a
      Dafny keyword). */
  datatype Block = Block(id: string, kind: string, attributes: Attributes)

  /** The per-node block history. Declared in TypeScript as a one-element
      tuple, but the reducer appends to it, so it is an unbounded sequence. */
  datatype Blocks = Blocks(loading: bool, data: seq<Block>)

  /** A node: exactly the fields online, name, url, loading and blocks.
      `loading` (status probe in flight) and `blocks.loading` (block fetch in
      flight) are separate fields. */
  datatype Node = Node(
    online: bool,
    name: string,
    url: string,
    loading: bool,
    blocks: Blocks)

  /** The slice of the store the reducer owns: `{ list: Node[] }`. */
  datatype NodesState = NodesState(list: seq<Node>)

  /** The placeholder block every seed node carries. */
  const EmptyBlock: Block := Block("", "", Attributes(0, 0, "", "", ""))

  /** A node as the registry is seeded with it: offline, idle, and holding
      only the placeholder block. */
  function SeedNode(url: string, name: string): Node
  {
    Node(false, name, url, false, Blocks(false, [EmptyBlock]))
  }

  /** The registry invariant: at most one node per url. */
  ghost predicate UniqueUrls(list: seq<Node>) {
    forall i, j :: 0 <= i < j < |list| ==> list[i].url != list[j].url
  }

  /** `after` has the same entries as `before`, in the same order: same
      length and the same url at every position. */
  ghost predicate SameShape(before: seq<Node>, after: seq<Node>) {
    && |after| == |before|
    && forall i :: 0 <= i < |before| ==> after[i].url == before[i].url
  }

  lemma SameShapeKeepsUniqueUrls(before: seq<Node>, after: seq<Node>)
    requires SameShape(before, after)
    ensures UniqueUrls(before) <==> UniqueUrls(after)
  {
  }
}
