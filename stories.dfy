/**
  The story graph as the generation service delivers it: a root node and a
  table of all nodes keyed by node id. It is read-only once loaded.
 */
module Stories {

  /** One option of a node: the text shown to the player and the node it leads to. */
  datatype Choice = Choice(text: string, nextNodeId: int)

  /** One story node. `isWinningEnding` is only meaningful on endings. */
  datatype Node = Node(
    id: int,
    content: string,
    isEnding: bool,
    isWinningEnding: bool,
    options: seq<Choice>)

  /** A complete story payload. `allNodes` is keyed by node id. */
  datatype Story = Story(
    id: int,
    title: string,
    createdAt: string,
    rootNode: Node,
    allNodes: map<int, Node>)

  /** The root node's id is a key of the node table (the loader does not check this). */
  predicate RootInTable(story: Story)
  {
    story.rootNode.id in story.allNodes
  }
}
