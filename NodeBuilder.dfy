/**
 * The block accumulator of src/main/java/com/catascopic/template/parse/NodeBuilder.java:
 * it collects the nodes of a block in order and hands an immutable copy of them
 * to the build method of its concrete subclass. The subclasses and what their
 * build methods make are not part of this model: building is modelled as the
 * request the builder passes to them, and whether a subclass overrides the
 * else-branch builder is a flag.
 */
module NodeBuilder {
  import opened Wrappers

  /** new Block(ImmutableList.copyOf(nodes)): a block is a value, so adding to the
      builder later cannot change a block already built. */
  datatype Block<N> = Block(nodes: seq<N>)

  /** The arguments the builder passes to build(Block) or build(Block, Node). */
  datatype Request<N> = Request(block: Block<N>, elseNode: Option<N>)

  /** The exception the default else-branch builder throws. */
  datatype BuildError = IllegalState(message: string)

  /** The message of that exception. */
  const ElseNotAllowed: string := "else not allowed"

  /** The default build(Block, Node): a builder that does not override it rejects an
      else branch. */
  function DefaultBuildElse<N>(block: Block<N>, elseNode: N): (r: Result<Request<N>, BuildError>)
    ensures r == Failure(IllegalState(ElseNotAllowed))
  {
    Failure(IllegalState(ElseNotAllowed))
  }

  class NodeBuilder<N> {
    /** The nodes added so far, in order. */
    var nodes: seq<N>
    /** Whether the concrete builder overrides build(Block, Node). */
    const acceptsElse: bool

    constructor (acceptsElse: bool)
      ensures nodes == [] && this.acceptsElse == acceptsElse
    {
      nodes := [];
      this.acceptsElse := acceptsElse;
    }

    /** add(node): the node goes at the end; the earlier nodes stay as they were. */
    method Add(node: N)
      modifies this`nodes
      ensures nodes == old(nodes) + [node]
      ensures |nodes| == |old(nodes)| + 1 && nodes[..|old(nodes)|] == old(nodes)
    {
      nodes := nodes + [node];
    }

    /** build(): a block holding exactly the added nodes, in insertion order; the
        builder keeps its nodes. */
    method Build() returns (r: Request<N>)
      ensures r.block.nodes == nodes && r.elseNode.None?
    {
      r := Request(Block(nodes), None);
    }

    /** buildElse(e): the same block plus the else branch, passed to build(Block, Node),
        which rejects it unless the concrete builder overrides it. */
    method BuildElse(elseNode: N) returns (r: Result<Request<N>, BuildError>)
      ensures acceptsElse ==> r == Success(Request(Block(nodes), Some(elseNode)))
      ensures !acceptsElse ==> r == Failure(IllegalState(ElseNotAllowed))
    {
      var block := Block(nodes);
      if acceptsElse {
        r := Success(Request(block, Some(elseNode)));
      } else {
        r := DefaultBuildElse(block, elseNode);
      }
    }
  }

  /** Adding after building leaves the built block as it was and the builder holding
      the block's nodes followed by the new one. */
  method BuildThenAdd<N>(builder: NodeBuilder<N>, node: N) returns (built: Block<N>)
    modifies builder
    ensures built.nodes == old(builder.nodes)
    ensures builder.nodes == built.nodes + [node]
  {
    var request := builder.Build();
    built := request.block;
    builder.Add(node);
  }
}
