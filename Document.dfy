/**
 * The private segment loop of src/main/java/au/com/codeka/carrot/tmpl/Document.java,
 * which turns the segments of a template into a tree of nodes.
 *
 * The node classes, the tag factory and the segment lexer are not part of this
 * model. A segment carries, as flags, the answers of the predicates the loop
 * asks about it: whether its tag is an end-block tag, whether the current node
 * can chain to it, and whether the node made from it is a block node. Nodes are
 * values: a node under construction has a body and the chain of tags attached
 * to it; adding a child puts it into the body of the last chained tag, or into
 * the node's own body when nothing is chained, so the node returned stands for
 * the Java node after all the `add` calls made on it and on what it chained to.
 *
 * The loop is modelled as written, including the missing `break` after the TAG
 * case: every tag that does not end a block falls through into the FIXED case
 * and is added as a fixed node.
 */
module Document {
  import opened Wrappers

  /** The four kinds of template segment. */
  datatype SegmentType = Comment | Echo | Tag | Fixed

  /** A segment, with the answers of the unseen predicates about it:
      `endBlock` is TagNode.create(segment).isEndBlock(), `chainable` is
      current.canChain(tagNode), `opensBlock` is childNode.isBlockNode(). */
  datatype Segment = Segment(kind: SegmentType, text: string, endBlock: bool, chainable: bool, opensBlock: bool)

  /** What made a node: the document root, TagNode.createEcho, TagNode.create or
      FixedNode.create. */
  datatype Origin = Root | EchoNode(segment: Segment) | TagNode(segment: Segment) | FixedNode(segment: Segment)

  /** A node: its children and the tags chained to it, in order. */
  datatype Node = Node(origin: Origin, body: seq<Node>, links: seq<Link>)

  /** A tag chained to a node, with the children added after it was chained. */
  datatype Link = Link(tag: Segment, body: seq<Node>)

  /** A fresh node with no children. */
  function Leaf(origin: Origin): Node
  {
    Node(origin, [], [])
  }

  /** current.add(child): the child goes after everything added so far. */
  function Add(node: Node, child: Node): (r: Node)
    ensures r.origin == node.origin && |r.links| == |node.links|
    ensures Flatten(r) == Flatten(node) + Flatten(child)
  {
    if node.links == [] then
      FlattenNodesAppend(node.body, child);
      node.(body := node.body + [child])
    else
      var k := |node.links| - 1;
      var last := node.links[k];
      var links := node.links[..k] + [Link(last.tag, last.body + [child])];
      FlattenNodesAppend(last.body, child);
      FlattenLinksAppend(node.links[..k], last);
      FlattenLinksAppend(node.links[..k], Link(last.tag, last.body + [child]));
      assert node.links == node.links[..k] + [last];
      node.(links := links)
  }

  /** current.chain(tag): later children go after the chained tag. */
  function Chain(node: Node, tag: Segment): (r: Node)
    ensures r.origin == node.origin && r.body == node.body
    ensures Flatten(r) == Flatten(node) + [Chained(tag)]
  {
    FlattenLinksAppend(node.links, Link(tag, []));
    node.(links := node.links + [Link(tag, [])])
  }

  /** What a walk through a tree meets, in document order. */
  datatype Event = Added(origin: Origin) | Chained(tag: Segment)

  /** The nodes of a tree and its chained tags in document order: a node, then its
      body, then each chained tag followed by the children added after it. */
  function Flatten(node: Node): seq<Event>
  {
    [Added(node.origin)] + FlattenNodes(node.body) + FlattenLinks(node.links)
  }

  function FlattenNodes(nodes: seq<Node>): seq<Event>
  {
    if nodes == [] then [] else Flatten(nodes[0]) + FlattenNodes(nodes[1..])
  }

  function FlattenLinks(links: seq<Link>): seq<Event>
  {
    if links == [] then [] else [Chained(links[0].tag)] + FlattenNodes(links[0].body) + FlattenLinks(links[1..])
  }

  lemma {:induction false} FlattenNodesAppend(nodes: seq<Node>, child: Node)
    ensures FlattenNodes(nodes + [child]) == FlattenNodes(nodes) + Flatten(child)
  {
    if nodes == [] {
      assert [child][1..] == [];
    } else {
      assert (nodes + [child])[1..] == nodes[1..] + [child];
      FlattenNodesAppend(nodes[1..], child);
    }
  }

  lemma {:induction false} FlattenLinksAppend(links: seq<Link>, link: Link)
    ensures FlattenLinks(links + [link]) == FlattenLinks(links) + [Chained(link.tag)] + FlattenNodes(link.body)
  {
    if links == [] {
      assert [link][1..] == [];
    } else {
      assert (links + [link])[1..] == links[1..] + [link];
      FlattenLinksAppend(links[1..], link);
    }
  }

  /** An end-block tag: it closes the block being filled. */
  predicate IsEndTag(s: Segment)
  {
    s.kind == Tag && s.endBlock
  }

  /** The node the loop adds for a segment that is neither a comment nor an end tag:
      an echo node for ECHO; for TAG, after the fall-through, a fixed node, as for FIXED. */
  function ChildOf(s: Segment): (r: Node)
    ensures r.body == [] && r.links == []
    ensures r.origin.EchoNode? <==> s.kind == Echo
    ensures !r.origin.TagNode? && !r.origin.Root? && r.origin.segment == s
  {
    if s.kind == Echo then Leaf(EchoNode(s)) else Leaf(FixedNode(s))
  }

  /** The segment loop as a function: from position p of the segments, the node after
      the loop and the position after the last segment it reads. */
  function Fill(segs: seq<Segment>, p: nat, node: Node): (r: (Node, nat))
    requires p <= |segs|
    decreases |segs| - p
    ensures p <= r.1 <= |segs|
  {
    if p == |segs| then (node, p)
    else
      var s := segs[p];
      if s.kind == Comment then Fill(segs, p + 1, node)
      else if IsEndTag(s) then (node, p + 1)
      else
        var current := Current(node, s);
        if s.opensBlock then
          var inner := Fill(segs, p + 1, ChildOf(s));
          Fill(segs, inner.1, Add(current, inner.0))
        else
          Fill(segs, p + 1, Add(current, ChildOf(s)))
  }

  /** The node children go to after a segment: the node chained to the segment's tag
      when the tag can be chained, the same node otherwise. */
  function Current(node: Node, s: Segment): (r: Node)
    ensures s.kind == Tag && s.chainable ==> Flatten(r) == Flatten(node) + [Chained(s)]
    ensures !(s.kind == Tag && s.chainable) ==> r == node
  {
    if s.kind == Tag && s.chainable then Chain(node, s) else node
  }

  /** One turn of the loop on a segment that adds a node: the node is filled first
      when it is a block node, then added. */
  lemma AddStep(segs: seq<Segment>, p: nat, node: Node)
    requires p < |segs| && segs[p].kind != Comment && !IsEndTag(segs[p])
    ensures !segs[p].opensBlock ==>
              Fill(segs, p, node) == Fill(segs, p + 1, Add(Current(node, segs[p]), ChildOf(segs[p])))
    ensures segs[p].opensBlock ==>
              Fill(segs, p, node) ==
              Fill(segs, Fill(segs, p + 1, ChildOf(segs[p])).1,
                   Add(Current(node, segs[p]), Fill(segs, p + 1, ChildOf(segs[p])).0))
  {
  }

  /** What one segment contributes to the tree. */
  function Events(s: Segment): (r: seq<Event>)
    ensures |r| <= 2
  {
    match s.kind
    case Comment => []
    case Echo => [Added(EchoNode(s))]
    case Fixed => [Added(FixedNode(s))]
    case Tag =>
      if s.endBlock then []
      else (if s.chainable then [Chained(s)] else []) + [Added(FixedNode(s))]
  }

  /** What a run of segments contributes, in order. */
  function AllEvents(segs: seq<Segment>): seq<Event>
  {
    if segs == [] then [] else Events(segs[0]) + AllEvents(segs[1..])
  }

  lemma {:induction false} AllEventsAppend(a: seq<Segment>, b: seq<Segment>)
    ensures AllEvents(a + b) == AllEvents(a) + AllEvents(b)
  {
    if a == [] {
      assert a + b == b;
    } else {
      assert (a + b)[1..] == a[1..] + b;
      AllEventsAppend(a[1..], b);
    }
  }

  /** The events of consecutive runs of segments follow each other. */
  lemma AllEventsSplit(segs: seq<Segment>, p: nat, q: nat, r: nat)
    requires p <= q <= r <= |segs|
    ensures AllEvents(segs[p..r]) == AllEvents(segs[p..q]) + AllEvents(segs[q..r])
  {
    assert segs[p..r] == segs[p..q] + segs[q..r];
    AllEventsAppend(segs[p..q], segs[q..r]);
  }

  /** The events of a run that starts with segment p. */
  lemma AllEventsFirst(segs: seq<Segment>, p: nat, r: nat)
    requires p < r <= |segs|
    ensures AllEvents(segs[p..r]) == Events(segs[p]) + AllEvents(segs[p + 1..r])
  {
    assert segs[p..r][1..] == segs[p + 1..r];
  }

  /** The tree after the loop is the tree before it followed by what each consumed
      segment contributes, in segment order: comments and end tags add nothing, a
      chained tag is chained and then added as a fixed node, every other segment
      adds exactly one node, and the children of a block node come right after it. */
  lemma {:induction false} FillEvents(segs: seq<Segment>, p: nat, node: Node)
    requires p <= |segs|
    ensures Flatten(Fill(segs, p, node).0) == Flatten(node) + AllEvents(segs[p..Fill(segs, p, node).1])
    decreases |segs| - p, 1
  {
    if p < |segs| {
      var s := segs[p];
      if s.kind == Comment {
        AllEventsFirst(segs, p, Fill(segs, p, node).1);
        FillEvents(segs, p + 1, node);
      } else if IsEndTag(s) {
        AllEventsFirst(segs, p, p + 1);
      } else if s.opensBlock {
        BlockEvents(segs, p, node);
      } else {
        LeafEvents(segs, p, node);
      }
    }
  }

  /** FillEvents for a segment that adds a node that is not a block node. */
  lemma {:induction false} LeafEvents(segs: seq<Segment>, p: nat, node: Node)
    requires p < |segs| && segs[p].kind != Comment && !IsEndTag(segs[p]) && !segs[p].opensBlock
    ensures Flatten(Fill(segs, p, node).0) == Flatten(node) + AllEvents(segs[p..Fill(segs, p, node).1])
    decreases |segs| - p, 0
  {
    var s := segs[p];
    var added := Add(Current(node, s), ChildOf(s));
    var r := Fill(segs, p + 1, added);
    AddStep(segs, p, node);
    FillEvents(segs, p + 1, added);
    PlaceEvents(node, s, ChildOf(s), []);
    AllEventsFirst(segs, p, r.1);
    Glue(Flatten(r.0), Flatten(added), Flatten(node), Events(s), AllEvents(segs[p + 1..r.1]), AllEvents(segs[p..r.1]));
  }

  /** Joins the events of one step to those of the rest of the loop. */
  lemma Glue(filled: seq<Event>, added: seq<Event>, before: seq<Event>, step: seq<Event>, rest: seq<Event>, all: seq<Event>)
    requires filled == added + rest && added == before + step + [] && all == step + rest
    ensures filled == before + all
  {
  }

  /** FillEvents for a segment that adds a block node: the block's own segments come
      right after it, then the segments read after the block closes. */
  lemma {:induction false} BlockEvents(segs: seq<Segment>, p: nat, node: Node)
    requires p < |segs| && segs[p].kind != Comment && !IsEndTag(segs[p]) && segs[p].opensBlock
    ensures Flatten(Fill(segs, p, node).0) == Flatten(node) + AllEvents(segs[p..Fill(segs, p, node).1])
    decreases |segs| - p, 0
  {
    var s := segs[p];
    var q := Fill(segs, p, node).1;
    var inner := Fill(segs, p + 1, ChildOf(s));
    var added := Add(Current(node, s), inner.0);
    AddStep(segs, p, node);
    assert Fill(segs, p, node) == Fill(segs, inner.1, added);
    var a := AllEvents(segs[p + 1..inner.1]);
    var b := AllEvents(segs[inner.1..q]);
    FillEvents(segs, p + 1, ChildOf(s));
    PlaceEvents(node, s, inner.0, a);
    FillEvents(segs, inner.1, added);
    assert Flatten(Fill(segs, p, node).0) == Flatten(added) + b;
    AllEventsFirst(segs, p, q);
    AllEventsSplit(segs, p + 1, inner.1, q);
    assert AllEvents(segs[p..q]) == Events(s) + (a + b);
    Associate(Flatten(node), Events(s), a, b);
  }

  lemma Associate(w: seq<Event>, x: seq<Event>, y: seq<Event>, z: seq<Event>)
    ensures w + x + y + z == w + (x + (y + z))
  {
  }

  /** Adding the node made for a segment, after what was read into it, contributes
      the segment's events and then what was read. */
  lemma PlaceEvents(node: Node, s: Segment, filled: Node, read: seq<Event>)
    requires s.kind != Comment && !IsEndTag(s)
    requires Flatten(filled) == Flatten(ChildOf(s)) + read
    ensures Flatten(Add(Current(node, s), filled)) == Flatten(node) + Events(s) + read
  {
    assert Flatten(ChildOf(s)) == [Added(ChildOf(s).origin)];
  }

  /** The children of a node, in the order they were added: its own body, then
      the body of each chained tag. */
  function Children(node: Node): seq<Node>
  {
    node.body + LinkChildren(node.links)
  }

  function LinkChildren(links: seq<Link>): seq<Node>
  {
    if links == [] then [] else links[0].body + LinkChildren(links[1..])
  }

  lemma {:induction false} LinkChildrenAppend(links: seq<Link>, link: Link)
    ensures LinkChildren(links + [link]) == LinkChildren(links) + link.body
  {
    if links == [] {
      assert [link][1..] == [];
    } else {
      assert (links + [link])[1..] == links[1..] + [link];
      LinkChildrenAppend(links[1..], link);
    }
  }

  /** add puts the child after all the children so far; chain adds none. */
  lemma AddChildren(node: Node, s: Segment, child: Node)
    ensures Children(Current(node, s)) == Children(node)
    ensures Children(Add(Current(node, s), child)) == Children(node) + [child]
  {
    if s.kind == Tag && s.chainable {
      LinkChildrenAppend(node.links, Link(s, []));
    }
    var current := Current(node, s);
    if current.links != [] {
      var k := |current.links| - 1;
      var last := current.links[k];
      assert current.links == current.links[..k] + [last];
      LinkChildrenAppend(current.links[..k], last);
      LinkChildrenAppend(current.links[..k], Link(last.tag, last.body + [child]));
    }
  }

  /** The loop only ever adds children after the ones already there: a node added
      once stays, unchanged and in its place. */
  lemma {:induction false} FillKeepsChildren(segs: seq<Segment>, p: nat, node: Node)
    requires p <= |segs|
    ensures Children(node) <= Children(Fill(segs, p, node).0)
    decreases |segs| - p
  {
    if p < |segs| {
      var s := segs[p];
      if s.kind == Comment {
        FillKeepsChildren(segs, p + 1, node);
      } else if !IsEndTag(s) {
        AddStep(segs, p, node);
        var child := if s.opensBlock then Fill(segs, p + 1, ChildOf(s)).0 else ChildOf(s);
        var next := if s.opensBlock then Fill(segs, p + 1, ChildOf(s)).1 else p + 1;
        AddChildren(node, s, child);
        FillKeepsChildren(segs, next, Add(Current(node, s), child));
      }
    }
  }

  /** The nesting of blocks: for a segment that opens a block, the child the loop adds
      next is the segment's own node filled by a nested run of the loop from the
      following segment. That run reads up to and including the first end-block tag
      not matched by a block opener inside it, which closes the block, or to the end
      of the input when there is none. Exactly the segments of that run are inside
      the block; the loop then goes on after them at the outer level. */
  lemma BlockNesting(segs: seq<Segment>, p: nat, node: Node)
    requires p < |segs| && segs[p].kind != Comment && !IsEndTag(segs[p]) && segs[p].opensBlock
    ensures var inner := Fill(segs, p + 1, ChildOf(segs[p]));
            |Children(Fill(segs, p, node).0)| > |Children(node)| &&
            Children(Fill(segs, p, node).0)[..|Children(node)| + 1] == Children(node) + [inner.0] &&
            inner.0.origin == ChildOf(segs[p]).origin &&
            Flatten(inner.0) == Flatten(ChildOf(segs[p])) + AllEvents(segs[p + 1..inner.1]) &&
            (inner.1 == |segs| || IsEndTag(segs[inner.1 - 1])) &&
            StopsAt(segs, p + 1, inner.1) &&
            Fill(segs, p, node) == Fill(segs, inner.1, Add(Current(node, segs[p]), inner.0))
  {
    var s := segs[p];
    var inner := Fill(segs, p + 1, ChildOf(s));
    AddStep(segs, p, node);
    AddChildren(node, s, inner.0);
    FillKeepsChildren(segs, inner.1, Add(Current(node, s), inner.0));
    FillEvents(segs, p + 1, ChildOf(s));
    StopsAfterEndTag(segs, p + 1, ChildOf(s));
    FillStopsAtMatchingEnd(segs, p + 1, ChildOf(s));
    FillOrigin(segs, p + 1, ChildOf(s));
  }

  /** A segment that does not open a block: the child the loop adds next is the
      segment's own node, with nothing inside it. */
  lemma LeafNesting(segs: seq<Segment>, p: nat, node: Node)
    requires p < |segs| && segs[p].kind != Comment && !IsEndTag(segs[p]) && !segs[p].opensBlock
    ensures |Children(Fill(segs, p, node).0)| > |Children(node)|
    ensures Children(Fill(segs, p, node).0)[..|Children(node)| + 1] == Children(node) + [ChildOf(segs[p])]
    ensures Children(ChildOf(segs[p])) == []
  {
    var s := segs[p];
    AddStep(segs, p, node);
    AddChildren(node, s, ChildOf(s));
    FillKeepsChildren(segs, p + 1, Add(Current(node, s), ChildOf(s)));
  }

  /** Filling a node keeps what made it. */
  lemma {:induction false} FillOrigin(segs: seq<Segment>, p: nat, node: Node)
    requires p <= |segs|
    ensures Fill(segs, p, node).0.origin == node.origin
    decreases |segs| - p
  {
    if p < |segs| {
      var s := segs[p];
      if s.kind == Comment {
        FillOrigin(segs, p + 1, node);
      } else if !IsEndTag(s) {
        AddStep(segs, p, node);
        if s.opensBlock {
          var inner := Fill(segs, p + 1, ChildOf(s));
          FillOrigin(segs, inner.1, Add(Current(node, s), inner.0));
        } else {
          FillOrigin(segs, p + 1, Add(Current(node, s), ChildOf(s)));
        }
      }
    }
  }

  /** End of input ends the loop without error: when no end-block tag comes, every
      segment is consumed, so blocks still open are closed by the end of the input. */
  lemma {:induction false} EndOfInputClosesAll(segs: seq<Segment>, p: nat, node: Node)
    requires p <= |segs|
    requires forall i :: p <= i < |segs| ==> !IsEndTag(segs[i])
    ensures Fill(segs, p, node).1 == |segs|
    decreases |segs| - p
  {
    if p < |segs| {
      var s := segs[p];
      if s.kind == Comment {
        EndOfInputClosesAll(segs, p + 1, node);
      } else {
        AddStep(segs, p, node);
        var current := Current(node, s);
        if s.opensBlock {
          EndOfInputClosesAll(segs, p + 1, ChildOf(s));
          EndOfInputClosesAll(segs, |segs|, Add(current, Fill(segs, p + 1, ChildOf(s)).0));
        } else {
          EndOfInputClosesAll(segs, p + 1, Add(current, ChildOf(s)));
        }
      }
    }
  }

  /** The loop stops before the end of the input only right after an end-block tag,
      which it consumes without adding it. */
  lemma {:induction false} StopsAfterEndTag(segs: seq<Segment>, p: nat, node: Node)
    requires p <= |segs|
    ensures Fill(segs, p, node).1 == |segs| || IsEndTag(segs[Fill(segs, p, node).1 - 1])
    decreases |segs| - p
  {
    if p < |segs| {
      var s := segs[p];
      if s.kind == Comment {
        StopsAfterEndTag(segs, p + 1, node);
      } else if IsEndTag(s) {
      } else {
        AddStep(segs, p, node);
        var current := Current(node, s);
        if s.opensBlock {
          var inner := Fill(segs, p + 1, ChildOf(s));
          StopsAfterEndTag(segs, inner.1, Add(current, inner.0));
        } else {
          StopsAfterEndTag(segs, p + 1, Add(current, ChildOf(s)));
        }
      }
    }
  }

  /** An end-block tag read by the loop returns from the current level at once: it is
      consumed, and the node is returned as it was, without the tag. */
  lemma EndTagCloses(segs: seq<Segment>, p: nat, node: Node)
    requires p < |segs| && IsEndTag(segs[p])
    ensures Fill(segs, p, node) == (node, p + 1)
  {
  }

  /** How a segment changes the number of open blocks: a block node opens one, an
      end-block tag closes one, and every other segment leaves the number alone. */
  function Depth(s: Segment): int
  {
    if IsEndTag(s) then -1
    else if s.kind != Comment && s.opensBlock then 1
    else 0
  }

  /** The block openers minus the end-block tags of a run of segments. */
  function Balance(segs: seq<Segment>): int
  {
    if segs == [] then 0 else Depth(segs[0]) + Balance(segs[1..])
  }

  lemma {:induction false} BalanceAppend(a: seq<Segment>, b: seq<Segment>)
    ensures Balance(a + b) == Balance(a) + Balance(b)
  {
    if a == [] {
      assert a + b == b;
    } else {
      assert (a + b)[1..] == a[1..] + b;
      BalanceAppend(a[1..], b);
    }
  }

  lemma BalanceSplit(segs: seq<Segment>, p: nat, q: nat, r: nat)
    requires p <= q <= r <= |segs|
    ensures Balance(segs[p..r]) == Balance(segs[p..q]) + Balance(segs[q..r])
  {
    assert segs[p..r] == segs[p..q] + segs[q..r];
    BalanceAppend(segs[p..q], segs[q..r]);
  }

  /** A level that starts at p stops at q: every run from p that ends before q has at
      least as many block openers as end-block tags, and the run from p to q has one
      end-block tag more than openers, or reaches the end of the input with blocks
      still open. */
  predicate StopsAt(segs: seq<Segment>, p: nat, q: nat)
    requires p <= q <= |segs|
  {
    (forall r :: p <= r < q ==> Balance(segs[p..r]) >= 0) &&
    (Balance(segs[p..q]) == -1 || (q == |segs| && Balance(segs[p..q]) >= 0))
  }

  /** The stopping point of a level is determined by the segments alone. */
  lemma StopsAtUnique(segs: seq<Segment>, p: nat, q1: nat, q2: nat)
    requires p <= q1 <= |segs| && p <= q2 <= |segs|
    requires StopsAt(segs, p, q1) && StopsAt(segs, p, q2)
    ensures q1 == q2
  {
  }

  /** Where the loop stops, counted independently of it: every run read before the
      stop has at least as many block openers as end-block tags, and the run read up
      to the stop has one end-block tag more than openers, which is the end tag that
      closes this level, or else reaches the end of the input with blocks still open.
      So the loop stops right after the first end-block tag that is not matched by an
      opener it read, and only reaches the end of the input when there is none. */
  lemma {:induction false} FillStopsAtMatchingEnd(segs: seq<Segment>, p: nat, node: Node)
    requires p <= |segs|
    ensures StopsAt(segs, p, Fill(segs, p, node).1)
    decreases |segs| - p, 1
  {
    if p == |segs| {
      assert segs[p..p] == [];
    } else if IsEndTag(segs[p]) {
      EndTagStops(segs, p);
    } else if segs[p].kind == Comment {
      FillStopsAtMatchingEnd(segs, p + 1, node);
      LevelStep(segs, p, p + 1, Fill(segs, p + 1, node).1);
    } else if !segs[p].opensBlock {
      LeafStops(segs, p, node);
    } else {
      BlockStops(segs, p, node);
    }
  }

  /** FillStopsAtMatchingEnd for a segment that adds a node that is not a block node. */
  lemma {:induction false} LeafStops(segs: seq<Segment>, p: nat, node: Node)
    requires p < |segs| && segs[p].kind != Comment && !IsEndTag(segs[p]) && !segs[p].opensBlock
    ensures StopsAt(segs, p, Fill(segs, p, node).1)
    decreases |segs| - p, 0
  {
    var after := Add(Current(node, segs[p]), ChildOf(segs[p]));
    AddStep(segs, p, node);
    FillStopsAtMatchingEnd(segs, p + 1, after);
    LevelStep(segs, p, p + 1, Fill(segs, p + 1, after).1);
  }

  /** FillStopsAtMatchingEnd for a segment that opens a block: the nested level either
      ends with the tag that closes the block, and this level goes on after it, or
      reaches the end of the input, and so does this level. */
  lemma {:induction false} BlockStops(segs: seq<Segment>, p: nat, node: Node)
    requires p < |segs| && segs[p].kind != Comment && !IsEndTag(segs[p]) && segs[p].opensBlock
    ensures StopsAt(segs, p, Fill(segs, p, node).1)
    decreases |segs| - p, 0
  {
    var inner := Fill(segs, p + 1, ChildOf(segs[p]));
    var after := Add(Current(node, segs[p]), inner.0);
    AddStep(segs, p, node);
    FillStopsAtMatchingEnd(segs, p + 1, ChildOf(segs[p]));
    OpenerStep(segs, p, inner.1);
    if Balance(segs[p + 1..inner.1]) == -1 {
      FillStopsAtMatchingEnd(segs, inner.1, after);
      LevelStep(segs, p, inner.1, Fill(segs, inner.1, after).1);
    }
  }

  /** An end-block tag on its own ends a level. */
  lemma EndTagStops(segs: seq<Segment>, p: nat)
    requires p < |segs| && IsEndTag(segs[p])
    ensures StopsAt(segs, p, p + 1)
  {
    assert segs[p..p + 1] == [segs[p]];
    assert segs[p..p] == [];
  }

  /** A balanced run followed by a level that stops at q makes a level that stops at q. */
  lemma LevelStep(segs: seq<Segment>, p: nat, next: nat, q: nat)
    requires p < next <= q <= |segs|
    requires forall r :: p <= r <= next ==> Balance(segs[p..r]) >= 0
    requires Balance(segs[p..next]) == 0
    requires StopsAt(segs, next, q)
    ensures StopsAt(segs, p, q)
  {
    forall r | next <= r <= q
      ensures Balance(segs[p..r]) == Balance(segs[next..r])
    {
      BalanceSplit(segs, p, next, r);
    }
  }

  /** A block opener followed by a level that stops at q: when that level ends with the
      tag that closes the block, the run up to q is balanced; otherwise the input ended
      inside the block and the outer level stops there too. */
  lemma OpenerStep(segs: seq<Segment>, p: nat, q: nat)
    requires p < q <= |segs| && Depth(segs[p]) == 1 && StopsAt(segs, p + 1, q)
    ensures Balance(segs[p + 1..q]) == -1 ==>
              Balance(segs[p..q]) == 0 && forall r :: p <= r <= q ==> Balance(segs[p..r]) >= 0
    ensures Balance(segs[p + 1..q]) != -1 ==> q == |segs| && StopsAt(segs, p, q)
  {
    assert Balance(segs[p..p]) == 0 by {
      assert segs[p..p] == [];
    }
    assert Balance(segs[p..p + 1]) == 1 by {
      assert segs[p..p + 1] == [segs[p]];
    }
    forall r | p < r <= q
      ensures Balance(segs[p..r]) == 1 + Balance(segs[p + 1..r])
    {
      BalanceSplit(segs, p, p + 1, r);
    }
  }

  /** Every consumed tag that does not end a block is added as a fixed node: the
      TAG case falls through into FIXED, so the tag node made for it is never added. */
  lemma TagsBecomeFixed(segs: seq<Segment>, p: nat, node: Node, i: nat)
    requires p <= |segs| && p <= i < Fill(segs, p, node).1
    requires segs[i].kind == Tag && !segs[i].endBlock
    requires Added(TagNode(segs[i])) !in Flatten(node)
    ensures Added(FixedNode(segs[i])) in Flatten(Fill(segs, p, node).0)
    ensures Added(TagNode(segs[i])) !in Flatten(Fill(segs, p, node).0)
  {
    var q := Fill(segs, p, node).1;
    var s := segs[i];
    FillEvents(segs, p, node);
    AllEventsSplit(segs, p, i, q);
    AllEventsFirst(segs, i, q);
    NoTagNodes(segs[p..i], s);
    NoTagNodes(segs[i + 1..q], s);
    assert Added(FixedNode(s)) in Events(s);
  }

  /** No segment contributes a tag node. */
  lemma {:induction false} NoTagNodes(segs: seq<Segment>, s: Segment)
    ensures Added(TagNode(s)) !in AllEvents(segs)
  {
    if segs != [] {
      NoTagNodes(segs[1..], s);
    }
  }

  /** The number of nodes among some events. */
  function CountAdded(events: seq<Event>): nat
  {
    if events == [] then 0 else (if events[0].Added? then 1 else 0) + CountAdded(events[1..])
  }

  lemma {:induction false} CountAddedAppend(a: seq<Event>, b: seq<Event>)
    ensures CountAdded(a + b) == CountAdded(a) + CountAdded(b)
  {
    if a == [] {
      assert a + b == b;
    } else {
      assert (a + b)[1..] == a[1..] + b;
      CountAddedAppend(a[1..], b);
    }
  }

  /** The segments that add a node: all but comments and end-block tags. */
  function Adding(segs: seq<Segment>): nat
  {
    if segs == [] then 0
    else (if segs[0].kind != Comment && !IsEndTag(segs[0]) then 1 else 0) + Adding(segs[1..])
  }

  lemma {:induction false} CountAllEvents(segs: seq<Segment>)
    ensures CountAdded(AllEvents(segs)) == Adding(segs)
  {
    if segs != [] {
      CountAddedAppend(Events(segs[0]), AllEvents(segs[1..]));
      CountAllEvents(segs[1..]);
      var s := segs[0];
      if s.kind == Tag && !s.endBlock && s.chainable {
        CountAddedAppend([Chained(s)], [Added(FixedNode(s))]);
      }
    }
  }

  /** Each consumed segment adds at most one node: exactly one for an echo, a tag
      that does not end a block, or a fixed segment, none for the rest. */
  lemma OneNodePerSegment(segs: seq<Segment>, p: nat, node: Node)
    requires p <= |segs|
    ensures CountAdded(Flatten(Fill(segs, p, node).0)) ==
            CountAdded(Flatten(node)) + Adding(segs[p..Fill(segs, p, node).1])
    ensures Adding(segs[p..Fill(segs, p, node).1]) <= Fill(segs, p, node).1 - p
  {
    var consumed := segs[p..Fill(segs, p, node).1];
    FillEvents(segs, p, node);
    CountAddedAppend(Flatten(node), AllEvents(consumed));
    CountAllEvents(consumed);
    AddingBound(consumed);
  }

  lemma {:induction false} AddingBound(segs: seq<Segment>)
    ensures Adding(segs) <= |segs|
  {
    if segs != [] {
      AddingBound(segs[1..]);
    }
  }

  /** The segment parser: the segments of a template and how many it has handed out. */
  class SegmentReader {
    const segments: seq<Segment>
    var pos: nat

    ghost predicate Valid()
      reads this
    {
      pos <= |segments|
    }

    constructor (segments: seq<Segment>)
      ensures this.segments == segments && pos == 0 && Valid()
    {
      this.segments := segments;
      pos := 0;
    }

    /** parser.getNext(): the next segment, or nothing (Java's null) at the end. */
    method GetNext() returns (s: Option<Segment>)
      requires Valid()
      modifies this`pos
      ensures Valid()
      ensures old(pos) < |segments| ==> s == Some(segments[old(pos)]) && pos == old(pos) + 1
      ensures old(pos) == |segments| ==> s.None? && pos == old(pos)
    {
      if pos < |segments| {
        s := Some(segments[pos]);
        pos := pos + 1;
      } else {
        s := None;
      }
    }
  }

  /** Document.parse(parser, node, config): reads segments into `node` until the
      input ends or an end-block tag closes it, and returns the filled node. */
  method Parse(parser: SegmentReader, node: Node) returns (filled: Node)
    requires parser.Valid()
    modifies parser
    decreases |parser.segments| - parser.pos
    ensures parser.Valid() && old(parser.pos) <= parser.pos
    ensures Fill(parser.segments, old(parser.pos), node) == (filled, parser.pos)
  {
    var current := node;
    while true
      invariant parser.Valid() && old(parser.pos) <= parser.pos
      invariant Fill(parser.segments, old(parser.pos), node) == Fill(parser.segments, parser.pos, current)
      decreases |parser.segments| - parser.pos
    {
      ghost var before := parser.pos;
      ghost var outer := current;
      var token := parser.GetNext();
      if token.None? {
        // open blocks are left to end with the input
        return current;
      }
      var s := token.value;
      var child: Node;
      match s.kind {
        case Comment =>
          continue;
        case Echo =>
          child := Leaf(EchoNode(s));
        case Tag =>
          var tagNode := Leaf(TagNode(s));
          if s.endBlock {
            return current;
          } else if s.chainable {
            current := Chain(current, s);
          } else {
            child := tagNode;
          }
          // no break: falls through into the FIXED case
          child := Leaf(FixedNode(s));
        case Fixed =>
          child := Leaf(FixedNode(s));
      }
      if s.opensBlock {
        child := Parse(parser, child);
      }
      AddStep(parser.segments, before, outer);
      current := Add(current, child);
    }
  }
}
