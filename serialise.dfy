// The versioned cereal serialisers of the node editor (src/ui/node_window.hpp):
// `Node::serialize`, `Link::serialize` and `SerialiseGraph::serialize`. An
// archive is a sequence of typed fields; reading a field of another kind
// fails. Reading starts from a default-constructed object, so whatever a
// version does not transfer keeps its default.
module Serialise {
  import opened Wrappers
  import opened NodeGraph

  /** One archived value. */
  datatype Field = Text(text: string) | PinSet(pins: set<int>) | IdList(ids: seq<int>) | Flag(flag: bool)
                 | Number(num: int) | PinMap(pinMap: map<int, int>) | LinkSets(linkSets: map<int, set<int>>)

  /** The version each class is written with. */
  const NodeVersion: nat := 1
  const LinkVersion: nat := 0
  const GraphVersion: nat := 4

  // ---------------------------------------------------------------------
  // Node

  /** `Node::serialize` when saving: type, display name, inputs, outputs,
      the legacy links vector (a fresh local, so always empty) and close;
      from version 1 on also the three link indexes and the extendable flag. */
  function EncodeNode(n: Node, version: nat): seq<Field>
  {
    [Text(n.ntype), Text(n.displayName), PinSet(n.inputs), PinSet(n.outputs), IdList([]), Flag(n.close)] +
    (if version >= 1 then [PinMap(n.linkToPin), PinMap(n.inPinToLink), LinkSets(n.outPinToLinks), Flag(n.extendable)]
     else [])
  }

  /** The fields every version reads, into a default node: the legacy links
      vector is dropped, and a non-empty one asks for the indexes to be
      rebuilt. */
  function DecodeBase(fs: seq<Field>): Option<(Node, seq<Field>)>
  {
    if |fs| >= 6 && fs[0].Text? && fs[1].Text? && fs[2].PinSet? && fs[3].PinSet? && fs[4].IdList? && fs[5].Flag? then
      Some((EmptyNode("").(ntype := fs[0].text, displayName := fs[1].text, inputs := fs[2].pins,
                           outputs := fs[3].pins, close := fs[5].flag, rebuildLinks := |fs[4].ids| > 0),
            fs[6..]))
    else None
  }

  /** `Node::serialize` when loading: the base fields, then at version 1 or
      later the indexes and the extendable flag. Returns the node and the
      fields after it. */
  function DecodeNode(fs: seq<Field>, version: nat): (r: Option<(Node, seq<Field>)>)
    ensures r.Some? ==> r.value.0.fake == None
  {
    match DecodeBase(fs)
    case None => None
    case Some((n, rest)) =>
      if version < 1 then Some((n, rest))
      else if |rest| >= 4 && rest[0].PinMap? && rest[1].PinMap? && rest[2].LinkSets? && rest[3].Flag? then
        Some((n.(linkToPin := rest[0].pinMap, inPinToLink := rest[1].pinMap,
                 outPinToLinks := rest[2].linkSets, extendable := rest[3].flag), rest[4..]))
      else None
  }

  /** What survives a save and load at a version from 1 on: everything but
      the stand-in node, which is not serialised, and the rebuild request. */
  function Kept(n: Node): Node
  {
    n.(fake := None, rebuildLinks := false)
  }

  /** What survives at version 0: the base fields only. */
  function KeptBase(n: Node): Node
  {
    EmptyNode(n.ntype).(displayName := n.displayName, inputs := n.inputs, outputs := n.outputs, close := n.close)
  }

  /** Decoding what was encoded gives back every serialised field and
      consumes exactly the node's fields, at every version; the saved links
      vector is empty, so the decoded node never asks for a rebuild. */
  lemma NodeRoundTrip(n: Node, version: nat, rest: seq<Field>)
    ensures version >= 1 ==> DecodeNode(EncodeNode(n, version) + rest, version) == Some((Kept(n), rest))
    ensures version == 0 ==> DecodeNode(EncodeNode(n, version) + rest, version) == Some((KeptBase(n), rest))
  {
    var fs := EncodeNode(n, version) + rest;
    assert fs[6..] == EncodeNode(n, version)[6..] + rest;
    if version >= 1 {
      assert fs[6..][4..] == rest;
    } else {
      assert fs[6..] == rest;
    }
  }

  /** A decoded node asks for its indexes to be rebuilt exactly when the
      legacy links vector it read was non-empty. */
  lemma RebuildIffLegacyLinks(fs: seq<Field>, version: nat)
    requires DecodeNode(fs, version).Some?
    ensures fs[4].IdList? && (DecodeNode(fs, version).value.0.rebuildLinks <==> |fs[4].ids| > 0)
  {
  }

  /** A node of version 0 has no indexes and does not grow its inputs. */
  lemma Version0HasNoIndexes(fs: seq<Field>)
    requires DecodeNode(fs, 0).Some?
    ensures var n := DecodeNode(fs, 0).value.0;
      n.linkToPin == map[] && n.inPinToLink == map[] && n.outPinToLinks == map[] && !n.extendable
  {
  }

  // ---------------------------------------------------------------------
  // Link

  /** `Link::serialize`: start and end at version 0, nothing otherwise. */
  function EncodeLink(l: NodeGraph.Link, version: nat): seq<Field>
  {
    if version == 0 then [Number(l.start), Number(l.end)] else []
  }

  /** Reading a link into `blank`, the default-constructed link. */
  function DecodeLink(fs: seq<Field>, version: nat, blank: NodeGraph.Link): Option<(NodeGraph.Link, seq<Field>)>
  {
    if version != 0 then Some((blank, fs))
    else if |fs| >= 2 && fs[0].Number? && fs[1].Number? then Some((NodeGraph.Link(fs[0].num, fs[1].num), fs[2..]))
    else None
  }

  /** A link round-trips at version 0; at any other version nothing is
      written and the link read keeps its default ends. */
  lemma LinkRoundTrip(l: NodeGraph.Link, version: nat, rest: seq<Field>, blank: NodeGraph.Link)
    ensures version == 0 ==> DecodeLink(EncodeLink(l, version) + rest, version, blank) == Some((l, rest))
    ensures version != 0 ==> EncodeLink(l, version) == [] &&
                             DecodeLink(EncodeLink(l, version) + rest, version, blank) == Some((blank, rest))
  {
    if version == 0 {
      assert (EncodeLink(l, version) + rest)[2..] == rest;
    } else {
      assert EncodeLink(l, version) + rest == rest;
    }
  }

  // ---------------------------------------------------------------------
  // SerialiseGraph

  /** The members `SerialiseGraph::serialize` transfers. */
  datatype GraphField = NextNodeField | NextPinField | NextLinkField | NodesField | PinToNodeField | LinksField
                      | DisplayNodeField | RemoveLinkModeField | NextNodeLocField | LastOutputField
                      | OpenWindowsField | PlaceholderMapField | IdField | WindowNameField
                      | NodePositionsField | SaveMapField

  /** The first version that transfers a member. */
  function Since(f: GraphField): nat
  {
    match f
    case IdField => 1
    case WindowNameField => 1
    case NodePositionsField => 2
    case SaveMapField => 3
    case _ => 0
  }

  /** The members transferred at a version, in archive order. */
  function GraphLayout(version: nat): seq<GraphField>
  {
    [NextNodeField, NextPinField, NextLinkField, NodesField, PinToNodeField, LinksField, DisplayNodeField,
     RemoveLinkModeField, NextNodeLocField, LastOutputField, OpenWindowsField, PlaceholderMapField] +
    (if version >= 1 then [IdField, WindowNameField] else []) +
    (if version >= 2 then [NodePositionsField] else []) +
    (if version >= 3 then [SaveMapField] else [])
  }

  /** A member is transferred exactly from the version that introduced it
      on, and a later version writes the earlier layout first, then more. */
  lemma GraphLayoutCumulative(v: nat, w: nat, f: GraphField)
    ensures f in GraphLayout(v) <==> Since(f) <= v
    ensures v <= w ==> GraphLayout(v) <= GraphLayout(w)
  {
    var base := [NextNodeField, NextPinField, NextLinkField, NodesField, PinToNodeField, LinksField, DisplayNodeField,
                 RemoveLinkModeField, NextNodeLocField, LastOutputField, OpenWindowsField, PlaceholderMapField];
    if Since(f) == 0 {
      assert f in base;
    }
  }

  /** The version the graph is written with transfers every member. */
  lemma GraphVersionTransfersAll(f: GraphField)
    ensures f in GraphLayout(GraphVersion)
  {
    GraphLayoutCumulative(GraphVersion, GraphVersion, f);
  }
}
