/**
 * The part of the W3C DOM that the build-path file uses: a document is the
 * sequence of its top-level nodes, and a node is either an element (a tag, an
 * attribute map and child nodes) or some other kind of node (text, comment,
 * processing instruction). Such a node has no attribute map; its node name is
 * "#text" or "#comment", or the target of a processing instruction, which
 * may coincide with a tag.
 */
module Xml {

  datatype Node =
    | Element(tag: string, attributes: map<string, string>, children: seq<Node>)
    | Other(name: string)

  /** The DOM node name: an element's tag, or the name of any other node. */
  function NodeName(n: Node): string
  {
    match n
    case Element(tag, _, _) => tag
    case Other(name) => name
  }

  datatype Document = Document(nodes: seq<Node>)
}
