/**
 * The graph node record of src/node.h and its allocator `create_node` (src/node.c).
 *
 * Nodes are shared, mutable objects: the graph owns them, `add_edge` rewrites their level,
 * parent and child count in place, and the parser overwrites their text.  `required_width`
 * is a `double` in the C record; every value ever stored in it is a sum of the integer
 * footprint 440, so it is an `int` here.  The drawing positions are kept as reals.
 */
module Nodes {

  class Node {
    var parent: Node?
    var name: string
    var text: string
    /** The node's index in the graph; `add_node`, not `create_node`, sets it. */
    var id: nat
    /** -1 until an edge touches the node, then 1 for a root and parent level + 1 below. */
    var level: int
    var numChildren: int
    var xPos: real
    var yPos: real
    var requiredWidth: int

    /**
     * `create_node`: a detached node with copies of `name` and `text`, no level, no
     * children, no position and no width.  The C code passes `text` to `strdup`, so a NULL
     * text is undefined behaviour; `text` is a `string` here, never NULL.
     */
    constructor (name: string, text: string)
      ensures this.name == name && this.text == text
      ensures parent == null && level == -1 && numChildren == 0
      ensures xPos == -1.0 && yPos == -1.0 && requiredWidth == 0
    {
      parent := null;
      this.name := name;
      this.text := text;
      level := -1;
      numChildren := 0;
      xPos := -1.0;
      yPos := -1.0;
      requiredWidth := 0;
    }
  }
}
