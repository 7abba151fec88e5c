/** The syntax tree shared by the expression front end (c_tree.h) and the
    byte-code emitter (c_gen.cpp). The emitter reads two members that the
    front end's node lacks, the statement chain next and the symbol-table
    slot of an identifier; the front end leaves them at Nil and -1. */
module Ast {
  import opened Tokens

  datatype Node =
    | Nil
    | Node(token: Token, left: Node, right: Node, next: Node, slot: int)

  /** node(t): a leaf. */
  function Leaf(t: Token): Node {
    Node(t, Nil, Nil, Nil, -1)
  }

  /** node(t, l, r): an inner node. */
  function Inner(t: Token, l: Node, r: Node): Node {
    Node(t, l, r, Nil, -1)
  }

  /** A failure stands for the places where the program stops (exit, an
      uncaught exception) or has undefined behaviour. */
  datatype Result<T> = Success(value: T) | Failure
}
