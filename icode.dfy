/**
 * The intermediate-code tree the statement parsers build: nodes tagged with
 * an ICodeNodeTypeImpl kind, each holding its children in order and the LINE
 * and VALUE attributes the modelled parsers set.
 */
module ICode {
  import opened Wrappers

  /** The node kinds the modelled parsers create, and those the sub-parser stand-ins return. */
  datatype ICodeNodeType =
    | COMPOUND | ASSIGN | LOOP | TEST | NOT | IF | LT | EQ | GT
    | INTEGER_CONSTANT | VARIABLE | NO_OP

  /** An ICodeNodeImpl: ICodeFactory.createICodeNode gives a node with no children and no attributes. */
  class Node {
    const nodeType: ICodeNodeType
    var children: seq<Node>
    var line: Option<int>
    var value: Option<int>

    constructor(nodeType: ICodeNodeType)
      ensures this.nodeType == nodeType
      ensures children == [] && line == None && value == None
    {
      this.nodeType := nodeType;
      children := [];
      line := None;
      value := None;
    }

    /** addChild: append a child after the ones already adopted. */
    method AddChild(child: Node)
      modifies this`children
      ensures children == old(children) + [child]
    {
      children := children + [child];
    }

    /** setAttribute(VALUE, v). */
    method SetValue(v: int)
      modifies this`value
      ensures value == Some(v)
    {
      value := Some(v);
    }

    /** setAttribute(LINE, l). */
    method SetLine(l: int)
      modifies this`line
      ensures line == Some(l)
    {
      line := Some(l);
    }
  }
}
