/**
  The parse tree the external parser hands to the interpreter (`mpc_ast_t`):
  a rule tag (possibly compound, such as "expr|number|regex", with ">" for the
  root), the literal text matched at a leaf, and the ordered children of an
  inner node. Building the tree is not part of this model.
 */
module ParseTree {
  import opened CRuntime

  datatype Node = Node(tag: string, contents: string, children: seq<Node>)

  /** `strstr(t->tag, name)`: the compound tag names the rule `name`. */
  predicate HasTag(t: Node, name: string) {
    Contains(t.tag, name)
  }
}
