/**
 * The part of Go's syntax tree (package go/ast) that qq.go looks at.
 *
 * The node kinds that argName and qqCall look at get their own constructor,
 * and so do BasicLit, CompositeLit and Star, as examples of arguments that
 * have no name; every other node (the file itself, declarations, statements, function
 * literals, ...) is an `Other` node that lists its children in source order,
 * so that a walk of the tree still reaches every call nested inside it.
 */
module GoAst {
  import opened Wrappers

  /** ast.ObjKind: what a resolved identifier denotes. */
  datatype ObjKind = Bad | Pkg | Con | Typ | Var | Fun | Lbl

  /** ast.Object: the declaration an identifier was resolved to. */
  datatype Object = Object(kind: ObjKind, name: string)

  datatype Node =
    /** An identifier; `obj` is None when the parser left it unresolved
        (universe names such as `true` and `nil`, names declared in another
        file of the package), which Go represents as a nil `Obj`. */
    | Ident(name: string, obj: Option<Object>)
    | BasicLit(text: string)
    /** The type (when written) followed by the elements. */
    | CompositeLit(parts: seq<Node>)
    | Selector(x: Node, sel: string)
    /** `endLine` is the line of the call's closing parenthesis, which is
        what `fset.Position(call.End()).Line` reports. */
    | Call(fun: Node, args: seq<Node>, endLine: int)
    | Binary(x: Node, y: Node)
    | Index(x: Node, index: Node)
    | KeyValue(key: Node, value: Node)
    | Paren(x: Node)
    /** The low, high and max bounds that are present, in that order. */
    | Slice(x: Node, bounds: seq<Node>)
    | TypeAssert(x: Node, typ: Node)
    | Unary(x: Node)
    | Star(x: Node)
    | Other(children: seq<Node>)

  /** The order in which ast.Inspect visits the nodes of a tree: a node
      first, then each of its children's subtrees in source order. */
  function Preorder(n: Node): (r: seq<Node>)
    ensures |r| >= 1 && r[0] == n
    decreases n, 1
  {
    match n
    case Ident(_, _) => [n]
    case BasicLit(_) => [n]
    case CompositeLit(parts) => [n] + PreorderSeq(parts)
    case Selector(x, _) => [n] + Preorder(x)
    case Call(fun, args, _) => [n] + Preorder(fun) + PreorderSeq(args)
    case Binary(x, y) => [n] + Preorder(x) + Preorder(y)
    case Index(x, i) => [n] + Preorder(x) + Preorder(i)
    case KeyValue(k, v) => [n] + Preorder(k) + Preorder(v)
    case Paren(x) => [n] + Preorder(x)
    case Slice(x, bounds) => [n] + Preorder(x) + PreorderSeq(bounds)
    case TypeAssert(x, t) => [n] + Preorder(x) + Preorder(t)
    case Unary(x) => [n] + Preorder(x)
    case Star(x) => [n] + Preorder(x)
    case Other(children) => [n] + PreorderSeq(children)
  }

  /** The subtrees of `ns`, one after the other. */
  function PreorderSeq(ns: seq<Node>): (r: seq<Node>)
    ensures |r| >= |ns|
    decreases ns, 0
  {
    if ns == [] then [] else Preorder(ns[0]) + PreorderSeq(ns[1..])
  }

  /** A call is visited before its callee's subtree, which comes before its
      arguments' subtrees. */
  lemma PreorderOfCall(n: Node)
    requires n.Call?
    ensures Preorder(n) == [n] + (Preorder(n.fun) + PreorderSeq(n.args))
  {
  }
}
