/** The nodes of a KQL query (pkg/ast/ast.go). */
module Ast {

  /** `OperatorNode.implicit` is true for the operators that carry the source text
      "implicitly operator". Dates and numbers are kept in the form that parsing left them. */
  datatype Node =
    | StringNode(key: string, value: string, exact: bool)
    | BooleanNode(key: string, truth: bool)
    | DateTimeNode(key: string, op: string, time: string)
    | NumberNode(key: string, op: string, number: string)
    | OperatorNode(value: string, implicit: bool)
    | GroupNode(key: string, nodes: seq<Node>)

  const AND := "AND"
  const OR := "OR"
  const NOT := "NOT"

  /** NumberNode is not among the cases of the source, so it has no key here either. */
  function NodeKey(n: Node): string {
    match n
    case StringNode(key, _, _) => key
    case DateTimeNode(key, _, _) => key
    case BooleanNode(key, _) => key
    case GroupNode(key, _) => key
    case _ => ""
  }

  /** Keys are made of ASCII letters and dots. */
  function ToLower(s: string): (r: string)
    ensures |r| == |s|
  {
    if s == [] then []
    else [if 'A' <= s[0] <= 'Z' then s[0] - 'A' + 'a' else s[0]] + ToLower(s[1..])
  }
}
