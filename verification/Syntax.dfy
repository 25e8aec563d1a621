/** The uniform syntax-tree node of internal/engine/ast.go, with the fields that the analyses read.  Nil is the
  * nil pointer; kinds that no analysis distinguishes are Expression.
  */
module Syntax {
  datatype Kind =
    | Ident | NewTarget | Call | Func | Class
    | Var | Block | Case | Program | Switch | If | While | DoWhile | With | Label
    | For | ForIn | ForOf | ForAwaitOf | Try | Export
    | Array | Object | Assign | AssignPat | Rest | Spread
    | Expression

  datatype VarKind = VarVar | VarLet | VarConst | VarUsing | VarAwaitUsing | VarAssign

  datatype Node = Nil | Node(
    kind: Kind,
    str: string,
    arrow: bool,            // fnArrow
    special: bool,          // fnAsync or fnGenerator
    funcExpr: bool,         // fnFuncExpr: a function that stands where an expression does
    paren: bool,            // fnParen: an expression in parentheses
    varKind: VarKind,
    plainAssign: bool,      // Op is TokAssign
    left: Node, right: Node, cond: Node, body: Node, init: Node, update: Node,
    catchParam: Node, catchBody: Node, finallyBody: Node,
    args: seq<Node>)

  predicate IsKind(n: Node, k: Kind) {
    n.Node? && n.kind == k
  }
}
