/**
 * The syntax tree of frontend/parser/ast.ts. Every node kind, statement or
 * expression, is one case of `Node`, because the parser returns
 * expressions wherever it returns statements.
 */
module Ast {
  datatype Node =
    | NumberLit(number: real)
    | Identifier(name: string)
    | StringLit(text: string)
    | BinaryExpression(left: Node, right: Node, operator: string)
    | BooleanExpression(left: Node, right: Node, operator: string)
    /** The `identifier` field holds whatever node stood left of the Equals token. */
    | VariableAssignment(identifier: Node, value: Node, operator: string)
    | TernaryOperator(condition: Node, onTrue: Node, onFalse: Node)
    | Output(value: Node)
    | TypeOf(value: Node)
    /** An if statement has a single block and no else branch. */
    | IfStatement(condition: Node, body: Block)
    | Comment(text: string)
    /** The `"?"` node the parser returns for a token it cannot place; its text is the token's. */
    | Unrecognized(text: string)

  /** An ordered sequence of statements. */
  datatype Block = Block(stmts: seq<Node>)

  /** The root: exactly one block. */
  datatype Program = Program(body: Block)

  /** Whether a node is an expression (ast.ts declares it as extending Expr). */
  predicate IsExpression(n: Node) {
    !(n.VariableAssignment? || n.Output? || n.IfStatement? || n.Comment?)
  }
}
