/**
 The expression language's tokens, trees and values (crates/expressions/src: lexer.rs, parser/ast.rs,
 types.rs, array.rs, object.rs). Numbers are NaN, an infinity or a finite real.
 */
module Syntax {

  datatype Failure =
    | UnterminatedString | InvalidNumber | UnexpectedCharacter
    | UnexpectedToken | TrailingToken | LiteralIndexed
    | UnclosedExpression
    | UnknownName(name: string) | UnknownFunction(function_: string) | WrongArity
    | CaseArity | CaseNotBoolean
    | FormatMissingTemplate | FormatBadBrace | FormatBadIndex | FormatOutOfRange | FormatUnclosed | FormatSpecifier
    | Foreign(message: string)

  datatype Result<+T> = Ok(value: T) | Err(error: Failure)

  // --------------------------------------------------------------------------- values

  datatype Number = NaN | Infinity(negative: bool) | Finite(value: real)

  /** Where an array or object was allocated: by a caller, or at a position of the evaluated tree. */
  datatype Ref = Given(id: nat) | Made(path: seq<nat>)

  datatype Entry = Entry(key: string, item: Value)

  datatype Value =
    | Null
    | Bool(b: bool)
    | Num(n: Number)
    | Str(text: string)
    | Array(id: Ref, items: seq<Value>, filtered: bool)
    | Object(id: Ref, entries: seq<Entry>)

  // ---------------------------------------------------------------------------- trees

  datatype BinaryOperator = Or | And | Eq | Neq | Lt | Le | Gt | Ge

  datatype Expr =
    | Literal(value: Value)
    | Context(name: string)
    | PropertyAccess(base: Expr, property: string)
    | IndexAccess(base: Expr, index: Expr)
    | WildcardAccess(base: Expr)
    | FunctionCall(name: string, args: seq<Expr>)
    | Not(operand: Expr)
    | BinaryOp(op: BinaryOperator, left: Expr, right: Expr)

  // --------------------------------------------------------------------------- tokens

  datatype Token =
    | Ident(name: string) | StringLit(text: string) | NumberLit(n: Number) | BoolLit(b: bool) | NullLit
    | Dot | LBracket | RBracket | LParen | RParen | Comma | Star
    | Operator(op: BinaryOperator) | Bang

  // ---------------------------------------------------------------------------- names

  predicate IsAlpha(c: char) {
    'a' <= c <= 'z' || 'A' <= c <= 'Z'
  }

  predicate IsDigit(c: char) {
    '0' <= c <= '9'
  }

  predicate IsIdentStart(c: char) {
    IsAlpha(c) || c == '_'
  }

  predicate IsIdentContinue(c: char) {
    IsAlpha(c) || IsDigit(c) || c == '_' || c == '-'
  }

  /** `is_keyword`, upstream's IsLegalKeyword. */
  predicate IsLegalName(s: string) {
    s != [] && IsIdentStart(s[0]) && forall i :: 1 <= i < |s| ==> IsIdentContinue(s[i])
  }
}
