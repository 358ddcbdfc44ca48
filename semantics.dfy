/**
 * What frontend/emitter.ts computes, as functions of the syntax tree and the
 * variable map: `Eval` is `emitExpr`, `Exec` is `emitStmt`, `RunBody` and
 * `Run` are the loop of `emitSrc`. The classes of the Emitter module do the
 * same by updating their fields; these functions are their specification.
 */
module Semantics {
  import opened Wrappers
  import opened Ast
  import opened Values
  import G = Grammar
  import Lexer
  import T = Tokens

  /** The string-keyed entries of the emitter's `variables` map. */
  type Vars = map<string, Value>

  /**
   * What a statement yields. The source tells them apart by object identity:
   * the SUCCESS token, an `[value, OUTPUT]` pair, a StmtBuffer, or the bare
   * value an expression statement evaluates to.
   */
  datatype Outcome =
    | Suppressed
    | Displayable(shown: Value)
    | Buffer(items: seq<Outcome>)
    | Raw(value: Value)

  datatype EmitError =
    /** `Parse` stops the process instead of returning a program. */
    | ParseFailed(cause: G.ParseError)
    /**
     * `isBuffer` reads a field of an `undefined` or `null` top-level result,
     * which throws a TypeError.
     */
    | UndefinedResult
    /**
     * The right-hand side of an assignment to `key` was an `out` or an `if`,
     * whose result is not a value of the language.
     */
    | StoredNonValue(key: string)

  /** A result together with the variable map after computing it. */
  datatype Step<T> = Step(result: Result<T, EmitError>, vars: Vars)

  /** `emitExpr`: a node that is not an expression evaluates to undefined. */
  function Eval(e: Node, vars: Vars): Value {
    match e
    case NumberLit(n) => Num(n)
    case StringLit(s) => Str(s)
    case Identifier(name) => if name in vars then vars[name] else Undef
    case BooleanExpression(l, r, op) => Compare(op, Eval(l, vars), Eval(r, vars))
    case BinaryExpression(l, r, op) => Arith(op, Eval(l, vars), Eval(r, vars))
    case TypeOf(v) => Str(TypeName(Eval(v, vars)))
    case TernaryOperator(c, t, f) => if Truthy(Eval(c, vars)) then Eval(t, vars) else Eval(f, vars)
    case _ => Undef
  }

  /**
   * The key `variables.set` uses for an assignment target: the `value` field
   * of the target node when that is a string. A Number target keys by a
   * number and every other node by `undefined` or by another node; no
   * Identifier reads those keys, so they are not part of `Vars`.
   */
  function TargetKey(target: Node): Option<string> {
    match target
    case Identifier(name) => Some(name)
    case StringLit(s) => Some(s)
    case Comment(text) => Some(text)
    case Unrecognized(text) => Some(text)
    case _ => None
  }

  /**
   * The value stored by an assignment: a compound operator combines the
   * stored value with the right-hand side only when something other than
   * `undefined` or `null` is stored; `=` and any other operator store the
   * right-hand side.
   */
  function Assigned(stored: Option<Value>, op: string, v: Value): Value {
    if stored.None? || IsNullish(stored.value) then v
    else if op == "+=" then Plus(stored.value, v)
    else if op == "-=" then Minus(stored.value, v)
    else if op == "*=" then Times(stored.value, v)
    else if op == "/=" then Divide(stored.value, v)
    else v
  }

  function Lookup(vars: Vars, key: string): Option<Value> {
    if key in vars then Some(vars[key]) else None
  }

  /** `Emitter.SUCCESS_CASE`, the token every statement without a value yields. */
  const SuccessToken := T.Token("SUCCESS", T.EOL)

  /**
   * Whether `o != Emitter.SUCCESS_CASE` is false. The loose comparison holds
   * the SUCCESS token itself, and a string equal to the token's `toString`
   * text, "EOL: SUCCESS"; a number or boolean meets that text as NaN, and
   * undefined, null, pairs and buffers differ from it.
   */
  predicate IsSuccess(o: Outcome) {
    o.Suppressed? || o == Raw(Str(SuccessToken.ToString()))
  }

  /** No result in `items` compares equal to SUCCESS. */
  predicate NoneSuccess(items: seq<Outcome>) {
    forall k :: 0 <= k < |items| ==> !IsSuccess(items[k])
  }

  /** `StmtBuffer.add`: a result that compares equal to SUCCESS is not kept. */
  function Add(items: seq<Outcome>, o: Outcome): seq<Outcome> {
    if IsSuccess(o) then items else items + [o]
  }

  /** `emitStmt`. */
  function Exec(s: Node, vars: Vars): Step<Outcome>
    decreases s, 1
  {
    match s
    case VariableAssignment(target, value, op) =>
      var rhs := Exec(value, vars);
      if rhs.result.Err? then rhs
      else
        (match TargetKey(target)
         case None => Step(Ok(Suppressed), rhs.vars)
         case Some(key) =>
           if rhs.result.value.Raw? then
             var v := Assigned(Lookup(rhs.vars, key), op, rhs.result.value.value);
             Step(Ok(Suppressed), rhs.vars[key := v])
           else Step(Err(StoredNonValue(key)), rhs.vars))
    case Output(value) => Step(Ok(Displayable(Eval(value, vars))), vars)
    case Comment(_) => Step(Ok(Suppressed), vars)
    case IfStatement(c, body) =>
      if Truthy(Eval(c, vars)) then
        var st := ExecBody(body.stmts, vars, []);
        if st.result.Err? then Step(Err(st.result.error), st.vars)
        else Step(Ok(Buffer(st.result.value)), st.vars)
      else Step(Ok(Suppressed), vars)
    case _ => Step(Ok(Raw(Eval(s, vars))), vars)
  }

  /** The `forEach` over an if body: each result goes through `add`, after `acc`. */
  function ExecBody(stmts: seq<Node>, vars: Vars, acc: seq<Outcome>): Step<seq<Outcome>>
    decreases stmts, 0
  {
    if stmts == [] then Step(Ok(acc), vars)
    else
      var st := Exec(stmts[0], vars);
      if st.result.Err? then Step(Err(st.result.error), st.vars)
      else ExecBody(stmts[1..], st.vars, Add(acc, st.result.value))
  }

  /**
   * `StmtBuffer.isBuffer`: reading `stmts` of `undefined` or `null` throws;
   * every other result is a buffer exactly when it is one.
   */
  function IsBuffer(o: Outcome): Result<bool, EmitError> {
    if o.Raw? && IsNullish(o.value) then Err(UndefinedResult) else Ok(o.Buffer?)
  }

  /**
   * The `forEach` of `emitSrc` over the top-level statements: a buffer's
   * items are appended one by one, any other result but SUCCESS as itself.
   */
  function RunBody(stmts: seq<Node>, vars: Vars, results: seq<Outcome>): Step<seq<Outcome>>
    decreases |stmts|
  {
    if stmts == [] then Step(Ok(results), vars)
    else
      var st := Exec(stmts[0], vars);
      if st.result.Err? then Step(Err(st.result.error), st.vars)
      else
        var o := st.result.value;
        match IsBuffer(o)
        case Err(e) => Step(Err(e), st.vars)
        case Ok(isBuffer) =>
          if isBuffer then RunBody(stmts[1..], st.vars, results + o.items)
          else if IsSuccess(o) then RunBody(stmts[1..], st.vars, results)
          else RunBody(stmts[1..], st.vars, results + [o])
  }

  /** `emitSrc`: lex and parse the source, then run its statements on `vars`. */
  function Run(rawSrc: string, vars: Vars): Step<seq<Outcome>> {
    match G.ProgramOf(Lexer.Tokenize(rawSrc))
    case Err(e) => Step(Err(ParseFailed(e)), vars)
    case Ok(program) => RunBody(program.body.stmts, vars, [])
  }
}
