/**
 * What the evaluator of frontend/emitter.ts promises: only assignments write
 * to the variable map, and only under their own keys; assignment stores or
 * combines as its operator says; an `if` either does nothing or buffers its
 * body's results in order; the ternary looks only at the chosen branch; and
 * `emitSrc` keeps program order, drops SUCCESS, flattens buffers by one
 * level and hands its variables on to the next call.
 */
module EmitterProps {
  import opened Wrappers
  import opened Ast
  import opened Values
  import opened Semantics
  import G = Grammar
  import Lexer
  import E = Emitter

  // ------------------------------------------------------------ writes

  /** The keys a statement may write: its assignment targets, inside `if` bodies and right-hand sides too. */
  function Targets(s: Node): set<string>
    decreases s, 1
  {
    match s
    case VariableAssignment(target, value, _) =>
      Targets(value) + (if TargetKey(target).Some? then {TargetKey(target).value} else {})
    case IfStatement(_, body) => BodyTargets(body.stmts)
    case _ => {}
  }

  function BodyTargets(stmts: seq<Node>): set<string>
    decreases stmts, 0
  {
    if stmts == [] then {} else Targets(stmts[0]) + BodyTargets(stmts[1..])
  }

  /** A statement leaves every variable it does not assign as it was, set or unset. */
  lemma {:induction false} ExecWritesOnlyTargets(s: Node, vars: Vars)
    ensures forall k :: k !in Targets(s) ==> Lookup(Exec(s, vars).vars, k) == Lookup(vars, k)
    decreases s, 1
  {
    match s
    case VariableAssignment(_, value, _) =>
      ExecWritesOnlyTargets(value, vars);
    case IfStatement(c, body) =>
      if Truthy(Eval(c, vars)) {
        BodyWritesOnlyTargets(body.stmts, vars, []);
      }
    case _ =>
  }

  lemma {:induction false} BodyWritesOnlyTargets(stmts: seq<Node>, vars: Vars, acc: seq<Outcome>)
    ensures forall k :: k !in BodyTargets(stmts) ==> Lookup(ExecBody(stmts, vars, acc).vars, k) == Lookup(vars, k)
    decreases stmts, 0
  {
    if stmts != [] {
      var st := Exec(stmts[0], vars);
      ExecWritesOnlyTargets(stmts[0], vars);
      if st.result.Ok? {
        BodyWritesOnlyTargets(stmts[1..], st.vars, Add(acc, st.result.value));
      }
    }
  }

  /** A statement without assignments (an expression, `out`, a comment, an `if` without them) changes no variable. */
  lemma NoAssignmentNoWrite(s: Node, vars: Vars)
    requires Targets(s) == {}
    ensures Exec(s, vars).vars == vars
  {
    var after := Exec(s, vars).vars;
    ExecWritesOnlyTargets(s, vars);
    assert forall k :: Lookup(after, k) == Lookup(vars, k);
    assert forall k :: k in after <==> k in vars by {
      forall k ensures k in after <==> k in vars {
        assert Lookup(after, k) == Lookup(vars, k);
      }
    }
    assert forall k | k in after :: after[k] == vars[k] by {
      forall k | k in after ensures after[k] == vars[k] {
        assert Lookup(after, k) == Lookup(vars, k);
      }
    }
  }

  // ------------------------------------------------------------ statements

  /** An expression standing as a statement yields its value and changes nothing. */
  lemma ExpressionStatement(e: Node, vars: Vars)
    requires IsExpression(e)
    ensures Exec(e, vars) == Step(Ok(Raw(Eval(e, vars))), vars)
  {
  }

  /** `out` displays its operand's value; a comment yields SUCCESS; neither writes. */
  lemma OutputAndComment(e: Node, text: string, vars: Vars)
    ensures Exec(Output(e), vars) == Step(Ok(Displayable(Eval(e, vars))), vars)
    ensures Exec(Comment(text), vars) == Step(Ok(Suppressed), vars)
  {
  }

  /**
   * Assigning an expression to a name yields SUCCESS and sets that name
   * alone: to the right-hand value when the name is unset, holds undefined
   * or null, or the operator is `=`, and otherwise to the stored value
   * combined with it by the compound operator.
   */
  lemma AssignmentStores(x: string, e: Node, op: string, vars: Vars)
    requires IsExpression(e)
    ensures var st := Exec(VariableAssignment(Identifier(x), e, op), vars);
      && st.result == Ok(Suppressed)
      && st.vars.Keys == vars.Keys + {x}
      && (forall k | k in vars && k != x :: st.vars[k] == vars[k])
      && ((x !in vars || IsNullish(vars[x]) || op !in {"+=", "-=", "*=", "/="}) ==> st.vars[x] == Eval(e, vars))
      && (x in vars && !IsNullish(vars[x]) && op in {"+=", "-=", "*=", "/="} ==>
            st.vars[x] == Arith(op[..1], vars[x], Eval(e, vars)))
  {
    assert Exec(e, vars) == Step(Ok(Raw(Eval(e, vars))), vars);
  }

  /** `x op= e` on a set name is `x = x op e`. */
  lemma CompoundIsBinary(x: string, e: Node, op: string, vars: Vars)
    requires IsExpression(e) && op in {"+=", "-=", "*=", "/="}
    requires x in vars && !IsNullish(vars[x])
    ensures Exec(VariableAssignment(Identifier(x), e, op), vars)
         == Exec(VariableAssignment(Identifier(x), BinaryExpression(Identifier(x), e, op[..1]), "="), vars)
  {
    AssignmentStores(x, e, op, vars);
    AssignmentStores(x, BinaryExpression(Identifier(x), e, op[..1]), "=", vars);
  }

  /** The right-hand side of an assignment to a name must be a value: `x = out e` is an error. */
  lemma AssignOutputFails(x: string, e: Node, vars: Vars)
    ensures Exec(VariableAssignment(Identifier(x), Output(e), "="), vars) == Step(Err(StoredNonValue(x)), vars)
  {
  }

  /** A falsy condition yields SUCCESS without running the body, whatever the body is. */
  lemma IfFalseSkipsBody(c: Node, body: Block, vars: Vars)
    requires !Truthy(Eval(c, vars))
    ensures Exec(IfStatement(c, body), vars) == Step(Ok(Suppressed), vars)
  {
  }

  /**
   * Running a body after `acc` extends `acc` by at most one result per
   * statement and adds no SUCCESS.
   */
  lemma {:induction false} ExecBodyShape(stmts: seq<Node>, vars: Vars, acc: seq<Outcome>)
    requires NoneSuccess(acc)
    ensures var st := ExecBody(stmts, vars, acc);
      st.result.Ok? ==>
        && NoneSuccess(st.result.value)
        && acc <= st.result.value
        && |st.result.value| <= |acc| + |stmts|
    decreases stmts
  {
    if stmts != [] {
      var st := Exec(stmts[0], vars);
      if st.result.Ok? {
        ExecBodyShape(stmts[1..], st.vars, Add(acc, st.result.value));
      }
    }
  }

  /** Only an `if` yields a buffer, and no buffer holds SUCCESS. */
  lemma BufferIsClean(s: Node, vars: Vars)
    ensures Exec(s, vars).result.Ok? && Exec(s, vars).result.value.Buffer? ==>
      s.IfStatement? && NoneSuccess(Exec(s, vars).result.value.items)
  {
    if s.IfStatement? && Truthy(Eval(s.condition, vars)) {
      ExecBodyShape(s.body.stmts, vars, []);
    }
  }

  /** The value of each of a list of expressions, as a raw result, in order. */
  function RawResults(es: seq<Node>, vars: Vars): (rs: seq<Outcome>)
    ensures |rs| == |es|
    ensures forall i :: 0 <= i < |es| ==> rs[i] == Raw(Eval(es[i], vars))
  {
    if es == [] then [] else [Raw(Eval(es[0], vars))] + RawResults(es[1..], vars)
  }

  /** What `add` keeps of a list of results: those that do not compare equal to SUCCESS, in order. */
  function Kept(items: seq<Outcome>): (r: seq<Outcome>)
    ensures |r| <= |items| && NoneSuccess(r)
    ensures NoneSuccess(items) ==> r == items
  {
    if items == [] then []
    else
      assert items == [items[0]] + items[1..];
      assert NoneSuccess(items) ==> NoneSuccess(items[1..]);
      Add([], items[0]) + Kept(items[1..])
  }

  /** A result survives `add` exactly when it occurs in the list and does not compare equal to SUCCESS. */
  lemma {:induction false} KeptMembers(items: seq<Outcome>)
    ensures forall o :: o in Kept(items) <==> o in items && !IsSuccess(o)
  {
    if items != [] {
      KeptMembers(items[1..]);
      KeptCons(items[0], items[1..]);
      assert items == [items[0]] + items[1..];
    }
  }

  /** One round of the forEach over an if body whose first statement is an expression. */
  lemma ExpressionFirst(es: seq<Node>, vars: Vars, acc: seq<Outcome>)
    requires es != [] && IsExpression(es[0])
    requires ExecBody(es[1..], vars, Add(acc, Raw(Eval(es[0], vars)))) ==
      Step(Ok(Add(acc, Raw(Eval(es[0], vars))) + Kept(RawResults(es[1..], vars))), vars)
    ensures ExecBody(es, vars, acc) == Step(Ok(acc + Kept(RawResults(es, vars))), vars)
  {
    var o := Raw(Eval(es[0], vars));
    ExpressionStatement(es[0], vars);
    BodyHead(es, vars, acc, o);
    RawResultsCons(es, vars);
    KeptStep(acc, o, RawResults(es[1..], vars));
  }

  /** The forEach over a body whose first statement yields `o` and writes nothing. */
  lemma BodyHead(es: seq<Node>, vars: Vars, acc: seq<Outcome>, o: Outcome)
    requires es != [] && Exec(es[0], vars) == Step(Ok(o), vars)
    ensures ExecBody(es, vars, acc) == ExecBody(es[1..], vars, Add(acc, o))
  {
  }

  /** Adding `o` after `acc`, then what `add` keeps of `rest`, keeps the same as for `[o] + rest`. */
  lemma KeptStep(acc: seq<Outcome>, o: Outcome, rest: seq<Outcome>)
    ensures Add(acc, o) + Kept(rest) == acc + Kept([o] + rest)
  {
    KeptCons(o, rest);
    AddSplit(acc, o);
    AppendAssoc(acc, Add([], o), Kept(rest));
  }

  /** Concatenation regroups freely. */
  lemma AppendAssoc<T>(a: seq<T>, b: seq<T>, c: seq<T>)
    ensures (a + b) + c == a + (b + c)
  {
  }

  /** Adding to a buffer appends what adding to an empty one would hold. */
  lemma AddSplit(acc: seq<Outcome>, o: Outcome)
    ensures Add(acc, o) == acc + Add([], o)
  {
    if !IsSuccess(o) {
      assert [] + [o] == [o];
    }
  }

  /** The raw results of a list, split after its first element. */
  lemma RawResultsCons(es: seq<Node>, vars: Vars)
    requires es != []
    ensures RawResults(es, vars) == [Raw(Eval(es[0], vars))] + RawResults(es[1..], vars)
  {
  }

  /** What `add` keeps of a list, split after its first element. */
  lemma KeptCons(o: Outcome, items: seq<Outcome>)
    ensures Kept([o] + items) == Add([], o) + Kept(items)
  {
    assert ([o] + items)[0] == o && ([o] + items)[1..] == items;
  }

  /** When no value is the SUCCESS token's text, `add` keeps every raw result. */
  lemma AllRawKept(es: seq<Node>, vars: Vars)
    requires forall i :: 0 <= i < |es| ==> Eval(es[i], vars) != Str("EOL: SUCCESS")
    ensures Kept(RawResults(es, vars)) == RawResults(es, vars)
  {
    SuccessText();
    assert NoneSuccess(RawResults(es, vars));
  }

  /**
   * The forEach over an if body of expressions adds each value in order,
   * except a value that compares equal to SUCCESS, and writes nothing.
   */
  lemma {:induction false} BodyOfExpressions(es: seq<Node>, vars: Vars, acc: seq<Outcome>)
    requires forall i :: 0 <= i < |es| ==> IsExpression(es[i])
    ensures ExecBody(es, vars, acc) == Step(Ok(acc + Kept(RawResults(es, vars))), vars)
  {
    if es != [] {
      assert forall i :: 0 <= i < |es[1..]| ==> es[1..][i] == es[i + 1];
      BodyOfExpressions(es[1..], vars, Add(acc, Raw(Eval(es[0], vars))));
      ExpressionFirst(es, vars, acc);
    } else {
      assert acc + Kept(RawResults(es, vars)) == acc;
    }
  }

  /**
   * A truthy `if` over expressions buffers their values in program order,
   * all of them when none is the SUCCESS token's text.
   */
  lemma IfTrueBuffersInOrder(c: Node, es: seq<Node>, vars: Vars)
    requires Truthy(Eval(c, vars))
    requires forall i :: 0 <= i < |es| ==> IsExpression(es[i])
    ensures Exec(IfStatement(c, Block(es)), vars) == Step(Ok(Buffer(Kept(RawResults(es, vars)))), vars)
    ensures (forall i :: 0 <= i < |es| ==> Eval(es[i], vars) != Str("EOL: SUCCESS")) ==>
      Exec(IfStatement(c, Block(es)), vars) == Step(Ok(Buffer(RawResults(es, vars))), vars)
  {
    BodyOfExpressions(es, vars, []);
    assert [] + Kept(RawResults(es, vars)) == Kept(RawResults(es, vars));
    IfTrueStep(c, Block(es), vars, Kept(RawResults(es, vars)));
    if forall i :: 0 <= i < |es| ==> Eval(es[i], vars) != Str("EOL: SUCCESS") {
      AllRawKept(es, vars);
    }
  }

  /** A truthy `if` whose body adds `items` without writing yields them as one buffer. */
  lemma IfTrueStep(c: Node, body: Block, vars: Vars, items: seq<Outcome>)
    requires Truthy(Eval(c, vars))
    requires ExecBody(body.stmts, vars, []) == Step(Ok(items), vars)
    ensures Exec(IfStatement(c, body), vars) == Step(Ok(Buffer(items)), vars)
  {
  }

  /** The text the SUCCESS token's `toString` gives. */
  lemma SuccessText()
    ensures SuccessToken.ToString() == "EOL: SUCCESS"
  {
  }

  /**
   * Among the results a statement yields, exactly SUCCESS itself and the
   * string "EOL: SUCCESS" compare equal to SUCCESS.
   */
  lemma SuccessEqualsOnlyItsText(v: Value)
    ensures IsSuccess(Suppressed) && !IsSuccess(Displayable(v))
    ensures IsSuccess(Raw(v)) <==> v == Str("EOL: SUCCESS")
    ensures forall items: seq<Outcome> :: !IsSuccess(Buffer(items))
  {
    SuccessText();
  }

  /**
   * The string "EOL: SUCCESS" is dropped like SUCCESS: a statement whose
   * value it is adds nothing, at top level or inside an `if` body.
   */
  lemma SuccessTextDropped(c: Node, rest: seq<Node>, vars: Vars, acc: seq<Outcome>)
    requires Truthy(Eval(c, vars))
    ensures RunBody([StringLit("EOL: SUCCESS")] + rest, vars, acc) == RunBody(rest, vars, acc)
    ensures Exec(IfStatement(c, Block([StringLit("EOL: SUCCESS")])), vars) == Step(Ok(Buffer([])), vars)
  {
    SuccessText();
    var e := StringLit("EOL: SUCCESS");
    assert ([e] + rest)[0] == e && ([e] + rest)[1..] == rest;
    IfTrueBuffersInOrder(c, [e], vars);
    assert RawResults([e], vars) == [Raw(Str("EOL: SUCCESS"))];
    assert Kept([Raw(Str("EOL: SUCCESS"))]) == [];
  }

  // ------------------------------------------------------------ expressions

  /** The ternary evaluates only the branch its condition selects. */
  lemma TernaryEvaluatesChosenBranch(c: Node, t: Node, f: Node, other: Node, vars: Vars)
    ensures Truthy(Eval(c, vars)) ==>
      Eval(TernaryOperator(c, t, f), vars) == Eval(t, vars) == Eval(TernaryOperator(c, t, other), vars)
    ensures !Truthy(Eval(c, vars)) ==>
      Eval(TernaryOperator(c, t, f), vars) == Eval(f, vars) == Eval(TernaryOperator(c, other, f), vars)
  {
    TernaryPicks(c, t, f, vars);
    if Truthy(Eval(c, vars)) {
      TernaryPicks(c, t, other, vars);
    } else {
      TernaryPicks(c, other, f, vars);
    }
  }

  /** One ternary node, evaluated. */
  lemma TernaryPicks(c: Node, t: Node, f: Node, vars: Vars)
    ensures Eval(TernaryOperator(c, t, f), vars) == if Truthy(Eval(c, vars)) then Eval(t, vars) else Eval(f, vars)
  {
  }

  /** `type` names the operand's type; an unset name has type "undefined". */
  lemma TypeOfNames(e: Node, x: string, vars: Vars)
    ensures Eval(TypeOf(e), vars) == Str(TypeName(Eval(e, vars)))
    ensures x !in vars ==> Eval(TypeOf(Identifier(x)), vars) == Str("undefined")
    ensures Eval(TypeOf(NumberLit(0.0)), vars) == Str("number")
  {
  }

  // ------------------------------------------------------------ emitSrc

  /** Running two lists of statements one after the other is running their concatenation. */
  lemma {:induction false} RunBodyConcat(s1: seq<Node>, s2: seq<Node>, vars: Vars, acc: seq<Outcome>)
    ensures var first := RunBody(s1, vars, acc);
      RunBody(s1 + s2, vars, acc)
        == if first.result.Err? then first else RunBody(s2, first.vars, first.result.value)
    decreases |s1|
  {
    if s1 == [] {
      assert s1 + s2 == s2;
    } else {
      assert (s1 + s2)[0] == s1[0];
      assert (s1 + s2)[1..] == s1[1..] + s2;
      var st := Exec(s1[0], vars);
      if st.result.Ok? && IsBuffer(st.result.value).Ok? {
        var o := st.result.value;
        var next := if o.Buffer? then acc + o.items else if IsSuccess(o) then acc else acc + [o];
        RunBodyConcat(s1[1..], s2, st.vars, next);
      }
    }
  }

  /**
   * Results already collected stay in front, in order; none of the results
   * is SUCCESS.
   */
  lemma {:induction false} RunBodyKeepsOrder(stmts: seq<Node>, vars: Vars, acc: seq<Outcome>)
    requires NoneSuccess(acc)
    ensures var st := RunBody(stmts, vars, acc);
      st.result.Ok? ==> acc <= st.result.value && NoneSuccess(st.result.value)
    decreases |stmts|
  {
    if stmts != [] {
      var st := Exec(stmts[0], vars);
      BufferIsClean(stmts[0], vars);
      if st.result.Ok? && IsBuffer(st.result.value).Ok? {
        var o := st.result.value;
        var next := if o.Buffer? then acc + o.items else if IsSuccess(o) then acc else acc + [o];
        RunBodyKeepsOrder(stmts[1..], st.vars, next);
      }
    }
  }

  /** A top-level buffer contributes its items one by one. */
  lemma TopLevelBufferFlattened(s: Node, vars: Vars, acc: seq<Outcome>)
    requires Exec(s, vars).result.Ok? && Exec(s, vars).result.value.Buffer?
    ensures RunBody([s], vars, acc) == Step(Ok(acc + Exec(s, vars).result.value.items), Exec(s, vars).vars)
  {
    assert [s][1..] == [];
  }

  /** A buffer inside a buffer stays one element: flattening goes one level deep. */
  lemma NestedBufferKept(c: Node, inner: Node, vars: Vars)
    requires Truthy(Eval(c, vars))
    requires Exec(inner, vars).result.Ok? && Exec(inner, vars).result.value.Buffer?
    ensures RunBody([IfStatement(c, Block([inner]))], vars, []).result
         == Ok([Exec(inner, vars).result.value])
  {
    var outer := IfStatement(c, Block([inner]));
    var o := Exec(inner, vars).result.value;
    assert [inner][0] == inner && [inner][1..] == [];
    assert Add([], o) == [o];
    assert ExecBody([inner], vars, []).result == Ok([Exec(inner, vars).result.value]);
    TopLevelBufferFlattened(outer, vars, []);
  }

  /** A top-level expression worth undefined or null stops the run; inside an `if` it is kept. */
  lemma UndefinedResultPlacement(e: Node, c: Node, rest: seq<Node>, vars: Vars, acc: seq<Outcome>)
    requires IsExpression(e) && IsNullish(Eval(e, vars))
    ensures RunBody([e] + rest, vars, acc) == Step(Err(UndefinedResult), vars)
    ensures Truthy(Eval(c, vars)) ==>
      RunBody([IfStatement(c, Block([e]))], vars, acc) == Step(Ok(acc + [Raw(Eval(e, vars))]), vars)
  {
    assert ([e] + rest)[0] == e;
    if Truthy(Eval(c, vars)) {
      IfTrueBuffersInOrder(c, [e], vars);
      assert RawResults([e], vars) == [Raw(Eval(e, vars))];
      assert Kept([Raw(Eval(e, vars))]) == [Raw(Eval(e, vars))];
      TopLevelBufferFlattened(IfStatement(c, Block([e])), vars, acc);
    }
  }

  /** A source that does not parse yields the parse error and leaves the variables alone. */
  lemma ParseFailureKeepsVars(rawSrc: string, vars: Vars)
    requires G.ProgramOf(Lexer.Tokenize(rawSrc)).Err?
    ensures Run(rawSrc, vars) == Step(Err(ParseFailed(G.ProgramOf(Lexer.Tokenize(rawSrc)).error)), vars)
  {
  }

  /** A value assigned by one run is what the next run reads back. */
  lemma AssignThenOutput(x: string, n: real, vars: Vars)
    ensures var first := RunBody([VariableAssignment(Identifier(x), NumberLit(n), "=")], vars, []);
      && first == Step(Ok([]), vars[x := Num(n)])
      && RunBody([Output(Identifier(x))], first.vars, []) == Step(Ok([Displayable(Num(n))]), first.vars)
  {
    AssignmentStores(x, NumberLit(n), "=", vars);
    assert [VariableAssignment(Identifier(x), NumberLit(n), "=")][1..] == [];
    var after := vars[x := Num(n)];
    assert Eval(Identifier(x), after) == Num(n);
    assert Exec(Output(Identifier(x)), after) == Step(Ok(Displayable(Num(n))), after);
    assert [Output(Identifier(x))][0] == Output(Identifier(x)) && [Output(Identifier(x))][1..] == [];
    assert [] + [Displayable(Num(n))] == [Displayable(Num(n))];
  }

  /**
   * One emitter across two calls: the second call runs on the variables
   * the first call left, and neither call sees variables from elsewhere.
   */
  method Session(first: string, second: string)
    returns (r1: Result<seq<Outcome>, EmitError>, r2: Result<seq<Outcome>, EmitError>)
    ensures r1 == Run(first, map[]).result
    ensures r2 == Run(second, Run(first, map[]).vars).result
  {
    var emitter := new E.Emitter();
    r1 := emitter.EmitSrc(first);
    r2 := emitter.EmitSrc(second);
  }
}
