/**
 * The objects of frontend/emitter.ts: the StmtBuffer an `if` body fills, and
 * the Emitter whose variable map survives from one `EmitSrc` call to the next.
 * Each method is proved to compute what the Semantics functions say.
 */
module Emitter {
  import opened Wrappers
  import opened Ast
  import opened Values
  import opened Semantics
  import P = Parser

  class StmtBuffer {
    var stmts: seq<Outcome>

    /** Holds only results that `add` let through. */
    predicate Valid()
      reads this
    {
      NoneSuccess(stmts)
    }

    constructor()
      ensures stmts == [] && Valid()
    {
      stmts := [];
    }

    /** `add`: a result other than SUCCESS goes at the end. */
    method Add(result: Outcome)
      requires Valid()
      modifies this
      ensures stmts == Semantics.Add(old(stmts), result)
      ensures Valid()
    {
      if !IsSuccess(result) {
        stmts := stmts + [result];
      }
    }

    /** `retrieve`: the results added so far, in order, none of them SUCCESS. */
    function Retrieve(): (items: seq<Outcome>)
      requires Valid()
      reads this
      ensures NoneSuccess(items)
      ensures items == stmts
    {
      stmts
    }
  }

  class Emitter {
    var variables: Vars

    constructor()
      ensures variables == map[]
    {
      variables := map[];
    }

    /** `emitStmt`: only an assignment, possibly inside an `if` body, changes `variables`. */
    method EmitStmt(s: Node) returns (r: Result<Outcome, EmitError>)
      modifies this
      decreases s
      ensures Step(r, variables) == Exec(s, old(variables))
    {
      match s
      case VariableAssignment(target, value, op) =>
        var varVal := EmitStmt(value);
        if varVal.Err? {
          return varVal;
        }
        var key := TargetKey(target);
        if key.Some? {
          if !varVal.value.Raw? {
            return Err(StoredNonValue(key.value));
          }
          variables := variables[key.value := Assigned(Lookup(variables, key.value), op, varVal.value.value)];
        }
        return Ok(Suppressed);
      case Output(value) =>
        return Ok(Displayable(Eval(value, variables)));
      case Comment(_) =>
        return Ok(Suppressed);
      case IfStatement(condition, body) =>
        var ifTrue := new StmtBuffer();
        if Truthy(Eval(condition, variables)) {
          var k := 0;
          while k < |body.stmts|
            invariant 0 <= k <= |body.stmts|
            invariant ifTrue.Valid()
            invariant ExecBody(body.stmts, old(variables), []) == ExecBody(body.stmts[k..], variables, ifTrue.stmts)
          {
            assert body.stmts[k..][0] == body.stmts[k];
            assert body.stmts[k..][1..] == body.stmts[k + 1..];
            var inner := EmitStmt(body.stmts[k]);
            if inner.Err? {
              return Err(inner.error);
            }
            ifTrue.Add(inner.value);
            k := k + 1;
          }
          return Ok(Buffer(ifTrue.Retrieve()));
        }
        return Ok(Suppressed);
      case _ =>
        return Ok(Raw(Eval(s, variables)));
    }

    /** The forEach of emitSrc that pushes a buffer's items onto the results, one by one. */
    static method PushAll(results: seq<Outcome>, items: seq<Outcome>) returns (pushed: seq<Outcome>)
      ensures pushed == results + items
    {
      pushed := results;
      for j := 0 to |items|
        invariant pushed == results + items[..j]
      {
        pushed := pushed + [items[j]];
      }
      assert items[..|items|] == items;
    }

    /**
     * `emitSrc`: a fresh parser reads the source, and the top-level statements
     * run in order on the variables left by earlier calls.
     */
    method EmitSrc(rawSrc: string) returns (r: Result<seq<Outcome>, EmitError>)
      modifies this
      ensures Step(r, variables) == Run(rawSrc, old(variables))
    {
      var parser := new P.Parser();
      var program := parser.Parse(rawSrc);
      if program.Err? {
        return Err(ParseFailed(program.error));
      }
      var stmts := program.value.body.stmts;
      var results: seq<Outcome> := [];
      var k := 0;
      while k < |stmts|
        invariant 0 <= k <= |stmts|
        invariant Run(rawSrc, old(variables)) == RunBody(stmts[k..], variables, results)
      {
        assert stmts[k..][0] == stmts[k];
        assert stmts[k..][1..] == stmts[k + 1..];
        var result := EmitStmt(stmts[k]);
        if result.Err? {
          return Err(result.error);
        }
        var isBuffer :- IsBuffer(result.value);
        if isBuffer {
          results := PushAll(results, result.value.items);
        } else if !IsSuccess(result.value) {
          results := results + [result.value];
        }
        k := k + 1;
      }
      return Ok(results);
    }
  }
}
