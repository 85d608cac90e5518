/** `Parser` of src/parser.rs: a cursor over a fixed token sequence and an
    output list. Every method is specified by the function of `Grammar` that
    describes it, so that what is proved about those functions holds of the
    methods. The arms of `parse_expr` are split into one method per form,
    each matching the function of the same form. */
module Parsing {
  import opened Tokens
  import opened Ast
  import opened Grammar

  /** The loop of the `TType::Lambda` arm that wraps the body in one
      `Lambda` per parameter, the last parameter innermost. */
  method WrapLambdas(params: seq<string>, body: Expr) returns (r: Expr)
    ensures r == FoldLambdas(params, body)
  {
    r := body;
    var i := |params|;
    while i > 0
      invariant 0 <= i <= |params|
      invariant r == FoldLambdas(params[i..], body)
    {
      i := i - 1;
      assert params[i..][1..] == params[i + 1..];
      r := Expr.Lambda(params[i], r);
    }
  }

  class Parser {
    const input: seq<Token>
    var output: seq<Expr>
    var current: nat

    /** The cursor never passes the sentinel token. */
    ghost predicate Valid()
      reads this
    {
      current < |input| || input == []
    }

    /** `Parser::new`: positioned at the first token, nothing validated. */
    constructor (input: seq<Token>)
      ensures this.input == input && output == [] && current == 0
      ensures Valid()
    {
      this.input := input;
      output := [];
      current := 0;
    }

    /** `Parser::peek`. */
    function Peek(): (t: Option<Token>)
      reads this
      ensures t.Some? <==> current < |input|
      ensures t.Some? ==> t.value == input[current]
    {
      if current < |input| then Some(input[current]) else None
    }

    /** `Parser::is_at_end`: only the sentinel is left. */
    function IsAtEnd(): (b: bool)
      reads this
      ensures b <==> |input| <= current + 1
      ensures !b ==> Peek().Some?
    {
      current + 1 >= |input|
    }

    /** `Parser::pop`. */
    method Pop() returns (r: Result<Token>)
      requires current < |input|
      modifies this`current
      ensures current < |input|
      ensures old(current) + 1 >= |input| ==>
                r == ErrAt(input[old(current)], UnfinishedExpression) && current == old(current)
      ensures old(current) + 1 < |input| ==> r == Ok(input[old(current)]) && current == old(current) + 1
      ensures Step(r, current) == Grammar.Pop(input, old(current))
    {
      if current + 1 >= |input| {
        var previous := input[current];
        return Err(previous.line, previous.col, UnfinishedExpression);
      }
      current := current + 1;
      return Ok(input[current - 1]);
    }

    /** `Parser::advance`. */
    method Advance(expected: TType) returns (r: Result<Token>)
      requires current < |input|
      modifies this`current
      ensures r.Ok? <==> old(current) + 1 < |input| && KindOf(input[old(current)].ttype) == KindOf(expected)
      ensures r.Ok? ==> r.value == input[old(current)] && current == old(current) + 1
      ensures old(current) + 1 < |input| && KindOf(input[old(current)].ttype) != KindOf(expected) ==>
                current == old(current) + 1 &&
                r == ErrAt(input[old(current)], Expected(KindOf(expected), KindOf(input[old(current)].ttype)))
      ensures Step(r, current) == Grammar.Advance(input, old(current), expected)
    {
      var popped := Pop();
      if popped.Err? {
        return popped;
      }
      if KindOf(popped.value.ttype) != KindOf(expected) {
        return Err(popped.value.line, popped.value.col, Expected(KindOf(expected), KindOf(popped.value.ttype)));
      }
      return popped;
    }

    /** `Parser::advance_many`. */
    method AdvanceMany(expected: TType) returns (r: Result<seq<Token>>)
      requires current < |input|
      modifies this`current
      ensures Step(r, current) == Grammar.AdvanceMany(input, old(current), expected, [])
    {
      var toret: seq<Token> := [];
      while !IsAtEnd() && KindOf(Peek().value.ttype) == KindOf(expected)
        invariant old(current) <= current < |input|
        invariant Grammar.AdvanceMany(input, current, expected, toret) == Grammar.AdvanceMany(input, old(current), expected, [])
        decreases |input| - current
      {
        // The `?` of the source never fires: the token is there and has the kind.
        var t := Advance(expected);
        toret := toret + [t.value];
      }
      return Ok(toret);
    }

    /** `Parser::parse_expr`. */
    method ParseExpr() returns (r: Result<Expr>)
      requires current < |input| && WellFormed(input)
      modifies this`current
      ensures Step(r, current) == Grammar.ParseExpr(input, old(current))
      decreases |input| - current, 0
    {
      var root := Pop();
      if root.Err? {
        return root.Cast();
      }
      var t := root.value;
      match t.ttype {
        case Str(s) => r := Ok(Expr.String(s));
        case Float(f) => r := Ok(Single(f));
        case Number(i) => r := Ok(Integer(i));
        case Ident(v) => r := Ok(Var(v));
        case LParen => r := ParseParen();
        case RParen => r := Err(t.line, t.col, UnexpectedClosingParen);
        case _ => r := Err(t.line, t.col, UnexpectedKeyword);
      }
    }

    /** The `TType::LParen` arm of `parse_expr`, after the `(`. */
    method ParseParen() returns (r: Result<Expr>)
      requires current < |input| && WellFormed(input)
      modifies this`current
      ensures Step(r, current) == Grammar.Paren(input, old(current))
      decreases |input| - current, 3
    {
      var sub := Pop();
      if sub.Err? {
        return sub.Cast();
      }
      var t := sub.value;
      match t.ttype {
        case LParen => r := ParseExpr();
        case Def => r := ParseDef();
        case Enum => r := ParseEnum();
        case Lambda => r := ParseLambda();
        case Ident(x) => r := ParseCall(x);
        case RParen => r := Ok(Unit);
        case _ => r := Err(t.line, t.col, ExpectedParenOrIdent(KindOf(t.ttype)));
      }
    }

    /** The closing `)` of a form, taken only when the input has not
        ended. */
    method CloseUnlessAtEnd() returns (r: Result<()>)
      requires current < |input|
      modifies this`current
      ensures Step(r, current) == Grammar.CloseUnlessAtEnd(input, old(current))
    {
      if !IsAtEnd() {
        var c := Advance(RParen);
        if c.Err? {
          return c.Cast();
        }
      }
      return Ok(());
    }

    /** The `TType::Def` arm, after `def`. */
    method ParseDef() returns (r: Result<Expr>)
      requires current < |input| && WellFormed(input)
      modifies this`current
      ensures Step(r, current) == Grammar.DefForm(input, old(current))
      decreases |input| - current, 2
    {
      var rawName := Advance(Ident(""));
      if rawName.Err? {
        return rawName.Cast();
      }
      // The `bug!` branch of the source is unreachable: the kind was checked.
      var name := rawName.value.ttype.id;
      var value := ParseExpr();
      if value.Err? {
        return value;
      }
      var c := CloseUnlessAtEnd();
      if c.Err? {
        return c.Cast();
      }
      r := Ok(Expr.Def(name, value.value));
    }

    /** The `TType::Enum` arm, after `enum`. */
    method ParseEnum() returns (r: Result<Expr>)
      requires current < |input| && WellFormed(input)
      modifies this`current
      ensures Step(r, current) == Grammar.EnumForm(input, old(current))
      decreases |input| - current, 2
    {
      var rName := Advance(Ident(""));
      if rName.Err? {
        return rName.Cast();
      }
      var name := rName.value.ttype.id;
      if !StartsCapital(name) {
        return Err(rName.value.line, rName.value.col, EnumNameNotCapital);
      }
      var variants: seq<string> := [];
      var containing: seq<U8> := [];
      ghost var start := current;
      while !IsAtEnd() && !Peek().value.ttype.RParen?
        invariant start <= current < |input|
        invariant Grammar.Variants(input, current, variants, containing) == Grammar.Variants(input, start, [], [])
        decreases |input| - current
      {
        var v := ParseVariant();
        if v.Err? {
          return v.Cast();
        }
        variants := variants + [v.value.0];
        containing := containing + [v.value.1];
      }
      // The loop stopped at the end or at `)`, so the close cannot fail.
      var c := CloseUnlessAtEnd();
      if c.Err? {
        assert false;
      }
      r := Ok(Expr.Enum(name, variants, containing));
    }

    /** The body of the variant loop of the `TType::Enum` arm: one
        `(Name field ...)`, as the name and the field count as a byte. */
    method ParseVariant() returns (r: Result<(string, U8)>)
      requires current < |input| && WellFormed(input)
      modifies this`current
      ensures Step(r, current) == Grammar.Variant(input, old(current))
    {
      var l := Advance(LParen);
      if l.Err? {
        return l.Cast();
      }
      var vName := Advance(Ident(""));
      if vName.Err? {
        return vName.Cast();
      }
      var vname := vName.value.ttype.id;
      if !StartsCapital(vname) {
        return Err(vName.value.line, vName.value.col, VariantNameNotCapital);
      }
      var fields := AdvanceMany(Ident(""));
      var length := ToU8(|fields.value|);
      var rp := Advance(RParen);
      if rp.Err? {
        return rp.Cast();
      }
      r := Ok((vname, length));
    }

    /** The `TType::Lambda` arm, after `lambda`. */
    method ParseLambda() returns (r: Result<Expr>)
      requires current < |input| && WellFormed(input)
      modifies this`current
      ensures Step(r, current) == Grammar.LambdaForm(input, old(current))
      decreases |input| - current, 2
    {
      var l := Advance(LParen);
      if l.Err? {
        return l.Cast();
      }
      var args := AdvanceMany(Ident(""));
      var rp := Advance(RParen);
      if rp.Err? {
        return rp.Cast();
      }
      var params := Names(args.value);
      var parsed := ParseExpr();
      if parsed.Err? {
        return parsed;
      }
      var body := WrapLambdas(params, parsed.value);
      var c := CloseUnlessAtEnd();
      if c.Err? {
        return c.Cast();
      }
      r := Ok(body);
    }

    /** The `TType::Ident(x)` arm, after the identifier `x`. */
    method ParseCall(x: string) returns (r: Result<Expr>)
      requires current < |input| && WellFormed(input)
      modifies this`current
      ensures Step(r, current) == Grammar.CallForm(input, old(current), x)
      decreases |input| - current, 2
    {
      var func := Var(x);
      var args: seq<Expr> := [];
      ghost var start := current;
      while !IsAtEnd() && !Peek().value.ttype.RParen?
        invariant start <= current < |input|
        invariant Grammar.CallArgs(input, current, args) == Grammar.CallArgs(input, start, [])
        decreases |input| - current
      {
        var a := ParseExpr();
        if a.Err? {
          return a.Cast();
        }
        args := args + [a.value];
      }
      // The loop stopped at the end or at `)`, so the close cannot fail.
      var c := CloseUnlessAtEnd();
      if c.Err? {
        assert false;
      }
      r := Ok(FoldCalls(func, args));
    }

    /** `Parser::parse`. */
    method Parse() returns (r: Result<seq<Expr>>)
      requires Valid() && WellFormed(input)
      modifies this`current, this`output
      ensures Run(r, current, output) == Grammar.ParseAll(input, old(current), old(output))
    {
      while !IsAtEnd()
        invariant Valid()
        invariant Grammar.ParseAll(input, current, output) == Grammar.ParseAll(input, old(current), old(output))
        decreases |input| - current
      {
        var toPush := ParseExpr();
        if toPush.Err? {
          return toPush.Cast();
        }
        output := output + [toPush.value];
      }
      r := Ok(output);
    }
  }
}
