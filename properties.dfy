/** What the parser promises, proved about the functions of `Grammar` (and so
    about the methods of `Parsing.Parser`, which those functions specify). */
module Properties {
  import opened Tokens
  import opened Ast
  import opened Grammar

  /** `es` are the results of parsing expressions one after the other,
      starting at `pos` and stopping at `end`. */
  ghost predicate Sequenced(input: seq<Token>, pos: nat, es: seq<Expr>, end: nat)
    requires WellFormed(input)
    decreases |es|
  {
    if es == [] then pos == end
    else
      pos < |input| && ParseExpr(input, pos).res == Ok(es[0]) &&
      Sequenced(input, ParseExpr(input, pos).at, es[1..], end)
  }

  // ---------------------------------------------------------------- cursor

  /** `advance` compares kinds only: the payload of the template does not
      matter, and `Ident("")` accepts any identifier. */
  lemma AdvanceComparesKinds(input: seq<Token>, pos: nat, a: TType, b: TType)
    requires pos < |input| && KindOf(a) == KindOf(b)
    ensures Advance(input, pos, a) == Advance(input, pos, b)
    ensures !AtEnd(input, pos) && input[pos].ttype.Ident? ==>
              Advance(input, pos, Ident("")) == Step(Ok(input[pos]), pos + 1)
  {
  }

  /** On a mismatch `advance` has already consumed the token it reports. */
  lemma AdvanceMismatchConsumes(input: seq<Token>, pos: nat, expected: TType)
    requires pos + 1 < |input| && KindOf(input[pos].ttype) != KindOf(expected)
    ensures Advance(input, pos, expected) ==
            Step(ErrAt(input[pos], Expected(KindOf(expected), KindOf(input[pos].ttype))), pos + 1)
  {
  }

  /** The run `advance_many` takes is determined by the token that ends it. */
  lemma {:induction false} AdvanceManyStopsAt(input: seq<Token>, pos: nat, stop: nat, expected: TType)
    requires pos <= stop < |input|
    requires forall i :: pos <= i < stop ==> KindOf(input[i].ttype) == KindOf(expected)
    requires AtEnd(input, stop) || KindOf(input[stop].ttype) != KindOf(expected)
    ensures AdvanceMany(input, pos, expected, []) == Step(Ok(input[pos..stop]), stop)
  {
    var s := AdvanceMany(input, pos, expected, []);
    assert s.at == stop;
    assert s.res.value == [] + input[pos..stop] == input[pos..stop];
  }

  // ------------------------------------------------------------- dispatch

  /** The root token decides single-token forms; `(` opens the others. */
  lemma RootDispatch(input: seq<Token>, pos: nat)
    requires pos < |input| && WellFormed(input)
    ensures AtEnd(input, pos) ==> ParseExpr(input, pos) == Step(ErrAt(input[pos], UnfinishedExpression), pos)
    ensures !AtEnd(input, pos) ==>
      var t := input[pos];
      var s := ParseExpr(input, pos);
      (t.ttype.Str? ==> s == Step(Ok(Expr.String(t.ttype.text)), pos + 1)) &&
      (t.ttype.Float? ==> s == Step(Ok(Single(t.ttype.bits)), pos + 1)) &&
      (t.ttype.Number? ==> s == Step(Ok(Integer(t.ttype.num)), pos + 1)) &&
      (t.ttype.Ident? ==> s == Step(Ok(Var(t.ttype.id)), pos + 1)) &&
      (t.ttype.LParen? ==> s == Paren(input, pos + 1)) &&
      (t.ttype.RParen? ==> s == Step(ErrAt(t, UnexpectedClosingParen), pos + 1)) &&
      (t.ttype.Def? || t.ttype.Enum? || t.ttype.Lambda? || t.ttype.Other? ==>
         s == Step(ErrAt(t, UnexpectedKeyword), pos + 1))
  {
  }

  /** After `(`, the second token decides the form. */
  lemma ParenDispatch(input: seq<Token>, pos: nat)
    requires pos + 1 < |input| && WellFormed(input)
    ensures
      var t := input[pos];
      var s := Paren(input, pos);
      (t.ttype.LParen? ==> s == ParseExpr(input, pos + 1)) &&
      (t.ttype.Def? ==> s == DefForm(input, pos + 1)) &&
      (t.ttype.Enum? ==> s == EnumForm(input, pos + 1)) &&
      (t.ttype.Lambda? ==> s == LambdaForm(input, pos + 1)) &&
      (t.ttype.Ident? ==> s == CallForm(input, pos + 1, t.ttype.id)) &&
      (t.ttype.RParen? ==> s == Step(Ok(Unit), pos + 1)) &&
      (t.ttype.Str? || t.ttype.Float? || t.ttype.Number? || t.ttype.Other? ==>
         s == Step(ErrAt(t, ExpectedParenOrIdent(KindOf(t.ttype))), pos + 1))
  {
  }

  /** `((`: the second `(` is taken as the root of the next expression,
      which is returned as it is; no `)` is consumed for either `(`. */
  lemma DoubleOpen(input: seq<Token>, pos: nat)
    requires pos + 2 < |input| && WellFormed(input)
    requires input[pos].ttype.LParen? && input[pos + 1].ttype.LParen?
    ensures ParseExpr(input, pos) == ParseExpr(input, pos + 2)
  {
  }

  // ---------------------------------------------------------------- calls

  /** Folding arguments onto a head that is not itself a call builds a
      spine of exactly one `Call` per argument, in order. */
  lemma {:induction false} FoldCallsSpine(func: Expr, args: seq<Expr>)
    requires !func.Call?
    ensures SpineHead(FoldCalls(func, args)) == func
    ensures SpineArgs(FoldCalls(func, args)) == args
  {
    if args != [] {
      FoldCallsSpine(func, args[..|args| - 1]);
    }
  }

  /** The argument loop parses its arguments one after the other and stops
      at the end of input or at a `)`. */
  lemma {:induction false} CallArgsInOrder(input: seq<Token>, pos: nat, acc: seq<Expr>)
    requires pos < |input| && WellFormed(input)
    ensures var s := CallArgs(input, pos, acc);
            s.res.Ok? ==> s.res.value[..|acc|] == acc && Sequenced(input, pos, s.res.value[|acc|..], s.at)
    decreases |input| - pos
  {
    var s := CallArgs(input, pos, acc);
    if AtEnd(input, pos) || input[pos].ttype.RParen? {
      assert s.res.value[|acc|..] == [];
    } else {
      var a := ParseExpr(input, pos);
      if a.res.Ok? {
        var acc' := acc + [a.res.value];
        CallArgsInOrder(input, a.at, acc');
        if s.res.Ok? {
          assert s == CallArgs(input, a.at, acc');
          PrefixStep(acc, a.res.value, s.res.value);
        }
      }
    }
  }

  /** A sequence that starts with `acc + [x]` starts with `acc`, and what
      follows `acc` is `x` and then what follows `acc + [x]`. */
  lemma PrefixStep<T>(acc: seq<T>, x: T, v: seq<T>)
    requires |acc| < |v| && v[..|acc| + 1] == acc + [x]
    ensures v[..|acc|] == acc && v[|acc|..][0] == x && v[|acc|..][1..] == v[|acc| + 1..]
  {
    assert v[..|acc|] == v[..|acc| + 1][..|acc|];
    assert v[|acc|] == v[..|acc| + 1][|acc|];
  }

  /** `(f a1 ... an)` yields `Call(...Call(Var f, a1)..., an)`: the head is
      `Var f`, the arguments are the expressions parsed in order, and the
      closing `)` is consumed unless the input ended first. */
  lemma CallFormShape(input: seq<Token>, pos: nat, f: string)
    requires pos < |input| && WellFormed(input)
    ensures
      var s := CallForm(input, pos, f);
      var a := CallArgs(input, pos, []);
      s.res.Ok? ==>
        a.res.Ok? && SpineHead(s.res.value) == Var(f) && SpineArgs(s.res.value) == a.res.value &&
        Sequenced(input, pos, a.res.value, a.at) &&
        (if AtEnd(input, a.at) then s.at == a.at else input[a.at].ttype.RParen? && s.at == a.at + 1)
  {
    var a := CallArgs(input, pos, []);
    CallArgsInOrder(input, pos, []);
    if a.res.Ok? {
      FoldCallsSpine(Var(f), a.res.value);
      assert a.res.value[0..] == a.res.value;
    }
  }

  /** `(f)` is the variable `f` itself. */
  lemma CallWithoutArguments(input: seq<Token>, pos: nat)
    requires pos + 3 < |input| && WellFormed(input)
    requires input[pos].ttype.LParen? && input[pos + 1].ttype.Ident? && input[pos + 2].ttype.RParen?
    ensures ParseExpr(input, pos) == Step(Ok(Var(input[pos + 1].ttype.id)), pos + 3)
  {
    var f := input[pos + 1].ttype.id;
    assert CallArgs(input, pos + 2, []) == Step(Ok([]), pos + 2);
    assert CallForm(input, pos + 2, f) == Step(Ok(Var(f)), pos + 3);
    assert Paren(input, pos + 1) == CallForm(input, pos + 2, f);
  }

  // -------------------------------------------------------------- lambdas

  /** The parameters can be read back off the folded lambda, leftmost
      outermost, and what is left is the body; with none the body itself is
      the result. */
  lemma {:induction false} UnfoldFoldLambdas(params: seq<string>, body: Expr)
    ensures Unfold(FoldLambdas(params, body), |params|) == Some((params, body))
    ensures params == [] ==> FoldLambdas(params, body) == body
  {
    if params != [] {
      UnfoldFoldLambdas(params[1..], body);
      assert [params[0]] + params[1..] == params;
    }
  }

  /** The lambda form yields the body wrapped in one `Lambda` per
      parameter, the leftmost outermost. */
  lemma LambdaFormShape(input: seq<Token>, pos: nat)
    requires pos < |input| && WellFormed(input)
    ensures
      var s := LambdaForm(input, pos);
      s.res.Ok? ==>
        !AtEnd(input, pos) && input[pos].ttype.LParen? &&
        var ps := AdvanceMany(input, pos + 1, Ident(""), []);
        input[ps.at].ttype.RParen? && !AtEnd(input, ps.at) &&
        ParseExpr(input, ps.at + 1).res.Ok? &&
        s.res.value == FoldLambdas(Names(ps.res.value), ParseExpr(input, ps.at + 1).res.value)
  {
    ParametersShape(input, pos);
  }

  /** A parameter list that is read is `(`, a run of identifiers and `)`,
      and yields the names of the run. */
  lemma ParametersShape(input: seq<Token>, pos: nat)
    requires pos < |input| && WellFormed(input)
    ensures
      var s := Parameters(input, pos);
      s.res.Ok? ==>
        !AtEnd(input, pos) && input[pos].ttype.LParen? &&
        var ps := AdvanceMany(input, pos + 1, Ident(""), []);
        input[ps.at].ttype.RParen? && !AtEnd(input, ps.at) &&
        s == Step(Ok(Names(ps.res.value)), ps.at + 1)
  {
    var s := Parameters(input, pos);
    if s.res.Ok? {
      var l := Advance(input, pos, LParen);
      assert l.res.Ok? && l.at == pos + 1;
      var ps := AdvanceMany(input, pos + 1, Ident(""), []);
      var r := Advance(input, ps.at, RParen);
      assert r.res.Ok? && r.at == ps.at + 1;
    }
  }

  /** The `)` after the parameter list is mandatory: any other token there
      fails the lambda at that token. */
  lemma LambdaNeedsClosedParameters(input: seq<Token>, pos: nat)
    requires pos + 1 < |input| && WellFormed(input) && input[pos].ttype.LParen?
    ensures
      var ps := AdvanceMany(input, pos + 1, Ident(""), []);
      !AtEnd(input, ps.at) && !input[ps.at].ttype.RParen? ==>
        LambdaForm(input, pos) ==
        Step(ErrAt(input[ps.at], Expected(KRParen, KindOf(input[ps.at].ttype))), ps.at + 1)
  {
    var ps := AdvanceMany(input, pos + 1, Ident(""), []);
    assert Advance(input, pos, LParen) == Step(Ok(input[pos]), pos + 1);
  }

  // ---------------------------------------------------------------- enums

  /** One variant `(Name f1 ... fk)` appends its name and its arity `k`
      taken mod 256 (`as u8`) to the two lists, keeping them in step. */
  lemma VariantStep(input: seq<Token>, pos: nat, names: seq<string>, arities: seq<U8>, k: nat)
    requires WellFormed(input) && pos + k + 3 < |input|
    requires input[pos].ttype.LParen? && input[pos + 1].ttype.Ident? && StartsCapital(input[pos + 1].ttype.id)
    requires forall i :: pos + 2 <= i < pos + 2 + k ==> input[i].ttype.Ident?
    requires input[pos + 2 + k].ttype.RParen?
    ensures Variants(input, pos, names, arities) ==
            Variants(input, pos + k + 3, names + [input[pos + 1].ttype.id], arities + [ToU8(k)])
  {
    VariantRead(input, pos, k);
    VariantsUnfold(input, pos, names, arities, (input[pos + 1].ttype.id, ToU8(k)), pos + k + 3);
  }

  /** Where a variant can be read, the variant loop reads it and goes on
      after it. */
  lemma VariantsUnfold(input: seq<Token>, pos: nat, names: seq<string>, arities: seq<U8>, v: (string, U8), q: nat)
    requires pos < |input| && WellFormed(input)
    requires Variant(input, pos) == Step(Ok(v), q)
    ensures Variants(input, pos, names, arities) == Variants(input, q, names + [v.0], arities + [v.1])
  {
  }

  /** One variant `(Name f1 ... fk)` is read as its name and `k` mod 256. */
  lemma VariantRead(input: seq<Token>, pos: nat, k: nat)
    requires WellFormed(input) && pos + k + 3 < |input|
    requires input[pos].ttype.LParen? && input[pos + 1].ttype.Ident? && StartsCapital(input[pos + 1].ttype.id)
    requires forall i :: pos + 2 <= i < pos + 2 + k ==> input[i].ttype.Ident?
    requires input[pos + 2 + k].ttype.RParen?
    ensures Variant(input, pos) == Step(Ok((input[pos + 1].ttype.id, ToU8(k))), pos + k + 3)
  {
    AdvanceManyStopsAt(input, pos + 2, pos + 2 + k, Ident(""));
  }

  /** A variant name whose first character is not a capital fails at the
      name. */
  lemma VariantNameChecked(input: seq<Token>, pos: nat, names: seq<string>, arities: seq<U8>)
    requires WellFormed(input) && pos + 2 < |input|
    requires input[pos].ttype.LParen? && input[pos + 1].ttype.Ident? && !StartsCapital(input[pos + 1].ttype.id)
    ensures Variants(input, pos, names, arities) == Step(ErrAt(input[pos + 1], VariantNameNotCapital), pos + 2)
  {
  }

  /** A type name whose first character is not a capital fails at the name,
      before any variant is read. */
  lemma EnumNameChecked(input: seq<Token>, pos: nat)
    requires WellFormed(input) && pos + 1 < |input|
    requires input[pos].ttype.Ident? && !StartsCapital(input[pos].ttype.id)
    ensures EnumForm(input, pos) == Step(ErrAt(input[pos], EnumNameNotCapital), pos + 1)
  {
  }

  /** The check looks at the low byte of the first code point only, so a
      non-ASCII letter such as U+0141 passes it while a lower-case ASCII
      letter does not. */
  lemma CapitalCheckTruncates()
    ensures StartsCapital("Łist") && !StartsCapital("list") && StartsCapital("List")
  {
  }

  // ------------------------------------------------------ whole forms

  /** The closing `)` of a form is consumed only when the input has not
      ended; any other token there fails at that token. */
  predicate Closed(input: seq<Token>, q: nat, r: Step<Expr>, e: Expr)
    requires q < |input|
  {
    if AtEnd(input, q) then r == Step(Ok(e), q)
    else if input[q].ttype.RParen? then r == Step(Ok(e), q + 1)
    else r == Step(ErrAt(input[q], Expected(KRParen, KindOf(input[q].ttype))), q + 1)
  }

  /** Every form ends the same way: as `Closed` describes. */
  lemma FinishClosed(input: seq<Token>, q: nat, e: Expr)
    requires q < |input|
    ensures Closed(input, q, Finish(input, q, e), e)
  {
  }

  /** The variant loop stops only at the end or at a `)`, so the closing
      advance after it never fails: an enum whose variants are read
      succeeds; `pos` is just after `enum`. */
  lemma EnumClosesCleanly(input: seq<Token>, pos: nat)
    requires pos < |input| && WellFormed(input)
    ensures (!AtEnd(input, pos) && input[pos].ttype.Ident? && StartsCapital(input[pos].ttype.id) &&
             Variants(input, pos + 1, [], []).res.Ok?) ==> EnumForm(input, pos).res.Ok?
  {
    if !AtEnd(input, pos) && input[pos].ttype.Ident? && StartsCapital(input[pos].ttype.id) {
      assert Advance(input, pos, Ident("")) == Step(Ok(input[pos]), pos + 1);
    }
  }

  /** The argument loop stops only at the end or at a `)`, so the closing
      advance after it never fails: a call whose arguments are read
      succeeds; `pos` is just after `f`. */
  lemma CallClosesCleanly(input: seq<Token>, pos: nat, f: string)
    requires pos < |input| && WellFormed(input)
    ensures CallArgs(input, pos, []).res.Ok? ==> CallForm(input, pos, f).res.Ok?
  {
  }

  /** `def n v`: the binding of `n` to the next expression; `pos` is just
      after `def`. */
  lemma DefFormResult(input: seq<Token>, pos: nat, n: string, v: Expr, q: nat)
    requires WellFormed(input) && pos + 1 < |input| && input[pos].ttype == Ident(n)
    requires ParseExpr(input, pos + 1) == Step(Ok(v), q)
    ensures DefForm(input, pos) == Finish(input, q, Expr.Def(n, v))
  {
  }

  /** `lambda (p1 ... pk) b`: the body wrapped in one `Lambda` per
      parameter, the first parameter outermost; `pos` is just after
      `lambda`. */
  lemma LambdaFormResult(input: seq<Token>, pos: nat, k: nat, b: Expr, q: nat)
    requires WellFormed(input) && pos + k + 3 < |input| && input[pos].ttype.LParen?
    requires forall i :: pos + 1 <= i < pos + 1 + k ==> input[i].ttype.Ident?
    requires input[pos + 1 + k].ttype.RParen?
    requires ParseExpr(input, pos + 2 + k) == Step(Ok(b), q)
    ensures LambdaForm(input, pos) == Finish(input, q, FoldLambdas(Names(input[pos + 1..pos + 1 + k]), b))
  {
    LambdaParameters(input, pos, k);
  }

  /** The parameter list `(p1 ... pk)` of a lambda is read as a whole. */
  lemma LambdaParameters(input: seq<Token>, pos: nat, k: nat)
    requires WellFormed(input) && pos + k + 3 < |input| && input[pos].ttype.LParen?
    requires forall i :: pos + 1 <= i < pos + 1 + k ==> input[i].ttype.Ident?
    requires input[pos + 1 + k].ttype.RParen?
    ensures Parameters(input, pos) == Step(Ok(Names(input[pos + 1..pos + 1 + k])), pos + 2 + k)
  {
    AdvanceManyStopsAt(input, pos + 1, pos + 1 + k, Ident(""));
  }

  /** `enum N variants`: the declaration with the names and arities the
      variant loop collected; `pos` is just after `enum`. */
  lemma EnumFormResult(input: seq<Token>, pos: nat, n: string, names: seq<string>, arities: seq<U8>, q: nat)
    requires WellFormed(input) && pos + 1 < |input| && input[pos].ttype == Ident(n)
    requires |n| > 0 && StartsCapital(n)
    requires Variants(input, pos + 1, [], []) == Step(Ok((names, arities)), q)
    ensures EnumForm(input, pos) == Finish(input, q, Expr.Enum(n, names, arities))
  {
    assert Advance(input, pos, Ident("")) == Step(Ok(input[pos]), pos + 1);
  }

  /** `f args`: the left fold of the arguments the loop collected onto
      `Var f`; `pos` is just after `f`. */
  lemma CallFormResult(input: seq<Token>, pos: nat, f: string, args: seq<Expr>, q: nat)
    requires WellFormed(input) && pos < |input|
    requires CallArgs(input, pos, []) == Step(Ok(args), q)
    ensures CallForm(input, pos, f) == Finish(input, q, FoldCalls(Var(f), args))
  {
  }

  /** `(def n v)` parsed from its first token. */
  lemma DefAt(input: seq<Token>, pos: nat, n: string, v: Expr, q: nat)
    requires WellFormed(input) && pos + 3 < |input|
    requires input[pos].ttype.LParen? && input[pos + 1].ttype.Def? && input[pos + 2].ttype == Ident(n)
    requires ParseExpr(input, pos + 3) == Step(Ok(v), q)
    ensures ParseExpr(input, pos) == Finish(input, q, Expr.Def(n, v))
  {
    DefFormResult(input, pos + 2, n, v, q);
    RootDispatch(input, pos);
    ParenDispatch(input, pos + 1);
  }

  /** `(lambda (p) b)` parsed from its first token. */
  lemma LambdaAt(input: seq<Token>, pos: nat, p: string, b: Expr, q: nat)
    requires WellFormed(input) && pos + 5 < |input|
    requires input[pos].ttype.LParen? && input[pos + 1].ttype.Lambda? && input[pos + 2].ttype.LParen?
    requires input[pos + 3].ttype == Ident(p) && input[pos + 4].ttype.RParen?
    requires ParseExpr(input, pos + 5) == Step(Ok(b), q)
    ensures ParseExpr(input, pos) == Finish(input, q, Expr.Lambda(p, b))
  {
    LambdaFormResult(input, pos + 2, 1, b, q);
    assert Names(input[pos + 3..pos + 4]) == [p];
    assert FoldLambdas([p], b) == Expr.Lambda(p, FoldLambdas([], b));
    RootDispatch(input, pos);
    ParenDispatch(input, pos + 1);
  }

  /** `(enum N variants)` parsed from its first token. */
  lemma EnumAt(input: seq<Token>, pos: nat, n: string, names: seq<string>, arities: seq<U8>, q: nat)
    requires WellFormed(input) && pos + 3 < |input|
    requires input[pos].ttype.LParen? && input[pos + 1].ttype.Enum? && input[pos + 2].ttype == Ident(n)
    requires |n| > 0 && StartsCapital(n)
    requires Variants(input, pos + 3, [], []) == Step(Ok((names, arities)), q)
    ensures ParseExpr(input, pos) == Finish(input, q, Expr.Enum(n, names, arities))
  {
    EnumFormResult(input, pos + 2, n, names, arities, q);
    RootDispatch(input, pos);
    ParenDispatch(input, pos + 1);
  }

  /** `(f args)` parsed from its first token. */
  lemma CallAt(input: seq<Token>, pos: nat, f: string, args: seq<Expr>, q: nat)
    requires WellFormed(input) && pos + 2 < |input|
    requires input[pos].ttype.LParen? && input[pos + 1].ttype == Ident(f)
    requires CallArgs(input, pos + 2, []) == Step(Ok(args), q)
    ensures ParseExpr(input, pos) == Finish(input, q, FoldCalls(Var(f), args))
  {
    CallFormResult(input, pos + 2, f, args, q);
    RootDispatch(input, pos);
    ParenDispatch(input, pos + 1);
  }

  /** One step of the argument loop. */
  lemma CallArgsStep(input: seq<Token>, pos: nat, acc: seq<Expr>, a: Expr, q: nat)
    requires WellFormed(input) && pos + 1 < |input| && !input[pos].ttype.RParen?
    requires ParseExpr(input, pos) == Step(Ok(a), q)
    ensures CallArgs(input, pos, acc) == CallArgs(input, q, acc + [a])
  {
  }

  /** One step of `parse`. */
  lemma ParseAllStep(input: seq<Token>, pos: nat, out: seq<Expr>, e: Expr, q: nat)
    requires WellFormed(input) && pos + 1 < |input|
    requires ParseExpr(input, pos) == Step(Ok(e), q)
    ensures ParseAll(input, pos, out) == ParseAll(input, q, out + [e])
  {
  }

  // ------------------------------------------------------------ top level

  /** `parse` returns the expressions parsed one after the other up to the
      end of input; on the first error it stops, and the error is that of
      the expression after those already pushed. */
  lemma {:induction false} ParseAllInOrder(input: seq<Token>, pos: nat, out: seq<Expr>)
    requires (pos < |input| || input == []) && WellFormed(input)
    ensures
      var r := ParseAll(input, pos, out);
      |r.output| >= |out| && r.output[..|out|] == out &&
      (r.res.Ok? ==> Sequenced(input, pos, r.output[|out|..], r.at)) &&
      (r.res.Err? ==> exists q: nat :: q < |input| && Sequenced(input, pos, r.output[|out|..], q) &&
                                  ParseExpr(input, q).res.Err? &&
                                  ParseExpr(input, q).res.Cast<seq<Expr>>() == r.res &&
                                  ParseExpr(input, q).at == r.at)
    decreases |input| - pos
  {
    var r := ParseAll(input, pos, out);
    if AtEnd(input, pos) {
      assert r.output[|out|..] == [];
    } else {
      var e := ParseExpr(input, pos);
      if e.res.Err? {
        assert r.output[|out|..] == [];
        assert Sequenced(input, pos, r.output[|out|..], pos);
      } else {
        var out' := out + [e.res.value];
        ParseAllInOrder(input, e.at, out');
        assert r == ParseAll(input, e.at, out');
        assert r.output[..|out|] == r.output[..|out'|][..|out|];
        assert r.output[|out|..][1..] == r.output[|out'|..];
        if r.res.Err? {
          var q: nat :| q < |input| && Sequenced(input, e.at, r.output[|out'|..], q) &&
                   ParseExpr(input, q).res.Err? &&
                   ParseExpr(input, q).res.Cast<seq<Expr>>() == r.res &&
                   ParseExpr(input, q).at == r.at;
          assert Sequenced(input, pos, r.output[|out|..], q);
        }
      }
    }
  }

  /** `parse` never builds a `Boolean` node. */
  lemma {:induction false} ParseAllBooleanFree(input: seq<Token>, pos: nat, out: seq<Expr>)
    requires (pos < |input| || input == []) && WellFormed(input)
    requires forall i :: 0 <= i < |out| ==> BooleanFree(out[i])
    ensures var r := ParseAll(input, pos, out);
            forall i :: 0 <= i < |r.output| ==> BooleanFree(r.output[i])
    decreases |input| - pos
  {
    if !AtEnd(input, pos) {
      var e := ParseExpr(input, pos);
      if e.res.Ok? {
        var out' := out + [e.res.value];
        assert forall i :: 0 <= i < |out'| ==> BooleanFree(out'[i]) by {
          forall i | 0 <= i < |out'| ensures BooleanFree(out'[i]) {
            if i < |out| { assert out'[i] == out[i]; } else { assert out'[i] == e.res.value; }
          }
        }
        ParseAllBooleanFree(input, e.at, out');
        assert ParseAll(input, pos, out) == ParseAll(input, e.at, out');
        var r := ParseAll(input, e.at, out');
        assert forall i :: 0 <= i < |r.output| ==> BooleanFree(r.output[i]);
      } else {
        assert ParseAll(input, pos, out).output == out;
      }
    }
  }
}
