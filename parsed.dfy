/** Every expression the parser produces is one the printer can write, so
    the round trip of `Printer` covers all of the parser's results. */
module Produced {
  import opened Tokens
  import opened Ast
  import opened Grammar
  import opened Properties
  import opened Printer

  predicate AllPrintable(es: seq<Expr>)
  {
    forall i :: 0 <= i < |es| ==> Printable(es[i])
  }

  predicate AllCapital(ns: seq<string>)
  {
    forall i :: 0 <= i < |ns| ==> CapitalName(ns[i])
  }

  predicate AllNonEmpty(ns: seq<string>)
  {
    forall i :: 0 <= i < |ns| ==> |ns[i]| > 0
  }

  /** A successful `parse_expr` yields a printable expression. */
  lemma {:induction false} ParsedPrintable(input: seq<Token>, pos: nat)
    requires pos < |input| && WellFormed(input)
    ensures ParseExpr(input, pos).res.Ok? ==> Printable(ParseExpr(input, pos).res.value)
    decreases |input| - pos, 0
  {
    if !AtEnd(input, pos) && input[pos].ttype.LParen? {
      ParenPrintable(input, pos + 1);
    }
  }

  lemma {:induction false} ParenPrintable(input: seq<Token>, pos: nat)
    requires pos < |input| && WellFormed(input)
    ensures Paren(input, pos).res.Ok? ==> Printable(Paren(input, pos).res.value)
    decreases |input| - pos, 3
  {
    if !AtEnd(input, pos) {
      match input[pos].ttype
      case LParen => ParsedPrintable(input, pos + 1);
      case Def => DefPrintable(input, pos + 1);
      case Enum => EnumPrintable(input, pos + 1);
      case Lambda => LambdaPrintable(input, pos + 1);
      case Ident(x) => CallPrintable(input, pos + 1, x);
      case _ =>
    }
  }

  lemma {:induction false} DefPrintable(input: seq<Token>, pos: nat)
    requires pos < |input| && WellFormed(input)
    ensures DefForm(input, pos).res.Ok? ==> Printable(DefForm(input, pos).res.value)
    decreases |input| - pos, 2
  {
    if !AtEnd(input, pos) {
      ParsedPrintable(input, pos + 1);
    }
  }

  lemma EnumPrintable(input: seq<Token>, pos: nat)
    requires pos < |input| && WellFormed(input)
    ensures EnumForm(input, pos).res.Ok? ==> Printable(EnumForm(input, pos).res.value)
  {
    if !AtEnd(input, pos) {
      VariantsCapital(input, pos + 1, [], []);
    }
  }

  /** The variant loop adds only capitalised names. */
  lemma {:induction false} VariantsCapital(input: seq<Token>, pos: nat, names: seq<string>, arities: seq<U8>)
    requires pos < |input| && WellFormed(input) && AllCapital(names)
    ensures var s := Variants(input, pos, names, arities);
            s.res.Ok? ==> AllCapital(s.res.value.0)
    decreases |input| - pos
  {
    if !AtEnd(input, pos) && !input[pos].ttype.RParen? {
      var v := Variant(input, pos);
      if v.res.Ok? {
        CapitalAppended(names, v.res.value.0);
        VariantsCapital(input, v.at, names + [v.res.value.0], arities + [v.res.value.1]);
      }
    }
  }

  lemma CapitalAppended(ns: seq<string>, n: string)
    requires AllCapital(ns) && CapitalName(n)
    ensures AllCapital(ns + [n])
  {
    assert forall i :: 0 <= i < |ns| ==> (ns + [n])[i] == ns[i];
  }

  lemma {:induction false} LambdaPrintable(input: seq<Token>, pos: nat)
    requires pos < |input| && WellFormed(input)
    ensures LambdaForm(input, pos).res.Ok? ==> Printable(LambdaForm(input, pos).res.value)
    decreases |input| - pos, 2
  {
    var ps := Parameters(input, pos);
    if ps.res.Ok? {
      ParsedPrintable(input, ps.at);
      var b := ParseExpr(input, ps.at);
      if b.res.Ok? {
        FoldLambdasPrintable(ps.res.value, b.res.value);
      }
    }
  }

  lemma {:induction false} FoldLambdasPrintable(params: seq<string>, b: Expr)
    requires AllNonEmpty(params) && Printable(b)
    ensures Printable(FoldLambdas(params, b))
  {
    if params != [] {
      assert AllNonEmpty(params[1..]) by {
        assert forall i :: 0 <= i < |params[1..]| ==> params[1..][i] == params[i + 1];
      }
      FoldLambdasPrintable(params[1..], b);
    }
  }

  lemma {:induction false} CallPrintable(input: seq<Token>, pos: nat, f: string)
    requires pos < |input| && WellFormed(input)
    requires pos > 0 && input[pos - 1].ttype == Ident(f)
    ensures CallForm(input, pos, f).res.Ok? ==> Printable(CallForm(input, pos, f).res.value)
    decreases |input| - pos, 2
  {
    CallArgsPrintable(input, pos, []);
    var a := CallArgs(input, pos, []);
    if a.res.Ok? {
      FoldCallsPrintable(f, a.res.value);
    }
  }

  /** The argument loop adds only printable arguments. */
  lemma {:induction false} CallArgsPrintable(input: seq<Token>, pos: nat, acc: seq<Expr>)
    requires pos < |input| && WellFormed(input) && AllPrintable(acc)
    ensures var s := CallArgs(input, pos, acc);
            s.res.Ok? ==> AllPrintable(s.res.value)
    decreases |input| - pos, 1
  {
    if !AtEnd(input, pos) && !input[pos].ttype.RParen? {
      var a := ParseExpr(input, pos);
      ParsedPrintable(input, pos);
      if a.res.Ok? {
        PrintableAppended(acc, a.res.value);
        CallArgsPrintable(input, a.at, acc + [a.res.value]);
      }
    }
  }

  lemma PrintableAppended(es: seq<Expr>, e: Expr)
    requires AllPrintable(es) && Printable(e)
    ensures AllPrintable(es + [e])
  {
    assert forall i :: 0 <= i < |es| ==> (es + [e])[i] == es[i];
  }

  /** Folding printable arguments onto a named variable gives a printable
      call chain. */
  lemma {:induction false} FoldCallsPrintable(f: string, args: seq<Expr>)
    requires |f| > 0 && AllPrintable(args)
    ensures Printable(FoldCalls(Var(f), args)) && IsCallChain(FoldCalls(Var(f), args))
  {
    if args != [] {
      var init := args[..|args| - 1];
      assert AllPrintable(init) by {
        assert forall i :: 0 <= i < |init| ==> init[i] == args[i];
      }
      FoldCallsPrintable(f, init);
    }
  }

  /** What the parser reads, printed again and parsed anywhere else, is read
      back the same and consumes exactly the printed tokens. */
  lemma Reparsed(input: seq<Token>, pos: nat, other: seq<Token>, at: nat)
    requires pos < |input| && WellFormed(input) && ParseExpr(input, pos).res.Ok?
    requires WellFormed(other)
    requires var e := ParseExpr(input, pos).res.value;
             Matches(other, at, Unparse(e)) && at + |Unparse(e)| < |other|
    ensures var e := ParseExpr(input, pos).res.value;
            ParseExpr(other, at) == Step(Ok(e), at + |Unparse(e)|)
  {
    ParsedPrintable(input, pos);
    RoundTrip(other, at, ParseExpr(input, pos).res.value);
  }
}
