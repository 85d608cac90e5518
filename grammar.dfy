/** The parser of src/parser.rs as pure functions of the token sequence and
    the cursor. Each function returns the result together with the cursor it
    leaves behind, on success and on failure, so that the methods of
    `Parsing.Parser` can be specified by them exactly. */
module Grammar {
  import opened Tokens
  import opened Ast

  /** The diagnostics of the parser; the exact wording is not modelled. */
  datatype Msg =
    | UnfinishedExpression
    | Expected(expected: Kind, found: Kind)
    | UnexpectedClosingParen
    | UnexpectedKeyword
    | ExpectedParenOrIdent(got: Kind)
    | EnumNameNotCapital
    | VariantNameNotCapital

  /** `Result<T>` of the source: a value, or a diagnostic with the line and
      column it refers to. */
  datatype Result<T> = Ok(value: T) | Err(line: nat, col: nat, msg: Msg)
  {
    /** The same error at another result type (what `?` does). */
    function Cast<U>(): Result<U>
      requires Err?
    {
      Err(line, col, msg)
    }
  }

  /** A result and the cursor position after producing it. */
  datatype Step<T> = Step(res: Result<T>, at: nat)

  /** A result, the cursor and the output list after `parse`. */
  datatype Run = Run(res: Result<seq<Expr>>, at: nat, output: seq<Expr>)

  function ErrAt<T>(t: Token, m: Msg): Result<T>
  {
    Err(t.line, t.col, m)
  }

  /** The last token is a sentinel: the cursor is at the end once at most
      that token is left. */
  predicate AtEnd(input: seq<Token>, pos: nat)
  {
    pos + 1 >= |input|
  }

  /** `Parser::pop`. */
  function Pop(input: seq<Token>, pos: nat): (s: Step<Token>)
    requires pos < |input|
    ensures s.res.Ok? <==> s.at == pos + 1
    ensures s.at == pos || s.at == pos + 1
  {
    if AtEnd(input, pos) then Step(ErrAt(input[pos], UnfinishedExpression), pos)
    else Step(Ok(input[pos]), pos + 1)
  }

  /** `Parser::advance`: pop, then compare kinds only. */
  function Advance(input: seq<Token>, pos: nat, expected: TType): (s: Step<Token>)
    requires pos < |input|
    ensures s.res.Ok? <==> !AtEnd(input, pos) && KindOf(input[pos].ttype) == KindOf(expected)
    ensures s.res.Ok? ==> s.res.value == input[pos]
    ensures s.at == if AtEnd(input, pos) then pos else pos + 1
  {
    var p := Pop(input, pos);
    if p.res.Err? then p
    else if KindOf(p.res.value.ttype) != KindOf(expected) then
      Step(ErrAt(p.res.value, Expected(KindOf(expected), KindOf(p.res.value.ttype))), p.at)
    else p
  }

  /** `Parser::advance_many`, with the tokens consumed so far in `acc`. */
  function AdvanceMany(input: seq<Token>, pos: nat, expected: TType, acc: seq<Token>): (s: Step<seq<Token>>)
    requires pos < |input|
    ensures s.res.Ok? && pos <= s.at < |input|
    ensures s.res.value == acc + input[pos..s.at]
    ensures forall i :: pos <= i < s.at ==> KindOf(input[i].ttype) == KindOf(expected)
    ensures AtEnd(input, s.at) || KindOf(input[s.at].ttype) != KindOf(expected)
    decreases |input| - pos
  {
    if AtEnd(input, pos) || KindOf(input[pos].ttype) != KindOf(expected) then Step(Ok(acc), pos)
    else
      var s := AdvanceMany(input, pos + 1, expected, acc + [input[pos]]);
      assert input[pos..s.at] == [input[pos]] + input[pos + 1..s.at];
      s
  }

  /** The closing `)` of a form, taken only when the input has not ended;
      any other token there is an error. */
  function CloseUnlessAtEnd(input: seq<Token>, pos: nat): (s: Step<()>)
    requires pos < |input|
    ensures s.res.Ok? <==> AtEnd(input, pos) || input[pos].ttype.RParen?
    ensures s.at == if AtEnd(input, pos) then pos else pos + 1
  {
    if AtEnd(input, pos) then Step(Ok(()), pos)
    else
      var r := Advance(input, pos, RParen);
      if r.res.Err? then Step(r.res.Cast(), r.at) else Step(Ok(()), r.at)
  }

  /** The common end of the forms: the closing `)` unless at the end of
      input, then the expression the form built. */
  function Finish(input: seq<Token>, pos: nat, e: Expr): (s: Step<Expr>)
    requires pos < |input|
    ensures pos <= s.at < |input|
    ensures s.res.Ok? ==> s.res.value == e
  {
    var c := CloseUnlessAtEnd(input, pos);
    if c.res.Err? then Step(c.res.Cast(), c.at) else Step(Ok(e), c.at)
  }

  /** The capital-letter check of enum and variant names: the first code
      point, truncated to its low byte, is an upper-case ASCII letter. */
  predicate StartsCapital(name: string): (b: bool)
    requires |name| > 0
    ensures 'A' <= name[0] <= 'Z' ==> b
    ensures 'a' <= name[0] <= 'z' ==> !b
  {
    65 <= (name[0] as int) % 256 < 91
  }

  /** A count converted to a byte, wrapping modulo 256. */
  function ToU8(n: nat): (r: U8)
    ensures n < 256 ==> r as nat == n
    ensures (n - r as nat) % 256 == 0
  {
    (n % 256) as U8
  }

  /** The names carried by a run of identifier tokens. */
  function Names(toks: seq<Token>): (r: seq<string>)
    requires forall i :: 0 <= i < |toks| ==> toks[i].ttype.Ident?
    ensures |r| == |toks| && forall i :: 0 <= i < |toks| ==> r[i] == toks[i].ttype.id
  {
    if toks == [] then [] else [toks[0].ttype.id] + Names(toks[1..])
  }

  /** `Parser::parse_expr`: one expression starting at `pos`. */
  function ParseExpr(input: seq<Token>, pos: nat): (s: Step<Expr>)
    requires pos < |input| && WellFormed(input)
    ensures pos <= s.at < |input|
    ensures s.res.Ok? ==> pos < s.at && BooleanFree(s.res.value)
    decreases |input| - pos, 0
  {
    var root := Pop(input, pos);
    if root.res.Err? then Step(root.res.Cast(), root.at)
    else
      var t := root.res.value;
      match t.ttype
      case Str(s) => Step(Ok(Expr.String(s)), root.at)
      case Float(f) => Step(Ok(Single(f)), root.at)
      case Number(i) => Step(Ok(Integer(i)), root.at)
      case Ident(v) => Step(Ok(Var(v)), root.at)
      case LParen => Paren(input, root.at)
      case RParen => Step(ErrAt(t, UnexpectedClosingParen), root.at)
      case _ => Step(ErrAt(t, UnexpectedKeyword), root.at)
  }

  /** The forms introduced by `(`, dispatched on the token after it;
      `pos` is just after the `(`. */
  function Paren(input: seq<Token>, pos: nat): (s: Step<Expr>)
    requires pos < |input| && WellFormed(input)
    ensures pos <= s.at < |input|
    ensures s.res.Ok? ==> pos < s.at && BooleanFree(s.res.value)
    decreases |input| - pos, 3
  {
    var sub := Pop(input, pos);
    if sub.res.Err? then Step(sub.res.Cast(), sub.at)
    else
      var t := sub.res.value;
      match t.ttype
      case LParen => ParseExpr(input, sub.at)
      case Def => DefForm(input, sub.at)
      case Enum => EnumForm(input, sub.at)
      case Lambda => LambdaForm(input, sub.at)
      case Ident(x) => CallForm(input, sub.at, x)
      case RParen => Step(Ok(Unit), sub.at)
      case _ => Step(ErrAt(t, ExpectedParenOrIdent(KindOf(t.ttype))), sub.at)
  }

  /** `(def name value)`; `pos` is just after `def`. */
  function DefForm(input: seq<Token>, pos: nat): (s: Step<Expr>)
    requires pos < |input| && WellFormed(input)
    ensures pos <= s.at < |input|
    ensures s.res.Ok? ==> pos < s.at && BooleanFree(s.res.value)
    decreases |input| - pos, 2
  {
    var n := Advance(input, pos, Ident(""));
    if n.res.Err? then Step(n.res.Cast(), n.at)
    else
      var name := n.res.value.ttype.id;
      var v := ParseExpr(input, n.at);
      if v.res.Err? then v
      else
        Finish(input, v.at, Expr.Def(name, v.res.value))
  }

  /** `(enum Name (Variant field ...) ...)`; `pos` is just after `enum`. */
  function EnumForm(input: seq<Token>, pos: nat): (s: Step<Expr>)
    requires pos < |input| && WellFormed(input)
    ensures pos <= s.at < |input|
    ensures s.res.Ok? ==> pos < s.at && s.res.value.Enum?
    ensures s.res.Ok? ==> |s.res.value.variants| == |s.res.value.arities|
    decreases |input| - pos, 2
  {
    var n := Advance(input, pos, Ident(""));
    if n.res.Err? then Step(n.res.Cast(), n.at)
    else
      var name := n.res.value.ttype.id;
      if !StartsCapital(name) then Step(ErrAt(n.res.value, EnumNameNotCapital), n.at)
      else
        var vs := Variants(input, n.at, [], []);
        if vs.res.Err? then Step(vs.res.Cast(), vs.at)
        else
          Finish(input, vs.at, Expr.Enum(name, vs.res.value.0, vs.res.value.1))
  }

  /** The variant loop of an enum declaration, with the names and arities
      collected so far. */
  function Variants(input: seq<Token>, pos: nat, names: seq<string>, arities: seq<U8>)
    : (s: Step<(seq<string>, seq<U8>)>)
    requires pos < |input| && WellFormed(input)
    ensures pos <= s.at < |input|
    ensures s.res.Ok? ==> |s.res.value.0| - |names| == |s.res.value.1| - |arities| >= 0
    ensures s.res.Ok? ==> AtEnd(input, s.at) || input[s.at].ttype.RParen?
    decreases |input| - pos
  {
    if AtEnd(input, pos) || input[pos].ttype.RParen? then Step(Ok((names, arities)), pos)
    else
      var v := Variant(input, pos);
      if v.res.Err? then Step(v.res.Cast(), v.at)
      else Variants(input, v.at, names + [v.res.value.0], arities + [v.res.value.1])
  }

  /** One iteration of the variant loop: `(Name field ...)`, read as the
      name and the number of fields as a byte. */
  function Variant(input: seq<Token>, pos: nat): (s: Step<(string, U8)>)
    requires pos < |input| && WellFormed(input)
    ensures pos <= s.at < |input|
    ensures s.res.Ok? ==> pos < s.at && |s.res.value.0| > 0 && StartsCapital(s.res.value.0)
    ensures s.res.Ok? ==> !AtEnd(input, pos) && input[pos].ttype.LParen?
  {
    var l := Advance(input, pos, LParen);
    if l.res.Err? then Step(l.res.Cast(), l.at)
    else
      var n := Advance(input, l.at, Ident(""));
      if n.res.Err? then Step(n.res.Cast(), n.at)
      else
        var vname := n.res.value.ttype.id;
        if !StartsCapital(vname) then Step(ErrAt(n.res.value, VariantNameNotCapital), n.at)
        else
          var fields := AdvanceMany(input, n.at, Ident(""), []);
          var r := Advance(input, fields.at, RParen);
          if r.res.Err? then Step(r.res.Cast(), r.at)
          else Step(Ok((vname, ToU8(|fields.res.value|))), r.at)
  }

  /** `(lambda (p1 ... pk) body)`; `pos` is just after `lambda`. */
  function LambdaForm(input: seq<Token>, pos: nat): (s: Step<Expr>)
    requires pos < |input| && WellFormed(input)
    ensures pos <= s.at < |input|
    ensures s.res.Ok? ==> pos < s.at && BooleanFree(s.res.value)
    decreases |input| - pos, 2
  {
    var ps := Parameters(input, pos);
    if ps.res.Err? then Step(ps.res.Cast(), ps.at)
    else
      var b := ParseExpr(input, ps.at);
      if b.res.Err? then b
      else
        Finish(input, b.at, FoldLambdas(ps.res.value, b.res.value))
  }

  /** The parameter list `(p1 ... pk)` of a lambda: a run of identifiers
      between parentheses, read as their names. */
  function Parameters(input: seq<Token>, pos: nat): (s: Step<seq<string>>)
    requires pos < |input| && WellFormed(input)
    ensures pos <= s.at < |input|
    ensures s.res.Ok? ==> pos + 1 < s.at && forall i :: 0 <= i < |s.res.value| ==> |s.res.value[i]| > 0
  {
    var l := Advance(input, pos, LParen);
    if l.res.Err? then Step(l.res.Cast(), l.at)
    else
      var ps := AdvanceMany(input, l.at, Ident(""), []);
      var r := Advance(input, ps.at, RParen);
      if r.res.Err? then Step(r.res.Cast(), r.at)
      else
        assert forall i :: 0 <= i < |ps.res.value| ==> ps.res.value[i] == input[l.at + i];
        Step(Ok(Names(ps.res.value)), r.at)
  }

  /** `(f a1 ... an)`; `pos` is just after the identifier `f`. */
  function CallForm(input: seq<Token>, pos: nat, f: string): (s: Step<Expr>)
    requires pos < |input| && WellFormed(input)
    ensures pos <= s.at < |input|
    ensures s.res.Ok? ==> BooleanFree(s.res.value)
    decreases |input| - pos, 2
  {
    var args := CallArgs(input, pos, []);
    if args.res.Err? then Step(args.res.Cast(), args.at)
    else
      Finish(input, args.at, FoldCalls(Var(f), args.res.value))
  }

  /** The argument loop of a call, with the arguments parsed so far. */
  function CallArgs(input: seq<Token>, pos: nat, acc: seq<Expr>): (s: Step<seq<Expr>>)
    requires pos < |input| && WellFormed(input)
    ensures pos <= s.at < |input|
    ensures s.res.Ok? ==> |s.res.value| >= |acc|
    ensures s.res.Ok? ==> AtEnd(input, s.at) || input[s.at].ttype.RParen?
    ensures s.res.Ok? && (forall i :: 0 <= i < |acc| ==> BooleanFree(acc[i])) ==>
              forall i :: 0 <= i < |s.res.value| ==> BooleanFree(s.res.value[i])
    decreases |input| - pos, 1
  {
    if AtEnd(input, pos) || input[pos].ttype.RParen? then Step(Ok(acc), pos)
    else
      var a := ParseExpr(input, pos);
      if a.res.Err? then Step(a.res.Cast(), a.at)
      else
        CallArgs(input, a.at, acc + [a.res.value])
  }

  /** `Parser::parse`: top-level expressions until the end, appended to the
      output list `out`. */
  function ParseAll(input: seq<Token>, pos: nat, out: seq<Expr>): (r: Run)
    requires (pos < |input| || input == []) && WellFormed(input)
    ensures r.at < |input| || input == []
    ensures r.res.Ok? ==> r.res.value == r.output && AtEnd(input, r.at)
    decreases |input| - pos
  {
    if AtEnd(input, pos) then Run(Ok(out), pos, out)
    else
      var e := ParseExpr(input, pos);
      if e.res.Err? then Run(e.res.Cast(), e.at, out)
      else
        ParseAll(input, e.at, out + [e.res.value])
  }
}
