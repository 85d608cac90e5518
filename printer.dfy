/** A printer from expressions to token kinds, independent of the parser,
    and the round trip: parsing what the printer writes gives back the
    expression, consuming exactly those tokens. */
module Printer {
  import opened Tokens
  import opened Ast
  import opened Grammar
  import opened Properties

  /** A `Var` with calls folded onto it: the shape every parsed call has. */
  predicate IsCallChain(e: Expr)
  {
    e.Var? || (e.Call? && IsCallChain(e.callee))
  }

  predicate CapitalName(n: string)
  {
    |n| > 0 && StartsCapital(n)
  }

  /** The expressions the parser can produce from some input. */
  predicate Printable(e: Expr)
  {
    match e
    case Var(n) => |n| > 0
    case Call(f, a) => IsCallChain(f) && Printable(f) && Printable(a)
    case Lambda(p, b) => |p| > 0 && Printable(b)
    case Integer(_) => true
    case Single(_) => true
    case Boolean(_) => false
    case Def(n, v) => |n| > 0 && Printable(v)
    case Enum(n, vs, ar) => CapitalName(n) && |vs| == |ar| && forall i :: 0 <= i < |vs| ==> CapitalName(vs[i])
    case Unit => true
    case String(_) => true
  }

  /** The name at the head of a call chain. */
  function HeadName(e: Expr): string
  {
    match e
    case Call(f, _) => HeadName(f)
    case Var(n) => n
    case _ => ""
  }

  /** The tokens an expression is written as (positions left out). Each
      lambda is written with one parameter, each variant field as `x`. */
  function Unparse(e: Expr): (u: seq<TType>)
    ensures |u| > 0 && !u[0].RParen?
    decreases e, 1
  {
    match e
    case Var(n) => [Ident(n)]
    case Call(_, _) => [LParen, Ident(HeadName(e))] + ArgTokens(e) + [RParen]
    case Lambda(p, b) => [LParen, TType.Lambda, LParen, Ident(p), RParen] + Unparse(b) + [RParen]
    case Integer(i) => [Number(i)]
    case Single(f) => [Float(f)]
    case Boolean(_) => [Other]
    case Def(n, v) => [LParen, TType.Def, Ident(n)] + Unparse(v) + [RParen]
    case Enum(n, vs, ar) => [LParen, TType.Enum, Ident(n)] + VariantTokens(vs, ar) + [RParen]
    case Unit => [LParen, RParen]
    case String(s) => [Str(s)]
  }

  /** The arguments of a call chain, written one after the other. */
  function ArgTokens(e: Expr): seq<TType>
    decreases e, 0
  {
    if e.Call? then ArgTokens(e.callee) + Unparse(e.arg) else []
  }

  /** The variants of an enum declaration. */
  function VariantTokens(vs: seq<string>, ar: seq<U8>): seq<TType>
  {
    if vs == [] || ar == [] then []
    else [LParen, Ident(vs[0])] + Fields(ar[0] as nat) + [RParen] + VariantTokens(vs[1..], ar[1..])
  }

  /** `k` identifier tokens. */
  function Fields(k: nat): (f: seq<TType>)
    ensures |f| == k
  {
    if k == 0 then [] else [Ident("x")] + Fields(k - 1)
  }

  /** The tokens from `pos` on have the kinds and payloads `u`, one by one. */
  ghost predicate Matches(input: seq<Token>, pos: nat, u: seq<TType>)
    decreases |u|
  {
    pos + |u| <= |input| && (u == [] || (input[pos].ttype == u[0] && Matches(input, pos + 1, u[1..])))
  }

  lemma {:induction false} MatchesSplit(input: seq<Token>, pos: nat, a: seq<TType>, b: seq<TType>)
    requires Matches(input, pos, a + b)
    ensures Matches(input, pos, a) && Matches(input, pos + |a|, b)
    decreases |a|
  {
    if a == [] {
      assert a + b == b;
    } else {
      assert (a + b)[1..] == a[1..] + b;
      MatchesSplit(input, pos + 1, a[1..], b);
    }
  }

  /** The token `d` places in. */
  lemma {:induction false} MatchesAt(input: seq<Token>, pos: nat, u: seq<TType>, d: nat)
    requires Matches(input, pos, u) && d < |u|
    ensures input[pos + d].ttype == u[d]
    decreases d
  {
    if d > 0 {
      MatchesAt(input, pos + 1, u[1..], d - 1);
    }
  }

  lemma {:induction false} MatchesFields(input: seq<Token>, pos: nat, k: nat)
    requires Matches(input, pos, Fields(k))
    ensures forall i :: pos <= i < pos + k ==> input[i].ttype.Ident?
    decreases k
  {
    if k > 0 {
      assert Fields(k)[1..] == Fields(k - 1);
      MatchesFields(input, pos + 1, k - 1);
    }
  }

  /** `[t0, t1, t2] + m + [t3]`: the four single tokens and the middle. */
  lemma Framed3(input: seq<Token>, pos: nat, t0: TType, t1: TType, t2: TType, m: seq<TType>, t3: TType)
    requires Matches(input, pos, [t0, t1, t2] + m + [t3])
    ensures pos + |m| + 4 <= |input|
    ensures input[pos].ttype == t0 && input[pos + 1].ttype == t1 && input[pos + 2].ttype == t2
    ensures Matches(input, pos + 3, m) && input[pos + 3 + |m|].ttype == t3
  {
    var h := [t0, t1, t2];
    MatchesSplit(input, pos, h + m, [t3]);
    MatchesSplit(input, pos, h, m);
    MatchesAt(input, pos, h, 0);
    MatchesAt(input, pos, h, 1);
    MatchesAt(input, pos, h, 2);
    MatchesAt(input, pos + 3 + |m|, [t3], 0);
  }

  /** `[t0, t1] + m + [t2]`. */
  lemma Framed2(input: seq<Token>, pos: nat, t0: TType, t1: TType, m: seq<TType>, t2: TType)
    requires Matches(input, pos, [t0, t1] + m + [t2])
    ensures pos + |m| + 3 <= |input|
    ensures input[pos].ttype == t0 && input[pos + 1].ttype == t1
    ensures Matches(input, pos + 2, m) && input[pos + 2 + |m|].ttype == t2
  {
    var h := [t0, t1];
    MatchesSplit(input, pos, h + m, [t2]);
    MatchesSplit(input, pos, h, m);
    MatchesAt(input, pos, h, 0);
    MatchesAt(input, pos, h, 1);
    MatchesAt(input, pos + 2 + |m|, [t2], 0);
  }

  /** Parsing the tokens of a printable expression gives it back and stops
      just after them, whatever follows (at least one token must follow:
      the sentinel). */
  lemma {:induction false} RoundTrip(input: seq<Token>, pos: nat, e: Expr)
    requires WellFormed(input) && Printable(e)
    requires Matches(input, pos, Unparse(e)) && pos + |Unparse(e)| < |input|
    ensures ParseExpr(input, pos) == Step(Ok(e), pos + |Unparse(e)|)
    decreases e, 2
  {
    MatchesAt(input, pos, Unparse(e), 0);
    match e
    case Var(n) =>
    case Integer(_) =>
    case Single(_) =>
    case String(_) =>
    case Unit =>
      MatchesAt(input, pos, Unparse(e), 1);
    case Boolean(_) =>
    case Def(_, _) => DefRoundTrip(input, pos, e);
    case Lambda(_, _) => LambdaRoundTrip(input, pos, e);
    case Enum(_, _, _) => EnumRoundTrip(input, pos, e);
    case Call(_, _) => CallRoundTrip(input, pos, e);
  }

  /** A form whose closing `)` is present ends just after it. */
  lemma ClosedBy(input: seq<Token>, q: nat, e: Expr)
    requires q + 1 < |input| && input[q].ttype.RParen?
    ensures Finish(input, q, e) == Step(Ok(e), q + 1)
  {
    FinishClosed(input, q, e);
  }

  // ------------------------------------------------------------- def

  lemma {:induction false} DefRoundTrip(input: seq<Token>, pos: nat, e: Expr)
    requires WellFormed(input) && Printable(e) && e.Def?
    requires Matches(input, pos, Unparse(e)) && pos + |Unparse(e)| < |input|
    ensures ParseExpr(input, pos) == Step(Ok(e), pos + |Unparse(e)|)
    decreases e, 1
  {
    var q := pos + 3 + |Unparse(e.value)|;
    DefTokens(input, pos, e);
    RoundTrip(input, pos + 3, e.value);
    DefParsed(input, pos, e.defName, e.value, q);
  }

  lemma DefTokens(input: seq<Token>, pos: nat, e: Expr)
    requires Printable(e) && e.Def? && Matches(input, pos, Unparse(e)) && pos + |Unparse(e)| < |input|
    ensures var q := pos + 3 + |Unparse(e.value)|;
      q + 1 == pos + |Unparse(e)| && e == Expr.Def(e.defName, e.value) && Printable(e.value) &&
      input[pos].ttype.LParen? && input[pos + 1].ttype.Def? && input[pos + 2].ttype == Ident(e.defName) &&
      Matches(input, pos + 3, Unparse(e.value)) && input[q].ttype.RParen?
  {
    Framed3(input, pos, LParen, TType.Def, Ident(e.defName), Unparse(e.value), RParen);
  }

  lemma DefParsed(input: seq<Token>, pos: nat, n: string, v: Expr, q: nat)
    requires WellFormed(input) && q + 1 < |input| && pos + 3 < |input|
    requires input[pos].ttype.LParen? && input[pos + 1].ttype.Def? && input[pos + 2].ttype == Ident(n)
    requires ParseExpr(input, pos + 3) == Step(Ok(v), q) && input[q].ttype.RParen?
    ensures ParseExpr(input, pos) == Step(Ok(Expr.Def(n, v)), q + 1)
  {
    DefAt(input, pos, n, v, q);
    ClosedBy(input, q, Expr.Def(n, v));
  }

  // ---------------------------------------------------------- lambda

  lemma {:induction false} LambdaRoundTrip(input: seq<Token>, pos: nat, e: Expr)
    requires WellFormed(input) && Printable(e) && e.Lambda?
    requires Matches(input, pos, Unparse(e)) && pos + |Unparse(e)| < |input|
    ensures ParseExpr(input, pos) == Step(Ok(e), pos + |Unparse(e)|)
    decreases e, 1
  {
    LambdaBody(input, pos, e);
    RoundTrip(input, pos + 5, e.body);
    LambdaTokens(input, pos, e);
    LambdaClose(input, pos, e);
  }

  /** The body of a printed lambda starts after its five header tokens. */
  lemma LambdaBody(input: seq<Token>, pos: nat, e: Expr)
    requires Printable(e) && e.Lambda? && Matches(input, pos, Unparse(e)) && pos + |Unparse(e)| < |input|
    ensures Printable(e.body) && Matches(input, pos + 5, Unparse(e.body)) && pos + 5 + |Unparse(e.body)| < |input|
  {
    LambdaTokens(input, pos, e);
  }

  /** `input` holds, from `pos`, the printed lambda `e`: its five header
      tokens, its body and its `)`. */
  ghost predicate LambdaLaidOut(input: seq<Token>, pos: nat, e: Expr)
  {
    e.Lambda? &&
    var q := pos + 5 + |Unparse(e.body)|;
    q + 1 == pos + |Unparse(e)| && q + 1 < |input| && e == Expr.Lambda(e.param, e.body) &&
    input[pos].ttype.LParen? && input[pos + 1].ttype.Lambda? && input[pos + 2].ttype.LParen? &&
    input[pos + 3].ttype == Ident(e.param) && input[pos + 4].ttype.RParen? && input[q].ttype.RParen?
  }

  lemma LambdaTokens(input: seq<Token>, pos: nat, e: Expr)
    requires Printable(e) && e.Lambda? && Matches(input, pos, Unparse(e)) && pos + |Unparse(e)| < |input|
    ensures LambdaLaidOut(input, pos, e) && Printable(e.body) && Matches(input, pos + 5, Unparse(e.body))
  {
    var ub := Unparse(e.body);
    var h := [LParen, Ident(e.param), RParen];
    var m := h + ub;
    assert Unparse(e) == [LParen, TType.Lambda] + m + [RParen];
    Framed2(input, pos, LParen, TType.Lambda, m, RParen);
    MatchesSplit(input, pos + 2, h, ub);
    MatchesAt(input, pos + 2, h, 0);
    MatchesAt(input, pos + 2, h, 1);
    MatchesAt(input, pos + 2, h, 2);
  }

  /** A printed lambda whose body is read back is read back whole. */
  lemma LambdaClose(input: seq<Token>, pos: nat, e: Expr)
    requires WellFormed(input) && LambdaLaidOut(input, pos, e)
    requires ParseExpr(input, pos + 5) == Step(Ok(e.body), pos + 5 + |Unparse(e.body)|)
    ensures ParseExpr(input, pos) == Step(Ok(e), pos + |Unparse(e)|)
  {
    LambdaParsed(input, pos, e.param, e.body, pos + 5 + |Unparse(e.body)|);
  }

  lemma LambdaParsed(input: seq<Token>, pos: nat, p: string, b: Expr, q: nat)
    requires WellFormed(input) && q + 1 < |input| && pos + 5 < |input|
    requires input[pos].ttype.LParen? && input[pos + 1].ttype.Lambda? && input[pos + 2].ttype.LParen?
    requires input[pos + 3].ttype == Ident(p) && input[pos + 4].ttype.RParen?
    requires ParseExpr(input, pos + 5) == Step(Ok(b), q) && input[q].ttype.RParen?
    ensures ParseExpr(input, pos) == Step(Ok(Expr.Lambda(p, b)), q + 1)
  {
    LambdaAt(input, pos, p, b, q);
    ClosedBy(input, q, Expr.Lambda(p, b));
  }

  // ------------------------------------------------------------ enum

  lemma {:induction false} EnumRoundTrip(input: seq<Token>, pos: nat, e: Expr)
    requires WellFormed(input) && Printable(e) && e.Enum?
    requires Matches(input, pos, Unparse(e)) && pos + |Unparse(e)| < |input|
    ensures ParseExpr(input, pos) == Step(Ok(e), pos + |Unparse(e)|)
    decreases e, 1
  {
    EnumTokens(input, pos, e);
    EnumParsed(input, pos, e.typeName, e.variants, e.arities, pos + 3 + |VariantTokens(e.variants, e.arities)|);
  }

  lemma EnumTokens(input: seq<Token>, pos: nat, e: Expr)
    requires Printable(e) && e.Enum? && Matches(input, pos, Unparse(e)) && pos + |Unparse(e)| < |input|
    ensures var vs, ar := e.variants, e.arities;
      var q := pos + 3 + |VariantTokens(vs, ar)|;
      q + 1 == pos + |Unparse(e)| && e == Expr.Enum(e.typeName, vs, ar) &&
      CapitalName(e.typeName) && |vs| == |ar| && (forall i :: 0 <= i < |vs| ==> CapitalName(vs[i])) &&
      input[pos].ttype.LParen? && input[pos + 1].ttype.Enum? && input[pos + 2].ttype == Ident(e.typeName) &&
      Matches(input, pos + 3, VariantTokens(vs, ar)) && input[q].ttype.RParen?
  {
    Framed3(input, pos, LParen, TType.Enum, Ident(e.typeName), VariantTokens(e.variants, e.arities), RParen);
  }

  lemma EnumParsed(input: seq<Token>, pos: nat, n: string, vs: seq<string>, ar: seq<U8>, q: nat)
    requires WellFormed(input) && q + 1 < |input| && pos + 3 < |input| && CapitalName(n)
    requires input[pos].ttype.LParen? && input[pos + 1].ttype.Enum? && input[pos + 2].ttype == Ident(n)
    requires |vs| == |ar| && forall i :: 0 <= i < |vs| ==> CapitalName(vs[i])
    requires Matches(input, pos + 3, VariantTokens(vs, ar)) && q == pos + 3 + |VariantTokens(vs, ar)|
    requires input[q].ttype.RParen?
    ensures ParseExpr(input, pos) == Step(Ok(Expr.Enum(n, vs, ar)), q + 1)
  {
    VariantsRead(input, pos + 3, vs, ar, q);
    EnumAt(input, pos, n, vs, ar, q);
    ClosedBy(input, q, Expr.Enum(n, vs, ar));
  }

  /** Printed variants followed by `)` are read back exactly by the variant
      loop, started with empty lists. */
  lemma VariantsRead(input: seq<Token>, pos: nat, vs: seq<string>, ar: seq<U8>, q: nat)
    requires VariantsPrinted(input, pos, vs, ar, q) && input[q].ttype.RParen?
    ensures Variants(input, pos, [], []) == Step(Ok((vs, ar)), q)
  {
    VariantsLaidOut(input, pos, vs, ar, q);
    VariantsRoundTrip(input, pos, vs, ar, [], [], q);
    assert [] + vs == vs && [] + ar == ar;
  }

  /** `input` holds, from `pos` up to `end`, the printed variants `vs` with
      arities `ar`. */
  ghost predicate VariantsPrinted(input: seq<Token>, pos: nat, vs: seq<string>, ar: seq<U8>, end: nat)
  {
    WellFormed(input) && |vs| == |ar| && (forall i :: 0 <= i < |vs| ==> CapitalName(vs[i])) &&
    Matches(input, pos, VariantTokens(vs, ar)) && end == pos + |VariantTokens(vs, ar)| < |input|
  }

  /** `input` holds, from `pos`, one variant `(n f1 ... fk)`. */
  ghost predicate VariantAt(input: seq<Token>, pos: nat, n: string, k: nat)
  {
    pos + k + 3 < |input| && input[pos].ttype.LParen? && input[pos + 1].ttype == Ident(n) && CapitalName(n) &&
    (forall i :: pos + 2 <= i < pos + 2 + k ==> input[i].ttype.Ident?) && input[pos + 2 + k].ttype.RParen?
  }

  /** The same layout, variant by variant. */
  ghost predicate VariantsAt(input: seq<Token>, pos: nat, vs: seq<string>, ar: seq<U8>, end: nat)
    decreases |vs|
  {
    |vs| == |ar| &&
    if vs == [] then pos == end < |input|
    else VariantAt(input, pos, vs[0], ar[0] as nat) && VariantsAt(input, pos + ar[0] as nat + 3, vs[1..], ar[1..], end)
  }

  lemma {:induction false} VariantsLaidOut(input: seq<Token>, pos: nat, vs: seq<string>, ar: seq<U8>, end: nat)
    requires VariantsPrinted(input, pos, vs, ar, end)
    ensures VariantsAt(input, pos, vs, ar, end)
    decreases |vs|
  {
    if vs != [] {
      FirstVariant(input, pos, vs, ar, end);
      VariantsLaidOut(input, pos + ar[0] as nat + 3, vs[1..], ar[1..], end);
    }
  }

  /** The variant loop reads printed variants back, names and arities in
      declaration order, and stops at the `)` at `end`, just after them. */
  lemma {:induction false} VariantsRoundTrip(input: seq<Token>, pos: nat, vs: seq<string>, ar: seq<U8>,
                                             names: seq<string>, arities: seq<U8>, end: nat)
    requires WellFormed(input) && VariantsAt(input, pos, vs, ar, end)
    requires end < |input| && input[end].ttype.RParen?
    ensures Variants(input, pos, names, arities) == Step(Ok((names + vs, arities + ar)), end)
    decreases |vs|
  {
    if vs != [] {
      VariantsRoundTrip(input, pos + ar[0] as nat + 3, vs[1..], ar[1..], names + [vs[0]], arities + [ar[0]], end);
      VariantsHead(input, pos, vs, ar, names, arities);
    } else {
      assert names + vs == names && arities + ar == arities;
    }
  }

  /** The variant loop reads the first printed variant and goes on just
      after it. */
  lemma VariantsHead(input: seq<Token>, pos: nat, vs: seq<string>, ar: seq<U8>,
                     names: seq<string>, arities: seq<U8>)
    requires WellFormed(input) && vs != [] && |vs| == |ar| && VariantAt(input, pos, vs[0], ar[0] as nat)
    ensures Variants(input, pos, names, arities) ==
            Variants(input, pos + ar[0] as nat + 3, names + [vs[0]], arities + [ar[0]])
    ensures names + [vs[0]] + vs[1..] == names + vs && arities + [ar[0]] + ar[1..] == arities + ar
  {
    VariantStep(input, pos, names, arities, ar[0] as nat);
    ToU8Identity(ar[0]);
    AppendHead(names, vs);
    AppendHead(arities, ar);
  }

  /** The tokens of the first printed variant, and where the others start. */
  lemma FirstVariant(input: seq<Token>, pos: nat, vs: seq<string>, ar: seq<U8>, end: nat)
    requires vs != [] && VariantsPrinted(input, pos, vs, ar, end)
    ensures var k := ar[0] as nat;
      VariantAt(input, pos, vs[0], k) && VariantsPrinted(input, pos + k + 3, vs[1..], ar[1..], end)
  {
    var k := ar[0] as nat;
    var fs, rest := Fields(k), VariantTokens(vs[1..], ar[1..]);
    var m := [LParen, Ident(vs[0])] + fs + [RParen];
    assert VariantTokens(vs, ar) == m + rest;
    MatchesSplit(input, pos, m, rest);
    Framed2(input, pos, LParen, Ident(vs[0]), fs, RParen);
    MatchesFields(input, pos + 2, k);
    CapitalTail(vs);
  }

  lemma CapitalTail(vs: seq<string>)
    requires vs != [] && forall i :: 0 <= i < |vs| ==> CapitalName(vs[i])
    ensures CapitalName(vs[0]) && forall i :: 0 <= i < |vs[1..]| ==> CapitalName(vs[1..][i])
  {
    forall i | 0 <= i < |vs[1..]| ensures CapitalName(vs[1..][i]) {
      assert vs[1..][i] == vs[i + 1];
    }
  }

  lemma ToU8Identity(a: U8)
    ensures ToU8(a as nat) == a
  {
  }

  lemma AppendHead<T>(a: seq<T>, s: seq<T>)
    requires s != []
    ensures a + [s[0]] + s[1..] == a + s
  {
  }

  // ------------------------------------------------------------ call

  lemma {:induction false} CallRoundTrip(input: seq<Token>, pos: nat, e: Expr)
    requires WellFormed(input) && Printable(e) && e.Call?
    requires Matches(input, pos, Unparse(e)) && pos + |Unparse(e)| < |input|
    ensures ParseExpr(input, pos) == Step(Ok(e), pos + |Unparse(e)|)
    decreases e, 1
  {
    var q := pos + 2 + |ArgTokens(e)|;
    CallTokens(input, pos, e);
    ArgsRoundTrip(input, pos + 2, e, [], q);
    CallParsed(input, pos, HeadName(e), SpineArgs(e), q);
    ChainIsFolded(e);
  }

  lemma CallTokens(input: seq<Token>, pos: nat, e: Expr)
    requires Printable(e) && e.Call? && Matches(input, pos, Unparse(e)) && pos + |Unparse(e)| < |input|
    ensures var q := pos + 2 + |ArgTokens(e)|;
      q + 1 == pos + |Unparse(e)| && IsCallChain(e) &&
      input[pos].ttype.LParen? && input[pos + 1].ttype == Ident(HeadName(e)) &&
      Matches(input, pos + 2, ArgTokens(e)) && input[q].ttype.RParen?
  {
    Framed2(input, pos, LParen, Ident(HeadName(e)), ArgTokens(e), RParen);
  }

  lemma CallParsed(input: seq<Token>, pos: nat, f: string, args: seq<Expr>, q: nat)
    requires WellFormed(input) && q + 1 < |input| && pos + 2 < |input|
    requires input[pos].ttype.LParen? && input[pos + 1].ttype == Ident(f)
    requires CallArgs(input, pos + 2, []) == CallArgs(input, q, [] + args) && input[q].ttype.RParen?
    ensures ParseExpr(input, pos) == Step(Ok(FoldCalls(Var(f), args)), q + 1)
  {
    assert [] + args == args;
    assert CallArgs(input, q, args) == Step(Ok(args), q);
    CallAt(input, pos, f, args, q);
    ClosedBy(input, q, FoldCalls(Var(f), args));
  }

  /** `input` holds, from `pos` up to `end`, the printed arguments of the
      printable call chain `e`. */
  ghost predicate ArgsAt(input: seq<Token>, pos: nat, e: Expr, end: nat)
  {
    WellFormed(input) && Printable(e) && IsCallChain(e) &&
    Matches(input, pos, ArgTokens(e)) && end == pos + |ArgTokens(e)| < |input|
  }

  /** `input` holds, from `pos` up to `end`, the printable expression `a`. */
  ghost predicate ExprAt(input: seq<Token>, pos: nat, a: Expr, end: nat)
  {
    WellFormed(input) && Printable(a) && Matches(input, pos, Unparse(a)) && end == pos + |Unparse(a)| < |input|
  }

  /** The argument loop reads the arguments of a printed call chain one by
      one, in order, and stops at `end`, just after them. */
  lemma {:induction false} ArgsRoundTrip(input: seq<Token>, pos: nat, e: Expr, acc: seq<Expr>, end: nat)
    requires ArgsAt(input, pos, e, end)
    ensures CallArgs(input, pos, acc) == CallArgs(input, end, acc + SpineArgs(e))
    decreases e, 0
  {
    if e.Call? {
      var p1 := pos + |ArgTokens(e.callee)|;
      LastArgTokens(input, pos, e, end);
      ArgsRoundTrip(input, pos, e.callee, acc, p1);
      ArgRoundTrip(input, pos, p1, e.arg, acc, SpineArgs(e.callee), end);
    } else {
      assert acc + SpineArgs(e) == acc;
    }
  }

  /** One more argument of the loop: after the arguments `s` read from
      `pos` to `p1`, the argument `a` is read from `p1` to `end`. */
  lemma ArgRoundTrip(input: seq<Token>, pos: nat, p1: nat, a: Expr, acc: seq<Expr>, s: seq<Expr>, end: nat)
    requires ExprAt(input, p1, a, end) && pos < |input|
    requires CallArgs(input, pos, acc) == CallArgs(input, p1, acc + s)
    ensures CallArgs(input, pos, acc) == CallArgs(input, end, acc + (s + [a]))
    decreases a, 3
  {
    RoundTrip(input, p1, a);
    MatchesAt(input, p1, Unparse(a), 0);
    CallArgsStep(input, p1, acc + s, a, end);
    AppendLast(acc, s, a);
  }

  /** The tokens of the last argument of a chain, and of the ones before. */
  lemma LastArgTokens(input: seq<Token>, pos: nat, e: Expr, end: nat)
    requires ArgsAt(input, pos, e, end) && e.Call?
    ensures var p1 := pos + |ArgTokens(e.callee)|;
      ArgsAt(input, pos, e.callee, p1) && ExprAt(input, p1, e.arg, end) &&
      SpineArgs(e) == SpineArgs(e.callee) + [e.arg]
  {
    MatchesSplit(input, pos, ArgTokens(e.callee), Unparse(e.arg));
  }

  lemma AppendLast<T>(a: seq<T>, s: seq<T>, x: T)
    ensures a + s + [x] == a + (s + [x])
  {
  }

  /** A call chain is the fold of its arguments onto the head variable. */
  lemma {:induction false} ChainIsFolded(e: Expr)
    requires IsCallChain(e)
    ensures FoldCalls(Var(HeadName(e)), SpineArgs(e)) == e
  {
    if e.Call? {
      ChainIsFolded(e.callee);
      var args := SpineArgs(e);
      assert args[..|args| - 1] == SpineArgs(e.callee);
    }
  }

  // --------------------------------------------------------- program

  /** The tokens of a whole program: its expressions one after the other. */
  function UnparseAll(es: seq<Expr>): seq<TType>
  {
    if es == [] then [] else Unparse(es[0]) + UnparseAll(es[1..])
  }

  /** `input` holds, from `pos`, the tokens of the printable program `es`
      and then only the sentinel. */
  ghost predicate PrintedAt(input: seq<Token>, pos: nat, es: seq<Expr>)
  {
    WellFormed(input) && (forall i :: 0 <= i < |es| ==> Printable(es[i])) &&
    Matches(input, pos, UnparseAll(es)) && pos + |UnparseAll(es)| + 1 == |input|
  }

  /** `parse` on a printed program, followed by the sentinel, returns its
      expressions in order and stops at the sentinel. */
  lemma {:induction false} ProgramRoundTrip(input: seq<Token>, pos: nat, es: seq<Expr>, out: seq<Expr>)
    requires PrintedAt(input, pos, es)
    ensures ParseAll(input, pos, out) == Run(Ok(out + es), |input| - 1, out + es)
    decreases |es|
  {
    if es == [] {
      ProgramEnd(input, pos, out);
    } else {
      var p1 := pos + |Unparse(es[0])|;
      FirstExpression(input, pos, es);
      ProgramRoundTrip(input, p1, es[1..], out + [es[0]]);
      ProgramHead(input, pos, es, out, p1);
    }
  }

  /** At the sentinel `parse` returns what was pushed. */
  lemma ProgramEnd(input: seq<Token>, pos: nat, out: seq<Expr>)
    requires PrintedAt(input, pos, [])
    ensures ParseAll(input, pos, out) == Run(Ok(out + []), |input| - 1, out + [])
  {
    assert out + [] == out;
  }

  /** `parse` reads the first expression of a printed program, then the
      rest. */
  lemma ProgramHead(input: seq<Token>, pos: nat, es: seq<Expr>, out: seq<Expr>, q: nat)
    requires es != [] && ExprAt(input, pos, es[0], q)
    requires ParseAll(input, q, out + [es[0]]) == Run(Ok(out + [es[0]] + es[1..]), |input| - 1, out + [es[0]] + es[1..])
    ensures ParseAll(input, pos, out) == Run(Ok(out + es), |input| - 1, out + es)
  {
    RoundTrip(input, pos, es[0]);
    ParseAllStep(input, pos, out, es[0], q);
    AppendHead(out, es);
  }

  /** The tokens of the first expression of a program, and of the rest. */
  lemma FirstExpression(input: seq<Token>, pos: nat, es: seq<Expr>)
    requires es != [] && PrintedAt(input, pos, es)
    ensures var p1 := pos + |Unparse(es[0])|;
      ExprAt(input, pos, es[0], p1) && PrintedAt(input, p1, es[1..])
  {
    MatchesSplit(input, pos, Unparse(es[0]), UnparseAll(es[1..]));
    PrintableTail(es);
  }

  lemma PrintableTail(es: seq<Expr>)
    requires es != [] && forall i :: 0 <= i < |es| ==> Printable(es[i])
    ensures forall i :: 0 <= i < |es[1..]| ==> Printable(es[1..][i])
  {
    forall i | 0 <= i < |es[1..]| ensures Printable(es[1..][i]) {
      assert es[1..][i] == es[i + 1];
    }
  }
}
