/** The abstract syntax tree the parser produces, and the two folds that
    build curried calls and curried lambdas. */
module Ast {
  import opened Tokens

  /** Rust's `u8`, the type of an enum variant's arity. */
  newtype U8 = x: int | 0 <= x < 256

  datatype Expr =
    | Var(name: string)
    | Call(callee: Expr, arg: Expr)
    | Lambda(param: string, body: Expr)
    | Integer(ival: Int32)
    | Single(fval: F)
    | Boolean(bval: bool)
    | Def(defName: string, value: Expr)
    | Enum(typeName: string, variants: seq<string>, arities: seq<U8>)
    | Unit
    | String(sval: string)

  /** No `Boolean` node anywhere in the tree. */
  predicate BooleanFree(e: Expr)
  {
    match e
    case Boolean(_) => false
    case Call(f, a) => BooleanFree(f) && BooleanFree(a)
    case Lambda(_, b) => BooleanFree(b)
    case Def(_, v) => BooleanFree(v)
    case _ => true
  }

  /** Left fold of the arguments onto the applied expression:
      `FoldCalls(f, [a1, a2, a3]) == Call(Call(Call(f, a1), a2), a3)`. */
  function FoldCalls(func: Expr, args: seq<Expr>): (r: Expr)
    ensures BooleanFree(r) <==> BooleanFree(func) && forall i :: 0 <= i < |args| ==> BooleanFree(args[i])
  {
    if args == [] then func
    else
      var init := args[..|args| - 1];
      assert forall i :: 0 <= i < |init| ==> init[i] == args[i];
      Expr.Call(FoldCalls(func, init), args[|args| - 1])
  }

  /** The expression at the head of a chain of calls. */
  function SpineHead(e: Expr): Expr
  {
    if e.Call? then SpineHead(e.callee) else e
  }

  /** The arguments along a chain of calls, the first-applied one first. */
  function SpineArgs(e: Expr): seq<Expr>
  {
    if e.Call? then SpineArgs(e.callee) + [e.arg] else []
  }

  /** Right fold of the parameter names around the body:
      `FoldLambdas([p1, p2], b) == Lambda(p1, Lambda(p2, b))`. */
  function FoldLambdas(params: seq<string>, body: Expr): (r: Expr)
    ensures BooleanFree(r) <==> BooleanFree(body)
  {
    if params == [] then body else Expr.Lambda(params[0], FoldLambdas(params[1..], body))
  }

  /** Strips `k` lambda abstractions off `e`, returning their parameter names
      and what is left, or `None` when `e` has fewer than `k`. */
  function Unfold(e: Expr, k: nat): Option<(seq<string>, Expr)>
  {
    if k == 0 then Some(([], e))
    else if !e.Lambda? then None
    else match Unfold(e.body, k - 1)
      case None => None
      case Some(pb) => Some(([e.param] + pb.0, pb.1))
  }

  datatype Option<T> = None | Some(value: T)
}
