/**
 Abstract syntax trees (`pgf/expr.h`) and taking applications apart
 (`pgf/expr.c`).
 */
module Expr {
  import opened Wrappers

  datatype Expr =
    | Abs(binder: string, body: Expr)
    | App(fun: Expr, arg: Expr)
    | Lit(text: string)
    | Meta(id: int)
    | Fun(name: string)
    | Var(index: int)
    | Typed(expr: Expr)
    | ImplArg(expr: Expr)

  /** Applying a head to arguments one by one. */
  function Applied(head: Expr, args: seq<Expr>): Expr {
    if args == [] then head else App(Applied(head, args[..|args| - 1]), args[|args| - 1])
  }

  /** The expression without implicit-argument and type wrappers around
      functions and their arguments. */
  function Strip(e: Expr): Expr {
    match e
    case App(fun, arg) => App(Strip(fun), Strip(arg))
    case Typed(x) => Strip(x)
    case ImplArg(x) => Strip(x)
    case _ => e
  }

  function StripAll(es: seq<Expr>): seq<Expr> {
    seq(|es|, i requires 0 <= i < |es| => Strip(es[i]))
  }

  function Unwrapped(e: Expr): Expr {
    match e
    case Typed(x) => Unwrapped(x)
    case ImplArg(x) => Unwrapped(x)
    case _ => e
  }

  datatype Application = Application(fun: string, args: seq<Expr>)

  /** The function and arguments of an application, wrappers on the spine
      ignored. */
  function Unapplied(e: Expr): Option<Application> {
    match e
    case Typed(x) => Unapplied(x)
    case ImplArg(x) => Unapplied(x)
    case Fun(name) => Some(Application(name, []))
    case App(fun, arg) =>
      var a := Unapplied(fun);
      if a.Some? then Some(Application(a.value.fun, a.value.args + [arg])) else None
    case _ => None
  }

  lemma {:induction false} UnwrappedSame(e: Expr)
    ensures Unapplied(Unwrapped(e)) == Unapplied(e) && Strip(Unwrapped(e)) == Strip(e)
    ensures !Unwrapped(e).Typed? && !Unwrapped(e).ImplArg?
    ensures Unwrapped(e) == e || Size(Unwrapped(e)) < Size(e)
    decreases e
  {
    match e
    case Typed(x) => UnwrappedSame(x);
    case ImplArg(x) => UnwrappedSame(x);
    case _ =>
  }

  function Size(e: Expr): nat {
    match e
    case App(fun, arg) => 1 + Size(fun) + Size(arg)
    case Typed(x) => 1 + Size(x)
    case ImplArg(x) => 1 + Size(x)
    case _ => 1
  }

  method Unwrap(expr: Expr) returns (e: Expr)
    ensures e == Unwrapped(expr)
  {
    e := expr;
    while e.Typed? || e.ImplArg?
      invariant Unwrapped(e) == Unwrapped(expr)
      decreases e
    {
      e := e.expr;
    }
  }

  /** The number of arguments, or -1 when the head is not a function. */
  method Arity(expr: Expr) returns (n: int)
    ensures n == match Unapplied(expr) case Some(a) => |a.args| case None => -1
  {
    n := 0;
    var rest := expr;
    while true
      invariant n >= 0
      invariant Unapplied(expr).Some? <==> Unapplied(rest).Some?
      invariant Unapplied(rest).Some? ==> |Unapplied(expr).value.args| == n + |Unapplied(rest).value.args|
      decreases Size(rest)
    {
      var e := Unwrap(rest);
      UnwrappedSame(rest);
      if e.App? {
        rest := e.fun;
        n := n + 1;
      } else if e.Fun? {
        return;
      } else {
        return -1;
      }
    }
  }

  /** Arguments are filled in from the last to the first. */
  method Unapply(expr: Expr) returns (appl: Option<Application>)
    ensures appl == Unapplied(expr)
  {
    var arity := Arity(expr);
    if arity < 0 {
      return None;
    }
    ghost var all := Unapplied(expr).value;
    var args: seq<Expr> := [];
    var rest := expr;
    var n := arity;
    while n > 0
      invariant 0 <= n <= arity && |args| == arity - n
      invariant Unapplied(rest).Some? && Unapplied(rest).value.fun == all.fun
      invariant |Unapplied(rest).value.args| == n && all.args == Unapplied(rest).value.args + args
    {
      var e := Unwrap(rest);
      UnwrappedSame(rest);
      args := [e.arg] + args;
      rest := e.fun;
      n := n - 1;
    }
    var head := Unwrap(rest);
    UnwrappedSame(rest);
    assert Unapplied(rest).value.args == [];
    assert all.args == args;
    appl := Some(Application(head.name, args));
  }

  /** Re-applying restores the expression up to wrappers... */
  lemma {:induction false} ReapplyStrips(e: Expr)
    requires Unapplied(e).Some?
    ensures Applied(Fun(Unapplied(e).value.fun), StripAll(Unapplied(e).value.args)) == Strip(e)
    decreases e
  {
    var a := Unapplied(e).value;
    match e
    case Typed(x) => ReapplyStrips(x);
    case ImplArg(x) => ReapplyStrips(x);
    case App(fun, arg) =>
      ReapplyStrips(fun);
      var b := Unapplied(fun).value;
      assert StripAll(a.args)[..|b.args|] == StripAll(b.args);
    case _ =>
  }

  /** Applications and functions only. */
  predicate Plain(e: Expr) {
    e.Fun? || (e.App? && Plain(e.fun) && Plain(e.arg))
  }

  /** ... and exactly, when there are none; such an expression is always an
      application of a function. */
  lemma {:induction false} Reapply(e: Expr)
    requires Plain(e)
    ensures Unapplied(e).Some? && Applied(Fun(Unapplied(e).value.fun), Unapplied(e).value.args) == e
    decreases e
  {
    if e.App? {
      Reapply(e.fun);
      var a := Unapplied(e).value;
      assert a.args[..|a.args| - 1] == Unapplied(e.fun).value.args;
    }
  }

  lemma {:induction false} ArgsSmaller(e: Expr, i: nat)
    requires Unapplied(e).Some? && i < |Unapplied(e).value.args|
    ensures Size(Unapplied(e).value.args[i]) < Size(e)
    decreases e
  {
    match e
    case Typed(x) => ArgsSmaller(x, i);
    case ImplArg(x) => ArgsSmaller(x, i);
    case App(fun, arg) =>
      if i < |Unapplied(fun).value.args| {
        ArgsSmaller(fun, i);
      }
    case _ =>
  }

  /** `e'` is `e` with its metavariables replaced. */
  ghost predicate Instance(e: Expr, e': Expr) {
    match e
    case Meta(_) => true
    case App(fun, arg) => e'.App? && Instance(fun, e'.fun) && Instance(arg, e'.arg)
    case _ => e' == e
  }

  lemma {:induction false} AppliedInstance(h: Expr, h': Expr, xs: seq<Expr>, ys: seq<Expr>)
    requires Instance(h, h') && |xs| == |ys| && forall i :: 0 <= i < |xs| ==> Instance(xs[i], ys[i])
    ensures Instance(Applied(h, xs), Applied(h', ys))
    decreases |xs|
  {
    if xs != [] {
      AppliedInstance(h, h', xs[..|xs| - 1], ys[..|ys| - 1]);
    }
  }
}
