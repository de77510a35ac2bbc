/**
 The text form of expressions, as a grammar over tokens: printing
 (`pgf_expr_print`), splitting into tokens and parsing them.
 */
module ExprSyntax {
  import opened Wrappers
  import opened Expr

  // ------------------------------------------------------------------------- printing

  /** Only functions, applications and metavariables can be printed; here the
      metavariable-free ones. */
  function Print(e: Expr, paren: bool): string
    requires Plain(e)
  {
    match e
    case Fun(name) => name
    case App(fun, arg) =>
      var inner := Print(fun, false) + " " + Print(arg, true);
      if paren then "(" + inner + ")" else inner
  }

  // --------------------------------------------------------------------------- tokens

  predicate IsSpace(c: char) {
    c in " \t\n\r" || c == '\U{0b}' || c == '\U{0c}'
  }

  predicate IsAlpha(c: char) {
    'a' <= c <= 'z' || 'A' <= c <= 'Z'
  }

  predicate IsIdChar(c: char) {
    IsAlpha(c) || '0' <= c <= '9' || c == '_'
  }

  /** `Junk` is a character that starts no token. */
  datatype Tok = LPar | RPar | Semic | Id(name: string) | Junk

  function IdLength(s: string): (n: nat)
    ensures n <= |s| && forall i :: 0 <= i < n ==> IsIdChar(s[i])
    ensures n < |s| ==> !IsIdChar(s[n])
  {
    if s == "" || !IsIdChar(s[0]) then 0 else 1 + IdLength(s[1..])
  }

  /** The token at the front of `s`, which starts with no space. */
  function FirstTok(s: string): Tok
    requires s != ""
  {
    if s[0] == '(' then LPar else if s[0] == ')' then RPar else if s[0] == ';' then Semic
    else if IsAlpha(s[0]) then Id(s[..IdLength(s)]) else Junk
  }

  /** What is left of `s` behind its first token.  A NUL right behind an
      identifier is taken for the end of the input. */
  function AfterTok(s: string): (r: string)
    requires s != ""
    ensures |r| < |s|
  {
    if IsAlpha(s[0]) then
      var n := IdLength(s);
      if n < |s| && s[n] == '\0' then "" else s[n..]
    else s[1..]
  }

  function Lex(s: string): seq<Tok>
    decreases |s|
  {
    if s == "" then []
    else if IsSpace(s[0]) then Lex(s[1..])
    else [FirstTok(s)] + Lex(AfterTok(s))
  }

  // -------------------------------------------------------------------------- parsing

  /** The reader's view of its input: a token looked at but not consumed, and
      the tokens behind it. */
  datatype View = View(la: Option<Tok>, rest: seq<Tok>)

  function Size(v: View): nat {
    |v.rest| + if v.la.Some? then 1 else 0
  }

  /** Looking ahead: junk is skipped, but looks like the end once. */
  function Peek(v: View): (Option<Tok>, View) {
    if v.la.Some? then (v.la, v)
    else if v.rest == [] then (None, v)
    else if v.rest[0] == Junk then (None, View(None, v.rest[1..]))
    else (Some(v.rest[0]), View(Some(v.rest[0]), v.rest[1..]))
  }

  datatype Parsed = Parsed(expr: Option<Expr>, view: View, ok: bool)

  function Term(v: View): (p: Parsed)
    ensures Size(p.view) <= Size(v) && (p.expr.Some? ==> Size(p.view) < Size(v))
    decreases Size(v), 0
  {
    var (la, v1) := Peek(v);
    match la
    case Some(LPar) =>
      var p := Whole(v1.(la := None));
      if !p.ok then Parsed(None, p.view, false) else
      var (la2, v2) := Peek(p.view);
      if la2 == Some(RPar) then Parsed(p.expr, v2.(la := None), true)
      else Parsed(None, v2, false)
    case Some(Id(name)) => Parsed(Some(Fun(name)), v1.(la := None), true)
    case _ => Parsed(None, v1, true)
  }

  function Whole(v: View): (p: Parsed)
    ensures Size(p.view) <= Size(v) && (p.expr.Some? ==> Size(p.view) < Size(v))
    decreases Size(v), 2
  {
    var p := Term(v);
    if p.ok && p.expr.Some? then Arguments(p.expr.value, p.view) else p
  }

  /** Terms that follow are arguments. */
  function Arguments(e: Expr, v: View): (p: Parsed)
    ensures Size(p.view) <= Size(v)
    decreases Size(v), 1
  {
    var p := Term(v);
    if !p.ok then Parsed(None, p.view, false)
    else if p.expr.Some? then Arguments(App(e, p.expr.value), p.view)
    else Parsed(Some(e), p.view, true)
  }

  /** A whole input: an expression, then nothing or a semicolon. */
  function Read(s: string): Parsed {
    var p := Whole(View(None, Lex(s)));
    if p.ok && p.expr.Some? && p.view.la.Some? && p.view.la != Some(Semic)
    then p.(ok := false) else p
  }

  // ------------------------------------------------------------------------ round trip

  /** A letter followed by letters, digits and underscores. */
  predicate IsName(s: string) {
    s != "" && IsAlpha(s[0]) && forall i :: 0 <= i < |s| ==> IsIdChar(s[i])
  }

  predicate Named(e: Expr)
    requires Plain(e)
  {
    match e
    case Fun(name) => IsName(name)
    case App(fun, arg) => Named(fun) && Named(arg)
  }

  function Toks(e: Expr, paren: bool): seq<Tok>
    requires Plain(e)
  {
    match e
    case Fun(name) => [Id(name)]
    case App(fun, arg) =>
      var inner := Toks(fun, false) + Toks(arg, true);
      if paren then [LPar] + inner + [RPar] else inner
  }

  /** `s` does not continue an identifier. */
  predicate Ends(s: string) {
    s == "" || (!IsIdChar(s[0]) && s[0] != '\0')
  }

  lemma {:induction false} IdLengthAppend(a: string, s: string)
    requires (forall i :: 0 <= i < |a| ==> IsIdChar(a[i])) && (s == "" || !IsIdChar(s[0]))
    ensures IdLength(a + s) == |a|
    decreases |a|
  {
    if a == "" {
      assert a + s == s;
    } else {
      assert (a + s)[1..] == a[1..] + s;
      IdLengthAppend(a[1..], s);
    }
  }

  lemma LexName(name: string, s: string)
    requires IsName(name) && Ends(s)
    ensures Lex(name + s) == [Id(name)] + Lex(s)
  {
    var t := name + s;
    IdLengthAppend(name, s);
    assert t[..|name|] == name && t[|name|..] == s;
    assert t[0] == name[0];
  }

  lemma LexChar(c: char, s: string)
    requires c in "() "
    ensures Lex([c] + s) == (if c == '(' then [LPar] else if c == ')' then [RPar] else []) + Lex(s)
  {}

  /** In front of anything that does not continue it, `a` splits into `ts`. */
  ghost predicate SplitsInto(a: string, ts: seq<Tok>) {
    forall s {:trigger Ends(s)} :: Ends(s) ==> Lex(a + s) == ts + Lex(s)
  }

  lemma SplitName(name: string)
    requires IsName(name)
    ensures SplitsInto(name, [Id(name)])
  {
    forall s | Ends(s) ensures Lex(name + s) == [Id(name)] + Lex(s) {
      LexName(name, s);
    }
  }

  lemma ConcatAssoc<T>(a: seq<T>, b: seq<T>, c: seq<T>, d: seq<T>)
    ensures a + b + c + d == a + (b + (c + d))
  {}

  lemma LexJoin(a: string, ts: seq<Tok>, b: string, us: seq<Tok>, s: string)
    requires Lex(a + (" " + (b + s))) == ts + Lex(" " + (b + s)) && Lex(b + s) == us + Lex(s)
    ensures Lex(a + " " + b + s) == ts + us + Lex(s)
  {
    ConcatAssoc(a, " ", b, s);
    LexChar(' ', b + s);
    assert ts + (us + Lex(s)) == ts + us + Lex(s);
  }

  lemma SplitJoin(a: string, ts: seq<Tok>, b: string, us: seq<Tok>)
    requires SplitsInto(a, ts) && SplitsInto(b, us)
    ensures SplitsInto(a + " " + b, ts + us)
  {
    forall s | Ends(s) ensures Lex(a + " " + b + s) == ts + us + Lex(s) {
      assert Ends(" " + (b + s));
      LexJoin(a, ts, b, us, s);
    }
  }

  lemma SplitParens(a: string, ts: seq<Tok>)
    requires SplitsInto(a, ts)
    ensures SplitsInto("(" + a + ")", [LPar] + ts + [RPar])
  {
    forall s | Ends(s) ensures Lex("(" + a + ")" + s) == [LPar] + ts + [RPar] + Lex(s) {
      ConcatAssoc("(", a, ")", s);
      LexChar(')', s);
      LexChar('(', a + (")" + s));
      assert Ends(")" + s);
      ConcatAssoc([LPar], ts, [RPar], Lex(s));
    }
  }

  /** A printed expression splits into its tokens. */
  lemma {:induction false} SplitPrint(e: Expr, paren: bool)
    requires Plain(e) && Named(e)
    ensures SplitsInto(Print(e, paren), Toks(e, paren))
    decreases e
  {
    match e
    case Fun(name) => SplitName(name);
    case App(fun, arg) =>
      SplitPrint(fun, false);
      SplitPrint(arg, true);
      SplitJoin(Print(fun, false), Toks(fun, false), Print(arg, true), Toks(arg, true));
      SplitParens(Print(fun, false) + " " + Print(arg, true), Toks(fun, false) + Toks(arg, true));
  }

  /** The tokens of an expression in argument position parse as one term. */
  lemma {:induction false} TermToks(e: Expr, ts: seq<Tok>)
    requires Plain(e)
    ensures Term(View(None, Toks(e, true) + ts)) == Parsed(Some(e), View(None, ts), true)
    decreases e, 1
  {
    var all := Toks(e, true) + ts;
    match e
    case Fun(name) =>
      assert all[1..] == ts;
    case App(fun, arg) =>
      var inner := Toks(e, false) + ([RPar] + ts);
      assert all == [LPar] + inner;
      assert all[1..] == inner;
      WholeToks(e, [RPar] + ts);
      assert ([RPar] + ts)[1..] == ts;
      assert Arguments(e, View(None, [RPar] + ts)) == Parsed(Some(e), View(Some(RPar), ts), true);
  }

  /** Unparenthesised, they are read up to the point where further arguments
      could follow. */
  lemma {:induction false} WholeToks(e: Expr, ts: seq<Tok>)
    requires Plain(e)
    ensures Whole(View(None, Toks(e, false) + ts)) == Arguments(e, View(None, ts))
    decreases e, 0
  {
    match e
    case Fun(name) =>
      TermFun(name, ts);
    case App(fun, arg) =>
      assert Toks(e, false) + ts == Toks(fun, false) + (Toks(arg, true) + ts);
      WholeToks(fun, Toks(arg, true) + ts);
      TermToks(arg, ts);
  }

  lemma TermFun(name: string, ts: seq<Tok>)
    ensures Term(View(None, [Id(name)] + ts)) == Parsed(Some(Fun(name)), View(None, ts), true)
  {}

  /** Reading a printed expression gives it back, all of it. */
  lemma ReadPrint(e: Expr)
    requires Plain(e) && Named(e)
    ensures Read(Print(e, false)) == Parsed(Some(e), View(None, []), true)
  {
    SplitPrint(e, false);
    assert Ends("");
    assert Print(e, false) + "" == Print(e, false);
    assert Lex(Print(e, false) + "") == Toks(e, false) + [];
    WholeToks(e, []);
  }

  /** So is one with a semicolon behind it, whatever comes then... */
  lemma ReadSemicolon(e: Expr, s: string)
    requires Plain(e) && Named(e)
    ensures Read(Print(e, false) + ";" + s) == Parsed(Some(e), View(Some(Semic), Lex(s)), true)
  {
    ReadBefore(e, ';', Semic, s);
  }

  /** ... but not with a parenthesis that was never opened. */
  lemma ReadParenthesis(e: Expr, s: string)
    requires Plain(e) && Named(e)
    ensures Read(Print(e, false) + ")" + s) == Parsed(Some(e), View(Some(RPar), Lex(s)), false)
  {
    ReadBefore(e, ')', RPar, s);
  }

  lemma ReadBefore(e: Expr, c: char, t: Tok, s: string)
    requires Plain(e) && Named(e) && ((c == ';' && t == Semic) || (c == ')' && t == RPar))
    ensures Whole(View(None, Lex(Print(e, false) + [c] + s))) == Parsed(Some(e), View(Some(t), Lex(s)), true)
  {
    var text := Print(e, false);
    assert text + [c] + s == text + ([c] + s) && ([c] + s)[1..] == s;
    SplitPrint(e, false);
    assert Ends([c] + s);
    assert Lex([c] + s) == [t] + Lex(s);
    WholeToks(e, [t] + Lex(s));
    assert ([t] + Lex(s))[1..] == Lex(s);
  }

  // ------------------------------------------------------------------------- the text

  /** The names of an expression, one behind the other. */
  function Names(e: Expr): string
    requires Plain(e)
  {
    match e case Fun(name) => name case App(fun, arg) => Names(fun) + Names(arg)
  }

  function Applications(e: Expr): nat
    requires Plain(e)
  {
    match e case Fun(_) => 0 case App(fun, arg) => 1 + Applications(fun) + Applications(arg)
  }

  /** Arguments that are applications. */
  function Compound(e: Expr): nat
    requires Plain(e)
  {
    match e
    case Fun(_) => 0
    case App(fun, arg) => Compound(fun) + Compound(arg) + if arg.App? then 1 else 0
  }

  /** The characters of a text that can be part of a name. */
  function Letters(s: string): string {
    if s == "" then "" else (if IsIdChar(s[0]) then [s[0]] else "") + Letters(s[1..])
  }

  lemma {:induction false} LettersAppend(s: string, t: string)
    ensures Letters(s + t) == Letters(s) + Letters(t)
    decreases |s|
  {
    if s == "" {
      assert s + t == t;
    } else {
      assert (s + t)[1..] == s[1..] + t;
      LettersAppend(s[1..], t);
      Regroup(if IsIdChar(s[0]) then [s[0]] else "", Letters(s[1..]), Letters(t));
    }
  }

  lemma {:induction false} LettersOnly(s: string)
    requires forall i :: 0 <= i < |s| ==> IsIdChar(s[i])
    ensures Letters(s) == s
    decreases |s|
  {
    if s != "" {
      LettersOnly(s[1..]);
      assert s == [s[0]] + s[1..];
    }
  }

  function Count(s: string, c: char): nat {
    multiset(s)[c]
  }

  /** What may begin an expression, and what may end one. */
  predicate Opens(c: char) {
    IsIdChar(c) || c == '('
  }

  predicate Closes(c: char) {
    IsIdChar(c) || c == ')'
  }

  predicate InText(c: char) {
    IsIdChar(c) || c in " ()"
  }

  /** A text that begins and ends like an expression, and so does what every space in
      it stands between. */
  ghost predicate WellSpaced(s: string) {
    && s != "" && Opens(s[0]) && Closes(s[|s| - 1])
    && (forall i :: 0 <= i < |s| ==> InText(s[i]))
    && (forall i :: 0 < i < |s| - 1 && s[i] == ' ' ==> Closes(s[i - 1]) && Opens(s[i + 1]))
  }

  lemma SpacedJoin(a: string, b: string)
    requires WellSpaced(a) && WellSpaced(b)
    ensures WellSpaced(a + " " + b)
  {
    var s, n := a + " " + b, |a|;
    assert |s| == n + 1 + |b| && s[n] == ' ' && s[0] == a[0] && s[|s| - 1] == b[|b| - 1];
    forall i | 0 <= i < |s| ensures InText(s[i]) {
      if i < n {
        assert s[i] == a[i];
      } else if i > n {
        assert s[i] == b[i - n - 1];
      }
    }
    forall i | 0 < i < |s| - 1 && s[i] == ' ' ensures Closes(s[i - 1]) && Opens(s[i + 1]) {
      SpaceAt(a, b, i);
    }
  }

  lemma SpaceAt(a: string, b: string, i: nat)
    requires WellSpaced(a) && WellSpaced(b)
    requires var s := a + " " + b; 0 < i < |s| - 1 && s[i] == ' '
    ensures var s := a + " " + b; Closes(s[i - 1]) && Opens(s[i + 1])
  {
    var s, n := a + " " + b, |a|;
    if i < n {
      assert s[i] == a[i] && s[i - 1] == a[i - 1];
      assert i < n - 1 ==> s[i + 1] == a[i + 1];
    } else if i == n {
      assert s[i - 1] == a[n - 1] && s[i + 1] == b[0];
    } else {
      var k := i - n - 1;
      assert s[i] == b[k] && s[i + 1] == b[k + 1];
      assert k > 0 ==> s[i - 1] == b[k - 1];
    }
  }

  lemma SpacedParens(a: string)
    requires WellSpaced(a)
    ensures WellSpaced("(" + a + ")")
  {
    var s := "(" + a + ")";
    forall i | 0 <= i < |s| ensures s[i] == if i == 0 then '(' else if i <= |a| then a[i - 1] else ')' {}
  }

  /** A text with these names, that many spaces and that many pairs of
      parentheses, and nothing else. */
  ghost predicate HasText(s: string, names: string, spaces: nat, pairs: nat) {
    && Letters(s) == names && Count(s, ' ') == spaces && Count(s, '(') == pairs && Count(s, ')') == pairs
    && |s| == |names| + spaces + 2 * pairs
  }

  lemma TextJoin(a: string, names: string, spaces: nat, pairs: nat, b: string, names': string, spaces': nat, pairs': nat)
    requires HasText(a, names, spaces, pairs) && HasText(b, names', spaces', pairs')
    ensures HasText(a + " " + b, names + names', 1 + spaces + spaces', pairs + pairs')
  {
    LettersAppend(a + " ", b);
    LettersAppend(a, " ");
    assert Letters(" ") == "" && names + "" == names;
    CountJoin(a, b, ' ');
    CountJoin(a, b, '(');
    CountJoin(a, b, ')');
  }

  lemma CountJoin(a: string, b: string, c: char)
    ensures Count(a + " " + b, c) == Count(a, c) + Count(b, c) + if c == ' ' then 1 else 0
  {
    assert multiset(a + " " + b) == multiset(a) + multiset(" ") + multiset(b);
  }

  lemma TextParens(a: string, names: string, spaces: nat, pairs: nat)
    requires HasText(a, names, spaces, pairs)
    ensures HasText("(" + a + ")", names, spaces, pairs + 1)
  {
    LettersAppend("(" + a, ")");
    LettersAppend("(", a);
    assert Letters("(") == "" && Letters(")") == "";
    assert multiset("(" + a + ")") == multiset("(") + multiset(a) + multiset(")");
  }

  function Pairs(e: Expr, paren: bool): nat
    requires Plain(e)
  {
    Compound(e) + if paren && e.App? then 1 else 0
  }

  ghost predicate Printed(e: Expr, paren: bool, s: string)
    requires Plain(e)
  {
    WellSpaced(s) && HasText(s, Names(e), Applications(e), Pairs(e, paren))
  }

  lemma AppPrinted(fun: Expr, arg: Expr, a: string, b: string)
    requires Plain(fun) && Plain(arg) && Printed(fun, false, a) && Printed(arg, true, b)
    ensures Printed(App(fun, arg), false, a + " " + b)
    ensures Printed(App(fun, arg), true, "(" + (a + " " + b) + ")")
  {
    var e := App(fun, arg);
    SpacedJoin(a, b);
    TextJoin(a, Names(fun), Applications(fun), Pairs(fun, false), b, Names(arg), Applications(arg), Pairs(arg, true));
    SpacedParens(a + " " + b);
    TextParens(a + " " + b, Names(e), Applications(e), Compound(e));
  }

  /** What a printed expression is made of: its names in order, one space for every
      application, a pair of parentheses for every argument that is one, and nothing
      else. */
  lemma {:induction false} PrintText(e: Expr, paren: bool)
    requires Plain(e) && Named(e)
    ensures Printed(e, paren, Print(e, paren))
    decreases e
  {
    match e
    case Fun(name) => NameText(name);
    case App(fun, arg) =>
      PrintText(fun, false);
      PrintText(arg, true);
      AppPrinted(fun, arg, Print(fun, false), Print(arg, true));
  }

  lemma NameText(name: string)
    requires IsName(name)
    ensures WellSpaced(name) && HasText(name, name, 0, 0)
  {
    LettersOnly(name);
    NoneOf(name, ' ');
    NoneOf(name, '(');
    NoneOf(name, ')');
    assert forall i :: 0 <= i < |name| ==> InText(name[i]);
  }

  lemma NoneOf(name: string, c: char)
    requires (forall i :: 0 <= i < |name| ==> IsIdChar(name[i])) && !IsIdChar(c)
    ensures Count(name, c) == 0
  {
    assert c !in name;
  }
}
