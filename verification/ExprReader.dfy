/**
 The expression reader (`pgf_read_expr`): one character of pushback and one
 token of lookahead over the input text.
 */
module ExprReader {
  import opened Wrappers
  import opened Expr
  import opened ExprSyntax

  class Reader {
    const input: string
    var pos: nat
    /** Pushed-back character; NUL stands for the end of the input. */
    var nextChar: Option<char>
    var lookahead: Option<Tok>
    var failed: bool

    ghost predicate Valid()
      reads this
    {
      pos <= |input| && lookahead != Some(Junk)
    }

    /** The characters still to be read. */
    ghost function Text(): string
      requires Valid()
      reads this
    {
      match nextChar
      case None => input[pos..]
      case Some(c) => if c == '\0' then "" else [c] + input[pos..]
    }

    ghost function Now(): View
      requires Valid()
      reads this
    {
      View(lookahead, Lex(Text()))
    }

    /** Characters and tokens still to be consumed. */
    ghost function Left(): nat
      requires Valid()
      reads this
    {
      |Text()| + if lookahead.Some? then 1 else 0
    }

    constructor (input: string)
      ensures Valid() && !failed && Now() == View(None, Lex(input))
    {
      this.input := input;
      pos, nextChar, lookahead, failed := 0, None, None, false;
    }

    method Next() returns (c: char)
      requires Valid()
      modifies this`pos, this`nextChar
      ensures Valid()
      ensures nextChar == None || nextChar == Some('\0')
      ensures old(Text()) == "" ==> c == '\0' && Text() == ""
      ensures old(Text()) != "" ==> nextChar == None && [c] + Text() == old(Text())
    {
      if nextChar.Some? {
        c := nextChar.value;
        if c != '\0' {
          nextChar := None;
        }
        return;
      }
      if pos == |input| {
        return '\0';
      }
      c := input[pos];
      pos := pos + 1;
    }

    /** Skips to the first character that is no space. */
    method SkipSpaces() returns (c: char)
      requires Valid()
      modifies this`pos, this`nextChar
      ensures Valid()
      ensures nextChar == None || nextChar == Some('\0')
      ensures |Text()| <= |old(Text())|
      ensures !IsSpace(c)
      // either the input is used up, or c is the next character
      ensures (c == '\0' && Text() == "" && Lex(old(Text())) == [])
              || (nextChar == None && |Text()| < |old(Text())| && Lex(old(Text())) == Lex([c] + Text()))
    {
      ghost var before := Text();
      c := Next();
      while IsSpace(c)
        invariant Valid() && (nextChar == None || nextChar == Some('\0'))
        invariant (c == '\0' && Text() == "" && Lex(before) == [])
                  || (nextChar == None && |Text()| < |before| && Lex(before) == Lex([c] + Text()))
        decreases |Text()| + if IsSpace(c) then 1 else 0
      {
        ghost var t := [c] + Text();
        assert t[1..] == Text();
        c := Next();
      }
    }

    /** Reads the rest of an identifier that starts with `first`. */
    method ReadId(first: char, ghost s: string) returns (name: string)
      requires Valid() && IsAlpha(first) && nextChar == None && s == [first] + Text()
      modifies this`pos, this`nextChar
      ensures Valid() && name == s[..IdLength(s)] && Text() == AfterTok(s)
    {
      name := "";
      var c := first;
      // c and what follows it
      ghost var rest := s;
      while IsIdChar(c)
        invariant Valid() && name + rest == s
        invariant AllIdChars(name) && (|name| > 0 || c == first)
        invariant rest == (if rest == "" then "" else [c] + Text())
        invariant if rest == "" then c == '\0' else nextChar == None
        decreases |rest|
      {
        MoveOne(name, rest);
        name := name + [c];
        rest := rest[1..];
        c := Next();
      }
      IdEnds(name, rest, s);
      nextChar := Some(c);
    }

    method Lookahead() returns (la: Option<Tok>)
      requires Valid()
      modifies this`pos, this`nextChar, this`lookahead
      ensures Valid() && Left() <= old(Left())
      ensures !failed ==> (la, Now()) == Peek(old(Now())) && la == lookahead
      ensures old(lookahead).Some? ==> la == lookahead == old(lookahead) && Text() == old(Text())
      ensures la.Some? ==> lookahead == la
    {
      if lookahead.Some? {
        return lookahead;
      }
      if failed {
        var _ := Next();
        return None;
      }
      var c := SkipSpaces();
      ReadToken(c, [c] + Text());
      la := lookahead;
    }

    /** Recognises the token that starts with `c`, if any does. */
    method ReadToken(c: char, ghost s: string)
      requires Valid() && lookahead == None && s == [c] + Text()
      requires IsAlpha(c) ==> nextChar == None
      modifies this`pos, this`nextChar, this`lookahead
      ensures Valid() && Text() == AfterTok(s)
      ensures lookahead == if FirstTok(s) == Junk then None else Some(FirstTok(s))
    {
      assert s[1..] == Text();
      if c == '(' {
        lookahead := Some(LPar);
      } else if c == ')' {
        lookahead := Some(RPar);
      } else if c == ';' {
        lookahead := Some(Semic);
      } else if IsAlpha(c) {
        var name := ReadId(c, s);
        lookahead := Some(Id(name));
      }
    }

    method Consume()
      requires Valid()
      modifies this`pos, this`nextChar, this`lookahead
      ensures Valid() && lookahead == None && Left() <= old(Left())
      ensures old(lookahead).Some? ==> Text() == old(Text()) && Left() < old(Left())
    {
      var _ := Lookahead();
      lookahead := None;
    }

    /** What a parsing method delivers, unless the reader has failed before. */
    ghost predicate Delivers(p: Parsed, e: Option<Expr>)
      requires Valid()
      reads this
    {
      (failed <==> !p.ok) && (!failed ==> e == p.expr && Now() == p.view)
    }

    method ReadTerm() returns (e: Option<Expr>)
      requires Valid()
      modifies this
      ensures Valid() && (old(failed) ==> failed)
      ensures Left() <= old(Left()) && (e.Some? ==> Left() < old(Left()))
      ensures !old(failed) ==> Delivers(Term(old(Now())), e)
      decreases Left(), 0
    {
      var la := Lookahead();
      if la == Some(LPar) {
        Consume();
        e := ReadWhole();
        la := Lookahead();
        if la == Some(RPar) {
          Consume();
          return;
        }
        failed := true;
        e := None;
      } else if la.Some? && la.value.Id? {
        Consume();
        e := Some(Fun(la.value.name));
      } else {
        e := None;
      }
    }

    method ReadWhole() returns (e: Option<Expr>)
      requires Valid()
      modifies this
      ensures Valid() && (old(failed) ==> failed)
      ensures Left() <= old(Left()) && (e.Some? ==> Left() < old(Left()))
      ensures !old(failed) ==> Delivers(Whole(old(Now())), e)
      decreases Left(), 1
    {
      e := ReadTerm();
      if e == None {
        return;
      }
      ghost var whole := Whole(old(Now()));
      while true
        invariant Valid() && e.Some? && (old(failed) ==> failed) && Left() < old(Left())
        invariant !old(failed) && failed ==> !whole.ok
        invariant !old(failed) && !failed ==> whole == Arguments(e.value, Now())
        decreases Left()
      {
        var arg := ReadTerm();
        if arg == None {
          return;
        }
        e := Some(App(e.value, arg.value));
      }
    }
  }

  ghost predicate AllIdChars(s: string) {
    forall i :: 0 <= i < |s| ==> IsIdChar(s[i])
  }

  lemma MoveOne(name: string, rest: string)
    requires rest != ""
    ensures name + [rest[0]] + rest[1..] == name + rest
  {}

  /** The identifier at the front of a text ends at the first character that
      cannot be in one. */
  lemma IdEnds(name: string, rest: string, s: string)
    requires s == name + rest && AllIdChars(name) && |name| > 0 && IsAlpha(s[0])
    requires rest == "" || !IsIdChar(rest[0])
    ensures name == s[..IdLength(s)]
    ensures AfterTok(s) == if rest != "" && rest[0] == '\0' then "" else rest
  {
    IdLengthAppend(name, rest);
    assert s[..|name|] == name && s[|name|..] == rest;
  }

  /** Reads one expression; a semicolon or the end must follow. */
  method ReadExpr(input: string) returns (e: Option<Expr>, failed: bool)
    ensures failed <==> !Read(input).ok
    ensures !failed ==> e == Read(input).expr
  {
    var reader := new Reader(input);
    e := reader.ReadWhole();
    if e.Some? && !reader.failed {
      if reader.lookahead == Some(Semic) {
        reader.Consume();
      } else if reader.lookahead.Some? {
        return e, true;
      }
    }
    failed := reader.failed;
  }

  /** Printing an expression and reading it gives it back. */
  method PrintAndRead(expr: Expr) returns (e: Option<Expr>, failed: bool)
    requires Plain(expr) && Named(expr)
    ensures e == Some(expr) && !failed
  {
    ReadPrint(expr);
    e, failed := ReadExpr(Print(expr, false));
  }
}
