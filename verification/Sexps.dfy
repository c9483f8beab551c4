/** S-expressions, their token sequences, and the stack parser that inverts printing. */
module Sexps {
  import opened Wrappers

  datatype Sexp = Atom(name: string) | List(items: seq<Sexp>)

  datatype Token = Open | Close | Word(name: string)

  function Tokens(s: Sexp): seq<Token> {
    match s
    case Atom(n) => [Word(n)]
    case List(xs) => [Open] + TokensOf(xs) + [Close]
  }

  function TokensOf(ss: seq<Sexp>): seq<Token> {
    if ss == [] then [] else Tokens(ss[0]) + TokensOf(ss[1..])
  }

  lemma {:induction false} TokensOfConcat(a: seq<Sexp>, b: seq<Sexp>)
    ensures TokensOf(a + b) == TokensOf(a) + TokensOf(b)
  {
    if a == [] {
      assert a + b == b;
    } else {
      assert (a + b)[1..] == a[1..] + b;
      TokensOfConcat(a[1..], b);
    }
  }

  /** The enclosing lists under construction, innermost last, and the current one. */
  datatype Parser = Parser(stack: seq<seq<Sexp>>, top: seq<Sexp>)

  /** One token; None is the unbalanced closing parenthesis. */
  function Feed(p: Parser, t: Token): Option<Parser> {
    match t
    case Open => Some(Parser(p.stack + [p.top], []))
    case Close =>
      if p.stack == [] then None
      else Some(Parser(p.stack[..|p.stack| - 1], p.stack[|p.stack| - 1] + [List(p.top)]))
    case Word(n) => Some(Parser(p.stack, p.top + [Atom(n)]))
  }

  function FeedAll(p: Parser, ts: seq<Token>): Option<Parser>
    decreases |ts|
  {
    if ts == [] then Some(p)
    else match Feed(p, ts[0])
      case None => None
      case Some(p') => FeedAll(p', ts[1..])
  }

  /** The tokens consumed so far, read back off the parser's state. */
  function Consumed(p: Parser): seq<Token> {
    Unclosed(p.stack) + TokensOf(p.top)
  }

  function Unclosed(stack: seq<seq<Sexp>>): seq<Token> {
    if stack == [] then [] else Unclosed(stack[..|stack| - 1]) + TokensOf(stack[|stack| - 1]) + [Open]
  }

  lemma {:induction false} ClosedTokens(outer: seq<Sexp>, inner: seq<Sexp>)
    ensures TokensOf(outer + [List(inner)]) == TokensOf(outer) + ([Open] + TokensOf(inner) + [Close])
  {
    TokensOfConcat(outer, [List(inner)]);
    TokensOfOne(List(inner));
  }

  lemma Regrouped(a: seq<Token>, b: seq<Token>, c: seq<Token>)
    ensures a + (b + ([Open] + c + [Close])) == (a + b + [Open]) + c + [Close]
  {}

  lemma {:induction false} FeedConsumes(p: Parser, t: Token)
    requires Feed(p, t).Some?
    ensures Consumed(Feed(p, t).value) == Consumed(p) + [t]
  {
    var p' := Feed(p, t).value;
    match t {
      case Open =>
        assert p'.stack[..|p.stack|] == p.stack;
        assert TokensOf([]) == [];
      case Close =>
        var outer := p.stack[|p.stack| - 1];
        ClosedTokens(outer, p.top);
        Regrouped(Unclosed(p'.stack), TokensOf(outer), TokensOf(p.top));
      case Word(n) =>
        TokensOfConcat(p.top, [Atom(n)]);
        TokensOfOne(Atom(n));
    }
  }

  lemma {:induction false} TokensOfOne(s: Sexp)
    ensures TokensOf([s]) == Tokens(s)
  {
    assert [s][1..] == [];
  }

  lemma {:induction false} FeedAllConcat(p: Parser, a: seq<Token>, b: seq<Token>)
    ensures FeedAll(p, a + b) == (match FeedAll(p, a) case None => None case Some(p') => FeedAll(p', b))
    decreases |a|
  {
    if a == [] {
      assert a + b == b;
    } else {
      assert (a + b)[1..] == a[1..] + b;
      if Feed(p, a[0]).Some? {
        FeedAllConcat(Feed(p, a[0]).value, a[1..], b);
      }
    }
  }

  /** Feeding an expression's tokens appends the expression to the current list. */
  lemma {:induction false} FeedTokens(p: Parser, s: Sexp)
    ensures FeedAll(p, Tokens(s)) == Some(Parser(p.stack, p.top + [s]))
    decreases s, 1
  {
    match s {
      case Atom(n) =>
        assert Tokens(s)[1..] == [];
      case List(xs) =>
        var inner := Parser(p.stack + [p.top], []);
        FeedTokensOf(inner, xs);
        FeedAllConcat(inner, TokensOf(xs), [Close]);
        assert Tokens(s)[1..] == TokensOf(xs) + [Close];
        var filled := Parser(inner.stack, [] + xs);
        assert filled.top == xs;
        assert inner.stack[..|p.stack|] == p.stack;
        assert FeedAll(filled, [Close]) == Some(Parser(p.stack, p.top + [s])) by {
          assert [Close][1..] == [];
        }
    }
  }

  lemma {:induction false} FeedTokensOf(p: Parser, ss: seq<Sexp>)
    ensures FeedAll(p, TokensOf(ss)) == Some(Parser(p.stack, p.top + ss))
    decreases ss, 0
  {
    if ss == [] {
      assert p.top + ss == p.top;
    } else {
      FeedTokens(p, ss[0]);
      FeedAllConcat(p, Tokens(ss[0]), TokensOf(ss[1..]));
      FeedTokensOf(Parser(p.stack, p.top + [ss[0]]), ss[1..]);
      assert p.top + [ss[0]] + ss[1..] == p.top + ss;
    }
  }

  lemma {:induction false} NotPrinted(tokens: seq<Token>)
    requires FeedAll(Parser([], []), tokens) == None
    ensures forall ss :: TokensOf(ss) != tokens
  {
    forall ss ensures TokensOf(ss) != tokens {
      FeedTokensOf(Parser([], []), ss);
    }
  }

  /** The parser accepts exactly the printed forms, and returns what was printed. */
  method ParseSexps(tokens: seq<Token>) returns (r: Option<seq<Sexp>>)
    ensures r.Some? ==> TokensOf(r.value) == tokens
    ensures forall ss :: TokensOf(ss) == tokens ==> r == Some(ss)
  {
    var stack: seq<seq<Sexp>>, top: seq<Sexp> := [], [];
    ghost var start := Parser([], []);
    for i := 0 to |tokens|
      invariant FeedAll(start, tokens) == FeedAll(Parser(stack, top), tokens[i..])
      invariant Consumed(Parser(stack, top)) == tokens[..i]
    {
      assert tokens[i..][1..] == tokens[i + 1..];
      assert tokens[..i + 1] == tokens[..i] + [tokens[i]];
      ghost var before := Parser(stack, top);
      match tokens[i] {
        case Open =>
          stack := stack + [top];
          top := [];
        case Close =>
          if stack == [] {
            NotPrinted(tokens);
            return None;
          }
          var done := top;
          top := stack[|stack| - 1] + [List(done)];
          stack := stack[..|stack| - 1];
        case Word(n) =>
          top := top + [Atom(n)];
      }
      FeedConsumes(before, tokens[i]);
    }
    assert tokens[..|tokens|] == tokens;
    forall ss | TokensOf(ss) == tokens ensures stack == [] && top == ss {
      FeedTokensOf(start, ss);
      assert start.top + ss == ss;
    }
    r := if stack != [] then None else Some(top);
  }

  /** The printed form determines the expressions. */
  lemma {:induction false} TokensInjective(a: seq<Sexp>, b: seq<Sexp>)
    requires TokensOf(a) == TokensOf(b)
    ensures a == b
  {
    var start := Parser([], []);
    FeedTokensOf(start, a);
    FeedTokensOf(start, b);
    assert start.top + a == a && start.top + b == b;
  }
}
