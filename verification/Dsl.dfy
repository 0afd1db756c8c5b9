/** The matrix expression language: tokens, the or/and/atom grammar, the
    recursive-descent parser and a printer that parses back. */
module Dsl {

  datatype Result<+T> = Ok(value: T) | Err(error: Error)

  datatype Error =
    | Empty
    | BadCharacter(ch: char)
    | MissingSetName
    | UnexpectedToken(token: Token)
    | MissingParenthesis

  datatype Token = Ident(name: string) | SetRef(name: string) | AndOp | OrOp | LParen | RParen | Eof

  datatype Expr =
    | Leaf(name: string)
    | Ref(name: string)
    | And(children: seq<Expr>)
    | Or(children: seq<Expr>)

  // ----------------------------------------------------------------- tokenizer

  /** The two character classes the tokenizer asks the Unicode tables for:
      white space, and letters or digits. */
  datatype Classes = Classes(space: char -> bool, letterOrDigit: char -> bool)
  {
    predicate IsIdent(ch: char)
    {
      letterOrDigit(ch) || ch == '_' || ch == '-' || ch == '.'
    }

    /** What Unicode says about the language's own characters. */
    ghost predicate Sane()
    {
      && space(' ')
      && (forall ch :: space(ch) ==> !IsIdent(ch) && ch !in "&|()+")
      && (forall ch :: ch in "&|()+" ==> !IsIdent(ch))
    }
  }

  /** Length of the longest prefix of identifier characters. */
  function IdentLength(cc: Classes, s: string): (n: nat)
    ensures n <= |s|
    ensures forall i :: 0 <= i < n ==> cc.IsIdent(s[i])
    ensures n < |s| ==> !cc.IsIdent(s[n])
  {
    if s != "" && cc.IsIdent(s[0]) then 1 + IdentLength(cc, s[1..]) else 0
  }

  function Prepend(t: Token, rest: Result<seq<Token>>): Result<seq<Token>>
  {
    if rest.Ok? then Ok([t] + rest.value) else rest
  }

  /** A token and the number of characters it takes. */
  datatype Lexeme = Lexeme(token: Token, length: nat)

  function FirstToken(cc: Classes, s: string): (r: Result<Lexeme>)
    requires s != ""
    ensures r.Ok? ==> 0 < r.value.length <= |s|
  {
    if s[0] == '&' then Ok(Lexeme(AndOp, 1))
    else if s[0] == '|' then Ok(Lexeme(OrOp, 1))
    else if s[0] == '(' then Ok(Lexeme(LParen, 1))
    else if s[0] == ')' then Ok(Lexeme(RParen, 1))
    else if s[0] == '+' then
      var n := IdentLength(cc, s[1..]);
      if n == 0 then Err(MissingSetName) else Ok(Lexeme(SetRef(s[1..n + 1]), n + 1))
    else
      var n := IdentLength(cc, s);
      if n == 0 then Err(BadCharacter(s[0])) else Ok(Lexeme(Ident(s[..n]), n))
  }

  function Tokens(cc: Classes, s: string): Result<seq<Token>>
    decreases |s|
  {
    if s == "" then Ok([Eof])
    else if cc.space(s[0]) then Tokens(cc, s[1..])
    else
      var first := FirstToken(cc, s);
      if first.Err? then Err(first.error)
      else Prepend(first.value.token, Tokens(cc, s[first.value.length..]))
  }

  /** `tokenize`: one pass with an index, appending tokens. */
  method Tokenize(cc: Classes, input: string) returns (r: Result<seq<Token>>)
    ensures r == Tokens(cc, input)
  {
    var tokens: seq<Token> := [];
    var i := 0;
    assert input[0..] == input;
    AppendNone(Tokens(cc, input));
    while i < |input|
      invariant i <= |input|
      invariant Tokens(cc, input) == Append(tokens, Tokens(cc, input[i..]))
    {
      if cc.space(input[i]) {
        assert input[i..][1..] == input[i + 1..];
        i := i + 1;
      } else {
        var first := ScanToken(cc, input, i);
        if first.Err? {
          return Err(first.error);
        }
        var next := i + first.value.length;
        assert input[i..][first.value.length..] == input[next..];
        AppendOne(tokens, first.value.token, Tokens(cc, input[next..]));
        tokens := tokens + [first.value.token];
        i := next;
      }
    }
    r := Ok(tokens + [Eof]);
  }

  /** The `switch` of `tokenize` at one position that is not white space. */
  method ScanToken(cc: Classes, input: string, i: nat) returns (r: Result<Lexeme>)
    requires i < |input|
    ensures r == FirstToken(cc, input[i..])
  {
    match input[i] {
      case '&' => r := Ok(Lexeme(AndOp, 1));
      case '|' => r := Ok(Lexeme(OrOp, 1));
      case '(' => r := Ok(Lexeme(LParen, 1));
      case ')' => r := Ok(Lexeme(RParen, 1));
      case '+' =>
        assert input[i..][1..] == input[i + 1..];
        var end := ScanIdent(cc, input, i + 1);
        assert input[i..][1..end - i] == input[i + 1..end];
        r := if end == i + 1 then Err(MissingSetName) else Ok(Lexeme(SetRef(input[i + 1..end]), end - i));
      case _ =>
        if !cc.IsIdent(input[i]) {
          r := Err(BadCharacter(input[i]));
        } else {
          var end := ScanIdent(cc, input, i);
          assert input[i..][..end - i] == input[i..end];
          r := Ok(Lexeme(Ident(input[i..end]), end - i));
        }
    }
  }

  method ScanIdent(cc: Classes, input: string, start: nat) returns (end: nat)
    requires start <= |input|
    ensures end == start + IdentLength(cc, input[start..])
  {
    end := start;
    while end < |input| && cc.IsIdent(input[end])
      invariant start <= end <= |input|
      invariant IdentLength(cc, input[start..]) == end - start + IdentLength(cc, input[end..])
    {
      end := end + 1;
    }
  }

  function Append(done: seq<Token>, rest: Result<seq<Token>>): Result<seq<Token>>
  {
    if rest.Ok? then Ok(done + rest.value) else rest
  }

  lemma AppendNone(rest: Result<seq<Token>>)
    ensures Append([], rest) == rest
  {
    if rest.Ok? {
      assert [] + rest.value == rest.value;
    }
  }

  lemma AppendOne(done: seq<Token>, t: Token, rest: Result<seq<Token>>)
    ensures Append(done, Prepend(t, rest)) == Append(done + [t], rest)
  {
    if rest.Ok? {
      assert done + ([t] + rest.value) == done + [t] + rest.value;
    }
  }

  /** A word of letters, digits, underscores, hyphens and dots is one name, and with a
      plus sign before it one reference. */
  lemma WordIsToken(cc: Classes, w: string)
    requires cc.Sane() && w != "" && forall i :: 0 <= i < |w| ==> cc.letterOrDigit(w[i]) || w[i] in "_-."
    ensures Tokens(cc, w) == Ok([Ident(w), Eof]) && Tokens(cc, "+" + w) == Ok([SetRef(w), Eof])
  {
    assert forall i :: 0 <= i < |w| ==> cc.IsIdent(w[i]);
    WordIsFirst(cc, w);
    var s := "+" + w;
    LoneToken(cc, w, Ident(w));
    assert '+' in "&|()+" && s[0] == '+';
    LoneToken(cc, s, SetRef(w));
  }

  /** The four signs, and what cannot begin a token. */
  lemma SignsAreTokens(cc: Classes, s: string)
    requires cc.Sane()
    ensures Tokens(cc, "&") == Ok([AndOp, Eof]) && Tokens(cc, "|") == Ok([OrOp, Eof])
    ensures Tokens(cc, "(") == Ok([LParen, Eof]) && Tokens(cc, ")") == Ok([RParen, Eof])
    ensures Tokens(cc, "+") == Err(MissingSetName)
    ensures s != "" && !cc.space(s[0]) && !cc.letterOrDigit(s[0]) && s[0] !in "_-.&|()+" ==> Tokens(cc, s) == Err(BadCharacter(s[0]))
  {
    assert '&' in "&|()+" && '|' in "&|()+" && '(' in "&|()+" && ')' in "&|()+" && '+' in "&|()+";
    LoneToken(cc, "&", AndOp);
    LoneToken(cc, "|", OrOp);
    LoneToken(cc, "(", LParen);
    LoneToken(cc, ")", RParen);
    assert "+"[1..] == "";
    if s != "" && !cc.space(s[0]) && !cc.letterOrDigit(s[0]) && s[0] !in "_-.&|()+" {
      assert s[0] !in "&|()+" && !cc.IsIdent(s[0]);
      NoSignFirst(cc, s);
    }
  }

  lemma WordIsFirst(cc: Classes, w: string)
    requires cc.Sane() && w != "" && forall i :: 0 <= i < |w| ==> cc.IsIdent(w[i])
    ensures FirstToken(cc, w) == Ok(Lexeme(Ident(w), |w|)) && FirstToken(cc, "+" + w) == Ok(Lexeme(SetRef(w), |w| + 1))
    ensures !cc.space(w[0])
  {
    var n, s := IdentLength(cc, w), "+" + w;
    assert n == |w| && w[..n] == w;
    assert s[0] == '+' && s[1..] == w && s[1..n + 1] == w;
    assert cc.IsIdent(w[0]) && w[0] != '&' && w[0] != '|' && w[0] != '(' && w[0] != ')' && w[0] != '+' by {
      assert '&' in "&|()+" && '|' in "&|()+" && '(' in "&|()+" && ')' in "&|()+" && '+' in "&|()+";
    }
  }

  lemma LoneToken(cc: Classes, s: string, t: Token)
    requires s != "" && !cc.space(s[0]) && FirstToken(cc, s) == Ok(Lexeme(t, |s|))
    ensures Tokens(cc, s) == Ok([t, Eof])
  {
    assert s[|s|..] == "";
    assert [t] + [Eof] == [t, Eof];
  }

  // -------------------------------------------------------------------- grammar

  /** atom ::= ident | +set | ( or ) */
  ghost predicate IsAtom(ts: seq<Token>, e: Expr)
    decreases |ts|, 0
  {
    || (e.Leaf? && ts == [Ident(e.name)])
    || (e.Ref? && ts == [SetRef(e.name)])
    || (|ts| >= 2 && ts[0] == LParen && ts[|ts| - 1] == RParen && IsOr(ts[1..|ts| - 1], e))
  }

  /** and ::= atom { & atom } */
  ghost predicate IsAnd(ts: seq<Token>, e: Expr)
    decreases |ts|, 2
  {
    IsAtom(ts, e) || (e.And? && |e.children| >= 2 && IsAndList(ts, e.children))
  }

  ghost predicate IsAndList(ts: seq<Token>, es: seq<Expr>)
    decreases |ts|, 1
  {
    if |es| < 2 then |es| == 1 && IsAtom(ts, es[0])
    else exists k: nat :: AndSplit(ts, k, es[0], es[1..])
  }

  ghost predicate AndSplit(ts: seq<Token>, k: nat, e: Expr, es: seq<Expr>)
    decreases |ts|, 0
  {
    k < |ts| && ts[k] == AndOp && IsAtom(ts[..k], e) && IsAndList(ts[k + 1..], es)
  }

  /** or ::= and { | and } */
  ghost predicate IsOr(ts: seq<Token>, e: Expr)
    decreases |ts|, 4
  {
    IsAnd(ts, e) || (e.Or? && |e.children| >= 2 && IsOrList(ts, e.children))
  }

  ghost predicate IsOrList(ts: seq<Token>, es: seq<Expr>)
    decreases |ts|, 3
  {
    if |es| < 2 then |es| == 1 && IsAnd(ts, es[0])
    else exists k: nat :: OrSplit(ts, k, es[0], es[1..])
  }

  ghost predicate OrSplit(ts: seq<Token>, k: nat, e: Expr, es: seq<Expr>)
    decreases |ts|, 0
  {
    k < |ts| && ts[k] == OrOp && IsAnd(ts[..k], e) && IsOrList(ts[k + 1..], es)
  }

  // --------------------------------------------------------------------- parser

  datatype Parsed<T> = Parsed(value: T, rest: seq<Token>)

  function Peek(ts: seq<Token>): Token { if ts == [] then Eof else ts[0] }

  function ParseAtom(ts: seq<Token>): (r: Result<Parsed<Expr>>)
    ensures r.Ok? ==> |r.value.rest| < |ts|
    decreases |ts|, 0
  {
    match Peek(ts)
    case Ident(name) => Ok(Parsed(Leaf(name), ts[1..]))
    case SetRef(name) => Ok(Parsed(Ref(name), ts[1..]))
    case LParen =>
      var inner := ParseOr(ts[1..]);
      if inner.Err? then inner
      else if Peek(inner.value.rest) != RParen then Err(MissingParenthesis)
      else Ok(Parsed(inner.value.value, inner.value.rest[1..]))
    case other => Err(UnexpectedToken(other))
  }

  function ParseAnd(ts: seq<Token>): (r: Result<Parsed<Expr>>)
    ensures r.Ok? ==> |r.value.rest| < |ts|
    decreases |ts|, 2
  {
    var r := ParseAnds(ts);
    if r.Err? then Err(r.error)
    else if |r.value.value| == 1 then Ok(Parsed(r.value.value[0], r.value.rest))
    else Ok(Parsed(And(r.value.value), r.value.rest))
  }

  function ParseAnds(ts: seq<Token>): (r: Result<Parsed<seq<Expr>>>)
    ensures r.Ok? ==> |r.value.value| > 0 && |r.value.rest| < |ts|
    decreases |ts|, 1
  {
    var first := ParseAtom(ts);
    if first.Err? then Err(first.error)
    else if Peek(first.value.rest) != AndOp then Ok(Parsed([first.value.value], first.value.rest))
    else
      var more := ParseAnds(first.value.rest[1..]);
      if more.Err? then more
      else Ok(Parsed([first.value.value] + more.value.value, more.value.rest))
  }

  function ParseOr(ts: seq<Token>): (r: Result<Parsed<Expr>>)
    ensures r.Ok? ==> |r.value.rest| < |ts|
    decreases |ts|, 4
  {
    var r := ParseOrs(ts);
    if r.Err? then Err(r.error)
    else if |r.value.value| == 1 then Ok(Parsed(r.value.value[0], r.value.rest))
    else Ok(Parsed(Or(r.value.value), r.value.rest))
  }

  function ParseOrs(ts: seq<Token>): (r: Result<Parsed<seq<Expr>>>)
    ensures r.Ok? ==> |r.value.value| > 0 && |r.value.rest| < |ts|
    decreases |ts|, 3
  {
    var first := ParseAnd(ts);
    if first.Err? then Err(first.error)
    else if Peek(first.value.rest) != OrOp then Ok(Parsed([first.value.value], first.value.rest))
    else
      var more := ParseOrs(first.value.rest[1..]);
      if more.Err? then more
      else Ok(Parsed([first.value.value] + more.value.value, more.value.rest))
  }

  function ParseTokens(ts: seq<Token>): Result<Expr>
  {
    var r := ParseOr(ts);
    if r.Err? then Err(r.error)
    else if Peek(r.value.rest) != Eof then Err(UnexpectedToken(Peek(r.value.rest)))
    else Ok(r.value.value)
  }

  predicate AllSpace(cc: Classes, input: string)
  {
    forall i :: 0 <= i < |input| ==> cc.space(input[i])
  }

  /** `parseDSL`. Trimming the text only decides whether it is empty. */
  function Parse(cc: Classes, input: string): Result<Expr>
  {
    if AllSpace(cc, input) then Err(Empty)
    else
      var ts := Tokens(cc, input);
      if ts.Err? then Err(ts.error) else ParseTokens(ts.value)
  }

  // ------------------------------------------------------------------ soundness

  /** The trees a parser can return: AND and OR nodes have at least two children. */
  ghost predicate Proper(e: Expr)
  {
    match e
    case Leaf(_) => true
    case Ref(_) => true
    case And(children) => |children| >= 2 && AllProper(children)
    case Or(children) => |children| >= 2 && AllProper(children)
  }

  ghost predicate AllProper(es: seq<Expr>)
  {
    forall c :: c in es ==> Proper(c)
  }

  /** What a parsing function took from its input. */
  function Used(ts: seq<Token>, rest: seq<Token>): seq<Token>
    requires |rest| <= |ts|
  {
    ts[..|ts| - |rest|]
  }

  ghost predicate Splits(ts: seq<Token>, rest: seq<Token>)
  {
    |rest| <= |ts| && ts == Used(ts, rest) + rest && Eof !in Used(ts, rest)
  }

  lemma SplitsChain(ts: seq<Token>, mid: seq<Token>, rest: seq<Token>)
    requires Splits(ts, mid) && mid != [] && mid[0] != Eof && Splits(mid[1..], rest)
    ensures Splits(ts, rest)
    ensures Used(ts, rest) == Used(ts, mid) + [mid[0]] + Used(mid[1..], rest)
  {
    assert ts == Used(ts, mid) + [mid[0]] + Used(mid[1..], rest) + rest;
  }

  lemma {:induction false} AtomSound(ts: seq<Token>)
    requires ParseAtom(ts).Ok?
    ensures var r := ParseAtom(ts).value;
      Splits(ts, r.rest) && IsAtom(Used(ts, r.rest), r.value) && Proper(r.value)
    decreases |ts|, 0
  {
    var r := ParseAtom(ts).value;
    if Peek(ts) == LParen {
      OrSound(ts[1..]);
      var inner := ParseOr(ts[1..]).value;
      var used := Used(ts[1..], inner.rest);
      assert ts == [LParen] + used + [RParen] + r.rest;
      assert Used(ts, r.rest) == [LParen] + used + [RParen];
      assert Used(ts, r.rest)[1..|used| + 1] == used;
    } else {
      assert ts == [ts[0]] + r.rest;
    }
  }

  lemma AndChain(ts: seq<Token>, mid: seq<Token>, rest: seq<Token>, e: Expr, es: seq<Expr>)
    requires Splits(ts, mid) && mid != [] && mid[0] == AndOp && Splits(mid[1..], rest)
    requires IsAtom(Used(ts, mid), e) && IsAndList(Used(mid[1..], rest), es)
    ensures Splits(ts, rest) && IsAndList(Used(ts, rest), [e] + es)
  {
    SplitsChain(ts, mid, rest);
    var all, k := Used(ts, rest), |Used(ts, mid)|;
    assert all[..k] == Used(ts, mid) && all[k + 1..] == Used(mid[1..], rest);
    var list := [e] + es;
    assert list[0] == e && list[1..] == es;
    assert AndSplit(all, k, list[0], list[1..]);
  }

  lemma {:induction false} AndsSound(ts: seq<Token>)
    requires ParseAnds(ts).Ok?
    ensures var r := ParseAnds(ts).value;
      Splits(ts, r.rest) && IsAndList(Used(ts, r.rest), r.value) && AllProper(r.value)
    decreases |ts|, 1
  {
    AtomSound(ts);
    var first := ParseAtom(ts).value;
    if Peek(first.rest) == AndOp {
      AndsSound(first.rest[1..]);
      var more := ParseAnds(first.rest[1..]).value;
      AndChain(ts, first.rest, more.rest, first.value, more.value);
    }
  }

  lemma {:induction false} AndSound(ts: seq<Token>)
    requires ParseAnd(ts).Ok?
    ensures var r := ParseAnd(ts).value;
      Splits(ts, r.rest) && IsAnd(Used(ts, r.rest), r.value) && Proper(r.value)
    decreases |ts|, 2
  {
    AndsSound(ts);
  }

  lemma OrChain(ts: seq<Token>, mid: seq<Token>, rest: seq<Token>, e: Expr, es: seq<Expr>)
    requires Splits(ts, mid) && mid != [] && mid[0] == OrOp && Splits(mid[1..], rest)
    requires IsAnd(Used(ts, mid), e) && IsOrList(Used(mid[1..], rest), es)
    ensures Splits(ts, rest) && IsOrList(Used(ts, rest), [e] + es)
  {
    SplitsChain(ts, mid, rest);
    var all, k := Used(ts, rest), |Used(ts, mid)|;
    assert all[..k] == Used(ts, mid) && all[k + 1..] == Used(mid[1..], rest);
    var list := [e] + es;
    assert list[0] == e && list[1..] == es;
    assert OrSplit(all, k, list[0], list[1..]);
  }

  lemma {:induction false} OrsSound(ts: seq<Token>)
    requires ParseOrs(ts).Ok?
    ensures var r := ParseOrs(ts).value;
      Splits(ts, r.rest) && IsOrList(Used(ts, r.rest), r.value) && AllProper(r.value)
    decreases |ts|, 3
  {
    AndSound(ts);
    var first := ParseAnd(ts).value;
    if Peek(first.rest) == OrOp {
      OrsSound(first.rest[1..]);
      var more := ParseOrs(first.rest[1..]).value;
      OrChain(ts, first.rest, more.rest, first.value, more.value);
    }
  }

  lemma {:induction false} OrSound(ts: seq<Token>)
    requires ParseOr(ts).Ok?
    ensures var r := ParseOr(ts).value;
      Splits(ts, r.rest) && IsOr(Used(ts, r.rest), r.value) && Proper(r.value)
    decreases |ts|, 4
  {
    OrsSound(ts);
  }

  // --------------------------------------------------------------- completeness

  lemma {:induction false} AtomComplete(ts: seq<Token>, e: Expr, rest: seq<Token>)
    requires IsAtom(ts, e)
    ensures ParseAtom(ts + rest) == Ok(Parsed(e, rest))
    decreases |ts|, 0
  {
    if (e.Leaf? && ts == [Ident(e.name)]) || (e.Ref? && ts == [SetRef(e.name)]) {
      assert (ts + rest)[1..] == rest;
    } else {
      var inner := ts[1..|ts| - 1];
      OrComplete(inner, e, [RParen] + rest);
      assert (ts + rest)[1..] == inner + ([RParen] + rest);
      assert ([RParen] + rest)[1..] == rest;
    }
  }

  lemma ParseAndsStep(ts: seq<Token>, e: Expr, after: seq<Token>, es: seq<Expr>, rest: seq<Token>)
    requires ParseAtom(ts) == Ok(Parsed(e, after)) && Peek(after) == AndOp
    requires ParseAnds(after[1..]) == Ok(Parsed(es, rest))
    ensures ParseAnds(ts) == Ok(Parsed([e] + es, rest))
  {}

  lemma {:induction false} AndsComplete(ts: seq<Token>, es: seq<Expr>, rest: seq<Token>)
    requires IsAndList(ts, es) && Peek(rest) != AndOp
    ensures ParseAnds(ts + rest) == Ok(Parsed(es, rest))
    decreases |ts|, 1
  {
    if |es| == 1 {
      AtomComplete(ts, es[0], rest);
      assert es == [es[0]];
    } else {
      var k: nat :| AndSplit(ts, k, es[0], es[1..]);
      var after := [AndOp] + (ts[k + 1..] + rest);
      assert ts + rest == ts[..k] + after && after[1..] == ts[k + 1..] + rest;
      AtomComplete(ts[..k], es[0], after);
      AndsComplete(ts[k + 1..], es[1..], rest);
      ParseAndsStep(ts + rest, es[0], after, es[1..], rest);
      assert es == [es[0]] + es[1..];
    }
  }

  lemma {:induction false} AndComplete(ts: seq<Token>, e: Expr, rest: seq<Token>)
    requires IsAnd(ts, e) && Peek(rest) != AndOp
    ensures ParseAnd(ts + rest) == Ok(Parsed(e, rest))
    decreases |ts|, 2
  {
    if IsAtom(ts, e) {
      AndsComplete(ts, [e], rest);
    } else {
      AndsComplete(ts, e.children, rest);
    }
  }

  lemma ParseOrsStep(ts: seq<Token>, e: Expr, after: seq<Token>, es: seq<Expr>, rest: seq<Token>)
    requires ParseAnd(ts) == Ok(Parsed(e, after)) && Peek(after) == OrOp
    requires ParseOrs(after[1..]) == Ok(Parsed(es, rest))
    ensures ParseOrs(ts) == Ok(Parsed([e] + es, rest))
  {}

  lemma {:induction false} OrsComplete(ts: seq<Token>, es: seq<Expr>, rest: seq<Token>)
    requires IsOrList(ts, es) && Peek(rest) != AndOp && Peek(rest) != OrOp
    ensures ParseOrs(ts + rest) == Ok(Parsed(es, rest))
    decreases |ts|, 3
  {
    if |es| == 1 {
      AndComplete(ts, es[0], rest);
      assert es == [es[0]];
    } else {
      var k: nat :| OrSplit(ts, k, es[0], es[1..]);
      var after := [OrOp] + (ts[k + 1..] + rest);
      assert ts + rest == ts[..k] + after && after[1..] == ts[k + 1..] + rest;
      AndComplete(ts[..k], es[0], after);
      OrsComplete(ts[k + 1..], es[1..], rest);
      ParseOrsStep(ts + rest, es[0], after, es[1..], rest);
      assert es == [es[0]] + es[1..];
    }
  }

  lemma {:induction false} OrComplete(ts: seq<Token>, e: Expr, rest: seq<Token>)
    requires IsOr(ts, e) && Peek(rest) != AndOp && Peek(rest) != OrOp
    ensures ParseOr(ts + rest) == Ok(Parsed(e, rest))
    decreases |ts|, 4
  {
    if IsAnd(ts, e) {
      OrsComplete(ts, [e], rest);
    } else {
      OrsComplete(ts, e.children, rest);
    }
  }

  /** The parser accepts exactly the or/and/atom grammar, and builds the tree the
      grammar gives; in particular no token list has two readings. */
  lemma ParsesExactlyTheGrammar(ts: seq<Token>, e: Expr)
    requires Eof !in ts
    ensures ParseTokens(ts + [Eof]) == Ok(e) <==> IsOr(ts, e)
  {
    if IsOr(ts, e) {
      OrComplete(ts, e, [Eof]);
    }
    if ParseTokens(ts + [Eof]) == Ok(e) {
      var all := ts + [Eof];
      OrSound(all);
      var rest := ParseOr(all).value.rest;
      EndsAtMarker(ts, Used(all, rest), rest);
    }
  }

  lemma EndsAtMarker(ts: seq<Token>, used: seq<Token>, rest: seq<Token>)
    requires ts + [Eof] == used + rest && Eof !in ts && Eof !in used && Peek(rest) == Eof
    ensures used == ts
  {
    var all := ts + [Eof];
    assert forall i :: 0 <= i < |ts| ==> all[i] == ts[i] && ts[i] in ts;
    assert forall i :: 0 <= i < |used| ==> all[i] == used[i] && used[i] in used;
    assert all[|ts|] == Eof && (rest != [] ==> all[|used|] == rest[0]);
    assert |used| == |ts|;
  }

  /** Every tree the parser returns is proper. */
  lemma ParsedIsProper(ts: seq<Token>)
    ensures ParseTokens(ts).Ok? ==> Proper(ParseTokens(ts).value)
  {
    if ParseTokens(ts).Ok? {
      OrSound(ts);
    }
  }

  // ----------------------------------------------------------------- round trip

  /** Prints at the or, and and atom levels, adding parentheses only where a node
      sits below a level that cannot derive it bare. */
  function Print(e: Expr): seq<Token>
    decreases e, 2
  {
    match e
    case Or(children) => if |children| >= 2 then PrintOrs(children) else PrintAnd(e)
    case _ => PrintAnd(e)
  }

  function PrintAnd(e: Expr): seq<Token>
    decreases e, 1
  {
    match e
    case And(children) => if |children| >= 2 then PrintAnds(children) else PrintAtom(e)
    case _ => PrintAtom(e)
  }

  function PrintAtom(e: Expr): seq<Token>
    decreases e, 0
  {
    match e
    case Leaf(name) => [Ident(name)]
    case Ref(name) => [SetRef(name)]
    case And(children) => [LParen] + PrintAnds(children) + [RParen]
    case Or(children) => [LParen] + PrintOrs(children) + [RParen]
  }

  function PrintAnds(es: seq<Expr>): seq<Token>
    decreases es, 0
  {
    if es == [] then []
    else if |es| == 1 then PrintAtom(es[0])
    else PrintAtom(es[0]) + [AndOp] + PrintAnds(es[1..])
  }

  function PrintOrs(es: seq<Expr>): seq<Token>
    decreases es, 0
  {
    if es == [] then []
    else if |es| == 1 then PrintAnd(es[0])
    else PrintAnd(es[0]) + [OrOp] + PrintOrs(es[1..])
  }

  lemma {:induction false} PrintIsGrammatical(e: Expr)
    requires Proper(e)
    ensures IsAtom(PrintAtom(e), e) && IsAnd(PrintAnd(e), e) && IsOr(Print(e), e)
    decreases e, 1
  {
    match e
    case Leaf(_) =>
    case Ref(_) =>
    case And(children) =>
      PrintAndsIsGrammatical(children);
      assert PrintAtom(e)[1..|PrintAtom(e)| - 1] == PrintAnds(children);
    case Or(children) =>
      PrintOrsIsGrammatical(children);
      assert PrintAtom(e)[1..|PrintAtom(e)| - 1] == PrintOrs(children);
  }

  lemma {:induction false} PrintAndsIsGrammatical(es: seq<Expr>)
    requires es != [] && AllProper(es)
    ensures IsAndList(PrintAnds(es), es)
    decreases es, 0
  {
    PrintIsGrammatical(es[0]);
    if |es| > 1 {
      PrintAndsIsGrammatical(es[1..]);
      var k, ts := |PrintAtom(es[0])|, PrintAnds(es);
      assert ts[k] == AndOp && ts[..k] == PrintAtom(es[0]) && ts[k + 1..] == PrintAnds(es[1..]);
      assert AndSplit(ts, k, es[0], es[1..]);
    }
  }

  lemma {:induction false} PrintOrsIsGrammatical(es: seq<Expr>)
    requires es != [] && AllProper(es)
    ensures IsOrList(PrintOrs(es), es)
    decreases es, 0
  {
    PrintIsGrammatical(es[0]);
    if |es| > 1 {
      PrintOrsIsGrammatical(es[1..]);
      var k, ts := |PrintAnd(es[0])|, PrintOrs(es);
      assert ts[k] == OrOp && ts[..k] == PrintAnd(es[0]) && ts[k + 1..] == PrintOrs(es[1..]);
      assert OrSplit(ts, k, es[0], es[1..]);
    }
  }

  /** Printing any tree the parser can return and parsing it again gives the tree. */
  lemma PrintParses(e: Expr)
    requires Proper(e)
    ensures ParseTokens(Print(e) + [Eof]) == Ok(e)
  {
    PrintIsGrammatical(e);
    OrComplete(Print(e), e, [Eof]);
  }

  // ----------------------------------------------------- round trip through text

  /** Identifiers that survive being written out. */
  ghost predicate Spellable(cc: Classes, t: Token)
  {
    match t
    case Ident(name) => name != "" && forall i :: 0 <= i < |name| ==> cc.IsIdent(name[i])
    case SetRef(name) => name != "" && forall i :: 0 <= i < |name| ==> cc.IsIdent(name[i])
    case Eof => false
    case _ => true
  }

  function Spell(t: Token): string
  {
    match t
    case Ident(name) => name + " "
    case SetRef(name) => "+" + name + " "
    case AndOp => "& "
    case OrOp => "| "
    case LParen => "( "
    case RParen => ") "
    case Eof => ""
  }

  function SpellAll(ts: seq<Token>): string
  {
    if ts == [] then "" else Spell(ts[0]) + SpellAll(ts[1..])
  }

  lemma {:induction false} IdentStopsAtSpace(cc: Classes, name: string, after: string)
    requires cc.Sane() && forall i :: 0 <= i < |name| ==> cc.IsIdent(name[i])
    ensures IdentLength(cc, name + " " + after) == |name|
  {
    if name == "" {
      assert (name + " " + after)[0] == ' ';
    } else {
      assert (name + " " + after)[1..] == name[1..] + " " + after;
      IdentStopsAtSpace(cc, name[1..], after);
    }
  }

  lemma SpellingOfOne(cc: Classes, t: Token, after: string)
    requires cc.Sane() && Spellable(cc, t)
    ensures var s := Spell(t) + after;
      !cc.space(s[0]) && FirstToken(cc, s) == Ok(Lexeme(t, |Spell(t)| - 1))
  {
    if t.Ident? {
      SpellingOfName(cc, t.name, after);
    } else if t.SetRef? {
      SpellingOfReference(cc, t.name, after);
    } else {
      var s := Spell(t) + after;
      assert s[0] == Spell(t)[0] && s[0] in "&|()+";
    }
  }

  lemma SpellingOfName(cc: Classes, name: string, after: string)
    requires cc.Sane() && Spellable(cc, Ident(name))
    ensures var s := name + " " + after;
      !cc.space(s[0]) && FirstToken(cc, s) == Ok(Lexeme(Ident(name), |name|))
  {
    var s := name + " " + after;
    IdentStopsAtSpace(cc, name, after);
    assert s[0] == name[0] && cc.IsIdent(s[0]) && s[0] !in "&|()+";
    assert s[..|name|] == name;
    NoSignFirst(cc, s);
  }

  /** Text that begins with none of the signs begins with a name, or with nothing known. */
  lemma NoSignFirst(cc: Classes, s: string)
    requires s != "" && s[0] !in "&|()+"
    ensures
      var n := IdentLength(cc, s);
      FirstToken(cc, s) == if n == 0 then Err(BadCharacter(s[0])) else Ok(Lexeme(Ident(s[..n]), n))
  {
    assert '&' in "&|()+" && '|' in "&|()+" && '(' in "&|()+" && ')' in "&|()+" && '+' in "&|()+";
  }

  lemma SpellingOfReference(cc: Classes, name: string, after: string)
    requires cc.Sane() && Spellable(cc, SetRef(name))
    ensures var s := "+" + name + " " + after;
      !cc.space(s[0]) && FirstToken(cc, s) == Ok(Lexeme(SetRef(name), |name| + 1))
  {
    var s := "+" + name + " " + after;
    IdentStopsAtSpace(cc, name, after);
    assert s[0] == '+' && '+' in "&|()+";
    assert s[1..] == name + " " + after && s[1..|name| + 1] == name;
  }

  /** Writing out a token list and tokenizing the text gives the list back. */
  lemma {:induction false} SpellingTokenizes(cc: Classes, ts: seq<Token>)
    requires cc.Sane() && forall t :: t in ts ==> Spellable(cc, t)
    ensures Tokens(cc, SpellAll(ts)) == Ok(ts + [Eof])
  {
    if ts == [] {
      assert ts + [Eof] == [Eof];
    } else {
      SpellingTokenizes(cc, ts[1..]);
      SpellingStep(cc, ts[0], SpellAll(ts[1..]));
      assert ts + [Eof] == [ts[0]] + (ts[1..] + [Eof]);
    }
  }

  lemma SpellingStep(cc: Classes, t: Token, after: string)
    requires cc.Sane() && Spellable(cc, t)
    ensures Tokens(cc, Spell(t) + after) == Prepend(t, Tokens(cc, after))
  {
    SpellingOfOne(cc, t, after);
    var s, n := Spell(t) + after, |Spell(t)| - 1;
    assert s[n..] == " " + after && (" " + after)[1..] == after;
    assert Tokens(cc, s) == Prepend(t, Tokens(cc, s[n..]));
    assert Tokens(cc, " " + after) == Tokens(cc, after);
  }

  /** Text, tokens and tree together: the written form of a tree parses to it. */
  lemma TextRoundTrip(cc: Classes, e: Expr)
    requires cc.Sane() && Proper(e) && forall t :: t in Print(e) ==> Spellable(cc, t)
    ensures Parse(cc, SpellAll(Print(e))) == Ok(e)
  {
    SpellingTokenizes(cc, Print(e));
    PrintParses(e);
    if AllSpace(cc, SpellAll(Print(e))) {
      SpacesTokenize(cc, SpellAll(Print(e)));
    }
  }

  lemma {:induction false} SpacesTokenize(cc: Classes, s: string)
    requires AllSpace(cc, s)
    ensures Tokens(cc, s) == Ok([Eof])
  {
    if s != "" {
      SpacesTokenize(cc, s[1..]);
    }
  }

  // -------------------------------------------------------- the parser as written

  class Parser {
    const tokens: seq<Token>
    var pos: nat

    constructor (tokens: seq<Token>)
      ensures this.tokens == tokens && pos == 0
    {
      this.tokens, pos := tokens, 0;
    }

    function Rest(): seq<Token>
      reads this
    {
      if pos <= |tokens| then tokens[pos..] else []
    }

    function PeekToken(): (t: Token)
      reads this
      ensures t == Peek(Rest())
    {
      if pos < |tokens| then tokens[pos] else Eof
    }

    /** `next`: the end marker is never passed. */
    method Next() returns (t: Token)
      modifies this
      ensures t == Peek(old(Rest()))
      ensures Rest() == if t == Eof then old(Rest()) else old(Rest())[1..]
    {
      t := PeekToken();
      if t != Eof {
        pos := pos + 1;
      }
    }

    method OrExpr() returns (r: Result<Expr>)
      modifies this
      ensures r == Value(ParseOr(old(Rest()))) && (r.Ok? ==> Rest() == ParseOr(old(Rest())).value.rest)
      decreases |Rest()|, 4
    {
      ghost var start := Rest();
      r := AndExpr();
      if r.Err? || PeekToken() != OrOp {
        return;
      }
      var children := [r.value];
      while PeekToken() == OrOp
        invariant children != [] && |Rest()| < |start|
        invariant Continues(children, PeekToken() == OrOp, Rest(), ParseOrs(start), ParseOrs)
        decreases |Rest()|
      {
        ghost var before := children;
        var _ := Next();
        ghost var here := Rest();
        var right := AndExpr();
        if right.Err? {
          return right;
        }
        children := children + [right.value];
        MoreContinues(before, right.value, here, PeekToken() == OrOp, Rest(), ParseOrs(start), ParseOrs);
      }
      r := Ok(Or(children));
    }

    method AndExpr() returns (r: Result<Expr>)
      modifies this
      ensures r == Value(ParseAnd(old(Rest()))) && (r.Ok? ==> Rest() == ParseAnd(old(Rest())).value.rest)
      decreases |Rest()|, 2
    {
      ghost var start := Rest();
      r := Atom();
      if r.Err? || PeekToken() != AndOp {
        return;
      }
      var children := [r.value];
      while PeekToken() == AndOp
        invariant children != [] && |Rest()| < |start|
        invariant Continues(children, PeekToken() == AndOp, Rest(), ParseAnds(start), ParseAnds)
        decreases |Rest()|
      {
        ghost var before := children;
        var _ := Next();
        ghost var here := Rest();
        var right := Atom();
        if right.Err? {
          return right;
        }
        children := children + [right.value];
        MoreContinues(before, right.value, here, PeekToken() == AndOp, Rest(), ParseAnds(start), ParseAnds);
      }
      r := Ok(And(children));
    }

    method Atom() returns (r: Result<Expr>)
      modifies this
      ensures r == Value(ParseAtom(old(Rest()))) && (r.Ok? ==> Rest() == ParseAtom(old(Rest())).value.rest)
      decreases |Rest()|, 0
    {
      var t := Next();
      match t {
        case Ident(name) => r := Ok(Leaf(name));
        case SetRef(name) => r := Ok(Ref(name));
        case LParen =>
          r := OrExpr();
          if r.Ok? {
            var close := Next();
            if close != RParen {
              r := Err(MissingParenthesis);
            }
          }
        case _ => r := Err(UnexpectedToken(t));
      }
    }
  }

  function Value(r: Result<Parsed<Expr>>): Result<Expr>
  {
    if r.Ok? then Ok(r.value.value) else Err(r.error)
  }

  /** What is collected so far, followed by what parsing the rest gives, is the whole list. */
  ghost predicate Continues(
    children: seq<Expr>, more: bool, rest: seq<Token>,
    whole: Result<Parsed<seq<Expr>>>, parse: seq<Token> -> Result<Parsed<seq<Expr>>>)
  {
    if !more then whole == Ok(Parsed(children, rest))
    else if rest == [] then false
    else whole == Glue(children, parse(rest[1..]))
  }

  function Glue(children: seq<Expr>, r: Result<Parsed<seq<Expr>>>): Result<Parsed<seq<Expr>>>
  {
    if r.Err? then r else Ok(Parsed(children + r.value.value, r.value.rest))
  }

  lemma MoreContinues(
    before: seq<Expr>, e: Expr, here: seq<Token>, more: bool, rest: seq<Token>,
    whole: Result<Parsed<seq<Expr>>>, parse: seq<Token> -> Result<Parsed<seq<Expr>>>)
    requires whole == Glue(before, parse(here))
    requires more ==> rest != []
    requires parse(here) == if more then Glue([e], parse(rest[1..])) else Ok(Parsed([e], rest))
    ensures Continues(before + [e], more, rest, whole, parse)
  {
    if more && parse(rest[1..]).Ok? {
      var tail := parse(rest[1..]).value.value;
      assert before + ([e] + tail) == before + [e] + tail;
    }
  }

  /** `parseDSL`. */
  method ParseDSL(cc: Classes, input: string) returns (r: Result<Expr>)
    ensures r == Parse(cc, input)
  {
    if AllSpace(cc, input) {
      return Err(Empty);
    }
    var tokens := Tokenize(cc, input);
    if tokens.Err? {
      return Err(tokens.error);
    }
    var p := new Parser(tokens.value);
    r := p.OrExpr();
    if r.Ok? && p.PeekToken() != Eof {
      r := Err(UnexpectedToken(p.PeekToken()));
    }
  }
}
