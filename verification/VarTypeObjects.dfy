/** The tokenizer and the parser as objects: a cursor, and one token of pushback. */
module VarTypeObjects {
  import opened Prelude
  import V = VarTypes
  import opened VarTypes

  class Tokenizer {
    const input: string
    var at: nat

    ghost predicate Valid()
      reads this
    {
      at <= |input|
    }

    /** The lexemes still to come. */
    ghost function Rest(): seq<Lexeme>
      requires Valid()
      reads this
    {
      Lex(input[at..])
    }

    constructor (input: string)
      ensures Valid() && Rest() == Lex(input)
    {
      this.input, at := input, 0;
      new;
      assert input[0..] == input;
    }

    method EatWhile(p: char -> bool)
      requires Valid()
      modifies this
      ensures Valid() && at == old(at) + Span(p, old(input[at..]))
    {
      while at < |input| && p(input[at])
        invariant Valid() && old(at) <= at
        invariant at + Span(p, input[at..]) == old(at) + Span(p, old(input[at..]))
      {
        assert input[at..][0] == input[at] && input[at..][1..] == input[at + 1..];
        at := at + 1;
      }
    }

    method EatWhitespace()
      requires Valid()
      modifies this
      ensures Valid() && at >= old(at) && Rest() == old(Rest())
    {
      ghost var was := at;
      EatWhile(IsWhitespace);
      GapEnds(input[was..], at - was);
      assert input[was..][at - was..] == input[at..];
    }

    /** The next lexeme, if any. */
    method NextToken() returns (r: Option<Lexeme>)
      requires Valid()
      modifies this
      ensures Valid()
      ensures match r
              case Some(l) => old(Rest()) == [l] + Rest()
              case None => old(Rest()) == [] && Rest() == []
    {
      hide Span, Lex, Punctuation;
      while true
        invariant Valid() && Rest() == old(Rest())
        decreases |input| - at
      {
        LexStep(input[at..]);
        if at == |input| { return None; }
        var ch := input[at];
        ghost var left := input[at..];
        assert left[0] == ch && left[1..] == input[at + 1..];
        at := at + 1;
        if Punctuation(ch).Some? {
          return Some(Good(Punctuation(ch).value));
        } else if IsAlphabetic(ch) {
          var start := at - 1;
          EatWhile(IsIdentContinue);
          assert left[..at - start] == input[start..at] && left[at - start..] == input[at..];
          return Some(Good(Word(input[start..at])));
        } else if IsDigitChar(ch) {
          var start := at - 1;
          EatWhile(IsDigitChar);
          assert left[..at - start] == input[start..at] && left[at - start..] == input[at..];
          return Some(Good(Digits(input[start..at])));
        } else if IsWhitespace(ch) {
          EatWhitespace();
        } else {
          return Some(Unknown(ch));
        }
      }
    }
  }

  /** The first lexeme of a text, by its first character. */
  lemma LexStep(s: string)
    ensures if s == [] then Lex(s) == []
      else if Punctuation(s[0]).Some? then Lex(s) == [Good(Punctuation(s[0]).value)] + Lex(s[1..])
      else if IsAlphabetic(s[0]) then
        var n := 1 + Span(IsIdentContinue, s[1..]); Lex(s) == [Good(Word(s[..n]))] + Lex(s[n..])
      else if IsDigitChar(s[0]) then
        var n := 1 + Span(IsDigitChar, s[1..]); Lex(s) == [Good(Digits(s[..n]))] + Lex(s[n..])
      else if IsWhitespace(s[0]) then Lex(s) == Lex(s[1..])
      else Lex(s) == [Unknown(s[0])] + Lex(s[1..])
  {
  }

  lemma GapEnds(s: string, n: nat)
    requires n == Span(IsWhitespace, s)
    ensures n <= |s| && Lex(s[n..]) == Lex(s)
  {
    assert s[..n] + s[n..] == s;
    LexSkipsGap(s[..n], s[n..]);
  }

  class Parser {
    const tokenizer: Tokenizer
    var prevToken: Option<Token>

    ghost predicate Valid()
      reads this, tokenizer
    {
      tokenizer.Valid() && (prevToken.Some? ==> IsToken(prevToken.value))
    }

    /** The token pushed back, if any, and the lexemes still to come. */
    ghost function Pending(): (r: seq<Lexeme>)
      requires Valid()
      reads this, tokenizer
      ensures AreTokens(r)
    {
      LexGivesTokens(tokenizer.input[tokenizer.at..]);
      (if prevToken.Some? then [Good(prevToken.value)] else []) + tokenizer.Rest()
    }

    constructor (input: string)
      ensures Valid() && fresh(tokenizer) && Pending() == Lex(input)
    {
      tokenizer := new Tokenizer(input);
      prevToken := None;
    }

    method NextToken() returns (r: Result<Option<Token>>)
      requires Valid()
      modifies this, tokenizer
      ensures Valid() && prevToken == None
      ensures match r
              case Ok(Some(t)) => IsToken(t) && old(Pending()) == [Good(t)] + Pending()
              case Ok(None) => old(Pending()) == [] && Pending() == []
              case Err(e) =>
                old(Pending()) != [] && old(Pending())[0].Unknown? && e == UnknownChar(old(Pending())[0].ch)
    {
      hide Lex, IsToken;
      ghost var was := Pending();
      assert AreTokens(was);
      if prevToken.Some? {
        var t := prevToken.value;
        prevToken := None;
        return Ok(Some(t));
      }
      var next := tokenizer.NextToken();
      match next
      case None => return Ok(None);
      case Some(Good(t)) =>
        assert was[0] == Good(t);
        return Ok(Some(t));
      case Some(Unknown(c)) =>
        assert was[0] == Unknown(c);
        return Err(UnknownChar(c));
    }

    /** The next token if it satisfies `f`. */
    method ExpectToken(f: Token -> bool) returns (r: Result<Token>)
      requires Valid()
      modifies this, tokenizer
      ensures Valid()
      ensures match First(old(Pending()))
              case Err(e) => r == Err(e)
              case Ok(t) =>
                if f(t) then r == Ok(t) && prevToken == None && Pending() == old(Pending())[1..]
                else r == Err(UnexpectedToken)
    {
      ghost var was := Pending();
      var next := NextToken();
      match next
      case Err(e) => return Err(e);
      case Ok(None) => return Err(UnexpectedEof);
      case Ok(Some(t)) =>
        assert was[0] == Good(t) && was[1..] == Pending();
        r := if f(t) then Ok(t) else Err(UnexpectedToken);
    }

    /** The part between the brackets of an array, and the closing one. */
    method ParseLength() returns (r: Result<Expr>)
      requires Valid()
      modifies this, tokenizer
      ensures Valid()
      ensures match First(old(Pending()))
              case Err(e) => r == Err(e)
              case Ok(t) =>
                match LengthOf(t)
                case Err(e) => r == Err(e)
                case Ok(len) =>
                  match First(old(Pending())[1..])
                  case Err(e) => r == Err(e)
                  case Ok(RSquare) => r == Ok(len) && Pending() == old(Pending())[2..]
                  case Ok(_) => r == Err(UnexpectedToken)
    {
      ghost var was := Pending();
      var identOrLit := ExpectToken((_: Token) => true);
      if identOrLit.Err? { return Err(identOrLit.error); }
      assert AreTokens(was);
      var len := LengthOf(identOrLit.value);
      if len.Err? { return len; }
      var close := ExpectToken((t: Token) => t.RSquare?);
      if close.Err? { return Err(close.error); }
      assert was[1..][1..] == was[2..];
      r := len;
    }

    method Parse() returns (r: Result<Expr>)
      requires Valid()
      modifies this, tokenizer
      ensures Valid()
      ensures match V.Parse(old(Pending()))
              case Ok(p) => r == Ok(p.expr) && Pending() == p.rest
              case Err(e) => r == Err(e)
      decreases |Pending()|
    {
      hide Lex, LengthOf, IsToken, AreTokens, ParsePostfix, V.Parse;
      ParseStart(Pending());
      ghost var spec := V.Parse(Pending());
      ghost var start := Pending();
      var first := ExpectToken((t: Token) => t.Word?);
      if first.Err? { return Err(first.error); }
      var expr := Ident(first.value.name);
      while true
        invariant Valid() && |Pending()| < |start|
        invariant spec == ParsePostfix(expr, Pending())
        decreases |Pending()|
      {
        ghost var ts := Pending();
        AtOther(expr, ts);
        var next := NextToken();
        if next.Err? { return Err(next.error); }
        if next.value.None? { return Ok(expr); }
        assert ts[0] == Good(next.value.value) && ts[1..] == Pending();
        match next.value.value {
          case LAngle =>
            AtTemplate(expr, ts);
            var arg := Parse();
            if arg.Err? { return arg; }
            var close := ExpectToken((t: Token) => t.RAngle?);
            if close.Err? { return Err(close.error); }
            expr := Template(expr, arg.value);
          case LSquare =>
            AtArray(expr, ts);
            Slices(ts);
            var len := ParseLength();
            if len.Err? { return len; }
            expr := Array(expr, len.value);
          case Asterisk => expr := Pointer(expr);
          case RAngle =>
            prevToken := Some(RAngle);
            assert Pending() == ts;
            return Ok(expr);
          case RSquare =>
            prevToken := Some(RSquare);
            assert Pending() == ts;
            return Ok(expr);
          case _ => return Err(UnexpectedToken);
        }
      }
    }
  }

  method ParseType(input: string) returns (r: Result<Expr>)
    ensures r == ParseText(input)
  {
    var parser := new Parser(input);
    LexGivesTokens(input);
    r := parser.Parse();
  }
}
