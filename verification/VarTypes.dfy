/** Type strings such as `CHandle< CBaseEntity >[24]*`: tokens, grammar, printing. */
module VarTypes {
  import opened Prelude

  // ---- tokens

  datatype Token = LAngle | RAngle | LSquare | RSquare | Asterisk | Word(name: string) | Digits(digits: string)

  /** What the tokenizer gives next: a token, or a character no token starts with. */
  datatype Lexeme = Good(token: Token) | Unknown(ch: char)

  predicate IsAlphabetic(c: char)
  {
    'a' <= c <= 'z' || 'A' <= c <= 'Z'
  }

  predicate IsDigitChar(c: char)
  {
    '0' <= c <= '9'
  }

  predicate IsIdentContinue(c: char)
  {
    IsAlphabetic(c) || IsDigitChar(c) || c == '_'
  }

  /** The Unicode property White_Space. */
  predicate IsWhitespace(c: char)
  {
    var u := c as int;
    9 <= u <= 13 || u == 0x20 || u == 0x85 || u == 0xA0 || u == 0x1680 || 0x2000 <= u <= 0x200A
    || u == 0x2028 || u == 0x2029 || u == 0x202F || u == 0x205F || u == 0x3000
  }

  function Punctuation(c: char): Option<Token>
  {
    match c
    case '<' => Some(LAngle)
    case '>' => Some(RAngle)
    case '[' => Some(LSquare)
    case ']' => Some(RSquare)
    case '*' => Some(Asterisk)
    case _ => None
  }

  /** The length of the longest prefix whose characters all satisfy `p`. */
  function Span(p: char -> bool, s: string): (n: nat)
    ensures n <= |s| && (forall i | 0 <= i < n :: p(s[i])) && (n < |s| ==> !p(s[n]))
  {
    if s == [] || !p(s[0]) then 0 else 1 + Span(p, s[1..])
  }

  lemma {:induction false} SpanIs(p: char -> bool, s: string, n: nat)
    requires n <= |s| && (forall i | 0 <= i < n :: p(s[i])) && (n < |s| ==> !p(s[n]))
    ensures Span(p, s) == n
  {
  }

  function Lex(s: string): seq<Lexeme>
    decreases |s|
  {
    if s == [] then []
    else if Punctuation(s[0]).Some? then [Good(Punctuation(s[0]).value)] + Lex(s[1..])
    else if IsAlphabetic(s[0]) then
      var n := 1 + Span(IsIdentContinue, s[1..]);
      [Good(Word(s[..n]))] + Lex(s[n..])
    else if IsDigitChar(s[0]) then
      var n := 1 + Span(IsDigitChar, s[1..]);
      [Good(Digits(s[..n]))] + Lex(s[n..])
    else if IsWhitespace(s[0]) then Lex(s[1..])
    else [Unknown(s[0])] + Lex(s[1..])
  }

  ghost predicate IsName(s: string)
  {
    s != [] && IsAlphabetic(s[0]) && forall i | 0 <= i < |s| :: IsIdentContinue(s[i])
  }

  ghost predicate IsNumeral(s: string)
  {
    s != [] && forall i | 0 <= i < |s| :: IsDigitChar(s[i])
  }

  ghost predicate IsToken(t: Token)
  {
    match t
    case Word(s) => IsName(s)
    case Digits(s) => IsNumeral(s)
    case _ => true
  }

  /** Every token of a text is well formed. */
  lemma {:induction false} LexGivesTokens(s: string)
    ensures forall i | 0 <= i < |Lex(s)| :: Lex(s)[i].Good? ==> IsToken(Lex(s)[i].token)
    decreases |s|
  {
    if s == [] {
    } else if Punctuation(s[0]).Some? {
      LexGivesTokens(s[1..]);
    } else if IsAlphabetic(s[0]) {
      var n := 1 + Span(IsIdentContinue, s[1..]);
      assert forall i | 0 < i < n :: s[i] == s[1..][i - 1];
      LexGivesTokens(s[n..]);
    } else if IsDigitChar(s[0]) {
      var n := 1 + Span(IsDigitChar, s[1..]);
      assert forall i | 0 < i < n :: s[i] == s[1..][i - 1];
      LexGivesTokens(s[n..]);
    } else {
      LexGivesTokens(s[1..]);
    }
  }

  // ---- decimal numbers

  function Decimal(n: nat): (s: string)
    ensures IsNumeral(s)
    ensures |s| > 1 ==> s[0] != '0'
  {
    var digit := ('0' as int + n % 10) as char;
    if n < 10 then [digit] else Decimal(n / 10) + [digit]
  }

  function ValueOf(s: string): nat
    requires IsNumeral(s) || s == []
  {
    if s == [] then 0 else 10 * ValueOf(s[..|s| - 1]) + (s[|s| - 1] as int - '0' as int)
  }

  lemma {:induction false} DecimalValue(n: nat)
    ensures ValueOf(Decimal(n)) == n
  {
    if n >= 10 {
      DecimalValue(n / 10);
      var s := Decimal(n);
      assert s[..|s| - 1] == Decimal(n / 10);
    } else {
      assert Decimal(n)[..0] == [];
    }
  }

  // ---- expressions

  datatype Literal = Str(text: string) | Num(value: nat)

  datatype Expr =
    | Ident(name: string)
    | Lit(lit: Literal)
    | Pointer(target: Expr)
    | Template(expr: Expr, arg: Expr)
    | Array(element: Expr, len: Expr)

  datatype Error = UnknownChar(ch: char) | UnexpectedToken | UnexpectedEof

  datatype Result<+T> = Ok(value: T) | Err(error: Error)

  datatype Parsed = Parsed(expr: Expr, rest: seq<Lexeme>)

  /** A length is a name, or a number that fits `usize`. */
  function LengthOf(t: Token): Result<Expr>
    requires IsToken(t)
  {
    match t
    case Word(name) => Ok(Ident(name))
    case Digits(s) => if ValueOf(s) < U64 then Ok(Lit(Num(ValueOf(s)))) else Err(UnexpectedToken)
    case _ => Err(UnexpectedToken)
  }

  ghost predicate AreTokens(ts: seq<Lexeme>)
  {
    forall i | 0 <= i < |ts| :: ts[i].Good? ==> IsToken(ts[i].token)
  }

  /** The first lexeme as a token. */
  function First(ts: seq<Lexeme>): Result<Token>
  {
    if ts == [] then Err(UnexpectedEof)
    else
      match ts[0]
      case Good(t) => Ok(t)
      case Unknown(c) => Err(UnknownChar(c))
  }

  /** `parse` over the lexemes that are left. */
  function Parse(ts: seq<Lexeme>): (r: Result<Parsed>)
    requires AreTokens(ts)
    ensures r.Ok? ==> AreTokens(r.value.rest) && |r.value.rest| < |ts|
    decreases |ts|, 0
  {
    match First(ts)
    case Err(e) => Err(e)
    case Ok(Word(name)) => ParsePostfix(Ident(name), ts[1..])
    case Ok(_) => Err(UnexpectedToken)
  }

  /** Its loop. */
  function ParsePostfix(expr: Expr, ts: seq<Lexeme>): (r: Result<Parsed>)
    requires AreTokens(ts)
    ensures r.Ok? ==> AreTokens(r.value.rest) && |r.value.rest| <= |ts|
    decreases |ts|, 1
  {
    if ts == [] then Ok(Parsed(expr, [])) else
    match First(ts)
    case Err(e) => Err(e)
    case Ok(LAngle) =>
      (match Parse(ts[1..])
       case Err(e) => Err(e)
       case Ok(Parsed(arg, rest)) =>
         match First(rest)
         case Err(e) => Err(e)
         case Ok(RAngle) => ParsePostfix(Template(expr, arg), rest[1..])
         case Ok(_) => Err(UnexpectedToken))
    case Ok(LSquare) =>
      (match First(ts[1..])
       case Err(e) => Err(e)
       case Ok(t) =>
         match LengthOf(t)
         case Err(e) => Err(e)
         case Ok(len) =>
           match First(ts[2..])
           case Err(e) => Err(e)
           case Ok(RSquare) => ParsePostfix(Array(expr, len), ts[3..])
           case Ok(_) => Err(UnexpectedToken))
    case Ok(Asterisk) => ParsePostfix(Pointer(expr), ts[1..])
    case Ok(RAngle) => Ok(Parsed(expr, ts))
    case Ok(RSquare) => Ok(Parsed(expr, ts))
    case Ok(_) => Err(UnexpectedToken)
  }

  // ---- what the loop of `Parse` makes of the next lexeme

  lemma Slices(ts: seq<Lexeme>)
    ensures |ts| >= 2 ==> ts[1..][1..] == ts[2..]
    ensures |ts| >= 3 ==> ts[1..][2..] == ts[3..] && ts[2..][1..] == ts[3..]
  {
  }

  lemma AtTemplate(expr: Expr, ts: seq<Lexeme>)
    requires AreTokens(ts) && First(ts) == Ok(LAngle)
    ensures var arg, all := Parse(ts[1..]), ParsePostfix(expr, ts);
      && (arg.Err? ==> all == Err(arg.error))
      && (arg.Ok? ==>
            var close := First(arg.value.rest);
            && (close.Err? ==> all == Err(close.error))
            && (close == Ok(RAngle) ==> all == ParsePostfix(Template(expr, arg.value.expr), arg.value.rest[1..]))
            && (close.Ok? && !close.value.RAngle? ==> all == Err(UnexpectedToken)))
  {
    hide Parse;
  }

  lemma AtArray(expr: Expr, ts: seq<Lexeme>)
    requires AreTokens(ts) && First(ts) == Ok(LSquare)
    ensures var first, all := First(ts[1..]), ParsePostfix(expr, ts);
      && (first.Err? ==> all == Err(first.error))
      && (first.Ok? ==>
            var len := LengthOf(first.value);
            && (len.Err? ==> all == Err(len.error))
            && (len.Ok? ==>
                  var close := First(ts[1..][1..]);
                  && (close.Err? ==> all == Err(close.error))
                  && (close == Ok(RSquare) ==> all == ParsePostfix(Array(expr, len.value), ts[1..][2..]))
                  && (close.Ok? && !close.value.RSquare? ==> all == Err(UnexpectedToken))))
  {
    hide LengthOf, Parse;
    Slices(ts);
  }

  lemma AtOther(expr: Expr, ts: seq<Lexeme>)
    requires AreTokens(ts)
    ensures var first, all := First(ts), ParsePostfix(expr, ts);
      && (ts == [] ==> all == Ok(Parsed(expr, [])))
      && (ts != [] && first.Err? ==> all == Err(first.error))
      && (first == Ok(Asterisk) ==> all == ParsePostfix(Pointer(expr), ts[1..]))
      && (first == Ok(RAngle) || first == Ok(RSquare) ==> all == Ok(Parsed(expr, ts)))
      && (first.Ok? && (first.value.Word? || first.value.Digits?) ==> all == Err(UnexpectedToken))
  {
    hide LengthOf, Parse;
  }

  lemma ParseStart(ts: seq<Lexeme>)
    requires AreTokens(ts)
    ensures var first, all := First(ts), Parse(ts);
      && (first.Err? ==> all == Err(first.error))
      && (first.Ok? && first.value.Word? ==> all == ParsePostfix(Ident(first.value.name), ts[1..]))
      && (first.Ok? && !first.value.Word? ==> all == Err(UnexpectedToken))
  {
    hide ParsePostfix;
  }

  /** What a type string means; what follows an unmatched bracket is not looked at. */
  function ParseText(s: string): Result<Expr>
  {
    LexGivesTokens(s);
    match Parse(Lex(s))
    case Ok(p) => Ok(p.expr)
    case Err(e) => Err(e)
  }

  // ---- printing

  function PrintLength(len: Expr): seq<Token>
  {
    match len
    case Ident(name) => [Word(name)]
    case Lit(Num(n)) => [Digits(Decimal(n))]
    case _ => []
  }

  function Print(e: Expr): seq<Token>
  {
    match e
    case Ident(name) => [Word(name)]
    case Lit(_) => PrintLength(e)
    case Pointer(target) => Print(target) + [Asterisk]
    case Template(expr, arg) => Print(expr) + [LAngle] + Print(arg) + [RAngle]
    case Array(element, len) => Print(element) + [LSquare] + PrintLength(len) + [RSquare]
  }

  ghost predicate WellFormedLength(len: Expr)
  {
    match len
    case Ident(name) => IsName(name)
    case Lit(Num(n)) => n < U64
    case _ => false
  }

  /** Names are identifiers, literals are lengths only, and a length fits `usize`. */
  ghost predicate WellFormed(e: Expr)
  {
    match e
    case Ident(name) => IsName(name)
    case Lit(_) => false
    case Pointer(target) => WellFormed(target)
    case Template(expr, arg) => WellFormed(expr) && WellFormed(arg)
    case Array(element, len) => WellFormed(element) && WellFormedLength(len)
  }

  function Lexemes(ts: seq<Token>): (r: seq<Lexeme>)
    ensures |r| == |ts| && forall i | 0 <= i < |ts| :: r[i] == Good(ts[i])
  {
    seq(|ts|, i requires 0 <= i < |ts| => Good(ts[i]))
  }

  ghost predicate AllTokens(ts: seq<Token>)
  {
    forall i | 0 <= i < |ts| :: IsToken(ts[i])
  }

  lemma {:induction false} PrintsTokens(e: Expr)
    requires WellFormed(e)
    ensures AllTokens(Print(e)) && Print(e) != []
  {
    match e
    case Ident(_) =>
    case Pointer(target) => PrintsTokens(target);
    case Template(expr, arg) => PrintsTokens(expr); PrintsTokens(arg);
    case Array(element, _) => PrintsTokens(element);
  }

  // ---- printing, then parsing

  lemma PostfixPointer(e: Expr, more: seq<Lexeme>)
    requires AreTokens(more)
    ensures AreTokens([Good(Asterisk)] + more)
    ensures ParsePostfix(e, [Good(Asterisk)] + more) == ParsePostfix(Pointer(e), more)
  {
    assert ([Good(Asterisk)] + more)[1..] == more;
  }

  lemma PostfixTemplate(e: Expr, arg: Expr, inner: seq<Lexeme>, more: seq<Lexeme>)
    requires AreTokens(inner) && AreTokens(more) && Parse(inner) == Ok(Parsed(arg, [Good(RAngle)] + more))
    ensures AreTokens([Good(LAngle)] + inner)
    ensures ParsePostfix(e, [Good(LAngle)] + inner) == ParsePostfix(Template(e, arg), more)
  {
    assert ([Good(LAngle)] + inner)[1..] == inner && ([Good(RAngle)] + more)[1..] == more;
  }

  lemma PostfixArray(e: Expr, len: Expr, more: seq<Lexeme>)
    requires WellFormedLength(len) && AreTokens(more)
    ensures AreTokens([Good(LSquare)] + Lexemes(PrintLength(len)) + [Good(RSquare)] + more)
    ensures ParsePostfix(e, [Good(LSquare)] + Lexemes(PrintLength(len)) + [Good(RSquare)] + more)
         == ParsePostfix(Array(e, len), more)
  {
    var ts := [Good(LSquare)] + Lexemes(PrintLength(len)) + [Good(RSquare)] + more;
    assert ts[3..] == more && ts[1..][0] == ts[1] && ts[2..][0] == ts[2];
    if len.Lit? {
      DecimalValue(len.lit.value);
    }
  }

  lemma BracketStops(e: Expr, more: seq<Lexeme>)
    requires AreTokens(more)
    ensures AreTokens([Good(RAngle)] + more)
    ensures ParsePostfix(e, [Good(RAngle)] + more) == Ok(Parsed(e, [Good(RAngle)] + more))
  {
  }

  lemma Around(a: seq<Token>, open: Token, b: seq<Token>, close: Token, more: seq<Lexeme>)
    ensures Lexemes(a + [open] + b + [close]) + more
         == Lexemes(a) + ([Good(open)] + (Lexemes(b) + ([Good(close)] + more)))
  {
  }

  lemma PointerPrint(target: Expr, more: seq<Lexeme>)
    ensures Lexemes(Print(Pointer(target))) + more == Lexemes(Print(target)) + ([Good(Asterisk)] + more)
  {
  }

  lemma TemplatePrint(expr: Expr, arg: Expr, more: seq<Lexeme>)
    ensures Lexemes(Print(Template(expr, arg))) + more
         == Lexemes(Print(expr)) + ([Good(LAngle)] + (Lexemes(Print(arg)) + ([Good(RAngle)] + more)))
  {
    Around(Print(expr), LAngle, Print(arg), RAngle, more);
  }

  lemma ArrayPrint(element: Expr, len: Expr, more: seq<Lexeme>)
    ensures Lexemes(Print(Array(element, len))) + more
         == Lexemes(Print(element)) + ([Good(LSquare)] + Lexemes(PrintLength(len)) + [Good(RSquare)] + more)
  {
  }

  /** Parsing a printed expression continues with whatever follows it. */
  lemma {:induction false} ParsePrinted(e: Expr, more: seq<Lexeme>)
    requires WellFormed(e) && AreTokens(more)
    ensures AllTokens(Print(e)) && AreTokens(Lexemes(Print(e)) + more)
    ensures Parse(Lexemes(Print(e)) + more) == ParsePostfix(e, more)
    decreases e
  {
    PrintsTokens(e);
    if e.Ident? {
      assert (Lexemes(Print(e)) + more)[1..] == more;
    } else {
      hide Parse, ParsePostfix, Print, AreTokens, AllTokens, WellFormedLength, PrintLength;
      match e
      case Pointer(target) =>
        PostfixPointer(target, more);
        ParsePrinted(target, [Good(Asterisk)] + more);
        PointerPrint(target, more);
      case Template(expr, arg) =>
        BracketStops(arg, more);
        ParsePrinted(arg, [Good(RAngle)] + more);
        var inner := Lexemes(Print(arg)) + ([Good(RAngle)] + more);
        PostfixTemplate(expr, arg, inner, more);
        ParsePrinted(expr, [Good(LAngle)] + inner);
        TemplatePrint(expr, arg, more);
      case Array(element, len) =>
        PostfixArray(element, len, more);
        ParsePrinted(element, [Good(LSquare)] + Lexemes(PrintLength(len)) + [Good(RSquare)] + more);
        ArrayPrint(element, len, more);
    }
  }

  /** Nothing is left after a printed expression, or a bracket that closes something else. */
  ghost predicate Closed(rest: seq<Lexeme>)
  {
    rest == [] || rest[0] == Good(RAngle) || rest[0] == Good(RSquare)
  }

  lemma ParseOfPrint(e: Expr, rest: seq<Lexeme>)
    requires WellFormed(e) && AreTokens(rest) && Closed(rest)
    ensures AreTokens(Lexemes(Print(e)) + rest) && Parse(Lexemes(Print(e)) + rest) == Ok(Parsed(e, rest))
  {
    ParsePrinted(e, rest);
  }

  // ---- parsing, then printing

  /** A numeral without its leading zeros. */
  function Normal(t: Token): Token
    requires IsToken(t)
  {
    match t
    case Digits(s) => Digits(Decimal(ValueOf(s)))
    case _ => t
  }

  /** `ts` starts with the tokens `out`, up to leading zeros, and then `rest`. */
  ghost predicate Consumed(ts: seq<Lexeme>, out: seq<Token>, rest: seq<Lexeme>)
  {
    && |ts| == |out| + |rest| && ts[|out|..] == rest
    && forall i | 0 <= i < |out| :: ts[i].Good? && IsToken(ts[i].token) && Normal(ts[i].token) == out[i]
  }

  lemma ConsumedMore(ts: seq<Lexeme>, a: seq<Token>, us: seq<Lexeme>, b: seq<Token>, rest: seq<Lexeme>)
    requires Consumed(ts, a, us) && Consumed(us, b, rest)
    ensures Consumed(ts, a + b, rest)
  {
    assert forall i | |a| <= i < |ts| :: ts[i] == us[i - |a|];
  }

  lemma ConsumedOne(ts: seq<Lexeme>)
    requires AreTokens(ts) && ts != [] && ts[0].Good?
    ensures Consumed(ts, [Normal(ts[0].token)], ts[1..])
  {
  }

  lemma {:induction false} ParseConsumes(ts: seq<Lexeme>)
    requires AreTokens(ts) && Parse(ts).Ok?
    ensures var p := Parse(ts).value;
      WellFormed(p.expr) && Consumed(ts, Print(p.expr), p.rest) && Closed(p.rest)
    decreases |ts|, 0
  {
    ConsumedOne(ts);
    PostfixConsumes(Ident(ts[0].token.name), ts[1..], ts);
  }

  lemma AroundConsumes(start: seq<Lexeme>, a: seq<Token>, ts: seq<Lexeme>, open: Token, b: seq<Token>,
      rest: seq<Lexeme>, close: Token)
    requires AreTokens(ts) && AreTokens(rest) && Consumed(start, a, ts)
    requires ts != [] && ts[0] == Good(open) && !open.Digits? && Consumed(ts[1..], b, rest)
    requires rest != [] && rest[0] == Good(close) && !close.Digits?
    ensures Consumed(start, a + [open] + b + [close], rest[1..])
  {
  }

  lemma LengthConsumes(ts: seq<Lexeme>)
    requires AreTokens(ts) && ts != [] && ts[0].Good? && LengthOf(ts[0].token).Ok?
    ensures var len := LengthOf(ts[0].token).value; WellFormedLength(len) && Consumed(ts, PrintLength(len), ts[1..])
  {
    ConsumedOne(ts);
  }

  /** The loop, with the tokens of `expr` read from `start`. */
  lemma {:induction false} PostfixConsumes(expr: Expr, ts: seq<Lexeme>, start: seq<Lexeme>)
    requires AreTokens(ts) && ParsePostfix(expr, ts).Ok?
    requires WellFormed(expr) && Consumed(start, Print(expr), ts)
    ensures var p := ParsePostfix(expr, ts).value;
      WellFormed(p.expr) && Consumed(start, Print(p.expr), p.rest) && Closed(p.rest)
    decreases |ts|, 1
  {
    hide Consumed, Parse, ParsePostfix, LengthOf, WellFormedLength, PrintLength, IsName;
    AtOther(expr, ts);
    if ts != [] {
      match ts[0].token
      case LAngle =>
        AtTemplate(expr, ts);
        var arg := Parse(ts[1..]).value;
        ParseConsumes(ts[1..]);
        AroundConsumes(start, Print(expr), ts, LAngle, Print(arg.expr), arg.rest, RAngle);
        PostfixConsumes(Template(expr, arg.expr), arg.rest[1..], start);
      case LSquare =>
        AtArray(expr, ts);
        Slices(ts);
        var len := LengthOf(ts[1].token).value;
        LengthConsumes(ts[1..]);
        assert ts[1..][1..] == ts[2..] && ts[2..][1..] == ts[3..];
        AroundConsumes(start, Print(expr), ts, LSquare, PrintLength(len), ts[2..], RSquare);
        PostfixConsumes(Array(expr, len), ts[3..], start);
      case Asterisk =>
        ConsumedOne(ts);
        ConsumedMore(start, Print(expr), ts, [Asterisk], ts[1..]);
        PostfixConsumes(Pointer(expr), ts[1..], start);
      case _ =>
    }
  }

  // ---- texts

  function TextOf(t: Token): string
  {
    match t
    case LAngle => "<"
    case RAngle => ">"
    case LSquare => "["
    case RSquare => "]"
    case Asterisk => "*"
    case Word(name) => name
    case Digits(digits) => digits
  }

  ghost predicate IsGap(s: string)
  {
    forall i | 0 <= i < |s| :: IsWhitespace(s[i])
  }

  predicate IsWordy(t: Token)
  {
    t.Word? || t.Digits?
  }

  /** No two names or numerals in a row. */
  ghost predicate Separated(ts: seq<Token>)
  {
    forall i | 0 <= i < |ts| - 1 :: !(IsWordy(ts[i]) && IsWordy(ts[i + 1]))
  }

  /** The tokens with a gap before each and one at the end. */
  function Text(ts: seq<Token>, gaps: seq<string>): string
    requires |gaps| == |ts| + 1
    decreases |ts|
  {
    if ts == [] then gaps[0] else gaps[0] + TextOf(ts[0]) + Text(ts[1..], gaps[1..])
  }

  lemma {:induction false} LexSkipsGap(gap: string, s: string)
    requires IsGap(gap)
    ensures Lex(gap + s) == Lex(s)
    decreases |gap|
  {
    if gap == [] {
      assert gap + s == s;
    } else {
      var t := gap + s;
      assert t[0] == gap[0] && t[1..] == gap[1..] + s;
      assert IsWhitespace(t[0]) && !IsAlphabetic(t[0]) && !IsDigitChar(t[0]) && Punctuation(t[0]).None?;
      LexSkipsGap(gap[1..], s);
    }
  }

  /** One token, when the text after it does not continue it. */
  lemma LexWord(name: string, s: string)
    requires IsName(name) && (s != [] ==> !IsIdentContinue(s[0]))
    ensures Lex(name + s) == [Good(Word(name))] + Lex(s)
  {
    var all := name + s;
    assert all[|name|..] == s && all[..|name|] == name;
    assert forall i | 0 <= i < |name| - 1 :: all[1..][i] == name[i + 1];
    SpanIs(IsIdentContinue, all[1..], |name| - 1);
    assert Punctuation(all[0]).None?;
  }

  lemma LexDigits(digits: string, s: string)
    requires IsToken(Digits(digits)) && (s != [] ==> !IsIdentContinue(s[0]))
    ensures Lex(digits + s) == [Good(Digits(digits))] + Lex(s)
  {
    var all := digits + s;
    assert all[|digits|..] == s && all[..|digits|] == digits;
    assert forall i | 0 <= i < |digits| - 1 :: all[1..][i] == digits[i + 1];
    SpanIs(IsDigitChar, all[1..], |digits| - 1);
    assert Punctuation(all[0]).None? && !IsAlphabetic(all[0]);
  }

  lemma LexToken(t: Token, s: string)
    requires IsToken(t) && (IsWordy(t) && s != [] ==> !IsIdentContinue(s[0]))
    ensures Lex(TextOf(t) + s) == [Good(t)] + Lex(s)
  {
    hide IsName;
    match t
    case Word(name) => LexWord(name, s);
    case Digits(digits) => LexDigits(digits, s);
    case _ => assert (TextOf(t) + s)[1..] == s;
  }

  ghost predicate AreGaps(gaps: seq<string>)
  {
    forall i | 0 <= i < |gaps| :: IsGap(gaps[i])
  }

  /** A gap, or something that is no word, ends a word. */
  lemma TextEndsWord(ts: seq<Token>, gaps: seq<string>)
    requires |gaps| == |ts| + 1 && AllTokens(ts) && AreGaps(gaps) && (ts != [] ==> !IsWordy(ts[0]))
    ensures var s := Text(ts, gaps); s != [] ==> !IsIdentContinue(s[0])
  {
  }

  lemma SeparatedRest(ts: seq<Token>)
    requires ts != [] && Separated(ts)
    ensures Separated(ts[1..])
  {
  }

  /** With any whitespace between the tokens, or none. */
  lemma {:induction false} LexOfText(ts: seq<Token>, gaps: seq<string>)
    requires |gaps| == |ts| + 1 && AllTokens(ts) && AreGaps(gaps) && Separated(ts)
    ensures Lex(Text(ts, gaps)) == Lexemes(ts)
    decreases |ts|
  {
    if ts == [] {
      assert gaps[0] + [] == gaps[0];
      LexSkipsGap(gaps[0], []);
    } else {
      var rest := Text(ts[1..], gaps[1..]);
      assert Text(ts, gaps) == gaps[0] + (TextOf(ts[0]) + rest);
      hide Lex, TextOf, Text, IsWhitespace, IsToken;
      LexSkipsGap(gaps[0], TextOf(ts[0]) + rest);
      SeparatedRest(ts);
      LexOfText(ts[1..], gaps[1..]);
      if IsWordy(ts[0]) {
        assert |ts| > 1 ==> !IsWordy(ts[1]);
        TextEndsWord(ts[1..], gaps[1..]);
      }
      LexToken(ts[0], rest);
    }
  }

  /** In a printed expression a name or numeral never follows another. */
  lemma {:induction false} PrintSeparated(e: Expr)
    requires WellFormed(e)
    ensures Separated(Print(e)) && Print(e) != [] && Print(e)[0].Word?
  {
    match e
    case Ident(_) =>
    case Pointer(target) => PrintSeparated(target);
    case Template(expr, arg) => PrintSeparated(expr); PrintSeparated(arg);
    case Array(element, _) => PrintSeparated(element);
  }

  /** Printing any well-formed expression, with any whitespace between the tokens, and parsing the text
      gives the expression back. */
  lemma PrintThenParse(e: Expr, gaps: seq<string>)
    requires WellFormed(e) && |gaps| == |Print(e)| + 1 && AreGaps(gaps)
    ensures ParseText(Text(Print(e), gaps)) == Ok(e)
  {
    PrintsTokens(e);
    PrintSeparated(e);
    LexOfText(Print(e), gaps);
    ParseOfPrint(e, []);
    assert Lexemes(Print(e)) + [] == Lexemes(Print(e));
  }

  /** A text that parses starts with exactly the tokens of its result, up to leading zeros in lengths;
      then it ends or an unmatched bracket follows. */
  lemma ParseThenPrint(s: string)
    requires ParseText(s).Ok?
    ensures var e := ParseText(s).value;
      && WellFormed(e)
      && |Print(e)| <= |Lex(s)| && Consumed(Lex(s), Print(e), Lex(s)[|Print(e)|..]) && Closed(Lex(s)[|Print(e)|..])
  {
    LexGivesTokens(s);
    ParseConsumes(Lex(s));
  }

  // ---- which characters are which, by their code points

  predicate IsLetterCode(u: int)
  {
    65 <= u <= 90 || 97 <= u <= 122
  }

  /** The characters with the Unicode property White_Space. */
  const SPACES: set<int> :=
    {0x9, 0xA, 0xB, 0xC, 0xD, 0x20, 0x85, 0xA0, 0x1680, 0x2000, 0x2001, 0x2002, 0x2003, 0x2004, 0x2005, 0x2006, 0x2007,
     0x2008, 0x2009, 0x200A, 0x2028, 0x2029, 0x202F, 0x205F, 0x3000}

  /** A character on its own is a name, a numeral, a mark, nothing or no token. */
  lemma LexOfCharacter(c: char)
    ensures var u := c as int;
      Lex([c]) ==
        if IsLetterCode(u) then [Good(Word([c]))]
        else if 48 <= u <= 57 then [Good(Digits([c]))]
        else if u == 60 then [Good(LAngle)]
        else if u == 62 then [Good(RAngle)]
        else if u == 91 then [Good(LSquare)]
        else if u == 93 then [Good(RSquare)]
        else if u == 42 then [Good(Asterisk)]
        else if u in SPACES then []
        else [Unknown(c)]
  {
    var s := [c];
    assert s[1..] == [] && s[..1] == s;
  }

  /** Letters, digits and the underscore continue a name. */
  lemma LexContinues(name: string, c: char)
    requires IsName(name)
    ensures var u := c as int;
      Lex(name + [c]) == [Good(Word(name + [c]))] <==> IsLetterCode(u) || 48 <= u <= 57 || u == 95
  {
    if IsIdentContinue(c) {
      assert (name + [c]) + [] == name + [c];
      LexWord(name + [c], []);
    } else {
      LexWord(name, [c]);
      assert Lex(name + [c])[0] == Good(Word(name)) && |name| != |name + [c]|;
    }
  }
}
