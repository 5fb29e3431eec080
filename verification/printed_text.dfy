/** The round trip of GrammarFacts taken from characters: the symbols the printer writes are
    spelled out as text, one blank after each, and parse.c's `tokenize` reads that text back
    into tokens that `expr` parses to the tree that was printed. The text has no lower-case
    letters, so the same holds with identifiers switched off, that is for 9cc.c's lexer with
    the missing `continue` restored. */
module PrintedText {
  import opened Base
  import opened CLib
  import opened Ast
  import opened Grammar
  import opened GrammarFacts
  import Lexer

  function DigitChar(d: nat): (c: char)
    requires d < 10
    ensures IsDigit(c) && DigitValue(c) == d
  {
    ('0' as int + d) as char
  }

  /** The decimal digits of n, most significant first, without leading zeros. */
  function Digits(n: nat): string
    decreases n
  {
    if n < 10 then [DigitChar(n)] else Digits(n / 10) + [DigitChar(n % 10)]
  }

  /** The digits of n are a non-empty digit run whose decimal value is n. */
  lemma {:induction false} DigitsValue(n: nat)
    ensures |Digits(n)| > 0 && AllDigits(Digits(n)) && DecimalValue(Digits(n)) == n
    decreases n
  {
    var s := Digits(n);
    if n < 10 {
      assert s[..0] == [];
    } else {
      DigitsValue(n / 10);
      assert s[..|s| - 1] == Digits(n / 10);
      forall k | 0 <= k < |s| ensures IsDigit(s[k]) {
        if k < |s| - 1 { assert s[k] == Digits(n / 10)[k]; }
      }
    }
  }

  /** The text of one symbol: a number in decimal (with a minus sign when negative), an
      operator, or a parenthesis. */
  function SymText(x: Sym): string
  {
    match x
    case SNum(v) => if v < 0 then "-" + Digits(-v) else Digits(v)
    case SOp(op) => OpText(op)
    case SOpen => "("
    case SClose => ")"
  }

  /** The symbols written out, each followed by one blank. */
  function Text(s: seq<Sym>): string
  {
    if s == [] then [] else SymText(s[0]) + " " + Text(s[1..])
  }

  /** No negative number among the symbols: the lexer reads a minus sign as an operator. */
  predicate Writable(s: seq<Sym>)
  {
    forall k :: 0 <= k < |s| ==> (s[k].SNum? ==> s[k].v >= 0)
  }

  /** No negative number in the tree. */
  predicate NonNegative(e: Node)
  {
    match e
    case Num(v) => v >= 0
    case Bin(_, a, b) => NonNegative(a) && NonNegative(b)
    case _ => true
  }

  /** A tree without negative numbers prints as writable symbols. */
  lemma {:induction false} PrintWritable(e: Node, l: nat)
    requires IsArith(e) && NonNegative(e) && l <= 4
    ensures Writable(Print(e, l))
  {
    match e
    case Num(v) =>
    case Bin(op, a, b) =>
      PrintWritable(a, Prec(op));
      PrintWritable(b, Prec(op) + 1);
      var s := Print(e, l);
      var body := Print(a, Prec(op)) + [SOp(op)] + Print(b, Prec(op) + 1);
      forall k | 0 <= k < |body| && body[k].SNum? ensures body[k].v >= 0 {
        if k < |Print(a, Prec(op))| {
          assert body[k] == Print(a, Prec(op))[k];
        } else if k > |Print(a, Prec(op))| {
          assert body[k] == Print(b, Prec(op) + 1)[k - |Print(a, Prec(op))| - 1];
        }
      }
      if l > Prec(op) {
        forall k | 0 <= k < |s| && s[k].SNum? ensures s[k].v >= 0 {
          assert s[k] == body[k - 1];
        }
      }
  }

  /** The digits of v written at p and ended by a blank: strtol reads v and stops at the
      blank. */
  lemma NumberRun(input: string, p: nat, e: nat, v: nat)
    requires p <= e < |input| && input[p..e] == Digits(v) && input[e] == ' '
    ensures p < e && Lexer.NumberAt(input, p) && Strtol(input, p) == (v, e)
  {
    DigitsValue(v);
    assert input[p] == Digits(v)[0];
    assert input[p..][0] == input[p];
    StrtolRun(input, p, e);
  }

  /** A non-negative number written first at p and followed by its blank: one number token
      with its value, and the scan goes on after the blank. */
  lemma ReadNumber(input: string, p: nat, s: seq<Sym>, idents: bool)
    requires s != [] && s[0].SNum? && s[0].v >= 0 && p <= Blank(p, s) < |input|
    requires input[p..Blank(p, s)] == Digits(s[0].v) && input[Blank(p, s)] == ' '
    ensures Lexer.LexFrom(input, p, idents)
         == Lexer.Prepend(SymToken(input, p, s), Lexer.LexFrom(input, Blank(p, s) + 1, idents))
  {
    NumberRun(input, p, Blank(p, s), s[0].v);
    Lexer.StepNumber(input, p, idents);
    Lexer.StepSpace(input, Blank(p, s), idents);
  }

  /** An operator or a parenthesis written first at p and followed by its blank: one reserved
      token for its text, and the scan goes on after the blank. */
  lemma ReadOperator(input: string, p: nat, s: seq<Sym>, idents: bool)
    requires s != [] && !s[0].SNum? && p <= Blank(p, s) < |input|
    requires input[p..Blank(p, s)] == SymText(s[0]) && input[Blank(p, s)] == ' '
    ensures Lexer.LexFrom(input, p, idents)
         == Lexer.Prepend(SymToken(input, p, s), Lexer.LexFrom(input, Blank(p, s) + 1, idents))
    ensures Matches(SymToken(input, p, s), SymText(s[0]))
  {
    var w := SymText(s[0]);
    var n := |w|;
    assert input[p] == w[0];
    assert input[p..][..n] == w;
    if n == 2 {
      assert Lexer.OperatorAt(input, p, 2);
    } else {
      assert input[p..][1] == ' ';
      assert Lexer.OperatorAt(input, p, 1);
    }
    Lexer.StepOperator(input, p, n, idents);
    Lexer.StepSpace(input, Blank(p, s), idents);
  }

  /** A reserved token for the text of an operator or a parenthesis denotes it. */
  lemma OperatorDenotes(t: Token, x: Sym)
    requires !x.SNum? && Matches(t, SymText(x))
    ensures Denotes(t, x)
  {
    if x.SOp? {
      match x.op
      case Eq => case Ne =>
      case Lt => case Le =>
      case Add => case Sub =>
      case Mul => case Div =>
    }
  }

  /** Where the blank after the first symbol written at p lies. */
  function Blank(p: nat, s: seq<Sym>): nat
    requires s != []
  {
    p + |SymText(s[0])|
  }

  /** The token the lexer makes for the first symbol written at p. */
  function SymToken(input: string, p: nat, s: seq<Sym>): Token
    requires p <= |input| && s != []
  {
    if s[0].SNum? then Token(Number, s[0].v, input[p..], Blank(p, s) - p)
    else Token(Reserved, 0, input[p..], Blank(p, s) - p)
  }

  /** From p on, the input holds the writable symbols s written out, each followed by one
      blank, and nothing else. */
  predicate WrittenAt(input: string, p: nat, s: seq<Sym>)
    decreases |s|
  {
    if s == [] then p == |input|
    else
      && (s[0].SNum? ==> s[0].v >= 0)
      && Blank(p, s) < |input| && input[p..Blank(p, s)] == SymText(s[0])
      && input[Blank(p, s)] == ' '
      && WrittenAt(input, Blank(p, s) + 1, s[1..])
  }

  /** The text of writable symbols holds them written out. */
  lemma {:induction false} TextWritten(input: string, p: nat, s: seq<Sym>)
    requires p <= |input| && input[p..] == Text(s) && Writable(s)
    ensures WrittenAt(input, p, s)
    decreases |s|
  {
    if s == [] {
      assert |input[p..]| == 0;
    } else {
      TextSplit(input, p, s);
      TextWritten(input, Blank(p, s) + 1, s[1..]);
    }
  }

  /** A lexer result that reads as the symbols s: one token for each, then the end of input. */
  predicate Reads(r: Result<seq<Token>, Lexer.LexError>, s: seq<Sym>)
  {
    r.Ok? && |r.value| == |s| + 1 && r.value[|s|].kind == Eof && At(r.value, 0, s)
  }

  /** A token denoting the first symbol in front of a result that reads as the rest. */
  lemma ReadsCons(r: Result<seq<Token>, Lexer.LexError>, t: Token,
                  rest: Result<seq<Token>, Lexer.LexError>, s: seq<Sym>)
    requires s != [] && r == Lexer.Prepend(t, rest) && Denotes(t, s[0]) && Reads(rest, s[1..])
    ensures Reads(r, s)
  {
    AtShift(t, rest.value, 0, s[1..]);
  }

  /** The first written symbol is read as one token denoting it, and the scan goes on
      after its blank. */
  lemma ReadSymbol(input: string, p: nat, s: seq<Sym>, idents: bool)
    requires p <= |input| && WrittenAt(input, p, s) && s != []
    ensures Blank(p, s) < |input|
    ensures Lexer.LexFrom(input, p, idents)
         == Lexer.Prepend(SymToken(input, p, s), Lexer.LexFrom(input, Blank(p, s) + 1, idents))
    ensures Denotes(SymToken(input, p, s), s[0])
  {
    if s[0].SNum? {
      ReadNumber(input, p, s, idents);
    } else {
      ReadOperator(input, p, s, idents);
      OperatorDenotes(SymToken(input, p, s), s[0]);
    }
  }

  /** Lexing written symbols gives tokens that read as the symbols, then the end-of-input
      token. */
  lemma {:induction false} LexText(input: string, p: nat, s: seq<Sym>, idents: bool)
    requires p <= |input| && WrittenAt(input, p, s)
    ensures Reads(Lexer.LexFrom(input, p, idents), s)
    decreases |s|
  {
    if s != [] {
      ReadSymbol(input, p, s, idents);
      LexText(input, Blank(p, s) + 1, s[1..], idents);
      ReadsCons(Lexer.LexFrom(input, p, idents), SymToken(input, p, s),
                Lexer.LexFrom(input, Blank(p, s) + 1, idents), s);
    }
  }

  /** Where the text of the first symbol, its blank and the text of the rest lie. */
  lemma TextSplit(input: string, p: nat, s: seq<Sym>)
    requires p <= |input| && input[p..] == Text(s) && Writable(s) && s != []
    ensures var n := |SymText(s[0])|;
            && p + n < |input| && input[p..p + n] == SymText(s[0]) && input[p + n] == ' '
            && input[p + n + 1..] == Text(s[1..])
    ensures s[0].SNum? ==> s[0].v >= 0
    ensures Writable(s[1..])
  {
    var w := SymText(s[0]);
    var n := |w|;
    assert input[p..] == w + " " + Text(s[1..]);
    assert input[p..p + n] == input[p..][..n];
    assert input[p + n] == input[p..][n];
    assert input[p + n + 1..] == input[p..][n + 1..];
    forall k | 0 <= k < |s[1..]| ensures s[1..][k] == s[k + 1] { }
  }

  /** Putting a token in front moves where the symbols are read by one. */
  lemma {:induction false} AtShift(t: Token, rest: seq<Token>, i: nat, s: seq<Sym>)
    requires At(rest, i, s)
    ensures At([t] + rest, i + 1, s)
    decreases |s|
  {
    if s != [] {
      assert ([t] + rest)[i + 1] == rest[i];
      AtShift(t, rest, i + 1, s[1..]);
    }
  }

  /** Tokens that read as the printed symbols and then end parse back to the tree. */
  lemma ParseReading(e: Node, ts: seq<Token>)
    requires IsArith(e) && ValidStream(ts) && |ts| == |Print(e, 0)| + 1 && At(ts, 0, Print(e, 0))
    ensures Expr(ts, 0) == Ok(Parsed(e, |Print(e, 0)|))
  {
    ClosingStops(ts[|Print(e, 0)|]);
    ParsePrint(e, 0, ts, 0);
    OperandIsBinary(ts, 0, 0);
  }

  /** Precedence and associativity from text: the printed text of a tree without negative
      numbers tokenizes (with or without identifiers) into one token per symbol and the end of
      input, and `expr` parses those tokens back to the tree, stopping at the end of input. */
  lemma TextRoundTrip(e: Node, idents: bool)
    requires IsArith(e) && NonNegative(e)
    ensures Lexer.LexFrom(Text(Print(e, 0)), 0, idents).Ok?
    ensures var ts := Lexer.LexFrom(Text(Print(e, 0)), 0, idents).value;
            && |ts| == |Print(e, 0)| + 1 && ValidStream(ts)
            && Expr(ts, 0) == Ok(Parsed(e, |Print(e, 0)|))
  {
    var s := Print(e, 0);
    var input := Text(s);
    PrintWritable(e, 0);
    assert input[0..] == input;
    TextWritten(input, 0, s);
    LexText(input, 0, s, idents);
    Lexer.LexFromShape(input, 0, idents);
    ParseReading(e, Lexer.LexFrom(input, 0, idents).value);
  }
}
