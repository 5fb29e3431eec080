/** What the expression grammar promises: precedence and left associativity (through a printer
    that writes the fewest parentheses, whose output parses back to the tree it printed), the
    normalisation of `>` and `>=`, the two unary operators, and the rejection of identifiers. */
module GrammarFacts {
  import opened Base
  import opened Ast
  import opened Grammar

  /** The binding strength of an operator: the level whose loop builds it. */
  function Prec(op: BinOp): (l: nat)
    ensures l <= 3
  {
    match op
    case Eq => 0 case Ne => 0
    case Lt => 1 case Le => 1
    case Add => 2 case Sub => 2
    case Mul => 3 case Div => 3
  }

  /** The operator text the parser turns into each kind (the unswapped one). */
  function OpText(op: BinOp): string
  {
    match op
    case Eq => "==" case Ne => "!="
    case Lt => "<" case Le => "<="
    case Add => "+" case Sub => "-"
    case Mul => "*" case Div => "/"
  }

  /** What the printer writes: a number, an operator, or a parenthesis. */
  datatype Sym = SNum(v: int) | SOp(op: BinOp) | SOpen | SClose

  /** The symbols of e written where an operand of the given level is expected, with the
      fewest parentheses: a binary node is parenthesised only when it binds less tightly than
      the level, and its right operand is written one level up, so that equal operators chain
      to the left. */
  function Print(e: Node, level: nat): seq<Sym>
    requires IsArith(e) && level <= 4
  {
    match e
    case Num(v) => [SNum(v)]
    case Bin(op, a, b) =>
      var body := Print(a, Prec(op)) + [SOp(op)] + Print(b, Prec(op) + 1);
      if level <= Prec(op) then body else [SOpen] + body + [SClose]
  }

  /** The token the printer writes for a symbol. */
  function Spell(s: Sym): Token
  {
    match s
    case SNum(v) => Token(Number, v, [], 0)
    case SOp(op) => Token(Reserved, 0, OpText(op), |OpText(op)|)
    case SOpen => Token(Reserved, 0, "(", 1)
    case SClose => Token(Reserved, 0, ")", 1)
  }

  /** The tokens of a sequence of symbols. */
  function Spelling(s: seq<Sym>): (ts: seq<Token>)
    ensures |ts| == |s| && forall k :: 0 <= k < |s| ==> ts[k] == Spell(s[k])
  {
    seq(|s|, k requires 0 <= k < |s| => Spell(s[k]))
  }

  /** How the parser reads t: as the symbol s. A number token with the value, an operator
      accepted unswapped by the loop of its level, or a parenthesis. */
  predicate Denotes(t: Token, s: Sym)
  {
    match s
    case SNum(v) => t.kind == Number && t.val == v
    case SOp(op) => LevelOp(Prec(op), t) == Some((op, false))
    case SOpen => Matches(t, "(")
    case SClose => Matches(t, ")")
  }

  /** The binary level whose loop accepts t, or 4 when none does. */
  function OpLevel(t: Token): (l: nat)
    ensures l <= 4
  {
    if LevelOp(0, t).Some? then 0
    else if LevelOp(1, t).Some? then 1
    else if LevelOp(2, t).Some? then 2
    else if LevelOp(3, t).Some? then 3
    else 4
  }

  /** t ends every binary level from `level` on: it is none of their operators. */
  predicate Stops(t: Token, level: nat)
  {
    OpLevel(t) < level || OpLevel(t) == 4
  }

  // ---------------------------------------------------------------------------------------
  // Facts about single tokens.

  lemma MatchesUnique(t: Token, a: string, b: string)
    requires Matches(t, a) && Matches(t, b)
    ensures a == b
  {
  }

  /** An operator token belongs to one level only. */
  lemma LevelUnique(t: Token, p: nat, m: nat)
    requires LevelOp(p, t).Some? && m != p
    ensures LevelOp(m, t).None?
  {
    if LevelOp(m, t).Some? {
      var s := t.str[..t.len];
      assert Matches(t, s);
    }
  }

  /** Each symbol's token reads as that symbol. */
  lemma SpellDenotes(s: Sym)
    ensures Denotes(Spell(s), s)
  {
    var t := Spell(s);
    if s.SOp? || s.SOpen? || s.SClose? {
      assert t.str[..t.len] == t.str;
    }
  }

  /** The level of an operator is the one level that accepts it. */
  lemma OpLevelAccepts(t: Token, m: nat)
    requires m <= 3
    ensures LevelOp(m, t).Some? <==> OpLevel(t) == m
  {
    if LevelOp(m, t).Some? {
      forall k: nat | k < m ensures LevelOp(k, t).None? { LevelUnique(t, m, k); }
    }
  }

  lemma StopsNone(t: Token, l: nat)
    requires l <= 3 && Stops(t, l)
    ensures LevelOp(l, t).None?
  {
    OpLevelAccepts(t, l);
  }

  lemma StopsAfterOperator(t: Token, l: nat)
    requires l <= 3 && LevelOp(l, t).Some?
    ensures Stops(t, l + 1)
  {
    OpLevelAccepts(t, l);
  }

  /** A closing parenthesis and the end of input end every level. */
  lemma ClosingStops(t: Token)
    requires Matches(t, ")") || t.kind == Eof
    ensures Stops(t, 0)
  {
    if Matches(t, ")") {
      forall m: nat | m <= 3 ensures LevelOp(m, t).None? {
        if LevelOp(m, t).Some? {
          var s := t.str[..t.len];
          assert Matches(t, s);
        }
      }
    }
  }

  /** An opening parenthesis is not a sign. */
  lemma OpenIsNoSign(t: Token)
    requires Matches(t, "(")
    ensures !Matches(t, "+") && !Matches(t, "-")
  {
    if Matches(t, "+") { MatchesUnique(t, "(", "+"); }
    if Matches(t, "-") { MatchesUnique(t, "(", "-"); }
  }

  // ---------------------------------------------------------------------------------------
  // Where symbols lie in a token list.

  /** The tokens from position i on read as the symbols s. */
  predicate At(ts: seq<Token>, i: nat, s: seq<Sym>)
    decreases |s|
  {
    if s == [] then i <= |ts| else i < |ts| && Denotes(ts[i], s[0]) && At(ts, i + 1, s[1..])
  }

  lemma {:induction false} AtCat(ts: seq<Token>, i: nat, a: seq<Sym>, b: seq<Sym>)
    ensures At(ts, i, a + b) <==> At(ts, i, a) && At(ts, i + |a|, b)
    decreases |a|
  {
    if a == [] {
      assert a + b == b;
      if At(ts, i, b) { AtLength(ts, i, b); }
    } else {
      assert (a + b)[1..] == a[1..] + b;
      AtCat(ts, i + 1, a[1..], b);
    }
  }

  lemma {:induction false} AtLength(ts: seq<Token>, i: nat, s: seq<Sym>)
    requires At(ts, i, s)
    ensures i + |s| <= |ts|
    decreases |s|
  {
    if s != [] { AtLength(ts, i + 1, s[1..]); }
  }

  /** The spelling of s, wherever it lies, reads as s. */
  lemma {:induction false} AtSpelling(ts: seq<Token>, i: nat, s: seq<Sym>)
    requires i + |s| <= |ts| && forall k :: 0 <= k < |s| ==> ts[i + k] == Spell(s[k])
    ensures At(ts, i, s)
    decreases |s|
  {
    if s != [] {
      SpellDenotes(s[0]);
      assert ts[i + 0] == Spell(s[0]);
      forall k | 0 <= k < |s[1..]| ensures ts[i + 1 + k] == Spell(s[1..][k]) {
        assert ts[i + (k + 1)] == Spell(s[k + 1]);
      }
      AtSpelling(ts, i + 1, s[1..]);
    }
  }

  // ---------------------------------------------------------------------------------------
  // The printer.

  /** Only a binary node of exactly this level prints differently one level up. */
  lemma PrintLevelUp(e: Node, l: nat)
    requires IsArith(e) && l < 4 && !(e.Bin? && Prec(e.op) == l)
    ensures Print(e, l) == Print(e, l + 1)
  {
  }

  /** The symbols of a node of level l: its left operand, its operator, its right operand. */
  lemma PrintBin(e: Node, l: nat)
    requires IsArith(e) && l <= 3 && e.Bin? && Prec(e.op) == l
    ensures Print(e, l) == Print(e.lhs, l) + ([SOp(e.op)] + Print(e.rhs, l + 1))
  {
  }

  /** A binary node written as an operand of `unary` is parenthesised. */
  lemma PrintParenthesised(e: Node)
    requires IsArith(e) && e.Bin?
    ensures Print(e, 4) == ([SOpen] + Print(e, 0)) + [SClose]
  {
  }

  // ---------------------------------------------------------------------------------------
  // Parsing printed tokens.

  /** Parsing at level l the tokens of e printed for level l, followed by a token that ends
      every level from l on, yields e and stops right after its tokens. */
  lemma {:induction false} ParsePrint(e: Node, l: nat, ts: seq<Token>, i: nat)
    requires ValidStream(ts) && IsArith(e) && l <= 4
    requires i + |Print(e, l)| < |ts| && At(ts, i, Print(e, l))
    requires Stops(ts[i + |Print(e, l)|], l)
    ensures Operand(ts, i, l) == Ok(Parsed(e, i + |Print(e, l)|))
    decreases |Print(e, l)|, 5 - l, 4
  {
    var n := |Print(e, l)|;
    if l == 4 {
      if e.Num? {
        UnaryIsPrimary(ts, i);
      } else {
        ParseParenthesised(e, ts, i);
      }
    } else {
      ParseLeft(e, l, ts, i);
      OperandIsBinary(ts, i, l);
      StopsNone(ts[i + n], l);
      LoopStop(ts, i + n, l, e);
    }
  }

  /** The invariant of the loop of level l: once the tokens of e printed for level l are read,
      the loop goes on from the token after them with e as the tree built so far, provided that
      token ends the higher levels. This is left associativity: the left operand of a level-l
      node is itself read by the loop of level l. */
  lemma {:induction false} ParseLeft(e: Node, l: nat, ts: seq<Token>, i: nat)
    requires ValidStream(ts) && IsArith(e) && l <= 3
    requires i + |Print(e, l)| < |ts| && At(ts, i, Print(e, l))
    requires Stops(ts[i + |Print(e, l)|], l + 1)
    ensures Binary(ts, i, l) == Loop(ts, i + |Print(e, l)|, l, e)
    decreases |Print(e, l)|, 5 - l, 3
  {
    if e.Bin? && Prec(e.op) == l {
      ParseLeftNode(e, l, ts, i);
    } else {
      ParseLeftUp(e, l, ts, i);
    }
  }

  /** An operand that is not a node of level l is read by the next level. */
  lemma {:induction false} ParseLeftUp(e: Node, l: nat, ts: seq<Token>, i: nat)
    requires ValidStream(ts) && IsArith(e) && l <= 3 && !(e.Bin? && Prec(e.op) == l)
    requires i + |Print(e, l)| < |ts| && At(ts, i, Print(e, l))
    requires Stops(ts[i + |Print(e, l)|], l + 1)
    ensures Binary(ts, i, l) == Loop(ts, i + |Print(e, l)|, l, e)
    decreases |Print(e, l)|, 5 - l, 2
  {
    PrintLevelUp(e, l);
    ParsePrint(e, l + 1, ts, i);
    BinaryStep(ts, i, l, e, i + |Print(e, l)|);
  }

  /** A node of level l, taken apart by its layout. */
  lemma {:induction false} ParseLeftNode(e: Node, l: nat, ts: seq<Token>, i: nat)
    requires ValidStream(ts) && IsArith(e) && l <= 3 && e.Bin? && Prec(e.op) == l
    requires i + |Print(e, l)| < |ts| && At(ts, i, Print(e, l))
    requires Stops(ts[i + |Print(e, l)|], l + 1)
    ensures Binary(ts, i, l) == Loop(ts, i + |Print(e, l)|, l, e)
    decreases |Print(e, l)|, 5 - l, 2
  {
    BinLayout(e, l, ts, i);
    ParseLeftBin(e.op, e.lhs, e.rhs, l, ts, i, i + |Print(e.lhs, l)|, i + |Print(e, l)|);
  }

  /** Where the operands and the operator of a node of level l lie. */
  lemma BinLayout(e: Node, l: nat, ts: seq<Token>, i: nat)
    requires IsArith(e) && l <= 3 && e.Bin? && Prec(e.op) == l && At(ts, i, Print(e, l))
    ensures |Print(e, l)| == |Print(e.lhs, l)| + 1 + |Print(e.rhs, l + 1)|
    ensures At(ts, i, Print(e.lhs, l))
    ensures i + |Print(e.lhs, l)| < |ts|
    ensures LevelOp(l, ts[i + |Print(e.lhs, l)|]) == Some((e.op, false))
    ensures At(ts, i + |Print(e.lhs, l)| + 1, Print(e.rhs, l + 1))
  {
    var pa, pb := Print(e.lhs, l), Print(e.rhs, l + 1);
    PrintBin(e, l);
    AtCat(ts, i, pa, [SOp(e.op)] + pb);
    AtCat(ts, i + |pa|, [SOp(e.op)], pb);
  }

  /** One turn of the loop of level l after a left operand. */
  lemma TurnAfterLeft(ts: seq<Token>, i: nat, j: nat, l: nat, a: Node, b: Node, k: nat)
    requires ValidStream(ts) && i < |ts| && j + 1 < |ts| && l <= 3 && LevelOp(l, ts[j]).Some?
    requires Binary(ts, i, l) == Loop(ts, j, l, a)
    requires Operand(ts, j + 1, l + 1) == Ok(Parsed(b, k))
    ensures k < |ts|
    ensures Binary(ts, i, l) == Loop(ts, k, l, Combine(LevelOp(l, ts[j]).value, a, b))
  {
    LoopStep(ts, j, l, a, b, k);
  }

  /** A node of level l whose tokens lie at i: its left operand by the loop invariant, then one
      turn of the loop with its operator at j and its right operand, ending at k. */
  lemma {:induction false} ParseLeftBin(op: BinOp, a: Node, b: Node, l: nat, ts: seq<Token>,
                                        i: nat, j: nat, k: nat)
    requires ValidStream(ts) && IsArith(a) && IsArith(b) && l <= 3
    requires j == i + |Print(a, l)| && k == j + 1 + |Print(b, l + 1)| && k < |ts|
    requires At(ts, i, Print(a, l)) && At(ts, j + 1, Print(b, l + 1))
    requires LevelOp(l, ts[j]) == Some((op, false))
    requires Stops(ts[k], l + 1)
    ensures Binary(ts, i, l) == Loop(ts, k, l, Bin(op, a, b))
    decreases |Print(a, l)| + 1 + |Print(b, l + 1)|, 5 - l, 1
  {
    StopsAfterOperator(ts[j], l);
    ParseRight(b, l, ts, j, k);
    ParseLeft(a, l, ts, i);
    TurnAfterLeft(ts, i, j, l, a, b, k);
  }

  /** The right operand of a node of level l, read one level up. */
  lemma {:induction false} ParseRight(b: Node, l: nat, ts: seq<Token>, j: nat, k: nat)
    requires ValidStream(ts) && IsArith(b) && l <= 3
    requires k == j + 1 + |Print(b, l + 1)| && k < |ts| && At(ts, j + 1, Print(b, l + 1))
    requires Stops(ts[k], l + 1)
    ensures Operand(ts, j + 1, l + 1) == Ok(Parsed(b, k))
    decreases |Print(b, l + 1)|, 5 - l, 0
  {
    ParsePrint(b, l + 1, ts, j + 1);
  }

  /** A parenthesised tree at the unary level: `primary` consumes `(`, an expression and `)`. */
  lemma {:induction false} ParseParenthesised(e: Node, ts: seq<Token>, i: nat)
    requires ValidStream(ts) && IsArith(e) && e.Bin?
    requires i + |Print(e, 4)| < |ts| && At(ts, i, Print(e, 4))
    ensures Operand(ts, i, 4) == Ok(Parsed(e, i + |Print(e, 4)|))
    decreases |Print(e, 4)|, 1, 0
  {
    var inner := Print(e, 0);
    var k := i + 1 + |inner|;
    PrintParenthesised(e);
    AtCat(ts, i, [SOpen] + inner, [SClose]);
    AtCat(ts, i, [SOpen], inner);
    ClosingStops(ts[k]);
    OpenIsNoSign(ts[i]);
    ParsePrint(e, 0, ts, i + 1);
    OperandIsBinary(ts, i + 1, 0);
    UnaryIsPrimary(ts, i);
    PrimaryParenthesised(ts, i, e, k);
  }

  // ---------------------------------------------------------------------------------------
  // The properties.

  /** The end-of-input token. */
  const EofTok := Token(Eof, 0, [], 0)

  /** The tokens of an expression followed by the end of input. */
  function Program(s: seq<Sym>): (ts: seq<Token>)
    ensures |ts| == |s| + 1 && ts[|s|].kind == Eof
    ensures forall k :: 0 <= k < |s| ==> ts[k] == Spell(s[k])
    ensures ValidStream(ts)
  {
    Spelling(s) + [EofTok]
  }

  /** A token list whose first tokens are the spelling of s reads as s. */
  lemma SpelledReads(s: seq<Sym>, ts: seq<Token>)
    requires |s| < |ts| && forall k :: 0 <= k < |s| ==> ts[k] == Spell(s[k])
    ensures At(ts, 0, s)
  {
    forall k | 0 <= k < |s| ensures ts[0 + k] == Spell(s[k]) { }
    AtSpelling(ts, 0, s);
  }

  /** The end of the program ends every level. */
  lemma ProgramEnds(s: seq<Sym>)
    ensures Stops(Program(s)[|s|], 0)
  {
    ClosingStops(Program(s)[|s|]);
  }

  /** Precedence and associativity at once: printing with the fewest parentheses and parsing
      give back the tree. */
  lemma RoundTrip(e: Node)
    requires IsArith(e)
    ensures Expr(Program(Print(e, 0)), 0) == Ok(Parsed(e, |Print(e, 0)|))
  {
    SpelledReads(Print(e, 0), Program(Print(e, 0)));
    ProgramEnds(Print(e, 0));
    ParsePrint(e, 0, Program(Print(e, 0)), 0);
    OperandIsBinary(Program(Print(e, 0)), 0, 0);
  }

  /** One operator between two operands of the next level: the loop of level l makes one turn
      and stops, building the node the operator asks for. */
  lemma ParseOneOperator(a: Node, b: Node, op: (BinOp, bool), l: nat, ts: seq<Token>,
                         i: nat, j: nat, k: nat)
    requires ValidStream(ts) && IsArith(a) && IsArith(b) && l <= 3
    requires j == i + |Print(a, l + 1)| && k == j + 1 + |Print(b, l + 1)| && k < |ts|
    requires At(ts, i, Print(a, l + 1)) && At(ts, j + 1, Print(b, l + 1))
    requires LevelOp(l, ts[j]) == Some(op)
    requires Stops(ts[k], l)
    ensures Binary(ts, i, l) == Ok(Parsed(Combine(op, a, b), k))
  {
    StopsAfterOperator(ts[j], l);
    ParsePrint(a, l + 1, ts, i);
    BinaryStep(ts, i, l, a, j);
    ParseRight(b, l, ts, j, k);
    LoopStep(ts, j, l, a, b, k);
    StopsNone(ts[k], l);
    LoopStop(ts, k, l, Combine(op, a, b));
  }

  /** `>` and `>=` are the relational operators `<` and `<=` with their operands swapped. */
  lemma GreaterTokens(t: Token)
    ensures Matches(t, ">") ==> LevelOp(1, t) == Some((Lt, true))
    ensures Matches(t, ">=") ==> LevelOp(1, t) == Some((Le, true))
  {
    if Matches(t, ">") || Matches(t, ">=") {
      var s := t.str[..t.len];
      assert Matches(t, s);
    }
  }

  /** `a > b` parses to the tree of `b < a`, `a >= b` to that of `b <= a`. */
  lemma GreaterParsesSwapped(a: Node, b: Node, ts: seq<Token>, j: nat, orEqual: bool)
    requires ValidStream(ts) && IsArith(a) && IsArith(b)
    requires j == |Print(a, 2)| && j + 1 + |Print(b, 2)| < |ts|
    requires At(ts, 0, Print(a, 2)) && At(ts, j + 1, Print(b, 2))
    requires Matches(ts[j], if orEqual then ">=" else ">")
    requires Stops(ts[j + 1 + |Print(b, 2)|], 1)
    ensures Binary(ts, 0, 1) == Ok(Parsed(Bin(if orEqual then Le else Lt, b, a), j + 1 + |Print(b, 2)|))
  {
    GreaterTokens(ts[j]);
    ParseOneOperator(a, b, LevelOp(1, ts[j]).value, 1, ts, 0, j, j + 1 + |Print(b, 2)|);
  }

  /** `b < a` and `b <= a` parse with b on the left. */
  lemma LessParses(a: Node, b: Node, us: seq<Token>, m: nat, orEqual: bool)
    requires ValidStream(us) && IsArith(a) && IsArith(b)
    requires m == |Print(b, 2)| && m + 1 + |Print(a, 2)| < |us|
    requires At(us, 0, Print(b, 2)) && At(us, m + 1, Print(a, 2))
    requires Matches(us[m], if orEqual then "<=" else "<")
    requires Stops(us[m + 1 + |Print(a, 2)|], 1)
    ensures Binary(us, 0, 1) == Ok(Parsed(Bin(if orEqual then Le else Lt, b, a), m + 1 + |Print(a, 2)|))
  {
    var u := us[m];
    assert u.str[..u.len] == if orEqual then "<=" else "<";
    ParseOneOperator(b, a, LevelOp(1, us[m]).value, 1, us, 0, m, m + 1 + |Print(a, 2)|);
  }

  /** `a > b` and `b < a` (and `a >= b` and `b <= a`) give the same tree: the parser keeps no
      greater-than node, it swaps the operands. */
  lemma GreaterIsSwappedLess(a: Node, b: Node, ts: seq<Token>, j: nat, us: seq<Token>, m: nat,
                             orEqual: bool)
    requires ValidStream(ts) && ValidStream(us) && IsArith(a) && IsArith(b)
    requires j == |Print(a, 2)| && j + 1 + |Print(b, 2)| < |ts|
    requires At(ts, 0, Print(a, 2)) && At(ts, j + 1, Print(b, 2))
    requires Matches(ts[j], if orEqual then ">=" else ">")
    requires Stops(ts[j + 1 + |Print(b, 2)|], 1)
    requires m == |Print(b, 2)| && m + 1 + |Print(a, 2)| < |us|
    requires At(us, 0, Print(b, 2)) && At(us, m + 1, Print(a, 2))
    requires Matches(us[m], if orEqual then "<=" else "<")
    requires Stops(us[m + 1 + |Print(a, 2)|], 1)
    ensures Binary(ts, 0, 1).Ok? && Binary(us, 0, 1).Ok?
    ensures Binary(ts, 0, 1).value.node == Binary(us, 0, 1).value.node
  {
    GreaterParsesSwapped(a, b, ts, j, orEqual);
    LessParses(a, b, us, m, orEqual);
  }

  /** A unary `+` is dropped: `+x` parses to the tree of x. */
  lemma UnaryPlusDropped(e: Node, ts: seq<Token>, i: nat)
    requires ValidStream(ts) && IsArith(e) && i < |ts| && Matches(ts[i], "+")
    requires i + 1 + |Print(e, 4)| < |ts| && At(ts, i + 1, Print(e, 4))
    ensures Operand(ts, i, 4) == Ok(Parsed(e, i + 1 + |Print(e, 4)|))
  {
    ParsePrint(e, 4, ts, i + 1);
  }

  /** A unary `-` is a subtraction from zero: `-x` parses to `0 - x`. */
  lemma UnaryMinusSubtracts(e: Node, ts: seq<Token>, i: nat)
    requires ValidStream(ts) && IsArith(e) && i < |ts| && Matches(ts[i], "-")
    requires i + 1 + |Print(e, 4)| < |ts| && At(ts, i + 1, Print(e, 4))
    ensures Operand(ts, i, 4) == Ok(Parsed(Bin(Sub, Num(0), e), i + 1 + |Print(e, 4)|))
  {
    assert !Matches(ts[i], "+") by {
      var t := ts[i];
      assert t.str[..t.len] == "-";
    }
    ParsePrint(e, 4, ts, i + 1);
  }

  /** An identifier reaching the expression parser (parse.c's tokenizer makes them, its parser
      has no rule for them) stops it with `expect_number`'s error at the identifier, whatever
      the level. */
  lemma {:induction false} IdentifierRejected(ts: seq<Token>, i: nat, l: nat)
    requires ValidStream(ts) && i < |ts| && ts[i].kind == Ident && l <= 5
    ensures Operand(ts, i, l) == Err(NotANumber(i))
    decreases 5 - l
  {
    if l <= 3 {
      IdentifierRejected(ts, i, l + 1);
      assert Binary(ts, i, l) == Err(NotANumber(i));
    } else if l == 4 {
      UnaryIsPrimary(ts, i);
    }
  }

  /** Equal operators chain to the left: `x op y op' z` with op and op' of one level is
      `(x op y) op' z`. */
  lemma ChainsLeft(x: int, y: int, z: int, op: BinOp, op': BinOp)
    requires Prec(op) == Prec(op')
    ensures Expr(Program([SNum(x), SOp(op), SNum(y), SOp(op'), SNum(z)]), 0)
            == Ok(Parsed(Bin(op', Bin(op, Num(x), Num(y)), Num(z)), 5))
  {
    var e := Bin(op', Bin(op, Num(x), Num(y)), Num(z));
    assert IsArith(Num(x)) && IsArith(Num(y)) && IsArith(Num(z));
    assert IsArith(Bin(op, Num(x), Num(y)));
    assert Print(Num(x), Prec(op)) == [SNum(x)] && Print(Num(y), Prec(op) + 1) == [SNum(y)];
    assert Print(Bin(op, Num(x), Num(y)), Prec(op')) == [SNum(x)] + [SOp(op)] + [SNum(y)];
    assert Print(Num(z), Prec(op') + 1) == [SNum(z)];
    assert Print(e, 0) == [SNum(x), SOp(op), SNum(y)] + [SOp(op')] + [SNum(z)];
    assert Print(e, 0) == [SNum(x), SOp(op), SNum(y), SOp(op'), SNum(z)];
    RoundTrip(e);
  }

  /** A tighter operator takes its operands first, on either side: with op binding less
      tightly than op', `x op y op' z` is `x op (y op' z)` and `x op' y op z` is
      `(x op' y) op z`. */
  lemma TighterFirst(x: int, y: int, z: int, op: BinOp, op': BinOp)
    requires Prec(op) < Prec(op')
    ensures Expr(Program([SNum(x), SOp(op), SNum(y), SOp(op'), SNum(z)]), 0)
            == Ok(Parsed(Bin(op, Num(x), Bin(op', Num(y), Num(z))), 5))
    ensures Expr(Program([SNum(x), SOp(op'), SNum(y), SOp(op), SNum(z)]), 0)
            == Ok(Parsed(Bin(op, Bin(op', Num(x), Num(y)), Num(z)), 5))
  {
    var e := Bin(op, Num(x), Bin(op', Num(y), Num(z)));
    assert IsArith(Num(x)) && IsArith(Num(y)) && IsArith(Num(z));
    assert IsArith(Bin(op', Num(y), Num(z)));
    assert Print(Bin(op', Num(y), Num(z)), Prec(op) + 1) == [SNum(y), SOp(op'), SNum(z)];
    assert Print(e, 0) == [SNum(x)] + [SOp(op)] + [SNum(y), SOp(op'), SNum(z)];
    assert Print(e, 0) == [SNum(x), SOp(op), SNum(y), SOp(op'), SNum(z)];
    RoundTrip(e);
    var f := Bin(op, Bin(op', Num(x), Num(y)), Num(z));
    assert IsArith(Num(x)) && IsArith(Num(y)) && IsArith(Num(z));
    assert IsArith(Bin(op', Num(x), Num(y)));
    assert Print(Bin(op', Num(x), Num(y)), Prec(op)) == [SNum(x), SOp(op'), SNum(y)];
    assert Print(f, 0) == [SNum(x), SOp(op'), SNum(y)] + [SOp(op)] + [SNum(z)];
    assert Print(f, 0) == [SNum(x), SOp(op'), SNum(y), SOp(op), SNum(z)];
    RoundTrip(f);
  }
}
