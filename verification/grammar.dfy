/** The expression grammar of 9cc.c and parse.c (the two files hold the same parser) as pure
    recursive functions over a token list and a cursor position. `Parser` runs the same grammar
    imperatively and is proved to agree with these functions.

      expr       = equality
      equality   = relational ("==" relational | "!=" relational)*
      relational = add ("<" add | "<=" add | ">" add | ">=" add)*
      add        = mul ("+" mul | "-" mul)*
      mul        = unary ("*" unary | "/" unary)*
      unary      = ("+" | "-")? primary
      primary    = num | "(" expr ")"

    The four binary rules are one function, `Binary`, indexed by a level: 0 equality,
    1 relational, 2 add, 3 mul; level 4 is `unary` and level 5 `primary`. */
module Grammar {
  import opened Base
  import opened Ast

  /** Why parsing stops, with the position of the offending token: `expect` meeting something
      other than its operator, or `expect_number` meeting something other than a number. */
  datatype ParseError = Expected(op: string, at: nat) | NotANumber(at: nat)

  /** A parsed tree and the position of the first token after it. */
  datatype Parsed = Parsed(node: Node, next: nat)

  /** The test of `consume` and `expect`: a reserved token whose text is exactly `op`. */
  predicate Matches(t: Token, op: string)
  {
    t.kind == Reserved && |op| == t.len && t.len <= |t.str| && t.str[..t.len] == op
  }

  /** The operators tried by the loop of a binary level, and the node each one builds: the
      kind, and whether the operands are swapped (`>` and `>=`). */
  function LevelOp(level: nat, t: Token): Option<(BinOp, bool)>
  {
    if level == 0 then
      if Matches(t, "==") then Some((Eq, false))
      else if Matches(t, "!=") then Some((Ne, false))
      else None
    else if level == 1 then
      if Matches(t, "<") then Some((Lt, false))
      else if Matches(t, "<=") then Some((Le, false))
      else if Matches(t, ">") then Some((Lt, true))
      else if Matches(t, ">=") then Some((Le, true))
      else None
    else if level == 2 then
      if Matches(t, "+") then Some((Add, false))
      else if Matches(t, "-") then Some((Sub, false))
      else None
    else if level == 3 then
      if Matches(t, "*") then Some((Mul, false))
      else if Matches(t, "/") then Some((Div, false))
      else None
    else
      None
  }

  /** `new_node(kind, node, rhs)`, or `new_node(kind, rhs, node)` for the swapped operators. */
  function Combine(op: (BinOp, bool), acc: Node, rhs: Node): Node
  {
    if op.1 then Bin(op.0, rhs, acc) else Bin(op.0, acc, rhs)
  }

  /** The error positions: `expect(")")` fails at a token that is not `)`, `expect_number` at a
      token that is neither a number nor (having been tried first) `(`. */
  predicate ErrorAt(ts: seq<Token>, e: ParseError)
  {
    match e
    case Expected(op, k) => op == ")" && k < |ts| && !Matches(ts[k], ")")
    case NotANumber(k) =>
      k < |ts| && ts[k].kind != Number && !Matches(ts[k], "(")
  }

  /** The rule of the given level at position i: `Binary` for levels 0 to 3, then `Unary`, then
      `Primary`. A success consumes at least one token and never the end-of-input token; a
      failure points at a token at or after i. */
  function Operand(ts: seq<Token>, i: nat, level: nat): (r: Result<Parsed, ParseError>)
    requires ValidStream(ts) && i < |ts| && level <= 5
    ensures r.Ok? ==> i < r.value.next < |ts|
    ensures r.Err? ==> ErrorAt(ts, r.error) && i <= r.error.at
    decreases |ts| - i, 6 - level, 2
  {
    if level <= 3 then Binary(ts, i, level)
    else if level == 4 then Unary(ts, i)
    else Primary(ts, i)
  }

  /** `equality`, `relational`, `add` and `mul`: one operand of the next level, then the loop. */
  function Binary(ts: seq<Token>, i: nat, level: nat): (r: Result<Parsed, ParseError>)
    requires ValidStream(ts) && i < |ts| && level <= 3
    ensures r.Ok? ==> i < r.value.next < |ts|
    ensures r.Err? ==> ErrorAt(ts, r.error) && i <= r.error.at
    decreases |ts| - i, 6 - level, 1
  {
    var first :- Operand(ts, i, level + 1);
    Loop(ts, first.next, level, first.node)
  }

  /** The `for (;;)` loop of a binary level at position j with the tree `acc` built so far:
      while the token is one of the level's operators, consume it, parse the next operand and
      combine; otherwise return the tree. */
  function Loop(ts: seq<Token>, j: nat, level: nat, acc: Node): (r: Result<Parsed, ParseError>)
    requires ValidStream(ts) && j < |ts| && level <= 3
    ensures r.Ok? ==> j <= r.value.next < |ts|
    ensures r.Err? ==> ErrorAt(ts, r.error) && j <= r.error.at
    decreases |ts| - j, 6 - level, 0
  {
    match LevelOp(level, ts[j])
    case None => Ok(Parsed(acc, j))
    case Some(op) =>
      var rhs :- Operand(ts, j + 1, level + 1);
      Loop(ts, rhs.next, level, Combine(op, acc, rhs.node))
  }

  /** `unary`: a `+` is dropped, a `-` becomes a subtraction from 0, anything else is a
      primary. */
  function Unary(ts: seq<Token>, i: nat): (r: Result<Parsed, ParseError>)
    requires ValidStream(ts) && i < |ts|
    ensures r.Ok? ==> i < r.value.next < |ts|
    ensures r.Err? ==> ErrorAt(ts, r.error) && i <= r.error.at
    decreases |ts| - i, 1, 1
  {
    if Matches(ts[i], "+") then
      Unary(ts, i + 1)
    else if Matches(ts[i], "-") then
      var x :- Unary(ts, i + 1);
      Ok(Parsed(Bin(Sub, Num(0), x.node), x.next))
    else
      Primary(ts, i)
  }

  /** `primary`: a parenthesised expression or a number. */
  function Primary(ts: seq<Token>, i: nat): (r: Result<Parsed, ParseError>)
    requires ValidStream(ts) && i < |ts|
    ensures r.Ok? ==> i < r.value.next < |ts|
    ensures r.Err? ==> ErrorAt(ts, r.error) && i <= r.error.at
    decreases |ts| - i, 0, 0
  {
    if Matches(ts[i], "(") then
      var e :- Binary(ts, i + 1, 0);
      if Matches(ts[e.next], ")") then Ok(Parsed(e.node, e.next + 1))
      else Err(Expected(")", e.next))
    else if ts[i].kind == Number then
      Ok(Parsed(Num(ts[i].val), i + 1))
    else
      Err(NotANumber(i))
  }

  /** `expr`. */
  function Expr(ts: seq<Token>, i: nat): (r: Result<Parsed, ParseError>)
    requires ValidStream(ts) && i < |ts|
    ensures r.Ok? ==> i < r.value.next < |ts|
    ensures r.Err? ==> ErrorAt(ts, r.error) && i <= r.error.at
  {
    Binary(ts, i, 0)
  }
  // ---------------------------------------------------------------------------------------
  // One step of each rule, for proofs that follow the parser token by token.

  lemma OperandIsBinary(ts: seq<Token>, i: nat, level: nat)
    requires ValidStream(ts) && i < |ts| && level <= 3
    ensures Operand(ts, i, level) == Binary(ts, i, level)
  {
  }

  lemma BinaryStep(ts: seq<Token>, i: nat, level: nat, x: Node, k: nat)
    requires ValidStream(ts) && i < |ts| && level <= 3
    requires Operand(ts, i, level + 1) == Ok(Parsed(x, k))
    ensures k < |ts| && Binary(ts, i, level) == Loop(ts, k, level, x)
  {
  }

  lemma LoopStop(ts: seq<Token>, j: nat, level: nat, acc: Node)
    requires ValidStream(ts) && j < |ts| && level <= 3 && LevelOp(level, ts[j]).None?
    ensures Loop(ts, j, level, acc) == Ok(Parsed(acc, j))
  {
  }

  lemma LoopStep(ts: seq<Token>, j: nat, level: nat, acc: Node, y: Node, k: nat)
    requires ValidStream(ts) && j + 1 < |ts| && level <= 3 && LevelOp(level, ts[j]).Some?
    requires Operand(ts, j + 1, level + 1) == Ok(Parsed(y, k))
    ensures k < |ts|
    ensures Loop(ts, j, level, acc) == Loop(ts, k, level, Combine(LevelOp(level, ts[j]).value, acc, y))
  {
  }

  lemma LoopTurn(ts: seq<Token>, j: nat, level: nat, acc: Node)
    requires ValidStream(ts) && j < |ts| && level <= 3 && LevelOp(level, ts[j]).Some?
    ensures j + 1 < |ts|
    ensures Operand(ts, j + 1, level + 1).Err? ==>
              Loop(ts, j, level, acc) == Err(Operand(ts, j + 1, level + 1).error)
    ensures Operand(ts, j + 1, level + 1).Ok? ==>
              Loop(ts, j, level, acc) ==
              Loop(ts, Operand(ts, j + 1, level + 1).value.next, level,
                   Combine(LevelOp(level, ts[j]).value, acc, Operand(ts, j + 1, level + 1).value.node))
  {
  }

  lemma UnaryIsPrimary(ts: seq<Token>, i: nat)
    requires ValidStream(ts) && i < |ts| && !Matches(ts[i], "+") && !Matches(ts[i], "-")
    ensures Operand(ts, i, 4) == Unary(ts, i) == Primary(ts, i)
  {
  }

  lemma PrimaryParenthesised(ts: seq<Token>, i: nat, e: Node, k: nat)
    requires ValidStream(ts) && i + 1 < |ts| && Matches(ts[i], "(")
    requires Binary(ts, i + 1, 0) == Ok(Parsed(e, k)) && Matches(ts[k], ")")
    ensures Primary(ts, i) == Ok(Parsed(e, k + 1))
  {
  }
}
