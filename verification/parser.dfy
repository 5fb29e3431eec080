/** The recursive-descent parser of parse.c (9cc.c holds the same code) as it runs: a class
    whose one piece of state is the cursor `token`, here the position `pos` in the token list.
    Each method is proved to compute what the grammar function of the same rule computes, and
    to leave the cursor where that function says parsing stopped. The C program reports an
    error and exits; here a method returns the error, and its caller returns it in turn. */
module Parse {
  import opened Base
  import opened Ast
  import opened Grammar

  /** The method's outcome r, with the cursor at pos, is the grammar's: the same tree and the
      cursor after it, or the same error. */
  predicate Agrees(r: Result<Node, ParseError>, pos: nat, g: Result<Parsed, ParseError>)
  {
    match g
    case Ok(p) => r == Ok(p.node) && pos == p.next
    case Err(e) => r == Err(e)
  }

  /** One turn of a binary level's loop, as the methods take it: the operator at j was
      consumed, the operand after it parsed to rhs with the cursor at pos. An error ends the
      level with that error; a tree continues the loop at pos with the combined node. */
  lemma Turned(ts: seq<Token>, start: nat, j: nat, level: nat, acc: Node, op: (BinOp, bool),
               rhs: Result<Node, ParseError>, pos: nat)
    requires ValidStream(ts) && start < |ts| && j < |ts| && level <= 3
    requires Binary(ts, start, level) == Loop(ts, j, level, acc)
    requires LevelOp(level, ts[j]) == Some(op)
    requires j + 1 < |ts|
    requires Agrees(rhs, pos, Operand(ts, j + 1, level + 1))
    ensures rhs.Err? ==> Agrees(Err(rhs.error), pos, Binary(ts, start, level))
    ensures rhs.Ok? ==> pos < |ts| && Binary(ts, start, level) == Loop(ts, pos, level, Combine(op, acc, rhs.value))
  {
    LoopTurn(ts, j, level, acc);
  }

  /** Which operator a token is, for each level, in the order the loops try them. */
  lemma EqualityOps(t: Token)
    ensures Matches(t, "==") ==> LevelOp(0, t) == Some((Eq, false))
    ensures !Matches(t, "==") && Matches(t, "!=") ==> LevelOp(0, t) == Some((Ne, false))
    ensures !Matches(t, "==") && !Matches(t, "!=") ==> LevelOp(0, t).None?
  {
  }

  lemma RelationalOps(t: Token)
    ensures Matches(t, "<") ==> LevelOp(1, t) == Some((Lt, false))
    ensures !Matches(t, "<") && Matches(t, "<=") ==> LevelOp(1, t) == Some((Le, false))
    ensures !Matches(t, "<") && !Matches(t, "<=") && Matches(t, ">") ==> LevelOp(1, t) == Some((Lt, true))
    ensures !Matches(t, "<") && !Matches(t, "<=") && !Matches(t, ">") && Matches(t, ">=") ==>
              LevelOp(1, t) == Some((Le, true))
    ensures !Matches(t, "<") && !Matches(t, "<=") && !Matches(t, ">") && !Matches(t, ">=") ==>
              LevelOp(1, t).None?
  {
  }

  lemma AddOps(t: Token)
    ensures Matches(t, "+") ==> LevelOp(2, t) == Some((Add, false))
    ensures !Matches(t, "+") && Matches(t, "-") ==> LevelOp(2, t) == Some((Sub, false))
    ensures !Matches(t, "+") && !Matches(t, "-") ==> LevelOp(2, t).None?
  {
  }

  lemma MulOps(t: Token)
    ensures Matches(t, "*") ==> LevelOp(3, t) == Some((Mul, false))
    ensures !Matches(t, "*") && Matches(t, "/") ==> LevelOp(3, t) == Some((Div, false))
    ensures !Matches(t, "*") && !Matches(t, "/") ==> LevelOp(3, t).None?
  {
  }

  class Parser {
    /** The token list built by the tokenizer, ending with its end-of-input token. */
    const tokens: seq<Token>
    /** The token under the cursor (`token` in the C program). */
    var pos: nat

    ghost predicate Valid()
      reads this
    {
      ValidStream(tokens) && pos < |tokens|
    }

    /** The cursor on the first token. */
    constructor (ts: seq<Token>)
      requires ValidStream(ts)
      ensures Valid() && tokens == ts && pos == 0
    {
      tokens := ts;
      pos := 0;
    }

    /** `consume`: the current token is the reserved operator op exactly (its length and its
        characters), and then the cursor moves past it; otherwise nothing moves. */
    method Consume(op: string) returns (b: bool)
      requires Valid()
      modifies this
      ensures Valid()
      ensures b == Matches(tokens[old(pos)], op)
      ensures pos == if b then old(pos) + 1 else old(pos)
    {
      var t := tokens[pos];
      b := t.kind == Reserved && |op| == t.len && t.len <= |t.str| && t.str[..t.len] == op;
      if b {
        pos := pos + 1;
      }
    }

    /** `expect`: like `consume`, but a token other than op is an error at that token. */
    method Expect(op: string) returns (r: Result<(), ParseError>)
      requires Valid()
      modifies this
      ensures Valid()
      ensures r.Ok? == Matches(tokens[old(pos)], op)
      ensures r.Ok? ==> pos == old(pos) + 1
      ensures r.Err? ==> r.error == Expected(op, old(pos)) && pos == old(pos)
    {
      var t := tokens[pos];
      if !(t.kind == Reserved && |op| == t.len && t.len <= |t.str| && t.str[..t.len] == op) {
        return Err(Expected(op, pos));
      }
      pos := pos + 1;
      r := Ok(());
    }

    /** `expect_number`: a number token gives its value and the cursor moves past it; any
        other token is an error at that token. */
    method ExpectNumber() returns (r: Result<int, ParseError>)
      requires Valid()
      modifies this
      ensures Valid()
      ensures tokens[old(pos)].kind == Number ==> r == Ok(tokens[old(pos)].val) && pos == old(pos) + 1
      ensures tokens[old(pos)].kind != Number ==> r == Err(NotANumber(old(pos))) && pos == old(pos)
    {
      var t := tokens[pos];
      if t.kind != Number {
        return Err(NotANumber(pos));
      }
      pos := pos + 1;
      r := Ok(t.val);
    }

    /** `at_eof`: the cursor is on the end-of-input token, which is the last one. */
    function AtEof(): (b: bool)
      reads this
      requires Valid()
      ensures b <==> pos == |tokens| - 1
    {
      tokens[pos].kind == Eof
    }

    /** `expr`. */
    method Expr() returns (r: Result<Node, ParseError>)
      requires Valid()
      modifies this
      ensures Valid() && old(pos) <= pos
      ensures Agrees(r, pos, Grammar.Expr(tokens, old(pos)))
      decreases |tokens| - pos, 7, 2
    {
      r := Equality();
    }

    /** One line of a binary level's loop, `if (consume(op)) node = new_node(kind, node, next())`:
        on the operator op the cursor moves past it, the operand of the next level is parsed and
        combined with node (operands swapped for `>` and `>=`); on any other token nothing
        moves and taken is false. start is where the level began, so that the loop's progress
        can be stated against the grammar. */
    method Turn(level: nat, op: string, kind: (BinOp, bool), ghost start: nat, node: Node)
      returns (taken: bool, r: Result<Node, ParseError>)
      requires Valid() && level <= 3 && start < |tokens|
      requires Binary(tokens, start, level) == Loop(tokens, pos, level, node)
      requires Matches(tokens[pos], op) ==> LevelOp(level, tokens[pos]) == Some(kind)
      modifies this
      ensures Valid() && old(pos) <= pos
      ensures taken == Matches(tokens[old(pos)], op)
      ensures !taken ==> pos == old(pos)
      ensures taken && r.Err? ==> Agrees(r, pos, Binary(tokens, start, level))
      ensures taken && r.Ok? ==>
                old(pos) < pos && Binary(tokens, start, level) == Loop(tokens, pos, level, r.value)
      decreases |tokens| - pos, 6 - level, 1
    {
      var j := pos;
      taken := Consume(op);
      if !taken {
        return false, Ok(node);
      }
      var rhs := Next(level);
      Turned(tokens, start, j, level, node, kind, rhs, pos);
      if rhs.Err? {
        return true, Err(rhs.error);
      }
      r := Ok(Combine(kind, node, rhs.value));
    }

    /** The rule one level below a binary level: `relational` below `equality`, then `add`,
        `mul` and `unary`. */
    method Next(level: nat) returns (r: Result<Node, ParseError>)
      requires Valid() && level <= 3
      modifies this
      ensures Valid() && old(pos) <= pos
      ensures Agrees(r, pos, Operand(tokens, old(pos), level + 1))
      decreases |tokens| - pos, 6 - level, 0
    {
      if level == 0 {
        r := Relational();
      } else if level == 1 {
        r := Add();
      } else if level == 2 {
        r := Mul();
      } else {
        r := Unary();
      }
    }

    /** `equality`: a relational operand, then `==` and `!=` turns, left to right. */
    method Equality() returns (r: Result<Node, ParseError>)
      requires Valid()
      modifies this
      ensures Valid() && old(pos) <= pos
      ensures Agrees(r, pos, Binary(tokens, old(pos), 0))
      decreases |tokens| - pos, 6, 2
    {
      var start := pos;
      var first := Relational();
      if first.Err? {
        return Err(first.error);
      }
      var node := first.value;
      BinaryStep(tokens, start, 0, node, pos);
      while true
        invariant Valid() && start < pos
        invariant Binary(tokens, start, 0) == Loop(tokens, pos, 0, node)
        decreases |tokens| - pos
      {
        EqualityOps(tokens[pos]);
        var taken, rhs := Turn(0, "==", (Eq, false), start, node);
        if !taken {
          taken, rhs := Turn(0, "!=", (Ne, false), start, node);
        }
        if !taken {
          LoopStop(tokens, pos, 0, node);
          return Ok(node);
        }
        if rhs.Err? {
          return rhs;
        }
        node := rhs.value;
      }
    }

    /** `relational`: an additive operand, then `<`, `<=`, `>` and `>=` turns; `>` and `>=`
        build `<` and `<=` nodes with the operands swapped. */
    method Relational() returns (r: Result<Node, ParseError>)
      requires Valid()
      modifies this
      ensures Valid() && old(pos) <= pos
      ensures Agrees(r, pos, Binary(tokens, old(pos), 1))
      decreases |tokens| - pos, 5, 2
    {
      var start := pos;
      var first := Add();
      if first.Err? {
        return Err(first.error);
      }
      var node := first.value;
      BinaryStep(tokens, start, 1, node, pos);
      while true
        invariant Valid() && start < pos
        invariant Binary(tokens, start, 1) == Loop(tokens, pos, 1, node)
        decreases |tokens| - pos
      {
        RelationalOps(tokens[pos]);
        var taken, rhs := Turn(1, "<", (Lt, false), start, node);
        if !taken {
          taken, rhs := Turn(1, "<=", (Le, false), start, node);
        }
        if !taken {
          taken, rhs := Turn(1, ">", (Lt, true), start, node);
        }
        if !taken {
          taken, rhs := Turn(1, ">=", (Le, true), start, node);
        }
        if !taken {
          LoopStop(tokens, pos, 1, node);
          return Ok(node);
        }
        if rhs.Err? {
          return rhs;
        }
        node := rhs.value;
      }
    }

    /** `add`: a multiplicative operand, then `+` and `-` turns. */
    method Add() returns (r: Result<Node, ParseError>)
      requires Valid()
      modifies this
      ensures Valid() && old(pos) <= pos
      ensures Agrees(r, pos, Binary(tokens, old(pos), 2))
      decreases |tokens| - pos, 4, 2
    {
      var start := pos;
      var first := Mul();
      if first.Err? {
        return Err(first.error);
      }
      var node := first.value;
      BinaryStep(tokens, start, 2, node, pos);
      while true
        invariant Valid() && start < pos
        invariant Binary(tokens, start, 2) == Loop(tokens, pos, 2, node)
        decreases |tokens| - pos
      {
        AddOps(tokens[pos]);
        var taken, rhs := Turn(2, "+", (BinOp.Add, false), start, node);
        if !taken {
          taken, rhs := Turn(2, "-", (Sub, false), start, node);
        }
        if !taken {
          LoopStop(tokens, pos, 2, node);
          return Ok(node);
        }
        if rhs.Err? {
          return rhs;
        }
        node := rhs.value;
      }
    }

    /** `mul`: a unary operand, then `*` and `/` turns. */
    method Mul() returns (r: Result<Node, ParseError>)
      requires Valid()
      modifies this
      ensures Valid() && old(pos) <= pos
      ensures Agrees(r, pos, Binary(tokens, old(pos), 3))
      decreases |tokens| - pos, 3, 2
    {
      var start := pos;
      var first := Unary();
      if first.Err? {
        return Err(first.error);
      }
      var node := first.value;
      BinaryStep(tokens, start, 3, node, pos);
      while true
        invariant Valid() && start < pos
        invariant Binary(tokens, start, 3) == Loop(tokens, pos, 3, node)
        decreases |tokens| - pos
      {
        MulOps(tokens[pos]);
        var taken, rhs := Turn(3, "*", (BinOp.Mul, false), start, node);
        if !taken {
          taken, rhs := Turn(3, "/", (Div, false), start, node);
        }
        if !taken {
          LoopStop(tokens, pos, 3, node);
          return Ok(node);
        }
        if rhs.Err? {
          return rhs;
        }
        node := rhs.value;
      }
    }

    /** `unary`: `+` is skipped, `-` makes a subtraction from 0, and both apply to a further
        unary; anything else is a primary. */
    method Unary() returns (r: Result<Node, ParseError>)
      requires Valid()
      modifies this
      ensures Valid() && old(pos) <= pos
      ensures Agrees(r, pos, Grammar.Unary(tokens, old(pos)))
      decreases |tokens| - pos, 2, 0
    {
      var plus := Consume("+");
      if plus {
        r := Unary();
        return;
      }
      var minus := Consume("-");
      if minus {
        var x := Unary();
        if x.Err? {
          return Err(x.error);
        }
        return Ok(Bin(Sub, Num(0), x.value));
      }
      r := Primary();
    }

    /** `primary`: `(` expr `)`, or a number. */
    method Primary() returns (r: Result<Node, ParseError>)
      requires Valid()
      modifies this
      ensures Valid() && old(pos) <= pos
      ensures Agrees(r, pos, Grammar.Primary(tokens, old(pos)))
      decreases |tokens| - pos, 1, 0
    {
      var open := Consume("(");
      if open {
        var node := Expr();
        if node.Err? {
          return Err(node.error);
        }
        var closed := Expect(")");
        if closed.Err? {
          return Err(closed.error);
        }
        return Ok(node.value);
      }
      var v := ExpectNumber();
      if v.Err? {
        return Err(v.error);
      }
      r := Ok(Num(v.value));
    }
  }
}
