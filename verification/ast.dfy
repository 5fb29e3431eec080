/** 9cc.h: the token and syntax-tree declarations shared by the lexer, the parser and the
    code generator. The linked lists of the C program (`Token.next`, `Node.next`) become
    sequences; `calloc`-allocated nodes become datatype values, which are never shared. */
module Ast {
  import opened Base

  /** TokenKind: the four token kinds and no others. */
  datatype TokenKind = Reserved | Ident | Number | Eof

  /** Token. `str` is what the C pointer designates: the rest of the input, from the token's
      first character to the end (the characters are not copied and not NUL-terminated at the
      token's end); `len` says how many of them belong to the token. `val` means something
      only for a `Number` token. */
  datatype Token = Token(kind: TokenKind, val: int, str: string, len: nat)

  /** The characters of a token: its span of the input. */
  function Lexeme(t: Token): string
    requires t.len <= |t.str|
  {
    t.str[..t.len]
  }

  /** A token list as the parser relies on it: every span lies inside the input, and exactly one
      end-of-input token, the last. */
  predicate ValidStream(ts: seq<Token>)
  {
    && |ts| > 0
    && ts[|ts| - 1].kind == Eof
    && (forall k :: 0 <= k < |ts| - 1 ==> ts[k].kind != Eof)
    && (forall k :: 0 <= k < |ts| ==> ts[k].len <= |ts[k].str|)
  }

  /** The binary node kinds. There is no greater-than kind: `Lt` and `Le` also stand for `>` and
      `>=` with their operands swapped. (9cc.c and parse.c call `Ne`, `Lt`, `Le` ND_NOT_EQ,
      ND_GE, ND_GE_EQ; 9cc.h and gen.c call them ND_NE, ND_LT, ND_LE.) */
  datatype BinOp = Add | Sub | Mul | Div | Eq | Ne | Lt | Le

  /** Node: every kind the code generator of gen.c switches on. `Num` and `Bin` are what
      `new_node_num` and `new_node` build; `val` exists only in `Num`. `LVar` refers to a local
      variable by its position in the function's list of locals. A missing `els`, `init`,
      `cond` or `inc` (a NULL pointer in C) is `None`. */
  datatype Node =
    | Num(val: int)
    | Bin(op: BinOp, lhs: Node, rhs: Node)
    | LVar(index: nat)
    | Assign(lhs: Node, rhs: Node)
    | ExprStmt(expr: Node)
    | Return(expr: Node)
    | If(cond: Node, thenBranch: Node, els: Option<Node>)
    | While(cond: Node, body: Node)
    | For(init: Option<Node>, loopCond: Option<Node>, inc: Option<Node>, body: Node)
    | Block(stmts: seq<Node>)
    | FunCall(funcname: string, args: seq<Node>)

  /** The trees the expression parser of 9cc.c and parse.c can build: numbers and binary nodes. */
  predicate IsArith(n: Node)
  {
    match n
    case Num(_) => true
    case Bin(_, l, r) => IsArith(l) && IsArith(r)
    case _ => false
  }
}
