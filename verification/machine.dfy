/** An abstract x86-64 machine for the straight-line part of the generated code, and the
    meaning the generated code is meant to have: `Eval`. The machine has an operand stack (what
    `push` and `pop` use), registers, the `al` byte that `set` writes, the operands of the last
    `cmp`, and a memory for local variables. Integers are unbounded; jumps, calls and anything
    else the expression code does not use stop the machine (`None`), as does a fault: popping
    an empty stack, loading from memory never written, or dividing by zero. Registers always hold some value. */
module Machine {
  import opened Base
  import opened Ast
  import opened Asm

  function Abs(x: int): nat
  {
    if x < 0 then -x else x
  }

  /** `idiv`: the quotient rounded toward zero. */
  function TruncDiv(a: int, b: int): int
    requires b != 0
  {
    var q := Abs(a) / Abs(b);
    if (a < 0) == (b < 0) then q else -q
  }

  /** `idiv`'s remainder (left in rdx). */
  function TruncRem(a: int, b: int): int
    requires b != 0
  {
    a - b * TruncDiv(a, b)
  }

  lemma NatDivision(x: nat, y: nat)
    requires y > 0
    ensures x == y * (x / y) + x % y && 0 <= x % y < y
    ensures x / y >= 0 && (x / y > 0 <==> x >= y)
  {
  }

  /** Rounding toward zero: the quotient's size is that of the quotient of the sizes, its sign
      is negative exactly when the signs differ and it is not zero; the remainder is smaller
      than the divisor and takes the dividend's sign. */
  lemma TruncDivRounds(a: int, b: int)
    requires b != 0
    ensures Abs(TruncDiv(a, b)) == Abs(a) / Abs(b)
    ensures TruncDiv(a, b) < 0 <==> (Abs(a) >= Abs(b) && (a < 0) != (b < 0))
    ensures a == b * TruncDiv(a, b) + TruncRem(a, b)
    ensures Abs(TruncRem(a, b)) < Abs(b)
    ensures TruncRem(a, b) == 0 || (TruncRem(a, b) < 0 <==> a < 0)
  {
    var x: int, y: int := Abs(a), Abs(b);
    var q: int, r: int := x / y, x % y;
    NatDivision(x, y);
    var d := TruncDiv(a, b);
    if a >= 0 && b > 0 {
      assert d == q && a == x && b == y;
      assert TruncRem(a, b) == r;
    } else if a < 0 && b < 0 {
      assert d == q && a == -x && b == -y;
      assert b * d == -(y * q);
      assert TruncRem(a, b) == -r;
    } else if a >= 0 {
      assert d == -q && a == x && b == -y;
      assert b * d == y * q;
      assert TruncRem(a, b) == r;
    } else {
      assert d == -q && a == -x && b == y;
      assert b * d == -(y * q);
      assert TruncRem(a, b) == -r;
    }
  }

  /** What `set` tests on the operands of the last `cmp` (signed). */
  predicate Holds(cc: Cond, flags: (int, int))
  {
    match cc
    case E => flags.0 == flags.1
    case NE => flags.0 != flags.1
    case L => flags.0 < flags.1
    case LE => flags.0 <= flags.1
  }

  /** The byte `set` writes: 1 when the condition holds, 0 otherwise. */
  function Flag(cc: Cond, flags: (int, int)): int
  {
    if Holds(cc, flags) then 1 else 0
  }

  /** The machine: the operand stack (the top is the last element; rsp is implicit in it),
      the registers the generated code uses, the `al` byte, the operands of the last `cmp`, and
      the memory holding local variables. */
  datatype State = State(stack: seq<int>, rax: int, rdi: int, rsi: int, rdx: int, rcx: int,
                         r8: int, r9: int, rbp: int, al: int, flags: (int, int), mem: map<int, int>)

  function Get(s: State, r: Reg): int
    requires r != Rsp
  {
    match r
    case Rax => s.rax
    case Rdi => s.rdi
    case Rsi => s.rsi
    case Rdx => s.rdx
    case Rcx => s.rcx
    case R8 => s.r8
    case R9 => s.r9
    case Rbp => s.rbp
  }

  function Put(s: State, r: Reg, v: int): (t: State)
    requires r != Rsp
    ensures Get(t, r) == v
    ensures forall q :: q != Rsp && q != r ==> Get(t, q) == Get(s, q)
    ensures t.stack == s.stack && t.al == s.al && t.flags == s.flags && t.mem == s.mem
  {
    match r
    case Rax => s.(rax := v)
    case Rdi => s.(rdi := v)
    case Rsi => s.(rsi := v)
    case Rdx => s.(rdx := v)
    case Rcx => s.(rcx := v)
    case R8 => s.(r8 := v)
    case R9 => s.(r9 := v)
    case Rbp => s.(rbp := v)
  }

  /** One instruction. */
  function Step(i: Instr, s: State): Option<State>
  {
    match i
    case PushImm(v) => Some(s.(stack := s.stack + [v]))
    case Push(r) => if r == Rsp then None else Some(s.(stack := s.stack + [Get(s, r)]))
    case Pop(r) =>
      if |s.stack| == 0 || r == Rsp then None
      else Some(Put(s.(stack := s.stack[..|s.stack| - 1]), r, s.stack[|s.stack| - 1]))
    case LeaLocal(off) => Some(s.(rax := s.rbp - off))
    case Load => if s.rax in s.mem then Some(s.(rax := s.mem[s.rax])) else None
    case Store => Some(s.(mem := s.mem[s.rax := s.rdi]))
    case MovImm(r, v) => if r == Rsp then None else Some(Put(s, r, v))
    case AddRsp(n) =>
      if 0 <= n && n % 8 == 0 && n / 8 <= |s.stack| then Some(s.(stack := s.stack[..|s.stack| - n / 8]))
      else None
    case AddRdi => Some(s.(rax := s.rax + s.rdi))
    case SubRdi => Some(s.(rax := s.rax - s.rdi))
    case ImulRdi => Some(s.(rax := s.rax * s.rdi))
    case Cqo => Some(s.(rdx := if s.rax < 0 then -1 else 0))
    case IdivRdi =>
      if s.rdi != 0 then Some(s.(rax := TruncDiv(s.rax, s.rdi)).(rdx := TruncRem(s.rax, s.rdi)))
      else None
    case CmpRdi => Some(s.(flags := (s.rax, s.rdi)))
    case CmpZero => Some(s.(flags := (s.rax, 0)))
    case Set(cc) => Some(s.(al := Flag(cc, s.flags)))
    case Movzb => Some(s.(rax := s.al))
    case _ => None
  }

  /** The code from first instruction to last; `None` as soon as one instruction stops. */
  function Run(code: seq<Instr>, s: State): Option<State>
  {
    if |code| == 0 then Some(s)
    else
      match Step(code[0], s)
      case None => None
      case Some(t) => Run(code[1..], t)
  }

  /** One, two and three instructions in a row: each one runs on what the one before left. */
  lemma RunOne(i: Instr, s: State)
    ensures Run([i], s) == Step(i, s)
  {
    if Step(i, s).Some? {
      assert Run([i][1..], Step(i, s).value) == Step(i, s);
    }
  }

  lemma RunTwo(i: Instr, j: Instr, s: State)
    ensures Run([i, j], s) == match Step(i, s) case None => None case Some(s1) => Step(j, s1)
  {
    assert [i, j][1..] == [j];
    if Step(i, s).Some? {
      RunOne(j, Step(i, s).value);
    }
  }

  lemma RunThree(i: Instr, j: Instr, k: Instr, s: State)
    ensures Run([i, j, k], s) ==
              match Step(i, s)
              case None => None
              case Some(s1) =>
                match Step(j, s1)
                case None => None
                case Some(s2) => Step(k, s2)
  {
    assert [i, j, k][1..] == [j, k];
    if Step(i, s).Some? {
      RunTwo(j, k, Step(i, s).value);
    }
  }

  lemma {:induction false} RunCat(a: seq<Instr>, b: seq<Instr>, s: State)
    ensures Run(a + b, s) == match Run(a, s) case None => None case Some(t) => Run(b, t)
    decreases |a|
  {
    if |a| == 0 {
      assert a + b == b;
    } else {
      assert (a + b)[0] == a[0] && (a + b)[1..] == a[1..] + b;
      if Step(a[0], s).Some? {
        RunCat(a[1..], b, Step(a[0], s).value);
      }
    }
  }

  /** An instruction that runs changes the depth of the stack by its effect. */
  lemma StepDepth(i: Instr, s: State)
    requires Step(i, s).Some?
    ensures |Step(i, s).value.stack| == |s.stack| + Effect(i)
  {
  }

  /** The stack effect is what running does to the depth of the stack. */
  lemma {:induction false} RunDepth(code: seq<Instr>, s: State)
    requires Run(code, s).Some?
    ensures |Run(code, s).value.stack| == |s.stack| + StackEffect(code)
    decreases |code|
  {
    if |code| > 0 {
      var t := Step(code[0], s).value;
      StepDepth(code[0], s);
      RunDepth(code[1..], t);
    }
  }

  /** A binary operator on values; `None` for a division by zero. */
  function Apply(op: BinOp, x: int, y: int): Option<int>
  {
    match op
    case Add => Some(x + y)
    case Sub => Some(x - y)
    case Mul => Some(x * y)
    case Div => if y == 0 then None else Some(TruncDiv(x, y))
    case Eq => Some(if x == y then 1 else 0)
    case Ne => Some(if x != y then 1 else 0)
    case Lt => Some(if x < y then 1 else 0)
    case Le => Some(if x <= y then 1 else 0)
  }

  /** The value of a tree of numbers and binary operators; `None` if it divides by zero. */
  function Value(e: Node): Option<int>
    requires IsArith(e)
  {
    match e
    case Num(v) => Some(v)
    case Bin(op, a, b) =>
      match Value(a)
      case None => None
      case Some(x) =>
        match Value(b)
        case None => None
        case Some(y) => Apply(op, x, y)
  }

  /** The value of an expression with local variables, and the memory after it, the left
      operand evaluated first. A local i lives at `rbp - offsets[i]`; reading one never written
      is `None`, as is dividing by zero and anything that is not an expression of numbers,
      locals, assignments to a local and binary operators. */
  function Eval(e: Node, rbp: int, offsets: seq<int>, mem: map<int, int>): Option<(int, map<int, int>)>
  {
    match e
    case Num(v) => Some((v, mem))
    case LVar(i) =>
      if i < |offsets| && rbp - offsets[i] in mem then Some((mem[rbp - offsets[i]], mem)) else None
    case Assign(l, r) =>
      if l.LVar? && l.index < |offsets| then
        (match Eval(r, rbp, offsets, mem)
         case None => None
         case Some(p) => Some((p.0, p.1[rbp - offsets[l.index] := p.0])))
      else None
    case Bin(op, a, b) =>
      (match Eval(a, rbp, offsets, mem)
       case None => None
       case Some(p) =>
         match Eval(b, rbp, offsets, p.1)
         case None => None
         case Some(q) =>
           match Apply(op, p.0, q.0)
           case None => None
           case Some(z) => Some((z, q.1)))
    case _ => None
  }

  /** Without locals, `Eval` is `Value` and leaves the memory alone. */
  lemma {:induction false} EvalArith(e: Node, rbp: int, offsets: seq<int>, mem: map<int, int>)
    requires IsArith(e)
    ensures Eval(e, rbp, offsets, mem) == match Value(e) case None => None case Some(v) => Some((v, mem))
  {
    if e.Bin? {
      EvalArith(e.lhs, rbp, offsets, mem);
      EvalArith(e.rhs, rbp, offsets, mem);
    }
  }
}
