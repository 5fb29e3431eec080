/** `gen` of 9cc.c: the code generator for the expression-only compiler. A number is pushed;
    a binary node generates its left operand, then its right, pops the right into rdi and the
    left into rax, computes into rax and pushes it. */
module Gen9cc {
  import opened Base
  import opened Ast
  import opened Asm
  import opened Machine

  /** The instructions that compute `rax op rdi` into rax; a comparison leaves 0 or 1. */
  function OpCode(op: BinOp): seq<Instr>
  {
    match op
    case Add => [AddRdi]
    case Sub => [SubRdi]
    case Mul => [ImulRdi]
    case Div => [Cqo, IdivRdi]
    case Eq => [CmpRdi, Set(E), Movzb]
    case Ne => [CmpRdi, Set(NE), Movzb]
    case Lt => [CmpRdi, Set(L), Movzb]
    case Le => [CmpRdi, Set(LE), Movzb]
  }

  /** What a binary node emits after its two operands. */
  function Tail(op: BinOp): seq<Instr>
  {
    [Pop(Rdi), Pop(Rax)] + OpCode(op) + [Push(Rax)]
  }

  function Gen(e: Node): seq<Instr>
    requires IsArith(e)
  {
    match e
    case Num(v) => [PushImm(v)]
    case Bin(op, a, b) => Gen(a) + Gen(b) + Tail(op)
  }

  /** t is s with v in rax, and the stack, the memory and rbp as they were. */
  ghost predicate Computed(s: State, t: State, v: int)
  {
    t.stack == s.stack && t.mem == s.mem && t.rax == v && t.rbp == s.rbp
  }

  /** The operator's code on a machine with x in rax and y in rdi stops exactly when the
      operator is undefined (a division by zero), and otherwise leaves its value in rax. */
  lemma OpCodeComputes(op: BinOp, s: State)
    ensures Run(OpCode(op), s).Some? <==> Apply(op, s.rax, s.rdi).Some?
    ensures Run(OpCode(op), s).Some? ==>
              Computed(s, Run(OpCode(op), s).value, Apply(op, s.rax, s.rdi).value)
  {
    if op.Add? || op.Sub? || op.Mul? {
      ArithRuns(op, s);
    } else if op.Div? {
      DivRuns(s);
    } else {
      SetRuns(OpCode(op)[1].cc, s);
    }
  }

  /** `add`, `sub` and `imul` replace rax by `rax op rdi`. */
  lemma ArithRuns(op: BinOp, s: State)
    requires op.Add? || op.Sub? || op.Mul?
    ensures Run(OpCode(op), s) == Some(s.(rax := Apply(op, s.rax, s.rdi).value))
  {
    match op
    case Add => RunOne(AddRdi, s);
    case Sub => RunOne(SubRdi, s);
    case Mul => RunOne(ImulRdi, s);
  }

  /** `cqo`, `idiv rdi` stop on a zero divisor; otherwise rax holds the quotient rounded toward
      zero and rdx the remainder. */
  lemma DivRuns(s: State)
    ensures Run(OpCode(Div), s) ==
              if s.rdi == 0 then None
              else Some(s.(rax := TruncDiv(s.rax, s.rdi)).(rdx := TruncRem(s.rax, s.rdi)))
  {
    var s1 := s.(rdx := if s.rax < 0 then -1 else 0);
    assert Step(Cqo, s) == Some(s1);
    RunTwo(Cqo, IdivRdi, s);
    if s.rdi != 0 {
      var q, r := TruncDiv(s.rax, s.rdi), TruncRem(s.rax, s.rdi);
      assert Step(IdivRdi, s1) == Some(s1.(rax := q).(rdx := r));
    }
  }

  /** `cmp rax, rdi`, `setCC al`, `movzb rax, al` leave 1 in rax when the condition holds of
      rax and rdi, and 0 otherwise. */
  lemma SetRuns(cc: Cond, s: State)
    ensures Run([CmpRdi, Set(cc), Movzb], s) ==
              Some(s.(flags := (s.rax, s.rdi)).(al := Flag(cc, (s.rax, s.rdi))).(rax := Flag(cc, (s.rax, s.rdi))))
  {
    RunThree(CmpRdi, Set(cc), Movzb, s);
  }

  /** With x and y on top of the stack, the tail replaces them by `x op y`, or stops when
      that is a division by zero. */
  lemma TailComputes(op: BinOp, s: State, rest: seq<int>, x: int, y: int)
    requires s.stack == rest + [x, y]
    ensures Run(Tail(op), s).Some? <==> Apply(op, x, y).Some?
    ensures Run(Tail(op), s).Some? ==>
              var t := Run(Tail(op), s).value;
              t.stack == rest + [Apply(op, x, y).value] && t.mem == s.mem
              && t.rbp == s.rbp
  {
    assert (rest + [x, y])[..|rest| + 1] == rest + [x];
    assert (rest + [x])[..|rest|] == rest;
    var pops := [Pop(Rdi), Pop(Rax)];
    var s1 := Step(Pop(Rdi), s).value;
    var s2 := Step(Pop(Rax), s1).value;
    assert Run(pops[2..], s2) == Some(s2);
    assert Run(pops[1..], s1) == Some(s2);
    assert s2.stack == rest && s2.rax == x && s2.rdi == y;
    OpCodeComputes(op, s2);
    RunCat(pops, OpCode(op), s);
    RunCat(pops + OpCode(op), [Push(Rax)], s);
    if Apply(op, x, y).Some? {
      var s3 := Run(OpCode(op), s2).value;
      assert Run([Push(Rax)][1..], Step(Push(Rax), s3).value) == Step(Push(Rax), s3);
    }
  }

  lemma OpCodeBalanced(op: BinOp)
    ensures StackEffect(OpCode(op)) == 0
  {
    NoStackEffect(OpCode(op));
  }

  /** The tail takes the two operands off the stack and puts the result back. */
  lemma TailEffect(op: BinOp)
    ensures StackEffect(Tail(op)) == -1
  {
    OpCodeBalanced(op);
    var pops := [Pop(Rdi), Pop(Rax)];
    assert StackEffect(pops) == -2 by {
      assert StackEffect(pops[2..]) == 0;
      assert StackEffect(pops[1..]) == -1;
    }
    assert StackEffect([Push(Rax)]) == 1 by {
      assert StackEffect([Push(Rax)][1..]) == 0;
    }
    StackEffectCat(pops, OpCode(op));
    StackEffectCat(pops + OpCode(op), [Push(Rax)]);
  }

  /** Every expression leaves exactly one more value on the stack. */
  lemma {:induction false} GenPushesOne(e: Node)
    requires IsArith(e)
    ensures StackEffect(Gen(e)) == 1
  {
    match e
    case Num(v) =>
      assert StackEffect(Gen(e)[1..]) == 0;
    case Bin(op, a, b) =>
      GenPushesOne(a);
      GenPushesOne(b);
      TailEffect(op);
      StackEffectCat(Gen(a), Gen(b));
      StackEffectCat(Gen(a) + Gen(b), Tail(op));
  }

  /** Running the code of an expression pushes its value and changes neither the rest of the
      stack, nor the memory, nor rbp; it stops exactly when the expression divides by zero. */
  lemma {:induction false} GenComputes(e: Node, s: State)
    requires IsArith(e)
    ensures Run(Gen(e), s).Some? <==> Value(e).Some?
    ensures Run(Gen(e), s).Some? ==>
              var t := Run(Gen(e), s).value;
              t.stack == s.stack + [Value(e).value] && t.mem == s.mem
              && t.rbp == s.rbp
  {
    match e
    case Num(v) =>
      assert Run(Gen(e)[1..], Step(PushImm(v), s).value) == Step(PushImm(v), s);
    case Bin(op, a, b) =>
      RunCat(Gen(a), Gen(b), s);
      RunCat(Gen(a) + Gen(b), Tail(op), s);
      GenComputes(a, s);
      if Value(a).Some? {
        var s1 := Run(Gen(a), s).value;
        GenComputes(b, s1);
        if Value(b).Some? {
          var s2 := Run(Gen(b), s1).value;
          TailComputes(op, s2, s.stack, Value(a).value, Value(b).value);
        }
      }
  }
}
