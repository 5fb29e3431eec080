/** gen.c: the statement code generator, as functions of the tree. `Code(n, ln, offsets)` is
    what `gen(n)` prints when the label counter `labelnumber` holds `ln` and local i sits at
    `rbp - offsets[i]`, together with the counter's value afterwards. `Generator` (generator.dfy)
    prints the same code step by step and is proved to agree with these functions. */
module CodeGen {
  import opened Base
  import opened Ast
  import opened Asm
  import Gen9cc

  /** `gen_lval`'s error: the left side of an assignment is not a variable. */
  datatype GenError = NotAnLvalue

  /** Code printed, and the label counter after printing it. */
  datatype Emitted = Emitted(code: seq<Instr>, next: nat)

  /** `argregs`: where the arguments of a call go, first argument first. */
  const ArgRegs: seq<Reg> := [Rdi, Rsi, Rdx, Rcx, R8, R9]

  /** What gen.c relies on without checking it: every variable has a slot (in C, `var` points
      at a local that `gencode` gave an offset), and no call has more arguments than `argregs`
      has registers. */
  predicate Fits(n: Node, nlocals: nat)
  {
    match n
    case Num(_) => true
    case LVar(i) => i < nlocals
    case Bin(_, a, b) => Fits(a, nlocals) && Fits(b, nlocals)
    case Assign(a, b) => Fits(a, nlocals) && Fits(b, nlocals)
    case ExprStmt(e) => Fits(e, nlocals)
    case Return(e) => Fits(e, nlocals)
    case If(c, t, e) => Fits(c, nlocals) && Fits(t, nlocals) && (e.Some? ==> Fits(e.value, nlocals))
    case While(c, b) => Fits(c, nlocals) && Fits(b, nlocals)
    case For(i, c, inc, b) =>
      && (i.Some? ==> Fits(i.value, nlocals))
      && (c.Some? ==> Fits(c.value, nlocals))
      && (inc.Some? ==> Fits(inc.value, nlocals))
      && Fits(b, nlocals)
    case Block(ss) => forall s <- ss :: Fits(s, nlocals)
    case FunCall(_, args) => |args| <= |ArgRegs| && forall a <- args :: Fits(a, nlocals)
  }

  /** `gen_lval`: the address of the variable, `rbp - offset`, pushed. */
  function LvalCode(n: Node, offsets: seq<int>): Result<seq<Instr>, GenError>
    requires Fits(n, |offsets|)
  {
    if n.LVar? then Ok([LeaLocal(offsets[n.index]), Push(Rax)]) else Err(NotAnLvalue)
  }

  /** `pop rax`, `cmp rax, 0`, `je target`: leave when the value just computed is 0. */
  function Guard(target: Label): seq<Instr>
  {
    [Pop(Rax), CmpZero] + [Je(target)]
  }

  /** The pops of a call with n arguments that are still to do once `argregs[n-1]` down to
      `argregs[i]`... are done: `pop argregs[n-1]`, ..., `pop argregs[i]`. */
  function Pops(n: nat, i: nat): seq<Instr>
    requires i <= n <= |ArgRegs|
    decreases n - i
  {
    if i == n then [] else Pops(n, i + 1) + [Pop(ArgRegs[i])]
  }

  /** The call itself, with the counter value `ln` it took: test rsp for 16-byte alignment;
      aligned, call straight away; otherwise push 8 bytes first and drop them after. Either way
      rax holds 0 (no floating-point arguments) before the call, and rax, the result, is pushed. */
  function CallCode(name: string, ln: nat): seq<Instr>
  {
    CallTest(ln) + CallAligned(name, ln) + CallPadded(name, ln) + [Def(Numbered(EndCall, ln)), Push(Rax)]
  }

  /** `mov rax, rsp`, `and rax, 15`, `jnz .L.call.N`: the slow way when rsp is not 16-byte aligned. */
  function CallTest(ln: nat): seq<Instr>
  {
    [MovReg(Rax, Rsp), AndImm(Rax, 15), Jnz(Numbered(CallSlow, ln))]
  }

  /** The call when rsp is aligned, then on to `.L.endcall.N`. */
  function CallAligned(name: string, ln: nat): seq<Instr>
  {
    [MovImm(Rax, 0), Call(name), Jmp(Numbered(EndCall, ln))]
  }

  /** `.L.call.N`: the call with 8 bytes pushed before and dropped after. */
  function CallPadded(name: string, ln: nat): seq<Instr>
  {
    [Def(Numbered(CallSlow, ln)), SubRsp(8), MovImm(Rax, 0), Call(name), AddRsp(8)]
  }

  /** `gen`. Each `if`, `while`, `for` and call takes the counter's current value as its label
      number and moves the counter on by one: `if`, `while` and `for` before generating their
      parts, a call after generating its arguments. */
  function Code(n: Node, ln: nat, offsets: seq<int>): Result<Emitted, GenError>
    requires Fits(n, |offsets|)
    decreases n, 1
  {
    match n
    case Num(v) => Ok(Emitted([PushImm(v)], ln))
    case LVar(_) =>
      var lv :- LvalCode(n, offsets);
      Ok(Emitted(lv + [Pop(Rax), Load, Push(Rax)], ln))
    case Assign(l, r) => AssignCode(n, ln, offsets)
    case ExprStmt(e) =>
      var c :- Code(e, ln, offsets);
      Ok(Emitted(c.code + [AddRsp(8)], c.next))
    case If(_, _, _) => IfCode(n, ln, offsets)
    case While(_, _) => WhileCode(n, ln, offsets)
    case For(_, _, _, _) => ForCode(n, ln, offsets)
    case Block(stmts) => SeqCode(stmts, ln, offsets)
    case FunCall(_, _) => CallOf(n, ln, offsets)
    case Return(e) =>
      var c :- Code(e, ln, offsets);
      Ok(Emitted(c.code + [Pop(Rax), Jmp(Epilogue)], c.next))
    case Bin(_, _, _) => BinCode(n, ln, offsets)
  }

  /** An assignment: the address of the left side, the value of the right, then store the
      value through the address and push it again. */
  function AssignCode(n: Node, ln: nat, offsets: seq<int>): Result<Emitted, GenError>
    requires n.Assign? && Fits(n, |offsets|)
    decreases n, 0
  {
    var lv :- LvalCode(n.lhs, offsets);
    var rc :- Code(n.rhs, ln, offsets);
    Ok(Emitted(lv + rc.code + [Pop(Rdi), Pop(Rax), Store, Push(Rdi)], rc.next))
  }

  function IfCode(n: Node, ln: nat, offsets: seq<int>): Result<Emitted, GenError>
    requires n.If? && Fits(n, |offsets|)
    decreases n, 0
  {
    var c :- Code(n.cond, ln + 1, offsets);
    var t :- Code(n.thenBranch, c.next, offsets);
    match n.els
    case None =>
      Ok(Emitted(c.code + Guard(Numbered(EndIf, ln)) + t.code + [Def(Numbered(EndIf, ln))], t.next))
    case Some(e) =>
      var x :- Code(e, t.next, offsets);
      Ok(Emitted(c.code + Guard(Numbered(Else, ln)) + t.code
                 + [Jmp(Numbered(EndIf, ln)), Def(Numbered(Else, ln))]
                 + x.code + [Def(Numbered(EndIf, ln))], x.next))
  }

  function WhileCode(n: Node, ln: nat, offsets: seq<int>): Result<Emitted, GenError>
    requires n.While? && Fits(n, |offsets|)
    decreases n, 0
  {
    var c :- Code(n.cond, ln + 1, offsets);
    var b :- Code(n.body, c.next, offsets);
    Ok(Emitted([Def(Numbered(WhileTop, ln))] + c.code + Guard(Numbered(EndWhile, ln)) + b.code
               + [Jmp(Numbered(WhileTop, ln)), Def(Numbered(EndWhile, ln))], b.next))
  }

  /** A `for`: an absent condition leaves out the test as well. */
  function ForCode(n: Node, ln: nat, offsets: seq<int>): Result<Emitted, GenError>
    requires n.For? && Fits(n, |offsets|)
    decreases n, 0
  {
    var i :- OptCode(n.init, ln + 1, offsets);
    var c :- OptCode(n.loopCond, i.next, offsets);
    var b :- Code(n.body, c.next, offsets);
    var x :- OptCode(n.inc, b.next, offsets);
    Ok(Emitted(ForText(ln, n.loopCond.Some?, i.code, c.code, b.code, x.code), x.next))
  }

  /** The text of a `for` numbered ln from the code of its parts: init, `.L.for.N`, the
      condition and its guard (when there is a condition), the body, inc, the jump back and
      `.L.endfor.N`. */
  function ForText(ln: nat, guarded: bool, i: seq<Instr>, c: seq<Instr>, b: seq<Instr>, x: seq<Instr>): seq<Instr>
  {
    i + [Def(Numbered(ForTop, ln))] + c + (if guarded then Guard(Numbered(EndFor, ln)) else []) + b + x
    + [Jmp(Numbered(ForTop, ln)), Def(Numbered(EndFor, ln))]
  }

  /** The instructions of a loop that are not the code of its parts. */
  function LoopFrame(top: Label, end: Label, guarded: bool): seq<Instr>
  {
    [Def(top)] + (if guarded then Guard(end) else []) + [Jmp(top), Def(end)]
  }

  /** A call: the arguments left to right, popped into their registers last to first, then
      the call, which takes its label number only now. */
  function CallOf(n: Node, ln: nat, offsets: seq<int>): Result<Emitted, GenError>
    requires n.FunCall? && Fits(n, |offsets|)
    decreases n, 0
  {
    var a :- SeqCode(n.args, ln, offsets);
    Ok(Emitted(a.code + Pops(|n.args|, 0) + CallCode(n.funcname, a.next), a.next + 1))
  }

  /** A binary operator: both operands, then the same tail as the expression compiler of 9cc.c. */
  function BinCode(n: Node, ln: nat, offsets: seq<int>): Result<Emitted, GenError>
    requires n.Bin? && Fits(n, |offsets|)
    decreases n, 0
  {
    var x :- Code(n.lhs, ln, offsets);
    var y :- Code(n.rhs, x.next, offsets);
    Ok(Emitted(x.code + y.code + Gen9cc.Tail(n.op), y.next))
  }

  /** An optional part of a `for`: nothing when it is absent (NULL). */
  function OptCode(n: Option<Node>, ln: nat, offsets: seq<int>): Result<Emitted, GenError>
    requires n.Some? ==> Fits(n.value, |offsets|)
    decreases n, 2
  {
    match n
    case None => Ok(Emitted([], ln))
    case Some(x) => Code(x, ln, offsets)
  }

  /** The nodes of a list one after the other, as the loops over `node->block`,
      `node->args` and `func->nodes` generate them; the first error stops it. */
  function SeqCode(ns: seq<Node>, ln: nat, offsets: seq<int>): Result<Emitted, GenError>
    requires forall n <- ns :: Fits(n, |offsets|)
    decreases ns, 2
  {
    if |ns| == 0 then Ok(Emitted([], ln))
    else
      var p :- SeqCode(ns[..|ns| - 1], ln, offsets);
      var c :- Code(ns[|ns| - 1], p.next, offsets);
      Ok(Emitted(p.code + c.code, c.next))
  }

  // ---------------------------------------------------------------------------------------
  // The label counter.

  /** How many numbers a tree takes from the counter: one per `if`, `while`, `for` and call. */
  function Constructs(n: Node): nat
    decreases n, 1
  {
    match n
    case Num(_) => 0
    case LVar(_) => 0
    case Assign(l, r) => Constructs(l) + Constructs(r)
    case ExprStmt(e) => Constructs(e)
    case Return(e) => Constructs(e)
    case If(c, t, e) => 1 + Constructs(c) + Constructs(t) + OptConstructs(e)
    case While(c, b) => 1 + Constructs(c) + Constructs(b)
    case For(i, c, inc, b) => 1 + OptConstructs(i) + OptConstructs(c) + OptConstructs(inc) + Constructs(b)
    case Block(ss) => SeqConstructs(ss)
    case FunCall(_, args) => 1 + SeqConstructs(args)
    case Bin(_, l, r) => Constructs(l) + Constructs(r)
  }

  function OptConstructs(n: Option<Node>): nat
    decreases n, 2
  {
    match n
    case None => 0
    case Some(x) => Constructs(x)
  }

  function SeqConstructs(ns: seq<Node>): nat
    decreases ns, 2
  {
    if |ns| == 0 then 0 else SeqConstructs(ns[..|ns| - 1]) + Constructs(ns[|ns| - 1])
  }

  /** Generating a tree moves the counter on by exactly the number of label-taking nodes in it,
      whatever the counter was. */
  lemma {:induction false} Counted(n: Node, ln: nat, offsets: seq<int>)
    requires Fits(n, |offsets|)
    ensures Code(n, ln, offsets).Ok? ==> Code(n, ln, offsets).value.next == ln + Constructs(n)
    decreases n, 1
  {
    match n
    case Num(_) =>
    case LVar(_) =>
    case Assign(_, r) => Counted(r, ln, offsets);
    case ExprStmt(e) => Counted(e, ln, offsets);
    case Return(e) => Counted(e, ln, offsets);
    case If(_, _, _) => IfCounted(n, ln, offsets);
    case While(_, _) => WhileCounted(n, ln, offsets);
    case For(_, _, _, _) => ForCounted(n, ln, offsets);
    case Block(ss) => SeqCounted(ss, ln, offsets);
    case FunCall(_, args) => SeqCounted(args, ln, offsets);
    case Bin(_, _, _) => BinCounted(n, ln, offsets);
  }

  lemma {:induction false} IfCounted(n: Node, ln: nat, offsets: seq<int>)
    requires n.If? && Fits(n, |offsets|)
    ensures IfCode(n, ln, offsets).Ok? ==> IfCode(n, ln, offsets).value.next == ln + Constructs(n)
    decreases n, 0
  {
    Counted(n.cond, ln + 1, offsets);
    if Code(n.cond, ln + 1, offsets).Ok? {
      var k := Code(n.cond, ln + 1, offsets).value.next;
      Counted(n.thenBranch, k, offsets);
      if Code(n.thenBranch, k, offsets).Ok? {
        OptCounted(n.els, Code(n.thenBranch, k, offsets).value.next, offsets);
      }
    }
  }

  lemma {:induction false} WhileCounted(n: Node, ln: nat, offsets: seq<int>)
    requires n.While? && Fits(n, |offsets|)
    ensures WhileCode(n, ln, offsets).Ok? ==> WhileCode(n, ln, offsets).value.next == ln + Constructs(n)
    decreases n, 0
  {
    Counted(n.cond, ln + 1, offsets);
    if Code(n.cond, ln + 1, offsets).Ok? {
      Counted(n.body, Code(n.cond, ln + 1, offsets).value.next, offsets);
    }
  }

  lemma {:induction false} ForCounted(n: Node, ln: nat, offsets: seq<int>)
    requires n.For? && Fits(n, |offsets|)
    ensures ForCode(n, ln, offsets).Ok? ==> ForCode(n, ln, offsets).value.next == ln + Constructs(n)
    decreases n, 0
  {
    OptCounted(n.init, ln + 1, offsets);
    if OptCode(n.init, ln + 1, offsets).Ok? {
      var k1 := OptCode(n.init, ln + 1, offsets).value.next;
      OptCounted(n.loopCond, k1, offsets);
      if OptCode(n.loopCond, k1, offsets).Ok? {
        var k2 := OptCode(n.loopCond, k1, offsets).value.next;
        Counted(n.body, k2, offsets);
        if Code(n.body, k2, offsets).Ok? {
          OptCounted(n.inc, Code(n.body, k2, offsets).value.next, offsets);
        }
      }
    }
  }

  lemma {:induction false} BinCounted(n: Node, ln: nat, offsets: seq<int>)
    requires n.Bin? && Fits(n, |offsets|)
    ensures BinCode(n, ln, offsets).Ok? ==> BinCode(n, ln, offsets).value.next == ln + Constructs(n)
    decreases n, 0
  {
    Counted(n.lhs, ln, offsets);
    if Code(n.lhs, ln, offsets).Ok? {
      Counted(n.rhs, Code(n.lhs, ln, offsets).value.next, offsets);
    }
  }

  lemma {:induction false} OptCounted(n: Option<Node>, ln: nat, offsets: seq<int>)
    requires n.Some? ==> Fits(n.value, |offsets|)
    ensures OptCode(n, ln, offsets).Ok? ==> OptCode(n, ln, offsets).value.next == ln + OptConstructs(n)
    decreases n, 2
  {
    if n.Some? {
      Counted(n.value, ln, offsets);
    }
  }

  lemma {:induction false} SeqCounted(ns: seq<Node>, ln: nat, offsets: seq<int>)
    requires forall n <- ns :: Fits(n, |offsets|)
    ensures SeqCode(ns, ln, offsets).Ok? ==> SeqCode(ns, ln, offsets).value.next == ln + SeqConstructs(ns)
    decreases ns, 2
  {
    if |ns| > 0 {
      var init := ns[..|ns| - 1];
      SeqCounted(init, ln, offsets);
      if SeqCode(init, ln, offsets).Ok? {
        Counted(ns[|ns| - 1], SeqCode(init, ln, offsets).value.next, offsets);
      }
    }
  }

  /** A list whose first k nodes already fail to generate fails as a whole: the loops over a
      list stop at the first error. */
  lemma {:induction false} SeqPrefixErr(ns: seq<Node>, k: nat, ln: nat, offsets: seq<int>)
    requires k <= |ns| && forall n <- ns :: Fits(n, |offsets|)
    requires SeqCode(ns[..k], ln, offsets).Err?
    ensures SeqCode(ns, ln, offsets).Err?
    decreases |ns|
  {
    if k == |ns| {
      assert ns[..k] == ns;
    } else {
      var init := ns[..|ns| - 1];
      assert init[..k] == ns[..k];
      assert forall n <- init :: n in ns;
      SeqPrefixErr(init, k, ln, offsets);
    }
  }

  // ---------------------------------------------------------------------------------------
  // `gencode`: the frame and the whole program.

  /** The offsets `gencode` gives the locals: 8 for the first, 16 for the second, and so on. */
  function FrameOffsets(nlocals: nat): (r: seq<int>)
    ensures |r| == nlocals
  {
    seq(nlocals, i => 8 * (i + 1))
  }

  /** Every local gets its own 8-byte slot inside the frame: the offsets are positive
      multiples of 8, at most the frame size, and the slots of two locals never overlap. */
  lemma FrameSlots(nlocals: nat)
    ensures forall i :: 0 <= i < nlocals ==>
              0 < FrameOffsets(nlocals)[i] <= 8 * nlocals && FrameOffsets(nlocals)[i] % 8 == 0
    ensures forall i, j :: 0 <= i < j < nlocals ==> FrameOffsets(nlocals)[j] - FrameOffsets(nlocals)[i] >= 8
  {
  }

  /** The prologue: `.intel_syntax noprefix`, `.global main`, `main:`, then save rbp, point it
      at the frame and reserve the frame's bytes. */
  function Prologue(stackSize: int): seq<Instr>
  {
    [IntelSyntax, Global("main"), Def(Symbol("main")), Push(Rbp), MovReg(Rbp, Rsp), SubRsp(stackSize)]
  }

  /** The epilogue every `return` jumps to: `.L.return:`, drop the frame, restore rbp, `ret`. */
  function EpilogueCode(): seq<Instr>
  {
    [Def(Epilogue), MovReg(Rsp, Rbp), Pop(Rbp), Ret]
  }

  /** What `gencode` prints for a function with these top-level nodes and this many locals,
      starting with the label counter at 0. */
  function Program(nodes: seq<Node>, nlocals: nat): Result<seq<Instr>, GenError>
    requires forall n <- nodes :: Fits(n, nlocals)
  {
    var body :- SeqCode(nodes, 0, FrameOffsets(nlocals));
    Ok(Prologue(8 * nlocals) + body.code + EpilogueCode())
  }
}
