/** The stack discipline of gen.c: the code of an expression leaves exactly one more value on
    the stack (its value), and the code of a statement leaves the stack as deep as it found it.
    The depth is counted statically, instruction by instruction (`StackEffect`); for the call
    sequence both ways through it count the same, and a `return` counts as popping its value. */
module CodeGenStack {
  import opened Base
  import opened Ast
  import opened Asm
  import opened CodeGen
  import Gen9cc

  /** The expression kinds: numbers, locals, assignments to a local, binary operators and
      calls whose arguments are expressions. */
  predicate IsExpr(n: Node)
  {
    match n
    case Num(_) => true
    case LVar(_) => true
    case Assign(l, r) => l.LVar? && IsExpr(r)
    case Bin(_, a, b) => IsExpr(a) && IsExpr(b)
    case FunCall(_, args) => forall a <- args :: IsExpr(a)
    case _ => false
  }

  /** The statement kinds, with expressions where gen.c computes a value (the condition of
      `if`, `while` and `for`, the value of an expression statement and of `return`) and
      statements elsewhere. The `init` and `inc` parts of a `for` are expression statements. */
  predicate IsStmt(n: Node)
  {
    match n
    case ExprStmt(e) => IsExpr(e)
    case Return(e) => IsExpr(e)
    case If(c, t, e) => IsExpr(c) && IsStmt(t) && (e.Some? ==> IsStmt(e.value))
    case While(c, b) => IsExpr(c) && IsStmt(b)
    case For(i, c, inc, b) =>
      && (i.Some? ==> IsStmt(i.value))
      && (c.Some? ==> IsExpr(c.value))
      && (inc.Some? ==> IsStmt(inc.value))
      && IsStmt(b)
    case Block(ss) => forall s <- ss :: IsStmt(s)
    case _ => false
  }

  /** Expressions push one value, statements none. */
  lemma {:induction false} Balanced(n: Node, ln: nat, offsets: seq<int>)
    requires Fits(n, |offsets|)
    ensures Code(n, ln, offsets).Ok? && IsExpr(n) ==> StackEffect(Code(n, ln, offsets).value.code) == 1
    ensures Code(n, ln, offsets).Ok? && IsStmt(n) ==> StackEffect(Code(n, ln, offsets).value.code) == 0
    decreases n, 1
  {
    match n
    case Num(_) => LeafBalanced(n, ln, offsets);
    case LVar(_) => LeafBalanced(n, ln, offsets);
    case Assign(_, _) => AssignBalanced(n, ln, offsets);
    case ExprStmt(_) => StmtBalanced(n, ln, offsets);
    case Return(_) => StmtBalanced(n, ln, offsets);
    case If(_, _, _) => IfBalanced(n, ln, offsets);
    case While(_, _) => WhileBalanced(n, ln, offsets);
    case For(_, _, _, _) => ForBalanced(n, ln, offsets);
    case Block(ss) => SeqBalanced(ss, ln, offsets);
    case FunCall(_, _) => CallBalanced(n, ln, offsets);
    case Bin(_, _, _) => BinBalanced(n, ln, offsets);
  }

  /** An absent part emits nothing; a present one pushes what its kind pushes. */
  lemma {:induction false} OptBalanced(n: Option<Node>, ln: nat, offsets: seq<int>)
    requires n.Some? ==> Fits(n.value, |offsets|)
    ensures OptCode(n, ln, offsets).Ok? && n.None? ==> StackEffect(OptCode(n, ln, offsets).value.code) == 0
    ensures OptCode(n, ln, offsets).Ok? && n.Some? && IsExpr(n.value) ==>
              StackEffect(OptCode(n, ln, offsets).value.code) == 1
    ensures OptCode(n, ln, offsets).Ok? && n.Some? && IsStmt(n.value) ==>
              StackEffect(OptCode(n, ln, offsets).value.code) == 0
    decreases n, 2
  {
    if n.Some? {
      Balanced(n.value, ln, offsets);
    }
  }

  /** A list of statements pushes nothing; a list of expressions (the arguments of a call)
      pushes one value each. */
  lemma {:induction false} SeqBalanced(ns: seq<Node>, ln: nat, offsets: seq<int>)
    requires forall n <- ns :: Fits(n, |offsets|)
    ensures SeqCode(ns, ln, offsets).Ok? && (forall s <- ns :: IsStmt(s)) ==>
              StackEffect(SeqCode(ns, ln, offsets).value.code) == 0
    ensures SeqCode(ns, ln, offsets).Ok? && (forall a <- ns :: IsExpr(a)) ==>
              StackEffect(SeqCode(ns, ln, offsets).value.code) == |ns|
    decreases ns, 2
  {
    if SeqCode(ns, ln, offsets).Ok? && |ns| > 0 {
      var init := ns[..|ns| - 1];
      var p := SeqCode(init, ln, offsets).value;
      var last := ns[|ns| - 1];
      assert forall s <- init :: s in ns;
      SeqBalanced(init, ln, offsets);
      Balanced(last, p.next, offsets);
      StackEffectCat(p.code, Code(last, p.next, offsets).value.code);
    }
  }

  lemma LeafBalanced(n: Node, ln: nat, offsets: seq<int>)
    requires (n.Num? || n.LVar?) && Fits(n, |offsets|)
    ensures Code(n, ln, offsets).Ok? && IsExpr(n) ==> StackEffect(Code(n, ln, offsets).value.code) == 1
    ensures Code(n, ln, offsets).Ok? && IsStmt(n) ==> StackEffect(Code(n, ln, offsets).value.code) == 0
    decreases n, 0
  {
    if n.Num? {
      assert StackEffect([PushImm(n.val)][1..]) == 0;
    } else {
      var lv := [LeaLocal(offsets[n.index]), Push(Rax)];
      LvalEffect(offsets[n.index]);
      LoadEffect();
      StackEffectCat(lv, [Pop(Rax), Load, Push(Rax)]);
    }
  }

  /** `lea rax, [rbp-N]`, `push rax`: one value more. */
  lemma LvalEffect(off: int)
    ensures StackEffect([LeaLocal(off), Push(Rax)]) == 1
  {
    assert StackEffect([LeaLocal(off), Push(Rax)][1..]) == 1 by {
      assert StackEffect([Push(Rax)][1..]) == 0;
    }
  }

  /** `pop rax`, `mov rax, [rax]`, `push rax`: the address replaced by the value. */
  lemma LoadEffect()
    ensures StackEffect([Pop(Rax), Load, Push(Rax)]) == 0
  {
    var code := [Pop(Rax), Load, Push(Rax)];
    assert StackEffect(code[3..]) == 0;
    assert StackEffect(code[2..]) == 1;
    assert StackEffect(code[1..]) == 1;
  }

  lemma {:induction false} AssignBalanced(n: Node, ln: nat, offsets: seq<int>)
    requires n.Assign? && Fits(n, |offsets|)
    ensures Code(n, ln, offsets).Ok? && IsExpr(n) ==> StackEffect(Code(n, ln, offsets).value.code) == 1
    ensures Code(n, ln, offsets).Ok? && IsStmt(n) ==> StackEffect(Code(n, ln, offsets).value.code) == 0
    decreases n, 0
  {
    if Code(n, ln, offsets).Ok? {
      assert Code(n, ln, offsets) == AssignCode(n, ln, offsets);
      var lv := [LeaLocal(offsets[n.lhs.index]), Push(Rax)];
      var rc := Code(n.rhs, ln, offsets).value;
      var store := [Pop(Rdi), Pop(Rax), Store, Push(Rdi)];
      Balanced(n.rhs, ln, offsets);
      LvalEffect(offsets[n.lhs.index]);
      assert StackEffect(store) == -1 by {
        assert StackEffect(store[4..]) == 0;
        assert StackEffect(store[3..]) == 1;
        assert StackEffect(store[2..]) == 1;
        assert StackEffect(store[1..]) == 0;
      }
      StackEffectCat(lv, rc.code);
      StackEffectCat(lv + rc.code, store);
    }
  }

  /** An expression statement drops its value with `add rsp, 8`; `return` pops it into rax
      before jumping to the epilogue. */
  lemma {:induction false} StmtBalanced(n: Node, ln: nat, offsets: seq<int>)
    requires (n.ExprStmt? || n.Return?) && Fits(n, |offsets|)
    ensures Code(n, ln, offsets).Ok? && IsExpr(n) ==> StackEffect(Code(n, ln, offsets).value.code) == 1
    ensures Code(n, ln, offsets).Ok? && IsStmt(n) ==> StackEffect(Code(n, ln, offsets).value.code) == 0
    decreases n, 0
  {
    if Code(n, ln, offsets).Ok? {
      var c := Code(n.expr, ln, offsets).value;
      Balanced(n.expr, ln, offsets);
      if n.ExprStmt? {
        assert StackEffect([AddRsp(8)][1..]) == 0;
        StackEffectCat(c.code, [AddRsp(8)]);
      } else {
        var tail := [Pop(Rax), Jmp(Epilogue)];
        assert StackEffect(tail) == -1 by {
          assert StackEffect(tail[2..]) == 0;
          assert StackEffect(tail[1..]) == 0;
        }
        StackEffectCat(c.code, tail);
      }
    }
  }

  /** `pop rax`, `cmp rax, 0`, `je L`: the value tested is dropped. */
  lemma GuardEffect(target: Label)
    ensures StackEffect(Guard(target)) == -1
  {
    var g := Guard(target);
    assert g == [Pop(Rax), CmpZero, Je(target)];
    assert StackEffect(g[3..]) == 0;
    assert StackEffect(g[2..]) == 0;
    assert StackEffect(g[1..]) == 0;
  }

  /** A jump and a label line. */
  lemma JumpDefEffect(a: Label, b: Label)
    ensures StackEffect([Jmp(a), Def(b)]) == 0
  {
    assert StackEffect([Jmp(a), Def(b)][2..]) == 0;
    assert StackEffect([Jmp(a), Def(b)][1..]) == 0;
  }

  lemma DefEffect(a: Label)
    ensures StackEffect([Def(a)]) == 0
  {
    assert StackEffect([Def(a)][1..]) == 0;
  }

  lemma {:induction false} IfBalanced(n: Node, ln: nat, offsets: seq<int>)
    requires n.If? && Fits(n, |offsets|)
    ensures Code(n, ln, offsets).Ok? && IsExpr(n) ==> StackEffect(Code(n, ln, offsets).value.code) == 1
    ensures Code(n, ln, offsets).Ok? && IsStmt(n) ==> StackEffect(Code(n, ln, offsets).value.code) == 0
    decreases n, 0
  {
    var r := Code(n, ln, offsets);
    if r.Ok? && IsStmt(n) {
      assert r == IfCode(n, ln, offsets);
      var c := Code(n.cond, ln + 1, offsets).value;
      var t := Code(n.thenBranch, c.next, offsets).value;
      Balanced(n.cond, ln + 1, offsets);
      Balanced(n.thenBranch, c.next, offsets);
      var endif := Numbered(EndIf, ln);
      DefEffect(endif);
      if n.els.None? {
        var g := Guard(endif);
        GuardEffect(endif);
        StackEffectCat(c.code, g);
        StackEffectCat(c.code + g, t.code);
        StackEffectCat(c.code + g + t.code, [Def(endif)]);
      } else {
        var els := Numbered(Else, ln);
        var x := Code(n.els.value, t.next, offsets).value;
        Balanced(n.els.value, t.next, offsets);
        var g, mid := Guard(els), [Jmp(endif), Def(els)];
        GuardEffect(els);
        JumpDefEffect(endif, els);
        StackEffectCat(c.code, g);
        StackEffectCat(c.code + g, t.code);
        StackEffectCat(c.code + g + t.code, mid);
        StackEffectCat(c.code + g + t.code + mid, x.code);
        StackEffectCat(c.code + g + t.code + mid + x.code, [Def(endif)]);
      }
    }
  }

  lemma {:induction false} WhileBalanced(n: Node, ln: nat, offsets: seq<int>)
    requires n.While? && Fits(n, |offsets|)
    ensures Code(n, ln, offsets).Ok? && IsExpr(n) ==> StackEffect(Code(n, ln, offsets).value.code) == 1
    ensures Code(n, ln, offsets).Ok? && IsStmt(n) ==> StackEffect(Code(n, ln, offsets).value.code) == 0
    decreases n, 0
  {
    var r := Code(n, ln, offsets);
    if r.Ok? && IsStmt(n) {
      assert r == WhileCode(n, ln, offsets);
      var c := Code(n.cond, ln + 1, offsets).value;
      var b := Code(n.body, c.next, offsets).value;
      Balanced(n.cond, ln + 1, offsets);
      Balanced(n.body, c.next, offsets);
      var top, end := Numbered(WhileTop, ln), Numbered(EndWhile, ln);
      var h, g, back := [Def(top)], Guard(end), [Jmp(top), Def(end)];
      DefEffect(top);
      GuardEffect(end);
      JumpDefEffect(top, end);
      StackEffectCat(h, c.code);
      StackEffectCat(h + c.code, g);
      StackEffectCat(h + c.code + g, b.code);
      StackEffectCat(h + c.code + g + b.code, back);
    }
  }

  lemma {:induction false} ForBalanced(n: Node, ln: nat, offsets: seq<int>)
    requires n.For? && Fits(n, |offsets|)
    ensures Code(n, ln, offsets).Ok? && IsExpr(n) ==> StackEffect(Code(n, ln, offsets).value.code) == 1
    ensures Code(n, ln, offsets).Ok? && IsStmt(n) ==> StackEffect(Code(n, ln, offsets).value.code) == 0
    decreases n, 0
  {
    var r := Code(n, ln, offsets);
    if r.Ok? && IsStmt(n) {
      assert r == ForCode(n, ln, offsets);
      var i := OptCode(n.init, ln + 1, offsets).value;
      var c := OptCode(n.loopCond, i.next, offsets).value;
      var b := Code(n.body, c.next, offsets).value;
      var x := OptCode(n.inc, b.next, offsets).value;
      OptBalanced(n.init, ln + 1, offsets);
      OptBalanced(n.loopCond, i.next, offsets);
      Balanced(n.body, c.next, offsets);
      OptBalanced(n.inc, b.next, offsets);
      ForTextEffect(ln, n.loopCond.Some?, i.code, c.code, b.code, x.code);
    }
  }

  /** A `for` whose condition code (when there is one) pushes one value and whose other parts
      push none is balanced. */
  lemma ForTextEffect(ln: nat, guarded: bool, i: seq<Instr>, c: seq<Instr>, b: seq<Instr>, x: seq<Instr>)
    requires StackEffect(i) == 0 && StackEffect(b) == 0 && StackEffect(x) == 0
    requires StackEffect(c) == if guarded then 1 else 0
    ensures StackEffect(ForText(ln, guarded, i, c, b, x)) == 0
  {
    var top, end := Numbered(ForTop, ln), Numbered(EndFor, ln);
    var h, g, back := [Def(top)], if guarded then Guard(end) else [], [Jmp(top), Def(end)];
    DefEffect(top);
    if guarded {
      GuardEffect(end);
    }
    JumpDefEffect(top, end);
    StackEffectCat(i, h);
    StackEffectCat(i + h, c);
    StackEffectCat(i + h + c, g);
    StackEffectCat(i + h + c + g, b);
    StackEffectCat(i + h + c + g + b, x);
    StackEffectCat(i + h + c + g + b + x, back);
  }

  /** Popping n arguments into registers takes n values off the stack. */
  lemma {:induction false} PopsEffect(n: nat, i: nat)
    requires i <= n <= |ArgRegs|
    ensures StackEffect(Pops(n, i)) == -(n - i)
    decreases n - i
  {
    if i < n {
      PopsEffect(n, i + 1);
      assert StackEffect([Pop(ArgRegs[i])][1..]) == 0;
      StackEffectCat(Pops(n, i + 1), [Pop(ArgRegs[i])]);
    }
  }

  /** Either way through the call sequence, the stack is as it was before the call; then rax is
      pushed. The `sub rsp, 8` of the unaligned way is matched by its `add rsp, 8`. */
  lemma CallCodeEffect(name: string, ln: nat)
    ensures StackEffect(CallCode(name, ln)) == 1
    ensures StackEffect(CallAligned(name, ln)) == 0 && StackEffect(CallPadded(name, ln)) == 0
  {
    var test, aligned, padded := CallTest(ln), CallAligned(name, ln), CallPadded(name, ln);
    var last := [Def(Numbered(EndCall, ln)), Push(Rax)];
    NoStackEffect(test);
    NoStackEffect(aligned);
    assert StackEffect(padded) == 0 by {
      assert StackEffect(padded[5..]) == 0;
      assert StackEffect(padded[4..]) == -1;
      assert StackEffect(padded[3..]) == -1;
      assert StackEffect(padded[2..]) == -1;
      assert StackEffect(padded[1..]) == 0;
    }
    assert StackEffect(last) == 1 by {
      assert StackEffect(last[2..]) == 0;
      assert StackEffect(last[1..]) == 1;
    }
    StackEffectCat(test, aligned);
    StackEffectCat(test + aligned, padded);
    StackEffectCat(test + aligned + padded, last);
  }

  lemma {:induction false} CallBalanced(n: Node, ln: nat, offsets: seq<int>)
    requires n.FunCall? && Fits(n, |offsets|)
    ensures Code(n, ln, offsets).Ok? && IsExpr(n) ==> StackEffect(Code(n, ln, offsets).value.code) == 1
    ensures Code(n, ln, offsets).Ok? && IsStmt(n) ==> StackEffect(Code(n, ln, offsets).value.code) == 0
    decreases n, 0
  {
    var r := Code(n, ln, offsets);
    if r.Ok? && IsExpr(n) {
      assert r == CallOf(n, ln, offsets);
      var a := SeqCode(n.args, ln, offsets).value;
      var pops, call := Pops(|n.args|, 0), CallCode(n.funcname, a.next);
      SeqBalanced(n.args, ln, offsets);
      PopsEffect(|n.args|, 0);
      CallCodeEffect(n.funcname, a.next);
      StackEffectCat(a.code, pops);
      StackEffectCat(a.code + pops, call);
    }
  }

  lemma {:induction false} BinBalanced(n: Node, ln: nat, offsets: seq<int>)
    requires n.Bin? && Fits(n, |offsets|)
    ensures Code(n, ln, offsets).Ok? && IsExpr(n) ==> StackEffect(Code(n, ln, offsets).value.code) == 1
    ensures Code(n, ln, offsets).Ok? && IsStmt(n) ==> StackEffect(Code(n, ln, offsets).value.code) == 0
    decreases n, 0
  {
    var r := Code(n, ln, offsets);
    if r.Ok? && IsExpr(n) {
      assert r == BinCode(n, ln, offsets);
      var x := Code(n.lhs, ln, offsets).value;
      var y := Code(n.rhs, x.next, offsets).value;
      Balanced(n.lhs, ln, offsets);
      Balanced(n.rhs, x.next, offsets);
      Gen9cc.TailEffect(n.op);
      StackEffectCat(x.code, y.code);
      StackEffectCat(x.code + y.code, Gen9cc.Tail(n.op));
    }
  }
}
