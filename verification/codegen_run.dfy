/** What gen.c's code does when it runs, for the code the machine can run to its end: an
    expression of numbers, local variables, assignments to a local and binary operators
    leaves its value on the stack and stores what its assignments store, exactly as `Eval`
    says; the arguments of a call end up in `argregs`, first argument in rdi. On numbers and
    binary operators alone, gen.c prints what the expression compiler of 9cc.c prints. */
module CodeGenRun {
  import opened Base
  import opened Ast
  import opened Asm
  import opened Machine
  import opened CodeGen
  import Gen9cc

  /** The expressions whose code has no jump and no call. */
  predicate IsLocalExpr(n: Node)
  {
    match n
    case Num(_) => true
    case LVar(_) => true
    case Assign(l, r) => l.LVar? && IsLocalExpr(r)
    case Bin(_, a, b) => IsLocalExpr(a) && IsLocalExpr(b)
    case _ => false
  }

  /** The values of a list of expressions evaluated left to right, each one seeing the memory
      the one before left, and the memory after the last. */
  function EvalList(ns: seq<Node>, rbp: int, offsets: seq<int>, mem: map<int, int>): (r: Option<(seq<int>, map<int, int>)>)
    ensures r.Some? ==> |r.value.0| == |ns|
  {
    if |ns| == 0 then Some(([], mem))
    else
      match EvalList(ns[..|ns| - 1], rbp, offsets, mem)
      case None => None
      case Some(p) =>
        match Eval(ns[|ns| - 1], rbp, offsets, p.1)
        case None => None
        case Some(q) => Some((p.0 + [q.0], q.1))
  }

  lemma {:induction false} ArithFits(n: Node, nlocals: nat)
    requires IsArith(n)
    ensures Fits(n, nlocals)
  {
    if n.Bin? {
      ArithFits(n.lhs, nlocals);
      ArithFits(n.rhs, nlocals);
    }
  }

  /** On numbers and binary operators, gen.c's `gen` prints the same code as 9cc.c's and takes
      no label number. */
  lemma {:induction false} ArithAgrees(n: Node, ln: nat, offsets: seq<int>)
    requires IsArith(n)
    ensures Fits(n, |offsets|) && Code(n, ln, offsets) == Ok(Emitted(Gen9cc.Gen(n), ln))
  {
    ArithFits(n, |offsets|);
    if n.Bin? {
      ArithAgrees(n.lhs, ln, offsets);
      ArithAgrees(n.rhs, ln, offsets);
      assert Code(n, ln, offsets) == BinCode(n, ln, offsets);
    }
  }

  /** `gen_lval` accepts exactly the local variables. */
  lemma LvalAccepts(n: Node, offsets: seq<int>)
    requires Fits(n, |offsets|)
    ensures LvalCode(n, offsets).Ok? <==> n.LVar?
    ensures LvalCode(n, offsets).Err? ==> LvalCode(n, offsets).error == NotAnLvalue
  {
  }

  /** An assignment to anything but a local variable is rejected, whatever its right side. */
  lemma AssignRejects(n: Node, ln: nat, offsets: seq<int>)
    requires n.Assign? && !n.lhs.LVar? && Fits(n, |offsets|)
    ensures Code(n, ln, offsets) == Err(NotAnLvalue)
  {
    assert Code(n, ln, offsets) == AssignCode(n, ln, offsets);
  }

  /** `lea rax, [rbp-N]`, `push rax` pushes the address of the slot at offset N. */
  lemma LvalRuns(off: int, s: State)
    ensures Run([LeaLocal(off), Push(Rax)], s) ==
              Some(s.(rax := s.rbp - off).(stack := s.stack + [s.rbp - off]))
  {
    RunTwo(LeaLocal(off), Push(Rax), s);
  }

  /** `pop rax`, `mov rax, [rax]`, `push rax` replaces an address on top of the stack by what
      the memory holds there, or stops when nothing was ever stored there. */
  lemma LoadRuns(s: State, rest: seq<int>, a: int)
    requires s.stack == rest + [a]
    ensures Run([Pop(Rax), Load, Push(Rax)], s) ==
              if a in s.mem then Some(s.(stack := rest).(rax := s.mem[a]).(stack := rest + [s.mem[a]]))
              else None
  {
    assert s.stack[..|s.stack| - 1] == rest;
    var s1 := s.(stack := rest).(rax := a);
    assert Step(Pop(Rax), s) == Some(s1);
    RunThree(Pop(Rax), Load, Push(Rax), s);
  }

  /** `pop rdi`, `pop rax`, `mov [rax], rdi`, `push rdi`: with an address and a value on top of
      the stack, store the value at the address and leave the value alone on the stack. */
  lemma StoreRuns(s: State, rest: seq<int>, a: int, v: int)
    requires s.stack == rest + [a, v]
    ensures Run([Pop(Rdi), Pop(Rax), Store, Push(Rdi)], s).Some?
    ensures var t := Run([Pop(Rdi), Pop(Rax), Store, Push(Rdi)], s).value;
            t.stack == rest + [v] && t.mem == s.mem[a := v] && t.rbp == s.rbp
  {
    assert s.stack[..|s.stack| - 1] == rest + [a];
    assert (rest + [a])[..|rest|] == rest;
    var s1 := s.(stack := rest + [a]).(rdi := v);
    var s2 := s1.(stack := rest).(rax := a);
    assert Step(Pop(Rdi), s) == Some(s1);
    assert Step(Pop(Rax), s1) == Some(s2);
    RunTwo(Pop(Rdi), Pop(Rax), s);
    RunTwo(Store, Push(Rdi), s2);
    assert [Pop(Rdi), Pop(Rax), Store, Push(Rdi)] == [Pop(Rdi), Pop(Rax)] + [Store, Push(Rdi)];
    RunCat([Pop(Rdi), Pop(Rax)], [Store, Push(Rdi)], s);
  }

  /** The code of an expression of numbers and locals runs to its end exactly when `Eval`
      has a value for it (no division by zero, no local read before it is written), and then
      pushes that value onto the stack, leaves the memory as `Eval` says and rbp alone. */
  lemma {:induction false} LocalComputes(n: Node, ln: nat, offsets: seq<int>, s: State)
    requires IsLocalExpr(n) && Fits(n, |offsets|)
    ensures Code(n, ln, offsets).Ok?
    ensures Run(Code(n, ln, offsets).value.code, s).Some? <==> Eval(n, s.rbp, offsets, s.mem).Some?
    ensures Run(Code(n, ln, offsets).value.code, s).Some? ==>
              var t, e := Run(Code(n, ln, offsets).value.code, s).value, Eval(n, s.rbp, offsets, s.mem).value;
              t.stack == s.stack + [e.0] && t.mem == e.1 && t.rbp == s.rbp
    decreases n, 1
  {
    match n
    case Num(v) => RunOne(PushImm(v), s);
    case LVar(_) => LVarComputes(n, ln, offsets, s);
    case Assign(_, _) => AssignComputes(n, ln, offsets, s);
    case Bin(_, _, _) => BinComputes(n, ln, offsets, s);
  }

  lemma LVarComputes(n: Node, ln: nat, offsets: seq<int>, s: State)
    requires n.LVar? && Fits(n, |offsets|)
    ensures Code(n, ln, offsets).Ok?
    ensures Run(Code(n, ln, offsets).value.code, s).Some? <==> Eval(n, s.rbp, offsets, s.mem).Some?
    ensures Run(Code(n, ln, offsets).value.code, s).Some? ==>
              var t, e := Run(Code(n, ln, offsets).value.code, s).value, Eval(n, s.rbp, offsets, s.mem).value;
              t.stack == s.stack + [e.0] && t.mem == e.1 && t.rbp == s.rbp
    decreases n, 0
  {
    var a := s.rbp - offsets[n.index];
    var lv, load := [LeaLocal(offsets[n.index]), Push(Rax)], [Pop(Rax), Load, Push(Rax)];
    assert Code(n, ln, offsets).value.code == lv + load;
    LvalRuns(offsets[n.index], s);
    var s1 := s.(rax := a).(stack := s.stack + [a]);
    LoadRuns(s1, s.stack, a);
    RunCat(lv, load, s);
  }

  lemma {:induction false} AssignComputes(n: Node, ln: nat, offsets: seq<int>, s: State)
    requires n.Assign? && IsLocalExpr(n) && Fits(n, |offsets|)
    ensures Code(n, ln, offsets).Ok?
    ensures Run(Code(n, ln, offsets).value.code, s).Some? <==> Eval(n, s.rbp, offsets, s.mem).Some?
    ensures Run(Code(n, ln, offsets).value.code, s).Some? ==>
              var t, e := Run(Code(n, ln, offsets).value.code, s).value, Eval(n, s.rbp, offsets, s.mem).value;
              t.stack == s.stack + [e.0] && t.mem == e.1 && t.rbp == s.rbp
    decreases n, 0
  {
    LocalComputes(n.rhs, ln, offsets, s.(rax := s.rbp - offsets[n.lhs.index]).(stack := s.stack + [s.rbp - offsets[n.lhs.index]]));
    assert Code(n, ln, offsets) == AssignCode(n, ln, offsets);
    var a := s.rbp - offsets[n.lhs.index];
    var lv := [LeaLocal(offsets[n.lhs.index]), Push(Rax)];
    var rc := Code(n.rhs, ln, offsets).value;
    var store := [Pop(Rdi), Pop(Rax), Store, Push(Rdi)];
    LvalRuns(offsets[n.lhs.index], s);
    var s1 := s.(rax := a).(stack := s.stack + [a]);
    RunCat(lv, rc.code, s);
    RunCat(lv + rc.code, store, s);
    if Run(rc.code, s1).Some? {
      var s2 := Run(rc.code, s1).value;
      var e := Eval(n.rhs, s1.rbp, offsets, s1.mem).value;
      assert s2.stack == s.stack + [a, e.0] by {
        assert s2.stack == s.stack + [a] + [e.0];
      }
      StoreRuns(s2, s.stack, a, e.0);
    }
  }

  lemma {:induction false} BinComputes(n: Node, ln: nat, offsets: seq<int>, s: State)
    requires n.Bin? && IsLocalExpr(n) && Fits(n, |offsets|)
    ensures Code(n, ln, offsets).Ok?
    ensures Run(Code(n, ln, offsets).value.code, s).Some? <==> Eval(n, s.rbp, offsets, s.mem).Some?
    ensures Run(Code(n, ln, offsets).value.code, s).Some? ==>
              var t, e := Run(Code(n, ln, offsets).value.code, s).value, Eval(n, s.rbp, offsets, s.mem).value;
              t.stack == s.stack + [e.0] && t.mem == e.1 && t.rbp == s.rbp
    decreases n, 0
  {
    LocalComputes(n.lhs, ln, offsets, s);
    var x := Code(n.lhs, ln, offsets).value;
    LocalComputes(n.rhs, x.next, offsets, s);
    assert Code(n, ln, offsets) == BinCode(n, ln, offsets);
    var y := Code(n.rhs, x.next, offsets).value;
    RunCat(x.code, y.code, s);
    RunCat(x.code + y.code, Gen9cc.Tail(n.op), s);
    if Run(x.code, s).Some? {
      var s1 := Run(x.code, s).value;
      var p := Eval(n.lhs, s.rbp, offsets, s.mem).value;
      LocalComputes(n.rhs, x.next, offsets, s1);
      if Run(y.code, s1).Some? {
        var s2 := Run(y.code, s1).value;
        var q := Eval(n.rhs, s.rbp, offsets, p.1).value;
        assert s2.stack == s.stack + [p.0, q.0] by {
          assert s2.stack == s.stack + [p.0] + [q.0];
        }
        Gen9cc.TailComputes(n.op, s2, s.stack, p.0, q.0);
      }
    }
  }

  /** The code of a list of expressions runs to its end exactly when `EvalList` has values for
      it, and then pushes them in order, first value deepest. */
  lemma {:induction false} ListComputes(ns: seq<Node>, ln: nat, offsets: seq<int>, s: State)
    requires forall n <- ns :: IsLocalExpr(n) && Fits(n, |offsets|)
    ensures SeqCode(ns, ln, offsets).Ok?
    ensures Run(SeqCode(ns, ln, offsets).value.code, s).Some? <==> EvalList(ns, s.rbp, offsets, s.mem).Some?
    ensures Run(SeqCode(ns, ln, offsets).value.code, s).Some? ==>
              var t, e := Run(SeqCode(ns, ln, offsets).value.code, s).value, EvalList(ns, s.rbp, offsets, s.mem).value;
              t.stack == s.stack + e.0 && t.mem == e.1 && t.rbp == s.rbp
    decreases |ns|
  {
    if |ns| == 0 {
      assert s.stack + [] == s.stack;
    } else {
      var init, last := ns[..|ns| - 1], ns[|ns| - 1];
      assert forall n <- init :: n in ns;
      ListComputes(init, ln, offsets, s);
      var p := SeqCode(init, ln, offsets).value;
      LocalComputes(last, p.next, offsets, s);
      var c := Code(last, p.next, offsets).value;
      RunCat(p.code, c.code, s);
      if Run(p.code, s).Some? {
        var s1 := Run(p.code, s).value;
        var vs := EvalList(init, s.rbp, offsets, s.mem).value;
        LocalComputes(last, p.next, offsets, s1);
        if Run(c.code, s1).Some? {
          var e := Eval(last, s.rbp, offsets, vs.1).value;
          assert s.stack + vs.0 + [e.0] == s.stack + (vs.0 + [e.0]);
        }
      }
    }
  }

  /** The six argument registers are distinct, and none of them is rsp or rbp. */
  lemma ArgRegsDistinct()
    ensures forall j, k :: 0 <= j < k < |ArgRegs| ==> ArgRegs[j] != ArgRegs[k]
    ensures forall k :: 0 <= k < |ArgRegs| ==> ArgRegs[k] != Rsp && ArgRegs[k] != Rbp
  {
  }

  /** `pop r` with v on top of the stack. */
  lemma PopRuns(r: Reg, s: State, rest: seq<int>, v: int)
    requires r != Rsp && s.stack == rest + [v]
    ensures Run([Pop(r)], s) == Some(Put(s.(stack := rest), r, v))
  {
    RunOne(Pop(r), s);
    assert s.stack[..|s.stack| - 1] == rest;
  }

  /** `pop argregs[n-1]`, ..., `pop argregs[i]`: with the n argument values on top of the
      stack, the last on top, each register `argregs[k]` for i <= k < n receives the k-th value
      and the values below argument i stay on the stack. */
  lemma {:induction false} PopsLoad(n: nat, i: nat, s: State, rest: seq<int>, vs: seq<int>)
    requires i <= n <= |ArgRegs| && |vs| == n && s.stack == rest + vs
    ensures Run(Pops(n, i), s).Some?
    ensures var t := Run(Pops(n, i), s).value;
            && t.stack == rest + vs[..i] && t.mem == s.mem && t.rbp == s.rbp
            && forall k :: i <= k < n ==> Get(t, ArgRegs[k]) == vs[k]
    decreases n - i
  {
    if i == n {
      assert vs[..i] == vs;
    } else {
      PopsLoad(n, i + 1, s, rest, vs);
      var t1 := Run(Pops(n, i + 1), s).value;
      PopNext(n, i, t1, rest, vs);
      RunCat(Pops(n, i + 1), [Pop(ArgRegs[i])], s);
    }
  }

  /** One pop of the sequence: `pop argregs[i]` takes argument i off the stack into its
      register and leaves the registers of the later arguments alone. */
  lemma PopNext(n: nat, i: nat, t1: State, rest: seq<int>, vs: seq<int>)
    requires i < n <= |ArgRegs| && |vs| == n && t1.stack == rest + vs[..i + 1]
    requires forall k :: i < k < n ==> Get(t1, ArgRegs[k]) == vs[k]
    ensures Run([Pop(ArgRegs[i])], t1).Some?
    ensures var t := Run([Pop(ArgRegs[i])], t1).value;
            && t.stack == rest + vs[..i] && t.mem == t1.mem && t.rbp == t1.rbp
            && forall k :: i <= k < n ==> Get(t, ArgRegs[k]) == vs[k]
  {
    ArgRegsDistinct();
    var r := ArgRegs[i];
    assert t1.stack == rest + vs[..i] + [vs[i]] by {
      assert vs[..i + 1] == vs[..i] + [vs[i]];
    }
    PopRuns(r, t1, rest + vs[..i], vs[i]);
    var t := Put(t1.(stack := rest + vs[..i]), r, vs[i]);
    assert Get(t, Rbp) == Get(t1, Rbp);
    forall k | i <= k < n
      ensures Get(t, ArgRegs[k]) == vs[k]
    {
      if k > i {
        assert ArgRegs[k] != r;
      }
    }
  }

  /** A call whose arguments are expressions of numbers and locals: the arguments are
      computed left to right, and once they are popped, `argregs[k]` holds the value of the
      k-th argument and the stack is as it was before the call; the code stops before the
      call only when an argument has no value. */
  lemma ArgsLoad(n: Node, ln: nat, offsets: seq<int>, s: State)
    requires n.FunCall? && Fits(n, |offsets|) && forall a <- n.args :: IsLocalExpr(a)
    ensures SeqCode(n.args, ln, offsets).Ok?
    ensures var code := SeqCode(n.args, ln, offsets).value.code + Pops(|n.args|, 0);
            && (Run(code, s).Some? <==> EvalList(n.args, s.rbp, offsets, s.mem).Some?)
            && (Run(code, s).Some? ==>
                  var t, e := Run(code, s).value, EvalList(n.args, s.rbp, offsets, s.mem).value;
                  && t.stack == s.stack && t.mem == e.1 && t.rbp == s.rbp
                  && forall k :: 0 <= k < |n.args| ==> Get(t, ArgRegs[k]) == e.0[k])
  {
    ListComputes(n.args, ln, offsets, s);
    var a := SeqCode(n.args, ln, offsets).value;
    RunCat(a.code, Pops(|n.args|, 0), s);
    if Run(a.code, s).Some? {
      var e := EvalList(n.args, s.rbp, offsets, s.mem).value;
      PopsLoad(|n.args|, 0, Run(a.code, s).value, s.stack, e.0);
      assert e.0[..0] == [];
      assert s.stack + [] == s.stack;
    }
  }
}
