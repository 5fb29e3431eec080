/** The labels of gen.c's code: every number the label counter hands out is used by one
    construct only, each label is defined once, and every jump lands on a label of the code or
    on the shared `.L.return`. */
module CodeGenLabels {
  import opened Base
  import opened Ast
  import opened Asm
  import opened CodeGen
  import Gen9cc

  lemma CountCat3(a: seq<Instr>, b: seq<Instr>, c: seq<Instr>)
    ensures forall l :: Count(a + b + c, l) == Count(a, l) + Count(b, l) + Count(c, l)
    ensures forall l :: JumpsTo(a + b + c, l) <==> JumpsTo(a, l) || JumpsTo(b, l) || JumpsTo(c, l)
  {
    CountCat(a, b);
    CountCat(a + b, c);
  }

  lemma GuardLabels(target: Label)
    ensures forall l :: Count(Guard(target), l) == 0 && (JumpsTo(Guard(target), l) <==> l == target)
  {
    Plain([Pop(Rax), CmpZero]);
    One(Je(target));
    CountCat([Pop(Rax), CmpZero], [Je(target)]);
  }

  lemma {:induction false} PopsPlain(n: nat, i: nat)
    requires i <= n <= |ArgRegs|
    ensures forall l :: Count(Pops(n, i), l) == 0 && !JumpsTo(Pops(n, i), l)
    decreases n - i
  {
    if i < n {
      PopsPlain(n, i + 1);
      One(Pop(ArgRegs[i]));
      CountCat(Pops(n, i + 1), [Pop(ArgRegs[i])]);
    }
  }

  /** The call sequence defines its two labels once each, and its two jumps go to them. */
  lemma CallLabels(name: string, ln: nat)
    ensures forall l :: Count(CallCode(name, ln), l) == (if l == Numbered(CallSlow, ln) || l == Numbered(EndCall, ln) then 1 else 0)
    ensures forall l :: JumpsTo(CallCode(name, ln), l) <==> l == Numbered(CallSlow, ln) || l == Numbered(EndCall, ln)
  {
    var slow, end := Numbered(CallSlow, ln), Numbered(EndCall, ln);
    var test, aligned, padded, last := CallTest(ln), CallAligned(name, ln), CallPadded(name, ln), [Def(end), Push(Rax)];
    CallPieces(name, ln);
    forall l
      ensures Count(CallCode(name, ln), l) == (if l == slow || l == end then 1 else 0)
      ensures JumpsTo(CallCode(name, ln), l) <==> l == slow || l == end
    {
      CatAt(test, aligned, l);
      CatAt(test + aligned, padded, l);
      CatAt(test + aligned + padded, last, l);
    }
  }

  lemma CallPieces(name: string, ln: nat)
    ensures forall l :: Count(CallTest(ln), l) == 0 && (JumpsTo(CallTest(ln), l) <==> l == Numbered(CallSlow, ln))
    ensures forall l :: Count(CallAligned(name, ln), l) == 0 && (JumpsTo(CallAligned(name, ln), l) <==> l == Numbered(EndCall, ln))
    ensures forall l :: Count(CallPadded(name, ln), l) == (if l == Numbered(CallSlow, ln) then 1 else 0) && !JumpsTo(CallPadded(name, ln), l)
    ensures forall l :: Count([Def(Numbered(EndCall, ln)), Push(Rax)], l) == (if l == Numbered(EndCall, ln) then 1 else 0)
    ensures forall l :: !JumpsTo([Def(Numbered(EndCall, ln)), Push(Rax)], l)
  {
    PlainThenJump(MovReg(Rax, Rsp), AndImm(Rax, 15), Jnz(Numbered(CallSlow, ln)));
    PlainThenJump(MovImm(Rax, 0), Call(name), Jmp(Numbered(EndCall, ln)));
    DefThenPlain(Def(Numbered(CallSlow, ln)), [SubRsp(8), MovImm(Rax, 0), Call(name), AddRsp(8)]);
    DefThenPlain(Def(Numbered(EndCall, ln)), [Push(Rax)]);
    assert [Def(Numbered(EndCall, ln))] + [Push(Rax)] == [Def(Numbered(EndCall, ln)), Push(Rax)];
    assert [Def(Numbered(CallSlow, ln))] + [SubRsp(8), MovImm(Rax, 0), Call(name), AddRsp(8)] == CallPadded(name, ln);
  }

  /** Two plain instructions and a jump define nothing and jump only where the jump goes. */
  lemma PlainThenJump(i: Instr, j: Instr, k: Instr)
    requires !i.Def? && !i.Je? && !i.Jnz? && !i.Jmp? && !j.Def? && !j.Je? && !j.Jnz? && !j.Jmp?
    requires k.Je? || k.Jnz? || k.Jmp?
    ensures forall l :: Count([i, j, k], l) == 0 && (JumpsTo([i, j, k], l) <==> l == k.target)
  {
    assert [i, j, k][1..] == [j, k];
    assert [j, k][1..] == [k];
    One(k);
  }

  /** A label line before plain code defines that label alone and jumps nowhere. */
  lemma DefThenPlain(d: Instr, rest: seq<Instr>)
    requires d.Def?
    requires forall k :: 0 <= k < |rest| ==> !rest[k].Def? && !rest[k].Je? && !rest[k].Jnz? && !rest[k].Jmp?
    ensures forall l :: Count([d] + rest, l) == (if l == d.defined then 1 else 0) && !JumpsTo([d] + rest, l)
  {
    assert ([d] + rest)[1..] == rest;
    Plain(rest);
  }

  /** The code of a tree defines each label once, only labels numbered from the counter's
      value before to its value after, and jumps only to its own labels or to `.L.return`. */
  lemma {:induction false} Labels(n: Node, ln: nat, offsets: seq<int>)
    requires Fits(n, |offsets|)
    ensures Code(n, ln, offsets).Ok? ==>
              Labelled(Code(n, ln, offsets).value.code, ln, Code(n, ln, offsets).value.next)
    decreases n, 1
  {
    match n
    case Num(_) => LeafLabels(n, ln, offsets);
    case LVar(_) => LeafLabels(n, ln, offsets);
    case Assign(_, _) => AssignLabels(n, ln, offsets);
    case ExprStmt(_) => StmtLabels(n, ln, offsets);
    case Return(_) => StmtLabels(n, ln, offsets);
    case If(_, _, None) => IfLabels(n, ln, offsets);
    case If(_, _, Some(_)) => IfElseLabels(n, ln, offsets);
    case While(_, _) => WhileLabels(n, ln, offsets);
    case For(_, _, _, _) => ForLabels(n, ln, offsets);
    case Block(ss) => SeqLabels(ss, ln, offsets);
    case FunCall(_, _) => CallOfLabels(n, ln, offsets);
    case Bin(_, _, _) => BinLabels(n, ln, offsets);
  }

  lemma {:induction false} OptLabels(n: Option<Node>, ln: nat, offsets: seq<int>)
    requires n.Some? ==> Fits(n.value, |offsets|)
    ensures OptCode(n, ln, offsets).Ok? ==>
              Labelled(OptCode(n, ln, offsets).value.code, ln, OptCode(n, ln, offsets).value.next)
    decreases n, 2
  {
    if n.Some? {
      Labels(n.value, ln, offsets);
    } else {
      Plain([]);
    }
  }

  lemma {:induction false} SeqLabels(ns: seq<Node>, ln: nat, offsets: seq<int>)
    requires forall n <- ns :: Fits(n, |offsets|)
    ensures SeqCode(ns, ln, offsets).Ok? ==>
              Labelled(SeqCode(ns, ln, offsets).value.code, ln, SeqCode(ns, ln, offsets).value.next)
    decreases ns, 2
  {
    if SeqCode(ns, ln, offsets).Ok? {
      if |ns| == 0 {
        Plain([]);
      } else {
        var init := ns[..|ns| - 1];
        var p := SeqCode(init, ln, offsets).value;
        SeqLabels(init, ln, offsets);
        Labels(ns[|ns| - 1], p.next, offsets);
        Juxtapose(p.code, Code(ns[|ns| - 1], p.next, offsets).value.code, ln, p.next,
                  SeqCode(ns, ln, offsets).value.next);
      }
    }
  }

  lemma LeafLabels(n: Node, ln: nat, offsets: seq<int>)
    requires (n.Num? || n.LVar?) && Fits(n, |offsets|)
    ensures Code(n, ln, offsets).Ok? ==>
              Labelled(Code(n, ln, offsets).value.code, ln, Code(n, ln, offsets).value.next)
    decreases n, 0
  {
    if n.Num? {
      Plain([PushImm(n.val)]);
    } else {
      Plain([LeaLocal(offsets[n.index]), Push(Rax)] + [Pop(Rax), Load, Push(Rax)]);
    }
  }

  lemma {:induction false} AssignLabels(n: Node, ln: nat, offsets: seq<int>)
    requires n.Assign? && Fits(n, |offsets|)
    ensures Code(n, ln, offsets).Ok? ==>
              Labelled(Code(n, ln, offsets).value.code, ln, Code(n, ln, offsets).value.next)
    decreases n, 0
  {
    if Code(n, ln, offsets).Ok? {
      assert Code(n, ln, offsets) == AssignCode(n, ln, offsets);
      Labels(n.rhs, ln, offsets);
      var lv, tail := [LeaLocal(offsets[n.lhs.index]), Push(Rax)], [Pop(Rdi), Pop(Rax), Store, Push(Rdi)];
      Plain(lv);
      Plain(tail);
      Around(lv, Code(n.rhs, ln, offsets).value.code, tail, ln, Code(n, ln, offsets).value.next);
    }
  }

  /** An expression statement drops the value; a `return` pops it and jumps to `.L.return`. */
  lemma {:induction false} StmtLabels(n: Node, ln: nat, offsets: seq<int>)
    requires (n.ExprStmt? || n.Return?) && Fits(n, |offsets|)
    ensures Code(n, ln, offsets).Ok? ==>
              Labelled(Code(n, ln, offsets).value.code, ln, Code(n, ln, offsets).value.next)
    decreases n, 0
  {
    if Code(n, ln, offsets).Ok? {
      Labels(n.expr, ln, offsets);
      var c := Code(n.expr, ln, offsets).value;
      Plain([]);
      if n.ExprStmt? {
        Plain([AddRsp(8)]);
        assert c.code + [AddRsp(8)] == [] + c.code + [AddRsp(8)];
        Around([], c.code, [AddRsp(8)], ln, c.next);
      } else {
        Plain([Pop(Rax)]);
        One(Jmp(Epilogue));
        CountCat([Pop(Rax)], [Jmp(Epilogue)]);
        assert c.code + [Pop(Rax), Jmp(Epilogue)] == [] + c.code + ([Pop(Rax)] + [Jmp(Epilogue)]);
        Around([], c.code, [Pop(Rax)] + [Jmp(Epilogue)], ln, c.next);
      }
    }
  }

  lemma {:induction false} BinLabels(n: Node, ln: nat, offsets: seq<int>)
    requires n.Bin? && Fits(n, |offsets|)
    ensures Code(n, ln, offsets).Ok? ==>
              Labelled(Code(n, ln, offsets).value.code, ln, Code(n, ln, offsets).value.next)
    decreases n, 0
  {
    if Code(n, ln, offsets).Ok? {
      assert Code(n, ln, offsets) == BinCode(n, ln, offsets);
      var x := Code(n.lhs, ln, offsets).value;
      var y := Code(n.rhs, x.next, offsets).value;
      Labels(n.lhs, ln, offsets);
      Labels(n.rhs, x.next, offsets);
      Juxtapose(x.code, y.code, ln, x.next, y.next);
      Plain([]);
      Plain(Gen9cc.Tail(n.op));
      assert x.code + y.code + Gen9cc.Tail(n.op) == [] + (x.code + y.code) + Gen9cc.Tail(n.op);
      Around([], x.code + y.code, Gen9cc.Tail(n.op), ln, y.next);
    }
  }

  /** The glue of an `if` without `else`: the guard's jump and the `.L.endif` it goes to. */
  lemma IfGlue(ln: nat)
    ensures var glue := Guard(Numbered(EndIf, ln)) + [Def(Numbered(EndIf, ln))];
            Unique(glue) && NumberedIn(glue, ln, ln + 1) && forall l :: JumpsTo(glue, l) ==> Count(glue, l) > 0
  {
    GuardLabels(Numbered(EndIf, ln));
    One(Def(Numbered(EndIf, ln)));
    CountCat(Guard(Numbered(EndIf, ln)), [Def(Numbered(EndIf, ln))]);
  }

  lemma {:induction false} IfLabels(n: Node, ln: nat, offsets: seq<int>)
    requires n.If? && n.els.None? && Fits(n, |offsets|)
    ensures Code(n, ln, offsets).Ok? ==>
              Labelled(Code(n, ln, offsets).value.code, ln, Code(n, ln, offsets).value.next)
    decreases n, 0
  {
    var r := Code(n, ln, offsets);
    if r.Ok? {
      assert r == IfCode(n, ln, offsets);
      var c := Code(n.cond, ln + 1, offsets).value;
      var t := Code(n.thenBranch, c.next, offsets).value;
      Labels(n.cond, ln + 1, offsets);
      Labels(n.thenBranch, c.next, offsets);
      Juxtapose(c.code, t.code, ln + 1, c.next, t.next);
      var g, d := Guard(Numbered(EndIf, ln)), [Def(Numbered(EndIf, ln))];
      assert r.value.code == c.code + g + t.code + d;
      forall l
        ensures Count(r.value.code, l) == Count(c.code + t.code, l) + Count(g + d, l)
        ensures JumpsTo(r.value.code, l) <==> JumpsTo(c.code + t.code, l) || JumpsTo(g + d, l)
      {
        CatAt(c.code, g, l);
        CatAt(c.code + g, t.code, l);
        CatAt(c.code + g + t.code, d, l);
        CatAt(c.code, t.code, l);
        CatAt(g, d, l);
      }
      IfGlue(ln);
      Glue(r.value.code, c.code + t.code, g + d, ln, ln + 1, t.next);
    }
  }

  /** The glue of an `if` with `else`: the guard's jump to `.L.else`, the jump over the `else`
      branch to `.L.endif`, and both labels. */
  lemma IfElseGlue(els: Label, endif: Label, ln: nat)
    requires els.Numbered? && endif.Numbered? && els.n == ln && endif.n == ln && els != endif
    ensures var glue := Guard(els) + [Jmp(endif), Def(els)] + [Def(endif)];
            Unique(glue) && NumberedIn(glue, ln, ln + 1) && forall l :: JumpsTo(glue, l) ==> Count(glue, l) > 0
  {
    var mid := [Jmp(endif), Def(els)];
    var glue := Guard(els) + mid + [Def(endif)];
    GuardLabels(els);
    JumpThenDef(endif, els);
    One(Def(endif));
    forall l
      ensures Count(glue, l) == (if l == els || l == endif then 1 else 0)
      ensures JumpsTo(glue, l) ==> l == els || l == endif
    {
      CatAt(Guard(els), mid, l);
      CatAt(Guard(els) + mid, [Def(endif)], l);
    }
    TwoLabels(glue, els, endif, ln);
  }

  lemma {:induction false} IfElseLabels(n: Node, ln: nat, offsets: seq<int>)
    requires n.If? && n.els.Some? && Fits(n, |offsets|)
    ensures Code(n, ln, offsets).Ok? ==>
              Labelled(Code(n, ln, offsets).value.code, ln, Code(n, ln, offsets).value.next)
    decreases n, 0
  {
    var r := Code(n, ln, offsets);
    if r.Ok? {
      assert r == IfCode(n, ln, offsets);
      var c := Code(n.cond, ln + 1, offsets).value;
      var t := Code(n.thenBranch, c.next, offsets).value;
      var x := Code(n.els.value, t.next, offsets).value;
      Labels(n.cond, ln + 1, offsets);
      Labels(n.thenBranch, c.next, offsets);
      Labels(n.els.value, t.next, offsets);
      Juxtapose(c.code, t.code, ln + 1, c.next, t.next);
      Juxtapose(c.code + t.code, x.code, ln + 1, t.next, x.next);
      var els, endif := Numbered(Else, ln), Numbered(EndIf, ln);
      var g, mid, d := Guard(els), [Jmp(endif), Def(els)], [Def(endif)];
      assert r.value.code == c.code + g + t.code + mid + x.code + d;
      forall l
        ensures Count(r.value.code, l) == Count(c.code + t.code + x.code, l) + Count(g + mid + d, l)
        ensures JumpsTo(r.value.code, l) <==> JumpsTo(c.code + t.code + x.code, l) || JumpsTo(g + mid + d, l)
      {
        CatAt(c.code, g, l);
        CatAt(c.code + g, t.code, l);
        CatAt(c.code + g + t.code, mid, l);
        CatAt(c.code + g + t.code + mid, x.code, l);
        CatAt(c.code + g + t.code + mid + x.code, d, l);
        CatAt(c.code, t.code, l);
        CatAt(c.code + t.code, x.code, l);
        CatAt(g, mid, l);
        CatAt(g + mid, d, l);
      }
      IfElseGlue(els, endif, ln);
      Glue(r.value.code, c.code + t.code + x.code, g + mid + d, ln, ln + 1, x.next);
    }
  }

  /** The glue of a loop: the label `top` at the top, the guard's jump to `end` when there is
      a condition, the jump back to the top and `end`. */
  lemma LoopGlue(top: Label, end: Label, ln: nat, guarded: bool)
    requires top.Numbered? && end.Numbered? && top.n == ln && end.n == ln && top != end
    ensures var glue := LoopFrame(top, end, guarded);
            Unique(glue) && NumberedIn(glue, ln, ln + 1) && forall l :: JumpsTo(glue, l) ==> Count(glue, l) > 0
  {
    var back := [Jmp(top), Def(end)];
    var g: seq<Instr> := if guarded then Guard(end) else [];
    var glue := LoopFrame(top, end, guarded);
    One(Def(top));
    JumpThenDef(top, end);
    if guarded {
      GuardLabels(end);
    } else {
      Plain(g);
    }
    forall l
      ensures Count(glue, l) == (if l == top || l == end then 1 else 0)
      ensures JumpsTo(glue, l) ==> l == top || l == end
    {
      CatAt([Def(top)], g, l);
      CatAt([Def(top)] + g, back, l);
    }
    TwoLabels(glue, top, end, ln);
  }

  /** `jmp a` followed by the label line `b:`. */
  lemma JumpThenDef(a: Label, b: Label)
    ensures forall l :: Count([Jmp(a), Def(b)], l) == (if l == b then 1 else 0)
    ensures forall l :: JumpsTo([Jmp(a), Def(b)], l) <==> l == a
  {
    assert [Jmp(a), Def(b)][1..] == [Def(b)];
    One(Def(b));
  }

  lemma {:induction false} WhileLabels(n: Node, ln: nat, offsets: seq<int>)
    requires n.While? && Fits(n, |offsets|)
    ensures Code(n, ln, offsets).Ok? ==>
              Labelled(Code(n, ln, offsets).value.code, ln, Code(n, ln, offsets).value.next)
    decreases n, 0
  {
    var r := Code(n, ln, offsets);
    if r.Ok? {
      assert r == WhileCode(n, ln, offsets);
      var c := Code(n.cond, ln + 1, offsets).value;
      var b := Code(n.body, c.next, offsets).value;
      Labels(n.cond, ln + 1, offsets);
      Labels(n.body, c.next, offsets);
      Juxtapose(c.code, b.code, ln + 1, c.next, b.next);
      var top, end := Numbered(WhileTop, ln), Numbered(EndWhile, ln);
      var h, g, back := [Def(top)], Guard(end), [Jmp(top), Def(end)];
      assert r.value.code == h + c.code + g + b.code + back;
      forall l
        ensures Count(r.value.code, l) == Count(c.code + b.code, l) + Count(h + g + back, l)
        ensures JumpsTo(r.value.code, l) <==> JumpsTo(c.code + b.code, l) || JumpsTo(h + g + back, l)
      {
        CatAt(h, c.code, l);
        CatAt(h + c.code, g, l);
        CatAt(h + c.code + g, b.code, l);
        CatAt(h + c.code + g + b.code, back, l);
        CatAt(c.code, b.code, l);
        CatAt(h, g, l);
        CatAt(h + g, back, l);
      }
      LoopGlue(top, end, ln, true);
      assert LoopFrame(top, end, true) == h + g + back;
      Glue(r.value.code, c.code + b.code, h + g + back, ln, ln + 1, b.next);
    }
  }

  /** The pieces of a `for` in the order gen.c prints them: the code of init, cond, body and inc
      on one side, the loop's own instructions on the other. */
  lemma ForShuffle(ln: nat, guarded: bool, i: seq<Instr>, c: seq<Instr>, b: seq<Instr>, x: seq<Instr>)
    ensures var code, frame := ForText(ln, guarded, i, c, b, x), LoopFrame(Numbered(ForTop, ln), Numbered(EndFor, ln), guarded);
            forall l :: (Count(code, l) == Count(i + c + b + x, l) + Count(frame, l))
                        && (JumpsTo(code, l) <==> JumpsTo(i + c + b + x, l) || JumpsTo(frame, l))
  {
    var h, g, k := [Def(Numbered(ForTop, ln))], if guarded then Guard(Numbered(EndFor, ln)) else [],
                   [Jmp(Numbered(ForTop, ln)), Def(Numbered(EndFor, ln))];
    forall l
      ensures Count(i + h + c + g + b + x + k, l) == Count(i + c + b + x, l) + Count(h + g + k, l)
      ensures JumpsTo(i + h + c + g + b + x + k, l) <==> JumpsTo(i + c + b + x, l) || JumpsTo(h + g + k, l)
    {
      CatAt(i, h, l);
      CatAt(i + h, c, l);
      CatAt(i + h + c, g, l);
      CatAt(i + h + c + g, b, l);
      CatAt(i + h + c + g + b, x, l);
      CatAt(i + h + c + g + b + x, k, l);
      CatAt(i, c, l);
      CatAt(i + c, b, l);
      CatAt(i + c + b, x, l);
      CatAt(h, g, l);
      CatAt(h + g, k, l);
    }
  }

  lemma {:induction false} ForLabels(n: Node, ln: nat, offsets: seq<int>)
    requires n.For? && Fits(n, |offsets|)
    ensures Code(n, ln, offsets).Ok? ==>
              Labelled(Code(n, ln, offsets).value.code, ln, Code(n, ln, offsets).value.next)
    decreases n, 0
  {
    var r := Code(n, ln, offsets);
    if r.Ok? {
      assert r == ForCode(n, ln, offsets);
      var i := OptCode(n.init, ln + 1, offsets).value;
      var c := OptCode(n.loopCond, i.next, offsets).value;
      var b := Code(n.body, c.next, offsets).value;
      var x := OptCode(n.inc, b.next, offsets).value;
      OptLabels(n.init, ln + 1, offsets);
      OptLabels(n.loopCond, i.next, offsets);
      Labels(n.body, c.next, offsets);
      OptLabels(n.inc, b.next, offsets);
      ForFrameLabels(ln, n.loopCond.Some?, i.code, c.code, b.code, x.code, i.next, c.next, b.next, x.next);
    }
  }

  /** A `for` whose four parts are labelled from consecutive ranges starting at ln + 1 is
      labelled from ln. */
  lemma ForFrameLabels(ln: nat, guarded: bool, i: seq<Instr>, c: seq<Instr>, b: seq<Instr>, x: seq<Instr>,
                       m1: nat, m2: nat, m3: nat, hi: nat)
    requires Labelled(i, ln + 1, m1) && Labelled(c, m1, m2) && Labelled(b, m2, m3) && Labelled(x, m3, hi)
    ensures Labelled(ForText(ln, guarded, i, c, b, x), ln, hi)
  {
    Juxtapose(i, c, ln + 1, m1, m2);
    Juxtapose(i + c, b, ln + 1, m2, m3);
    Juxtapose(i + c + b, x, ln + 1, m3, hi);
    var top, end := Numbered(ForTop, ln), Numbered(EndFor, ln);
    ForShuffle(ln, guarded, i, c, b, x);
    LoopGlue(top, end, ln, guarded);
    Glue(ForText(ln, guarded, i, c, b, x), i + c + b + x, LoopFrame(top, end, guarded), ln, ln + 1, hi);
  }

  /** A `for` jumps to its `.L.endfor.N` exactly when it has a condition to test: with no
      condition the guard is left out, and nothing else in the loop jumps there. It always jumps
      back to `.L.for.N`. */
  lemma ForGuard(n: Node, ln: nat, offsets: seq<int>)
    requires n.For? && Fits(n, |offsets|)
    ensures Code(n, ln, offsets).Ok? ==>
              && (JumpsTo(Code(n, ln, offsets).value.code, Numbered(EndFor, ln)) <==> n.loopCond.Some?)
              && JumpsTo(Code(n, ln, offsets).value.code, Numbered(ForTop, ln))
  {
    var r := Code(n, ln, offsets);
    if r.Ok? {
      assert r == ForCode(n, ln, offsets);
      var i := OptCode(n.init, ln + 1, offsets).value;
      var c := OptCode(n.loopCond, i.next, offsets).value;
      var b := Code(n.body, c.next, offsets).value;
      var x := OptCode(n.inc, b.next, offsets).value;
      OptLabels(n.init, ln + 1, offsets);
      OptLabels(n.loopCond, i.next, offsets);
      Labels(n.body, c.next, offsets);
      OptLabels(n.inc, b.next, offsets);
      ForFrameJumps(ln, n.loopCond.Some?, i.code, c.code, b.code, x.code, i.next, c.next, b.next, x.next);
    }
  }

  lemma ForFrameJumps(ln: nat, guarded: bool, i: seq<Instr>, c: seq<Instr>, b: seq<Instr>, x: seq<Instr>,
                      m1: nat, m2: nat, m3: nat, hi: nat)
    requires Labelled(i, ln + 1, m1) && Labelled(c, m1, m2) && Labelled(b, m2, m3) && Labelled(x, m3, hi)
    ensures JumpsTo(ForText(ln, guarded, i, c, b, x), Numbered(EndFor, ln)) <==> guarded
    ensures JumpsTo(ForText(ln, guarded, i, c, b, x), Numbered(ForTop, ln))
  {
    Juxtapose(i, c, ln + 1, m1, m2);
    Juxtapose(i + c, b, ln + 1, m2, m3);
    Juxtapose(i + c + b, x, ln + 1, m3, hi);
    var top, end := Numbered(ForTop, ln), Numbered(EndFor, ln);
    assert !JumpsTo(i + c + b + x, end) && !JumpsTo(i + c + b + x, top);
    ForShuffle(ln, guarded, i, c, b, x);
    FrameJumps(top, end, guarded);
  }

  /** The frame of a loop jumps back to its top, and to its end only when it is guarded. */
  lemma FrameJumps(top: Label, end: Label, guarded: bool)
    requires top != end
    ensures JumpsTo(LoopFrame(top, end, guarded), end) <==> guarded
    ensures JumpsTo(LoopFrame(top, end, guarded), top)
  {
    var g: seq<Instr> := if guarded then Guard(end) else [];
    One(Def(top));
    JumpThenDef(top, end);
    if guarded {
      GuardLabels(end);
    } else {
      Plain(g);
    }
    CatAt([Def(top)], g, end);
    CatAt([Def(top)] + g, [Jmp(top), Def(end)], end);
    CatAt([Def(top)], g, top);
    CatAt([Def(top)] + g, [Jmp(top), Def(end)], top);
  }

  /** A `while` always tests its condition: it jumps to `.L.endwhile.N` and back to
      `.L.while.N`. */
  lemma WhileGuard(n: Node, ln: nat, offsets: seq<int>)
    requires n.While? && Fits(n, |offsets|)
    ensures Code(n, ln, offsets).Ok? ==>
              && JumpsTo(Code(n, ln, offsets).value.code, Numbered(EndWhile, ln))
              && JumpsTo(Code(n, ln, offsets).value.code, Numbered(WhileTop, ln))
  {
    var r := Code(n, ln, offsets);
    if r.Ok? {
      assert r == WhileCode(n, ln, offsets);
      var c := Code(n.cond, ln + 1, offsets).value;
      var b := Code(n.body, c.next, offsets).value;
      var top, end := Numbered(WhileTop, ln), Numbered(EndWhile, ln);
      var h, g, back := [Def(top)], Guard(end), [Jmp(top), Def(end)];
      assert r.value.code == h + c.code + g + b.code + back;
      GuardLabels(end);
      JumpThenDef(top, end);
      CatAt(h + c.code, g, end);
      CatAt(h + c.code + g, b.code, end);
      CatAt(h + c.code + g + b.code, back, end);
      CatAt(h + c.code + g + b.code, back, top);
    }
  }

  lemma {:induction false} CallOfLabels(n: Node, ln: nat, offsets: seq<int>)
    requires n.FunCall? && Fits(n, |offsets|)
    ensures Code(n, ln, offsets).Ok? ==>
              Labelled(Code(n, ln, offsets).value.code, ln, Code(n, ln, offsets).value.next)
    decreases n, 0
  {
    var r := Code(n, ln, offsets);
    if r.Ok? {
      assert r == CallOf(n, ln, offsets);
      var a := SeqCode(n.args, ln, offsets).value;
      var pops, call := Pops(|n.args|, 0), CallCode(n.funcname, a.next);
      SeqLabels(n.args, ln, offsets);
      PopsPlain(|n.args|, 0);
      CallLabels(n.funcname, a.next);
      CountCat(a.code, pops);
      CountCat(a.code + pops, call);
      CountCat(pops, call);
      Glue(r.value.code, a.code, pops + call, a.next, ln, a.next);
    }
  }

  // ---------------------------------------------------------------------------------------
  // The whole program.

  /** What `gencode` prints defines every label once, among them `main` and the one
      `.L.return` every `return` jumps to, and every jump of it, those of the returns included,
      lands on a label it defines. */
  lemma ProgramLabels(nodes: seq<Node>, nlocals: nat)
    requires forall n <- nodes :: Fits(n, nlocals)
    requires Program(nodes, nlocals).Ok?
    ensures Unique(Program(nodes, nlocals).value)
    ensures Count(Program(nodes, nlocals).value, Epilogue) == 1
    ensures Count(Program(nodes, nlocals).value, Symbol("main")) == 1
    ensures forall l :: JumpsTo(Program(nodes, nlocals).value, l) ==> Count(Program(nodes, nlocals).value, l) > 0
  {
    var body := SeqCode(nodes, 0, FrameOffsets(nlocals)).value;
    SeqLabels(nodes, 0, FrameOffsets(nlocals));
    PrologueLabels(8 * nlocals);
    EpilogueLabels();
    Enclosed(Prologue(8 * nlocals), body.code, EpilogueCode(), body.next);
  }

  /** Labelled code between a head that defines only `main` and a tail that defines only
      `.L.return`, neither of them jumping. */
  lemma Enclosed(pro: seq<Instr>, body: seq<Instr>, epi: seq<Instr>, hi: nat)
    requires Labelled(body, 0, hi)
    requires forall l :: Count(pro, l) == (if l == Symbol("main") then 1 else 0) && !JumpsTo(pro, l)
    requires forall l :: Count(epi, l) == (if l == Epilogue then 1 else 0) && !JumpsTo(epi, l)
    ensures Unique(pro + body + epi)
    ensures Count(pro + body + epi, Epilogue) == 1 && Count(pro + body + epi, Symbol("main")) == 1
    ensures forall l :: JumpsTo(pro + body + epi, l) ==> Count(pro + body + epi, l) > 0
  {
    CountCat3(pro, body, epi);
  }

  /** The epilogue defines `.L.return` and nothing else, and does not jump. */
  lemma EpilogueLabels()
    ensures forall l :: Count(EpilogueCode(), l) == (if l == Epilogue then 1 else 0)
    ensures forall l :: !JumpsTo(EpilogueCode(), l)
  {
    DefThenPlain(Def(Epilogue), [MovReg(Rsp, Rbp), Pop(Rbp), Ret]);
    assert [Def(Epilogue)] + [MovReg(Rsp, Rbp), Pop(Rbp), Ret] == EpilogueCode();
  }

  /** The prologue defines `main` and nothing else, and does not jump. */
  lemma PrologueLabels(stackSize: int)
    ensures forall l :: Count(Prologue(stackSize), l) == (if l == Symbol("main") then 1 else 0)
    ensures forall l :: !JumpsTo(Prologue(stackSize), l)
  {
    var head := [IntelSyntax, Global("main")];
    var rest := [Push(Rbp), MovReg(Rbp, Rsp), SubRsp(stackSize)];
    Plain(head);
    DefThenPlain(Def(Symbol("main")), rest);
    CountCat(head, [Def(Symbol("main"))] + rest);
    assert head + ([Def(Symbol("main"))] + rest) == Prologue(stackSize);
  }
}
