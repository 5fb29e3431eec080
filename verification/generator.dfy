/** gen.c as it runs: the label counter `labelnumber` and the output are state that `gen`
    updates as it walks the tree, printing one instruction at a time (here: appending it to
    `out`). Every method is proved to print exactly what the functions of `CodeGen` say and to
    leave the counter where they say. An error (`gen_lval` on something that is not a local)
    stops the generation; what was printed before it is not specified. */
module Emitter {
  import opened Base
  import opened Ast
  import opened Asm
  import opened CodeGen
  import Gen9cc

  /** A function as `gencode` sees it: its top-level statements, its locals (by name, in list
      order) and what `gencode` writes into it, each local's offset and the frame size. */
  class Function {
    const nodes: seq<Node>
    const locals: seq<string>
    var offsets: seq<int>
    var stackSize: int

    constructor(nodes: seq<Node>, locals: seq<string>)
      ensures this.nodes == nodes && this.locals == locals
      ensures offsets == [] && stackSize == 0
    {
      this.nodes := nodes;
      this.locals := locals;
      offsets := [];
      stackSize := 0;
    }

    /** The loop at the start of `gencode`: each local in turn gets the next 8 bytes of the
        frame, and the frame size is what the last one got. */
    method AssignOffsets()
      modifies this
      ensures offsets == FrameOffsets(|locals|) && stackSize == 8 * |locals|
    {
      var o := 0;
      var i := 0;
      offsets := [];
      while i < |locals|
        invariant 0 <= i <= |locals|
        invariant o == 8 * i
        invariant offsets == FrameOffsets(i)
      {
        o := o + 8;
        offsets := offsets + [o];
        i := i + 1;
      }
      stackSize := o;
    }
  }

  class Generator {
    /** Everything printed so far. */
    var out: seq<Instr>
    /** `labelnumber`: the next label number to hand out. */
    var labelnumber: nat
    /** The offset of each local, as `gencode` assigned them. */
    const offsets: seq<int>

    constructor(offsets: seq<int>)
      ensures out == [] && labelnumber == 0 && this.offsets == offsets
    {
      out := [];
      labelnumber := 0;
      this.offsets := offsets;
    }

    /** The state after generating from out0 with result r: success exactly when r is one,
        and then r's code printed after out0 and the counter at r's next value. */
    ghost predicate Follows(r: Result<Emitted, GenError>, out0: seq<Instr>, ok: bool)
      reads this
    {
      ok == r.Ok? && (ok ==> out == out0 + r.value.code && labelnumber == r.value.next)
    }

    /** `gen_lval`. */
    method GenLval(n: Node) returns (ok: bool)
      requires Fits(n, |offsets|)
      modifies this
      ensures ok == LvalCode(n, offsets).Ok? && labelnumber == old(labelnumber)
      ensures ok ==> out == old(out) + LvalCode(n, offsets).value
    {
      if !n.LVar? {
        return false;
      }
      out := out + [LeaLocal(offsets[n.index])];
      out := out + [Push(Rax)];
      ok := true;
    }

    /** `gen`. */
    method Gen(n: Node) returns (ok: bool)
      requires Fits(n, |offsets|)
      modifies this
      ensures Follows(Code(n, old(labelnumber), offsets), old(out), ok)
      decreases n, 2
    {
      match n
      case Num(v) =>
        out := out + [PushImm(v)];
        ok := true;
      case LVar(_) =>
        ok := GenLval(n);
        out := out + [Pop(Rax), Load, Push(Rax)];
      case Assign(_, _) =>
        ok := GenAssign(n);
      case ExprStmt(e) =>
        ok := Gen(e);
        if ok {
          out := out + [AddRsp(8)];
        }
      case If(_, _, _) =>
        ok := GenIf(n);
      case While(_, _) =>
        ok := GenWhile(n);
      case For(_, _, _, _) =>
        ok := GenFor(n);
      case Block(_) =>
        ok := GenBlock(n);
      case FunCall(_, _) =>
        ok := GenCall(n);
      case Return(e) =>
        ok := Gen(e);
        if ok {
          out := out + [Pop(Rax), Jmp(Epilogue)];
        }
      case Bin(_, _, _) =>
        ok := GenBin(n);
    }

    method GenAssign(n: Node) returns (ok: bool)
      requires n.Assign? && Fits(n, |offsets|)
      modifies this
      ensures Follows(AssignCode(n, old(labelnumber), offsets), old(out), ok)
      decreases n, 1
    {
      ok := GenLval(n.lhs);
      if !ok {
        return;
      }
      ok := Gen(n.rhs);
      if !ok {
        return;
      }
      out := out + [Pop(Rdi), Pop(Rax), Store, Push(Rdi)];
    }

    method GenIf(n: Node) returns (ok: bool)
      requires n.If? && Fits(n, |offsets|)
      modifies this
      ensures Follows(IfCode(n, old(labelnumber), offsets), old(out), ok)
      decreases n, 1
    {
      var ln := labelnumber;
      labelnumber := labelnumber + 1;
      ghost var out0 := out;
      ok := Gen(n.cond);
      if !ok {
        return;
      }
      ghost var out1 := out;
      if n.els.None? {
        out := out + Guard(Numbered(EndIf, ln));
        ghost var out2 := out;
        ok := Gen(n.thenBranch);
        if !ok {
          return;
        }
        ghost var out3 := out;
        out := out + [Def(Numbered(EndIf, ln))];
        IfPieces(out0, out1, out2, out3, out, ln);
      } else {
        out := out + Guard(Numbered(Else, ln));
        ghost var out2 := out;
        ok := Gen(n.thenBranch);
        if !ok {
          return;
        }
        ghost var out3 := out;
        out := out + [Jmp(Numbered(EndIf, ln)), Def(Numbered(Else, ln))];
        ghost var out4 := out;
        ok := Gen(n.els.value);
        if !ok {
          return;
        }
        ghost var out5 := out;
        out := out + [Def(Numbered(EndIf, ln))];
        IfElsePieces(out0, out1, out2, out3, out4, out5, out, ln);
      }
    }

    method GenWhile(n: Node) returns (ok: bool)
      requires n.While? && Fits(n, |offsets|)
      modifies this
      ensures Follows(WhileCode(n, old(labelnumber), offsets), old(out), ok)
      decreases n, 1
    {
      var ln := labelnumber;
      labelnumber := labelnumber + 1;
      out := out + [Def(Numbered(WhileTop, ln))];
      ok := Gen(n.cond);
      if !ok {
        return;
      }
      out := out + Guard(Numbered(EndWhile, ln));
      ok := Gen(n.body);
      if !ok {
        return;
      }
      out := out + [Jmp(Numbered(WhileTop, ln)), Def(Numbered(EndWhile, ln))];
    }

    method GenFor(n: Node) returns (ok: bool)
      requires n.For? && Fits(n, |offsets|)
      modifies this
      ensures Follows(ForCode(n, old(labelnumber), offsets), old(out), ok)
      decreases n, 1
    {
      var ln := labelnumber;
      labelnumber := labelnumber + 1;
      ghost var out0 := out;
      ok := GenOpt(n.init);
      if !ok {
        return;
      }
      ghost var out1 := out;
      out := out + [Def(Numbered(ForTop, ln))];
      ghost var out2 := out;
      ok := GenOpt(n.loopCond);
      if !ok {
        return;
      }
      ghost var out3 := out;
      if n.loopCond.Some? {
        out := out + Guard(Numbered(EndFor, ln));
      }
      ghost var out4 := out;
      ok := Gen(n.body);
      if !ok {
        return;
      }
      ghost var out5 := out;
      ok := GenOpt(n.inc);
      if !ok {
        return;
      }
      ghost var out6 := out;
      out := out + [Jmp(Numbered(ForTop, ln)), Def(Numbered(EndFor, ln))];
      ForPieces(out0, out1, out2, out3, out4, out5, out6, out, ln, n.loopCond.Some?);
    }

    /** `if (part != NULL) gen(part)`, for the optional parts of a `for`. */
    method GenOpt(part: Option<Node>) returns (ok: bool)
      requires part.Some? ==> Fits(part.value, |offsets|)
      modifies this
      ensures Follows(OptCode(part, old(labelnumber), offsets), old(out), ok)
      decreases part, 0
    {
      ok := true;
      if part.Some? {
        ok := Gen(part.value);
      }
    }

    /** The loop over `node->block`. */
    method GenBlock(n: Node) returns (ok: bool)
      requires n.Block? && Fits(n, |offsets|)
      modifies this
      ensures Follows(SeqCode(n.stmts, old(labelnumber), offsets), old(out), ok)
      decreases n, 1
    {
      ok := GenList(n, n.stmts);
    }

    /** A loop over a list of nodes of n (`node->block` or `node->args`), generating each in
        turn and stopping at the first error. */
    method GenList(n: Node, ns: seq<Node>) returns (ok: bool)
      requires forall x <- ns :: x < n && Fits(x, |offsets|)
      modifies this
      ensures Follows(SeqCode(ns, old(labelnumber), offsets), old(out), ok)
      decreases n, 0
    {
      ghost var out0, ln0 := out, labelnumber;
      var i := 0;
      while i < |ns|
        invariant 0 <= i <= |ns|
        invariant Follows(SeqCode(ns[..i], ln0, offsets), out0, true)
      {
        ghost var p := SeqCode(ns[..i], ln0, offsets).value;
        assert ns[..i + 1][..i] == ns[..i] && ns[..i + 1][i] == ns[i];
        assert forall x <- ns[..i + 1] :: x in ns;
        assert ns[i] in ns;
        ok := Gen(ns[i]);
        if !ok {
          SeqPrefixErr(ns, i + 1, ln0, offsets);
          return;
        }
        i := i + 1;
      }
      assert ns[..i] == ns;
      ok := true;
    }

    /** A call: the arguments, popped into their registers, then the call sequence, which
        takes the counter's value only now. */
    method GenCall(n: Node) returns (ok: bool)
      requires n.FunCall? && Fits(n, |offsets|)
      modifies this
      ensures Follows(CallOf(n, old(labelnumber), offsets), old(out), ok)
      decreases n, 1
    {
      ghost var out0 := out;
      ok := GenList(n, n.args);
      if !ok {
        return;
      }
      ghost var out1 := out;
      GenPops(|n.args|);
      var ln := labelnumber;
      labelnumber := labelnumber + 1;
      out := out + CallCode(n.funcname, ln);
      CallOutPieces(out0, out1, out, Pops(|n.args|, 0), CallCode(n.funcname, ln));
    }

    /** The loop that pops the arguments, `pop argregs[i]` for i from nargs-1 down to 0: the
        last argument was pushed last. */
    method GenPops(nargs: nat)
      requires nargs <= |ArgRegs|
      modifies this
      ensures out == old(out) + Pops(nargs, 0) && labelnumber == old(labelnumber)
    {
      var i := nargs - 1;
      while i >= 0
        invariant -1 <= i < nargs
        invariant out == old(out) + Pops(nargs, i + 1) && labelnumber == old(labelnumber)
      {
        out := out + [Pop(ArgRegs[i])];
        i := i - 1;
      }
    }

    method GenBin(n: Node) returns (ok: bool)
      requires n.Bin? && Fits(n, |offsets|)
      modifies this
      ensures Follows(BinCode(n, old(labelnumber), offsets), old(out), ok)
      decreases n, 1
    {
      ghost var out0 := out;
      ok := Gen(n.lhs);
      if !ok {
        return;
      }
      ghost var out1 := out;
      ok := Gen(n.rhs);
      if !ok {
        return;
      }
      ghost var x, y := out1[|out0|..], out[|out1|..];
      var tail := Gen9cc.Tail(n.op);
      out := out + tail;
      assert out == out0 + (x + y + tail);
    }
  }

  /** The pieces the `if` case without `else` prints make up its text. */
  lemma IfPieces(out0: seq<Instr>, out1: seq<Instr>, out2: seq<Instr>, out3: seq<Instr>, out: seq<Instr>, ln: nat)
    requires |out0| <= |out1| && out1 == out0 + out1[|out0|..]
    requires out2 == out1 + Guard(Numbered(EndIf, ln))
    requires |out2| <= |out3| && out3 == out2 + out3[|out2|..]
    requires out == out3 + [Def(Numbered(EndIf, ln))]
    ensures out == out0 + (out1[|out0|..] + Guard(Numbered(EndIf, ln)) + out3[|out2|..] + [Def(Numbered(EndIf, ln))])
  {
  }

  /** The pieces the `if` case with `else` prints make up its text. */
  lemma IfElsePieces(out0: seq<Instr>, out1: seq<Instr>, out2: seq<Instr>, out3: seq<Instr>, out4: seq<Instr>,
                     out5: seq<Instr>, out: seq<Instr>, ln: nat)
    requires |out0| <= |out1| && out1 == out0 + out1[|out0|..]
    requires out2 == out1 + Guard(Numbered(Else, ln))
    requires |out2| <= |out3| && out3 == out2 + out3[|out2|..]
    requires out4 == out3 + [Jmp(Numbered(EndIf, ln)), Def(Numbered(Else, ln))]
    requires |out4| <= |out5| && out5 == out4 + out5[|out4|..]
    requires out == out5 + [Def(Numbered(EndIf, ln))]
    ensures out == out0 + (out1[|out0|..] + Guard(Numbered(Else, ln)) + out3[|out2|..]
                           + [Jmp(Numbered(EndIf, ln)), Def(Numbered(Else, ln))]
                           + out5[|out4|..] + [Def(Numbered(EndIf, ln))])
  {
  }

  /** The arguments, their pops and the call sequence, printed one after the other. */
  lemma CallOutPieces(out0: seq<Instr>, out1: seq<Instr>, out: seq<Instr>, pops: seq<Instr>, call: seq<Instr>)
    requires |out0| <= |out1| && out1 == out0 + out1[|out0|..]
    requires out == out1 + pops + call
    ensures out == out0 + (out1[|out0|..] + pops + call)
  {
  }

  /** The pieces the `for` case prints, one after the other, make up `ForText`. */
  lemma ForPieces(out0: seq<Instr>, out1: seq<Instr>, out2: seq<Instr>, out3: seq<Instr>, out4: seq<Instr>,
                  out5: seq<Instr>, out6: seq<Instr>, out: seq<Instr>, ln: nat, guarded: bool)
    requires |out0| <= |out1| && out1 == out0 + out1[|out0|..]
    requires out2 == out1 + [Def(Numbered(ForTop, ln))]
    requires |out2| <= |out3| && out3 == out2 + out3[|out2|..]
    requires out4 == out3 + (if guarded then Guard(Numbered(EndFor, ln)) else [])
    requires |out4| <= |out5| && out5 == out4 + out5[|out4|..]
    requires |out5| <= |out6| && out6 == out5 + out6[|out5|..]
    requires out == out6 + [Jmp(Numbered(ForTop, ln)), Def(Numbered(EndFor, ln))]
    ensures out == out0 + ForText(ln, guarded, out1[|out0|..], out3[|out2|..], out5[|out4|..], out6[|out5|..])
  {
  }

  /** `gencode`: give the locals their offsets, print the prologue, generate the top-level
      nodes in order with the label counter starting at 0, and print the epilogue. */
  method GenCode(f: Function) returns (out: seq<Instr>, ok: bool)
    requires forall n <- f.nodes :: Fits(n, |f.locals|)
    modifies f
    ensures f.offsets == FrameOffsets(|f.locals|) && f.stackSize == 8 * |f.locals|
    ensures ok == Program(f.nodes, |f.locals|).Ok?
    ensures ok ==> out == Program(f.nodes, |f.locals|).value
  {
    f.AssignOffsets();
    var g := new Generator(f.offsets);
    g.out := g.out + Prologue(f.stackSize);
    var node := Block(f.nodes);
    ok := g.GenList(node, f.nodes);
    if !ok {
      return g.out, false;
    }
    g.out := g.out + EpilogueCode();
    out := g.out;
  }
}
