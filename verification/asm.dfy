/** The x86-64 assembly the two code generators print, one instruction per `printf` line.
    The text of each line (and the `# ...` comment lines gen.c prints in between) is not
    modelled; what the model keeps is which instruction it is, its operands and its labels. */
module Asm {
  import opened Ast

  datatype Reg = Rax | Rdi | Rsi | Rdx | Rcx | R8 | R9 | Rbp | Rsp

  /** The condition of a `set` instruction: `sete`, `setne`, `setl`, `setle`. */
  datatype Cond = E | NE | L | LE

  /** The numbered labels gen.c makes: `.L.endif.N`, `.L.else.N`, `.L.while.N`, ... */
  datatype LabelKind = EndIf | Else | WhileTop | EndWhile | ForTop | EndFor | CallSlow | EndCall

  /** A label: a numbered one, the shared `.L.return` epilogue, or a global symbol (`main`). */
  datatype Label = Numbered(kind: LabelKind, n: nat) | Epilogue | Symbol(name: string)

  datatype Instr =
    | PushImm(v: int)                // push N
    | Push(src: Reg)                 // push reg
    | Pop(dst: Reg)                  // pop reg
    | LeaLocal(offset: int)          // lea rax, [rbp-N]
    | Load                           // mov rax, [rax]
    | Store                          // mov [rax], rdi
    | MovReg(dst: Reg, src: Reg)     // mov rax, rsp / mov rbp, rsp / mov rsp, rbp
    | MovImm(dst: Reg, v: int)       // mov rax, 0
    | AndImm(dst: Reg, v: int)       // and rax, 15
    | AddRsp(bytes: int)             // add rsp, N
    | SubRsp(bytes: int)             // sub rsp, N
    | AddRdi                         // add rax, rdi
    | SubRdi                         // sub rax, rdi
    | ImulRdi                        // imul rax, rdi
    | Cqo                            // cqo
    | IdivRdi                        // idiv rdi
    | CmpRdi                         // cmp rax, rdi
    | CmpZero                        // cmp rax, 0
    | Set(cc: Cond)                  // sete al, setne al, setl al, setle al
    | Movzb                          // movzb rax, al
    | Je(target: Label)
    | Jnz(target: Label)
    | Jmp(target: Label)
    | Call(name: string)
    | Ret
    | Def(defined: Label)            // a label line `L:`
    | IntelSyntax                    // .intel_syntax noprefix
    | Global(name: string)           // .global main

  /** How many 8-byte stack slots an instruction adds (negative: removes). A `call` leaves the
      stack as it found it, since the callee returns with `ret`. */
  function Effect(i: Instr): int
  {
    match i
    case PushImm(_) => 1
    case Push(_) => 1
    case Pop(_) => -1
    case AddRsp(n) => -(n / 8)
    case SubRsp(n) => n / 8
    case _ => 0
  }

  /** The sum of the instructions' stack effects. For code without jumps it is what running
      the code does to the depth of the stack; for the two-way call sequence both ways
      balance. */
  function StackEffect(code: seq<Instr>): int
  {
    if |code| == 0 then 0 else Effect(code[0]) + StackEffect(code[1..])
  }

  lemma {:induction false} StackEffectCat(a: seq<Instr>, b: seq<Instr>)
    ensures StackEffect(a + b) == StackEffect(a) + StackEffect(b)
    decreases |a|
  {
    if |a| == 0 {
      assert a + b == b;
    } else {
      assert (a + b)[0] == a[0] && (a + b)[1..] == a[1..] + b;
      StackEffectCat(a[1..], b);
    }
  }

  /** Code none of whose instructions pushes or pops leaves the stack as deep as it was. */
  lemma {:induction false} NoStackEffect(code: seq<Instr>)
    requires forall k :: 0 <= k < |code| ==> Effect(code[k]) == 0
    ensures StackEffect(code) == 0
    decreases |code|
  {
    if |code| > 0 {
      NoStackEffect(code[1..]);
    }
  }

  /** How many times the code defines the label l. */
  function Count(code: seq<Instr>, l: Label): nat
  {
    if |code| == 0 then 0 else (if code[0] == Def(l) then 1 else 0) + Count(code[1..], l)
  }

  /** Whether a jump of the code goes to the label l. */
  predicate JumpsTo(code: seq<Instr>, l: Label)
  {
    |code| > 0 && (code[0] == Je(l) || code[0] == Jnz(l) || code[0] == Jmp(l) || JumpsTo(code[1..], l))
  }

  lemma {:induction false} CountCat(a: seq<Instr>, b: seq<Instr>)
    ensures forall l :: Count(a + b, l) == Count(a, l) + Count(b, l)
    ensures forall l :: JumpsTo(a + b, l) <==> JumpsTo(a, l) || JumpsTo(b, l)
    decreases |a|
  {
    if |a| == 0 {
      assert a + b == b;
    } else {
      assert (a + b)[0] == a[0] && (a + b)[1..] == a[1..] + b;
      CountCat(a[1..], b);
    }
  }

  /** `CountCat` at one label. */
  lemma CatAt(a: seq<Instr>, b: seq<Instr>, l: Label)
    ensures Count(a + b, l) == Count(a, l) + Count(b, l)
    ensures JumpsTo(a + b, l) <==> JumpsTo(a, l) || JumpsTo(b, l)
  {
    CountCat(a, b);
  }

  /** A single instruction defines its label once, or jumps to its target. */
  lemma One(i: Instr)
    ensures forall l :: Count([i], l) == (if i == Def(l) then 1 else 0)
    ensures forall l :: JumpsTo([i], l) <==> i == Je(l) || i == Jnz(l) || i == Jmp(l)
  {
    assert [i][1..] == [];
  }

  /** Code without label lines and without jumps. */
  lemma {:induction false} Plain(code: seq<Instr>)
    requires forall k :: 0 <= k < |code| ==> !code[k].Def? && !code[k].Je? && !code[k].Jnz? && !code[k].Jmp?
    ensures forall l :: Count(code, l) == 0 && !JumpsTo(code, l)
    decreases |code|
  {
    if |code| > 0 {
      Plain(code[1..]);
    }
  }

  /** No label is defined twice. */
  ghost predicate Unique(code: seq<Instr>)
  {
    forall l :: Count(code, l) <= 1
  }

  /** Every label the code defines is a numbered one with its number in [lo, hi). */
  ghost predicate NumberedIn(code: seq<Instr>, lo: nat, hi: nat)
  {
    forall l :: Count(code, l) > 0 ==> l.Numbered? && lo <= l.n < hi
  }

  /** Every jump of the code lands on a label the code itself defines, or on `.L.return`
      (`Epilogue`). */
  ghost predicate Closed(code: seq<Instr>)
  {
    forall l :: JumpsTo(code, l) ==> l == Epilogue || Count(code, l) > 0
  }

  /** The labels of a block of generated code: each defined once, all numbered in [lo, hi),
      and every jump lands inside the block or on `.L.return`. */
  ghost predicate Labelled(code: seq<Instr>, lo: nat, hi: nat)
  {
    lo <= hi && Unique(code) && NumberedIn(code, lo, hi) && Closed(code)
  }

  /** Two blocks whose labels come from consecutive number ranges, side by side, still define
      each label at most once, and a jump of either still finds its label. */
  lemma Juxtapose(a: seq<Instr>, b: seq<Instr>, lo: nat, mid: nat, hi: nat)
    requires Labelled(a, lo, mid) && Labelled(b, mid, hi)
    ensures Labelled(a + b, lo, hi)
  {
    CountCat(a, b);
  }

  /** A labelled block between two pieces of code that define no label and jump at most to
      `.L.return` is still labelled. */
  lemma Around(pre: seq<Instr>, inner: seq<Instr>, post: seq<Instr>, lo: nat, hi: nat)
    requires Labelled(inner, lo, hi)
    requires forall l :: Count(pre, l) == 0 && Count(post, l) == 0
    requires forall l :: JumpsTo(pre, l) || JumpsTo(post, l) ==> l == Epilogue
    ensures Labelled(pre + inner + post, lo, hi)
  {
    CountCat(pre, inner);
    CountCat(pre + inner, post);
  }

  /** Code made of blocks `inner` labelled from [lo, hi) and of glue instructions `glue` whose
      own labels all carry the one number ln outside that range, are defined once and are
      where the glue's jumps go. Only how often `code` defines each label and where it jumps
      matter, so the blocks and the glue may be interleaved in any order. */
  lemma Glue(code: seq<Instr>, inner: seq<Instr>, glue: seq<Instr>, ln: nat, lo: nat, hi: nat)
    requires forall l :: Count(code, l) == Count(inner, l) + Count(glue, l)
    requires forall l :: JumpsTo(code, l) <==> JumpsTo(inner, l) || JumpsTo(glue, l)
    requires Labelled(inner, lo, hi)
    requires Unique(glue) && NumberedIn(glue, ln, ln + 1)
    requires forall l :: JumpsTo(glue, l) ==> Count(glue, l) > 0
    requires ln + 1 == lo || ln == hi
    ensures ln + 1 == lo ==> Labelled(code, ln, hi)
    ensures ln == hi ==> Labelled(code, lo, hi + 1)
  {
  }

  /** Code that defines exactly the two labels a and b numbered ln, once each, and jumps only
      to them. */
  lemma TwoLabels(code: seq<Instr>, a: Label, b: Label, ln: nat)
    requires a.Numbered? && b.Numbered? && a.n == ln && b.n == ln
    requires forall l :: Count(code, l) == (if l == a || l == b then 1 else 0)
    requires forall l :: JumpsTo(code, l) ==> l == a || l == b
    ensures Unique(code) && NumberedIn(code, ln, ln + 1) && forall l :: JumpsTo(code, l) ==> Count(code, l) > 0
  {
  }
}
