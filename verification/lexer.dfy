/** parse.c: `tokenize`, the lexer of the snapshot that also has one-letter identifiers.
    With `idents` false the same definition is 9cc.c's `tokenize` with the `continue` that
    9cc.c lacks after its two-character operators (see the module Lexer9cc). */
module Lexer {
  import opened Base
  import opened CLib
  import opened Utils
  import opened Ast

  /** Why `tokenize` stops: an unrecognised character at a source offset (`error_at`), or, in
      9cc.c only, the scan running past the terminating NUL of the input. */
  datatype LexError = Untokenizable(offset: nat) | ReadPastEnd(offset: nat)

  /** The `strchr` test for the eight one-character punctuators, for a character c that is not
      the terminator. */
  predicate IsPunct(c: char)
  {
    c == '+' || c == '-' || c == '*' || c == '/' || c == '(' || c == ')' || c == '<' || c == '>'
  }

  /** The input at `s` starts with `==`, `!=`, `>=` or `<=`. */
  predicate IsTwoCharOp(s: string)
  {
    StartsWith("==", s) || StartsWith("!=", s) || StartsWith(">=", s) || StartsWith("<=", s)
  }

  /** `s` is the tail of `input` that starts at or after offset `p`: where a token's `str`
      pointer may point. */
  predicate TailFrom(s: string, input: string, p: nat)
  {
    p <= |input| && |s| <= |input| - p && s == input[|input| - |s|..]
  }

  /** What each token produced by parse.c's lexer looks like. */
  predicate WellFormed(t: Token, idents: bool)
  {
    && t.len <= |t.str|
    && match t.kind
       case Reserved =>
         t.val == 0 &&
         ((t.len == 2 && IsTwoCharOp(t.str)) || (t.len == 1 && IsPunct(t.str[0]) && !IsTwoCharOp(t.str)))
       case Ident => idents && t.val == 0 && t.len == 1 && IsLower(t.str[0])
       case Number =>
         && t.len > 0 && AllDigits(Lexeme(t))
         && (t.len == |t.str| || !IsDigit(t.str[t.len]))
         && t.val == DecimalValue(Lexeme(t))
       case Eof => t.str == [] && t.len == 0 && t.val == 0
  }

  /** A character the lexer cannot start a token with. */
  predicate Unrecognised(input: string, q: nat, idents: bool)
  {
    && q < |input|
    && !IsSpace(input[q]) && !IsTwoCharOp(input[q..]) && !IsPunct(input[q])
    && !IsDigit(input[q]) && !(idents && IsLower(input[q]))
  }

  function Prepend(t: Token, r: Result<seq<Token>, LexError>): Result<seq<Token>, LexError>
  {
    if r.Ok? then Ok([t] + r.value) else r
  }

  function Concat(ts: seq<Token>, r: Result<seq<Token>, LexError>): Result<seq<Token>, LexError>
  {
    if r.Ok? then Ok(ts + r.value) else r
  }

  lemma ConcatPrepend(ts: seq<Token>, t: Token, r: Result<seq<Token>, LexError>)
    ensures Concat(ts, Prepend(t, r)) == Concat(ts + [t], r)
  {
    if r.Ok? {
      assert ts + ([t] + r.value) == (ts + [t]) + r.value;
    }
  }

  /** `ts` is what lexing input[p..] may produce: a valid token stream of well-formed tokens,
      each pointing into input[p..]. */
  predicate Lexed(ts: seq<Token>, input: string, p: nat, idents: bool)
  {
    && ValidStream(ts)
    && forall k :: 0 <= k < |ts| ==> WellFormed(ts[k], idents) && TailFrom(ts[k].str, input, p)
  }

  lemma PrependLexed(t: Token, ts: seq<Token>, input: string, p: nat, q: nat, idents: bool)
    requires p <= q && Lexed(ts, input, q, idents)
    requires t.kind != Eof && WellFormed(t, idents) && TailFrom(t.str, input, p)
    ensures Lexed([t] + ts, input, p, idents)
  {
    var ts' := [t] + ts;
    forall k | 0 <= k < |ts'|
      ensures WellFormed(ts'[k], idents) && TailFrom(ts'[k].str, input, p)
    {
      if k > 0 {
        assert ts'[k] == ts[k - 1];
      }
    }
  }

  /** The tokens of input[p..]: the loop of `tokenize` from pointer position p on, as a
      recursive definition. What its result looks like is stated by LexFromShape. */
  function LexFrom(input: string, p: nat, idents: bool): (r: Result<seq<Token>, LexError>)
    requires p <= |input|
    ensures r.Ok? ==> |r.value| > 0
    decreases |input| - p
  {
    if p == |input| then
      Ok([Token(Eof, 0, input[p..], 0)])
    else if IsSpace(input[p]) then
      LexFrom(input, p + 1, idents)
    else if IsTwoCharOp(input[p..]) then
      Prepend(Token(Reserved, 0, input[p..], 2), LexFrom(input, p + 2, idents))
    else if IsPunct(input[p]) then
      Prepend(Token(Reserved, 0, input[p..], 1), LexFrom(input, p + 1, idents))
    else if IsDigit(input[p]) then
      var (v, q) := Strtol(input, p);
      Prepend(Token(Number, v, input[p..], q - p), LexFrom(input, q, idents))
    else if idents && IsLower(input[p]) then
      Prepend(Token(Ident, 0, input[p..], 1), LexFrom(input, p + 1, idents))
    else
      Err(Untokenizable(p))
  }

  // One turn of the loop, branch by branch: each lemma states LexFrom at p in terms of the
  // position where the next turn starts.

  lemma StepSpace(input: string, p: nat, idents: bool)
    requires p < |input| && IsSpace(input[p])
    ensures LexFrom(input, p, idents) == LexFrom(input, p + 1, idents)
  {
  }

  /** An operator of n characters: two for `==`, `!=`, `<=`, `>=`, else one. */
  predicate OperatorAt(input: string, p: nat, n: nat)
    requires p < |input|
  {
    && !IsSpace(input[p])
    && ((n == 2 && IsTwoCharOp(input[p..])) || (n == 1 && !IsTwoCharOp(input[p..]) && IsPunct(input[p])))
  }

  lemma StepOperator(input: string, p: nat, n: nat, idents: bool)
    requires p < |input| && OperatorAt(input, p, n)
    ensures p + n <= |input|
    ensures LexFrom(input, p, idents) == Prepend(Token(Reserved, 0, input[p..], n), LexFrom(input, p + n, idents))
  {
  }

  /** A digit that no earlier branch claims. */
  predicate NumberAt(input: string, p: nat)
    requires p < |input|
  {
    !IsSpace(input[p]) && !IsTwoCharOp(input[p..]) && !IsPunct(input[p]) && IsDigit(input[p])
  }

  lemma StepNumber(input: string, p: nat, idents: bool)
    requires p < |input| && NumberAt(input, p)
    ensures var (v, q) := Strtol(input, p);
            LexFrom(input, p, idents) == Prepend(Token(Number, v, input[p..], q - p), LexFrom(input, q, idents))
  {
  }

  /** A lower-case letter that no earlier branch claims (parse.c only). */
  predicate IdentAt(input: string, p: nat, idents: bool)
    requires p < |input|
  {
    && !IsSpace(input[p]) && !IsTwoCharOp(input[p..]) && !IsPunct(input[p]) && !IsDigit(input[p])
    && idents && IsLower(input[p])
  }

  lemma StepIdent(input: string, p: nat, idents: bool)
    requires p < |input| && IdentAt(input, p, idents)
    ensures LexFrom(input, p, idents) == Prepend(Token(Ident, 0, input[p..], 1), LexFrom(input, p + 1, idents))
  {
  }

  lemma StepError(input: string, p: nat, idents: bool)
    requires Unrecognised(input, p, idents)
    ensures LexFrom(input, p, idents) == Err(Untokenizable(p))
  {
  }

  /** Shape of the result when the first token is t and the rest is lexed from q. */
  lemma ShapeStep(input: string, p: nat, q: nat, t: Token, idents: bool)
    requires p < q <= |input|
    requires LexFrom(input, p, idents) == Prepend(t, LexFrom(input, q, idents))
    requires t.kind != Eof && WellFormed(t, idents) && TailFrom(t.str, input, p)
    requires LexFrom(input, q, idents).Ok? ==> Lexed(LexFrom(input, q, idents).value, input, q, idents)
    requires LexFrom(input, q, idents).Err? ==>
              var e := LexFrom(input, q, idents).error;
              e.Untokenizable? && q <= e.offset && Unrecognised(input, e.offset, idents)
    ensures LexFrom(input, p, idents).Ok? ==> Lexed(LexFrom(input, p, idents).value, input, p, idents)
    ensures LexFrom(input, p, idents).Err? ==>
              var e := LexFrom(input, p, idents).error;
              e.Untokenizable? && p <= e.offset && Unrecognised(input, e.offset, idents)
  {
    if LexFrom(input, q, idents).Ok? {
      PrependLexed(t, LexFrom(input, q, idents).value, input, p, q, idents);
    }
  }

  /** Shape of the result when a whitespace character at p is skipped. */
  lemma ShapeSkip(input: string, p: nat, idents: bool)
    requires p < |input|
    requires LexFrom(input, p, idents) == LexFrom(input, p + 1, idents)
    requires LexFrom(input, p + 1, idents).Ok? ==> Lexed(LexFrom(input, p + 1, idents).value, input, p + 1, idents)
    requires LexFrom(input, p + 1, idents).Err? ==>
              var e := LexFrom(input, p + 1, idents).error;
              e.Untokenizable? && p + 1 <= e.offset && Unrecognised(input, e.offset, idents)
    ensures LexFrom(input, p, idents).Ok? ==> Lexed(LexFrom(input, p, idents).value, input, p, idents)
    ensures LexFrom(input, p, idents).Err? ==>
              var e := LexFrom(input, p, idents).error;
              e.Untokenizable? && p <= e.offset && Unrecognised(input, e.offset, idents)
  {
    var r := LexFrom(input, p + 1, idents);
    if r.Ok? {
      var ts := r.value;
      forall k | 0 <= k < |ts|
        ensures WellFormed(ts[k], idents) && TailFrom(ts[k].str, input, p)
      {
        assert TailFrom(ts[k].str, input, p + 1);
      }
    }
  }

  /** At the end of the input the result is the lone end-of-input token. */
  lemma ShapeEnd(input: string, idents: bool)
    ensures LexFrom(input, |input|, idents).Ok?
    ensures Lexed(LexFrom(input, |input|, idents).value, input, |input|, idents)
  {
    var ts := LexFrom(input, |input|, idents).value;
    assert ts == [Token(Eof, 0, [], 0)];
    assert TailFrom(ts[0].str, input, |input|);
  }

  /** On success the list is a valid token stream ending in the one end-of-input token, every
      token is well formed (two-character operators before one-character ones, maximal digit runs
      with their decimal value, one-letter identifiers) and points into input[p..]. On failure
      the offset is that of a character no branch accepts, and it is where the scan stopped:
      everything before it lexes without error. */
  lemma {:induction false} LexFromShape(input: string, p: nat, idents: bool)
    requires p <= |input|
    ensures LexFrom(input, p, idents).Ok? ==> Lexed(LexFrom(input, p, idents).value, input, p, idents)
    ensures LexFrom(input, p, idents).Err? ==>
              var e := LexFrom(input, p, idents).error;
              e.Untokenizable? && p <= e.offset && Unrecognised(input, e.offset, idents)
    ensures LexFrom(input, p, idents).Err? ==>
              LexFrom(input[..LexFrom(input, p, idents).error.offset], p, idents).Ok?
    decreases |input| - p, 1
  {
    if LexFrom(input, p, idents).Err? {
      ScanReachesError(input, p, idents);
    }
    if p == |input| {
      ShapeEnd(input, idents);
    } else if IsSpace(input[p]) {
      StepSpace(input, p, idents);
      LexFromShape(input, p + 1, idents);
      ShapeSkip(input, p, idents);
    } else if IsTwoCharOp(input[p..]) {
      ShapeOperator(input, p, 2, idents);
    } else if IsPunct(input[p]) {
      ShapeOperator(input, p, 1, idents);
    } else if IsDigit(input[p]) {
      ShapeNumber(input, p, idents);
    } else if idents && IsLower(input[p]) {
      ShapeIdent(input, p, idents);
    } else {
      StepError(input, p, idents);
    }
  }

  lemma {:induction false} ShapeOperator(input: string, p: nat, n: nat, idents: bool)
    requires p < |input| && OperatorAt(input, p, n)
    ensures LexFrom(input, p, idents).Ok? ==> Lexed(LexFrom(input, p, idents).value, input, p, idents)
    ensures LexFrom(input, p, idents).Err? ==>
              var e := LexFrom(input, p, idents).error;
              e.Untokenizable? && p <= e.offset && Unrecognised(input, e.offset, idents)
    decreases |input| - p, 0
  {
    StepOperator(input, p, n, idents);
    var t := Token(Reserved, 0, input[p..], n);
    LexFromShape(input, p + n, idents);
    assert TailFrom(t.str, input, p);
    ShapeStep(input, p, p + n, t, idents);
  }

  lemma {:induction false} ShapeNumber(input: string, p: nat, idents: bool)
    requires p < |input| && NumberAt(input, p)
    ensures LexFrom(input, p, idents).Ok? ==> Lexed(LexFrom(input, p, idents).value, input, p, idents)
    ensures LexFrom(input, p, idents).Err? ==>
              var e := LexFrom(input, p, idents).error;
              e.Untokenizable? && p <= e.offset && Unrecognised(input, e.offset, idents)
    decreases |input| - p, 0
  {
    StepNumber(input, p, idents);
    var (v, q) := Strtol(input, p);
    var t := Token(Number, v, input[p..], q - p);
    assert Lexeme(t) == input[p..q];
    assert TailFrom(t.str, input, p);
    LexFromShape(input, q, idents);
    ShapeStep(input, p, q, t, idents);
  }

  lemma {:induction false} ShapeIdent(input: string, p: nat, idents: bool)
    requires p < |input| && IdentAt(input, p, idents)
    ensures LexFrom(input, p, idents).Ok? ==> Lexed(LexFrom(input, p, idents).value, input, p, idents)
    ensures LexFrom(input, p, idents).Err? ==>
              var e := LexFrom(input, p, idents).error;
              e.Untokenizable? && p <= e.offset && Unrecognised(input, e.offset, idents)
    decreases |input| - p, 0
  {
    StepIdent(input, p, idents);
    var t := Token(Ident, 0, input[p..], 1);
    assert TailFrom(t.str, input, p);
    LexFromShape(input, p + 1, idents);
    ShapeStep(input, p, p + 1, t, idents);
  }

  /** Cutting the input off after q changes no two-character test at p that fits before q,
      and one that holds on the cut input holds on the whole. */
  lemma TwoCharCut(input: string, p: nat, q: nat)
    requires p < q <= |input|
    ensures IsTwoCharOp(input[..q][p..]) ==> IsTwoCharOp(input[p..])
    ensures p + 2 <= q ==> (IsTwoCharOp(input[..q][p..]) <==> IsTwoCharOp(input[p..]))
  {
    var cut := input[..q][p..];
    assert cut == input[p..q];
    if 2 <= |cut| {
      assert cut[..2] == input[p..][..2];
    }
  }

  /** The failure offset is where the scan stops: the input cut off at the offending character
      lexes without error from p. */
  lemma {:induction false} ScanReachesError(input: string, p: nat, idents: bool)
    requires p <= |input| && LexFrom(input, p, idents).Err?
    ensures var q := LexFrom(input, p, idents).error.offset;
            p <= q < |input| && LexFrom(input[..q], p, idents).Ok?
    decreases |input| - p, 1
  {
    if IsSpace(input[p]) {
      ReachSpace(input, p, idents);
    } else if IsTwoCharOp(input[p..]) {
      ReachOperator(input, p, 2, idents);
    } else if IsPunct(input[p]) {
      ReachOperator(input, p, 1, idents);
    } else if IsDigit(input[p]) {
      ReachNumber(input, p, idents);
    } else if idents && IsLower(input[p]) {
      ReachIdent(input, p, idents);
    } else {
      ReachOther(input, p, idents);
    }
  }

  lemma {:induction false} ReachSpace(input: string, p: nat, idents: bool)
    requires p < |input| && IsSpace(input[p]) && LexFrom(input, p, idents).Err?
    ensures var q := LexFrom(input, p, idents).error.offset;
            p <= q < |input| && LexFrom(input[..q], p, idents).Ok?
    decreases |input| - p, 0
  {
    StepSpace(input, p, idents);
    ScanReachesError(input, p + 1, idents);
    var q := LexFrom(input, p, idents).error.offset;
    assert input[..q][p] == input[p];
    StepSpace(input[..q], p, idents);
  }

  lemma ReachOther(input: string, p: nat, idents: bool)
    requires p < |input| && !IsSpace(input[p]) && !IsTwoCharOp(input[p..]) && !IsPunct(input[p])
    requires !IsDigit(input[p]) && !(idents && IsLower(input[p]))
    ensures var q := LexFrom(input, p, idents).error.offset;
            p <= q < |input| && LexFrom(input[..q], p, idents).Ok?
  {
    StepError(input, p, idents);
  }

  lemma {:induction false} ReachOperator(input: string, p: nat, n: nat, idents: bool)
    requires p < |input| && OperatorAt(input, p, n) && LexFrom(input, p, idents).Err?
    ensures var q := LexFrom(input, p, idents).error.offset;
            p <= q < |input| && LexFrom(input[..q], p, idents).Ok?
    decreases |input| - p, 0
  {
    StepOperator(input, p, n, idents);
    ScanReachesError(input, p + n, idents);
    var q := LexFrom(input, p, idents).error.offset;
    TwoCharCut(input, p, q);
    assert input[..q][p] == input[p];
    StepOperator(input[..q], p, n, idents);
  }

  lemma {:induction false} ReachNumber(input: string, p: nat, idents: bool)
    requires p < |input| && NumberAt(input, p) && LexFrom(input, p, idents).Err?
    ensures var q := LexFrom(input, p, idents).error.offset;
            p <= q < |input| && LexFrom(input[..q], p, idents).Ok?
    decreases |input| - p, 0
  {
    StepNumber(input, p, idents);
    var (v, r) := Strtol(input, p);
    ScanReachesError(input, r, idents);
    var q := LexFrom(input, p, idents).error.offset;
    var cut := input[..q];
    TwoCharCut(input, p, q);
    assert cut[p] == input[p];
    assert cut[p..r] == input[p..r];
    assert r < q ==> cut[r] == input[r];
    StrtolRun(cut, p, r);
    StepNumber(cut, p, idents);
  }

  lemma {:induction false} ReachIdent(input: string, p: nat, idents: bool)
    requires p < |input| && IdentAt(input, p, idents) && LexFrom(input, p, idents).Err?
    ensures var q := LexFrom(input, p, idents).error.offset;
            p <= q < |input| && LexFrom(input[..q], p, idents).Ok?
    decreases |input| - p, 0
  {
    StepIdent(input, p, idents);
    ScanReachesError(input, p + 1, idents);
    var q := LexFrom(input, p, idents).error.offset;
    TwoCharCut(input, p, q);
    assert input[..q][p] == input[p];
    StepIdent(input[..q], p, idents);
  }

  /** The loop invariant carried over one token: when lexing from p yields t and then what
      lexing from q yields, appending t to toks moves the scan on to q. */
  lemma Advance(input: string, p: nat, q: nat, t: Token, toks: seq<Token>,
                goal: Result<seq<Token>, LexError>, idents: bool)
    requires p <= q <= |input|
    requires LexFrom(input, p, idents) == Prepend(t, LexFrom(input, q, idents))
    requires Concat(toks, LexFrom(input, p, idents)) == goal
    ensures Concat(toks + [t], LexFrom(input, q, idents)) == goal
  {
    ConcatPrepend(toks, t, LexFrom(input, q, idents));
  }

  /** One turn of the loop at a character that is not blank: the token it starts is appended
      to toks, or, when no branch accepts the character, the scan stops with `error_at`'s
      offset. */
  method ScanToken(input: string, toks: seq<Token>, p: nat, ghost goal: Result<seq<Token>, LexError>)
    returns (toks': seq<Token>, p': nat, failed: Option<LexError>)
    requires p < |input| && !IsSpace(input[p]) && Concat(toks, LexFrom(input, p, true)) == goal
    ensures failed.Some? ==> goal == Err(failed.value)
    ensures failed.None? ==> p < p' <= |input| && Concat(toks', LexFrom(input, p', true)) == goal
  {
    if IsTwoCharOp(input[p..]) {
      var t := Token(Reserved, 0, input[p..], 2);
      StepOperator(input, p, 2, true);
      Advance(input, p, p + 2, t, toks, goal, true);
      return toks + [t], p + 2, None;
    }
    if IsPunct(input[p]) {
      var t := Token(Reserved, 0, input[p..], 1);
      StepOperator(input, p, 1, true);
      Advance(input, p, p + 1, t, toks, goal, true);
      return toks + [t], p + 1, None;
    }
    if IsDigit(input[p]) {
      var scanned := Strtol(input, p);
      var t := Token(Number, scanned.0, input[p..], scanned.1 - p);
      StepNumber(input, p, true);
      Advance(input, p, scanned.1, t, toks, goal, true);
      return toks + [t], scanned.1, None;
    }
    if IsLower(input[p]) {
      var t := Token(Ident, 0, input[p..], 1);
      StepIdent(input, p, true);
      Advance(input, p, p + 1, t, toks, goal, true);
      return toks + [t], p + 1, None;
    }
    StepError(input, p, true);
    return toks, p, Some(Untokenizable(p));
  }

  /** parse.c `tokenize`: the while loop over the input pointer, appending to the token list. */
  method Tokenize(input: string) returns (r: Result<seq<Token>, LexError>)
    ensures r == LexFrom(input, 0, true)
  {
    var toks: seq<Token> := [];
    var p: nat := 0;
    ghost var goal := LexFrom(input, 0, true);
    assert Concat(toks, LexFrom(input, p, true)) == goal by {
      if goal.Ok? {
        assert [] + goal.value == goal.value;
      }
    }
    while p < |input|
      invariant p <= |input|
      invariant Concat(toks, LexFrom(input, p, true)) == goal
      decreases |input| - p
    {
      if IsSpace(input[p]) {
        StepSpace(input, p, true);
        p := p + 1;
        continue;
      }
      var failed;
      toks, p, failed := ScanToken(input, toks, p, goal);
      if failed.Some? {
        return Err(failed.value);
      }
    }
    toks := toks + [Token(Eof, 0, input[p..], 0)];
    return Ok(toks);
  }
}

/** What the lexer of parse.c promises about the text it reads. */
module LexerFacts {
  import opened Base
  import opened CLib
  import opened Ast
  import opened Lexer

  /** The input with its whitespace removed. */
  function Squeeze(s: string): string
  {
    if s == [] then [] else (if IsSpace(s[0]) then [] else [s[0]]) + Squeeze(s[1..])
  }

  /** Every token's text lies within the string it points at. */
  predicate Spans(ts: seq<Token>)
  {
    forall k :: 0 <= k < |ts| ==> ts[k].len <= |ts[k].str|
  }

  /** The token texts written one after another. */
  function Spell(ts: seq<Token>): string
    requires Spans(ts)
  {
    if ts == [] then [] else Lexeme(ts[0]) + Spell(ts[1..])
  }

  lemma {:induction false} SqueezeRun(s: string, a: nat, b: nat)
    requires a <= b <= |s|
    requires forall k :: a <= k < b ==> !IsSpace(s[k])
    ensures Squeeze(s[a..]) == s[a..b] + Squeeze(s[b..])
    decreases b - a
  {
    if a < b {
      assert s[a..][1..] == s[a + 1..];
      SqueezeRun(s, a + 1, b);
      assert s[a..b] == [s[a]] + s[a + 1..b];
    }
  }

  /** One token of text input[p..q] followed by the tokens of input[q..]. */
  lemma SpellCons(ts: seq<Token>, t: Token, rest: seq<Token>, input: string, p: nat, q: nat)
    requires p <= q <= |input| && ts == [t] + rest
    requires t.len <= |t.str| && Lexeme(t) == input[p..q]
    requires forall k :: p <= k < q ==> !IsSpace(input[k])
    requires Spans(rest) && Spell(rest) == Squeeze(input[q..])
    ensures Spans(ts) && Spell(ts) == Squeeze(input[p..])
  {
    assert ts[1..] == rest;
    SqueezeRun(input, p, q);
  }

  /** Nothing but whitespace is lost: the lexemes of the tokens, written one after another,
      are exactly the non-blank characters of the input, in order. */
  lemma {:induction false} SpellIsSqueeze(input: string, p: nat, idents: bool)
    requires p <= |input| && LexFrom(input, p, idents).Ok?
    ensures var ts := LexFrom(input, p, idents).value;
            Spans(ts) && Spell(ts) == Squeeze(input[p..])
    decreases |input| - p, 1
  {
    if p == |input| {
      assert LexFrom(input, p, idents).value == [Token(Eof, 0, [], 0)];
    } else if IsSpace(input[p]) {
      StepSpace(input, p, idents);
      SpellIsSqueeze(input, p + 1, idents);
      assert input[p..][1..] == input[p + 1..];
    } else if IsTwoCharOp(input[p..]) {
      SpellOperator(input, p, Token(Reserved, 0, input[p..], 2), idents);
    } else if IsPunct(input[p]) {
      SpellOperator(input, p, Token(Reserved, 0, input[p..], 1), idents);
    } else if IsDigit(input[p]) {
      SpellNumber(input, p, idents);
    } else if idents && IsLower(input[p]) {
      SpellOperator(input, p, Token(Ident, 0, input[p..], 1), idents);
    } else {
      StepError(input, p, idents);
    }
  }

  /** The operator and identifier branches: a token of one or two non-blank characters. */
  lemma {:induction false} SpellOperator(input: string, p: nat, t: Token, idents: bool)
    requires p < |input| && LexFrom(input, p, idents).Ok?
    requires t.str == input[p..]
    requires || (t == Token(Reserved, 0, input[p..], t.len) && OperatorAt(input, p, t.len))
             || (t == Token(Ident, 0, input[p..], 1) && IdentAt(input, p, idents))
    ensures var ts := LexFrom(input, p, idents).value;
            Spans(ts) && Spell(ts) == Squeeze(input[p..])
    decreases |input| - p, 0
  {
    if t.kind == Reserved {
      StepOperator(input, p, t.len, idents);
    } else {
      StepIdent(input, p, idents);
    }
    var q := p + t.len;
    SpellIsSqueeze(input, q, idents);
    assert Lexeme(t) == input[p..q];
    forall k | p <= k < q ensures !IsSpace(input[k]) {
      if k == p + 1 {
        assert input[k] == input[p..][1];
      }
    }
    SpellCons(LexFrom(input, p, idents).value, t, LexFrom(input, q, idents).value, input, p, q);
  }

  /** The number branch: a maximal run of digits. */
  lemma {:induction false} SpellNumber(input: string, p: nat, idents: bool)
    requires p < |input| && LexFrom(input, p, idents).Ok? && NumberAt(input, p)
    ensures var ts := LexFrom(input, p, idents).value;
            Spans(ts) && Spell(ts) == Squeeze(input[p..])
    decreases |input| - p, 0
  {
    StepNumber(input, p, idents);
    var (v, q) := Strtol(input, p);
    var t := Token(Number, v, input[p..], q - p);
    SpellIsSqueeze(input, q, idents);
    DigitsNotBlank(input, p, q);
    SpellCons(LexFrom(input, p, idents).value, t, LexFrom(input, q, idents).value, input, p, q);
  }

  /** A run of digits holds no blank, and a number token's text is that run. */
  lemma DigitsNotBlank(input: string, p: nat, q: nat)
    requires p < q <= |input| && AllDigits(input[p..q])
    ensures forall k :: p <= k < q ==> !IsSpace(input[k])
    ensures input[p..][..q - p] == input[p..q]
  {
    forall k | p <= k < q ensures !IsSpace(input[k]) {
      assert IsDigit(input[p..q][k - p]);
    }
  }

  /** Each lower-case letter is an identifier of its own: "ab" is two identifiers. */
  lemma LettersAreSeparateIdentifiers()
    ensures LexFrom("ab", 0, true)
            == Ok([Token(Ident, 0, "ab", 1), Token(Ident, 0, "b", 1), Token(Eof, 0, "", 0)])
  {
    var s := "ab";
    assert s[0..] == "ab" && s[1..] == "b" && s[2..] == [];
    var eof := LexFrom(s, 2, true);
    assert eof == Ok([Token(Eof, 0, "", 0)]);
    assert IdentAt(s, 1, true) by { assert !IsTwoCharOp(s[1..]); }
    StepIdent(s, 1, true);
    var rest := LexFrom(s, 1, true);
    assert [Token(Ident, 0, "b", 1)] + [Token(Eof, 0, "", 0)] == [Token(Ident, 0, "b", 1), Token(Eof, 0, "", 0)];
    assert rest == Ok([Token(Ident, 0, "b", 1), Token(Eof, 0, "", 0)]);
    assert IdentAt(s, 0, true) by { assert !IsTwoCharOp(s[0..]); }
    StepIdent(s, 0, true);
    assert [Token(Ident, 0, "ab", 1)] + rest.value == [Token(Ident, 0, "ab", 1), Token(Ident, 0, "b", 1), Token(Eof, 0, "", 0)];
  }
}
