/** 9cc.c: `tokenize` as written. After a two-character operator the loop does not `continue`:
    it falls through to the one-character test at the new position. When the operator is the last
    thing in the input, that test looks at the terminating NUL, which `strchr` finds in its key
    string, so the NUL becomes a token and the pointer steps past the end of the input. */
module Lexer9cc {
  import opened Base
  import opened CLib
  import opened Utils
  import opened Ast
  import Lexer

  /** The tokens of input[p..] as the loop of 9cc.c's `tokenize` produces them. */
  function LexFrom(input: string, p: nat): (r: Result<seq<Token>, Lexer.LexError>)
    requires p <= |input|
    decreases |input| - p, 1
  {
    if p == |input| then
      Ok([Token(Eof, 0, input[p..], 0)])
    else if IsSpace(input[p]) then
      LexFrom(input, p + 1)
    else if Lexer.IsTwoCharOp(input[p..]) then
      Lexer.Prepend(Token(Reserved, 0, input[p..], 2), AfterOperator(input, p + 2))
    else
      AfterOperator(input, p)
  }

  /** The rest of one turn of the loop, from the one-character operator test on. At the end of
      the input the test meets the terminator (only possible right after a two-character
      operator) and the scan runs past the end. */
  function AfterOperator(input: string, p: nat): (r: Result<seq<Token>, Lexer.LexError>)
    requires p <= |input|
    decreases |input| - p, 0
  {
    if p == |input| then
      Err(Lexer.ReadPastEnd(p))
    else if Lexer.IsPunct(input[p]) then
      Lexer.Prepend(Token(Reserved, 0, input[p..], 1), LexFrom(input, p + 1))
    else if IsDigit(input[p]) then
      var (v, q) := Strtol(input, p);
      Lexer.Prepend(Token(Number, v, input[p..], q - p), LexFrom(input, q))
    else
      Err(Lexer.Untokenizable(p))
  }

  // One turn of the loop, branch by branch.

  lemma StepSpace(input: string, p: nat)
    requires p < |input| && IsSpace(input[p])
    ensures LexFrom(input, p) == LexFrom(input, p + 1)
  {
  }

  lemma StepTwoChar(input: string, p: nat)
    requires p < |input| && !IsSpace(input[p]) && Lexer.IsTwoCharOp(input[p..])
    ensures p + 2 <= |input|
    ensures LexFrom(input, p) == Lexer.Prepend(Token(Reserved, 0, input[p..], 2), AfterOperator(input, p + 2))
  {
  }

  lemma StepOther(input: string, p: nat)
    requires p < |input| && !IsSpace(input[p]) && !Lexer.IsTwoCharOp(input[p..])
    ensures LexFrom(input, p) == AfterOperator(input, p)
  {
  }

  lemma StepPunct(input: string, p: nat)
    requires p < |input| && Lexer.IsPunct(input[p])
    ensures AfterOperator(input, p) == Lexer.Prepend(Token(Reserved, 0, input[p..], 1), LexFrom(input, p + 1))
  {
  }

  lemma StepNumber(input: string, p: nat)
    requires p < |input| && !Lexer.IsPunct(input[p]) && IsDigit(input[p])
    ensures var (v, q) := Strtol(input, p);
            AfterOperator(input, p) == Lexer.Prepend(Token(Number, v, input[p..], q - p), LexFrom(input, q))
  {
  }

  /** Where 9cc.c's `tokenize` stops: a character strictly inside the input that is neither an
      operator nor a digit (a blank too, right after a two-character operator), or the end of the
      input, and then only right after a two-character operator. */
  predicate FailsProperly(input: string, e: Lexer.LexError)
  {
    match e
    case Untokenizable(q) =>
      q < |input| && !Lexer.IsPunct(input[q]) && !IsDigit(input[q])
    case ReadPastEnd(q) =>
      q == |input| && 2 <= q && Lexer.IsTwoCharOp(input[q - 2..])
  }

  /** On success the tokens are a valid stream of operators and numbers ending in the
      end-of-input token; on failure the error is one of the two above, at the offset where the
      scan stopped: the input cut off there scans without error, or runs past its end there. */
  lemma {:induction false} LexFromShape(input: string, p: nat)
    requires p <= |input|
    ensures LexFrom(input, p).Ok? ==>
              ValidStream(LexFrom(input, p).value) && NoIdents(LexFrom(input, p).value)
    ensures LexFrom(input, p).Err? ==> FailsProperly(input, LexFrom(input, p).error)
    ensures LexFrom(input, p).Err? ==>
              var q := LexFrom(input, p).error.offset;
              p <= q <= |input| && Reached(LexFrom(input[..q], p), q)
    decreases |input| - p, 1
  {
    if LexFrom(input, p).Err? {
      ScanReachesError(input, p);
    }
    if p == |input| {
    } else if IsSpace(input[p]) {
      StepSpace(input, p);
      LexFromShape(input, p + 1);
    } else if Lexer.IsTwoCharOp(input[p..]) {
      StepTwoChar(input, p);
      AfterOperatorShape(input, p + 2);
      var r := AfterOperator(input, p + 2);
      if r.Ok? {
        PrependShape(Token(Reserved, 0, input[p..], 2), r.value);
      } else if r.error.ReadPastEnd? && p + 2 == |input| {
        assert input[p..][..2] == input[|input| - 2..];
      }
    } else {
      StepOther(input, p);
      AfterOperatorShape(input, p);
    }
  }

  lemma {:induction false} AfterOperatorShape(input: string, p: nat)
    requires p <= |input|
    ensures AfterOperator(input, p).Ok? ==>
              ValidStream(AfterOperator(input, p).value) && NoIdents(AfterOperator(input, p).value)
    ensures AfterOperator(input, p).Err? ==>
              var e := AfterOperator(input, p).error;
              FailsProperly(input, e) || (p == |input| && e == Lexer.ReadPastEnd(p))
    decreases |input| - p, 0
  {
    if p == |input| {
    } else if Lexer.IsPunct(input[p]) {
      StepPunct(input, p);
      LexFromShape(input, p + 1);
      var r := LexFrom(input, p + 1);
      if r.Ok? {
        PrependShape(Token(Reserved, 0, input[p..], 1), r.value);
      }
    } else if IsDigit(input[p]) {
      StepNumber(input, p);
      var (v, q) := Strtol(input, p);
      LexFromShape(input, q);
      var r := LexFrom(input, q);
      if r.Ok? {
        PrependShape(Token(Number, v, input[p..], q - p), r.value);
      }
    }
  }

  /** The scan of input[..q] gets through without error, or stops exactly where the full
      scan stopped by running past its end at q. */
  predicate Reached(r: Result<seq<Token>, Lexer.LexError>, q: nat)
  {
    r.Ok? || r == Err(Lexer.ReadPastEnd(q))
  }

  /** The failure offset is where the scan stopped: the input cut off there scans from p
      without meeting anything it cannot read before the cut. */
  lemma {:induction false} ScanReachesError(input: string, p: nat)
    requires p <= |input| && LexFrom(input, p).Err?
    ensures var q := LexFrom(input, p).error.offset;
            p <= q <= |input| && Reached(LexFrom(input[..q], p), q)
    decreases |input| - p, 1
  {
    var q := LexFrom(input, p).error.offset;
    if IsSpace(input[p]) {
      StepSpace(input, p);
      ScanReachesError(input, p + 1);
      assert input[..q][p] == input[p];
      StepSpace(input[..q], p);
    } else if Lexer.IsTwoCharOp(input[p..]) {
      StepTwoChar(input, p);
      AfterOperatorReachesError(input, p + 2);
      Lexer.TwoCharCut(input, p, q);
      assert input[..q][p] == input[p];
      StepTwoChar(input[..q], p);
    } else {
      StepOther(input, p);
      AfterOperatorReachesError(input, p);
      if p < q {
        Lexer.TwoCharCut(input, p, q);
        assert input[..q][p] == input[p];
        StepOther(input[..q], p);
      }
    }
  }

  lemma {:induction false} AfterOperatorReachesError(input: string, p: nat)
    requires p <= |input| && AfterOperator(input, p).Err?
    ensures var q := AfterOperator(input, p).error.offset;
            p <= q <= |input| && Reached(AfterOperator(input[..q], p), q)
    decreases |input| - p, 0
  {
    var q := AfterOperator(input, p).error.offset;
    if p == |input| {
      assert input[..q] == input;
    } else if Lexer.IsPunct(input[p]) {
      StepPunct(input, p);
      ScanReachesError(input, p + 1);
      assert input[..q][p] == input[p];
      StepPunct(input[..q], p);
    } else if IsDigit(input[p]) {
      StepNumber(input, p);
      var (v, r) := Strtol(input, p);
      ScanReachesError(input, r);
      var cut := input[..q];
      assert cut[p] == input[p];
      assert cut[p..r] == input[p..r];
      assert r < q ==> cut[r] == input[r];
      StrtolRun(cut, p, r);
      StepNumber(cut, p);
    }
  }

  /** No identifier tokens: 9cc.c has none. */
  predicate NoIdents(ts: seq<Token>)
  {
    forall k :: 0 <= k < |ts| ==> ts[k].kind != Ident
  }

  lemma PrependShape(t: Token, ts: seq<Token>)
    requires ValidStream(ts) && NoIdents(ts)
    requires t.kind != Eof && t.kind != Ident && t.len <= |t.str|
    ensures ValidStream([t] + ts) && NoIdents([t] + ts)
  {
    var ts' := [t] + ts;
    forall k | 1 <= k < |ts'|
      ensures ts'[k] == ts[k - 1]
    {
    }
  }

  /** Every two-character operator is directly followed by a number or a one-character
      operator: the inputs on which the missing `continue` does no harm. */
  predicate OperatorsFollowed(ts: seq<Token>)
  {
    forall k :: 0 <= k < |ts| - 1 && ts[k].len == 2 ==>
      && 2 <= |ts[k].str| && ts[k + 1].str == ts[k].str[2..]
      && (ts[k + 1].kind == Number || (ts[k + 1].kind == Reserved && ts[k + 1].len == 1))
  }

  /** What the first token of the corrected lexer's output tells about the first character:
      a token that starts right there is a number or a one-character operator only when that
      branch of the loop made it. */
  lemma FirstToken(input: string, q: nat)
    requires q <= |input| && Lexer.LexFrom(input, q, false).Ok?
    ensures var t := Lexer.LexFrom(input, q, false).value[0];
            t.str == input[q..] && (t.kind == Number || (t.kind == Reserved && t.len == 1)) ==>
              q < |input| && (if t.kind == Number then Lexer.NumberAt(input, q) else Lexer.OperatorAt(input, q, 1))
  {
    if q < |input| {
      if IsSpace(input[q]) {
        Lexer.StepSpace(input, q, false);
        Lexer.LexFromShape(input, q + 1, false);
        var t := Lexer.LexFrom(input, q, false).value[0];
        assert Lexer.TailFrom(t.str, input, q + 1);
      } else if Lexer.IsTwoCharOp(input[q..]) {
        Lexer.StepOperator(input, q, 2, false);
      } else if Lexer.IsPunct(input[q]) {
        Lexer.StepOperator(input, q, 1, false);
      } else if IsDigit(input[q]) {
        Lexer.StepNumber(input, q, false);
      }
    }
  }

  /** The two lexers agree when every two-character operator is directly followed by a number
      or a one-character operator. */
  lemma {:induction false} AgreesWhenFollowed(input: string, p: nat)
    requires p <= |input| && Lexer.LexFrom(input, p, false).Ok?
    requires OperatorsFollowed(Lexer.LexFrom(input, p, false).value)
    ensures LexFrom(input, p) == Lexer.LexFrom(input, p, false)
    decreases |input| - p, 1
  {
    if p == |input| {
    } else if IsSpace(input[p]) {
      StepSpace(input, p);
      Lexer.StepSpace(input, p, false);
      AgreesWhenFollowed(input, p + 1);
    } else if Lexer.IsTwoCharOp(input[p..]) {
      TwoCharAgrees(input, p);
    } else if Lexer.IsPunct(input[p]) || IsDigit(input[p]) {
      StepOther(input, p);
      AfterOperatorAgrees(input, p);
    } else {
      Lexer.StepError(input, p, false);
    }
  }

  lemma {:induction false} TwoCharAgrees(input: string, p: nat)
    requires p < |input| && Lexer.OperatorAt(input, p, 2) && Lexer.LexFrom(input, p, false).Ok?
    requires OperatorsFollowed(Lexer.LexFrom(input, p, false).value)
    ensures LexFrom(input, p) == Lexer.LexFrom(input, p, false)
    decreases |input| - p, 0
  {
    var ts := Lexer.LexFrom(input, p, false).value;
    StepTwoChar(input, p);
    Lexer.StepOperator(input, p, 2, false);
    var rest := Lexer.LexFrom(input, p + 2, false).value;
    assert ts == [ts[0]] + rest && ts[0].len == 2 && ts[1] == rest[0];
    assert rest[0].str == input[p + 2..] by {
      assert 0 < |ts| - 1 && ts[0].len == 2;
      assert input[p..][2..] == input[p + 2..];
    }
    FirstToken(input, p + 2);
    FollowedTail(ts);
    AfterOperatorAgrees(input, p + 2);
  }

  /** The turn that follows a two-character operator, when the corrected lexer's next token is
      a number or a one-character operator at that very position. */
  lemma {:induction false} AfterOperatorAgrees(input: string, q: nat)
    requires q < |input| && Lexer.LexFrom(input, q, false).Ok?
    requires Lexer.NumberAt(input, q) || Lexer.OperatorAt(input, q, 1)
    requires OperatorsFollowed(Lexer.LexFrom(input, q, false).value)
    ensures AfterOperator(input, q) == Lexer.LexFrom(input, q, false)
    decreases |input| - q, 0
  {
    var ts := Lexer.LexFrom(input, q, false).value;
    if Lexer.IsPunct(input[q]) {
      StepPunct(input, q);
      Lexer.StepOperator(input, q, 1, false);
      FollowedTail(ts);
      AgreesWhenFollowed(input, q + 1);
    } else {
      StepNumber(input, q);
      Lexer.StepNumber(input, q, false);
      FollowedTail(ts);
      var (v, r) := Strtol(input, q);
      AgreesWhenFollowed(input, r);
    }
  }

  lemma FollowedTail(ts: seq<Token>)
    requires |ts| > 0 && OperatorsFollowed(ts)
    ensures OperatorsFollowed(ts[1..])
  {
    forall k | 0 <= k < |ts[1..]| - 1 && ts[1..][k].len == 2
      ensures 2 <= |ts[1..][k].str| && ts[1..][k + 1].str == ts[1..][k].str[2..]
    {
      assert ts[1..][k] == ts[k + 1] && ts[1..][k + 1] == ts[k + 2];
    }
  }

  /** A two-character operator at the very end: 9cc.c reads past the input, the corrected
      lexer does not. */
  lemma TrailingOperatorReadsPastEnd()
    ensures LexFrom("1<=", 0) == Err(Lexer.ReadPastEnd(3))
    ensures Lexer.LexFrom("1<=", 0, false).Ok?
  {
    var s := "1<=";
    assert !IsSpace(s[0]) && !Lexer.IsTwoCharOp(s[0..]) && !Lexer.IsPunct(s[0]) && IsDigit(s[0]);
    assert Strtol(s, 0) == (1, 1) by {
      assert s[0..1] == "1";
      assert DecimalValue(s[0..1]) == DecimalValue([]) * 10 + DigitValue('1');
    }
    StepOther(s, 0);
    StepNumber(s, 0);
    assert s[1..] == "<=" && Lexer.IsTwoCharOp(s[1..]);
    StepTwoChar(s, 1);
    Lexer.StepNumber(s, 0, false);
    Lexer.StepOperator(s, 1, 2, false);
  }

  /** A blank after a two-character operator: 9cc.c rejects the blank, where the corrected
      lexer skips it (BlankAfterOperatorSkipped). */
  lemma BlankAfterOperatorRejected()
    ensures LexFrom("1== 2", 0) == Err(Lexer.Untokenizable(3))
  {
    var s := "1== 2";
    assert s[1..] == "== 2" && Lexer.IsTwoCharOp(s[1..]);
    assert AfterOperator(s, 3) == Err(Lexer.Untokenizable(3));
    StepTwoChar(s, 1);
    assert Strtol(s, 0).1 == 1 by {
      assert !IsDigit(s[1]);
    }
    assert Lexer.NumberAt(s, 0) by {
      assert !Lexer.IsTwoCharOp(s[0..]);
    }
    StepOther(s, 0);
    StepNumber(s, 0);
  }

  lemma BlankAfterOperatorSkipped()
    ensures Lexer.LexFrom("1== 2", 0, false).Ok?
  {
    var s := "1== 2";
    BlankThenNumber();
    assert s[1..] == "== 2" && Lexer.IsTwoCharOp(s[1..]);
    Lexer.StepOperator(s, 1, 2, false);
    assert Strtol(s, 0).1 == 1 by {
      assert !IsDigit(s[1]);
    }
    assert Lexer.NumberAt(s, 0) by {
      assert !Lexer.IsTwoCharOp(s[0..]);
    }
    Lexer.StepNumber(s, 0, false);
  }

  /** The corrected lexer reads " 2" at the end of "1== 2" as a blank and a number. */
  lemma BlankThenNumber()
    ensures Lexer.LexFrom("1== 2", 3, false).Ok?
  {
    var s := "1== 2";
    assert s[4..] == "2" && s[5..] == [];
    assert Lexer.LexFrom(s, 5, false).Ok?;
    assert Strtol(s, 4).1 == 5;
    assert Lexer.NumberAt(s, 4) by {
      assert !Lexer.IsTwoCharOp(s[4..]);
    }
    Lexer.StepNumber(s, 4, false);
    Lexer.StepSpace(s, 3, false);
  }

  // The loop invariant carried across each branch of one turn: toks, followed by what the
  // scan from the current position produces, is the whole result.

  lemma AdvanceSpace(input: string, p: nat, toks: seq<Token>, goal: Result<seq<Token>, Lexer.LexError>)
    requires p < |input| && IsSpace(input[p])
    requires Lexer.Concat(toks, LexFrom(input, p)) == goal
    ensures Lexer.Concat(toks, LexFrom(input, p + 1)) == goal
  {
    StepSpace(input, p);
  }

  lemma AdvanceTwoChar(input: string, p: nat, toks: seq<Token>, goal: Result<seq<Token>, Lexer.LexError>)
    requires p < |input| && !IsSpace(input[p]) && Lexer.IsTwoCharOp(input[p..])
    requires Lexer.Concat(toks, LexFrom(input, p)) == goal
    ensures p + 2 <= |input|
    ensures Lexer.Concat(toks + [Token(Reserved, 0, input[p..], 2)], AfterOperator(input, p + 2)) == goal
  {
    StepTwoChar(input, p);
    Lexer.ConcatPrepend(toks, Token(Reserved, 0, input[p..], 2), AfterOperator(input, p + 2));
  }

  lemma AdvanceOther(input: string, p: nat, toks: seq<Token>, goal: Result<seq<Token>, Lexer.LexError>)
    requires p < |input| && !IsSpace(input[p]) && !Lexer.IsTwoCharOp(input[p..])
    requires Lexer.Concat(toks, LexFrom(input, p)) == goal
    ensures Lexer.Concat(toks, AfterOperator(input, p)) == goal
  {
    StepOther(input, p);
  }

  lemma AdvancePunct(input: string, p: nat, toks: seq<Token>, goal: Result<seq<Token>, Lexer.LexError>)
    requires p < |input| && Lexer.IsPunct(input[p])
    requires Lexer.Concat(toks, AfterOperator(input, p)) == goal
    ensures Lexer.Concat(toks + [Token(Reserved, 0, input[p..], 1)], LexFrom(input, p + 1)) == goal
  {
    StepPunct(input, p);
    Lexer.ConcatPrepend(toks, Token(Reserved, 0, input[p..], 1), LexFrom(input, p + 1));
  }

  lemma AdvanceNumber(input: string, p: nat, toks: seq<Token>, goal: Result<seq<Token>, Lexer.LexError>)
    requires p < |input| && !Lexer.IsPunct(input[p]) && IsDigit(input[p])
    requires Lexer.Concat(toks, AfterOperator(input, p)) == goal
    ensures var (v, q) := Strtol(input, p);
            Lexer.Concat(toks + [Token(Number, v, input[p..], q - p)], LexFrom(input, q)) == goal
  {
    StepNumber(input, p);
    var (v, q) := Strtol(input, p);
    Lexer.ConcatPrepend(toks, Token(Number, v, input[p..], q - p), LexFrom(input, q));
  }

  lemma AdvanceFail(input: string, p: nat, toks: seq<Token>, goal: Result<seq<Token>, Lexer.LexError>)
    requires p <= |input| && Lexer.Concat(toks, AfterOperator(input, p)) == goal
    requires p == |input| || (!Lexer.IsPunct(input[p]) && !IsDigit(input[p]))
    ensures goal == Err(if p == |input| then Lexer.ReadPastEnd(p) else Lexer.Untokenizable(p))
  {
  }

  /** 9cc.c `tokenize` as written: the while loop without `continue` after the two-character
      operators. */
  method Tokenize(input: string) returns (r: Result<seq<Token>, Lexer.LexError>)
    ensures r == LexFrom(input, 0)
  {
    var toks: seq<Token> := [];
    var p: nat := 0;
    ghost var goal := LexFrom(input, 0);
    assert Lexer.Concat(toks, LexFrom(input, p)) == goal by {
      if goal.Ok? {
        assert [] + goal.value == goal.value;
      }
    }
    while p < |input|
      invariant p <= |input|
      invariant Lexer.Concat(toks, LexFrom(input, p)) == goal
      decreases |input| - p
    {
      if IsSpace(input[p]) {
        AdvanceSpace(input, p, toks, goal);
        p := p + 1;
        continue;
      }
      if Lexer.IsTwoCharOp(input[p..]) {
        AdvanceTwoChar(input, p, toks, goal);
        toks := toks + [Token(Reserved, 0, input[p..], 2)];
        p := p + 2;
      } else {
        AdvanceOther(input, p, toks, goal);
      }
      var failed;
      toks, p, failed := ScanOperand(input, toks, p, goal);
      if failed.Some? {
        return Err(failed.value);
      }
    }
    toks := toks + [Token(Eof, 0, input[p..], 0)];
    return Ok(toks);
  }

  /** The rest of a turn of the loop, from the one-character operator test on: a one-character
      operator or a number is appended to toks, anything else (the terminator included) stops
      the scan with the error AfterOperator gives. */
  method ScanOperand(input: string, toks: seq<Token>, p: nat, ghost goal: Result<seq<Token>, Lexer.LexError>)
    returns (toks': seq<Token>, p': nat, failed: Option<Lexer.LexError>)
    requires p <= |input| && Lexer.Concat(toks, AfterOperator(input, p)) == goal
    ensures failed.Some? ==> goal == Err(failed.value)
    ensures failed.None? ==> p < p' <= |input| && Lexer.Concat(toks', LexFrom(input, p')) == goal
  {
    if p == |input| {
      AdvanceFail(input, p, toks, goal);
      return toks, p, Some(Lexer.ReadPastEnd(p));
    }
    if Lexer.IsPunct(input[p]) {
      AdvancePunct(input, p, toks, goal);
      return toks + [Token(Reserved, 0, input[p..], 1)], p + 1, None;
    }
    if IsDigit(input[p]) {
      AdvanceNumber(input, p, toks, goal);
      var scanned := Strtol(input, p);
      return toks + [Token(Number, scanned.0, input[p..], scanned.1 - p)], scanned.1, None;
    }
    AdvanceFail(input, p, toks, goal);
    return toks, p, Some(Lexer.Untokenizable(p));
  }
}
