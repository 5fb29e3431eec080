/** The C library routines the two lexers call: `isspace` and `isdigit` in the "C" locale,
    and `strtol(p, &end, 10)` started on a digit. */
module CLib {

  /** isspace: blank, \t, \n, \v, \f or \r. */
  predicate IsSpace(c: char) { c == ' ' || ('\t' <= c <= '\r') }

  /** isdigit */
  predicate IsDigit(c: char) { '0' <= c <= '9' }

  /** The lower-case test `'a' <= *p && *p <= 'z'` of parse.c. */
  predicate IsLower(c: char) { 'a' <= c <= 'z' }

  predicate AllDigits(s: string) { forall k :: 0 <= k < |s| ==> IsDigit(s[k]) }

  function DigitValue(c: char): nat
    requires IsDigit(c)
  {
    (c as int) - ('0' as int)
  }

  /** The value of a string of decimal digits, most significant digit first. */
  function DecimalValue(s: string): nat
    requires AllDigits(s)
  {
    if s == [] then 0 else DecimalValue(s[..|s| - 1]) * 10 + DigitValue(s[|s| - 1])
  }

  /** The conversion loop of strtol: `acc` is the value of the digits s[start..p] read so far;
      reading stops at the first character that is not a digit. */
  function ScanDecimal(s: string, start: nat, p: nat, acc: nat): (r: (nat, nat))
    requires start <= p <= |s| && AllDigits(s[start..p]) && acc == DecimalValue(s[start..p])
    ensures p <= r.1 <= |s|
    ensures AllDigits(s[start..r.1]) && (r.1 == |s| || !IsDigit(s[r.1]))
    ensures r.0 == DecimalValue(s[start..r.1])
    decreases |s| - p
  {
    if p < |s| && IsDigit(s[p]) then
      assert s[start..p + 1][..p - start] == s[start..p];
      ScanDecimal(s, start, p + 1, acc * 10 + DigitValue(s[p]))
    else
      (acc, p)
  }

  /** strtol(s + p, &end, 10) where s[p] is a digit: the value of the maximal digit run starting
      at p, and the index just past it. (Overflow clamping is not modelled.) */
  function Strtol(s: string, p: nat): (r: (nat, nat))
    requires p < |s| && IsDigit(s[p])
    ensures p < r.1 <= |s|
    ensures AllDigits(s[p..r.1]) && (r.1 == |s| || !IsDigit(s[r.1]))
    ensures r.0 == DecimalValue(s[p..r.1])
  {
    assert s[p..p + 1][..0] == [];
    ScanDecimal(s, p, p + 1, DigitValue(s[p]))
  }

  /** strtol reads exactly the digit run s[p..q] when the character at q (if any) is not a
      digit: where it stops and what it returns depend only on that run. */
  lemma StrtolRun(s: string, p: nat, q: nat)
    requires p < q <= |s| && IsDigit(s[p]) && AllDigits(s[p..q]) && (q == |s| || !IsDigit(s[q]))
    ensures Strtol(s, p) == (DecimalValue(s[p..q]), q)
  {
  }
}
