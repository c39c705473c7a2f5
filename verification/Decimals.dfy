/** Decimal text, as strconv writes and reads it. */
module Decimals {

  predicate Digit(c: char) {
    '0' <= c <= '9'
  }

  function DigitValue(c: char): nat
    requires Digit(c)
  {
    (c - '0') as nat
  }

  function Text(n: nat): (s: string)
    ensures s != "" && forall k :: 0 <= k < |s| ==> Digit(s[k])
    ensures s[0] == '0' ==> s == "0"
    ensures n > 0 ==> s[0] != '0'
  {
    var last := ['0' + (n % 10) as char];
    if n < 10 then last else Text(n / 10) + last
  }

  /** The number a text of digits names. */
  function Value(s: string): nat
    requires forall k :: 0 <= k < |s| ==> Digit(s[k])
  {
    if s == "" then 0 else 10 * Value(s[..|s| - 1]) + DigitValue(s[|s| - 1])
  }

  lemma {:induction false} ValueOfText(n: nat)
    ensures Value(Text(n)) == n
    decreases n
  {
    if n >= 10 {
      var s := Text(n);
      assert s[..|s| - 1] == Text(n / 10);
      ValueOfText(n / 10);
    }
  }

  lemma DifferentNumbers(a: nat, b: nat)
    ensures Text(a) == Text(b) <==> a == b
  {
    ValueOfText(a);
    ValueOfText(b);
  }
}
