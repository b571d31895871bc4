/** Decimal text of natural numbers, as to_string() prints it. */
module Decimal {

  function DigitChar(k: nat): char
    requires k < 10
  {
    '0' + k as char
  }

  function ToString(n: nat): (s: string)
    ensures s != []
  {
    if n < 10 then [DigitChar(n)] else ToString(n / 10) + [DigitChar(n % 10)]
  }

  predicate IsDigits(s: string) {
    forall i :: 0 <= i < |s| ==> '0' <= s[i] <= '9'
  }

  /** The number that a string of digits denotes. */
  function Value(s: string): nat
    requires IsDigits(s)
  {
    if s == [] then 0 else 10 * Value(s[..|s| - 1]) + (s[|s| - 1] as int - '0' as int)
  }

  lemma {:induction false} ValueOfText(n: nat)
    ensures IsDigits(ToString(n)) && Value(ToString(n)) == n
  {
    if n >= 10 {
      ValueOfText(n / 10);
      var s := ToString(n);
      assert s[..|s| - 1] == ToString(n / 10);
    }
  }

  /** A prefix of a number is no bigger than the number. */
  lemma {:induction false} PrefixIsSmaller(s: string, k: nat)
    requires IsDigits(s) && k <= |s|
    ensures IsDigits(s[..k]) && Value(s[..k]) <= Value(s)
  {
    if k < |s| {
      PrefixIsSmaller(s[..|s| - 1], k);
      assert s[..|s| - 1][..k] == s[..k];
    } else {
      assert s[..k] == s;
    }
  }

  /** Different numbers have different texts. */
  lemma TextIsInjective(m: nat, n: nat)
    requires ToString(m) == ToString(n)
    ensures m == n
  {
    ValueOfText(m);
    ValueOfText(n);
  }

  /** And a text without a leading zero is the text of its number: nothing else is ever printed. */
  lemma {:induction false} TextOfValue(s: string)
    requires IsDigits(s) && s != [] && (|s| > 1 ==> s[0] != '0')
    ensures ToString(Value(s)) == s
    ensures s[0] != '0' ==> Value(s) > 0
  {
    hide ToString, Value;
    var front, c := s[..|s| - 1], s[|s| - 1];
    assert s == front + [c];
    ValueStep(front, c);
    if |s| > 1 {
      TextOfValue(front);
      LastDigit(Value(front), c);
    } else {
      OneDigit(c);
    }
  }

  lemma ValueStep(front: string, c: char)
    requires IsDigits(front + [c])
    ensures IsDigits(front) && Value(front + [c]) == 10 * Value(front) + (c as int - '0' as int)
    ensures front == [] ==> Value(front) == 0
  {
    var s := front + [c];
    assert s[..|front|] == front && s[|front|] == c;
  }

  lemma LastDigit(n: nat, c: char)
    requires n > 0 && '0' <= c <= '9'
    ensures ToString(10 * n + (c as int - '0' as int)) == ToString(n) + [c]
  {
    var k := c as int - '0' as int;
    assert (10 * n + k) / 10 == n && (10 * n + k) % 10 == k;
  }

  lemma OneDigit(c: char)
    requires '0' <= c <= '9'
    ensures ToString(c as int - '0' as int) == [c]
  {}
}
