/**
 * The FizzBuzz console program: for each count from 1 to 100 it writes one
 * line, "FizzBuzz" for multiples of both 3 and 5, "Buzz" for the other
 * multiples of 5, "Fizz" for the other multiples of 3, and the count itself
 * in decimal otherwise. The console is modelled as the sequence of lines
 * written.
 */
module FizzBuzz {

  /** The decimal digit for d. */
  function DigitChar(d: int): (c: char)
    requires 0 <= d < 10
    ensures '0' <= c <= '9' && c as int - '0' as int == d
  {
    ('0' as int + d) as char
  }

  predicate IsDigit(c: char) {
    '0' <= c <= '9'
  }

  predicate AllDigits(s: string) {
    forall i :: 0 <= i < |s| ==> IsDigit(s[i])
  }

  /** The decimal numeral of n, most significant digit first. */
  function NatToString(n: nat): (s: string)
    ensures |s| >= 1 && AllDigits(s)
    ensures s[0] == '0' <==> n == 0
    ensures n == 0 ==> s == "0"
  {
    if n < 10 then [DigitChar(n)] else NatToString(n / 10) + [DigitChar(n % 10)]
  }

  /** The decimal numeral of an integer, with a leading minus sign when negative. */
  function IntToString(n: int): (s: string)
    ensures |s| >= 1
    ensures n >= 0 <==> IsDigit(s[0])
    ensures n < 0 <==> s[0] == '-'
  {
    if n >= 0 then NatToString(n) else "-" + NatToString(-n)
  }

  /** The value a string of decimal digits denotes. */
  function DecimalValue(s: string): nat
    requires AllDigits(s)
  {
    if s == [] then 0
    else DecimalValue(s[..|s| - 1]) * 10 + (s[|s| - 1] as int - '0' as int)
  }

  /** NatToString writes exactly n, and no leading zero. */
  lemma {:induction false} NatToStringRoundTrip(n: nat)
    ensures DecimalValue(NatToString(n)) == n
  {
    var s := NatToString(n);
    if n >= 10 {
      NatToStringRoundTrip(n / 10);
      assert s[..|s| - 1] == NatToString(n / 10);
    }
  }

  /** An integer's numeral denotes it: the digits after an optional minus sign give |n|. */
  lemma IntToStringValue(n: int)
    ensures n >= 0 ==> AllDigits(IntToString(n)) && DecimalValue(IntToString(n)) == n
    ensures n < 0 ==> AllDigits(IntToString(n)[1..]) && DecimalValue(IntToString(n)[1..]) == -n
  {
    if n >= 0 {
      NatToStringRoundTrip(n);
    } else {
      assert IntToString(n)[1..] == NatToString(-n);
      NatToStringRoundTrip(-n);
    }
  }

  /**
   * The line written for count n. It is a word, starting with 'F' or 'B',
   * exactly when n is a multiple of 3 or of 5; otherwise it is a numeral.
   */
  function Label(n: int): (s: string)
    ensures |s| >= 1
    ensures s[0] == 'F' || s[0] == 'B' <==> n % 3 == 0 || n % 5 == 0
  {
    if n % 3 == 0 && n % 5 == 0 then "FizzBuzz"
    else if n % 5 == 0 then "Buzz"
    else if n % 3 == 0 then "Fizz"
    else IntToString(n)
  }

  /** The four kinds of line. */
  datatype LabelKind = FizzBuzzWord | BuzzWord | FizzWord | Number

  /** The kind of line for each residue modulo 15, written out as a table. */
  function KindOfResidue(r: int): LabelKind
    requires 0 <= r < 15
  {
    if r == 0 then FizzBuzzWord
    else if r == 5 || r == 10 then BuzzWord
    else if r == 3 || r == 6 || r == 9 || r == 12 then FizzWord
    else Number
  }

  /** The line a kind stands for at count n. */
  function Render(k: LabelKind, n: int): string {
    match k
    case FizzBuzzWord => "FizzBuzz"
    case BuzzWord => "Buzz"
    case FizzWord => "Fizz"
    case Number => IntToString(n)
  }

  /** Divisibility by 3 and by 5 is decided by the residue modulo 15. */
  lemma ResidueDivisibility(n: int)
    ensures n % 3 == (n % 15) % 3
    ensures n % 5 == (n % 15) % 5
  {
    var q := n / 15;
    assert n == 15 * q + n % 15;
    assert n == 3 * (5 * q) + n % 15;
    assert n == 5 * (3 * q) + n % 15;
  }

  /** The line for n is the one the residue table gives for n modulo 15. */
  lemma LabelByResidue(n: int)
    ensures Label(n) == Render(KindOfResidue(n % 15), n)
  {
    ResidueDivisibility(n);
  }

  /** Different kinds never render to the same line: numbers start with a digit or a minus sign. */
  lemma RenderInjective(k1: LabelKind, k2: LabelKind, n: int)
    requires Render(k1, n) == Render(k2, n)
    ensures k1 == k2
  {
    var s := IntToString(n);
    assert s[0] != 'F' && s[0] != 'B';
  }

  /** The four cases of the label, each in both directions. */
  lemma LabelCases(n: int)
    ensures Label(n) == "FizzBuzz" <==> n % 3 == 0 && n % 5 == 0
    ensures Label(n) == "Buzz" <==> n % 5 == 0 && n % 3 != 0
    ensures Label(n) == "Fizz" <==> n % 3 == 0 && n % 5 != 0
    ensures Label(n) == IntToString(n) <==> n % 3 != 0 && n % 5 != 0
  {
    var s := IntToString(n);
    assert s[0] != 'F' && s[0] != 'B';
    assert s != "FizzBuzz" && s != "Buzz" && s != "Fizz";
  }

  /** A positive count divisible by neither 3 nor 5 is written as its decimal numeral, with no leading zero. */
  lemma NumberLabelDenotesCount(n: int)
    requires n > 0 && n % 3 != 0 && n % 5 != 0
    ensures AllDigits(Label(n)) && DecimalValue(Label(n)) == n && Label(n)[0] != '0'
  {
    NatToStringRoundTrip(n);
  }

  /** The whole program: one line for each count from 1 to 100, in order. */
  method Run() returns (lines: seq<string>)
    ensures |lines| == 100
    ensures forall i :: 0 <= i < 100 ==> lines[i] == Label(i + 1)
  {
    lines := [];
    for count := 1 to 101
      invariant |lines| == count - 1
      invariant forall i :: 0 <= i < |lines| ==> lines[i] == Label(i + 1)
    {
      lines := lines + [Label(count)];
    }
  }
}
