/** Names and titles of the generated records.

    The generator names author `i` with the template literal `Author ${i}` and
    book `i` with `Book ${i}`. For a non-negative integer, JavaScript renders
    `${i}` as its decimal numeral: no sign and no leading zeros. `Decimal` is
    that rendering, `ParseDecimal` its inverse on canonical numerals.
 */
module Naming {

  predicate IsDigit(c: char) {
    '0' <= c <= '9'
  }

  predicate AllDigits(s: string) {
    forall i :: 0 <= i < |s| ==> IsDigit(s[i])
  }

  /** A canonical numeral: at least one digit, and no leading zero unless it is "0" itself. */
  predicate IsCanonical(s: string) {
    0 < |s| && AllDigits(s) && (|s| > 1 ==> s[0] != '0')
  }

  function DigitValue(c: char): (d: nat)
    requires IsDigit(c)
    ensures d < 10
  {
    c as int - '0' as int
  }

  function DigitChar(d: nat): (c: char)
    requires d < 10
    ensures IsDigit(c) && DigitValue(c) == d
  {
    ('0' as int + d) as char
  }

  /** The decimal numeral of `n`, most significant digit first. */
  function Decimal(n: nat): (s: string)
    ensures IsCanonical(s)
    ensures s[0] == '0' <==> n == 0
    ensures n < 10 <==> |s| == 1
  {
    if n < 10 then [DigitChar(n)] else Decimal(n / 10) + [DigitChar(n % 10)]
  }

  /** The value of a numeral read most significant digit first. */
  function ParseDecimal(s: string): nat
    requires AllDigits(s)
  {
    if |s| == 0 then 0 else ParseDecimal(s[..|s| - 1]) * 10 + DigitValue(s[|s| - 1])
  }

  /** Reading back a rendered numeral gives the number. */
  lemma {:induction false} ParseDecimalOfDecimal(n: nat)
    ensures ParseDecimal(Decimal(n)) == n
  {
    if n >= 10 {
      var s := Decimal(n);
      assert s[..|s| - 1] == Decimal(n / 10);
      ParseDecimalOfDecimal(n / 10);
    }
  }

  /** A numeral whose first digit is not zero has a positive value. */
  lemma {:induction false} ParseDecimalPositive(s: string)
    requires 0 < |s| && AllDigits(s) && s[0] != '0'
    ensures ParseDecimal(s) > 0
  {
    if |s| > 1 {
      ParseDecimalPositive(s[..|s| - 1]);
    }
  }

  /** Rendering the value of a canonical numeral gives the numeral back. */
  lemma {:induction false} DecimalOfParseDecimal(s: string)
    requires IsCanonical(s)
    ensures Decimal(ParseDecimal(s)) == s
  {
    var last := s[|s| - 1];
    if |s| > 1 {
      var prefix := s[..|s| - 1];
      ParseDecimalPositive(prefix);
      DecimalOfParseDecimal(prefix);
      var n := ParseDecimal(s);
      assert n / 10 == ParseDecimal(prefix) && n % 10 == DigitValue(last);
      assert s == prefix + [last];
    } else {
      assert s == [last];
    }
  }

  /** Different numbers are rendered as different numerals. */
  lemma DecimalInjective(m: nat, n: nat)
    ensures Decimal(m) == Decimal(n) ==> m == n
  {
    ParseDecimalOfDecimal(m);
    ParseDecimalOfDecimal(n);
  }

  /** The name `Author ${i}` given to the author built in round `i`. */
  function AuthorName(i: nat): string {
    "Author " + Decimal(i)
  }

  /** The title `Book ${i}` given to the book built in round `i`. */
  function BookTitle(i: nat): string {
    "Book " + Decimal(i)
  }

  /** The rendered number can be read back from an author's name. */
  lemma AuthorNameRoundTrip(i: nat)
    ensures |AuthorName(i)| > 7 && AuthorName(i)[..7] == "Author "
    ensures ParseDecimal(AuthorName(i)[7..]) == i
  {
    assert AuthorName(i)[7..] == Decimal(i);
    ParseDecimalOfDecimal(i);
  }

  /** The rendered number can be read back from a book's title. */
  lemma BookTitleRoundTrip(i: nat)
    ensures |BookTitle(i)| > 5 && BookTitle(i)[..5] == "Book "
    ensures ParseDecimal(BookTitle(i)[5..]) == i
  {
    assert BookTitle(i)[5..] == Decimal(i);
    ParseDecimalOfDecimal(i);
  }

  /** Authors built in different rounds get different names. */
  lemma AuthorNamesDistinct(i: nat, j: nat)
    ensures AuthorName(i) == AuthorName(j) <==> i == j
  {
    AuthorNameRoundTrip(i);
    AuthorNameRoundTrip(j);
  }

  /** Books built in different rounds get different titles. */
  lemma BookTitlesDistinct(i: nat, j: nat)
    ensures BookTitle(i) == BookTitle(j) <==> i == j
  {
    BookTitleRoundTrip(i);
    BookTitleRoundTrip(j);
  }
}
