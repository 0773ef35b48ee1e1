/** The footer row's text: the number of reviews followed by the Russian word for
    "review" in the grammatical form that number takes (FooterCellConfig.pluralizeText). */
module FooterCell {

  /** The three forms of "отзыв" a count can take. */
  datatype Form = One | Few | Many

  /** The word for each form. */
  function FormWord(f: Form): (word: string)
  {
    match f
    case One => "отзыв"
    case Few => "отзыва"
    case Many => "отзывов"
  }

  /** Swift's `%` on Int: the remainder truncates toward zero, so it takes the sign of
      the dividend (Dafny's `%` is Euclidean and never negative). */
  function SwiftRem(a: int, b: int): (r: int)
    requires b > 0
    ensures a >= 0 ==> 0 <= r < b
    ensures a < 0 ==> -b < r <= 0
  {
    if a >= 0 then a % b else -((-a) % b)
  }

  /** SwiftRem is the remainder of truncating division: the dividend is the truncated
      quotient times the divisor plus SwiftRem, the quotient rounding toward zero. */
  lemma SwiftRemIsRemainder(a: int, b: int)
    requires b > 0
    ensures a >= 0 ==> a == (a / b) * b + SwiftRem(a, b)
    ensures a < 0 ==> a == (0 - (-a) / b) * b + SwiftRem(a, b)
  {
    if a >= 0 {
      assert a == (a / b) * b + a % b;
    } else {
      var m := -a;
      assert m == (m / b) * b + m % b;
      assert a == (0 - m / b) * b + (0 - m % b);
    }
  }

  /** The form pluralizeText picks, from the last digit and the last two digits. */
  function PluralForm(count: int): (f: Form)
    ensures count < 0 ==> f == Many
  {
    var lastDigit := SwiftRem(count, 10);
    var lastTwoDigits := SwiftRem(count, 100);
    if 11 <= lastTwoDigits <= 14 then Many
    else if lastDigit == 1 then One
    else if 2 <= lastDigit <= 4 then Few
    else Many
  }

  /** The decimal digit for 0..9. */
  function DigitChar(d: nat): (ch: char)
    requires d < 10
    ensures '0' <= ch <= '9'
  {
    "0123456789"[d]
  }

  /** The value of a decimal digit character. */
  function DigitValue(ch: char): (d: nat)
    requires '0' <= ch <= '9'
    ensures d < 10
  {
    (ch as int - '0' as int) as nat
  }

  /** Decimal digits of a natural number, most significant first, without leading zeros. */
  function Digits(n: nat): (s: string)
    ensures |s| > 0
    ensures forall i :: 0 <= i < |s| ==> '0' <= s[i] <= '9'
  {
    if n < 10 then [DigitChar(n)] else Digits(n / 10) + [DigitChar(n % 10)]
  }

  /** Swift string interpolation of an Int: an optional minus sign and the digits. */
  function DecimalString(n: int): (s: string)
    ensures ' ' !in s
  {
    if n < 0 then "-" + Digits(-n) else Digits(n)
  }

  /** Reads a string of decimal digits back as a number (a character that is not a
      digit reads as 0). */
  function ParseDigits(s: string): (n: nat)
  {
    if s == [] then 0
    else
      var last := s[|s| - 1];
      ParseDigits(s[..|s| - 1]) * 10 + (if '0' <= last <= '9' then DigitValue(last) else 0)
  }

  /** Reads an optional minus sign and decimal digits back as a number. */
  function ParseDecimal(s: string): (n: int)
  {
    if |s| > 0 && s[0] == '-' then 0 - ParseDigits(s[1..]) else ParseDigits(s)
  }

  /** The footer text for a review count. */
  function PluralizeText(count: int): (text: string)
    ensures exists f: Form :: text == DecimalString(count) + " " + FormWord(f)
  {
    DecimalString(count) + " " + FormWord(PluralForm(count))
  }

  /** Digits round-trips through ParseDigits. */
  lemma {:induction false} DigitsRoundTrip(n: nat)
    ensures ParseDigits(Digits(n)) == n
  {
    if n >= 10 {
      var s := Digits(n);
      assert s[..|s| - 1] == Digits(n / 10);
      DigitsRoundTrip(n / 10);
      assert DigitValue(s[|s| - 1]) == n % 10;
    } else {
      assert DigitValue(DigitChar(n)) == n;
    }
  }

  /** DecimalString round-trips through ParseDecimal, negative counts included. */
  lemma DecimalRoundTrip(n: int)
    ensures ParseDecimal(DecimalString(n)) == n
  {
    var s := DecimalString(n);
    if n < 0 {
      var m: nat := -n;
      var digits := Digits(m);
      assert s == "-" + digits;
      assert s[1..] == digits;
      DigitsRoundTrip(m);
      assert ParseDecimal(s) == 0 - ParseDigits(digits);
    } else {
      assert s == Digits(n);
      assert '0' <= s[0] <= '9';
      DigitsRoundTrip(n);
      assert ParseDecimal(s) == ParseDigits(s);
    }
  }

  /** The count is what precedes the first space of the footer text. */
  function CountPart(text: string): (prefix: string)
    ensures ' ' !in prefix
    ensures prefix <= text
  {
    if text == [] || text[0] == ' ' then [] else [text[0]] + CountPart(text[1..])
  }

  /** The word is what follows the first space of the footer text. */
  function WordPart(text: string): (word: string)
  {
    var k := |CountPart(text)|;
    if k < |text| then text[k + 1..] else []
  }

  /** Splitting at the first space recovers a prefix that contains no space. */
  lemma {:induction false} CountPartOfJoin(a: string, b: string)
    requires ' ' !in a
    ensures CountPart(a + " " + b) == a
  {
    if a != [] {
      assert (a + " " + b)[1..] == a[1..] + " " + b;
      CountPartOfJoin(a[1..], b);
    } else {
      assert (a + " " + b)[0] == ' ';
    }
  }

  /** The footer text reads back as the count it was built from, followed by the word of
      the form pluralizeText chose. */
  lemma PluralizeRoundTrip(count: int)
    ensures ParseDecimal(CountPart(PluralizeText(count))) == count
    ensures WordPart(PluralizeText(count)) == FormWord(PluralForm(count))
  {
    var w := FormWord(PluralForm(count));
    CountPartOfJoin(DecimalString(count), w);
    DecimalRoundTrip(count);
    var text := DecimalString(count) + " " + w;
    assert text[|DecimalString(count)| + 1..] == w;
  }

  /** The form depends on the count only through its last two digits (its truncated
      remainder modulo 100). */
  lemma FormDependsOnLastTwoDigits(a: int, b: int)
    requires SwiftRem(a, 100) == SwiftRem(b, 100)
    ensures PluralForm(a) == PluralForm(b)
  {
    LastDigitOfLastTwo(a);
    LastDigitOfLastTwo(b);
  }

  /** The last digit is the last digit of the last two digits. */
  lemma LastDigitOfLastTwo(a: int)
    ensures SwiftRem(a, 10) == SwiftRem(SwiftRem(a, 100), 10)
  {
    if a >= 0 {
      LastDigitOfHundreds(a);
    } else {
      LastDigitOfHundreds(-a);
    }
  }

  /** For a natural number, the remainder by 10 is the remainder by 10 of the remainder
      by 100. */
  lemma LastDigitOfHundreds(m: nat)
    ensures m % 10 == (m % 100) % 10
  {
    var q, r := m / 100, m % 100;
    var t, u := r / 10, r % 10;
    assert m == 10 * (10 * q + t) + u;
    RemainderOfDecomposition(m, 10 * q + t, u);
  }

  /** m = 10k + u with 0 <= u < 10 leaves remainder u. */
  lemma RemainderOfDecomposition(m: int, k: int, u: int)
    requires m == 10 * k + u && 0 <= u < 10
    ensures m % 10 == u
  {
  }

  /** The Russian cardinal plural rule, stated as the CLDR rule for a non-negative
      integer n: "one" when n mod 10 = 1 and n mod 100 != 11; "few" when n mod 10 is in
      2..4 and n mod 100 is not in 12..14; "many" otherwise. */
  function RussianCategory(n: nat): (f: Form)
  {
    if n % 10 == 1 && n % 100 != 11 then One
    else if 2 <= n % 10 <= 4 && !(12 <= n % 100 <= 14) then Few
    else Many
  }

  /** For every non-negative count the form chosen is the one the Russian plural rule
      prescribes. */
  lemma PluralFormIsRussianRule(n: nat)
    ensures PluralForm(n) == RussianCategory(n)
  {
    LastDigitOfLastTwo(n);
  }
}
