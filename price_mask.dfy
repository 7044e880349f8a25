/** The masked price input of the product form: every keystroke keeps only the digits of the
    field, reads them as a count of cents, and redisplays the amount with two decimals. */
module PriceMask {
  import opened Decimal

  /** The form's `preco`: the empty string (or null) before any digit is typed, else an amount
      in cents. */
  datatype Price = Blank | Cents(amount: nat)

  /** What `handlePriceChange` stores for the field text `input`: `""` when no digit is left
      after stripping, else the digits read as a whole number of cents. */
  function ParseCents(input: string): (p: Price)
    ensures p == Blank <==> forall i :: 0 <= i < |input| ==> !IsDigit(input[i])
    ensures p.Cents? ==> p.amount == Value(KeepDigits(input))
  {
    var digits := KeepDigits(input);
    if digits == [] then
      Blank
    else
      assert digits[0] in digits;
      Cents(Value(digits))
  }

  /** Thousands grouping of an integer part: a '.' before every group of three digits,
      counted from the right. */
  function Group(s: string): string
    decreases |s|
  {
    if |s| <= 3 then s else Group(s[..|s| - 3]) + "." + s[|s| - 3..]
  }

  /** The pt-BR rendering of `cents / 100` with exactly two fraction digits ("1.234,50"). */
  function FormatCents(cents: nat): string {
    var d := PadLeft(ToDecimal(cents), 3);
    Group(d[..|d| - 2]) + "," + d[|d| - 2..]
  }

  /** `formatToBRL`: nothing to show for an empty price, else the amount with two decimals. */
  function FormatToBRL(p: Price): (r: string)
    ensures r == "" <==> p == Blank
  {
    match p
    case Blank => ""
    case Cents(c) => FormatCents(c)
  }

  /** A separator that is not a digit vanishes when the digits are kept. */
  lemma KeepDigitsAroundSeparator(a: string, sep: char, b: string)
    requires !IsDigit(sep)
    ensures KeepDigits(a + [sep] + b) == KeepDigits(a) + KeepDigits(b)
  {
    KeepDigitsOfNonDigits([sep]);
    KeepDigitsAppend(a, [sep]);
    assert KeepDigits(a + [sep]) == KeepDigits(a) + [];
    assert KeepDigits(a) + [] == KeepDigits(a);
    KeepDigitsAppend(a + [sep], b);
  }

  /** Grouping never shortens the integer part. */
  lemma {:induction false} GroupLength(s: string)
    ensures |Group(s)| >= |s|
    decreases |s|
  {
    if |s| > 3 {
      GroupLength(s[..|s| - 3]);
    }
  }

  /** The rendering always ends in a ',' followed by exactly two digits, with at least one
      digit of integer part before it. */
  lemma FormatCentsShape(cents: nat)
    ensures var r := FormatCents(cents);
      |r| >= 4 && r[|r| - 3] == ',' && IsDigit(r[|r| - 2]) && IsDigit(r[|r| - 1])
  {
    var d := PadLeft(ToDecimal(cents), 3);
    GroupLength(d[..|d| - 2]);
  }

  /** The separators that grouping inserts are not digits. */
  lemma {:induction false} KeepDigitsOfGroup(s: string)
    requires AllDigits(s)
    ensures KeepDigits(Group(s)) == s
  {
    if |s| <= 3 {
      KeepDigitsOfDigits(s);
    } else {
      var hi, lo := s[..|s| - 3], s[|s| - 3..];
      assert Group(s) == Group(hi) + ['.'] + lo;
      KeepDigitsOfGroup(hi);
      KeepDigitsAroundSeparator(Group(hi), '.', lo);
      KeepDigitsOfDigits(lo);
      assert hi + lo == s;
    }
  }

  /** The digits on display are the amount in cents, padded to at least three digits. */
  lemma KeepDigitsOfFormat(cents: nat)
    ensures KeepDigits(FormatCents(cents)) == PadLeft(ToDecimal(cents), 3)
  {
    var d := PadLeft(ToDecimal(cents), 3);
    var hi, lo := d[..|d| - 2], d[|d| - 2..];
    assert FormatCents(cents) == Group(hi) + [','] + lo;
    KeepDigitsAroundSeparator(Group(hi), ',', lo);
    KeepDigitsOfGroup(hi);
    KeepDigitsOfDigits(lo);
    assert hi + lo == d;
  }

  /** Reading back what `formatToBRL` shows gives the stored price: the field's text and the
      form's `preco` always agree. */
  lemma PriceRoundTrip(p: Price)
    ensures ParseCents(FormatToBRL(p)) == p
  {
    if p.Cents? {
      KeepDigitsOfFormat(p.amount);
      ValueOfToDecimal(p.amount);
    }
  }

  /** Typing a digit at the end of the shown amount shifts it one place left in cents:
      "12,50" followed by '3' stores 1250 * 10 + 3 cents. */
  lemma TypeDigit(cents: nat, c: char)
    requires IsDigit(c)
    ensures ParseCents(FormatCents(cents) + [c]) == Cents(10 * cents + DigitValue(c))
  {
    var f := FormatCents(cents);
    var d := PadLeft(ToDecimal(cents), 3);
    assert KeepDigits(f + [c]) == d + [c] by {
      KeepDigitsOfFormat(cents);
      KeepDigitsAppend(f, [c]);
      KeepDigitsOfDigits([c]);
    }
    assert Value(d + [c]) == 10 * cents + DigitValue(c) by {
      ValueOfToDecimal(cents);
      ValueAppend(d, c);
    }
  }

  /** The digits left after deleting the last shown character are the padded cents without
      their last digit. */
  lemma KeepDigitsOfBackspace(cents: nat)
    ensures var f := FormatCents(cents);
      var d := PadLeft(ToDecimal(cents), 3);
      f != [] && KeepDigits(f[..|f| - 1]) == d[..|d| - 1]
  {
    var d := PadLeft(ToDecimal(cents), 3);
    var hi, lo := d[..|d| - 2], d[|d| - 2..];
    var g := Group(hi);
    var f := FormatCents(cents);
    assert f[..|f| - 1] == g + [','] + [d[|d| - 2]] by {
      assert f == g + [','] + lo;
      assert lo == [d[|d| - 2]] + [d[|d| - 1]];
    }
    KeepDigitsAroundSeparator(g, ',', [d[|d| - 2]]);
    KeepDigitsOfGroup(hi);
    KeepDigitsOfDigits([d[|d| - 2]]);
    assert hi + [d[|d| - 2]] == d[..|d| - 1];
  }

  /** Deleting the last character of the shown amount drops its last cent digit; the field is
      never emptied that way, since at least two digits remain. */
  lemma Backspace(cents: nat)
    ensures var f := FormatCents(cents);
      f != [] && ParseCents(f[..|f| - 1]) == Cents(cents / 10)
  {
    var d := PadLeft(ToDecimal(cents), 3);
    KeepDigitsOfBackspace(cents);
    assert Value(d[..|d| - 1]) == cents / 10 by {
      ValueDropLast(d);
      ValueOfToDecimal(cents);
    }
  }

  /** A worked amount: 1234.50 is shown as "1.234,50". */
  lemma FormatThousands()
    ensures FormatCents(123450) == "1.234,50"
  {
    assert ToDecimal(1) == "1";
    assert ToDecimal(12) == "12";
    assert ToDecimal(123) == "123";
    assert ToDecimal(1234) == "1234";
    assert ToDecimal(12345) == "12345";
    assert ToDecimal(123450) == "123450";
    assert PadLeft("123450", 3) == "123450";
    assert "123450"[..4] == "1234" && "123450"[4..] == "50";
    assert Group("1234") == "1.234" by {
      assert "1234"[..1] == "1" && "1234"[1..] == "234";
    }
  }

  /** A worked amount below one real: 5 cents are shown as "0,05". */
  lemma FormatBelowOne()
    ensures FormatCents(5) == "0,05"
  {
    assert ToDecimal(5) == "5";
    assert PadLeft("5", 3) == "005";
    assert "005"[..1] == "0" && "005"[1..] == "05";
    assert Group("0") == "0";
  }
}
