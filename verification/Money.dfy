/** The two halves of the decimal format: Money.String on the server prints minor units,
    parseAmountToMinor in the browser reads them back. */
module Money {
  import opened Int64
  import opened MinorUnits
  import Currency
  import Ledger

  type Option<T> = Ledger.Option<T>

  // ----- printing ------------------------------------------------------------------------

  /** An amount and an upper-case supported code, as built by New. */
  datatype Money = Money(amount: int64, currency: string) {
    predicate Valid() {
      currency in Currency.SUPPORTED
    }
  }

  function New(amount: int64, code: string): (m: Option<Money>)
    ensures m.Some? <==> Currency.IsSupported(code)
    ensures m.Some? ==> m.value.Valid() && m.value == Money(amount, Currency.ToUpper(code))
  {
    var c := Currency.ToUpper(code);
    if c in Currency.SUPPORTED then Ledger.Some(Money(amount, c)) else Ledger.None
  }

  predicate IsDigit(c: char) { '0' <= c <= '9' }

  predicate AllDigits(s: string) {
    forall i :: 0 <= i < |s| ==> IsDigit(s[i])
  }

  /** The number a run of digits spells. */
  function NatOf(s: string): nat
    requires AllDigits(s)
  {
    if s == "" then 0 else NatOf(s[..|s| - 1]) * 10 + (s[|s| - 1] as int - '0' as int)
  }

  function Digit(d: nat): (c: char)
    requires d < 10
    ensures IsDigit(c) && c as int - '0' as int == d
  {
    ('0' as int + d) as char
  }

  /** %d of a non-negative number. */
  function Digits(n: nat): (s: string)
    ensures s != "" && AllDigits(s) && NatOf(s) == n
    ensures |s| == 1 <==> n < 10
  {
    if n < 10 then
      assert NatOf([Digit(n)][..0]) == 0;
      [Digit(n)]
    else
      var s := Digits(n / 10) + [Digit(n % 10)];
      assert s[..|s| - 1] == Digits(n / 10);
      s
  }

  function Decimal(n: int): string {
    if n < 0 then "-" + Digits(-n) else Digits(n)
  }

  /** %02d: the sign counts towards the width. */
  function TwoWide(n: int): string {
    if 0 <= n < 10 then "0" + Decimal(n) else Decimal(n)
  }

  /** Go's division and remainder by a positive number truncate towards zero. */
  function Quotient(a: int, b: int): int
    requires b > 0
  {
    if a < 0 then -(-a / b) else a / b
  }

  function Remainder(a: int, b: int): int
    requires b > 0
  {
    if a < 0 then -(-a % b) else a % b
  }

  /** The absolute value, except that the most negative amount stays negative. */
  function Magnitude(n: int64): int64 {
    if MIN < n < 0 then -n else n
  }

  /** That is what negating on int64 gives. */
  lemma NegationWraps(n: int64)
    requires n < 0
    ensures Magnitude(n) == Wrap(-(n as int))
  {
  }

  /** %d.%02d and the currency code. */
  function Unsigned(a: int, code: string): string {
    Decimal(Quotient(a, 100)) + "." + TwoWide(Remainder(a, 100)) + " " + code
  }

  function String(m: Money): string
    requires m.Valid()
  {
    var body := Unsigned(Magnitude(m.amount), m.currency);
    if m.amount < 0 then "-" + body else body
  }

  // ----- reading -------------------------------------------------------------------------

  /** The characters String.prototype.trim removes. */
  predicate IsSpace(c: char) {
    || '\t' <= c <= '\r' || c == ' ' || c == '\U{A0}' || c == '\U{1680}'
    || '\U{2000}' <= c <= '\U{200A}' || c == '\U{2028}' || c == '\U{2029}'
    || c == '\U{202F}' || c == '\U{205F}' || c == '\U{3000}' || c == '\U{FEFF}'
  }

  function TrimStart(s: string): string {
    if s != "" && IsSpace(s[0]) then TrimStart(s[1..]) else s
  }

  function TrimEnd(s: string): string {
    if s != "" && IsSpace(s[|s| - 1]) then TrimEnd(s[..|s| - 1]) else s
  }

  /** replace(',', '.') rewrites the first comma only. */
  function FirstCommaToPoint(s: string): string {
    if s == "" then ""
    else if s[0] == ',' then "." + s[1..]
    else [s[0]] + FirstCommaToPoint(s[1..])
  }

  function Normalized(input: string): string {
    FirstCommaToPoint(TrimEnd(TrimStart(input)))
  }

  /** How many digits the text starts with. */
  function Whole(t: string): (k: nat)
    ensures k <= |t| && AllDigits(t[..k]) && (k < |t| ==> !IsDigit(t[k]))
  {
    if t != "" && IsDigit(t[0]) then
      var k := Whole(t[1..]);
      assert forall i :: 0 < i < k + 1 ==> t[i] == t[1..][..k][i - 1];
      k + 1
    else 0
  }

  /** The regular expression ^\d+(\.\d{1,2})?$ */
  predicate Matches(t: string) {
    var k := Whole(t);
    && k > 0
    && (k == |t| || (t[k] == '.' && k + 2 <= |t| <= k + 3 && AllDigits(t[k + 1..])))
  }

  function Hundredths(t: string): nat
    requires Matches(t)
  {
    var k := Whole(t);
    NatOf(t[..k]) * 100
    + if k == |t| then 0 else NatOf(t[k + 1..]) * (if |t| == k + 2 then 10 else 1)
  }

  ghost function ParseAmountToMinor(input: string): Option<int> {
    var t := Normalized(input);
    if !Matches(t) then Ledger.None
    else
      var minor := Minor(Hundredths(t));
      if minor > 0 then Ledger.Some(minor) else Ledger.None
  }

  // ----- what is accepted ------------------------------------------------------------------

  /** A decimal with at most two places: digits, optionally a separator and one or two
      more digits. */
  function Written(w: string, sep: char, f: string): string {
    if f == "" then w else w + [sep] + f
  }

  predicate IsAmount(w: string, f: string) {
    w != "" && AllDigits(w) && |f| <= 2 && AllDigits(f)
  }

  function Value(w: string, f: string): nat
    requires IsAmount(w, f)
  {
    NatOf(w) * 100 + NatOf(f) * (if |f| == 1 then 10 else 1)
  }

  lemma {:induction false} WholeIs(t: string, k: nat)
    requires k <= |t| && AllDigits(t[..k]) && (k < |t| ==> !IsDigit(t[k]))
    ensures Whole(t) == k
  {
    if k > 0 {
      assert IsDigit(t[..k][0]);
      assert t[1..][..k - 1] == t[..k][1..];
      WholeIs(t[1..], k - 1);
    } else if t != "" {
      assert !IsDigit(t[0]);
    }
  }

  lemma WrittenMatches(w: string, f: string)
    requires IsAmount(w, f)
    ensures Matches(Written(w, '.', f))
    ensures Hundredths(Written(w, '.', f)) == Value(w, f)
  {
    var t := Written(w, '.', f);
    assert t[..|w|] == w;
    WholeIs(t, |w|);
    if f != "" { assert t[|w| + 1..] == f; }
  }

  /** The matcher accepts exactly the decimals with at most two places. */
  lemma MatchesIff(t: string)
    ensures Matches(t) <==> exists w, f :: IsAmount(w, f) && t == Written(w, '.', f)
  {
    if Matches(t) {
      var k := Whole(t);
      var w, f := t[..k], if k == |t| then "" else t[k + 1..];
      assert t == Written(w, '.', f);
      assert IsAmount(w, f);
    }
    forall w, f | IsAmount(w, f) && t == Written(w, '.', f) ensures Matches(t) {
      WrittenMatches(w, f);
    }
  }

  // ----- spaces and commas -----------------------------------------------------------------

  predicate AllSpaces(s: string) {
    forall i :: 0 <= i < |s| ==> IsSpace(s[i])
  }

  lemma {:induction false} TrimStartSkips(a: string, t: string)
    requires AllSpaces(a) && t != "" && !IsSpace(t[0])
    ensures TrimStart(a + t) == t
  {
    if a == "" {
      assert a + t == t;
    } else {
      assert (a + t)[1..] == a[1..] + t;
      TrimStartSkips(a[1..], t);
    }
  }

  lemma {:induction false} TrimEndSkips(t: string, b: string)
    requires AllSpaces(b) && t != "" && !IsSpace(t[|t| - 1])
    ensures TrimEnd(t + b) == t
  {
    if b == "" {
      assert t + b == t;
    } else {
      assert (t + b)[..|t + b| - 1] == t + b[..|b| - 1];
      TrimEndSkips(t, b[..|b| - 1]);
    }
  }

  lemma {:induction false} CommaAfterDigits(w: string, rest: string)
    requires AllDigits(w)
    ensures FirstCommaToPoint(w + rest) == w + FirstCommaToPoint(rest)
  {
    if w == "" {
      assert w + rest == rest;
      assert w + FirstCommaToPoint(rest) == FirstCommaToPoint(rest);
    } else {
      assert (w + rest)[1..] == w[1..] + rest;
      CommaAfterDigits(w[1..], rest);
      assert [w[0]] + (w[1..] + FirstCommaToPoint(rest)) == w + FirstCommaToPoint(rest);
    }
  }

  lemma SeparatorToPoint(w: string, sep: char, f: string)
    requires IsAmount(w, f) && sep in {'.', ','}
    ensures FirstCommaToPoint(Written(w, sep, f)) == Written(w, '.', f)
  {
    if f == "" {
      CommaAfterDigits(w, "");
      assert w + "" == w;
    } else {
      CommaAfterDigits(w, [sep] + f);
      assert w + ([sep] + f) == Written(w, sep, f);
      assert ([sep] + f)[1..] == f;
      if sep == '.' {
        CommaAfterDigits(f, "");
        assert f + "" == f;
      }
      assert FirstCommaToPoint([sep] + f) == ['.'] + f;
      assert w + (['.'] + f) == Written(w, '.', f);
    }
  }

  lemma NormalizedIs(a: string, w: string, sep: char, f: string, b: string)
    requires AllSpaces(a) && AllSpaces(b) && IsAmount(w, f) && sep in {'.', ','}
    ensures Normalized(a + Written(w, sep, f) + b) == Written(w, '.', f)
  {
    var t := Written(w, sep, f);
    assert IsDigit(t[0]) && IsDigit(t[|t| - 1]);
    assert a + t + b == a + (t + b);
    TrimStartSkips(a, t + b);
    TrimEndSkips(t, b);
    SeparatorToPoint(w, sep, f);
  }

  // ----- main results ----------------------------------------------------------------------

  /** Surrounded by any spaces and with either separator, a decimal is read as its exact
      value exactly when the floating-point chain is exact on that value. */
  lemma ReadsValue(a: string, w: string, sep: char, f: string, b: string)
    requires AllSpaces(a) && AllSpaces(b) && IsAmount(w, f) && sep in {'.', ','}
    requires Value(w, f) > 0
    ensures
      ParseAmountToMinor(a + Written(w, sep, f) + b) == Ledger.Some(Value(w, f))
      <==> Exact(Value(w, f))
  {
    NormalizedIs(a, w, sep, f, b);
    WrittenMatches(w, f);
    ExactIff(Value(w, f));
  }

  /** null exactly for what is not such a decimal and for zero. */
  lemma RejectsIff(input: string)
    ensures ParseAmountToMinor(input).None?
      <==> forall w, f :: IsAmount(w, f) && Normalized(input) == Written(w, '.', f) ==> Value(w, f) == 0
  {
    var t := Normalized(input);
    forall w, f | IsAmount(w, f) && t == Written(w, '.', f)
      ensures ParseAmountToMinor(input).None? <==> Value(w, f) == 0
    {
      WrittenMatches(w, f);
      if Value(w, f) > 0 { StaysPositive(Value(w, f)); }
    }
    MatchesIff(t);
  }

  /** What String prints before the currency code of an amount that is not negative. */
  lemma PrintedForm(m: Money) returns (w: string, f: string)
    requires m.Valid() && m.amount >= 0
    ensures IsAmount(w, f) && |f| == 2 && Value(w, f) == m.amount
    ensures String(m) == Written(w, '.', f) + " " + m.currency
  {
    var n: int := m.amount;
    w, f := Digits(n / 100), TwoWide(n % 100);
    TwoWideValue(n % 100);
  }

  lemma TwoWideValue(r: nat)
    requires r < 100
    ensures |TwoWide(r)| == 2 && AllDigits(TwoWide(r)) && NatOf(TwoWide(r)) == r
  {
    if r < 10 {
      var s := "0" + Digits(r);
      assert s[..1] == "0" && "0"[..0] == "";
      assert NatOf("0") == 0;
      assert Digits(r) == [Digit(r)];
    } else {
      assert Digits(r) == Digits(r / 10) + [Digit(r % 10)];
      assert |Digits(r / 10)| == 1;
    }
  }

  /** A negative amount prints as a minus sign before its opposite. */
  lemma NegativePrinted(m: Money, opposite: Money)
    requires m.Valid() && MIN < m.amount < 0
    requires opposite == Money(-m.amount, m.currency)
    ensures String(m) == "-" + String(opposite)
  {
    assert Magnitude(m.amount) == Magnitude(opposite.amount);
  }

  /** The one amount without an opposite: its two parts carry signs of their own, after
      the sign String puts first. */
  lemma LeastPrinted(q: nat)
    requires q == TWO63 / 100
    ensures Decimal(Quotient(Magnitude(MIN), 100)) == "-" + Digits(q)
    ensures TwoWide(Remainder(Magnitude(MIN), 100)) == "-8"
  {
    assert Digits(8) == "8";
  }

  /** The printed text without its last four characters, the space and the code. */
  function Numeric(printed: string): string
    requires |printed| > 4
  {
    printed[..|printed| - 4]
  }

  lemma NumericPart(t: string, code: string)
    requires code in Currency.SUPPORTED && t != ""
    ensures |t + " " + code| > 4 && Numeric(t + " " + code) == t
  {
    assert |code| == 3;
  }

  /** Reading back the numeric part of a printed positive amount gives the amount if and
      only if Exact holds of it; in particular always up to 3518437208883201. */
  lemma RoundTrip(m: Money)
    requires m.Valid() && m.amount > 0
    ensures |String(m)| > 4
    ensures ParseAmountToMinor(Numeric(String(m))) == Ledger.Some(m.amount as int) <==> Exact(m.amount)
  {
    var w, f := PrintedForm(m);
    var t := Written(w, '.', f);
    NumericPart(t, m.currency);
    assert "" + t + "" == t;
    ReadsValue("", w, '.', f, "");
  }
}
