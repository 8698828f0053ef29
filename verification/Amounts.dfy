// Printing money: services/notification/internal/nats/receipt.go, FormatAmount and insertThousands.
module Amounts {
  import opened Common
  import opened Machine
  import opened Text

  // ---------- thousands grouping ----------

  /** Right-to-left reading of the grouping: peel three digits off the end at a time. */
  function Grouped(digits: string): string {
    if |digits| <= 3 then digits
    else Grouped(digits[..|digits| - 3]) + "," + digits[|digits| - 3..]
  }

  /** What the left-to-right loop has written after the first `i` of `digits`. */
  function Written(digits: string, i: nat): string
    requires i <= |digits|
  {
    if i == 0 then ""
    else
      Written(digits, i - 1) +
      (if i - 1 > 0 && (|digits| - (i - 1)) % 3 == 0 then "," else "") + [digits[i - 1]]
  }

  /** Cutting three characters off the end does not move the earlier commas. */
  lemma {:induction false} WrittenPrefix(digits: string, i: nat)
    requires |digits| > 3 && i <= |digits| - 3
    ensures Written(digits, i) == Written(digits[..|digits| - 3], i)
  {
    if i > 0 {
      WrittenPrefix(digits, i - 1);
    }
  }

  lemma {:induction false} WrittenShort(digits: string, i: nat)
    requires i <= |digits| <= 3
    ensures Written(digits, i) == digits[..i]
  {
    if i > 0 {
      WrittenShort(digits, i - 1);
      assert digits[..i] == digits[..i - 1] + [digits[i - 1]];
    }
  }

  lemma WrittenPlain(digits: string, i: nat)
    requires i < |digits| && (i == 0 || (|digits| - i) % 3 != 0)
    ensures Written(digits, i + 1) == Written(digits, i) + [digits[i]]
  {
  }

  lemma WrittenComma(digits: string, i: nat)
    requires 0 < i < |digits| && (|digits| - i) % 3 == 0
    ensures Written(digits, i + 1) == Written(digits, i) + "," + [digits[i]]
  {
  }

  lemma Regroup(w: string, x: char, y: char, z: char)
    ensures w + "," + [x] + [y] + [z] == w + "," + [x, y, z]
  {
  }

  /** The last three digits are written after one comma. */
  lemma WrittenLastGroup(digits: string, m: nat)
    requires m > 0 && |digits| == m + 3
    ensures Written(digits, m + 3) == Written(digits, m) + "," + digits[m..]
  {
    WrittenComma(digits, m);
    WrittenPlain(digits, m + 1);
    WrittenPlain(digits, m + 2);
    Regroup(Written(digits, m), digits[m], digits[m + 1], digits[m + 2]);
    assert digits[m..] == [digits[m], digits[m + 1], digits[m + 2]];
  }

  lemma {:induction false} WrittenIsGrouped(digits: string)
    ensures Written(digits, |digits|) == Grouped(digits)
    decreases |digits|
  {
    var n := |digits|;
    if n <= 3 {
      WrittenShort(digits, n);
      assert digits[..n] == digits;
    } else {
      WrittenLastGroup(digits, n - 3);
      WrittenPrefix(digits, n - 3);
      WrittenIsGrouped(digits[..n - 3]);
    }
  }

  method InsertThousands(digits: string) returns (r: string)
    ensures r == Grouped(digits)
  {
    var n := |digits|;
    if n <= 3 {
      return digits;
    }
    r := "";
    for i := 0 to n
      invariant r == Written(digits, i)
    {
      if i > 0 && (n - i) % 3 == 0 {
        r := r + ",";
      }
      r := r + [digits[i]];
    }
    WrittenIsGrouped(digits);
  }

  /** Deletes every comma. */
  function WithoutCommas(s: string): string {
    if s == "" then ""
    else WithoutCommas(s[..|s| - 1]) + (if s[|s| - 1] == ',' then "" else [s[|s| - 1]])
  }

  lemma {:induction false} WithoutCommasConcat(a: string, b: string)
    ensures WithoutCommas(a + b) == WithoutCommas(a) + WithoutCommas(b)
  {
    if b == "" {
      assert a + b == a;
    } else {
      WithoutCommasConcat(a, b[..|b| - 1]);
      assert (a + b)[..|a + b| - 1] == a + b[..|b| - 1];
    }
  }

  lemma {:induction false} WithoutCommasClean(s: string)
    requires ',' !in s
    ensures WithoutCommas(s) == s
  {
    if s != "" {
      WithoutCommasClean(s[..|s| - 1]);
    }
  }

  /** Grouping loses nothing: deleting the commas gives the digits back. */
  lemma {:induction false} GroupedKeepsDigits(digits: string)
    requires ',' !in digits
    ensures WithoutCommas(Grouped(digits)) == digits
    decreases |digits|
  {
    if |digits| <= 3 {
      WithoutCommasClean(digits);
    } else {
      var head, tail := digits[..|digits| - 3], digits[|digits| - 3..];
      GroupedKeepsDigits(head);
      WithoutCommasLastGroup(Grouped(head), tail);
      assert digits == head + tail;
    }
  }

  lemma WithoutCommasLastGroup(g: string, tail: string)
    requires ',' !in tail
    ensures WithoutCommas((g + ",") + tail) == WithoutCommas(g) + tail
  {
    var left := g + ",";
    assert left[..|g|] == g;
    WithoutCommasConcat(left, tail);
    WithoutCommasClean(tail);
  }

  /** Counted from the right end, exactly every fourth character is a comma, and the first never is. */
  ghost predicate InGroups(g: string) {
    && g != ""
    && g[0] != ','
    && forall i :: 0 <= i < |g| ==> (g[i] == ',' <==> (|g| - 1 - i) % 4 == 3)
  }

  lemma InGroupsSnoc(g: string, tail: string)
    requires InGroups(g) && |tail| == 3 && ',' !in tail
    ensures InGroups(g + "," + tail)
  {
    var r := g + "," + tail;
    forall i | 0 <= i < |r|
      ensures r[i] == ',' <==> (|r| - 1 - i) % 4 == 3
    {
      if i < |g| {
        assert r[i] == g[i];
        assert |r| - 1 - i == (|g| - 1 - i) + 4;
      } else if i > |g| {
        assert r[i] == tail[i - |g| - 1] && tail[i - |g| - 1] in tail;
      }
    }
  }

  /** So the first group has one to three digits and every later group exactly three. */
  lemma {:induction false} GroupedShape(digits: string)
    requires ',' !in digits && |digits| >= 1
    ensures |Grouped(digits)| == |digits| + (|digits| - 1) / 3
    ensures InGroups(Grouped(digits))
    decreases |digits|
  {
    if |digits| <= 3 {
      assert forall i :: 0 <= i < |digits| ==> digits[i] in digits;
    } else {
      var head, tail := digits[..|digits| - 3], digits[|digits| - 3..];
      GroupedShape(head);
      InGroupsSnoc(Grouped(head), tail);
    }
  }

  // ---------- amounts ----------

  predicate ZeroDecimal(code: string) {
    code == "JPY" || code == "KRW" || code == "VND" || code == "CLP"
  }

  function Symbol(code: string): string {
    if code == "USD" then "$"
    else if code == "EUR" then "\U{20AC}"
    else if code == "GBP" then "\U{A3}"
    else if code == "UAH" then "\U{20B4}"
    else if code == "JPY" then "\U{A5}"
    else if code == "INR" then "\U{20B9}"
    else ""
  }

  function Sign(negative: bool): string {
    if negative then "-" else ""
  }

  /** fmt.Sprintf("%02d", n): the sign counts towards the width. */
  function Pad2(n: int): string {
    if 0 <= n < 10 then "0" + FormatInt(n) else FormatInt(n)
  }

  /** Negation of an int64, which leaves the minimum where it is. */
  function Magnitude(amount: Int64): Int64 {
    if amount < 0 then Wrap(-(amount as int)) else amount
  }

  function ValueText(magnitude: Int64, code: string): string {
    if ZeroDecimal(code) then Grouped(FormatInt(magnitude))
    else Grouped(FormatInt(Quotient(magnitude, 100))) + "." + Pad2(Remainder(magnitude, 100))
  }

  function AmountText(amount: Int64, currency: string): string {
    var code := ToUpper(currency);
    Sign(amount < 0) + Symbol(code) + ValueText(Magnitude(amount), code)
  }

  method FormatAmount(amount: Int64, currency: string) returns (r: string)
    ensures r == AmountText(amount, currency)
  {
    var code := ToUpper(currency);
    var rest := amount;
    var negative := rest < 0;
    if negative {
      rest := Wrap(-(rest as int));
    }
    var value: string;
    if ZeroDecimal(code) {
      value := InsertThousands(FormatInt(rest));
    } else {
      var whole := Quotient(rest, 100);
      var cents := Remainder(rest, 100);
      value := InsertThousands(FormatInt(whole));
      value := value + "." + Pad2(cents);
    }
    r := Sign(negative) + Symbol(code) + value;
  }

  // ---------- reading an amount back ----------

  /** Digits in groups, without the commas. */
  function ReadGrouped(text: string): Option<nat> {
    var digits := WithoutCommas(text);
    if digits != "" && AllDigits(digits) && text == Grouped(digits) then Some(ParseDigits(digits)) else None
  }

  function ReadValue(text: string, code: string): Option<nat> {
    if ZeroDecimal(code) then ReadGrouped(text)
    else if |text| < 3 || text[|text| - 3] != '.' || !AllDigits(text[|text| - 2..]) then None
    else
      match ReadGrouped(text[..|text| - 3])
      case None => None
      case Some(whole) => Some(100 * whole + ParseDigits(text[|text| - 2..]))
  }

  /** The inverse reader: sign, currency symbol, grouped digits and, unless zero-decimal, cents. */
  function ReadAmount(text: string, currency: string): Option<int> {
    var code := ToUpper(currency);
    var negative := text != "" && text[0] == '-';
    var unsigned := if negative then text[1..] else text;
    if !(Symbol(code) <= unsigned) then None
    else
      match ReadValue(unsigned[|Symbol(code)|..], code)
      case None => None
      case Some(n) => Some(if negative then -(n as int) else n)
  }

  lemma ReadGroupedNumber(n: nat)
    ensures ReadGrouped(Grouped(Decimal(n))) == Some(n)
    ensures |Grouped(Decimal(n))| >= 1 && IsDigit(Grouped(Decimal(n))[0])
  {
    var digits := Decimal(n);
    assert ',' !in digits;
    GroupedKeepsDigits(digits);
    GroupedStart(digits);
    DecimalRoundTrip(n);
  }

  lemma {:induction false} GroupedStart(digits: string)
    requires |digits| >= 1
    ensures |Grouped(digits)| >= 1 && Grouped(digits)[0] == digits[0]
    decreases |digits|
  {
    if |digits| > 3 {
      GroupedStart(digits[..|digits| - 3]);
    }
  }

  lemma CentsText(n: nat)
    requires n < 100
    ensures |Pad2(n)| == 2 && AllDigits(Pad2(n)) && ParseDigits(Pad2(n)) == n
  {
    DecimalRoundTrip(n);
    if n < 10 {
      assert Pad2(n) == ['0', DigitChar(n)];
      assert Pad2(n)[..1] == "0" && "0"[..0] == "";
    } else {
      assert Decimal(n) == Decimal(n / 10) + [DigitChar(n % 10)];
    }
  }

  lemma ReadValueNumber(n: Int64, code: string)
    requires n >= 0
    ensures ReadValue(ValueText(n, code), code) == Some(n)
    ensures ValueText(n, code) != "" && IsDigit(ValueText(n, code)[0])
  {
    if ZeroDecimal(code) {
      ReadGroupedNumber(n);
    } else {
      ReadCents(n, code);
    }
  }

  lemma ReadCents(n: nat, code: string)
    requires !ZeroDecimal(code)
    ensures var text := Grouped(Decimal(n / 100)) + "." + Pad2(n % 100);
            ReadValue(text, code) == Some(n) && text != "" && IsDigit(text[0])
  {
    ReadGroupedNumber(n / 100);
    CentsText(n % 100);
    ReadPointed(Grouped(Decimal(n / 100)), Pad2(n % 100), n / 100, n, code);
  }

  lemma ReadPointed(g: string, c: string, whole: nat, n: nat, code: string)
    requires !ZeroDecimal(code) && ReadGrouped(g) == Some(whole) && |g| >= 1 && |c| == 2 && AllDigits(c)
    requires n == 100 * whole + ParseDigits(c)
    ensures ReadValue(g + "." + c, code) == Some(n)
    ensures g + "." + c != "" && (g + "." + c)[0] == g[0]
  {
    SplitAtPoint(g, c);
  }

  lemma SplitAtPoint(g: string, c: string)
    requires |c| == 2 && |g| >= 1
    ensures var text := g + "." + c;
            text[..|text| - 3] == g && text[|text| - 2..] == c && text[|text| - 3] == '.' && text[0] == g[0]
  {
  }

  /** Printing is reversible: reading the printed text recovers every amount but the minimum. */
  lemma AmountRoundTrip(amount: Int64, currency: string)
    requires amount != MIN_INT64
    ensures ReadAmount(AmountText(amount, currency), currency) == Some(amount)
  {
    var code := ToUpper(currency);
    var n := Magnitude(amount);
    ReadValueNumber(n, code);
    ReadSigned(amount < 0, ValueText(n, code), code);
  }

  lemma ReadSigned(negative: bool, value: string, code: string)
    requires negative || (value != "" && IsDigit(value[0]))
    ensures var text := Sign(negative) + Symbol(code) + value;
            && text != "" && (text[0] == '-' <==> negative)
            && (if negative then text[1..] else text) == Symbol(code) + value
            && (Symbol(code) + value)[|Symbol(code)|..] == value
  {
    var text := Sign(negative) + Symbol(code) + value;
    if negative {
      assert text == "-" + (Symbol(code) + value);
    } else {
      assert text == Symbol(code) + value;
    }
  }

  /** The minimum is where negation wraps: its magnitude keeps the minus sign and no reader takes it. */
  lemma MinimumUnreadable(currency: string)
    ensures Magnitude(MIN_INT64) == MIN_INT64
    ensures ReadAmount(AmountText(MIN_INT64, currency), currency) == None
  {
    var code := ToUpper(currency);
    ReadSigned(true, ValueText(MIN_INT64, code), code);
    MinimumValueUnreadable(code);
  }

  lemma MinimumValueUnreadable(code: string)
    ensures ReadValue(ValueText(MIN_INT64, code), code) == None
  {
    if ZeroDecimal(code) {
      SignedUnreadable(TWO_63);
    } else {
      CentsOfMinimum();
      LastThree(Grouped(FormatInt(Quotient(MIN_INT64, 100))));
    }
  }

  lemma LastThree(g: string)
    ensures !AllDigits((g + "." + "-8")[|g + "." + "-8"| - 2..])
  {
    assert (g + "." + "-8")[|g + "." + "-8"| - 2] == '-';
  }

  lemma SignedUnreadable(n: nat)
    requires n > 0
    ensures ReadGrouped(Grouped(FormatInt(0 - n))) == None
  {
    var printed := "-" + Decimal(n);
    GroupedKeepsDigits(printed);
    assert printed[0] == '-' && !IsDigit(printed[0]);
  }

  lemma CentsOfMinimum()
    ensures Pad2(Remainder(MIN_INT64, 100)) == "-8"
  {
    assert Remainder(MIN_INT64, 100) == -8;
    assert Decimal(8) == "8";
  }

  /** Printing is reversible exactly off the minimum. */
  lemma AmountReversible(amount: Int64, currency: string)
    ensures ReadAmount(AmountText(amount, currency), currency) == Some(amount) <==> amount != MIN_INT64
  {
    if amount == MIN_INT64 {
      MinimumUnreadable(currency);
    } else {
      AmountRoundTrip(amount, currency);
    }
  }

  /** Within one currency no two amounts print alike, the minimum included. */
  lemma AmountInjective(a: Int64, b: Int64, currency: string)
    requires AmountText(a, currency) == AmountText(b, currency)
    ensures a == b
  {
    AmountReversible(a, currency);
    AmountReversible(b, currency);
    MinimumUnreadable(currency);
  }

  // ---------- which symbol, and where the decimals go ----------

  const SYMBOLS: map<string, string> := map[
    "USD" := "$", "EUR" := "\U{20AC}", "GBP" := "\U{A3}", "UAH" := "\U{20B4}", "JPY" := "\U{A5}", "INR" := "\U{20B9}"]

  const WITHOUT_DECIMALS: set<string> := {"JPY", "KRW", "VND", "CLP"}

  function SymbolFor(code: string): string {
    if code in SYMBOLS then SYMBOLS[code] else ""
  }

  lemma CodeTables(code: string)
    ensures Symbol(code) == SymbolFor(code)
    ensures ZeroDecimal(code) <==> code in WITHOUT_DECIMALS
  {
  }

  /** The digits of a magnitude: whole, or hundredths with two digits after a point. */
  function DigitsText(n: nat, decimals: bool): string {
    if decimals then Grouped(Decimal(n / 100)) + "." + [DigitChar(n % 100 / 10), DigitChar(n % 100 % 10)]
    else Grouped(Decimal(n))
  }

  /**
   * Off the minimum a printed amount is a minus sign if it is negative, the currency's symbol, and then
   * grouped digits; a code without decimals shows the whole amount there, any other shows hundredths, two
   * digits after a point.
   */
  lemma AmountLayout(amount: Int64, currency: string)
    requires amount != MIN_INT64
    ensures var n: nat := if amount < 0 then -(amount as int) else amount;
            AmountText(amount, currency) ==
            Sign(amount < 0) + SymbolFor(ToUpper(currency)) + DigitsText(n, ToUpper(currency) !in WITHOUT_DECIMALS)
    ensures Sign(true) == "-" && Sign(false) == ""
  {
    var code := ToUpper(currency);
    CodeTables(code);
    ValueLayout(Magnitude(amount), code);
  }

  lemma ValueLayout(magnitude: Int64, code: string)
    requires magnitude >= 0
    ensures ValueText(magnitude, code) == DigitsText(magnitude, !ZeroDecimal(code))
  {
    TwoDigits(magnitude % 100);
  }

  lemma TwoDigits(n: nat)
    requires n < 100
    ensures Pad2(n) == [DigitChar(n / 10), DigitChar(n % 10)]
  {
    if n >= 10 {
      assert Decimal(n) == Decimal(n / 10) + [DigitChar(n % 10)];
    }
  }
}
