/** Decimal notation, as strconv and fmt print it and as the hand-written itoa of internal/whatsapp/text.go does. */
module Decimals {
  const MAX_INT := 0x7fff_ffff_ffff_ffff

  predicate Digits(s: string) {
    forall i :: 0 <= i < |s| ==> '0' <= s[i] <= '9'
  }

  function Digit(d: nat): (c: char)
    requires d < 10
    ensures '0' <= c <= '9'
  {
    '0' + d as char
  }

  function Decimal(n: nat): (s: string)
    ensures s != ""
    ensures Digits(s)
    ensures n > 0 ==> s[0] != '0'
  {
    if n < 10 then [Digit(n)] else Decimal(n / 10) + [Digit(n % 10)]
  }

  function Pow10(k: nat): (p: nat)
    ensures p >= 1
  {
    if k == 0 then 1 else 10 * Pow10(k - 1)
  }

  /** The digits' value, most significant first. */
  function Value(s: string): (n: nat)
    requires Digits(s)
  {
    if s == "" then 0 else 10 * Value(s[..|s| - 1]) + (s[|s| - 1] as int - '0' as int)
  }

  /** strconv.ParseInt(s, 10, 64) succeeds. */
  predicate IsInt64(s: string) {
    var digits := if s != "" && (s[0] == '-' || s[0] == '+') then s[1..] else s;
    && digits != "" && Digits(digits)
    && Value(digits) <= (if s[0] == '-' then MAX_INT + 1 else MAX_INT)
  }

  /** The notation denotes the number. */
  lemma {:induction false} DecimalDenotes(n: nat)
    ensures Value(Decimal(n)) == n
  {
    if n < 10 {
      assert Decimal(n)[..0] == "";
    } else {
      DecimalDenotes(n / 10);
      assert Decimal(n)[..|Decimal(n)| - 1] == Decimal(n / 10);
    }
  }

  /** Which numbers are thread ids: those of 64 bits. */
  lemma Int64Iff(n: nat)
    ensures IsInt64(Decimal(n)) <==> n <= 9223372036854775807
    ensures IsInt64("+" + Decimal(n)) <==> n <= 9223372036854775807
    ensures IsInt64("-" + Decimal(n)) <==> n <= 9223372036854775808
  {
    DecimalDenotes(n);
    hide Decimal, Value;
    assert ("-" + Decimal(n))[1..] == Decimal(n) == ("+" + Decimal(n))[1..];
    assert '0' <= Decimal(n)[0] <= '9';
  }

  /** Nothing else is: a sign at most, and digits. */
  lemma OnlyNumbersAreInt64(s: string)
    requires IsInt64(s)
    ensures s != "" && (s[0] in "+-" ==> |s| > 1)
    ensures forall i :: 0 <= i < |s| ==> '0' <= s[i] <= '9' || (i == 0 && s[i] in "+-")
  {
    assert s[0] in "+-" ==> forall i :: 1 <= i < |s| ==> s[i] == s[1..][i - 1];
    hide Value;
  }

  lemma {:induction false} DecimalLength(n: nat, k: nat)
    requires k >= 1 && n < Pow10(k)
    ensures |Decimal(n)| <= k
  {
    if n >= 10 {
      DecimalLength(n / 10, k - 1);
    }
  }

  /** itoa: fills a 20-byte buffer from the back; a negative number leaves it empty. */
  method Itoa(n: int) returns (s: string)
    requires n <= MAX_INT
    ensures s == if n < 0 then "" else Decimal(n)
  {
    if n == 0 {
      return "0";
    }
    var buf := new char[20];
    var i := buf.Length;
    var rest := n;
    if n > 0 {
      DigitsFit(n);
      AllInFront(n);
    }
    hide Decimal, Pow10, Digit, Front;
    NothingInFront();
    while rest > 0
      invariant 0 <= i <= 20
      invariant n < 0 ==> i == 20 && rest == n
      invariant n > 0 ==> 0 <= rest < Pow10(i) && Front(rest) + buf[i..] == Decimal(n)
      decreases rest
    {
      FrontNext(rest, i, buf[i..]);
      i := i - 1;
      PutInFront(buf, i, Digit(rest % 10));
      rest := rest / 10;
    }
    s := buf[i..];
  }

  method PutInFront(buf: array<char>, i: nat, c: char)
    requires i < buf.Length
    modifies buf
    ensures buf[i..] == [c] + old(buf[i + 1..])
  {
    buf[i] := c;
  }

  /** The digits still to write. */
  function Front(n: nat): (s: string) {
    if n == 0 then "" else Decimal(n)
  }

  lemma NothingInFront()
    ensures Front(0) == ""
  {
  }

  lemma AllInFront(n: nat)
    requires n > 0
    ensures Front(n) + [] == Decimal(n)
  {
    hide Decimal;
  }

  lemma FrontNext(n: nat, k: nat, written: string)
    requires 0 < n < Pow10(k)
    ensures k > 0 && n / 10 < Pow10(k - 1)
    ensures Front(n) + written == Front(n / 10) + ([Digit(n % 10)] + written)
  {
  }

  lemma DigitsFit(n: int)
    requires 0 <= n <= MAX_INT
    ensures n < Pow10(20)
  {
    assert Pow10(5) == 100_000;
    assert Pow10(10) == 100_000 * Pow10(5);
    assert Pow10(15) == 100_000 * Pow10(10);
    assert Pow10(20) == 100_000 * Pow10(15);
  }
}
