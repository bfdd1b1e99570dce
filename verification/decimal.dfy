/** Decimal text of integers: what `%d` prints and what `strconv.Atoi` accepts. */
module Decimal {

  datatype Option<T> = None | Some(value: T)

  predicate IsDigit(c: char) {
    '0' <= c <= '9'
  }

  function Digit(n: nat): (c: char)
    requires n < 10
    ensures IsDigit(c)
  {
    '0' + (n as char)
  }

  function Print(n: nat): (s: string)
    ensures s != "" && Digits(s)
  {
    if n < 10 then [Digit(n)] else Print(n / 10) + [Digit(n % 10)]
  }

  /** `%d` of any integer. */
  function PrintInt(n: int): (s: string)
    ensures s != ""
  {
    if n < 0 then "-" + Print(-n) else Print(n)
  }

  predicate AllDigits(s: string) {
    s != "" && Digits(s)
  }

  predicate Digits(s: string) {
    forall i | 0 <= i < |s| :: IsDigit(s[i])
  }

  function Value(s: string): (n: nat)
    requires Digits(s)
  {
    if s == "" then 0
    else
      assert IsDigit(s[|s| - 1]);
      Value(s[..|s| - 1]) * 10 + (s[|s| - 1] - '0') as nat
  }

  function Signed(sign: char, n: int): int {
    if sign == '-' then -n else n
  }

  /** `strconv.Atoi`: an optional sign and at least one digit; the 64-bit range is not modelled. */
  function Parse(s: string): (r: Option<int>) {
    if s != "" && (s[0] == '+' || s[0] == '-') then
      if AllDigits(s[1..]) then Some(Signed(s[0], Value(s[1..]))) else None
    else if AllDigits(s) then Some(Value(s))
    else None
  }

  lemma {:induction false} ValuePrint(n: nat)
    ensures Value(Print(n)) == n
  {
    if n >= 10 {
      ValuePrint(n / 10);
      var s := Print(n);
      assert s[..|s| - 1] == Print(n / 10) && s[|s| - 1] == Digit(n % 10);
    } else {
      assert Print(n)[..0] == "";
    }
  }

  /** Parsing what was printed gives the number back. */
  lemma RoundTrip(n: nat)
    ensures Parse(Print(n)) == Some(n)
  {
    ValuePrint(n);
    assert IsDigit(Print(n)[0]);
  }
}
