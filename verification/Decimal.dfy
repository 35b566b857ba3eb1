// Decimal text: strconv.Itoa and fmt's %d in both directions.
module Decimal {
  import opened Common
  import opened Text

  const MIN_INT64: int := -0x8000_0000_0000_0000
  const MAX_INT64: int := 0x7fff_ffff_ffff_ffff

  function Digit(n: nat): (c: char)
    requires n < 10
  {
    '0' + n as char
  }

  predicate IsDigit(c: char) { '0' <= c <= '9' }

  predicate AllDigits(s: string) {
    forall i | 0 <= i < |s| :: IsDigit(s[i])
  }

  function Print(n: nat): string {
    if n < 10 then [Digit(n)] else Print(n / 10) + [Digit(n % 10)]
  }

  /** strconv.Itoa, and fmt's %d of an int. */
  function Itoa(n: int): string {
    if n < 0 then "-" + Print(-n) else Print(n)
  }

  function Value(s: string): nat
    requires AllDigits(s)
  {
    if s == "" then 0 else 10 * Value(s[..|s| - 1]) + (s[|s| - 1] as int - '0' as int)
  }

  /** Where the leading run of digits ends. */
  function DigitsEnd(s: string): (n: nat)
    ensures n <= |s| && AllDigits(s[..n]) && (n < |s| ==> !IsDigit(s[n]))
  {
    if s == "" || !IsDigit(s[0]) then 0
    else
      var n := DigitsEnd(s[1..]) + 1;
      assert forall i | 1 <= i < n :: s[i] == s[1..][i - 1];
      n
  }

  /** Any space but a line feed. */
  function SkipSpace(s: string): string {
    if s != "" && IsSpace(s[0]) && s[0] != '\n' then SkipSpace(s[1..]) else s
  }

  /** The number that the leading digits write, if there is one. */
  function Number(s: string): Option<nat> {
    var n := DigitsEnd(s);
    if n == 0 then None else Some(Value(s[..n]))
  }

  function Signed(sign: int, n: Option<nat>): Option<int> {
    if n.Some? && MIN_INT64 <= sign * n.value <= MAX_INT64 then Some(sign * n.value) else None
  }

  /** fmt.Sscanf of %d: spaces, a sign and digits, whatever follows. None where it stores nothing. */
  function Scan(s: string): Option<int> {
    var t := SkipSpace(s);
    if t != "" && t[0] == '-' then Signed(-1, Number(t[1..]))
    else if t != "" && t[0] == '+' then Signed(1, Number(t[1..]))
    else Signed(1, Number(t))
  }

  // ---------- printing and parsing are inverse ----------

  lemma {:induction false} ValueOfPrint(n: nat)
    ensures Print(n) != "" && AllDigits(Print(n)) && Value(Print(n)) == n
    ensures Print(n)[0] == '0' ==> n == 0
  {
    if n >= 10 {
      ValueOfPrint(n / 10);
      assert Print(n)[..|Print(n)| - 1] == Print(n / 10);
    }
  }

  /** Digits without a leading zero are the text of their value. */
  lemma {:induction false} PrintOfValue(s: string)
    requires s != "" && AllDigits(s) && (s[0] == '0' ==> |s| == 1)
    ensures Print(Value(s)) == s && (|s| > 1 ==> Value(s) >= 10)
  {
    if |s| == 1 {
      assert s[..0] == "";
      assert s == [Digit(Value(s))];
    } else {
      var front := s[..|s| - 1];
      PrintOfValue(front);
      assert Value(front) > 0 by {
        if |front| == 1 { assert front[..0] == "" && front[0] != '0'; }
      }
      assert Value(s) / 10 == Value(front);
      assert s == front + [s[|s| - 1]];
    }
  }

  /** Digits without a leading zero. */
  predicate IsCanonical(s: string) {
    s != "" && AllDigits(s) && (s[0] == '0' ==> |s| == 1)
  }

  /** Exactly the canonical texts are printed. */
  lemma {:induction false} PrintsExactly(s: string)
    ensures IsCanonical(s) <==> exists n: nat :: Print(n) == s
  {
    if IsCanonical(s) {
      PrintOfValue(s);
      assert Print(Value(s)) == s;
    }
    if n: nat :| Print(n) == s {
      ValueOfPrint(n);
    }
  }

  lemma ItoaInjective(a: int, b: int)
    requires Itoa(a) == Itoa(b)
    ensures a == b
  {
    ValueOfPrint(if a < 0 then -a else a);
    ValueOfPrint(if b < 0 then -b else b);
    assert a < 0 ==> Itoa(a)[1..] == Print(-a);
    assert b < 0 ==> Itoa(b)[1..] == Print(-b);
  }

  lemma {:induction false} DigitsEndOf(s: string, tail: string)
    requires AllDigits(s) && (tail == "" || !IsDigit(tail[0]))
    ensures DigitsEnd(s + tail) == |s|
  {
    if s == "" { assert s + tail == tail; }
    else {
      DigitsEndOf(s[1..], tail);
      assert (s + tail)[1..] == s[1..] + tail;
    }
  }

  lemma ScanUnsigned(s: string)
    requires s != "" && IsDigit(s[0])
    ensures Scan(s) == Signed(1, Number(s))
  {
    assert SkipSpace(s) == s;
  }

  lemma ScanNegative(s: string)
    ensures Scan("-" + s) == Signed(-1, Number(s))
  {
    assert SkipSpace("-" + s) == "-" + s;
    assert ("-" + s)[1..] == s;
  }

  /** Every printed int of 64 bits is read back, whatever text without a digit in front follows it. */
  lemma ScanOfItoa(n: int, tail: string)
    requires MIN_INT64 <= n <= MAX_INT64 && (tail == "" || !IsDigit(tail[0]))
    ensures Scan(Itoa(n) + tail) == Some(n)
  {
    if n < 0 { ScanOfNegative(-n, tail); } else { ScanOfPrint(n, tail); }
  }

  lemma ScanOfNegative(n: int, tail: string)
    requires 0 < n <= -MIN_INT64 && (tail == "" || !IsDigit(tail[0]))
    ensures Scan("-" + Print(n) + tail) == Some(-n)
  {
    NumberOfPrint(n, tail);
    ScanNegative(Print(n) + tail);
    assert "-" + Print(n) + tail == "-" + (Print(n) + tail);
  }

  lemma ScanOfPrint(n: nat, tail: string)
    requires n <= MAX_INT64 && (tail == "" || !IsDigit(tail[0]))
    ensures Scan(Print(n) + tail) == Some(n)
  {
    NumberOfPrint(n, tail);
    ValueOfPrint(n);
    ScanUnsigned(Print(n) + tail);
  }

  lemma NumberOfPrint(n: nat, tail: string)
    requires tail == "" || !IsDigit(tail[0])
    ensures Number(Print(n) + tail) == Some(n)
  {
    ValueOfPrint(n);
    DigitsEndOf(Print(n), tail);
    assert (Print(n) + tail)[..|Print(n)|] == Print(n);
  }

  lemma {:induction false} ValueAfterZero(s: string)
    requires AllDigits(s)
    ensures AllDigits("0" + s) && Value("0" + s) == Value(s)
  {
    if s == "" {
      assert "0" + s == "0" && "0"[..0] == "";
    } else {
      var n := |s| - 1;
      ValueAfterZero(s[..n]);
      assert ("0" + s)[..n + 1] == "0" + s[..n];
    }
  }

  lemma {:induction false} NumberOf(s: string, tail: string)
    requires s != "" && AllDigits(s) && (tail == "" || !IsDigit(tail[0]))
    ensures Number(s + tail) == Some(Value(s))
  {
    DigitsEndOf(s, tail);
    assert (s + tail)[..|s|] == s;
  }

  /** Other texts are read as the same number: with a zero or a plus in front, with a letter after it. */
  lemma ScanAliases(n: nat)
    requires n <= MAX_INT64
    ensures Scan("0" + Print(n)) == Scan("+" + Print(n)) == Scan(Print(n) + "x") == Some(n)
  {
    ValueOfPrint(n);
    ValueAfterZero(Print(n));
    NumberOf("0" + Print(n), "");
    assert ("0" + Print(n)) + "" == "0" + Print(n);
    ScanUnsigned("0" + Print(n));
    NumberOf(Print(n), "");
    assert Print(n) + "" == Print(n);
    assert SkipSpace("+" + Print(n)) == "+" + Print(n) && ("+" + Print(n))[1..] == Print(n);
    ScanOfPrint(n, "x");
  }
}
