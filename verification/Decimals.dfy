/** Decimal numerals as the C library writes and reads them. */
module Decimals {

  const WORD: int := 0x1_0000_0000_0000_0000

  function Digit(d: int): char
    requires 0 <= d <= 9
  {
    '0' + d as char
  }

  function ShowNat(n: nat): (s: string)
    ensures |s| > 0
  {
    if n < 10 then [Digit(n)] else ShowNat(n / 10) + [Digit(n % 10)]
  }

  function Show(n: int): (s: string)
    ensures |s| > 0
  {
    if n < 0 then "-" + ShowNat(-n) else ShowNat(n)
  }

  predicate IsDigit(c: char) { '0' <= c <= '9' }

  predicate AllDigits(s: string) { forall i :: 0 <= i < |s| ==> IsDigit(s[i]) }

  function ValueOf(s: string): nat
    requires AllDigits(s)
  {
    if s == "" then 0 else ValueOf(s[..|s| - 1]) * 10 + (s[|s| - 1] as int - '0' as int)
  }

  /** White space as `isspace` sees it. */
  predicate IsSpace(c: char) { c == ' ' || '\t' <= c <= '\r' }

  function SkipSpaces(s: string, i: nat): (k: nat)
    requires i <= |s|
    ensures i <= k <= |s| && (k < |s| ==> !IsSpace(s[k])) && forall j :: i <= j < k ==> IsSpace(s[j])
    decreases |s| - i
  {
    if i == |s| || !IsSpace(s[i]) then i else SkipSpaces(s, i + 1)
  }

  function DigitsEnd(s: string, i: nat): (k: nat)
    requires i <= |s|
    ensures i <= k <= |s| && (k < |s| ==> !IsDigit(s[k])) && forall j :: i <= j < k ==> IsDigit(s[j])
    decreases |s| - i
  {
    if i == |s| || !IsDigit(s[i]) then i else DigitsEnd(s, i + 1)
  }

  /** What a conversion returns: the value, where it stopped (0 when it found no numeral), whether it saturated. */
  datatype Reading = Reading(value: int, end: nat, overflow: bool)

  function Sign(s: string, i: nat): nat
    requires i <= |s|
    ensures i + Sign(s, i) <= |s|
  {
    if i < |s| && (s[i] == '-' || s[i] == '+') then 1 else 0
  }

  predicate Minus(s: string, i: nat) { i < |s| && s[i] == '-' }

  /** `strtol` and `strtoll` with the bounds of their type. */
  function ReadSigned(s: string, low: int, high: int): (r: Reading)
    ensures r.end <= |s|
  {
    var i := SkipSpaces(s, 0);
    var from := i + Sign(s, i);
    var end := DigitsEnd(s, from);
    if end == from then Reading(0, 0, false)
    else
      var size := ValueOf(s[from..end]) as int;
      var v := if Minus(s, i) then -size else size;
      if v < low then Reading(low, end, true) else if v > high then Reading(high, end, true) else Reading(v, end, false)
  }

  /** `strtoull`: a minus sign wraps around, a value too large saturates. */
  function ReadUnsigned(s: string): (r: Reading)
    ensures r.end <= |s| && 0 <= r.value < WORD
  {
    var i := SkipSpaces(s, 0);
    var from := i + Sign(s, i);
    var end := DigitsEnd(s, from);
    if end == from then Reading(0, 0, false)
    else
      var v := ValueOf(s[from..end]);
      if v >= WORD then Reading(WORD - 1, end, true)
      else if Minus(s, i) then Reading((WORD - v) % WORD, end, false)
      else Reading(v, end, false)
  }

  lemma {:induction false} ShowNatReads(n: nat)
    ensures AllDigits(ShowNat(n)) && ValueOf(ShowNat(n)) == n
  {
    if n < 10 {
      assert ShowNat(n)[..0] == "" && ValueOf("") == 0;
    } else {
      ShowNatReads(n / 10);
      var s := ShowNat(n);
      assert s[..|s| - 1] == ShowNat(n / 10) && s[|s| - 1] == Digit(n % 10);
      assert n == (n / 10) * 10 + n % 10;
    }
  }

  lemma AllDigitsEnd(s: string, i: nat)
    requires i <= |s| && forall j :: i <= j < |s| ==> IsDigit(s[j])
    ensures DigitsEnd(s, i) == |s|
  {
  }

  lemma PlainShape(t: string)
    requires |t| > 0 && AllDigits(t)
    ensures SkipSpaces(t, 0) == 0 && Sign(t, 0) == 0 && !Minus(t, 0) && DigitsEnd(t, 0) == |t| && t[0..|t|] == t
  {
    assert IsDigit(t[0]);
    AllDigitsEnd(t, 0);
  }

  lemma MinusShape(t: string, s: string)
    requires |t| > 0 && AllDigits(t) && s == "-" + t
    ensures SkipSpaces(s, 0) == 0 && Sign(s, 0) == 1 && Minus(s, 0) && DigitsEnd(s, 1) == |s| && s[1..|s|] == t
  {
    assert s[0] == '-';
    forall j | 1 <= j < |s| ensures IsDigit(s[j]) {
      assert s[j] == t[j - 1];
    }
    AllDigitsEnd(s, 1);
  }

  /** Reading back what was written gives the number, and reads all of it. */
  lemma ReadShow(n: int, low: int, high: int)
    requires low <= n <= high
    ensures ReadSigned(Show(n), low, high) == Reading(n, |Show(n)|, false)
    ensures 0 <= n < WORD ==> ReadUnsigned(Show(n)) == Reading(n, |Show(n)|, false)
  {
    var m := if n < 0 then -n else n;
    ShowNatReads(m);
    if n < 0 {
      MinusShape(ShowNat(m), Show(n));
    } else {
      PlainShape(ShowNat(m));
    }
  }

  function Pow10(k: nat): nat { if k == 0 then 1 else 10 * Pow10(k - 1) }

  lemma {:induction false} ShowNatLength(n: nat, k: nat)
    requires n < Pow10(k) && k > 0
    ensures |ShowNat(n)| <= k
    decreases k
  {
    if n >= 10 {
      assert Pow10(0) == 1;
      assert n / 10 < Pow10(k - 1);
      ShowNatLength(n / 10, k - 1);
    }
  }

  lemma Pow10Twenty()
    ensures Pow10(20) == 100_000_000_000_000_000_000
  {
    assert Pow10(4) == 10_000;
    assert Pow10(8) == 10_000 * 10_000;
    assert Pow10(12) == 10_000 * 100_000_000;
    assert Pow10(16) == 10_000 * 1_000_000_000_000;
  }

  /** A number of at most 64 bits is written with at most 21 characters: digits, and possibly a leading minus. */
  lemma ShowShape(n: int)
    requires -WORD < n < WORD
    ensures |Show(n)| <= 21
    ensures forall i :: 0 <= i < |Show(n)| ==> IsDigit(Show(n)[i]) || Show(n)[i] == '-'
  {
    var m: nat := if n < 0 then -n else n;
    Pow10Twenty();
    ShowNatLength(m, 20);
    ShowNatReads(m);
  }
}
