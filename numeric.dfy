/**
 * Go's `strconv.Atoi` on a 64-bit platform, reduced to what tinyirc asks of
 * it: whether the call succeeds, and with which value.
 */
module Numeric {
  import opened Wrappers

  const MaxInt64: int := 0x7fff_ffff_ffff_ffff
  const MinInt64: int := -0x8000_0000_0000_0000

  predicate IsDigit(c: char) {
    '0' <= c <= '9'
  }

  predicate AllDigits(s: string) {
    forall i :: 0 <= i < |s| ==> IsDigit(s[i])
  }

  predicate IsSign(c: char) {
    c == '+' || c == '-'
  }

  /** Base-10 value of a digit string, most significant digit first; leading zeros are allowed. */
  function DigitsValue(s: string): nat
    requires AllDigits(s)
  {
    if s == [] then 0 else DigitsValue(s[..|s| - 1]) * 10 + (s[|s| - 1] as int - '0' as int)
  }

  function Pow10(k: nat): (p: nat)
    ensures p >= 1
  {
    if k == 0 then 1 else 10 * Pow10(k - 1)
  }

  lemma {:induction false} DigitsValueBound(s: string)
    requires AllDigits(s)
    ensures DigitsValue(s) < Pow10(|s|)
  {
    if s != [] {
      DigitsValueBound(s[..|s| - 1]);
    }
  }

  /**
   * `strconv.Atoi(s)` with `err == nil`: an optional `+` or `-`, then one or
   * more ASCII digits, and a value that fits in a signed 64-bit int.
   */
  function Atoi(s: string): (r: Option<int>)
    ensures r.Some? ==> MinInt64 <= r.value <= MaxInt64
    ensures r.Some? ==> |s| > 0 && (IsDigit(s[0]) || (IsSign(s[0]) && |s| > 1)) && AllDigits(s[1..])
    ensures r.Some? && s[0] == '-' ==> r.value == -(DigitsValue(s[1..]) as int)
    ensures r.Some? && s[0] != '-' ==> r.value == DigitsValue(if IsSign(s[0]) then s[1..] else s)
  {
    if |s| == 0 then None
    else
      var body := if IsSign(s[0]) then s[1..] else s;
      if |body| == 0 || !AllDigits(body) then None
      else
        var n := if s[0] == '-' then -(DigitsValue(body) as int) else DigitsValue(body);
        if MinInt64 <= n <= MaxInt64 then Some(n) else None
  }

  lemma {:induction false} Pow10Monotone(j: nat, k: nat)
    requires j <= k
    ensures Pow10(j) <= Pow10(k)
  {
    if j < k {
      Pow10Monotone(j, k - 1);
    }
  }

  lemma Pow10Eighteen()
    ensures Pow10(18) == 1_000_000_000_000_000_000
  {
    assert Pow10(3) == 1_000;
    assert Pow10(6) == 1_000_000;
    assert Pow10(9) == 1_000_000_000;
    assert Pow10(12) == 1_000_000_000_000;
    assert Pow10(15) == 1_000_000_000_000_000;
  }

  /**
   * The converse of Atoi's contract: an optional sign, one or more digits and
   * a value in the int64 range are accepted, with that value.
   */
  lemma AtoiAccepts(sign: string, digits: string)
    requires sign == [] || sign == "+" || sign == "-"
    requires |digits| >= 1 && AllDigits(digits)
    requires sign == "-" ==> DigitsValue(digits) <= -MinInt64
    requires sign != "-" ==> DigitsValue(digits) <= MaxInt64
    ensures Atoi(sign + digits) == Some(if sign == "-" then -(DigitsValue(digits) as int) else DigitsValue(digits))
  {
    var s := sign + digits;
    if sign == [] {
      assert s == digits;
    } else {
      assert s[1..] == digits;
    }
  }

  /**
   * Every sign-optional digit string of at most 18 digits is accepted: at most
   * 18 digits always fit in an int64.
   */
  lemma ShortDigitStringAccepted(sign: string, digits: string)
    requires sign == [] || sign == "+" || sign == "-"
    requires 1 <= |digits| <= 18 && AllDigits(digits)
    ensures Atoi(sign + digits) == Some(if sign == "-" then -(DigitsValue(digits) as int) else DigitsValue(digits))
  {
    DigitsValueBound(digits);
    Pow10Monotone(|digits|, 18);
    Pow10Eighteen();
    AtoiAccepts(sign, digits);
  }

  /** The three-digit numeric replies of IRC are all accepted by Atoi. */
  lemma ThreeDigitReplyIsNumeric(code: string)
    requires |code| == 3 && AllDigits(code)
    ensures Atoi(code).Some?
  {
    ShortDigitStringAccepted([], code);
    assert [] + code == code;
  }

  /** Decimal digits of a natural number, without leading zeros: the inverse of DigitsValue. */
  function NatDigits(u: nat): (s: string)
    ensures 1 <= |s| && AllDigits(s)
  {
    if u < 10 then [('0' as int + u) as char]
    else NatDigits(u / 10) + [('0' as int + u % 10) as char]
  }

  lemma {:induction false} NatDigitsValue(u: nat)
    ensures DigitsValue(NatDigits(u)) == u
  {
    var s := NatDigits(u);
    if u >= 10 {
      NatDigitsValue(u / 10);
      assert s[..|s| - 1] == NatDigits(u / 10);
    }
  }

  /** `strconv.Itoa`: the decimal rendering of an integer, with `-` for negatives. */
  function Itoa(n: int): string {
    if n < 0 then "-" + NatDigits(-n) else NatDigits(n)
  }

  /**
   * Atoi inverts Itoa exactly on the 64-bit ints: the decimal rendering of any
   * other integer is rejected, which is where Atoi's range check bites.
   */
  lemma AtoiItoa(n: int)
    ensures Atoi(Itoa(n)) == if MinInt64 <= n <= MaxInt64 then Some(n) else None
  {
    var s := Itoa(n);
    if n < 0 {
      NatDigitsValue(-n);
      assert s[1..] == NatDigits(-n);
    } else {
      NatDigitsValue(n);
    }
  }

  /** A command that starts with something other than a sign or a digit, such as `PRIVMSG`, is not numeric. */
  lemma WordIsNotNumeric(s: string)
    requires |s| > 0 && !IsDigit(s[0]) && !IsSign(s[0])
    ensures Atoi(s) == None
  {
  }

  /** The numeric commands tinyirc meets: the welcome reply, a nick-in-use reply, a signed number. */
  lemma AtoiReplyExamples()
    ensures Atoi("001") == Some(1)
    ensures Atoi("433") == Some(433)
    ensures Atoi("+5") == Some(5)
  {
    assert "001"[..2] == "00" && "00"[..1] == "0" && "0"[..0] == "";
    assert "433"[..2] == "43" && "43"[..1] == "4" && "4"[..0] == "";
    assert "+5"[1..] == "5" && "5"[..0] == "";
  }

  /** A sign alone, an empty string and trailing garbage are rejected. */
  lemma AtoiRejectExamples()
    ensures Atoi("") == None && Atoi("+") == None && Atoi("-") == None
    ensures Atoi("12a") == None
  {
    assert !IsDigit("12a"[2]);
  }
}
