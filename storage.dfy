/** The browser's key/value store as the reader page uses it. Keys and values are
    strings: a number is written the way JavaScript's String() writes an integer and read
    back with `Number(stored) || fallback`; a flag is written as "true" or "false" and read
    back by comparing with "true". */
module Storage {
  import opened Wrappers

  type Store = map<string, string>

  /** `getItem(key)`: the stored string, or None (JavaScript's null) when the key is unset. */
  function Get(store: Store, key: string): Option<string>
  {
    if key in store then Some(store[key]) else None
  }

  predicate IsDigit(c: char)
  {
    '0' <= c <= '9'
  }

  predicate AllDigits(s: string)
  {
    forall i :: 0 <= i < |s| ==> IsDigit(s[i])
  }

  function DigitChar(d: nat): (c: char)
    requires d < 10
    ensures IsDigit(c)
  {
    (48 + d) as char
  }

  function DigitValue(c: char): (d: nat)
    requires IsDigit(c)
    ensures d < 10
  {
    c as int - 48
  }

  /** The decimal numeral of `n`, with no leading zero unless `n` is zero. */
  function FormatNat(n: nat): (s: string)
    ensures s != [] && AllDigits(s)
    ensures s[0] == '0' ==> n == 0
  {
    if n < 10 then [DigitChar(n)] else FormatNat(n / 10) + [DigitChar(n % 10)]
  }

  /** String(i) for an integer i: a minus sign exactly for a negative i, then digits. */
  function FormatInt(i: int): (s: string)
    ensures s != [] && (s[0] == '-' <==> i < 0)
    ensures i >= 0 ==> AllDigits(s)
    ensures i < 0 ==> AllDigits(s[1..])
  {
    if i < 0 then "-" + FormatNat(-i) else FormatNat(i)
  }

  /** The value of a string of decimal digits (leading zeros allowed). */
  function DigitsValue(s: string): nat
    requires AllDigits(s)
  {
    if s == [] then 0 else DigitsValue(s[..|s| - 1]) * 10 + DigitValue(s[|s| - 1])
  }

  /** Number(s) on the empty string (0) and on an optionally signed decimal integer
      numeral; None stands for NaN. */
  function ParseInt(s: string): (r: Option<int>)
    ensures s == [] ==> r == Some(0)
    ensures s != [] && AllDigits(s) ==> r.Some? && r.value >= 0
    ensures r.Some? && s != [] ==> AllDigits(s) || (s[0] == '-' && AllDigits(s[1..]))
    ensures r.Some? && r.value < 0 ==> s[0] == '-'
  {
    if s == [] then Some(0)
    else if AllDigits(s) then Some(DigitsValue(s) as int)
    else if |s| >= 2 && s[0] == '-' && AllDigits(s[1..]) then Some(-(DigitsValue(s[1..]) as int))
    else None
  }

  /** `Number(stored) || fallback`: a missing key reads as Number(null) == 0, an unparsable
      string as NaN; both 0 and NaN are falsy, so either gives the fallback. */
  function NumberOr(stored: Option<string>, fallback: int): (v: int)
    ensures stored.None? ==> v == fallback
    ensures v == fallback || (stored.Some? && ParseInt(stored.value) == Some(v) && v != 0)
    ensures stored.Some? && ParseInt(stored.value).Some? && ParseInt(stored.value).value != 0 ==>
              v == ParseInt(stored.value).value
  {
    match stored
    case None => fallback
    case Some(s) =>
      match ParseInt(s)
      case Some(v) => if v != 0 then v else fallback
      case None => fallback
  }

  /** String(b) for a boolean b; read back with IsTrue it gives b again. */
  function BoolString(b: bool): (s: string)
    ensures s == "true" || s == "false"
    ensures IsTrue(Some(s)) == b
  {
    if b then "true" else "false"
  }

  /** `getItem(key) === "true"`: a missing key and any other string read as false. */
  predicate IsTrue(stored: Option<string>)
    ensures stored == Some("true") ==> IsTrue(stored)
    ensures stored.None? || stored == Some("false") ==> !IsTrue(stored)
  {
    stored == Some("true")
  }

  lemma {:induction false} DigitsValueOfFormatNat(n: nat)
    ensures DigitsValue(FormatNat(n)) == n
  {
    if n >= 10 {
      var s := FormatNat(n);
      assert s[..|s| - 1] == FormatNat(n / 10);
      DigitsValueOfFormatNat(n / 10);
    }
  }

  /** Reading back what String() wrote gives the integer that was written. */
  lemma ParseFormatInt(i: int)
    ensures ParseInt(FormatInt(i)) == Some(i)
  {
    if i < 0 {
      var s := FormatInt(i);
      assert s[1..] == FormatNat(-i);
      assert !IsDigit(s[0]);
      DigitsValueOfFormatNat(-i);
    } else {
      DigitsValueOfFormatNat(i);
    }
  }

  /** A stored integer reads back as itself through `Number(...) || fallback`, except 0,
      which is falsy and reads back as the fallback. */
  lemma NumberOrFormatInt(i: int, fallback: int)
    ensures NumberOr(Some(FormatInt(i)), fallback) == if i == 0 then fallback else i
  {
    ParseFormatInt(i);
  }
}
