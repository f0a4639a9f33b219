/** The `%d` and `%02d` conversions the converter uses to number label-map
    entries and shard files, with a decimal reader as their inverse. */
module Format {
  import opened Wrappers

  function DigitChar(d: nat): (c: char)
    requires d < 10
    ensures '0' <= c <= '9' && c as int - '0' as int == d
  {
    (d + '0' as int) as char
  }

  /** `"%d" % n` for a non-negative `n`. */
  function Decimal(n: nat): (s: string)
    ensures 1 <= |s|
    ensures forall k :: 0 <= k < |s| ==> '0' <= s[k] <= '9'
    ensures n < 10 <==> |s| == 1
    ensures |s| > 1 ==> s[0] != '0'
  {
    if n < 10 then [DigitChar(n)] else Decimal(n / 10) + [DigitChar(n % 10)]
  }

  /** `"%02d" % n`: at least two digits, padded with a leading zero. */
  function TwoDigits(n: nat): (s: string)
    ensures |s| >= 2
    ensures forall k :: 0 <= k < |s| ==> '0' <= s[k] <= '9'
    ensures n < 10 <==> |s| == 2 && s[0] == '0'
    ensures |s| > 2 ==> s[0] != '0'
  {
    if n < 10 then "0" + Decimal(n) else Decimal(n)
  }

  /** Reads a non-empty run of decimal digits (leading zeros allowed). */
  function ParseDecimal(s: string): Option<nat>
    decreases |s|
  {
    if |s| == 0 || !('0' <= s[|s| - 1] <= '9') then None
    else
      var d := s[|s| - 1] as int - '0' as int;
      if |s| == 1 then Some(d)
      else match ParseDecimal(s[..|s| - 1])
        case None => None
        case Some(m) => Some(10 * m + d)
  }

  lemma {:induction false} ParseDecimalOfDecimal(n: nat)
    ensures ParseDecimal(Decimal(n)) == Some(n)
  {
    if n >= 10 {
      var s := Decimal(n);
      assert s[..|s| - 1] == Decimal(n / 10);
      ParseDecimalOfDecimal(n / 10);
    }
  }

  lemma {:induction false} ParseDecimalLeadingZero(s: string)
    requires ParseDecimal(s).Some?
    ensures ParseDecimal("0" + s) == ParseDecimal(s)
    decreases |s|
  {
    var t := "0" + s;
    assert t[|t| - 1] == s[|s| - 1];
    if |s| > 1 {
      assert t[..|t| - 1] == "0" + s[..|s| - 1];
      ParseDecimalLeadingZero(s[..|s| - 1]);
    } else {
      assert t[..|t| - 1] == "0";
    }
  }

  /** `%02d` loses nothing: the number can be read back. */
  lemma TwoDigitsRoundTrip(n: nat)
    ensures ParseDecimal(TwoDigits(n)) == Some(n)
  {
    ParseDecimalOfDecimal(n);
    if n < 10 { ParseDecimalLeadingZero(Decimal(n)); }
  }

  /** Distinct shard indices give distinct `%02d` texts. */
  lemma TwoDigitsInjective(m: nat, n: nat)
    requires TwoDigits(m) == TwoDigits(n)
    ensures m == n
  {
    TwoDigitsRoundTrip(m);
    TwoDigitsRoundTrip(n);
  }
}
