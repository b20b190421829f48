/** Decimal 64-bit integers, as they are printed and read. */
module Numbers {
  import opened Wrappers
  import opened Protocol

  const MIN_INT64: int := -MAX_INT64 - 1

  type Int64 = n: int | MIN_INT64 <= n <= MAX_INT64

  function DigitChar(d: nat): (c: char)
    requires d < 10
    ensures '0' <= c <= '9'
  {
    '0' + d as char
  }

  function Digits(n: nat): (s: string)
    ensures s != "" && forall i :: 0 <= i < |s| ==> '0' <= s[i] <= '9'
  {
    if n < 10 then [DigitChar(n)] else Digits(n / 10) + [DigitChar(n % 10)]
  }

  function FormatInt(n: int): string {
    if n < 0 then "-" + Digits(-n) else Digits(n)
  }

  function ParseDigits(s: string): Option<nat>
    requires s != ""
  {
    var c := s[|s| - 1];
    if !('0' <= c <= '9') then None
    else if |s| == 1 then Some((c - '0') as nat)
    else match ParseDigits(s[..|s| - 1])
      case None => None
      case Some(n) => Some(10 * n + (c - '0') as nat)
  }

  /** A decimal 64-bit integer with an optional sign. */
  function ParseInt(s: string): Option<Int64> {
    if s == "" then None
    else
      var signed := s[0] == '-' || s[0] == '+';
      var body := if signed then s[1..] else s;
      if body == "" || ParseDigits(body).None? then None
      else
        var size: int := ParseDigits(body).value;
        var n := if s[0] == '-' then -size else size;
        if MIN_INT64 <= n <= MAX_INT64 then Some(n) else None
  }

  lemma {:induction false} ParseDigitsBack(n: nat)
    ensures ParseDigits(Digits(n)) == Some(n)
  {
    if n >= 10 {
      ParseDigitsBack(n / 10);
      assert Digits(n)[..|Digits(n)| - 1] == Digits(n / 10);
    }
  }

  lemma ParseIntBack(n: Int64)
    ensures ParseInt(FormatInt(n)) == Some(n)
  {
    var size: nat := if n < 0 then -(n as int) else n;
    ParseDigitsBack(size);
    if n < 0 { assert FormatInt(n)[1..] == Digits(size); }
  }
}
