/**
 * Base64 digits: the alphabet of section 4 of RFC 4648 (no `=` padding).
 */
module Base64 {

  /** The character of base64 digit value `v` (Table 1 of section 4 of
      RFC 4648). */
  function Digit(v: int): char
    requires 0 <= v < 64
  {
    if v < 26 then ('A' as int + v) as char
    else if v < 52 then ('a' as int + (v - 26)) as char
    else if v < 62 then ('0' as int + (v - 52)) as char
    else if v == 62 then '+'
    else '/'
  }

  /** decode64: the digit value of character code `c`, or -1 when `c` is
      not a base64 digit. */
  function Decode64(c: int): (r: int)
    ensures -1 <= r < 64
    ensures r != -1 ==> Digit(r) as int == c
  {
    if 'A' as int <= c <= 'Z' as int then c - 'A' as int
    else if 'a' as int <= c <= 'z' as int then (c - 'a' as int) + 26
    else if '0' as int <= c <= '9' as int then (c - '0' as int) + 52
    else if c == '+' as int then 62
    else if c == '/' as int then 63
    else -1
  }

  /** Every digit value decodes back from its character: decode64 is onto
      0..63, and one-to-one because of its own postcondition. */
  lemma DecodeDigit(v: int)
    requires 0 <= v < 64
    ensures Decode64(Digit(v) as int) == v
  {
  }

  /** decode64 returns -1 exactly for the codes that are no digit's
      character. */
  lemma DecodeRejects(c: int)
    ensures Decode64(c) == -1 <==> forall v :: 0 <= v < 64 ==> Digit(v) as int != c
  {
    if Decode64(c) == -1 {
      forall v | 0 <= v < 64
        ensures Digit(v) as int != c
      {
        DecodeDigit(v);
      }
    }
  }

  /** Two codes with the same digit value are the same code. */
  lemma DecodeInjective(c: int, d: int)
    requires Decode64(c) != -1 && Decode64(c) == Decode64(d)
    ensures c == d
  {
  }
}
