/** Small helpers shared by the whole model: an option type, Go's `strings.Join`,
    decimal formatting of integers and the byte length of a Go string. */
module Util {

  datatype Option<+T> = None | Some(value: T)

  /** `strings.Join(parts, sep)`. */
  function Join(parts: seq<string>, sep: string): (r: string)
    ensures parts == [] ==> r == ""
    ensures |parts| == 1 ==> r == parts[0]
  {
    if parts == [] then ""
    else if |parts| == 1 then parts[0]
    else parts[0] + sep + Join(parts[1..], sep)
  }

  /** Join of a longer list is the join of the shorter one, a separator and the last part. */
  lemma {:induction false} JoinSnoc(parts: seq<string>, p: string, sep: string)
    requires parts != []
    ensures Join(parts + [p], sep) == Join(parts, sep) + sep + p
  {
    if |parts| == 1 {
      assert (parts + [p])[1..] == [p];
    } else {
      assert (parts + [p])[1..] == parts[1..] + [p];
      JoinSnoc(parts[1..], p, sep);
    }
  }

  function DigitChar(d: nat): (c: char)
    requires d < 10
    ensures '0' <= c <= '9'
  {
    "0123456789"[d]
  }

  /** Decimal digits of a non-negative number, most significant first, no leading zeros. */
  function NatToString(n: nat): (r: string)
    ensures |r| >= 1
    ensures forall i :: 0 <= i < |r| ==> '0' <= r[i] <= '9'
    decreases n
  {
    if n < 10 then [DigitChar(n)] else NatToString(n / 10) + [DigitChar(n % 10)]
  }

  /** `strconv.FormatInt(n, 10)` and `%d`: a minus sign for negative numbers, then the digits. */
  function IntToString(n: int): (r: string)
    ensures |r| >= 1
    ensures (r[0] == '-') <==> n < 0
  {
    if n < 0 then "-" + NatToString(-n) else NatToString(n)
  }

  /** Number of bytes of the UTF-8 encoding of one code point. */
  function Utf8Width(c: char): (w: nat)
    ensures 1 <= w <= 4
    ensures w == 1 <==> c < 128 as char
  {
    if c < 128 as char then 1
    else if c < 0x800 as char then 2
    else if c < 0x10000 as char then 3
    else 4
  }

  /** Go's `len` of a string: its length in UTF-8 bytes. */
  function Utf8Len(s: string): (n: nat)
    ensures n >= |s|
    ensures n == |s| <==> forall i :: 0 <= i < |s| ==> s[i] < 128 as char
  {
    if s == [] then 0 else Utf8Width(s[0]) + Utf8Len(s[1..])
  }

  predicate IsAscii(s: string) {
    forall i :: 0 <= i < |s| ==> s[i] < 128 as char
  }
}
