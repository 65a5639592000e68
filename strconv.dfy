/** `strconv.ParseInt(s, 0, 64)`, as the parser uses it for integer literals: an optional
    sign, a base chosen by the prefix (`0x` hexadecimal, `0o` octal, `0b` binary, a leading `0`
    legacy octal, otherwise decimal), at least one digit of that base, and a value that fits
    in a signed 64-bit integer. */
module Strconv {
  import opened Util
  import opened Int64

  /** The value of a digit character in bases up to 36, or 36 for any other character. */
  function DigitValue(c: char): (d: nat)
    ensures d <= 36
  {
    if '0' <= c <= '9' then c as nat - '0' as nat
    else if 'a' <= c <= 'z' then c as nat - 'a' as nat + 10
    else if 'A' <= c <= 'Z' then c as nat - 'A' as nat + 10
    else 36
  }

  predicate AllDigits(s: string, base: nat) {
    forall i :: 0 <= i < |s| ==> DigitValue(s[i]) < base
  }

  /** The number the digits spell in `base`, most significant first. */
  function DigitsValue(s: string, base: nat): nat
    requires AllDigits(s, base)
  {
    if s == [] then 0 else DigitsValue(s[..|s| - 1], base) * base + DigitValue(s[|s| - 1])
  }

  function Lower(c: char): char {
    if 'A' <= c <= 'Z' then (c as int + 32) as char else c
  }

  /** The base base-0 parsing picks for the unsigned text s, and the digits after the prefix. */
  function BasePrefix(s: string): (r: (nat, string))
    requires s != []
    ensures r.0 in {2, 8, 10, 16}
  {
    if s[0] != '0' then (10, s)
    else if |s| >= 3 && Lower(s[1]) == 'b' then (2, s[2..])
    else if |s| >= 3 && Lower(s[1]) == 'o' then (8, s[2..])
    else if |s| >= 3 && Lower(s[1]) == 'x' then (16, s[2..])
    else (8, s[1..])
  }

  /** `ParseUint(s, 0, 64)` without the 64-bit bound: the value, or None for a syntax error. */
  function ParseUnsigned(s: string): Option<nat> {
    if s == [] then None
    else
      var (base, digits) := BasePrefix(s);
      if AllDigits(digits, base) then Some(DigitsValue(digits, base)) else None
  }

  /** `ParseInt(s, 0, 64)`: None for a syntax error or a value out of range. */
  function ParseInt64(s: string): (r: Option<int>)
    ensures r.Some? ==> InInt64(r.value)
    ensures s == [] ==> r == None
  {
    if s == [] then None
    else
      var neg := s[0] == '-';
      var body := if s[0] == '+' || s[0] == '-' then s[1..] else s;
      match ParseUnsigned(body)
      case None => None
      case Some(u) =>
        var v: int := if neg then -(u as int) else u;
        if InInt64(v) then Some(v) else None
  }

  lemma DigitCharValue(d: nat)
    requires d < 10
    ensures DigitValue(DigitChar(d)) == d
  {
  }

  lemma {:induction false} DecimalDigits(n: nat)
    ensures AllDigits(NatToString(n), 10) && DigitsValue(NatToString(n), 10) == n
    decreases n
  {
    var s := NatToString(n);
    if n < 10 {
      DigitCharValue(n);
      assert s == [DigitChar(n)];
      assert s[..0] == [];
    } else {
      DecimalDigits(n / 10);
      DigitCharValue(n % 10);
      var t := NatToString(n / 10);
      assert s == t + [DigitChar(n % 10)];
      assert s[..|s| - 1] == t;
      assert forall i :: 0 <= i < |s| ==> DigitValue(s[i]) < 10 by {
        forall i | 0 <= i < |s|
          ensures DigitValue(s[i]) < 10
        {
          if i < |t| {
            assert s[i] == t[i];
          }
        }
      }
    }
  }

  lemma LeadingDigit(n: nat)
    requires n >= 10
    ensures NatToString(n)[0] != '0'
    decreases n
  {
    if n / 10 >= 10 {
      LeadingDigit(n / 10);
    }
  }

  lemma UnsignedRoundTrip(m: nat)
    ensures ParseUnsigned(NatToString(m)) == Some(m)
  {
    var digits := NatToString(m);
    DecimalDigits(m);
    if m >= 10 {
      LeadingDigit(m);
      assert BasePrefix(digits) == (10, digits);
    } else if m == 0 {
      assert digits == "0" && digits[1..] == "";
      assert BasePrefix(digits) == (8, "");
    } else {
      assert digits == [DigitChar(m)] && digits[0] != '0';
      assert BasePrefix(digits) == (10, digits);
    }
  }

  /** ParseInt64 in terms of the sign and the unsigned parse of the rest. */
  lemma ParseSigned(s: string, neg: bool, body: string)
    requires s != [] && s[0] != '+' && (neg <==> s[0] == '-')
    requires body == if neg then s[1..] else s
    ensures ParseInt64(s) == match ParseUnsigned(body)
      case None => None
      case Some(u) => var v: int := if neg then -(u as int) else u; if InInt64(v) then Some(v) else None
  {
  }

  /** Decimal formatting and `ParseInt` are inverse on the 64-bit range: every integer the
      evaluator can hold reads back from its own decimal text. */
  lemma FormatParseRoundTrip(n: int)
    requires InInt64(n)
    ensures ParseInt64(IntToString(n)) == Some(n)
  {
    var s := IntToString(n);
    var m: nat := if n < 0 then -n else n;
    UnsignedRoundTrip(m);
    if n < 0 {
      assert s[1..] == NatToString(m);
      ParseSigned(s, true, NatToString(m));
    } else {
      assert '0' <= NatToString(m)[0] <= '9';
      ParseSigned(s, false, NatToString(m));
    }
  }

  /** Examples: "5" is 5, "0x1F" is 31, "010" is octal 8 and "-0b11" is -3. */
  lemma PrefixExamples()
    ensures ParseInt64("5") == Some(5)
    ensures ParseInt64("0x1F") == Some(31)
    ensures ParseInt64("010") == Some(8)
    ensures ParseInt64("-0b11") == Some(-3)
  {
    assert AllDigits("5", 10);
    assert BasePrefix("0x1F") == (16, "1F");
    assert AllDigits("1F", 16) && DigitsValue("1F", 16) == 31 by {
      assert "1F"[..1] == "1";
    }
    assert BasePrefix("010") == (8, "10");
    assert DigitsValue("10", 8) == 8 by {
      assert "10"[..1] == "1";
    }
    assert "-0b11"[1..] == "0b11";
    assert BasePrefix("0b11") == (2, "11");
    assert DigitsValue("11", 2) == 3 by {
      assert "11"[..1] == "1";
    }
  }

  /** A number lexed with a fraction is not an integer. */
  lemma RejectExample()
    ensures ParseInt64("1.5") == None
  {
    assert !AllDigits("1.5", 10) by {
      assert DigitValue("1.5"[1]) == 36;
    }
  }
}
