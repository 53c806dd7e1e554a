/**
 * The values appendElement receives (a String, a Character, a Boolean or an
 * Integer) and the text each is written as.
 */
module TextValue {
  import opened Wrappers
  import CharToken

  datatype Value =
    | StringValue(s: string)
    | CharValue(c: char)
    | BoolValue(b: bool)
    | IntValue(i: int)

  /** The text content of the child element: toString, with characters escaped. */
  function TextContent(v: Value): string {
    match v
    case StringValue(s) => s
    case CharValue(c) => CharToken.EncodeChar(c)
    case BoolValue(b) => BoolToString(b)
    case IntValue(i) => IntToString(i)
  }

  function BoolToString(b: bool): string {
    if b then "true" else "false"
  }

  function ParseBool(s: string): (r: Option<bool>)
    ensures r.Some? ==> BoolToString(r.value) == s
  {
    if s == "true" then Some(true) else if s == "false" then Some(false) else None
  }

  lemma ParseBoolToString(b: bool)
    ensures ParseBool(BoolToString(b)) == Some(b)
  {
  }

  predicate IsDigit(c: char) {
    '0' <= c <= '9'
  }

  predicate AllDigits(s: string) {
    forall k :: 0 <= k < |s| ==> IsDigit(s[k])
  }

  function DigitChar(d: nat): (c: char)
    requires d < 10
    ensures IsDigit(c) && c as int - '0' as int == d
  {
    (d + '0' as int) as char
  }

  /** Decimal digits of n, most significant first, without leading zeros. */
  function NatToString(n: nat): (r: string)
    ensures |r| >= 1 && AllDigits(r)
    ensures |r| > 1 ==> r[0] != '0'
    decreases n
  {
    if n < 10 then [DigitChar(n)] else NatToString(n / 10) + [DigitChar(n % 10)]
  }

  /** Decimal text of a (possibly negative) integer, as Integer.toString writes it. */
  function IntToString(i: int): (r: string)
    ensures |r| >= 1
    ensures r[0] == '-' <==> i < 0
    ensures AllDigits(if i < 0 then r[1..] else r)
  {
    if i < 0 then "-" + NatToString(-i) else NatToString(i)
  }

  function ParseNat(s: string): nat
    requires AllDigits(s)
  {
    if s == [] then 0 else ParseNat(s[..|s| - 1]) * 10 + (s[|s| - 1] as int - '0' as int)
  }

  /** Reads a decimal integer back: an optional minus sign and at least one digit. */
  function ParseInt(s: string): Option<int> {
    if |s| >= 2 && s[0] == '-' && AllDigits(s[1..]) then Some(0 - ParseNat(s[1..]))
    else if |s| >= 1 && AllDigits(s) then Some(ParseNat(s))
    else None
  }

  lemma {:induction false} ParseNatToString(n: nat)
    ensures ParseNat(NatToString(n)) == n
    decreases n
  {
    if n >= 10 {
      var s := NatToString(n);
      var prefix := NatToString(n / 10);
      assert s[..|s| - 1] == prefix;
      ParseNatToString(n / 10);
    }
  }

  /** Decimal text round-trips every integer. */
  lemma ParseIntToString(i: int)
    ensures ParseInt(IntToString(i)) == Some(i)
  {
    if i < 0 {
      var digits := NatToString(-i);
      var s := "-" + digits;
      assert s[0] == '-' && s[1..] == digits;
      ParseNatToString(-i);
      assert ParseInt(s) == Some(0 - ParseNat(digits));
    } else {
      var s := NatToString(i);
      assert s[0] != '-';
      ParseNatToString(i);
    }
  }

  /** A value of a known kind is read back from its text content unchanged. */
  lemma TextContentRoundTrip(v: Value)
    ensures v.StringValue? ==> TextContent(v) == v.s
    ensures v.CharValue? ==> CharToken.DecodeChar(TextContent(v)) == Some(v.c)
    ensures v.BoolValue? ==> ParseBool(TextContent(v)) == Some(v.b)
    ensures v.IntValue? ==> ParseInt(TextContent(v)) == Some(v.i)
  {
    match v
    case StringValue(_) =>
    case CharValue(c) => CharToken.DecodeEncode(c);
    case BoolValue(b) => ParseBoolToString(b);
    case IntValue(i) => ParseIntToString(i);
  }
}
