/** Caller keys, the structured storage key built from them, and their
    rendering in error messages. */
module Keys {

  /** The discriminating key a caller passes: nil, an Integer, a String, or
      an Array of such keys. Each shape is its own constructor, so `5`, `'5'`
      and `[5]` are different keys by construction. */
  datatype Key = Absent | Int(i: int) | Str(s: string) | Seq(parts: seq<Key>)

  /** The address of one counter in the store: the limit's handle, the time
      bucket and the caller key. Two calls share a counter exactly when all
      three components agree. */
  datatype CacheKey = CacheKey(handle: string, bucket: nat, key: Key)

  predicate IsDigit(c: char)
  {
    '0' <= c <= '9'
  }

  predicate AllDigits(s: string)
  {
    forall i :: 0 <= i < |s| ==> IsDigit(s[i])
  }

  function DigitChar(d: nat): (c: char)
    requires d < 10
    ensures IsDigit(c) && DigitValue(c) == d
  {
    ('0' as int + d) as char
  }

  function DigitValue(c: char): int
  {
    c as int - '0' as int
  }

  /** Decimal rendering of a natural number, as Integer#to_s prints it:
      digits only, and no leading zero except for 0 itself. */
  function NatToString(n: nat): (s: string)
    ensures |s| > 0 && AllDigits(s)
    ensures s[0] == '0' ==> n == 0
    decreases n
  {
    if n < 10 then [DigitChar(n)] else NatToString(n / 10) + [DigitChar(n % 10)]
  }

  /** Reads back a string of decimal digits. */
  function ParseNat(s: string): nat
    requires |s| > 0 && AllDigits(s)
    decreases |s|
  {
    if |s| == 1 then DigitValue(s[0])
    else 10 * ParseNat(s[..|s| - 1]) + DigitValue(s[|s| - 1])
  }

  /** The decimal rendering loses nothing: parsing it gives the number back,
      so distinct numbers render as distinct strings. */
  lemma {:induction false} ParseNatToString(n: nat)
    ensures ParseNat(NatToString(n)) == n
    decreases n
  {
    if n >= 10 {
      var s := NatToString(n);
      assert s[..|s| - 1] == NatToString(n / 10);
      ParseNatToString(n / 10);
    }
  }

  /** Decimal rendering of an integer, with a leading '-' when negative. */
  function IntToString(i: int): string
  {
    if i < 0 then "-" + NatToString(-i) else NatToString(i)
  }

  function ParseInt(s: string): int
    requires |s| > 0
    requires s[0] == '-' ==> |s| > 1 && AllDigits(s[1..])
    requires s[0] != '-' ==> AllDigits(s)
  {
    if s[0] == '-' then -(ParseNat(s[1..]) as int) else ParseNat(s)
  }

  /** Integer keys render injectively: the rendering parses back to the key. */
  lemma IntToStringRoundTrip(i: int)
    ensures var s := IntToString(i);
      && |s| > 0
      && (s[0] == '-' ==> |s| > 1 && AllDigits(s[1..]))
      && (s[0] != '-' ==> AllDigits(s))
      && ParseInt(s) == i
  {
    if i < 0 {
      var s := IntToString(i);
      assert s[1..] == NatToString(-i);
      ParseNatToString(-i);
    } else {
      ParseNatToString(i);
    }
  }

  /** Concatenation of parts with a separator between neighbours. */
  function Join(parts: seq<string>, sep: string): string
  {
    if |parts| == 0 then ""
    else if |parts| == 1 then parts[0]
    else parts[0] + sep + Join(parts[1..], sep)
  }

  /** The human-readable rendering of a caller key used in the rate-limit
      message: nil renders as the empty string, numbers in decimal, strings
      as they are, and an array as its elements' renderings joined by '/'. */
  function Display(k: Key): (r: string)
    ensures k.Absent? ==> r == ""
    ensures k.Str? ==> r == k.s
    ensures k.Int? ==>
      && |r| > 0
      && (r[0] == '-' ==> |r| > 1 && AllDigits(r[1..]))
      && (r[0] != '-' ==> AllDigits(r))
      && ParseInt(r) == k.i
  {
    match k
    case Absent => ""
    case Int(i) => IntToStringRoundTrip(i); IntToString(i)
    case Str(s) => s
    case Seq(parts) => Join(seq(|parts|, j requires 0 <= j < |parts| => Display(parts[j])), "/")
  }
}
