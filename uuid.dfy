/**
 * A UUID as its 32 hexadecimal digits, with the textual forms of the `uuid`
 * crate: `Format` is `Display` (lower-case, hyphenated 8-4-4-4-12) and `Parse`
 * is `Uuid::parse_str`, which accepts the simple (32 digits), hyphenated,
 * braced (`{...}`) and URN (`urn:uuid:...`) forms, digits in either case.
 */
module Uuid {
  import opened Wrappers

  type Nibble = x: int | 0 <= x < 16

  type Uuid = s: seq<Nibble> | |s| == 32 witness seq(32, _ => 0)

  /** Lower-case hexadecimal digit of a nibble. */
  function HexChar(n: Nibble): char {
    if n < 10 then ('0' as int + n) as char else ('a' as int + n - 10) as char
  }

  /** Value of a hexadecimal digit in either case. */
  function HexValue(c: char): Option<Nibble> {
    if '0' <= c <= '9' then Some(c as int - '0' as int)
    else if 'a' <= c <= 'f' then Some(c as int - 'a' as int + 10)
    else if 'A' <= c <= 'F' then Some(c as int - 'A' as int + 10)
    else None
  }

  /** Lower-case hexadecimal rendering, one character per nibble. */
  function Hex(ns: seq<Nibble>): (s: string)
    ensures |s| == |ns|
    ensures forall i :: 0 <= i < |ns| ==> s[i] == HexChar(ns[i])
  {
    seq(|ns|, i requires 0 <= i < |ns| => HexChar(ns[i]))
  }

  /** Reads a string of hexadecimal digits; `None` as soon as one character is not a digit. */
  function ParseHex(s: string): (r: Option<seq<Nibble>>)
    ensures r.Some? ==> |r.value| == |s|
  {
    if s == [] then Some([])
    else
      match (HexValue(s[0]), ParseHex(s[1..]))
      case (Some(n), Some(rest)) => Some([n] + rest)
      case _ => None
  }

  /** Every rendering is read back to the same nibbles. */
  lemma {:induction false} ParseHexRoundTrip(ns: seq<Nibble>)
    ensures ParseHex(Hex(ns)) == Some(ns)
  {
    if ns != [] {
      ParseHexRoundTrip(ns[1..]);
      assert Hex(ns)[1..] == Hex(ns[1..]);
      assert ns == [ns[0]] + ns[1..];
    }
  }

  /** `Display for Uuid`: lower-case, hyphenated. */
  function Format(u: Uuid): (s: string)
    ensures |s| == 36
  {
    Hex(u[..8]) + "-" + Hex(u[8..12]) + "-" + Hex(u[12..16]) + "-" + Hex(u[16..20]) + "-" + Hex(u[20..])
  }

  /** The hyphenated form: groups of 8-4-4-4-12 digits separated by `-`. */
  function ParseHyphenated(s: string): Option<Uuid> {
    if |s| == 36 && s[8] == '-' && s[13] == '-' && s[18] == '-' && s[23] == '-' then
      match ParseHex(s[..8] + s[9..13] + s[14..18] + s[19..23] + s[24..])
      case Some(ns) => Some(ns)
      case None => None
    else None
  }

  /** `Uuid::parse_str` */
  function Parse(s: string): Option<Uuid> {
    if |s| == 32 then
      match ParseHex(s)
      case Some(ns) => Some(ns)
      case None => None
    else if |s| == 36 then ParseHyphenated(s)
    else if |s| == 38 && s[0] == '{' && s[37] == '}' then ParseHyphenated(s[1..37])
    else if |s| == 45 && s[..9] == "urn:uuid:" then ParseHyphenated(s[9..])
    else None
  }

  /** Parsing the displayed form gives the same UUID back. */
  lemma ParseFormat(u: Uuid)
    ensures Parse(Format(u)) == Some(u)
  {
    var s := Format(u);
    assert s[..8] == Hex(u[..8]);
    assert s[9..13] == Hex(u[8..12]);
    assert s[14..18] == Hex(u[12..16]);
    assert s[19..23] == Hex(u[16..20]);
    assert s[24..] == Hex(u[20..]);
    assert u == u[..8] + u[8..12] + u[12..16] + u[16..20] + u[20..];
    assert Hex(u) == Hex(u[..8]) + Hex(u[8..12]) + Hex(u[12..16]) + Hex(u[16..20]) + Hex(u[20..]);
    ParseHexRoundTrip(u);
  }

  /** Distinct UUIDs display differently. */
  lemma FormatInjective(u: Uuid, v: Uuid)
    requires Format(u) == Format(v)
    ensures u == v
  {
    ParseFormat(u);
    ParseFormat(v);
  }

  /** The displayed form holds only hexadecimal digits and hyphens, so no `/`. */
  lemma FormatNoSlash(u: Uuid)
    ensures '/' !in Format(u)
  {
    var s := Format(u);
    forall i | 0 <= i < |s|
      ensures s[i] != '/'
    {
      if i < 8 {
        assert s[i] == Hex(u[..8])[i];
      } else if 8 < i < 13 {
        assert s[i] == Hex(u[8..12])[i - 9];
      } else if 13 < i < 18 {
        assert s[i] == Hex(u[12..16])[i - 14];
      } else if 18 < i < 23 {
        assert s[i] == Hex(u[16..20])[i - 19];
      } else if 23 < i {
        assert s[i] == Hex(u[20..])[i - 24];
      }
    }
  }
}
