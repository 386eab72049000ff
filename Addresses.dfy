/**
 * QuickGet's rendering of a local IPv4 address for its log: each of the four
 * address bytes, which Java holds as signed `byte`s, widened as an unsigned
 * value (`i8u`) and printed in decimal, joined by dots.
 */
module Addresses {
  import opened Wrappers
  import opened JavaString
  import opened JavaInteger

  /** The four bytes of an `Inet4Address`, most significant first, as Java's signed bytes. */
  datatype IPv4Address = IPv4Address(b0: JByte, b1: JByte, b2: JByte, b3: JByte)

  /** `i8u`: the byte's bits read as an unsigned number, `b & 0xff`. */
  function I8u(b: JByte): (u: int)
    ensures 0 <= u < 256
    ensures (u - b) % 256 == 0
  {
    if b < 0 then b + 256 else b
  }

  /** `i8u` and the `(byte)` cast are inverse to each other on 0..255. */
  lemma I8uRoundTrip(b: JByte, u: int)
    requires 0 <= u < 256
    ensures ToByte(I8u(b)) == b
    ensures I8u(ToByte(u)) == u
  {
  }

  /** `formatIPv4Address`: `"%d.%d.%d.%d"` of the four unsigned bytes. */
  function FormatIPv4(addr: IPv4Address): string {
    Decimal(I8u(addr.b0)) + "." + Decimal(I8u(addr.b1)) + "."
      + Decimal(I8u(addr.b2)) + "." + Decimal(I8u(addr.b3))
  }

  /** A decimal numeral never holds a dot. */
  lemma DecimalHasNoDot(n: nat)
    ensures '.' !in Decimal(n)
  {
  }

  /** Four numerals joined by dots split back, at the dots, into those four numerals. */
  lemma {:induction false} FieldsOfDotted(d0: string, d1: string, d2: string, d3: string)
    requires '.' !in d0 && '.' !in d1 && '.' !in d2 && '.' !in d3
    ensures Fields(d0 + "." + d1 + "." + d2 + "." + d3, '.') == [d0, d1, d2, d3]
  {
    assert d0 + "." + d1 + "." + d2 + "." + d3 == d0 + ['.'] + (d1 + ['.'] + (d2 + ['.'] + d3));
    FieldsOfSeparated(d0, '.', d1 + ['.'] + (d2 + ['.'] + d3));
    FieldsOfSeparated(d1, '.', d2 + ['.'] + d3);
    FieldsOfSeparated(d2, '.', d3);
    FieldsOfPlain(d3, '.');
  }

  /**
   * The dotted form splits back, at its dots, into exactly four fields, and
   * each of them parses to the unsigned value of its byte: the log line
   * identifies the address.
   */
  lemma FormatIPv4RoundTrip(addr: IPv4Address)
    ensures |Fields(FormatIPv4(addr), '.')| == 4
    ensures ParseInt(Fields(FormatIPv4(addr), '.')[0]) == Some(I8u(addr.b0))
    ensures ParseInt(Fields(FormatIPv4(addr), '.')[1]) == Some(I8u(addr.b1))
    ensures ParseInt(Fields(FormatIPv4(addr), '.')[2]) == Some(I8u(addr.b2))
    ensures ParseInt(Fields(FormatIPv4(addr), '.')[3]) == Some(I8u(addr.b3))
  {
    var u0, u1, u2, u3 := I8u(addr.b0), I8u(addr.b1), I8u(addr.b2), I8u(addr.b3);
    DecimalHasNoDot(u0);
    DecimalHasNoDot(u1);
    DecimalHasNoDot(u2);
    DecimalHasNoDot(u3);
    FieldsOfDotted(Decimal(u0), Decimal(u1), Decimal(u2), Decimal(u3));
    ParseIntDecimal(u0);
    ParseIntDecimal(u1);
    ParseIntDecimal(u2);
    ParseIntDecimal(u3);
  }
}
