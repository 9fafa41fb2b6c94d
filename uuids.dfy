/** Identifiers: the part of java.util.UUID the system relies on, namely
    rendering an identifier as its canonical string (`UUID.toString`) and
    parsing a string back (`UUID.fromString`), with the error text the
    managers let through to the client. */
module Uuids {
  import opened Wrappers

  type Nibble = n: int | 0 <= n < 16

  /** 128 bits as 32 hexadecimal digits, most significant first. */
  type Uuid = s: seq<Nibble> | |s| == 32
    witness [0, 0, 0, 0, 0, 0, 0, 0, 0, 0, 0, 0, 0, 0, 0, 0,
             0, 0, 0, 0, 0, 0, 0, 0, 0, 0, 0, 0, 0, 0, 0, 0]

  /** Length of the canonical form `xxxxxxxx-xxxx-xxxx-xxxx-xxxxxxxxxxxx`. */
  const CanonicalLength := 36

  predicate IsDashPosition(i: int) {
    i == 8 || i == 13 || i == 18 || i == 23
  }

  /** The position in the canonical string of the digit with index j. */
  function CharPosition(j: int): (i: int)
    requires 0 <= j < 32
    ensures 0 <= i < CanonicalLength && !IsDashPosition(i)
  {
    if j < 8 then j
    else if j < 12 then j + 1
    else if j < 16 then j + 2
    else if j < 20 then j + 3
    else j + 4
  }

  /** The digit index shown at a non-dash position i of the canonical string. */
  function DigitIndex(i: int): (j: int)
    requires 0 <= i < CanonicalLength && !IsDashPosition(i)
    ensures 0 <= j < 32 && CharPosition(j) == i
  {
    if i < 8 then i
    else if i < 13 then i - 1
    else if i < 18 then i - 2
    else if i < 23 then i - 3
    else i - 4
  }

  /** `Character.digit(c, 16) >= 0` restricted to ASCII, as UUID parsing uses it. */
  predicate IsHexChar(c: char) {
    ('0' <= c <= '9') || ('a' <= c <= 'f') || ('A' <= c <= 'F')
  }

  predicate IsLowerHexChar(c: char) {
    ('0' <= c <= '9') || ('a' <= c <= 'f')
  }

  function HexValue(c: char): Nibble
    requires IsHexChar(c)
  {
    if '0' <= c <= '9' then c as int - '0' as int
    else if 'a' <= c <= 'f' then c as int - 'a' as int + 10
    else c as int - 'A' as int + 10
  }

  /** `Long.toHexString` digits are lower case. */
  function HexChar(n: Nibble): (c: char)
    ensures IsLowerHexChar(c) && HexValue(c) == n
  {
    if n < 10 then ('0' as int + n) as char else ('a' as int + n - 10) as char
  }

  /** `UUID.toString`: lower-case digits in groups of 8-4-4-4-12. */
  function Format(u: Uuid): (s: string)
    ensures |s| == CanonicalLength
  {
    seq(CanonicalLength, i requires 0 <= i < CanonicalLength =>
      if IsDashPosition(i) then '-' else HexChar(u[DigitIndex(i)]))
  }

  /** A string in canonical form, digits in either case. */
  predicate IsCanonical(s: string) {
    |s| == CanonicalLength &&
    forall i :: 0 <= i < |s| ==> if IsDashPosition(i) then s[i] == '-' else IsHexChar(s[i])
  }

  /** `UUID.fromString` on the canonical grammar: None stands for the
      IllegalArgumentException the library throws. */
  function Parse(s: string): (r: Option<Uuid>)
    ensures r.Some? <==> IsCanonical(s)
  {
    if IsCanonical(s) then
      Some(seq(32, j requires 0 <= j < 32 => HexValue(s[CharPosition(j)])))
    else
      None
  }

  /** The one message this model gives every malformed id: the one
      `UUID.fromString` uses for a string without the dashed shape. The JDK
      words other malformed strings differently (see the README). */
  function InvalidUuidMessage(s: string): string {
    "Invalid UUID string: " + s
  }

  /** Printing then parsing gives back the identifier. */
  lemma ParseFormat(u: Uuid)
    ensures Parse(Format(u)) == Some(u)
  {
    var s := Format(u);
    forall i | 0 <= i < |s|
      ensures if IsDashPosition(i) then s[i] == '-' else IsHexChar(s[i])
    {
    }
    assert IsCanonical(s);
    var v := Parse(s).value;
    forall j | 0 <= j < 32
      ensures v[j] == u[j]
    {
      assert DigitIndex(CharPosition(j)) == j;
    }
    assert v == u;
  }

  /** Parsing a string already in lower-case canonical form, then printing,
      gives back the string; so Format is onto the lower-case canonical strings. */
  lemma FormatParse(s: string)
    requires Parse(s).Some?
    requires forall i :: 0 <= i < |s| && !IsDashPosition(i) ==> IsLowerHexChar(s[i])
    ensures Format(Parse(s).value) == s
  {
    var u := Parse(s).value;
    var t := Format(u);
    forall i | 0 <= i < CanonicalLength
      ensures t[i] == s[i]
    {
      if !IsDashPosition(i) {
        var j := DigitIndex(i);
        assert u[j] == HexValue(s[i]);
        LowerHexCharValue(s[i], t[i]);
      }
    }
  }

  /** Two lower-case hex digits with the same value are the same character. */
  lemma LowerHexCharValue(c: char, d: char)
    requires IsLowerHexChar(c) && IsLowerHexChar(d) && HexValue(c) == HexValue(d)
    ensures c == d
  {
  }

  /** Distinct identifiers print differently. */
  lemma FormatInjective(u: Uuid, v: Uuid)
    requires Format(u) == Format(v)
    ensures u == v
  {
    ParseFormat(u);
    ParseFormat(v);
  }
}
