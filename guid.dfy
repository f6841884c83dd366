/**
  The text form of a GUID used by the driver registry: `GuidToString` and
  `stringToGUID` (include/asio-wrapper.cpp:366-390). The form is the braced
  variant of the string representation in section 3 of RFC 4122,
  `{xxxxxxxx-xxxx-xxxx-xxxx-xxxxxxxxxxxx}`, 38 characters in all.

  Decoding deviates on purpose from the `sscanf` call it models
  (include/asio-wrapper.cpp:380-384): that format uses width-less `%hhX`
  conversions, which read hex digits greedily and accept a leading sign, so
  as written it cannot split the two-digit groups of the last two fields and
  can take a `-` as a sign. The decoder here is the fixed-width grammar that
  the error message of include/asio-wrapper.cpp:387 names, with upper- or
  lower-case digits, and it either yields all eleven fields or fails; it never
  returns a partly filled GUID.
*/
module GuidCodec {
  import opened Wrappers

  newtype uint8 = x: int | 0 <= x < 0x100
  newtype uint16 = x: int | 0 <= x < 0x1_0000
  newtype uint32 = x: int | 0 <= x < 0x1_0000_0000

  type Bytes8 = s: seq<uint8> | |s| == 8 witness [0, 0, 0, 0, 0, 0, 0, 0]

  /** The Windows GUID structure: Data1, Data2, Data3 and the eight bytes of Data4. */
  datatype Guid = Guid(data1: uint32, data2: uint16, data3: uint16, data4: Bytes8)

  /** Takes the place of the `std::logic_error` thrown at include/asio-wrapper.cpp:386. */
  datatype GuidError = InvalidGuidFormat

  function Pow16(n: nat): (r: nat)
    ensures r > 0
  {
    if n == 0 then 1 else 16 * Pow16(n - 1)
  }

  lemma Pow16Widths()
    ensures Pow16(2) == 0x100 && Pow16(4) == 0x1_0000 && Pow16(8) == 0x1_0000_0000
  {
    assert Pow16(1) == 16;
    assert Pow16(2) == 0x100;
    assert Pow16(3) == 0x1000;
    assert Pow16(4) == 0x1_0000;
  }

  predicate IsHexDigit(c: char) {
    '0' <= c <= '9' || 'a' <= c <= 'f' || 'A' <= c <= 'F'
  }

  predicate IsUpper(c: char) {
    'A' <= c <= 'Z'
  }

  predicate AllHex(s: string) {
    forall k :: 0 <= k < |s| ==> IsHexDigit(s[k])
  }

  predicate NoUpper(s: string) {
    forall k :: 0 <= k < |s| ==> !IsUpper(s[k])
  }

  /** The value of one hex digit, either case (the `%X` conversions accept both). */
  function DigitValue(c: char): (v: nat)
    requires IsHexDigit(c)
    ensures v < 16
  {
    if '0' <= c <= '9' then c as int - '0' as int
    else if 'a' <= c <= 'f' then c as int - 'a' as int + 10
    else c as int - 'A' as int + 10
  }

  /** The lower-case digit `%x` prints for v. */
  function LowerDigit(v: nat): (c: char)
    requires v < 16
    ensures IsHexDigit(c) && !IsUpper(c) && DigitValue(c) == v
  {
    if v < 10 then ('0' as int + v) as char else ('a' as int + v - 10) as char
  }

  function ToLower(c: char): char {
    if IsUpper(c) then (c as int + 32) as char else c
  }

  /** s with every ASCII capital letter replaced by its small letter. */
  function Lower(s: string): (r: string)
    ensures |r| == |s|
  {
    seq(|s|, k requires 0 <= k < |s| => ToLower(s[k]))
  }

  /** n as exactly `width` lower-case hex digits, most significant first (`%0<width>x`). */
  function Hex(n: nat, width: nat): (s: string)
    requires n < Pow16(width)
    ensures |s| == width && AllHex(s) && NoUpper(s)
  {
    if width == 0 then []
    else
      assert n / 16 < Pow16(width - 1);
      Hex(n / 16, width - 1) + [LowerDigit(n % 16)]
  }

  /** The number a string of hex digits denotes, most significant first. */
  function ParseHex(s: string): (n: nat)
    requires AllHex(s)
    ensures n < Pow16(|s|)
  {
    if s == [] then 0
    else
      var rest := ParseHex(s[..|s| - 1]);
      assert rest * 16 <= (Pow16(|s| - 1) - 1) * 16;
      rest * 16 + DigitValue(s[|s| - 1])
  }

  lemma {:induction false} ParseHexOfHex(n: nat, width: nat)
    requires n < Pow16(width)
    ensures ParseHex(Hex(n, width)) == n
  {
    if width > 0 {
      var s := Hex(n, width);
      assert s[..width - 1] == Hex(n / 16, width - 1);
      ParseHexOfHex(n / 16, width - 1);
    }
  }

  lemma LowerDigitOfValue(c: char)
    requires IsHexDigit(c)
    ensures LowerDigit(DigitValue(c)) == ToLower(c)
  {
  }

  lemma {:induction false} HexOfParseHex(s: string)
    requires AllHex(s)
    ensures Hex(ParseHex(s), |s|) == Lower(s)
  {
    if s != [] {
      var w := |s|;
      var front := s[..w - 1];
      HexOfParseHex(front);
      var n := ParseHex(s);
      assert n / 16 == ParseHex(front) && n % 16 == DigitValue(s[w - 1]);
      LowerDigitOfValue(s[w - 1]);
      assert Lower(s) == Lower(front) + [ToLower(s[w - 1])];
    }
  }

  /** The position of the two digits of Data4[j] in the text. */
  function ByteAt(j: nat): nat
    requires j < 8
  {
    if j < 2 then 20 + 2 * j else 21 + 2 * j
  }

  /** The braces and hyphens of the 38-character form. */
  predicate Separators(s: string)
    requires |s| == 38
  {
    s[0] == '{' && s[9] == '-' && s[14] == '-' && s[19] == '-' && s[24] == '-' && s[37] == '}'
  }

  /** Each position of the 38-character form outside the separators lies in one digit group. */
  lemma GroupOf(k: nat) returns (lo: nat, hi: nat)
    requires k < 38 && k !in {0, 9, 14, 19, 24, 37}
    ensures lo <= k < hi <= 38
    ensures (lo, hi) in {(1, 9), (10, 14), (15, 19)} || exists j :: 0 <= j < 8 && lo == ByteAt(j) && hi == ByteAt(j) + 2
  {
    if k < 9 {
      lo, hi := 1, 9;
    } else if k < 14 {
      lo, hi := 10, 14;
    } else if k < 19 {
      lo, hi := 15, 19;
    } else {
      var j := if k < 24 then (k - 20) / 2 else (k - 21) / 2;
      lo, hi := ByteAt(j), ByteAt(j) + 2;
    }
  }

  /**
    The fixed-width grammar: a brace, 8, 4 and 4 hex digits, then 2+2 and
    6x2 hex digits, hyphens at positions 9, 14, 19 and 24, a closing brace,
    and nothing else.
  */
  predicate WellFormed(s: string) {
    && |s| == 38
    && Separators(s)
    && AllHex(s[1..9]) && AllHex(s[10..14]) && AllHex(s[15..19])
    && forall j :: 0 <= j < 8 ==> AllHex(s[ByteAt(j)..ByteAt(j) + 2])
  }

  function Byte(b: uint8): (s: string)
    ensures |s| == 2
  {
    Pow16Widths();
    Hex(b as nat, 2)
  }

  /** The last field: Data4[2] to Data4[7]. */
  function Tail(d: Bytes8): (s: string)
    ensures |s| == 12
  {
    Byte(d[2]) + Byte(d[3]) + Byte(d[4]) + Byte(d[5]) + Byte(d[6]) + Byte(d[7])
  }

  lemma TailLayout(d: Bytes8)
    ensures forall j :: 2 <= j < 8 ==> Tail(d)[2 * j - 4..2 * j - 2] == Byte(d[j])
  {
  }

  /** The `snprintf` of include/asio-wrapper.cpp:369-373. */
  function Encode(g: Guid): string {
    Pow16Widths();
    "{" + Hex(g.data1 as nat, 8) + "-" + Hex(g.data2 as nat, 4) + "-" + Hex(g.data3 as nat, 4) + "-"
      + Byte(g.data4[0]) + Byte(g.data4[1]) + "-" + Tail(g.data4) + "}"
  }

  /** Where each field lands in the text: Data1, Data2, Data3, then Data4[0..7] in order. */
  lemma EncodeLayout(g: Guid)
    ensures |Encode(g)| == 38
    ensures Separators(Encode(g))
    ensures Encode(g)[1..9] == Hex(g.data1 as nat, 8)
    ensures Encode(g)[10..14] == Hex(g.data2 as nat, 4)
    ensures Encode(g)[15..19] == Hex(g.data3 as nat, 4)
    ensures forall j :: 0 <= j < 8 ==> Encode(g)[ByteAt(j)..ByteAt(j) + 2] == Byte(g.data4[j])
  {
    Pow16Widths();
    var s := Encode(g);
    var t := Tail(g.data4);
    assert s[25..37] == t;
    TailLayout(g.data4);
    forall j | 2 <= j < 8
      ensures s[ByteAt(j)..ByteAt(j) + 2] == Byte(g.data4[j])
    {
      assert s[ByteAt(j)..ByteAt(j) + 2] == t[2 * j - 4..2 * j - 2];
    }
  }

  /**
    GuidToString (include/asio-wrapper.cpp:366-376): total, 38 characters of
    the grammar above, and no capital letter (`%x` prints lower case).
  */
  function GuidToString(g: Guid): (s: string)
    ensures WellFormed(s) && NoUpper(s)
  {
    EncodeLayout(g);
    EncodeNoUpper(g);
    Encode(g)
  }

  /**
    stringToGUID (include/asio-wrapper.cpp:378-390) over the fixed-width
    grammar: success exactly for well-formed text.
  */
  function StringToGuid(s: string): (r: Result<Guid, GuidError>)
    ensures r.Success? <==> WellFormed(s)
  {
    if !WellFormed(s) then Failure(InvalidGuidFormat)
    else
      Pow16Widths();
      Success(Guid(ParseHex(s[1..9]) as uint32, ParseHex(s[10..14]) as uint16,
                   ParseHex(s[15..19]) as uint16,
                   seq(8, j requires 0 <= j < 8 => ParseHex(s[ByteAt(j)..ByteAt(j) + 2]) as uint8)))
  }

  /** Decoding the encoder's output gives back the GUID, every field in its place. */
  lemma EncodeThenDecode(g: Guid)
    ensures StringToGuid(GuidToString(g)) == Success(g)
  {
    Pow16Widths();
    EncodeLayout(g);
    ParseHexOfHex(g.data1 as nat, 8);
    ParseHexOfHex(g.data2 as nat, 4);
    ParseHexOfHex(g.data3 as nat, 4);
    forall j | 0 <= j < 8
      ensures ParseHex(Byte(g.data4[j])) == g.data4[j] as nat
    {
      ParseHexOfHex(g.data4[j] as nat, 2);
    }
    assert StringToGuid(GuidToString(g)).value.data4 == g.data4;
  }

  /** The decoded fields, printed again, are the text's own digit groups in lower case. */
  lemma DecodedGroups(s: string)
    requires StringToGuid(s).Success?
    ensures var e := GuidToString(StringToGuid(s).value);
      && e[1..9] == Lower(s[1..9]) && e[10..14] == Lower(s[10..14]) && e[15..19] == Lower(s[15..19])
      && forall j :: 0 <= j < 8 ==> e[ByteAt(j)..ByteAt(j) + 2] == Lower(s[ByteAt(j)..ByteAt(j) + 2])
  {
    Pow16Widths();
    var g := StringToGuid(s).value;
    EncodeLayout(g);
    HexOfParseHex(s[1..9]);
    HexOfParseHex(s[10..14]);
    HexOfParseHex(s[15..19]);
    forall j | 0 <= j < 8
      ensures Byte(g.data4[j]) == Lower(s[ByteAt(j)..ByteAt(j) + 2])
    {
      HexOfParseHex(s[ByteAt(j)..ByteAt(j) + 2]);
    }
  }

  /**
    The other direction: a successful decode is the text the encoder prints
    for that GUID, up to the case of its hex digits.
  */
  lemma DecodeThenEncode(s: string)
    requires StringToGuid(s).Success?
    ensures GuidToString(StringToGuid(s).value) == Lower(s)
  {
    var e := GuidToString(StringToGuid(s).value);
    var t := Lower(s);
    DecodedGroups(s);
    forall lo: nat, hi: nat | lo <= hi <= 38
      ensures Lower(s[lo..hi]) == t[lo..hi]
    {
    }
    SameGroups(e, t);
  }

  /** Two 38-character texts with the same separators and the same digit groups are equal. */
  lemma SameGroups(e: string, t: string)
    requires |e| == 38 == |t| && Separators(e) && Separators(t)
    requires e[1..9] == t[1..9] && e[10..14] == t[10..14] && e[15..19] == t[15..19]
    requires forall j :: 0 <= j < 8 ==> e[ByteAt(j)..ByteAt(j) + 2] == t[ByteAt(j)..ByteAt(j) + 2]
    ensures e == t
  {
    forall k | 0 <= k < 38
      ensures e[k] == t[k]
    {
      if k !in {0, 9, 14, 19, 24, 37} {
        var lo, hi := GroupOf(k);
        assert e[k] == e[lo..hi][k - lo] && t[k] == t[lo..hi][k - lo];
      }
    }
  }

  /** The encoder prints no capital letter: its separators are none, and neither are its digits. */
  lemma EncodeNoUpper(g: Guid)
    ensures NoUpper(Encode(g))
  {
    EncodeLayout(g);
    var e := Encode(g);
    forall j | 0 <= j < 8
      ensures NoUpper(e[ByteAt(j)..ByteAt(j) + 2])
    {
      assert e[ByteAt(j)..ByteAt(j) + 2] == Byte(g.data4[j]);
    }
    UpperFreeGroups(e);
  }

  /** A 38-character text whose separators and digit groups have no capital letter has none. */
  lemma UpperFreeGroups(e: string)
    requires |e| == 38 && Separators(e)
    requires NoUpper(e[1..9]) && NoUpper(e[10..14]) && NoUpper(e[15..19])
    requires forall j :: 0 <= j < 8 ==> NoUpper(e[ByteAt(j)..ByteAt(j) + 2])
    ensures NoUpper(e)
  {
    forall k | 0 <= k < 38
      ensures !IsUpper(e[k])
    {
      if k !in {0, 9, 14, 19, 24, 37} {
        var lo, hi := GroupOf(k);
        assert e[k] == e[lo..hi][k - lo];
      }
    }
  }
}
