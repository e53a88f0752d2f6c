/**
 The bytes of job ids (models.py:23-33): unpadded base64url, RFC 4648 sections 3.2, 4 and 5. The
 decoder is the lenient scan of Python's base64 module: characters outside the alphabet are
 skipped, and a complete padding ends the scan.
 */
module Base64Url {
  import opened Wrappers
  import opened Utf8

  type Sextet = v: int | 0 <= v < 64

  // ----------------------------------------------------------------- alphabet

  function Digit(v: Sextet): char {
    if v < 26 then 'A' + v as char
    else if v < 52 then 'a' + (v - 26) as char
    else if v < 62 then '0' + (v - 52) as char
    else if v == 62 then '-'
    else '_'
  }

  /** The decoder translates the two url characters to the standard ones first, so it takes both. */
  function ValueOf(c: char): Option<Sextet> {
    if 'A' <= c <= 'Z' then Some((c - 'A') as int)
    else if 'a' <= c <= 'z' then Some((c - 'a') as int + 26)
    else if '0' <= c <= '9' then Some((c - '0') as int + 52)
    else if c == '-' || c == '+' then Some(62)
    else if c == '_' || c == '/' then Some(63)
    else None
  }

  lemma DigitValue(v: Sextet)
    ensures ValueOf(Digit(v)) == Some(v) && Digit(v) != '='
  {
  }

  predicate UrlDigit(c: char) {
    ValueOf(c).Some? && c != '+' && c != '/'
  }

  lemma ValueDigit(c: char)
    requires UrlDigit(c)
    ensures Digit(ValueOf(c).value) == c
  {
  }

  // ------------------------------------------------------------------- groups

  /** Three bytes as four digits ... */
  function First(x: Byte): Sextet { x / 4 }
  function Second(x: Byte, y: Byte): Sextet { x % 4 * 16 + y / 16 }
  function Third(y: Byte, z: Byte): Sextet { y % 16 * 4 + z / 64 }
  function Fourth(z: Byte): Sextet { z % 64 }

  /** ... and back. */
  function One(a: Sextet, b: Sextet): Byte { a * 4 + b / 16 }
  function Two(b: Sextet, c: Sextet): Byte { b % 16 * 16 + c / 4 }
  function Three(c: Sextet, d: Sextet): Byte { c % 4 * 64 + d }

  lemma BytesComeBack(x: Byte, y: Byte, z: Byte)
    ensures One(First(x), Second(x, y)) == x
    ensures Two(Second(x, y), Third(y, z)) == y
    ensures Three(Third(y, z), Fourth(z)) == z
  {
  }

  lemma DigitsComeBack(a: Sextet, b: Sextet, c: Sextet, d: Sextet)
    ensures First(One(a, b)) == a
    ensures Second(One(a, b), Two(b, c)) == b
    ensures Third(Two(b, c), Three(c, d)) == c
    ensures Fourth(Three(c, d)) == d
  {
  }

  // ----------------------------------------------------------------- encoding

  /** Section 4: three bytes become four digits; a shorter last group is padded. */
  function Encode(bytes: seq<Byte>): string {
    if bytes == [] then ""
    else if |bytes| == 1 then [Digit(First(bytes[0])), Digit(Second(bytes[0], 0)), '=', '=']
    else if |bytes| == 2 then
      [Digit(First(bytes[0])), Digit(Second(bytes[0], bytes[1])), Digit(Third(bytes[1], 0)), '=']
    else
      [Digit(First(bytes[0])), Digit(Second(bytes[0], bytes[1])),
       Digit(Third(bytes[1], bytes[2])), Digit(Fourth(bytes[2]))] + Encode(bytes[3..])
  }

  function StripPadding(s: string): string {
    if s != "" && s[|s| - 1] == '=' then StripPadding(s[..|s| - 1]) else s
  }

  function Padding(n: nat): string {
    seq(n, i => '=')
  }

  function IdOfBytes(url: seq<Byte>): string {
    StripPadding(Encode(url))
  }

  // ----------------------------------------------------------------- decoding

  datatype Error = NotAscii | Incomplete

  function Emit(b: int, rest: Result<seq<Byte>, Error>): Result<seq<Byte>, Error>
    requires 0 <= b < 256
  {
    if rest.Ok? then Ok([b] + rest.value) else rest
  }

  /** `place` is the position in the current group of four, `left` the bits not yet given out. */
  function Scan(s: string, place: nat, left: nat, pads: nat): Result<seq<Byte>, Error>
    requires place < 4
    requires place == 1 ==> left < 64
    requires place == 2 ==> left < 16
    requires place == 3 ==> left < 4
    decreases |s|
  {
    if s == "" then (if place == 0 then Ok([]) else Err(Incomplete))
    else if s[0] == '=' then
      if place < 2 then Scan(s[1..], place, left, pads)
      else if place + pads + 1 >= 4 then Ok([])
      else Scan(s[1..], place, left, pads + 1)
    else
      match ValueOf(s[0])
      case None => Scan(s[1..], place, left, pads)
      case Some(v) =>
        if place == 0 then Scan(s[1..], 1, v, 0)
        else if place == 1 then Emit(left * 4 + v / 16, Scan(s[1..], 2, v % 16, 0))
        else if place == 2 then Emit(left * 16 + v / 4, Scan(s[1..], 3, v % 4, 0))
        else Emit(left * 64 + v, Scan(s[1..], 0, 0, 0))
  }

  predicate Ascii(s: string) {
    forall i :: 0 <= i < |s| ==> s[i] as int < 128
  }

  function BytesOfId(b64: string): Result<seq<Byte>, Error> {
    if !Ascii(b64) then Err(NotAscii)
    else Scan(b64 + Padding((-|b64|) % 4), 0, 0, 0)
  }

  // --------------------------------------------------------------- round trip

  /** The digits of an encoding without its padding. */
  function Digits(bytes: seq<Byte>): string {
    if bytes == [] then ""
    else if |bytes| == 1 then [Digit(First(bytes[0])), Digit(Second(bytes[0], 0))]
    else if |bytes| == 2 then
      [Digit(First(bytes[0])), Digit(Second(bytes[0], bytes[1])), Digit(Third(bytes[1], 0))]
    else
      [Digit(First(bytes[0])), Digit(Second(bytes[0], bytes[1])),
       Digit(Third(bytes[1], bytes[2])), Digit(Fourth(bytes[2]))] + Digits(bytes[3..])
  }

  lemma {:induction false} StripStops(s: string, n: nat)
    requires s == "" || s[|s| - 1] != '='
    ensures StripPadding(s + Padding(n)) == s
  {
    if n == 0 {
      assert s + Padding(0) == s;
    } else {
      assert (s + Padding(n))[..|s| + n - 1] == s + Padding(n - 1);
      StripStops(s, n - 1);
    }
  }

  lemma {:induction false} EncodeIsDigitsPadded(bytes: seq<Byte>)
    ensures Encode(bytes) == Digits(bytes) + Padding((-|Digits(bytes)|) % 4)
    ensures |Digits(bytes)| == (4 * |bytes| + 2) / 3
  {
    hide Digit, First, Second, Third, Fourth;
    if |bytes| >= 3 {
      EncodeIsDigitsPadded(bytes[3..]);
      assert |Digits(bytes)| == 4 + |Digits(bytes[3..])|;
    }
  }

  lemma {:induction false} DigitsAreUrlDigits(bytes: seq<Byte>)
    ensures forall i :: 0 <= i < |Digits(bytes)| ==> UrlDigit(Digits(bytes)[i])
  {
    assert forall v: Sextet :: UrlDigit(Digit(v));
    if |bytes| >= 3 {
      DigitsAreUrlDigits(bytes[3..]);
    }
    hide UrlDigit, Digit, First, Second, Third, Fourth;
  }

  /** Stripping takes away exactly the padding, and the length of the rest says how much it was. */
  lemma StrippingRemovesThePadding(url: seq<Byte>)
    ensures IdOfBytes(url) == Digits(url)
    ensures IdOfBytes(url) + Padding((-|IdOfBytes(url)|) % 4) == Encode(url)
    ensures |IdOfBytes(url)| == (4 * |url| + 2) / 3
    ensures forall i :: 0 <= i < |IdOfBytes(url)| ==> UrlDigit(IdOfBytes(url)[i])
  {
    EncodeIsDigitsPadded(url);
    DigitsAreUrlDigits(url);
    assert !UrlDigit('=');
    hide Digits, Encode, UrlDigit;
    StripStops(Digits(url), (-|Digits(url)|) % 4);
  }

  /** What one digit does to the scan. */
  lemma ScanDigit(v: Sextet, rest: string, place: nat, left: nat, pads: nat)
    requires place < 4
    requires place == 1 ==> left < 64
    requires place == 2 ==> left < 16
    requires place == 3 ==> left < 4
    ensures Scan([Digit(v)] + rest, place, left, pads)
            == if place == 0 then Scan(rest, 1, v, 0)
               else if place == 1 then Emit(left * 4 + v / 16, Scan(rest, 2, v % 16, 0))
               else if place == 2 then Emit(left * 16 + v / 4, Scan(rest, 3, v % 4, 0))
               else Emit(left * 64 + v, Scan(rest, 0, 0, 0))
  {
    DigitValue(v);
    assert ([Digit(v)] + rest)[1..] == rest;
    hide Digit, ValueOf;
  }

  /** A group of four digits gives three bytes, whatever follows. */
  lemma ScanGroup(a: Sextet, b: Sextet, c: Sextet, d: Sextet, rest: string)
    ensures Scan([Digit(a), Digit(b), Digit(c), Digit(d)] + rest, 0, 0, 0)
            == Emit(One(a, b), Emit(Two(b, c), Emit(Three(c, d), Scan(rest, 0, 0, 0))))
  {
    hide Scan, Digit, Emit;
    assert [Digit(a), Digit(b), Digit(c), Digit(d)] + rest
           == [Digit(a)] + ([Digit(b)] + ([Digit(c)] + ([Digit(d)] + rest)));
    ScanDigit(a, [Digit(b)] + ([Digit(c)] + ([Digit(d)] + rest)), 0, 0, 0);
    ScanDigit(b, [Digit(c)] + ([Digit(d)] + rest), 1, a, 0);
    ScanDigit(c, [Digit(d)] + rest, 2, b % 16, 0);
    ScanDigit(d, rest, 3, c % 4, 0);
  }

  lemma ScanPadding(left: nat)
    ensures left < 16 ==> Scan(['=', '='], 2, left, 0) == Ok([])
    ensures left < 4 ==> Scan(['='], 3, left, 0) == Ok([])
  {
    assert ['=', '='][1..] == ['='];
    if left < 16 {
      assert Scan(['='], 2, left, 1) == Ok([]);
    }
  }

  lemma ScanTwo(a: Sextet, b: Sextet)
    ensures Scan([Digit(a), Digit(b), '=', '='], 0, 0, 0) == Ok([One(a, b)])
  {
    hide Digit, Scan;
    assert [Digit(a), Digit(b), '=', '='] == [Digit(a)] + ([Digit(b)] + ['=', '=']);
    ScanDigit(a, [Digit(b)] + ['=', '='], 0, 0, 0);
    ScanDigit(b, ['=', '='], 1, a, 0);
    ScanPadding(b % 16);
    assert [One(a, b)] + [] == [One(a, b)];
  }

  lemma ScanThree(a: Sextet, b: Sextet, c: Sextet)
    ensures Scan([Digit(a), Digit(b), Digit(c), '='], 0, 0, 0) == Ok([One(a, b), Two(b, c)])
  {
    hide Digit, Scan;
    assert [Digit(a), Digit(b), Digit(c), '='] == [Digit(a)] + ([Digit(b)] + ([Digit(c)] + ['=']));
    ScanDigit(a, [Digit(b)] + ([Digit(c)] + ['=']), 0, 0, 0);
    ScanDigit(b, [Digit(c)] + ['='], 1, a, 0);
    ScanDigit(c, ['='], 2, b % 16, 0);
    ScanPadding(c % 4);
    assert [One(a, b)] + ([Two(b, c)] + []) == [One(a, b), Two(b, c)];
  }

  lemma {:induction false} ScanEncoded(bytes: seq<Byte>)
    ensures Scan(Encode(bytes), 0, 0, 0) == Ok(bytes)
  {
    hide Digit, First, Second, Third, Fourth, One, Two, Three;
    if bytes == [] {
    } else if |bytes| == 1 {
      ScanTwo(First(bytes[0]), Second(bytes[0], 0));
      BytesComeBack(bytes[0], 0, 0);
      assert [bytes[0]] == bytes;
    } else if |bytes| == 2 {
      ScanThree(First(bytes[0]), Second(bytes[0], bytes[1]), Third(bytes[1], 0));
      BytesComeBack(bytes[0], bytes[1], 0);
      assert [bytes[0], bytes[1]] == bytes;
    } else {
      ScanGroup(First(bytes[0]), Second(bytes[0], bytes[1]), Third(bytes[1], bytes[2]), Fourth(bytes[2]),
                Encode(bytes[3..]));
      BytesComeBack(bytes[0], bytes[1], bytes[2]);
      ScanEncoded(bytes[3..]);
      hide Scan;
      assert [bytes[0]] + ([bytes[1]] + ([bytes[2]] + bytes[3..])) == bytes;
    }
  }

  /** The bytes come back from their id, for every length. */
  lemma BytesComeBackFromId(url: seq<Byte>)
    ensures BytesOfId(IdOfBytes(url)) == Ok(url)
  {
    StrippingRemovesThePadding(url);
    ScanEncoded(url);
    assert Ascii(IdOfBytes(url));
  }

  /** Different bytes have different ids. */
  lemma IdsAreDistinct(a: seq<Byte>, b: seq<Byte>)
    ensures IdOfBytes(a) == IdOfBytes(b) <==> a == b
  {
    BytesComeBackFromId(a);
    BytesComeBackFromId(b);
  }

  // -------------------------------------------------------------- the other way

  /**
   The ids there are: url digits only, never one left over in a group, and nothing in the
   bits of the last digit that no byte uses.
   */
  predicate Canonical(s: string) {
    && (forall i :: 0 <= i < |s| ==> UrlDigit(s[i]))
    && |s| % 4 != 1
    && (|s| % 4 == 2 ==> ValueOf(s[|s| - 1]).value % 16 == 0)
    && (|s| % 4 == 3 ==> ValueOf(s[|s| - 1]).value % 4 == 0)
  }

  /** The last digit of a short group holds nothing but bits of its last byte. */
  lemma SpareBits(x: Byte)
    ensures Second(x, 0) % 16 == 0 && Third(x, 0) % 4 == 0
  {
  }

  lemma {:induction false} IdsAreCanonical(bytes: seq<Byte>)
    ensures Canonical(Digits(bytes))
  {
    DigitsAreUrlDigits(bytes);
    hide Digit, ValueOf, UrlDigit, First, Second, Third, Fourth;
    if bytes == [] {
    } else if |bytes| == 1 {
      DigitValue(Second(bytes[0], 0));
      SpareBits(bytes[0]);
    } else if |bytes| == 2 {
      DigitValue(Third(bytes[1], 0));
      SpareBits(bytes[1]);
    } else {
      IdsAreCanonical(bytes[3..]);
      LongerCanonical(Digits(bytes), Digits(bytes[3..]));
    }
  }

  /** Four more digits in front change nothing about the end. */
  lemma LongerCanonical(s: string, rest: string)
    requires |s| >= 4 && s[4..] == rest && forall i :: 0 <= i < |s| ==> UrlDigit(s[i])
    ensures Canonical(s) <==> Canonical(rest)
  {
    hide UrlDigit, ValueOf;
    assert forall i :: 0 <= i < |rest| ==> rest[i] == s[i + 4];
    assert |rest| % 4 == |s| % 4;
  }

  lemma DigitsOf(s: string)
    requires Canonical(s)
    ensures forall i :: 0 <= i < |s| ==> ValueOf(s[i]).Some? && Digit(ValueOf(s[i]).value) == s[i]
  {
    forall i | 0 <= i < |s| ensures Digit(ValueOf(s[i]).value) == s[i] {
      ValueDigit(s[i]);
    }
  }

  /** What a canonical string says of its length and of its last digit. */
  lemma CanonicalEnd(s: string)
    requires Canonical(s)
    ensures |s| != 1 && forall i :: 0 <= i < |s| ==> ValueOf(s[i]).Some?
    ensures |s| == 2 ==> ValueOf(s[1]).value % 16 == 0
    ensures |s| == 3 ==> ValueOf(s[2]).value % 4 == 0
    ensures |s| >= 4 ==> Canonical(s[4..])
  {
    hide ValueOf;
    if |s| >= 4 {
      LongerCanonical(s, s[4..]);
    }
  }

  lemma TwoDigits(a: Sextet, b: Sextet)
    requires b % 16 == 0
    ensures Digits([One(a, b)]) == [Digit(a), Digit(b)]
  {
    LoneByte(a, b);
    hide First, Second, One, Digit;
  }

  lemma ThreeDigits(a: Sextet, b: Sextet, c: Sextet)
    requires c % 4 == 0
    ensures Digits([One(a, b), Two(b, c)]) == [Digit(a), Digit(b), Digit(c)]
  {
    TwoBytes(a, b, c);
    hide First, Second, Third, One, Two, Digit;
  }

  lemma {:induction false} CanonicalIsAnId(s: string) returns (bytes: seq<Byte>)
    requires Canonical(s)
    ensures Digits(bytes) == s
  {
    DigitsOf(s);
    CanonicalEnd(s);
    hide *;
    if s == "" {
      bytes := [];
      NoDigits();
    } else if |s| == 2 {
      TwoDigits(ValueOf(s[0]).value, ValueOf(s[1]).value);
      bytes := [One(ValueOf(s[0]).value, ValueOf(s[1]).value)];
    } else if |s| == 3 {
      var a, b, c := ValueOf(s[0]).value, ValueOf(s[1]).value, ValueOf(s[2]).value;
      ThreeDigits(a, b, c);
      bytes := [One(a, b), Two(b, c)];
    } else {
      var rest := CanonicalIsAnId(s[4..]);
      var a, b, c, d := ValueOf(s[0]).value, ValueOf(s[1]).value, ValueOf(s[2]).value, ValueOf(s[3]).value;
      GroupDigits(a, b, c, d, rest);
      bytes := [One(a, b), Two(b, c), Three(c, d)] + rest;
      assert s == [s[0], s[1], s[2], s[3]] + s[4..];
    }
  }

  lemma NoDigits()
    ensures Digits([]) == ""
  {
  }

  lemma GroupDigits(a: Sextet, b: Sextet, c: Sextet, d: Sextet, rest: seq<Byte>)
    ensures Digits([One(a, b), Two(b, c), Three(c, d)] + rest)
            == [Digit(a), Digit(b), Digit(c), Digit(d)] + Digits(rest)
  {
    DigitsComeBack(a, b, c, d);
    hide First, Second, Third, Fourth, One, Two, Three, Digit;
    assert ([One(a, b), Two(b, c), Three(c, d)] + rest)[3..] == rest;
  }

  lemma LoneByte(a: Sextet, b: Sextet)
    requires b % 16 == 0
    ensures First(One(a, b)) == a && Second(One(a, b), 0) == b
  {
  }

  lemma TwoBytes(a: Sextet, b: Sextet, c: Sextet)
    requires c % 4 == 0
    ensures First(One(a, b)) == a && Second(One(a, b), Two(b, c)) == b && Third(Two(b, c), 0) == c
  {
  }

  /** A string decodes to bytes that have this very id exactly when it is canonical. */
  lemma DecodedIdIsItself(s: string)
    ensures BytesOfId(s).Ok? && IdOfBytes(BytesOfId(s).value) == s <==> Canonical(s)
  {
    if Canonical(s) {
      var url := CanonicalIsAnId(s);
      StrippingRemovesThePadding(url);
      BytesComeBackFromId(url);
    }
    if BytesOfId(s).Ok? && IdOfBytes(BytesOfId(s).value) == s {
      StrippingRemovesThePadding(BytesOfId(s).value);
      IdsAreCanonical(BytesOfId(s).value);
    }
  }

  /** Decoding is lenient: "QR" and "QQ==" are not ids, yet both decode, like "QQ", to the byte 65. */
  lemma DecodingIsLenient()
    ensures BytesOfId("QQ") == BytesOfId("QR") == BytesOfId("QQ==") == Ok([65])
    ensures Canonical("QQ") && !Canonical("QR") && !Canonical("QQ==")
  {
    assert IdOfBytes([65]) == "QQ" by {
      StrippingRemovesThePadding([65]);
      assert Digits([65]) == [Digit(16), Digit(16)];
    }
    BytesComeBackFromId([65]);
    assert "QR" + Padding(2) == [Digit(16), Digit(17), '=', '='];
    ScanTwo(16, 17);
    assert "QQ==" + Padding(0) == [Digit(16), Digit(16), '=', '='];
    ScanTwo(16, 16);
    assert !UrlDigit("QQ=="[2]);
  }
}
