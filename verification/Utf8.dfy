/**
 UTF-8 as Python's strict codec has it (RFC 3629, sections 3 and 4): text is a sequence of code
 points, a lone surrogate has no encoding, and only shortest forms decode.
 */
module Utf8 {
  import opened Wrappers

  type Byte = b: int | 0 <= b < 256
  type CodePoint = c: int | 0 <= c < 0x11_0000

  predicate Scalar(c: int) {
    0 <= c < 0xD800 || 0xE000 <= c < 0x11_0000
  }

  predicate Scalars(text: seq<CodePoint>) {
    forall i :: 0 <= i < |text| ==> Scalar(text[i])
  }

  predicate Trail(b: Byte) {
    0x80 <= b < 0xC0
  }

  /** The bytes of one code point. */
  function Char(c: CodePoint): (bytes: seq<Byte>)
    ensures 1 <= |bytes| <= 4
  {
    if c < 0x80 then [c]
    else if c < 0x800 then [0xC0 + c / 64, 0x80 + c % 64]
    else if c < 0x1_0000 then [0xE0 + c / 64 / 64, 0x80 + c / 64 % 64, 0x80 + c % 64]
    else [0xF0 + c / 64 / 64 / 64, 0x80 + c / 64 / 64 % 64, 0x80 + c / 64 % 64, 0x80 + c % 64]
  }

  function Encoded(text: seq<CodePoint>): seq<Byte> {
    if text == [] then [] else Char(text[0]) + Encoded(text[1..])
  }

  /** A number with one more digit to base 64. */
  function Join(high: int, low: int): int {
    high * 64 + low
  }

  /** The code point at the front of `bytes`, and how many bytes it takes. */
  function Front(bytes: seq<Byte>): (r: Option<(CodePoint, nat)>)
    ensures r.Some? ==> 1 <= r.value.1 <= |bytes| && Scalar(r.value.0)
  {
    if bytes == [] then None
    else
      var lead: int := bytes[0];
      if lead < 0x80 then Some((lead, 1))
      else if 0xC0 <= lead < 0xE0 && |bytes| >= 2 && Trail(bytes[1]) then
        var c := Join(lead - 0xC0, Six(bytes[1]));
        if c >= 0x80 then Some((c, 2)) else None
      else if 0xE0 <= lead < 0xF0 && |bytes| >= 3 && Trail(bytes[1]) && Trail(bytes[2]) then
        var c := Join(Join(lead - 0xE0, Six(bytes[1])), Six(bytes[2]));
        if c >= 0x800 && Scalar(c) then Some((c, 3)) else None
      else if 0xF0 <= lead < 0xF8 && |bytes| >= 4 && Trail(bytes[1]) && Trail(bytes[2]) && Trail(bytes[3]) then
        var c := Join(Join(Join(lead - 0xF0, Six(bytes[1])), Six(bytes[2])), Six(bytes[3]));
        if c >= 0x1_0000 && Scalar(c) then Some((c, 4)) else None
      else None
  }

  /** The bits of a trailing byte. */
  function Six(b: Byte): (v: int)
    requires Trail(b)
    ensures 0 <= v < 64
  {
    var n: int := b;
    n - 0x80
  }

  function Decoded(bytes: seq<Byte>): Option<seq<CodePoint>>
    decreases |bytes|
  {
    if bytes == [] then Some([])
    else
      var front := Front(bytes);
      if front.None? then None
      else
        var rest := Decoded(bytes[front.value.1..]);
        if rest.None? then None else Some([front.value.0] + rest.value)
  }

  predicate WellFormed(bytes: seq<Byte>) {
    Decoded(bytes).Some?
  }

  // ---------------------------------------------------------------- one character

  lemma FrontOfChar(c: CodePoint, rest: seq<Byte>)
    requires Scalar(c)
    ensures Front(Char(c) + rest) == Some((c, |Char(c)|))
    ensures (Char(c) + rest)[|Char(c)|..] == rest
  {
    var bytes := Char(c) + rest;
    assert forall i :: 0 <= i < |Char(c)| ==> bytes[i] == Char(c)[i];
    Rejoin(c);
    Rejoin(c / 64);
    Rejoin(c / 64 / 64);
    hide Join;
  }

  lemma Rejoin(c: int)
    requires c >= 0
    ensures Join(c / 64, c % 64) == c
  {
  }

  lemma Apart(high: int, low: int)
    requires high >= 0 && 0 <= low < 64
    ensures Join(high, low) / 64 == high && Join(high, low) % 64 == low
    ensures Join(high, low) >= 0
  {
  }

  lemma CharOfFront(bytes: seq<Byte>)
    requires Front(bytes).Some?
    ensures Char(Front(bytes).value.0) == bytes[..Front(bytes).value.1]
  {
    var n := Front(bytes).value.1;
    if n == 2 {
      CharOfTwo(bytes);
    } else if n == 3 {
      CharOfThree(bytes);
    } else if n == 4 {
      CharOfFour(bytes);
    }
  }

  lemma CharOfTwo(bytes: seq<Byte>)
    requires Front(bytes).Some? && Front(bytes).value.1 == 2
    ensures Char(Front(bytes).value.0) == bytes[..2]
  {
    var lead: int := bytes[0];
    Apart(lead - 0xC0, Six(bytes[1]));
    assert Join(lead - 0xC0, Six(bytes[1])) < 0x800;
    assert bytes[..2] == [bytes[0], bytes[1]];
    hide Join;
  }

  lemma CharOfThree(bytes: seq<Byte>)
    requires Front(bytes).Some? && Front(bytes).value.1 == 3
    ensures Char(Front(bytes).value.0) == bytes[..3]
  {
    var lead: int := bytes[0];
    Apart(lead - 0xE0, Six(bytes[1]));
    Apart(Join(lead - 0xE0, Six(bytes[1])), Six(bytes[2]));
    assert Join(Join(lead - 0xE0, Six(bytes[1])), Six(bytes[2])) < 0x1_0000;
    assert bytes[..3] == [bytes[0], bytes[1], bytes[2]];
    hide Join;
  }

  lemma CharOfFour(bytes: seq<Byte>)
    requires Front(bytes).Some? && Front(bytes).value.1 == 4
    ensures Char(Front(bytes).value.0) == bytes[..4]
  {
    var lead: int := bytes[0];
    Apart(lead - 0xF0, Six(bytes[1]));
    Apart(Join(lead - 0xF0, Six(bytes[1])), Six(bytes[2]));
    Apart(Join(Join(lead - 0xF0, Six(bytes[1])), Six(bytes[2])), Six(bytes[3]));
    assert bytes[..4] == [bytes[0], bytes[1], bytes[2], bytes[3]];
    hide Join;
  }

  // -------------------------------------------------------------------- whole texts

  lemma {:induction false} DecodedEncoded(text: seq<CodePoint>)
    requires Scalars(text)
    ensures Decoded(Encoded(text)) == Some(text)
  {
    if text != [] {
      hide Char, Front;
      FrontOfChar(text[0], Encoded(text[1..]));
      DecodedEncoded(text[1..]);
      assert [text[0]] + text[1..] == text;
    }
  }

  lemma EncodedFront(c: CodePoint, rest: seq<CodePoint>)
    ensures Encoded([c] + rest) == Char(c) + Encoded(rest)
  {
    assert ([c] + rest)[1..] == rest;
    hide Char;
  }

  lemma {:induction false} EncodedDecoded(bytes: seq<Byte>)
    requires Decoded(bytes).Some?
    ensures Scalars(Decoded(bytes).value) && Encoded(Decoded(bytes).value) == bytes
    decreases |bytes|
  {
    hide Char, Front, Encoded;
    if bytes == [] {
      NothingEncoded();
    } else {
      var (c, n) := Front(bytes).value;
      CharOfFront(bytes);
      EncodedDecoded(bytes[n..]);
      EncodedFront(c, Decoded(bytes[n..]).value);
      assert bytes == bytes[..n] + bytes[n..];
    }
  }

  lemma NothingEncoded()
    ensures Encoded([]) == []
  {
  }

  /** The byte sequences that decode are exactly the encodings of texts without surrogates. */
  lemma WellFormedIff(bytes: seq<Byte>)
    ensures WellFormed(bytes) <==> exists text :: Scalars(text) && Encoded(text) == bytes
  {
    if WellFormed(bytes) {
      EncodedDecoded(bytes);
    }
    if text :| Scalars(text) && Encoded(text) == bytes {
      DecodedEncoded(text);
    }
  }
}
