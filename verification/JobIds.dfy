/**
 Job ids (models.py:23-33): a url's text in UTF-8, and that in unpadded base64url. The decoder
 undoes both steps, and either may raise.
 */
module JobIds {
  import opened Wrappers
  import opened Utf8
  import Base64Url

  datatype EncodeError = LoneSurrogate
  datatype DecodeError = NotBase64(error: Base64Url.Error) | NotUtf8

  function UrlToB64(url: seq<CodePoint>): Result<string, EncodeError> {
    if Scalars(url) then Ok(Base64Url.IdOfBytes(Encoded(url))) else Err(LoneSurrogate)
  }

  function B64ToUrl(b64: string): Result<seq<CodePoint>, DecodeError> {
    var bytes := Base64Url.BytesOfId(b64);
    if bytes.Err? then Err(NotBase64(bytes.error))
    else
      var url := Decoded(bytes.value);
      if url.None? then Err(NotUtf8) else Ok(url.value)
  }

  /** A url has an id exactly when it holds no lone surrogate, and it comes back from it. */
  lemma RoundTrip(url: seq<CodePoint>)
    ensures UrlToB64(url).Ok? <==> Scalars(url)
    ensures UrlToB64(url).Ok? ==> B64ToUrl(UrlToB64(url).value) == Ok(url)
  {
    if Scalars(url) {
      Base64Url.BytesComeBackFromId(Encoded(url));
      DecodedEncoded(url);
    }
  }

  /** Different urls have different ids. */
  lemma IdsAreDistinct(a: seq<CodePoint>, b: seq<CodePoint>)
    requires UrlToB64(a).Ok? && UrlToB64(b).Ok?
    ensures UrlToB64(a) == UrlToB64(b) <==> a == b
  {
    RoundTrip(a);
    RoundTrip(b);
  }

  /**
   A string decodes to a url that has this very string as its id exactly when it is canonical
   base64url and its bytes are UTF-8.
   */
  lemma DecodedIdIsItself(s: string)
    ensures B64ToUrl(s).Ok? && UrlToB64(B64ToUrl(s).value) == Ok(s)
            <==> Base64Url.Canonical(s) && Base64Url.BytesOfId(s).Ok? && WellFormed(Base64Url.BytesOfId(s).value)
    ensures Base64Url.Canonical(s) ==> Base64Url.BytesOfId(s).Ok?
  {
    Base64Url.DecodedIdIsItself(s);
    if Base64Url.BytesOfId(s).Ok? && WellFormed(Base64Url.BytesOfId(s).value) {
      EncodedDecoded(Base64Url.BytesOfId(s).value);
    }
  }

  /** Canonical is not enough: "_w" is the byte 255, which no text is encoded with. */
  lemma CanonicalButNoUrl()
    ensures Base64Url.Canonical("_w") && Base64Url.BytesOfId("_w") == Ok([255])
    ensures B64ToUrl("_w") == Err(NotUtf8)
  {
    assert Base64Url.IdOfBytes([255]) == "_w" by {
      Base64Url.StrippingRemovesThePadding([255]);
      assert Base64Url.Digits([255]) == [Base64Url.Digit(63), Base64Url.Digit(48)];
    }
    Base64Url.BytesComeBackFromId([255]);
    Base64Url.DecodedIdIsItself("_w");
    assert Front([255]).None?;
  }

  /** Decoding is lenient: "QR" and "QQ==" are no ids, yet both decode, like "QQ", to the url "A". */
  lemma DecodingIsLenient()
    ensures B64ToUrl("QQ") == B64ToUrl("QR") == B64ToUrl("QQ==") == Ok([65])
    ensures UrlToB64([65]) == Ok("QQ")
  {
    Base64Url.DecodingIsLenient();
    Base64Url.DecodedIdIsItself("QQ");
    assert [65][1..] == [];
    assert Decoded([65]) == Some([65] + []);
    EncodedDecoded([65]);
  }
}
