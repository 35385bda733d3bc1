/**
 SHA-256 digests, their printed forms, and manifest references.
 */
module Digests {
  import opened Prelude
  import opened Texts

  const SHA256_LEN := 32
  const PREFIX := "sha256:"

  type Digest = d: Bytes | |d| == SHA256_LEN witness seq(SHA256_LEN, _ => 0)

  function HexDigit(n: nat): (c: char)
    requires n < 16
  {
    if n < 10 then '0' + n as char else 'a' + (n - 10) as char
  }

  function HexValue(c: char): (v: Option<nat>)
    ensures v.Some? ==> v.value < 16
  {
    if '0' <= c <= '9' then Some(c as int - '0' as int)
    else if 'a' <= c <= 'f' then Some(c as int - 'a' as int + 10)
    else if 'A' <= c <= 'F' then Some(c as int - 'A' as int + 10)
    else None
  }

  predicate IsHexDigit(c: char) {
    '0' <= c <= '9' || 'a' <= c <= 'f' || 'A' <= c <= 'F'
  }

  /** Lower-case hexadecimal, two characters a byte. */
  function Hex(bytes: Bytes): (s: Text)
    ensures |s| == 2 * |bytes|
  {
    if bytes == [] then []
    else [HexDigit(bytes[0] / 16), HexDigit(bytes[0] % 16)] + Hex(bytes[1..])
  }

  /** Decoding accepts both letter cases and refuses odd lengths and foreign characters. */
  function FromHex(s: Text): (r: Option<Bytes>)
    ensures r.Some? ==> |s| == 2 * |r.value|
  {
    if s == [] then Some([])
    else if |s| == 1 then None
    else
      match (HexValue(s[0]), HexValue(s[1]), FromHex(s[2..]))
      case (Some(hi), Some(lo), Some(rest)) => Some([16 * hi + lo] + rest)
      case _ => None
  }

  lemma DigitOfValue(c: char)
    ensures HexValue(c).Some? <==> IsHexDigit(c)
    ensures HexValue(c).Some? ==> HexDigit(HexValue(c).value) == LowerChar(c)
  {
  }

  lemma {:induction false} FromHexOfHex(bytes: Bytes)
    ensures FromHex(Hex(bytes)) == Some(bytes)
  {
    if bytes != [] {
      FromHexOfHex(bytes[1..]);
      assert Hex(bytes)[2..] == Hex(bytes[1..]);
      assert bytes == [bytes[0]] + bytes[1..];
    }
  }

  lemma {:induction false} HexOfFromHex(s: Text)
    requires FromHex(s).Some?
    ensures Hex(FromHex(s).value) == ToLower(s)
  {
    if s != [] {
      HexOfFromHex(s[2..]);
      DigitOfValue(s[0]);
      DigitOfValue(s[1]);
      var bytes := FromHex(s).value;
      assert bytes[1..] == FromHex(s[2..]).value;
      assert Hex(bytes) == [LowerChar(s[0]), LowerChar(s[1])] + ToLower(s[2..]);
      assert Hex(bytes) == ToLower(s);
    }
  }

  lemma {:induction false} FromHexDefined(s: Text)
    ensures FromHex(s).Some? <==> |s| % 2 == 0 && forall c | c in s :: IsHexDigit(c)
  {
    if |s| >= 2 {
      FromHexDefined(s[2..]);
      DigitOfValue(s[0]);
      DigitOfValue(s[1]);
      assert s == [s[0], s[1]] + s[2..];
      assert s[0] in s && s[1] in s;
    }
  }

  /** Byte `i` stands at positions `2 * i` and `2 * i + 1`, its high digit first. */
  lemma {:induction false} HexDigitsOf(bytes: Bytes, i: nat)
    requires i < |bytes|
    ensures Hex(bytes)[2 * i] == "0123456789abcdef"[bytes[i] / 16]
    ensures Hex(bytes)[2 * i + 1] == "0123456789abcdef"[bytes[i] % 16]
  {
    if i == 0 {
      DigitIs(bytes[0] / 16);
      DigitIs(bytes[0] % 16);
    } else {
      HexDigitsOf(bytes[1..], i - 1);
      assert Hex(bytes)[2 * i] == Hex(bytes[1..])[2 * (i - 1)];
      assert Hex(bytes)[2 * i + 1] == Hex(bytes[1..])[2 * (i - 1) + 1];
    }
  }

  lemma DigitIs(n: nat)
    requires n < 16
    ensures HexDigit(n) == "0123456789abcdef"[n]
  {
  }

  lemma HexInjective(a: Bytes, b: Bytes)
    requires Hex(a) == Hex(b)
    ensures a == b
  {
    FromHexOfHex(a);
    FromHexOfHex(b);
  }

  /** Printing of an image digest: `sha256:` and the hexadecimal digits. */
  function PrintDigest(d: Digest): Text {
    PREFIX + Hex(d)
  }

  datatype DigestError = WrongLength | WrongPrefix | HexDecodeError

  function ParseDigest(raw: Text): Result<Digest, DigestError> {
    if |raw| != |PREFIX| + 2 * SHA256_LEN then Err(WrongLength)
    else if raw[..|PREFIX|] != PREFIX then Err(WrongPrefix)
    else
      match FromHex(raw[|PREFIX|..])
      case Some(bytes) => Ok(bytes)
      case None => Err(HexDecodeError)
  }

  /** What a caller can check of a text without parsing it. */
  predicate LooksLikeDigest(raw: Text) {
    && |raw| == 71
    && "sha256:" <= raw
    && forall i | 7 <= i < 71 :: IsHexDigit(raw[i])
  }

  lemma ParseDefined(raw: Text)
    ensures ParseDigest(raw).Ok? <==> LooksLikeDigest(raw)
    ensures ParseDigest(raw) == Err(WrongLength) <==> |raw| != 71
    ensures ParseDigest(raw) == Err(WrongPrefix) <==> |raw| == 71 && !("sha256:" <= raw)
  {
    if |raw| == 71 && raw[..7] == PREFIX {
      FromHexDefined(raw[7..]);
      assert forall i | 7 <= i < 71 :: raw[7..][i - 7] == raw[i];
    }
  }

  lemma ParseOfPrint(d: Digest)
    ensures ParseDigest(PrintDigest(d)) == Ok(d)
  {
    FromHexOfHex(d);
    assert PrintDigest(d)[|PREFIX|..] == Hex(d);
  }

  /** Printing what was parsed gives the same text with its letters in lower case. */
  lemma PrintOfParse(raw: Text)
    requires ParseDigest(raw).Ok?
    ensures var printed := PrintDigest(ParseDigest(raw).value); SameLetters(raw, printed) && NoUpper(printed)
  {
    hide SameLetter, IsUpper;
    PrintIsLowered(raw);
    LoweredIsLower(raw);
  }

  lemma PrintIsLowered(raw: Text)
    requires ParseDigest(raw).Ok?
    ensures PrintDigest(ParseDigest(raw).value) == ToLower(raw)
  {
    HexOfFromHex(raw[7..]);
    assert raw == "sha256:" + raw[7..];
    assert forall i | 0 <= i < 7 :: LowerChar("sha256:"[i]) == "sha256:"[i];
  }

  datatype Reference = Tag(tag: Text) | ByDigest(digest: Digest)

  datatype ImageLocation = ImageLocation(repository: Text, image: Text)

  datatype ManifestReference = ManifestReference(location: ImageLocation, reference: Reference)

  function SerializeReference(r: Reference): Text {
    match r
    case Tag(tag) => tag
    case ByDigest(digest) => PrintDigest(digest)
  }

  function DeserializeReference(raw: Text): Reference {
    match ParseDigest(raw)
    case Ok(digest) => ByDigest(digest)
    case Err(_) => Tag(raw)
  }

  /** The display form, used for paths: a digest appears without its `sha256:` prefix. */
  function ShowReference(r: Reference): Text {
    match r
    case Tag(tag) => tag
    case ByDigest(digest) => Hex(digest)
  }

  /**
   Serialization is undone exactly for digests and for tags that do not look like one. It is the display
   form, which for a digest lacks the prefix.
   */
  lemma ReferenceRoundTrip(r: Reference)
    ensures DeserializeReference(SerializeReference(r)) == r <==> (r.Tag? ==> !LooksLikeDigest(r.tag))
    ensures SerializeReference(r) == (if r.Tag? then "" else "sha256:") + ShowReference(r)
    ensures r.Tag? ==> ShowReference(r) == r.tag
  {
    match r
    case Tag(tag) =>
      ParseDefined(tag);
      assert "" + tag == tag;
    case ByDigest(digest) => ParseOfPrint(digest);
  }

  /** Two texts name the same reference exactly when equal, or both are one digest up to letter case. */
  lemma DeserializeCollapses(a: Text, b: Text)
    ensures DeserializeReference(a) == DeserializeReference(b)
            <==> a == b || (LooksLikeDigest(a) && LooksLikeDigest(b) && SameLetters(a, b))
  {
    hide LooksLikeDigest, ParseDigest, PrintDigest, SameLetters;
    ParseDefined(a);
    ParseDefined(b);
    if LooksLikeDigest(a) && LooksLikeDigest(b) {
      PrintIsLowered(a);
      PrintIsLowered(b);
      LoweringIgnoresCase(a, b);
      ParseOfPrint(ParseDigest(a).value);
      ParseOfPrint(ParseDigest(b).value);
    }
  }
}
