/**
 Basic authentication: base64 as section 4 of RFC 4648 has it, decoded strictly, and the
 parser of credentials of section 2 of RFC 7617.
 */
module BasicAuth {
  import opened Prelude

  const PAD: byte := '=' as int
  const COLON: byte := ':' as int

  // ---------- Base64 ----------

  function Digit(v: nat): byte
    requires v < 64
  {
    if v < 26 then 65 + v
    else if v < 52 then 97 + (v - 26)
    else if v < 62 then 48 + (v - 52)
    else if v == 62 then 43
    else 47
  }

  function Value(b: byte): (r: Option<nat>)
    ensures r.Some? ==> r.value < 64 && Digit(r.value) == b
  {
    if 65 <= b < 91 then Some(b - 65)
    else if 97 <= b < 123 then Some(b - 97 + 26)
    else if 48 <= b < 58 then Some(b - 48 + 52)
    else if b == 43 then Some(62)
    else if b == 47 then Some(63)
    else None
  }

  lemma ValueOfDigit(v: nat)
    requires v < 64
    ensures Value(Digit(v)) == Some(v) && Digit(v) != PAD && !IsAsciiWhitespace(Digit(v))
  {
  }

  function EncodeGroup(x: byte, y: byte, z: byte): (r: Bytes)
    ensures |r| == 4
  {
    [Digit(x / 4), Digit(x % 4 * 16 + y / 16), Digit(y % 16 * 4 + z / 64), Digit(z % 64)]
  }

  function Encode(b: Bytes): Bytes {
    if |b| == 0 then []
    else if |b| == 1 then [Digit(b[0] / 4), Digit(b[0] % 4 * 16), PAD, PAD]
    else if |b| == 2 then [Digit(b[0] / 4), Digit(b[0] % 4 * 16 + b[1] / 16), Digit(b[1] % 16 * 4), PAD]
    else EncodeGroup(b[0], b[1], b[2]) + Encode(b[3..])
  }

  /** Four digits without padding. */
  function DecodeGroup(t: Bytes): (r: Option<Bytes>)
    requires |t| == 4
    ensures r.Some? ==> |r.value| == 3
  {
    match (Value(t[0]), Value(t[1]), Value(t[2]), Value(t[3]))
    case (Some(a), Some(b), Some(c), Some(d)) => Some([a * 4 + b / 16, b % 16 * 16 + c / 4, c % 4 * 64 + d])
    case _ => None
  }

  /** A last group of two or three digits: padding must be there and unused bits must be zero. */
  function DecodePadded(t: Bytes): Option<Bytes>
    requires |t| == 4 && t[3] == PAD
  {
    match (Value(t[0]), Value(t[1]))
    case (Some(a), Some(b)) =>
      if t[2] == PAD then
        if b % 16 == 0 then Some([a * 4 + b / 16]) else None
      else
        (match Value(t[2])
         case Some(c) => if c % 4 == 0 then Some([a * 4 + b / 16, b % 16 * 16 + c / 4]) else None
         case None => None)
    case _ => None
  }

  function Decode(t: Bytes): Option<Bytes> {
    if t == [] then Some([])
    else if |t| < 4 then None
    else if |t| == 4 && t[3] == PAD then DecodePadded(t)
    else
      match (DecodeGroup(t[..4]), Decode(t[4..]))
      case (Some(group), Some(rest)) => Some(group + rest)
      case _ => None
  }

  /** Regrouping three times eight bits as four times six, and back. */
  lemma ByteBits(x: byte, y: byte, z: byte)
    ensures var a, b, c, d := x / 4, x % 4 * 16 + y / 16, y % 16 * 4 + z / 64, z % 64;
            && a < 64 && b < 64 && c < 64 && d < 64
            && a * 4 + b / 16 == x && b % 16 * 16 + c / 4 == y && c % 4 * 64 + d == z
  {
  }

  lemma GroupOfEncoded(x: byte, y: byte, z: byte)
    ensures DecodeGroup(EncodeGroup(x, y, z)) == Some([x, y, z]) && EncodeGroup(x, y, z)[3] != PAD
  {
    hide Digit, Value;
    ByteBits(x, y, z);
    ValueOfDigit(x / 4);
    ValueOfDigit(x % 4 * 16 + y / 16);
    ValueOfDigit(y % 16 * 4 + z / 64);
    ValueOfDigit(z % 64);
  }

  lemma PaddedOfEncoded(b: Bytes)
    requires 1 <= |b| <= 2
    ensures |Encode(b)| == 4 && Encode(b)[3] == PAD && DecodePadded(Encode(b)) == Some(b)
  {
    hide Digit, Value;
    ByteBits(b[0], if |b| == 1 then 0 else b[1], 0);
    ValueOfDigit(b[0] / 4);
    if |b| == 1 {
      ValueOfDigit(b[0] % 4 * 16);
      assert b == [b[0]];
    } else {
      ValueOfDigit(b[0] % 4 * 16 + b[1] / 16);
      ValueOfDigit(b[1] % 16 * 4);
      assert b == [b[0], b[1]];
    }
  }

  lemma {:induction false} DecodeOfEncode(b: Bytes)
    ensures Decode(Encode(b)) == Some(b)
  {
    hide EncodeGroup, DecodeGroup, DecodePadded;
    if |b| == 1 || |b| == 2 {
      PaddedOfEncoded(b);
    } else if |b| >= 3 {
      DecodeOfEncode(b[3..]);
      GroupOfEncoded(b[0], b[1], b[2]);
      var group := EncodeGroup(b[0], b[1], b[2]);
      assert Encode(b)[..4] == group && Encode(b)[4..] == Encode(b[3..]);
      assert Encode(b)[3] == group[3];
      assert b == [b[0], b[1], b[2]] + b[3..];
    }
  }

  /** Regrouping four times six bits as three times eight, and back. */
  lemma GroupBits(a: nat, b: nat, c: nat, d: nat)
    requires a < 64 && b < 64 && c < 64 && d < 64
    ensures var x, y, z := a * 4 + b / 16, b % 16 * 16 + c / 4, c % 4 * 64 + d;
            && x / 4 == a && x % 4 * 16 + y / 16 == b
            && y % 16 * 4 + z / 64 == c && z % 64 == d
  {
  }

  lemma EncodedOfGroup(t: Bytes)
    requires |t| == 4 && DecodeGroup(t).Some?
    ensures var g := DecodeGroup(t).value; EncodeGroup(g[0], g[1], g[2]) == t
  {
    hide Digit, Value;
    GroupBits(Value(t[0]).value, Value(t[1]).value, Value(t[2]).value, Value(t[3]).value);
    assert t == [t[0], t[1], t[2], t[3]];
  }

  lemma EncodedOfPadded(t: Bytes)
    requires |t| == 4 && t[3] == PAD && DecodePadded(t).Some?
    ensures Encode(DecodePadded(t).value) == t
  {
    hide Digit, Value;
    assert t == [t[0], t[1], t[2], t[3]];
    var a, b := Value(t[0]).value, Value(t[1]).value;
    if t[2] == PAD {
      GroupBits(a, b, 0, 0);
    } else {
      GroupBits(a, b, Value(t[2]).value, 0);
    }
  }

  lemma {:induction false} EncodeOfDecode(t: Bytes)
    requires Decode(t).Some?
    ensures Encode(Decode(t).value) == t
  {
    hide EncodeGroup, DecodeGroup, DecodePadded;
    if t != [] {
      if |t| == 4 && t[3] == PAD {
        EncodedOfPadded(t);
      } else {
        EncodeOfDecode(t[4..]);
        EncodedOfGroup(t[..4]);
        var group, rest := DecodeGroup(t[..4]).value, Decode(t[4..]).value;
        assert (group + rest)[3..] == rest;
        assert t == t[..4] + t[4..];
      }
    }
  }

  /** Each byte string has one encoding, and nothing else decodes to it. */
  lemma DecodeInvertsEncode(t: Bytes, b: Bytes)
    ensures Decode(t) == Some(b) <==> t == Encode(b)
  {
    DecodeOfEncode(b);
    if Decode(t).Some? {
      EncodeOfDecode(t);
    }
  }

  lemma {:induction false} EncodedHasNoWhitespace(b: Bytes)
    ensures forall i | 0 <= i < |Encode(b)| :: !IsAsciiWhitespace(Encode(b)[i])
    ensures b != [] ==> Encode(b) != []
  {
    hide Digit;
    forall v: nat | v < 64
      ensures !IsAsciiWhitespace(Digit(v))
    {
      ValueOfDigit(v);
    }
    if |b| >= 3 {
      EncodedHasNoWhitespace(b[3..]);
    }
  }

  /** Section 4 of RFC 4648. */
  const ALPHABET := "ABCDEFGHIJKLMNOPQRSTUVWXYZ" + "abcdefghijklmnopqrstuvwxyz" + "0123456789+/"

  lemma DigitIsOfAlphabet(v: nat)
    requires v < 64
    ensures Digit(v) == ALPHABET[v] as int
  {
    if v < 26 {
      assert ALPHABET[v] == "ABCDEFGHIJKLMNOPQRSTUVWXYZ"[v];
    } else if v < 52 {
      assert ALPHABET[v] == "abcdefghijklmnopqrstuvwxyz"[v - 26];
    } else {
      assert ALPHABET[v] == "0123456789+/"[v - 52];
    }
  }

  function Number(x: byte, y: byte, z: byte): nat {
    var a: int, b: int, c: int := x, y, z;
    a * 0x1_0000 + b * 0x100 + c
  }

  /** These four characters of the alphabet stand for a number of 24 bits, six bits each, the highest first. */
  ghost predicate StandsFor(t: Bytes, number: nat)
    requires |t| == 4
  {
    exists a: nat, b: nat, c: nat, d: nat {:trigger ALPHABET[a], ALPHABET[b], ALPHABET[c], ALPHABET[d]} ::
      && a < 64 && b < 64 && c < 64 && d < 64
      && t == [ALPHABET[a] as int, ALPHABET[b] as int, ALPHABET[c] as int, ALPHABET[d] as int]
      && number == a * 0x4_0000 + b * 0x1000 + c * 0x40 + d
  }

  lemma DigitsStandFor(a: nat, b: nat, c: nat, d: nat)
    requires a < 64 && b < 64 && c < 64 && d < 64
    ensures StandsFor([Digit(a), Digit(b), Digit(c), Digit(d)], a * 0x4_0000 + b * 0x1000 + c * 0x40 + d)
  {
    hide Digit;
    DigitIsOfAlphabet(a);
    DigitIsOfAlphabet(b);
    DigitIsOfAlphabet(c);
    DigitIsOfAlphabet(d);
  }

  /** Every three bytes are encoded as the number they make, read with the highest first. */
  lemma {:induction false} GroupsAreNumbers(b: Bytes, i: nat)
    requires 3 * i + 3 <= |b|
    ensures 4 * i + 4 <= |Encode(b)|
    ensures StandsFor(Encode(b)[4 * i..4 * i + 4], Number(b[3 * i], b[3 * i + 1], b[3 * i + 2]))
  {
    hide StandsFor, Digit, EncodeGroup;
    var group := EncodeGroup(b[0], b[1], b[2]);
    if i == 0 {
      GroupIsNumber(b[0], b[1], b[2]);
      assert Encode(b)[0..4] == group;
    } else {
      GroupsAreNumbers(b[3..], i - 1);
      assert Encode(b) == group + Encode(b[3..]);
      assert Encode(b)[4 * i..4 * i + 4] == Encode(b[3..])[4 * (i - 1)..4 * (i - 1) + 4];
    }
  }

  lemma GroupIsNumber(x: byte, y: byte, z: byte)
    ensures StandsFor(EncodeGroup(x, y, z), Number(x, y, z))
  {
    hide StandsFor, Digit;
    ByteBits(x, y, z);
    DigitsStandFor(x / 4, x % 4 * 16 + y / 16, y % 16 * 4 + z / 64, z % 64);
    assert x / 4 * 0x4_0000 + (x % 4 * 16 + y / 16) * 0x1000 + (y % 16 * 4 + z / 64) * 0x40 + z % 64
           == Number(x, y, z);
  }

  /** The last group, of one or two bytes: zeros follow them, and pad characters stand for the digits of those alone. */
  ghost predicate IsPadded(group: Bytes, last: Bytes)
    requires |group| == 4 && 1 <= |last| <= 2
  {
    if |last| == 1 then
      group[2..] == ['=' as int, '=' as int]
      && StandsFor(group[..2] + ['A' as int, 'A' as int], Number(last[0], 0, 0))
    else
      group[3] == '=' as int && StandsFor(group[..3] + ['A' as int], Number(last[0], last[1], 0))
  }

  lemma EncodeMore(x: byte, y: byte, z: byte, rest: Bytes)
    ensures Encode([x, y, z] + rest) == EncodeGroup(x, y, z) + Encode(rest)
  {
    assert ([x, y, z] + rest)[3..] == rest;
  }

  lemma EncodeNothing()
    ensures Encode([]) == []
  {
  }

  /** After whole groups, one or two last bytes are encoded as such a group. */
  lemma {:induction false} EndIsPadded(front: Bytes, groups: nat, last: Bytes)
    requires |front| == 3 * groups && 1 <= |last| <= 2
    ensures var n := |Encode(front)|;
            && |Encode(front + last)| == n + 4
            && Encode(front + last)[..n] == Encode(front) && IsPadded(Encode(front + last)[n..], last)
  {
    hide IsPadded, EncodeGroup, Encode;
    if groups == 0 {
      EncodeNothing();
      LastGroup(last);
      assert front + last == last && Encode(last)[0..] == Encode(last);
    } else {
      var rest := front[3..];
      EndIsPadded(rest, groups - 1, last);
      EncodeMore(front[0], front[1], front[2], rest);
      EncodeMore(front[0], front[1], front[2], rest + last);
      assert front == [front[0], front[1], front[2]] + rest;
      assert front + last == [front[0], front[1], front[2]] + (rest + last);
      assert Encode(front + last)[|Encode(front)|..] == Encode(rest + last)[|Encode(rest)|..];
    }
  }

  lemma ZeroIsA()
    ensures Digit(0) == 'A' as int
  {
  }

  lemma LastGroup(b: Bytes)
    requires 1 <= |b| <= 2
    ensures |Encode(b)| == 4 && IsPadded(Encode(b), b)
  {
    hide Digit, StandsFor;
    var group := EncodeGroup(b[0], if |b| == 1 then 0 else b[1], 0);
    GroupIsNumber(b[0], if |b| == 1 then 0 else b[1], 0);
    ZeroIsA();
    if |b| == 1 {
      assert Encode(b)[..2] + ['A' as int, 'A' as int] == group;
    } else {
      assert Encode(b)[..3] + ['A' as int] == group;
    }
  }

  // ---------- The parser ----------

  datatype Credentials = Credentials(username: Bytes, password: Bytes)

  predicate IsSpace(b: byte) {
    b == ' ' as int || b == '\t' as int
  }

  predicate IsAsciiWhitespace(b: byte) {
    b == ' ' as int || b == '\t' as int || b == '\n' as int || b == 12 || b == '\r' as int
  }

  function SkipWhitespace(input: Bytes): Bytes {
    if input != [] && IsSpace(input[0]) then SkipWhitespace(input[1..]) else input
  }

  function LowerByte(b: byte): byte {
    if 65 <= b < 91 then b + 32 else b
  }

  /** "basic" */
  const SCHEME: Bytes := [98, 97, 115, 105, 99]

  predicate IsScheme(tag: Bytes) {
    |tag| == 5 && forall i | 0 <= i < 5 :: LowerByte(tag[i]) == SCHEME[i]
  }

  function StripScheme(input: Bytes): Option<Bytes> {
    if |input| >= 5 && IsScheme(input[..5]) then Some(input[5..]) else None
  }

  function TokenLength(input: Bytes): (n: nat)
    ensures n <= |input|
  {
    if input == [] || IsAsciiWhitespace(input[0]) then 0 else 1 + TokenLength(input[1..])
  }

  function ColonPosition(b: Bytes): (r: Option<nat>)
    ensures r.None? <==> COLON !in b
    ensures r.Some? ==> r.value < |b| && b[r.value] == COLON && COLON !in b[..r.value]
  {
    if b == [] then None
    else if b[0] == COLON then Some(0)
    else
      match ColonPosition(b[1..])
      case None => None
      case Some(i) =>
        assert b[..i + 1] == [b[0]] + b[1..][..i];
        Some(i + 1)
  }

  function SplitCredentials(raw: Bytes): Credentials {
    match ColonPosition(raw)
    case Some(i) => Credentials(raw[..i], raw[i + 1..])
    case None => Credentials(raw, [])
  }

  /** The unread rest of the input and the credentials. */
  function BasicAuthResponse(input: Bytes): Option<(Bytes, Credentials)> {
    match StripScheme(SkipWhitespace(input))
    case None => None
    case Some(afterScheme) =>
      var text := SkipWhitespace(afterScheme);
      var n := TokenLength(text);
      if n == 0 then None
      else
        match Decode(text[..n])
        case None => None
        case Some(raw) => Some((text[n..], SplitCredentials(raw)))
  }

  // ---------- What the parser accepts ----------

  predicate Blank(s: Bytes) {
    forall i | 0 <= i < |s| :: s[i] == ' ' as int || s[i] == '\t' as int
  }

  /** "basic" with each letter in either case. */
  predicate SpellsBasic(scheme: Bytes) {
    |scheme| == 5 && forall i | 0 <= i < 5 :: scheme[i] == "basic"[i] as int || scheme[i] == "BASIC"[i] as int
  }

  lemma SchemeSpellsBasic(scheme: Bytes)
    ensures IsScheme(scheme) <==> SpellsBasic(scheme)
  {
    if |scheme| == 5 {
      forall i | 0 <= i < 5
        ensures LowerByte(scheme[i]) == SCHEME[i]
                <==> scheme[i] == "basic"[i] as int || scheme[i] == "BASIC"[i] as int
      {
      }
    }
  }

  /** The user name ends at the first colon; without one it is everything and the password is empty. */
  predicate Denotes(raw: Bytes, c: Credentials) {
    && ':' as int !in c.username
    && (raw == c.username + [':' as int] + c.password || (raw == c.username && c.password == []))
  }

  lemma SplitIsDenoted(raw: Bytes, c: Credentials)
    ensures SplitCredentials(raw) == c <==> Denotes(raw, c)
  {
    var position := ColonPosition(raw);
    if position.Some? {
      var i := position.value;
      assert raw == raw[..i] + [COLON] + raw[i + 1..];
      if Denotes(raw, c) && raw == c.username + [COLON] + c.password {
        ColonIsUnique(raw, c.username, c.password, i);
      }
    } else {
      assert (c.username + [COLON] + c.password)[|c.username|] == COLON;
    }
  }

  lemma ColonIsUnique(raw: Bytes, front: Bytes, back: Bytes, i: nat)
    requires raw == front + [COLON] + back && COLON !in front
    requires i < |raw| && raw[i] == COLON && COLON !in raw[..i]
    ensures front == raw[..i] && back == raw[i + 1..]
  {
    assert raw[|front|] == COLON;
    assert forall k | 0 <= k < |front| :: raw[k] == front[k];
    assert forall k | 0 <= k < i :: raw[k] == raw[..i][k];
  }

  /** Optional blanks, the scheme in any letter case, optional blanks, one base64 token, then whitespace or nothing. */
  ghost predicate IsResponse(input: Bytes, lead: Bytes, scheme: Bytes, gap: Bytes, raw: Bytes, rest: Bytes) {
    && input == lead + (scheme + (gap + (Encode(raw) + rest)))
    && Blank(lead) && SpellsBasic(scheme) && Blank(gap) && raw != []
    && (rest == [] || rest[0] in [' ' as int, '\t' as int, '\n' as int, 12, '\r' as int])
  }

  ghost predicate Accepts(input: Bytes, rest: Bytes, c: Credentials) {
    exists lead, scheme, gap, raw :: IsResponse(input, lead, scheme, gap, raw, rest) && Denotes(raw, c)
  }

  lemma {:induction false} SkipExactly(lead: Bytes, rest: Bytes)
    requires Blank(lead) && (rest == [] || !IsSpace(rest[0]))
    ensures SkipWhitespace(lead + rest) == rest
  {
    if lead == [] {
      assert lead + rest == rest;
    } else {
      assert (lead + rest)[1..] == lead[1..] + rest;
      SkipExactly(lead[1..], rest);
    }
  }

  lemma {:induction false} Skipped(input: Bytes) returns (lead: Bytes)
    ensures input == lead + SkipWhitespace(input) && Blank(lead)
  {
    lead := [];
    if input != [] && IsSpace(input[0]) {
      var more := Skipped(input[1..]);
      lead := [input[0]] + more;
      assert input == [input[0]] + input[1..];
    }
  }

  lemma {:induction false} TokenExactly(token: Bytes, rest: Bytes)
    requires forall i | 0 <= i < |token| :: !IsAsciiWhitespace(token[i])
    requires rest == [] || IsAsciiWhitespace(rest[0])
    ensures TokenLength(token + rest) == |token|
  {
    if token == [] {
      assert token + rest == rest;
    } else {
      assert (token + rest)[1..] == token[1..] + rest;
      TokenExactly(token[1..], rest);
    }
  }

  lemma {:induction false} TokenEnds(input: Bytes)
    ensures var n := TokenLength(input); n == |input| || IsAsciiWhitespace(input[n])
  {
    if input != [] && !IsAsciiWhitespace(input[0]) {
      TokenEnds(input[1..]);
    }
  }

  lemma ParserIsComplete(input: Bytes, lead: Bytes, scheme: Bytes, gap: Bytes, raw: Bytes, rest: Bytes)
    requires IsResponse(input, lead, scheme, gap, raw, rest)
    ensures BasicAuthResponse(input) == Some((rest, SplitCredentials(raw)))
  {
    hide Encode, Decode, SplitCredentials, SpellsBasic;
    SchemeSpellsBasic(scheme);
    var token := Encode(raw);
    EncodedHasNoWhitespace(raw);
    var afterScheme := gap + (token + rest);
    assert LowerByte(scheme[0]) == SCHEME[0];
    SkipExactly(lead, scheme + afterScheme);
    assert (scheme + afterScheme)[..5] == scheme && (scheme + afterScheme)[5..] == afterScheme;
    assert (token + rest)[0] == token[0];
    SkipExactly(gap, token + rest);
    TokenExactly(token, rest);
    assert (token + rest)[..|token|] == token && (token + rest)[|token|..] == rest;
    DecodeInvertsEncode(token, raw);
  }

  lemma ParserIsSound(input: Bytes)
    requires BasicAuthResponse(input).Some?
    ensures var (rest, c) := BasicAuthResponse(input).value;
            exists lead, scheme, gap, raw ::
              IsResponse(input, lead, scheme, gap, raw, rest) && c == SplitCredentials(raw)
  {
    hide Encode, Decode, SplitCredentials, SpellsBasic;
    var trimmed := SkipWhitespace(input);
    var lead := Skipped(input);
    var scheme, afterScheme := trimmed[..5], trimmed[5..];
    SchemeSpellsBasic(scheme);
    assert trimmed == scheme + afterScheme;
    var text := SkipWhitespace(afterScheme);
    var gap := Skipped(afterScheme);
    var n := TokenLength(text);
    TokenEnds(text);
    var token, rest := text[..n], text[n..];
    assert text == token + rest;
    var raw := Decode(token).value;
    DecodeInvertsEncode(token, raw);
    assert raw != [] by {
      EncodeNothing();
    }
    assert IsResponse(input, lead, scheme, gap, raw, rest);
  }

  /** The parser accepts exactly the responses, and yields exactly what they denote. */
  lemma ParserMeetsGrammar(input: Bytes, rest: Bytes, c: Credentials)
    ensures BasicAuthResponse(input) == Some((rest, c)) <==> Accepts(input, rest, c)
  {
    hide BasicAuthResponse, IsResponse, SplitCredentials, Denotes;
    if BasicAuthResponse(input) == Some((rest, c)) {
      ParserIsSound(input);
      var lead, scheme, gap, raw :| IsResponse(input, lead, scheme, gap, raw, rest) && c == SplitCredentials(raw);
      SplitIsDenoted(raw, c);
    }
    if Accepts(input, rest, c) {
      var lead, scheme, gap, raw :| IsResponse(input, lead, scheme, gap, raw, rest) && Denotes(raw, c);
      ParserIsComplete(input, lead, scheme, gap, raw, rest);
      SplitIsDenoted(raw, c);
    }
  }

  /** "Basic " */
  const HEADER: Bytes := [66, 97, 115, 105, 99, 32]

  function HeaderFor(username: Bytes, password: Bytes): Bytes {
    HEADER + Encode(username + [COLON] + password)
  }

  /** A user name and password come back from their header exactly when the user name has no colon. */
  lemma CredentialsRoundTrip(username: Bytes, password: Bytes)
    ensures HeaderFor(username, password)
            == ['B' as int, 'a' as int, 's' as int, 'i' as int, 'c' as int, ' ' as int]
               + Encode(username + [':' as int] + password)
    ensures BasicAuthResponse(HeaderFor(username, password)) == Some(([], Credentials(username, password)))
            <==> ':' as int !in username
  {
    hide BasicAuthResponse, Encode, SplitCredentials;
    var raw := username + [COLON] + password;
    var scheme: Bytes, gap: Bytes := [66, 97, 115, 105, 99], [32];
    assert HEADER == scheme + gap;
    assert HeaderFor(username, password) == [] + (scheme + (gap + (Encode(raw) + [])));
    ParserIsComplete(HeaderFor(username, password), [], scheme, gap, raw, []);
    SplitIsDenoted(raw, Credentials(username, password));
  }

  lemma KnownGroups()
    ensures EncodeGroup(97, 108, 97) == [89, 87, 120, 104] && EncodeGroup(100, 100, 105) == [90, 71, 82, 112]
    ensures EncodeGroup(110, 58, 111) == [98, 106, 112, 118] && EncodeGroup(112, 101, 110) == [99, 71, 86, 117]
    ensures EncodeGroup(115, 101, 115) == [99, 50, 86, 122] && EncodeGroup(97, 109, 101) == [89, 87, 49, 108]
  {
  }

  /** `aladdin:opensesame` is encoded as `YWxhZGRpbjpvcGVuc2VzYW1l`. */
  lemma KnownEncoding()
    ensures Encode([97, 108, 97] + ([100, 100, 105] + ([110, 58, 111] + ([112, 101, 110] + ([115, 101, 115]
                   + ([97, 109, 101] + []))))))
            == [89, 87, 120, 104] + ([90, 71, 82, 112] + ([98, 106, 112, 118] + ([99, 71, 86, 117]
               + ([99, 50, 86, 122] + ([89, 87, 49, 108] + [])))))
  {
    hide Encode, EncodeGroup;
    KnownGroups();
    var e: Bytes := [97, 109, 101] + [];
    var d: Bytes := [115, 101, 115] + e;
    var c: Bytes := [112, 101, 110] + d;
    var b: Bytes := [110, 58, 111] + c;
    EncodeNothing();
    EncodeMore(97, 109, 101, []);
    EncodeMore(115, 101, 115, e);
    EncodeMore(112, 101, 110, d);
    EncodeMore(110, 58, 111, c);
    EncodeMore(100, 100, 105, b);
    EncodeMore(97, 108, 97, [100, 100, 105] + b);
  }

  /** `Basic YWxhZGRpbjpvcGVuc2VzYW1l` is from user `aladdin` with password `opensesame`. */
  lemma KnownResponse()
    ensures BasicAuthResponse([66, 97, 115, 105, 99, 32, 89, 87, 120, 104, 90, 71, 82, 112, 98, 106, 112, 118, 99, 71, 86,
                               117, 99, 50, 86, 122, 89, 87, 49, 108])
            == Some(([], Credentials([97, 108, 97, 100, 100, 105, 110],
                                     [111, 112, 101, 110, 115, 101, 115, 97, 109, 101])))
  {
    hide BasicAuthResponse, Encode, HeaderFor;
    var username: Bytes := [97, 108, 97, 100, 100, 105, 110];
    var password: Bytes := [111, 112, 101, 110, 115, 101, 115, 97, 109, 101];
    KnownEncoding();
    assert username + [':' as int] + password
           == [97, 108, 97] + ([100, 100, 105] + ([110, 58, 111] + ([112, 101, 110] + ([115, 101, 115]
              + ([97, 109, 101] + [])))));
    CredentialsRoundTrip(username, password);
    assert ':' as int !in username;
    assert HeaderFor(username, password)
           == [66, 97, 115, 105, 99, 32, 89, 87, 120, 104, 90, 71, 82, 112, 98, 106, 112, 118, 99, 71, 86, 117, 99, 50, 86,
               122, 89, 87, 49, 108];
  }
}
