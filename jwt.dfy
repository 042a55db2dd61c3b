/** The client's local, untrusted reading of a session token (client/src/utils/jwt.js):
    base64url to base64, the three-segment check, and the expiry in milliseconds.
    `atob` followed by `JSON.parse` is the partial function `parse`, None wherever either
    would throw or the payload is `null`. */
module ClientJwt {
  import opened Wrappers
  import opened Strings

  /** The `exp` claim as `!payload?.exp` and `payload.exp * 1000` see it. `Falsy` when it is
      absent or falsy (`undefined`, `null`, `0`, `""`, `false`); otherwise `Truthy`, carrying
      `Number(exp)` when that is an integer (a numeric string such as "1700000000" included)
      and None when it is NaN or infinite (a string such as "soon"). A payload that is not an
      object has a `Falsy` claim. */
  datatype Exp = Falsy | Truthy(number: Option<int>)

  /** The only payload claim the client reads: `exp`, in seconds since the epoch. */
  datatype Payload = Payload(exp: Exp)

  /** What getTokenExpiryDate returns: `null`, a Date whose time value is NaN (an Invalid
      Date, which is truthy), or a valid Date at `ms` milliseconds since the epoch. */
  datatype Expiry = NoDate | InvalidDate | At(ms: int)

  /** The largest magnitude of a valid Date's time value (TimeClip, section 21.4.1.31 of
      ECMA-262): 8.64e15 ms. */
  const MaxTimeValue: int := 8_640_000_000_000_000

  /** The base64url-to-base64 character mapping. */
  function UrlToStdChar(c: char): char {
    if c == '-' then '+' else if c == '_' then '/' else c
  }

  /** `s.replace(/from/g, to)` for single characters. */
  function ReplaceAll(s: string, from: char, to: char): (r: string)
    ensures |r| == |s|
    ensures forall i :: 0 <= i < |s| ==> r[i] == (if s[i] == from then to else s[i])
    decreases |s|
  {
    if s == [] then [] else [if s[0] == from then to else s[0]] + ReplaceAll(s[1..], from, to)
  }

  /** `c.repeat(n)`. */
  function Repeat(c: char, n: nat): (r: string)
    ensures |r| == n
    ensures forall i :: 0 <= i < n ==> r[i] == c
  {
    if n == 0 then [] else [c] + Repeat(c, n - 1)
  }

  /** base64UrlToBase64: URL-safe characters back to the standard alphabet, then `=`
      padding up to a multiple of four. */
  function Base64UrlToBase64(s: string): (r: string)
    ensures |r| % 4 == 0
    ensures '-' !in r && '_' !in r
    ensures |s| % 4 == 0 ==> |r| == |s|
    ensures |s| % 4 != 0 ==> |r| == |s| + 4 - |s| % 4
    ensures forall i :: 0 <= i < |s| ==> r[i] == UrlToStdChar(s[i])
    ensures forall i :: |s| <= i < |r| ==> r[i] == '='
  {
    var b := ReplaceAll(ReplaceAll(s, '-', '+'), '_', '/');
    var pad := |b| % 4;
    var r := if pad != 0 then b + Repeat('=', 4 - pad) else b;
    assert forall i :: 0 <= i < |r| ==> r[i] != '-' && r[i] != '_';
    r
  }

  /** Drops trailing `=` padding. */
  function StripPadding(r: string): (u: string)
    ensures u == [] || u[|u| - 1] != '='
    decreases |r|
  {
    if r != [] && r[|r| - 1] == '=' then StripPadding(r[..|r| - 1]) else r
  }

  /** The inverse direction, base64 to base64url (reference definition only). */
  ghost function Base64ToBase64Url(r: string): string {
    ReplaceAll(ReplaceAll(StripPadding(r), '+', '-'), '/', '_')
  }

  lemma {:induction false} StripPaddingOfPadded(b: string, n: nat)
    requires b == [] || b[|b| - 1] != '='
    ensures StripPadding(b + Repeat('=', n)) == b
    decreases n
  {
    var r := b + Repeat('=', n);
    if n > 0 {
      assert r[..|r| - 1] == b + Repeat('=', n - 1);
      StripPaddingOfPadded(b, n - 1);
    } else {
      assert r == b;
    }
  }

  /** A base64url string (no `+`, `/` or `=`) survives the conversion and back. */
  lemma Base64UrlRoundTrip(s: string)
    requires forall i :: 0 <= i < |s| ==> s[i] != '+' && s[i] != '/' && s[i] != '='
    ensures Base64ToBase64Url(Base64UrlToBase64(s)) == s
  {
    var r := Base64UrlToBase64(s);
    var b := PaddedBody(s);
    StripPaddingOfPadded(b, |r| - |s|);
    MappedBack(s, b);
  }

  /** The converted string is the mapped characters followed by the padding, and the
      mapped part does not itself end in `=`. */
  lemma PaddedBody(s: string) returns (b: string)
    requires forall i :: 0 <= i < |s| ==> s[i] != '='
    ensures |b| == |s| && |Base64UrlToBase64(s)| >= |s|
    ensures Base64UrlToBase64(s) == b + Repeat('=', |Base64UrlToBase64(s)| - |s|)
    ensures b == [] || b[|b| - 1] != '='
    ensures forall i :: 0 <= i < |s| ==> b[i] == UrlToStdChar(s[i])
  {
    var r := Base64UrlToBase64(s);
    b := r[..|s|];
    assert r == b + Repeat('=', |r| - |s|);
    if b != [] {
      assert b[|b| - 1] == UrlToStdChar(s[|s| - 1]);
    }
  }

  /** Mapping `+` and `/` back undoes the character mapping on a string free of them. */
  lemma MappedBack(s: string, b: string)
    requires forall i :: 0 <= i < |s| ==> s[i] != '+' && s[i] != '/'
    requires |b| == |s| && forall i :: 0 <= i < |s| ==> b[i] == UrlToStdChar(s[i])
    ensures ReplaceAll(ReplaceAll(b, '+', '-'), '/', '_') == s
  {
    var back := ReplaceAll(ReplaceAll(b, '+', '-'), '/', '_');
    forall i | 0 <= i < |s| ensures back[i] == s[i] {
      assert b[i] == UrlToStdChar(s[i]);
    }
  }

  /** decodeJwt: None for the empty token, for anything that is not three dot-separated
      segments, and whenever the payload segment does not decode. */
  function DecodeJwt(token: string, parse: string -> Option<Payload>): (r: Option<Payload>)
    ensures token == "" ==> r.None?
    ensures Count(token, '.') != 2 ==> r.None?
    ensures Count(token, '.') == 2 ==> r == parse(Base64UrlToBase64(Split(token, '.')[1]))
  {
    if token == "" then None
    else
      var parts := Split(token, '.');
      if |parts| != 3 then None
      else parse(Base64UrlToBase64(parts[1]))
  }

  /** A well-formed token `header.payload.signature` decodes to what its middle segment
      parses to, after the base64url conversion. */
  lemma DecodeJwtOfSegments(header: string, payload: string, signature: string,
                            parse: string -> Option<Payload>)
    requires '.' !in header && '.' !in payload && '.' !in signature
    ensures DecodeJwt(header + "." + payload + "." + signature, parse)
            == parse(Base64UrlToBase64(payload))
  {
    var parts := [header, payload, signature];
    var token := header + "." + payload + "." + signature;
    assert Join(parts[2..], '.') == signature;
    assert Join(parts[1..], '.') == payload + "." + signature;
    assert Join(parts, '.') == token;
    JoinThenSplit(parts, '.');
  }

  /** getTokenExpiryDate: `null` when the payload does not decode or `exp` is falsy,
      otherwise `new Date(exp * 1000)`, invalid when that product is NaN or beyond the time
      value range. */
  function TokenExpiry(token: string, parse: string -> Option<Payload>): (r: Expiry)
    ensures !r.NoDate? ==> token != "" && Count(token, '.') == 2
    ensures r.NoDate? <==> DecodeJwt(token, parse).None? || DecodeJwt(token, parse).value.exp.Falsy?
    ensures r.At? <==> && DecodeJwt(token, parse).Some?
                       && DecodeJwt(token, parse).value.exp.Truthy?
                       && DecodeJwt(token, parse).value.exp.number.Some?
                       && -MaxTimeValue <= DecodeJwt(token, parse).value.exp.number.value * 1000
                            <= MaxTimeValue
    ensures r.At? ==> r.ms == DecodeJwt(token, parse).value.exp.number.value * 1000
    ensures r.At? ==> -MaxTimeValue <= r.ms <= MaxTimeValue && r.ms % 1000 == 0
  {
    var payload := DecodeJwt(token, parse);
    if payload.None? || payload.value.exp.Falsy? then NoDate
    else match payload.value.exp.number
      case None => InvalidDate
      case Some(e) => if -MaxTimeValue <= e * 1000 <= MaxTimeValue then At(e * 1000) else InvalidDate
  }

  /** The expiry of a well-formed token whose payload carries `exp`. */
  lemma TokenExpiryOfSegments(header: string, payload: string, signature: string, exp: Exp,
                              parse: string -> Option<Payload>)
    requires '.' !in header && '.' !in payload && '.' !in signature
    requires parse(Base64UrlToBase64(payload)) == Some(Payload(exp))
    ensures var r := TokenExpiry(header + "." + payload + "." + signature, parse);
            && (exp.Falsy? ==> r == NoDate)
            && (exp == Truthy(None) ==> r == InvalidDate)
            && (exp.Truthy? && exp.number.Some?
                && -MaxTimeValue <= exp.number.value * 1000 <= MaxTimeValue ==>
                  r == At(exp.number.value * 1000))
            && (exp.Truthy? && exp.number.Some? && MaxTimeValue < exp.number.value * 1000 ==>
                  r == InvalidDate)
  {
    DecodeJwtOfSegments(header, payload, signature, parse);
  }
}
