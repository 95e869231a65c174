/**
 * `isTokenExpired` (src/utils/auth.js): read the `exp` claim of a JSON Web
 * Token without checking its signature. The token has the compact layout of
 * section 7.1 of RFC 7515 (header, payload and signature joined by '.'),
 * and `exp` is a NumericDate, in seconds, as in section 4.1.4 of RFC 7519.
 *
 * The code takes piece 1 of `token.split(".")`, decodes it with `atob` and
 * `JSON.parse`, and compares `Date.now()` (milliseconds) with `exp * 1000`.
 * Anything that throws counts as expired.
 */
module TokenInspector {
  import opened JsStrings
  import opened Base64

  /** What `JSON.parse` returns, reduced to what `isTokenExpired` reads: `null`
      (reading a property of it throws), or any other value with the integer
      its `exp` property coerces to, None when that coercion gives NaN (the
      property is absent, or the value is not an object). */
  datatype Payload = JsonNull | Value(exp: Option<int>)

  /** The two things the inspection takes from its environment: the clock
      (`Date.now()`, in milliseconds) and `JSON.parse` on the decoded bytes
      (None when it throws). */
  datatype Runtime = Runtime(nowMs: int, parseJson: seq<Byte> -> Option<Payload>)

  /** The argument `atob` receives: piece 1 of `token.split(".")`, or, when
      there is no such piece, `undefined`, which `atob` turns into the
      string "undefined". */
  function PayloadSegment(token: string): (r: string)
    ensures '.' !in token ==> r == "undefined"
    ensures '.' !in r
  {
    SplitSinglePiece(token, '.');
    var parts := Split(token, '.');
    if |parts| > 1 then parts[1] else "undefined"
  }

  /** The value of `JSON.parse(atob(token.split(".")[1]))`, None when either
      call throws. */
  function DecodePayload(token: string, parseJson: seq<Byte> -> Option<Payload>): (r: Option<Payload>)
    ensures '.' !in token ==> r == None
    ensures ('-' in PayloadSegment(token) || '_' in PayloadSegment(token)) ==> r == None
    ensures r.Some? ==> Atob(PayloadSegment(token)).Some? && r == parseJson(Atob(PayloadSegment(token)).value)
  {
    PayloadSegmentRejections(token);
    match Atob(PayloadSegment(token))
    case None => None
    case Some(bytes) => parseJson(bytes)
  }

  /** The two ways piece 1 fails to decode before `JSON.parse` is reached:
      there is no piece 1, or it is written in the URL-safe alphabet. */
  lemma {:induction false} PayloadSegmentRejections(token: string)
    ensures '.' !in token ==> Atob(PayloadSegment(token)) == None
    ensures ('-' in PayloadSegment(token) || '_' in PayloadSegment(token)) ==> Atob(PayloadSegment(token)) == None
  {
    if '.' !in token {
      SplitSinglePiece(token, '.');
      AtobOfUndefinedFails();
    }
    if '-' in PayloadSegment(token) || '_' in PayloadSegment(token) {
      AtobRejectsUrlSafe(PayloadSegment(token));
    }
  }

  /** `isTokenExpired(token)`. */
  function IsTokenExpired(token: string, rt: Runtime): (expired: bool)
    ensures DecodePayload(token, rt.parseJson) == None ==> expired
    ensures DecodePayload(token, rt.parseJson) == Some(JsonNull) ==> expired
    ensures DecodePayload(token, rt.parseJson) == Some(Value(None)) ==> !expired
    ensures forall e :: DecodePayload(token, rt.parseJson) == Some(Value(Some(e))) ==>
      (expired <==> rt.nowMs >= e * 1000)
  {
    match DecodePayload(token, rt.parseJson)
    case None => true
    case Some(JsonNull) => true
    case Some(Value(None)) => false
    case Some(Value(Some(exp))) => rt.nowMs >= exp * 1000
  }

  /** A token without a '.' has no piece 1, and `atob(undefined)` throws:
      such a token is expired. */
  lemma {:induction false} NoDotIsExpired(token: string, rt: Runtime)
    requires '.' !in token
    ensures IsTokenExpired(token, rt)
  {
    SplitSinglePiece(token, '.');
    AtobOfUndefinedFails();
  }

  /** A payload written in the URL-safe alphabet of section 5 of RFC 4648,
      as a JSON Web Token normally is, fails to decode as soon as it holds a
      '-' or '_': the token is then expired. */
  lemma {:induction false} UrlSafePayloadIsExpired(token: string, rt: Runtime)
    requires '-' in PayloadSegment(token) || '_' in PayloadSegment(token)
    ensures IsTokenExpired(token, rt)
  {
    AtobRejectsUrlSafe(PayloadSegment(token));
  }

  /** Only piece 1 is read: the header, the signature and any further
      pieces have no effect on the answer. */
  lemma {:induction false} OnlyPayloadSegmentMatters(h1: string, h2: string, p: string, rest1: string, rest2: string, rt: Runtime)
    requires '.' !in h1 && '.' !in h2 && '.' !in p
    requires rest1 == [] || rest1[0] == '.'
    requires rest2 == [] || rest2[0] == '.'
    ensures IsTokenExpired(h1 + "." + p + rest1, rt) == IsTokenExpired(h2 + "." + p + rest2, rt)
  {
    SplitSecondPiece(h1, p, rest1, '.');
    SplitSecondPiece(h2, p, rest2, '.');
  }

  /** A header, a standard-base64 payload and a signature joined by '.':
      the answer is read off the payload's `exp` alone, and the exact
      boundary instant already counts as expired. */
  lemma {:induction false} ExpiryOfWellFormedToken(header: string, payload: seq<Byte>, signature: string, exp: int, rt: Runtime)
    requires '.' !in header && '.' !in signature
    requires rt.parseJson(payload) == Some(Value(Some(exp)))
    ensures IsTokenExpired(header + "." + Btoa(payload) + "." + signature, rt) <==> rt.nowMs >= exp * 1000
    ensures rt.nowMs == exp * 1000 ==> IsTokenExpired(header + "." + Btoa(payload) + "." + signature, rt)
  {
    var seg := Btoa(payload);
    BtoaCharacters(payload);
    var rest := "." + signature;
    assert header + "." + seg + "." + signature == header + "." + seg + rest;
    SplitSecondPiece(header, seg, rest, '.');
    var token := header + "." + seg + "." + signature;
    assert PayloadSegment(token) == seg;
    AtobBtoa(payload);
    assert '-' !in seg && '_' !in seg;
    assert DecodePayload(token, rt.parseJson) == Some(Value(Some(exp)));
  }

  /** The same for a payload encoded without padding, as section 2 of
      RFC 7515 writes it, when its characters are all in the standard
      alphabet. */
  lemma {:induction false} ExpiryOfUnpaddedToken(header: string, payload: seq<Byte>, signature: string, exp: int, rt: Runtime)
    requires '.' !in header && '.' !in signature
    requires rt.parseJson(payload) == Some(Value(Some(exp)))
    ensures IsTokenExpired(header + "." + CharsOf(EncodeSextets(payload)) + "." + signature, rt) <==> rt.nowMs >= exp * 1000
  {
    var seg := CharsOf(EncodeSextets(payload));
    assert '.' !in seg by {
      forall i | 0 <= i < |seg| ensures seg[i] != '.' {
        assert InAlphabet(seg[i]);
      }
    }
    var rest := "." + signature;
    assert header + "." + seg + "." + signature == header + "." + seg + rest;
    SplitSecondPiece(header, seg, rest, '.');
    var token := header + "." + seg + "." + signature;
    assert PayloadSegment(token) == seg;
    AtobUnpadded(payload);
    assert DecodePayload(token, rt.parseJson) == Some(Value(Some(exp)));
  }

  /** A standard base64 encoding holds only alphabet characters and '=':
      no '.', so it is a single piece of a token. */
  lemma {:induction false} BtoaCharacters(payload: seq<Byte>)
    ensures forall i :: 0 <= i < |Btoa(payload)| ==> InAlphabet(Btoa(payload)[i]) || Btoa(payload)[i] == '='
    ensures '.' !in Btoa(payload)
  {
    var seg := Btoa(payload);
    var c := CharsOf(EncodeSextets(payload));
    forall i | 0 <= i < |seg| ensures InAlphabet(seg[i]) || seg[i] == '=' {
      if i < |c| {
        assert seg[i] == c[i];
      }
    }
  }

  /** Once expired, a token stays expired as the clock moves on. */
  lemma {:induction false} ExpiryIsMonotone(token: string, rt: Runtime, laterMs: int)
    requires rt.nowMs <= laterMs
    requires IsTokenExpired(token, rt)
    ensures IsTokenExpired(token, rt.(nowMs := laterMs))
  {
  }
}
