/**
 * `atob`: browsers decode its argument with the forgiving-base64 decode of
 * the WHATWG Infra Standard. It removes ASCII whitespace, drops one or two
 * trailing '=' when the length is a multiple of four, refuses a length that
 * leaves remainder 1, refuses any character outside the alphabet of
 * section 4 of RFC 4648 ('A'-'Z', 'a'-'z', '0'-'9', '+', '/'), and turns each
 * character into six bits, dropping the leftover bits of a partial group.
 * The URL-safe alphabet of section 5 of RFC 4648 ('-', '_') is NOT accepted.
 *
 * The encoder (`Btoa`) is here only as the decoder's partner: decoding undoes
 * it.
 */
module Base64 {
  import opened JsStrings

  type Byte = b: int | 0 <= b < 256
  type Sextet = v: int | 0 <= v < 64

  /** Tab, line feed, form feed, carriage return and space. */
  predicate IsAsciiWhitespace(c: char) {
    c == 9 as char || c == 10 as char || c == 12 as char || c == 13 as char || c == ' '
  }

  /** The 64 characters of the standard base64 alphabet. */
  predicate InAlphabet(c: char) {
    'A' <= c <= 'Z' || 'a' <= c <= 'z' || '0' <= c <= '9' || c == '+' || c == '/'
  }

  predicate AllInAlphabet(s: string) {
    forall i :: 0 <= i < |s| ==> InAlphabet(s[i])
  }

  /** The six-bit value a character of the alphabet stands for. */
  function SextetOf(c: char): Sextet
    requires InAlphabet(c)
  {
    if 'A' <= c <= 'Z' then c as int - 'A' as int
    else if 'a' <= c <= 'z' then c as int - 'a' as int + 26
    else if '0' <= c <= '9' then c as int - '0' as int + 52
    else if c == '+' then 62
    else 63
  }

  /** The character of the alphabet that stands for a six-bit value. */
  function CharOf(v: Sextet): (c: char)
    ensures InAlphabet(c) && SextetOf(c) == v
  {
    if v < 26 then ('A' as int + v) as char
    else if v < 52 then ('a' as int + v - 26) as char
    else if v < 62 then ('0' as int + v - 52) as char
    else if v == 62 then '+'
    else '/'
  }

  /** Step 1 of the decode: remove all ASCII whitespace. */
  function RemoveWhitespace(s: string): (r: string)
    ensures |r| <= |s|
    ensures forall c :: c in r <==> c in s && !IsAsciiWhitespace(c)
  {
    if s == [] then []
    else if IsAsciiWhitespace(s[0]) then RemoveWhitespace(s[1..])
    else [s[0]] + RemoveWhitespace(s[1..])
  }

  /** Step 1 works character by character: a whitespace character goes,
      any other stays. */
  lemma {:induction false} RemoveWhitespaceOne(c: char)
    ensures IsAsciiWhitespace(c) ==> RemoveWhitespace([c]) == []
    ensures !IsAsciiWhitespace(c) ==> RemoveWhitespace([c]) == [c]
  {
    assert [c][1..] == [];
  }

  /** Step 1 keeps the order of what it keeps: it distributes over
      concatenation. */
  lemma {:induction false} RemoveWhitespaceAppend(a: string, b: string)
    ensures RemoveWhitespace(a + b) == RemoveWhitespace(a) + RemoveWhitespace(b)
  {
    if a != [] {
      assert (a + b)[1..] == a[1..] + b;
      RemoveWhitespaceAppend(a[1..], b);
    } else {
      assert a + b == b;
    }
  }

  /** Step 2 of the decode: when the length is a multiple of four, drop one
      or two trailing '='. */
  function StripPadding(s: string): (r: string)
    ensures |r| <= |s| && r == s[..|r|]
    ensures forall i :: |r| <= i < |s| ==> s[i] == '='
  {
    if |s| % 4 == 0 && |s| >= 2 && s[|s| - 2] == '=' && s[|s| - 1] == '=' then s[..|s| - 2]
    else if |s| % 4 == 0 && |s| >= 1 && s[|s| - 1] == '=' then s[..|s| - 1]
    else s
  }

  /** The six-bit values of a string of alphabet characters. */
  function Sextets(d: string): (v: seq<Sextet>)
    requires AllInAlphabet(d)
    ensures |v| == |d|
  {
    seq(|d|, i requires 0 <= i < |d| => SextetOf(d[i]))
  }

  /** How many bytes `n` characters decode to: three per full group of four,
      one for a trailing pair, two for a trailing triple. */
  function DecodedLength(n: nat): nat {
    n / 4 * 3 + (if n % 4 == 0 then 0 else n % 4 - 1)
  }

  /** The byte made of the six bits of `a` and the top two bits of `b`. */
  function FirstByte(a: Sextet, b: Sextet): Byte {
    (a as int) * 4 + (b as int) / 16
  }

  /** The byte made of the low four bits of `b` and the top four of `c`. */
  function SecondByte(b: Sextet, c: Sextet): Byte {
    ((b as int) % 16) * 16 + (c as int) / 4
  }

  /** The byte made of the low two bits of `c` and the six bits of `d`. */
  function ThirdByte(c: Sextet, d: Sextet): Byte {
    ((c as int) % 4) * 64 + (d as int)
  }

  /** Steps 5 and 6 of the decode: pack the six-bit values into bytes. */
  function DecodeSextets(v: seq<Sextet>): (r: seq<Byte>)
    requires |v| % 4 != 1
    ensures |r| == DecodedLength(|v|)
  {
    if |v| == 0 then []
    else if |v| == 2 then [FirstByte(v[0], v[1])]
    else if |v| == 3 then [FirstByte(v[0], v[1]), SecondByte(v[1], v[2])]
    else [FirstByte(v[0], v[1]), SecondByte(v[1], v[2]), ThirdByte(v[2], v[3])]
         + DecodeSextets(v[4..])
  }

  /** `atob(data)`; None is the InvalidCharacterError it throws. The
      number of bytes is fixed by the number of characters left once the
      whitespace and the padding are gone. */
  function Atob(data: string): (r: Option<seq<Byte>>)
    ensures r.Some? ==> |r.value| == DecodedLength(|StripPadding(RemoveWhitespace(data))|)
    ensures |StripPadding(RemoveWhitespace(data))| % 4 == 1 ==> r.None?
  {
    var d := StripPadding(RemoveWhitespace(data));
    if |d| % 4 == 1 || !AllInAlphabet(d) then None
    else Some(DecodeSextets(Sextets(d)))
  }

  /** A character that is neither whitespace, nor '=', nor in the alphabet
      makes `atob` fail, wherever it stands. */
  lemma {:induction false} AtobRejectsForeignCharacter(data: string, c: char)
    requires c in data && !IsAsciiWhitespace(c) && c != '=' && !InAlphabet(c)
    ensures Atob(data) == None
  {
    var w := RemoveWhitespace(data);
    var d := StripPadding(w);
    var k :| 0 <= k < |w| && w[k] == c;
    assert k < |d| && d[k] == c;
  }

  /** The URL-safe characters of section 5 of RFC 4648 make `atob` fail. */
  lemma {:induction false} AtobRejectsUrlSafe(data: string)
    requires '-' in data || '_' in data
    ensures Atob(data) == None
  {
    if '-' in data {
      AtobRejectsForeignCharacter(data, '-');
    } else {
      AtobRejectsForeignCharacter(data, '_');
    }
  }

  /** A string without whitespace is left alone by step 1. */
  lemma {:induction false} RemoveWhitespaceNone(s: string)
    requires forall i :: 0 <= i < |s| ==> !IsAsciiWhitespace(s[i])
    ensures RemoveWhitespace(s) == s
  {
    if s != [] {
      RemoveWhitespaceNone(s[1..]);
      assert [s[0]] + s[1..] == s;
    }
  }

  /** A string without whitespace whose length leaves remainder 1 when
      divided by four is rejected: no padding can be stripped from it. */
  lemma {:induction false} AtobRejectsRemainderOne(s: string)
    requires forall i :: 0 <= i < |s| ==> !IsAsciiWhitespace(s[i])
    requires |s| % 4 == 1
    ensures Atob(s) == None
  {
    RemoveWhitespaceNone(s);
  }

  /** `atob(undefined)` decodes the nine characters "undefined" and fails,
      because nine leaves remainder 1 when divided by four. */
  lemma {:induction false} AtobOfUndefinedFails()
    ensures Atob("undefined") == None
  {
    var u := "undefined";
    assert |u| == 9;
    AtobRejectsRemainderOne(u);
  }

  /** The four six-bit values that encode the bytes `x`, `y`, `z`. */
  function EncodeGroup(x: Byte, y: Byte, z: Byte): (v: seq<Sextet>)
    ensures |v| == 4
  {
    [(x as int) / 4, ((x as int) % 4) * 16 + (y as int) / 16,
     ((y as int) % 16) * 4 + (z as int) / 64, (z as int) % 64]
  }

  /** The six-bit values `Btoa` writes before any padding. */
  function EncodeSextets(b: seq<Byte>): seq<Sextet> {
    if |b| == 0 then []
    else if |b| == 1 then EncodeGroup(b[0], 0, 0)[..2]
    else if |b| == 2 then EncodeGroup(b[0], b[1], 0)[..3]
    else EncodeGroup(b[0], b[1], b[2]) + EncodeSextets(b[3..])
  }

  /** Four values per full group of three bytes, then two for one byte
      left over and three for two. */
  lemma {:induction false} EncodeSextetsLength(b: seq<Byte>)
    ensures |b| % 3 == 0 ==> |EncodeSextets(b)| % 4 == 0
    ensures |b| % 3 == 1 ==> |EncodeSextets(b)| % 4 == 2
    ensures |b| % 3 == 2 ==> |EncodeSextets(b)| % 4 == 3
  {
    if |b| >= 3 {
      EncodeSextetsStep(b);
      EncodeSextetsLength(b[3..]);
    }
  }

  function CharsOf(v: seq<Sextet>): (s: string)
    ensures |s| == |v| && AllInAlphabet(s)
  {
    seq(|v|, i requires 0 <= i < |v| => CharOf(v[i]))
  }

  /** The '=' that pad a final group of `rem` bytes to four characters. */
  function Padding(rem: nat): string {
    if rem == 1 then "==" else if rem == 2 then "=" else ""
  }

  /** Standard base64 encoding with padding (the encoder `btoa` runs). */
  function Btoa(b: seq<Byte>): (s: string)
    ensures |s| % 4 == 0
  {
    EncodeSextetsLength(b);
    CharsOf(EncodeSextets(b)) + Padding(|b| % 3)
  }

  /** A full group in front is decoded on its own. */
  lemma {:induction false} DecodeFullGroup(g: seq<Sextet>, rest: seq<Sextet>)
    requires |g| == 4 && |rest| % 4 != 1
    ensures DecodeSextets(g + rest) ==
      [FirstByte(g[0], g[1]), SecondByte(g[1], g[2]), ThirdByte(g[2], g[3])] + DecodeSextets(rest)
  {
    assert (g + rest)[4..] == rest;
  }

  /** Packing the values `EncodeSextets` writes gives back the bytes. */
  lemma {:induction false} DecodeEncodeSextets(b: seq<Byte>)
    ensures |EncodeSextets(b)| % 4 != 1
    ensures DecodeSextets(EncodeSextets(b)) == b
  {
    EncodeSextetsLength(b);
    if |b| >= 3 {
      var g, tail := EncodeGroup(b[0], b[1], b[2]), EncodeSextets(b[3..]);
      EncodeSextetsStep(b);
      DecodeEncodeSextets(b[3..]);
      DecodeFullGroup(g, tail);
      GroupRoundTrip(b[0], b[1], b[2]);
      calc {
        DecodeSextets(EncodeSextets(b));
        DecodeSextets(g + tail);
        [FirstByte(g[0], g[1]), SecondByte(g[1], g[2]), ThirdByte(g[2], g[3])] + DecodeSextets(tail);
        [b[0], b[1], b[2]] + b[3..];
        b;
      }
    } else {
      DecodeShortEncoding(b);
    }
  }

  /** Three or more bytes: a full group of four values, then the rest. */
  lemma {:induction false} EncodeSextetsStep(b: seq<Byte>)
    requires |b| >= 3
    ensures EncodeSextets(b) == EncodeGroup(b[0], b[1], b[2]) + EncodeSextets(b[3..])
  {
  }

  /** The three bytes of a group come back from its four values. */
  lemma {:induction false} GroupRoundTrip(x: Byte, y: Byte, z: Byte)
    ensures var g := EncodeGroup(x, y, z);
      FirstByte(g[0], g[1]) == x && SecondByte(g[1], g[2]) == y && ThirdByte(g[2], g[3]) == z
  {
  }

  /** The final one or two bytes come back from their two or three values. */
  lemma {:induction false} DecodeShortEncoding(b: seq<Byte>)
    requires |b| < 3
    ensures |EncodeSextets(b)| % 4 != 1
    ensures DecodeSextets(EncodeSextets(b)) == b
  {
    if |b| == 2 {
      DecodeTwoBytes(b[0], b[1]);
      assert b == [b[0], b[1]];
    } else if |b| == 1 {
      DecodeOneByte(b[0]);
      assert b == [b[0]];
    }
  }

  lemma {:induction false} DecodeTwoBytes(x: Byte, y: Byte)
    ensures DecodeSextets(EncodeSextets([x, y])) == [x, y]
  {
    var g := EncodeGroup(x, y, 0);
    var v := EncodeSextets([x, y]);
    assert v == g[..3];
    GroupRoundTrip(x, y, 0);
    calc {
      DecodeSextets(v);
      [FirstByte(v[0], v[1]), SecondByte(v[1], v[2])];
      [FirstByte(g[0], g[1]), SecondByte(g[1], g[2])];
      [x, y];
    }
  }

  lemma {:induction false} DecodeOneByte(x: Byte)
    ensures DecodeSextets(EncodeSextets([x])) == [x]
  {
    var g := EncodeGroup(x, 0, 0);
    var v := EncodeSextets([x]);
    assert v == g[..2];
    GroupRoundTrip(x, 0, 0);
    calc {
      DecodeSextets(v);
      [FirstByte(v[0], v[1])];
      [FirstByte(g[0], g[1])];
      [x];
    }
  }

  /** Reading back the characters `CharsOf` writes gives the values. */
  lemma {:induction false} SextetsOfChars(v: seq<Sextet>)
    ensures Sextets(CharsOf(v)) == v
  {
    var s := CharsOf(v);
    assert forall i :: 0 <= i < |v| ==> Sextets(s)[i] == v[i];
  }

  /** Steps 1 and 2 of the decode strip exactly the padding `Btoa` adds. */
  lemma {:induction false} StripBtoa(b: seq<Byte>)
    ensures StripPadding(RemoveWhitespace(Btoa(b))) == CharsOf(EncodeSextets(b))
  {
    var c := CharsOf(EncodeSextets(b));
    EncodeSextetsLength(b);
    PaddedHasNoWhitespace(c, |b| % 3);
    RemoveWhitespaceNone(Btoa(b));
    StripAddedPadding(c, |b| % 3);
  }

  /** Alphabet characters followed by padding hold no whitespace. */
  lemma {:induction false} PaddedHasNoWhitespace(c: string, rem: nat)
    requires AllInAlphabet(c)
    ensures forall i :: 0 <= i < |c + Padding(rem)| ==> !IsAsciiWhitespace((c + Padding(rem))[i])
  {
    var s := c + Padding(rem);
    forall i | 0 <= i < |s| ensures !IsAsciiWhitespace(s[i]) {
      if i < |c| {
        assert s[i] == c[i] && InAlphabet(c[i]);
      }
    }
  }

  /** Stripping removes the padding added after a string of alphabet
      characters whose length leaves the matching remainder. */
  lemma {:induction false} StripAddedPadding(c: string, rem: nat)
    requires AllInAlphabet(c) && rem < 3
    requires rem == 0 ==> |c| % 4 == 0
    requires rem == 1 ==> |c| % 4 == 2
    requires rem == 2 ==> |c| % 4 == 3
    ensures StripPadding(c + Padding(rem)) == c
  {
    var s := c + Padding(rem);
    if rem == 0 {
      assert s == c;
      if |c| > 0 {
        assert InAlphabet(c[|c| - 1]);
      }
    } else if rem == 1 {
      assert s[..|s| - 2] == c;
    } else {
      assert s[..|s| - 1] == c;
      assert s[|s| - 2] == c[|c| - 1] && InAlphabet(c[|c| - 1]);
    }
  }

  /** `atob` undoes standard base64 encoding. */
  lemma {:induction false} AtobBtoa(b: seq<Byte>)
    ensures Atob(Btoa(b)) == Some(b)
  {
    StripBtoa(b);
    DecodeEncodeSextets(b);
    SextetsOfChars(EncodeSextets(b));
  }

  /** `atob` also decodes the unpadded form, in which section 2 of RFC 7515
      writes a token's pieces: the standard-alphabet characters of the
      encoding with no trailing '='. */
  lemma {:induction false} AtobUnpadded(b: seq<Byte>)
    ensures Atob(CharsOf(EncodeSextets(b))) == Some(b)
  {
    var c := CharsOf(EncodeSextets(b));
    EncodeSextetsLength(b);
    PaddedHasNoWhitespace(c, 0);
    assert c + Padding(0) == c;
    RemoveWhitespaceNone(c);
    if |c| % 4 == 0 {
      StripAddedPadding(c, 0);
    }
    DecodeEncodeSextets(b);
    SextetsOfChars(EncodeSextets(b));
  }
}
