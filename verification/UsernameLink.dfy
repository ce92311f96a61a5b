/**
  Username links (src/websocket/usernames.rs): `https://signal.me/#eu/` and the URL-safe, unpadded
  base64 (section 5 of RFC 4648) of 32 bytes of entropy and the 16-byte link handle.
 */
module UsernameLink {
  import opened Prelude

  const ENTROPY: nat := 32
  const UUID: nat := 16

  // -- base64url --------------------------------------------------------------------

  type Sextet = n: int | 0 <= n < 64

  function CharOf(n: Sextet): char {
    if n < 26 then ('A' as int + n) as char
    else if n < 52 then ('a' as int + (n - 26)) as char
    else if n < 62 then ('0' as int + (n - 52)) as char
    else if n == 62 then '-'
    else '_'
  }

  function ValueOf(c: char): Option<Sextet> {
    if 'A' <= c <= 'Z' then Some(c as int - 'A' as int)
    else if 'a' <= c <= 'z' then Some(c as int - 'a' as int + 26)
    else if '0' <= c <= '9' then Some(c as int - '0' as int + 52)
    else if c == '-' then Some(62)
    else if c == '_' then Some(63)
    else None
  }

  lemma CharRoundTrip(n: Sextet)
    ensures ValueOf(CharOf(n)) == Some(n) && CharOf(n) != '/'
  {
  }

  lemma ValueRoundTrip(c: char)
    ensures ValueOf(c).Some? ==> CharOf(ValueOf(c).value) == c
  {
  }

  /** The characters are those of table 2 of RFC 4648: A to Z, a to z, 0 to 9, the hyphen and the underscore. */
  lemma CharsAreRfc4648(n: Sextet)
    ensures CharOf(0) == 'A' && CharOf(25) == 'Z' && CharOf(26) == 'a' && CharOf(51) == 'z'
    ensures CharOf(52) == '0' && CharOf(61) == '9' && CharOf(62) == '-' && CharOf(63) == '_'
    ensures n < 61 && n != 25 && n != 51 ==> CharOf(n + 1) as int == CharOf(n) as int + 1
  {
  }

  /** Three octets as four groups of six bits, and back. */
  function Sextets(b0: byte, b1: byte, b2: byte): (Sextet, Sextet, Sextet, Sextet) {
    (b0 / 4, b0 % 4 * 16 + b1 / 16, b1 % 16 * 4 + b2 / 64, b2 % 64)
  }

  function Octets(v0: Sextet, v1: Sextet, v2: Sextet, v3: Sextet): (byte, byte, byte) {
    (v0 * 4 + v1 / 16, v1 % 16 * 16 + v2 / 4, v2 % 4 * 64 + v3)
  }

  lemma Digits(high: nat, low: nat)
    ensures low < 4 ==> (high * 4 + low) / 4 == high && (high * 4 + low) % 4 == low
    ensures low < 16 ==> (high * 16 + low) / 16 == high && (high * 16 + low) % 16 == low
    ensures low < 64 ==> (high * 64 + low) / 64 == high && (high * 64 + low) % 64 == low
  {
  }

  lemma OctetsSextets(b0: byte, b1: byte, b2: byte)
    ensures var v := Sextets(b0, b1, b2); Octets(v.0, v.1, v.2, v.3) == (b0, b1, b2)
    ensures b2 == 0 ==> Sextets(b0, b1, b2).2 % 4 == 0 && Sextets(b0, b1, b2).3 == 0
    ensures b1 == b2 == 0 ==> Sextets(b0, b1, b2).1 % 16 == 0 && Sextets(b0, b1, b2).2 == 0
  {
    Digits(b0 % 4, b1 / 16);
    Digits(b1 % 16, b2 / 64);
  }

  /** The groups and the octets are the same 24 bits. */
  lemma SameBits(b0: byte, b1: byte, b2: byte)
    ensures var v := Sextets(b0, b1, b2);
            0x1_0000 * b0 + 0x100 * b1 + b2 == 0x4_0000 * v.0 + 0x1000 * v.1 + 0x40 * v.2 + v.3
  {
  }

  lemma SextetsOctets(v0: Sextet, v1: Sextet, v2: Sextet, v3: Sextet)
    ensures var b := Octets(v0, v1, v2, v3); Sextets(b.0, b.1, b.2) == (v0, v1, v2, v3)
    ensures v2 % 4 == 0 && v3 == 0 ==> Octets(v0, v1, v2, v3).2 == 0
    ensures v1 % 16 == 0 && v2 == 0 ==> Octets(v0, v1, v2, v3).1 == 0
  {
  }

  function Encode(b: Bytes): string {
    if |b| == 0 then ""
    else if |b| == 1 then
      var v := Sextets(b[0], 0, 0); [CharOf(v.0), CharOf(v.1)]
    else if |b| == 2 then
      var v := Sextets(b[0], b[1], 0); [CharOf(v.0), CharOf(v.1), CharOf(v.2)]
    else
      var v := Sextets(b[0], b[1], b[2]); [CharOf(v.0), CharOf(v.1), CharOf(v.2), CharOf(v.3)] + Encode(b[3..])
  }

  /** Refused: a foreign character, a length of 1 modulo 4, or unused bits of the last character that are not zero. */
  function Decode(s: string): Option<Bytes> {
    if |s| == 0 then Some([])
    else if |s| == 1 || ValueOf(s[0]).None? || ValueOf(s[1]).None? then None
    else
      var v0, v1 := ValueOf(s[0]).value, ValueOf(s[1]).value;
      if |s| == 2 then (if v1 % 16 != 0 then None else Some([Octets(v0, v1, 0, 0).0]))
      else if ValueOf(s[2]).None? then None
      else
        var v2 := ValueOf(s[2]).value;
        if |s| == 3 then
          (if v2 % 4 != 0 then None else var b := Octets(v0, v1, v2, 0); Some([b.0, b.1]))
        else if ValueOf(s[3]).None? then None
        else
          match Decode(s[4..])
          case None => None
          case Some(rest) => var b := Octets(v0, v1, v2, ValueOf(s[3]).value); Some([b.0, b.1, b.2] + rest)
  }

  lemma DecodeGroup(b0: byte, b1: byte, b2: byte, s: string)
    requires Decode(s).Some?
    ensures var v := Sextets(b0, b1, b2);
            Decode([CharOf(v.0), CharOf(v.1), CharOf(v.2), CharOf(v.3)] + s) == Some([b0, b1, b2] + Decode(s).value)
  {
    var v := Sextets(b0, b1, b2);
    OctetsSextets(b0, b1, b2);
    CharRoundTrip(v.0);
    CharRoundTrip(v.1);
    CharRoundTrip(v.2);
    CharRoundTrip(v.3);
    assert ([CharOf(v.0), CharOf(v.1), CharOf(v.2), CharOf(v.3)] + s)[4..] == s;
  }

  lemma DecodeLast(b: Bytes)
    requires 1 <= |b| <= 2
    ensures Decode(Encode(b)) == Some(b)
  {
    var b1 := if |b| > 1 then b[1] else 0;
    var v := Sextets(b[0], b1, 0);
    OctetsSextets(b[0], b1, 0);
    CharRoundTrip(v.0);
    CharRoundTrip(v.1);
    CharRoundTrip(v.2);
    assert b == if |b| == 1 then [b[0]] else [b[0], b[1]];
  }

  lemma {:induction false} DecodeEncode(b: Bytes)
    ensures Decode(Encode(b)) == Some(b)
  {
    if 1 <= |b| <= 2 {
      DecodeLast(b);
    } else if |b| >= 3 {
      DecodeEncode(b[3..]);
      DecodeGroup(b[0], b[1], b[2], Encode(b[3..]));
      assert b == [b[0], b[1], b[2]] + b[3..];
    }
  }

  lemma {:induction false} NoSlash(b: Bytes)
    ensures '/' !in Encode(b)
  {
    if |b| >= 3 {
      NoSlash(b[3..]);
    }
  }

  /** One more group of four characters in front. */
  lemma EncodeGroup(s: string, rest: Bytes)
    requires |s| >= 4 && forall i :: 0 <= i < 4 ==> ValueOf(s[i]).Some?
    requires Encode(rest) == s[4..]
    ensures var b := Octets(ValueOf(s[0]).value, ValueOf(s[1]).value, ValueOf(s[2]).value, ValueOf(s[3]).value);
            Encode([b.0, b.1, b.2] + rest) == s
  {
    var v0, v1, v2, v3 := ValueOf(s[0]).value, ValueOf(s[1]).value, ValueOf(s[2]).value, ValueOf(s[3]).value;
    var b := Octets(v0, v1, v2, v3);
    SextetsOctets(v0, v1, v2, v3);
    ValueRoundTrip(s[0]);
    ValueRoundTrip(s[1]);
    ValueRoundTrip(s[2]);
    ValueRoundTrip(s[3]);
    assert ([b.0, b.1, b.2] + rest)[3..] == rest;
    assert s == [s[0], s[1], s[2], s[3]] + s[4..];
  }

  lemma EncodeLast(s: string)
    requires 2 <= |s| <= 3 && Decode(s).Some?
    ensures Encode(Decode(s).value) == s
  {
    var v2: Sextet := if |s| == 3 then ValueOf(s[2]).value else 0;
    SextetsOctets(ValueOf(s[0]).value, ValueOf(s[1]).value, v2, 0);
    ValueRoundTrip(s[0]);
    ValueRoundTrip(s[1]);
    if |s| == 2 {
      assert s == [s[0], s[1]];
    } else {
      ValueRoundTrip(s[2]);
      assert s == [s[0], s[1], s[2]];
    }
  }

  /** A text of four characters or more decodes group by group. */
  lemma DecodeFirst(s: string)
    requires |s| >= 4 && Decode(s).Some?
    ensures forall i :: 0 <= i < 4 ==> ValueOf(s[i]).Some?
    ensures Decode(s[4..]).Some?
    ensures var b := Octets(ValueOf(s[0]).value, ValueOf(s[1]).value, ValueOf(s[2]).value, ValueOf(s[3]).value);
            Decode(s).value == [b.0, b.1, b.2] + Decode(s[4..]).value
  {
    assert ValueOf(s[0]).Some? && ValueOf(s[1]).Some?;
    assert ValueOf(s[2]).Some? && ValueOf(s[3]).Some?;
  }

  lemma TooShort(s: string)
    requires Decode(s).Some?
    ensures |s| != 1
  {
  }

  /** Every decodable text is the encoding of what it decodes to: no byte string has two spellings. */
  lemma {:induction false} EncodeDecode(s: string)
    ensures Decode(s).Some? ==> Encode(Decode(s).value) == s
  {
    if Decode(s).Some? {
      TooShort(s);
      if 2 <= |s| <= 3 {
        EncodeLast(s);
      } else if |s| >= 4 {
        DecodeFirst(s);
        var rest := Decode(s[4..]).value;
        EncodeDecode(s[4..]);
        EncodeGroup(s, rest);
      }
    }
  }

  // -- segments ---------------------------------------------------------------------

  /** The parts between slashes; never empty. */
  function Split(s: string): (r: seq<string>)
    ensures |r| >= 1
  {
    if s == "" then [""]
    else
      var rest := Split(s[1..]);
      if s[0] == '/' then [""] + rest else [[s[0]] + rest[0]] + rest[1..]
  }

  lemma {:induction false} SplitWhole(s: string)
    ensures |Split(s)| == 1 <==> '/' !in s
    ensures |Split(s)| == 1 ==> Split(s) == [s]
  {
    if s != "" {
      SplitWhole(s[1..]);
      assert s == [s[0]] + s[1..];
    }
  }

  lemma {:induction false} SplitFirst(s: string, t: string)
    requires '/' !in s
    ensures Split(s + "/" + t) == [s] + Split(t)
  {
    if s == "" {
      assert s + "/" + t == "/" + t && ("/" + t)[1..] == t;
    } else {
      SplitFirst(s[1..], t);
      assert (s + "/" + t)[1..] == s[1..] + "/" + t;
      assert s == [s[0]] + s[1..];
    }
  }

  lemma {:induction false} SplitPair(s: string)
    requires |Split(s)| == 2
    ensures s == Split(s)[0] + "/" + Split(s)[1]
  {
    if s[0] == '/' {
      SplitWhole(s[1..]);
    } else {
      SplitPair(s[1..]);
      var rest := Split(s[1..]);
      assert s == [s[0]] + s[1..];
      assert [s[0]] + (rest[0] + "/" + rest[1]) == ([s[0]] + rest[0]) + "/" + rest[1];
    }
  }

  // -- links ------------------------------------------------------------------------

  /** `rest` is what parsing ignores: user, password, port, path and query. */
  datatype Url = Url(scheme: string, host: Option<string>, fragment: Option<string>, rest: string)

  type Handle = h: Bytes | |h| == UUID witness Zeros(16)

  type Entropy = e: Bytes | |e| == ENTROPY witness Zeros(32)

  datatype LinkError =
    | WrongBase | MissingFragment | NotEu | PayloadMissing | ExtraSegments | Base64 | ShorterThanEntropy | MissingHandle

  function Parse(link: Url): Result<(Handle, Entropy), LinkError> {
    if link.scheme != "https" || link.host != Some("signal.me") then Err(WrongBase)
    else if link.fragment.None? then Err(MissingFragment)
    else
      var segments := Split(link.fragment.value);
      if segments[0] != "eu" then Err(NotEu)
      else if |segments| < 2 then Err(PayloadMissing)
      else if |segments| > 2 then Err(ExtraSegments)
      else
        match Decode(segments[1])
        case None => Err(Base64)
        case Some(bytes) =>
          if |bytes| < ENTROPY then Err(ShorterThanEntropy)
          else if |bytes[ENTROPY..]| != UUID then Err(MissingHandle)
          else Ok((bytes[ENTROPY..], bytes[..ENTROPY]))
  }

  method Generate(handle: Handle, entropy: Entropy) returns (link: Url)
    ensures Parse(link) == Ok((handle, entropy))
    ensures link == Url("https", Some("signal.me"), Some("eu/" + Encode(entropy + handle)), "/")
  {
    var payload: Bytes := entropy;
    payload := payload + handle;
    var fragment := "eu/";
    fragment := fragment + Encode(payload);
    link := Url("https", Some("signal.me"), Some(fragment), "/");
    ParsesIff(link, handle, entropy);
  }

  /**
    A link parses to these parts exactly when its scheme, host and fragment are those of the link
    generated from them, whatever the rest of it.
   */
  lemma ParsesIff(link: Url, handle: Handle, entropy: Entropy)
    ensures Parse(link) == Ok((handle, entropy)) <==>
              link.scheme == "https" && link.host == Some("signal.me")
              && link.fragment == Some("eu/" + Encode(entropy + handle))
  {
    var payload: Bytes := entropy + handle;
    DecodeEncode(payload);
    SplitFirst("eu", Encode(payload));
    NoSlash(payload);
    SplitWhole(Encode(payload));
    assert "eu" + "/" == "eu/";
    assert payload[..ENTROPY] == entropy && payload[ENTROPY..] == handle;
    if Parse(link) == Ok((handle, entropy)) {
      var fragment := link.fragment.value;
      SplitPair(fragment);
      EncodeDecode(Split(fragment)[1]);
      assert Decode(Split(fragment)[1]).value == payload;
    }
  }

  /** The first part: up to the first slash, or everything. */
  lemma {:induction false} SplitHead(s: string)
    ensures var head := Split(s)[0];
            '/' !in head && head <= s && (|head| == |s| || s[|head|] == '/')
  {
    if s != "" && s[0] != '/' {
      SplitHead(s[1..]);
    }
  }

  predicate Marked(s: string) {
    |s| >= 3 && s[0] == 'e' && s[1] == 'u' && s[2] == '/'
  }

  lemma MarkedSplits(s: string)
    requires Marked(s)
    ensures Split(s) == ["eu"] + Split(s[3..])
  {
    assert s == "eu" + "/" + s[3..];
    SplitFirst("eu", s[3..]);
  }

  lemma OnlyMarkedSplit(s: string)
    requires Split(s)[0] == "eu" && s != "eu"
    ensures Marked(s)
  {
    SplitHead(s);
    assert s[..2] == "eu";
    assert s[0] == s[..2][0] && s[1] == s[..2][1];
  }

  /** What is wrong with a link that does not parse, in the order in which it is looked at. */
  lemma WhyItDoesNotParse(link: Url)
    ensures var r := Parse(link);
            var base := link.scheme == "https" && link.host == Some("signal.me");
            var f := link.fragment.GetOr("");
            var marked := Marked(f);
            && (r == Err(WrongBase) <==> !base)
            && (r == Err(MissingFragment) <==> base && link.fragment.None?)
            && (r == Err(NotEu) <==> base && link.fragment.Some? && f != "eu" && !marked)
            && (r == Err(PayloadMissing) <==> base && f == "eu")
            && (r == Err(ExtraSegments) <==> base && marked && '/' in f[3..])
            && (r == Err(Base64) <==> base && marked && '/' !in f[3..] && Decode(f[3..]).None?)
            && (base && marked && '/' !in f[3..] && Decode(f[3..]).Some? ==>
                  var n := |Decode(f[3..]).value|;
                  (r == Err(ShorterThanEntropy) <==> n < 32) && (r == Err(MissingHandle) <==> n >= 32 && n != 48)
                  && (r.Ok? <==> n == 48))
  {
    var f := link.fragment.GetOr("");
    SplitWhole("eu");
    if Marked(f) {
      MarkedSplits(f);
      SplitWhole(f[3..]);
    } else if Split(f)[0] == "eu" && f != "eu" {
      OnlyMarkedSplit(f);
    }
  }

  /** Handles and entropies are told apart by their links. */
  lemma LinksAreDistinct(h1: Handle, e1: Entropy, h2: Handle, e2: Entropy)
    ensures Encode(e1 + h1) == Encode(e2 + h2) <==> h1 == h2 && e1 == e2
  {
    DecodeEncode(e1 + h1);
    DecodeEncode(e2 + h2);
    assert (e1 + h1)[..ENTROPY] == e1 && (e1 + h1)[ENTROPY..] == h1;
    assert (e2 + h2)[..ENTROPY] == e2 && (e2 + h2)[ENTROPY..] == h2;
  }

  lemma {:induction false} EncodedLength(b: Bytes)
    ensures |Encode(b)| == |b| / 3 * 4 + (if |b| % 3 == 0 then 0 else |b| % 3 + 1)
  {
    if |b| >= 3 {
      EncodedLength(b[3..]);
    }
  }

  lemma PayloadOfLink(payload: string, handle: Handle, entropy: Entropy)
    ensures "eu/" + payload == "eu/" + Encode(entropy + handle) ==>
              |payload| == 64 && Decode(payload) == Some(entropy + handle)
  {
    assert ("eu/" + payload)[3..] == payload && ("eu/" + Encode(entropy + handle))[3..] == Encode(entropy + handle);
    DecodeEncode(entropy + handle);
    EncodedLength(entropy + handle);
  }

  lemma LinkOfPayload(payload: string) returns (handle: Handle, entropy: Entropy)
    requires |payload| == 64 && Decode(payload).Some?
    ensures payload == Encode(entropy + handle)
  {
    var bytes := Decode(payload).value;
    EncodeDecode(payload);
    EncodedLength(bytes);
    handle, entropy := bytes[ENTROPY..], bytes[..ENTROPY];
    assert bytes == entropy + handle;
  }

  /** With the base and the marker right, exactly the well-formed payloads of 64 characters parse. */
  lemma OnlyFullPayloadsParse(link: Url, payload: string)
    requires link.scheme == "https" && link.host == Some("signal.me") && link.fragment == Some("eu/" + payload)
    ensures Parse(link).Ok? <==> |payload| == 64 && Decode(payload).Some?
  {
    if Parse(link).Ok? {
      var (handle, entropy) := Parse(link).value;
      ParsesIff(link, handle, entropy);
      PayloadOfLink(payload, handle, entropy);
    } else if |payload| == 64 && Decode(payload).Some? {
      var handle, entropy := LinkOfPayload(payload);
      ParsesIff(link, handle, entropy);
    }
  }
}
