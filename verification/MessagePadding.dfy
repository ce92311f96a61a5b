/**
  Message padding (src/cipher.rs:757): ISO/IEC 7816-4 padding, a 0x80 octet and then zeros, up to a
  multiple of 160 octets, for session versions 3 and above.
 */
module MessagePadding {
  import opened Prelude

  const PART: nat := 160
  const TERMINATOR: byte := 0x80

  datatype PaddingError = PaddingVersion(version: nat) | UnknownVersion | BadPadding

  /** The content, the terminator, and `k` zeros. */
  function Terminated(contents: Bytes, k: nat): (p: Bytes)
    ensures |p| == |contents| + 1 + k
  {
    contents + [TERMINATOR] + Zeros(k)
  }

  method AddPadding(version: nat, contents: Bytes) returns (r: Result<Bytes, PaddingError>)
    ensures version < 2 ==> r == Err(PaddingVersion(version))
    ensures version == 2 ==> r == Ok(contents)
    ensures version > 2 ==>
              && r.Ok? && |r.value| % 160 == 0 && |contents| < |r.value| <= |contents| + 160
              && r.value == Terminated(contents, |r.value| - |contents| - 1)
  {
    if version < 2 {
      return Err(PaddingVersion(version));
    } else if version == 2 {
      return Ok(contents);
    }
    var length := |contents|;
    var lengthWithTerminator := length + 1;
    var parts := lengthWithTerminator / PART;
    if lengthWithTerminator % PART != 0 {
      parts := parts + 1;
    }
    var n := parts * PART;
    var buffer := new byte[n](_ => 0);
    forall i | 0 <= i < length {
      buffer[i] := contents[i];
    }
    buffer[length] := TERMINATOR;
    forall i | length < i < n {
      buffer[i] := 0;
    }
    assert buffer[..] == Terminated(contents, n - length - 1);
    return Ok(buffer[..]);
  }

  /** From the end: zeros, then the terminator; anything else, or nothing, is no padding. */
  function Unpad(p: Bytes): Option<Bytes> {
    if p == [] then None
    else if p[|p| - 1] == TERMINATOR then Some(p[..|p| - 1])
    else if p[|p| - 1] == 0 then Unpad(p[..|p| - 1])
    else None
  }

  /** What stripping makes of contents received under a session version. */
  function Stripped(version: nat, p: Bytes): Result<Bytes, PaddingError> {
    if version < 2 then Err(UnknownVersion)
    else if version == 2 then Ok(p)
    else if Unpad(p).None? then Err(BadPadding)
    else Ok(Unpad(p).value)
  }

  class Contents {
    var bytes: Bytes

    constructor (bytes: Bytes)
      ensures this.bytes == bytes
    {
      this.bytes := bytes;
    }

    /** `raw_unpad` scans backwards; the buffer is cut where it found the terminator, and kept on failure. */
    method StripPadding() returns (r: Result<(), PaddingError>)
      modifies this
      ensures r.Ok? ==> Unpad(old(bytes)) == Some(bytes)
      ensures r.Err? ==> Unpad(old(bytes)) == None && r == Err(BadPadding) && bytes == old(bytes)
    {
      var i := |bytes|;
      assert bytes[..i] == bytes;
      while i > 0
        invariant 0 <= i <= |bytes| && bytes == old(bytes)
        invariant Unpad(bytes) == Unpad(bytes[..i])
      {
        i := i - 1;
        assert bytes[..i + 1][..i] == bytes[..i];
        if bytes[i] == TERMINATOR {
          bytes := bytes[..i];
          return Ok(());
        } else if bytes[i] != 0 {
          return Err(BadPadding);
        }
      }
      return Err(BadPadding);
    }

    method StripPaddingVersion(version: nat) returns (r: Result<(), PaddingError>)
      modifies this
      ensures match Stripped(version, old(bytes))
              case Ok(plain) => r == Ok(()) && bytes == plain
              case Err(e) => r == Err(e) && bytes == old(bytes)
    {
      if version < 2 {
        return Err(UnknownVersion);
      } else if version == 2 {
        return Ok(());
      }
      var _ :- StripPadding();
      return Ok(());
    }
  }

  /** Pad, then strip under the same version. */
  method PadThenStrip(version: nat, contents: Bytes) returns (r: Result<Bytes, PaddingError>)
    ensures version >= 2 ==> r == Ok(contents)
    ensures version < 2 ==> r == Err(PaddingVersion(version))
  {
    var padded :- AddPadding(version, contents);
    var buffer := new Contents(padded);
    if version > 2 {
      UnpadTerminated(contents, |padded| - |contents| - 1);
    }
    var stripped := buffer.StripPaddingVersion(version);
    assert stripped.Ok?;
    r := Ok(buffer.bytes);
  }

  lemma {:induction false} UnpadTerminated(contents: Bytes, k: nat)
    ensures Unpad(Terminated(contents, k)) == Some(contents)
  {
    var p := Terminated(contents, k);
    if k == 0 {
      assert p[..|p| - 1] == contents;
    } else {
      assert p[..|p| - 1] == Terminated(contents, k - 1);
      UnpadTerminated(contents, k - 1);
    }
  }

  /** Stripping recovers `x` from exactly the paddings of `x`. */
  lemma {:induction false} UnpadIff(p: Bytes, x: Bytes)
    ensures Unpad(p) == Some(x) <==> |x| < |p| && p == Terminated(x, |p| - |x| - 1)
    decreases p
  {
    if Unpad(p) == Some(x) {
      var front := p[..|p| - 1];
      assert p == front + [p[|p| - 1]];
      if p[|p| - 1] == 0 {
        UnpadIff(front, x);
        assert p == Terminated(x, |p| - |x| - 1);
      } else {
        assert p == Terminated(x, 0);
      }
    }
    if |x| < |p| && p == Terminated(x, |p| - |x| - 1) {
      UnpadTerminated(x, |p| - |x| - 1);
    }
  }

  function TrimZeros(p: Bytes): Bytes {
    if p != [] && p[|p| - 1] == 0 then TrimZeros(p[..|p| - 1]) else p
  }

  /** It fails exactly when, past the trailing zeros, the last octet is missing or is not 0x80. */
  lemma {:induction false} StripFailsIff(p: Bytes)
    ensures Unpad(p).None? <==> TrimZeros(p) == [] || TrimZeros(p)[|TrimZeros(p)| - 1] != 0x80
  {
    if p != [] && p[|p| - 1] == 0 {
      StripFailsIff(p[..|p| - 1]);
    }
  }

  /** No smaller multiple of 160 leaves room for the terminator. */
  lemma PaddedLengthIsLeast(contents: Bytes, padded: nat, m: nat)
    requires padded % 160 == 0 && |contents| < padded <= |contents| + 160
    requires m % 160 == 0 && m > |contents|
    ensures padded <= m
  {
    var a, b := padded / PART, m / PART;
    assert padded == PART * a && m == PART * b;
    assert PART * b > PART * (a - 1);
  }
}
