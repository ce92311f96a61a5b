/**
  In-place attachment encryption (src/attachment_cipher.rs): one growable buffer holds first the
  plaintext, then `iv || CBC(PKCS#7(plaintext)) || mac`. PKCS#7 padding is section 6.3 of RFC 5652,
  CBC section 6.2 of NIST SP 800-38A. AES and HMAC are functions given from outside.
 */
module AttachmentCipher {
  import opened Prelude

  type Octets = seq<bv8>

  const BLOCK: nat := 16
  const MAC_LEN: nat := 32

  datatype Primitives = Primitives(
    encryptBlock: (Octets, Octets) -> Octets,
    decryptBlock: (Octets, Octets) -> Octets,
    hmac: (Octets, Octets) -> Octets)

  /** A block cipher is a permutation of the blocks; a tag has 32 octets. */
  ghost predicate Lawful(c: Primitives) {
    && (forall k, b {:trigger c.encryptBlock(k, b)} :: |b| == BLOCK ==>
          |c.encryptBlock(k, b)| == BLOCK && c.decryptBlock(k, c.encryptBlock(k, b)) == b)
    && (forall k, b {:trigger c.decryptBlock(k, b)} :: |b| == BLOCK ==>
          |c.decryptBlock(k, b)| == BLOCK && c.encryptBlock(k, c.decryptBlock(k, b)) == b)
    && (forall k, m {:trigger c.hmac(k, m)} :: |c.hmac(k, m)| == MAC_LEN)
  }

  // -- CBC --------------------------------------------------------------------------

  function Xor(a: Octets, b: Octets): Octets
    requires |a| == BLOCK && |b| == BLOCK
  {
    seq(BLOCK, i requires 0 <= i < BLOCK => a[i] ^ b[i])
  }

  lemma XorTwice(a: Octets, b: Octets)
    requires |a| == BLOCK && |b| == BLOCK
    ensures Xor(Xor(a, b), b) == a
  {
  }

  ghost function CbcEncrypt(c: Primitives, k: Octets, previous: Octets, m: Octets): (r: Octets)
    requires Lawful(c) && |previous| == BLOCK && |m| % BLOCK == 0
    ensures |r| == |m|
    decreases |m|
  {
    if m == [] then []
    else
      var block := c.encryptBlock(k, Xor(m[..BLOCK], previous));
      block + CbcEncrypt(c, k, block, m[BLOCK..])
  }

  ghost function CbcDecrypt(c: Primitives, k: Octets, previous: Octets, x: Octets): (r: Octets)
    requires Lawful(c) && |previous| == BLOCK && |x| % BLOCK == 0
    ensures |r| == |x|
    decreases |x|
  {
    if x == [] then []
    else Xor(c.decryptBlock(k, x[..BLOCK]), previous) + CbcDecrypt(c, k, x[..BLOCK], x[BLOCK..])
  }

  lemma {:induction false} CbcDecryptEncrypt(c: Primitives, k: Octets, previous: Octets, m: Octets)
    requires Lawful(c) && |previous| == BLOCK && |m| % BLOCK == 0
    ensures CbcDecrypt(c, k, previous, CbcEncrypt(c, k, previous, m)) == m
    decreases |m|
  {
    if m != [] {
      var mixed := Xor(m[..BLOCK], previous);
      var block, x := c.encryptBlock(k, mixed), CbcEncrypt(c, k, previous, m);
      assert x[..BLOCK] == block && x[BLOCK..] == CbcEncrypt(c, k, block, m[BLOCK..]);
      CbcDecryptEncrypt(c, k, block, m[BLOCK..]);
      XorTwice(m[..BLOCK], previous);
      assert m == m[..BLOCK] + m[BLOCK..];
    }
  }

  lemma {:induction false} CbcEncryptDecrypt(c: Primitives, k: Octets, previous: Octets, x: Octets)
    requires Lawful(c) && |previous| == BLOCK && |x| % BLOCK == 0
    ensures CbcEncrypt(c, k, previous, CbcDecrypt(c, k, previous, x)) == x
    decreases |x|
  {
    if x != [] {
      var m := CbcDecrypt(c, k, previous, x);
      assert m[..BLOCK] == Xor(c.decryptBlock(k, x[..BLOCK]), previous);
      assert m[BLOCK..] == CbcDecrypt(c, k, x[..BLOCK], x[BLOCK..]);
      XorTwice(c.decryptBlock(k, x[..BLOCK]), previous);
      CbcEncryptDecrypt(c, k, x[..BLOCK], x[BLOCK..]);
      assert x == x[..BLOCK] + x[BLOCK..];
    }
  }

  // -- PKCS#7 -----------------------------------------------------------------------

  function PadLength(n: nat): (r: nat)
    ensures 1 <= r <= BLOCK && (n + r) % BLOCK == 0
  {
    BLOCK - n % BLOCK
  }

  function Pad(m: Octets): Octets {
    m + seq(PadLength(|m|), _ => PadLength(|m|) as bv8)
  }

  /** The last octet says how many to drop; all of those must say the same. */
  function Unpad(x: Octets): Option<Octets> {
    if x == [] then None
    else
      var n := x[|x| - 1] as int;
      if n == 0 || n > BLOCK || n > |x| then None
      else if forall i :: |x| - n <= i < |x| ==> x[i] == x[|x| - 1] then Some(x[..|x| - n])
      else None
  }

  lemma OctetValue(n: nat)
    requires n <= BLOCK
    ensures (n as bv8) as int == n
  {
  }

  lemma UnpadPad(m: Octets)
    ensures |Pad(m)| % BLOCK == 0 && Unpad(Pad(m)) == Some(m)
  {
    OctetValue(PadLength(|m|));
    assert Pad(m)[..|m|] == m;
  }

  lemma PadLengthIs(n: nat, k: nat)
    requires 1 <= k <= BLOCK && (n + k) % BLOCK == 0
    ensures PadLength(n) == k
  {
  }

  lemma PadUnpad(x: Octets)
    requires |x| % BLOCK == 0 && Unpad(x).Some?
    ensures Pad(Unpad(x).value) == x
  {
    var n := x[|x| - 1] as int;
    var m := Unpad(x).value;
    PadLengthIs(|m|, n);
    OctetValue(n);
    assert n as bv8 == x[|x| - 1];
    assert x == m + x[|x| - n..];
  }

  // -- the whole attachment ---------------------------------------------------------

  type Key = k: Octets | |k| == 64 witness seq(64, _ => 0)

  type Iv = v: Octets | |v| == BLOCK witness seq(16, _ => 0)

  ghost function Sealed(c: Primitives, key: Key, iv: Iv, m: Octets): (r: Octets)
    requires Lawful(c)
    ensures |r| == 16 + 16 * (|m| / 16 + 1) + 32
  {
    UnpadPad(m);
    var body := iv + CbcEncrypt(c, key[..32], iv, Pad(m));
    body + c.hmac(key[32..], body)
  }

  datatype Outcome = Done | MacError | PaddingError | Panicked

  /** What decryption answers and what it leaves in the buffer. */
  ghost function Opened(c: Primitives, key: Key, b: Octets): (Outcome, Octets)
    requires Lawful(c)
  {
    if |b| < MAC_LEN then (Panicked, b)
    else
      var body, tag := b[..|b| - MAC_LEN], b[|b| - MAC_LEN..];
      if tag != c.hmac(key[32..], body) then (MacError, b)
      else if |body| < BLOCK || |body| % BLOCK != 0 then (PaddingError, b)
      else
        var plain := CbcDecrypt(c, key[..32], body[..BLOCK], body[BLOCK..]);
        match Unpad(plain)
        case None => (PaddingError, body[..BLOCK] + plain + tag)
        case Some(m) => (Done, m)
  }

  lemma SplitAt(a: Octets, b: Octets)
    ensures (a + b)[..|a|] == a && (a + b)[|a|..] == b
  {
  }

  /** Opening anything with a good tag and a whole number of blocks. */
  lemma OpenTagged(c: Primitives, key: Key, iv: Iv, x: Octets)
    requires Lawful(c) && |x| % BLOCK == 0
    ensures var plain := CbcDecrypt(c, key[..32], iv, x);
            var tag := c.hmac(key[32..], iv + x);
            Opened(c, key, (iv + x) + tag)
            == match Unpad(plain)
               case None => (PaddingError, iv + plain + tag)
               case Some(m) => (Done, m)
  {
    SplitAt(iv + x, c.hmac(key[32..], iv + x));
    SplitAt(iv, x);
  }

  lemma OpenSealed(c: Primitives, key: Key, iv: Iv, m: Octets)
    requires Lawful(c)
    ensures Opened(c, key, Sealed(c, key, iv, m)) == (Done, m)
  {
    UnpadPad(m);
    OpenTagged(c, key, iv, CbcEncrypt(c, key[..32], iv, Pad(m)));
    CbcDecryptEncrypt(c, key[..32], iv, Pad(m));
  }

  lemma ThreeParts(b: Octets, i: nat, j: nat)
    requires i <= j <= |b|
    ensures b == (b[..i] + b[i..j]) + b[j..] && b[..j] == b[..i] + b[i..j]
    ensures b[..j][..i] == b[..i] && b[..j][i..] == b[i..j]
  {
  }

  lemma OpenedIsSealed(c: Primitives, key: Key, b: Octets) returns (iv: Iv)
    requires Lawful(c) && Opened(c, key, b).0.Done?
    ensures b == Sealed(c, key, iv, Opened(c, key, b).1)
  {
    var end := |b| - MAC_LEN;
    ThreeParts(b, BLOCK, end);
    iv := b[..BLOCK];
    var x := b[BLOCK..end];
    PadUnpad(CbcDecrypt(c, key[..32], iv, x));
    CbcEncryptDecrypt(c, key[..32], iv, x);
  }

  /** Decryption succeeds on encryption's outputs and on nothing else. */
  lemma OpensIffSealed(c: Primitives, key: Key, b: Octets, m: Octets)
    requires Lawful(c)
    ensures Opened(c, key, b) == (Done, m) <==> exists iv: Iv :: b == Sealed(c, key, iv, m)
  {
    if Opened(c, key, b) == (Done, m) {
      var iv := OpenedIsSealed(c, key, b);
    }
    if exists iv: Iv :: b == Sealed(c, key, iv, m) {
      var iv: Iv :| b == Sealed(c, key, iv, m);
      OpenSealed(c, key, iv, m);
    }
  }

  /**
    The buffer survives every MAC failure. After a padding failure it survives only if nothing was
    decrypted; otherwise its middle has already been overwritten with the decrypted blocks.
   */
  lemma WhatFailureLeaves(c: Primitives, key: Key, b: Octets)
    requires Lawful(c)
    ensures var (outcome, left) := Opened(c, key, b);
            && (outcome.MacError? ==> left == b)
            && (outcome.PaddingError? ==>
                  && |left| == |b| >= MAC_LEN
                  && var n := |b| - MAC_LEN;
                     if n < BLOCK || n % BLOCK != 0 then left == b
                     else left[..BLOCK] == b[..BLOCK] && left[n..] == b[n..]
                          && left[BLOCK..n] == CbcDecrypt(c, key[..32], b[..BLOCK], b[BLOCK..n]))
  {
    if Opened(c, key, b).0.PaddingError? {
      var n := |b| - MAC_LEN;
      if n >= BLOCK && n % BLOCK == 0 {
        var left := Opened(c, key, b).1;
        var plain := CbcDecrypt(c, key[..32], b[..n][..BLOCK], b[..n][BLOCK..]);
        assert b[..n][..BLOCK] == b[..BLOCK] && b[..n][BLOCK..] == b[BLOCK..n];
        assert left == b[..BLOCK] + plain + b[n..];
      }
    }
  }

  /** Which outcome a buffer has: too short for a tag, a wrong tag, bad padding under a good tag, or a sealed plaintext. */
  lemma OutcomeIff(c: Primitives, key: Key, b: Octets)
    requires Lawful(c)
    ensures Opened(c, key, b).0.Panicked? <==> |b| < MAC_LEN
    ensures Opened(c, key, b).0.MacError? <==> |b| >= MAC_LEN && !GoodTag(c, key, b)
    ensures Opened(c, key, b).0.PaddingError? <==>
              |b| >= MAC_LEN && GoodTag(c, key, b) && forall iv: Iv, m :: b != Sealed(c, key, iv, m)
    ensures Opened(c, key, b).0.Done? <==> exists iv: Iv, m :: b == Sealed(c, key, iv, m)
  {
    if Opened(c, key, b).0.Done? {
      var iv := OpenedIsSealed(c, key, b);
    }
    if iv: Iv, m :| b == Sealed(c, key, iv, m) {
      OpenSealed(c, key, iv, m);
    }
  }

  /** Every block is deciphered to its own XOR with the one before it, so that chaining gives it back. */
  ghost predicate EachBlockStays(c: Primitives, k: Octets, previous: Octets, x: Octets)
    requires |previous| == BLOCK && |x| % BLOCK == 0
    decreases |x|
  {
    x == [] || (c.decryptBlock(k, x[..BLOCK]) == Xor(x[..BLOCK], previous) && EachBlockStays(c, k, x[..BLOCK], x[BLOCK..]))
  }

  lemma XorMoves(a: Octets, b: Octets, previous: Octets)
    requires |a| == |b| == |previous| == BLOCK
    ensures Xor(a, previous) == b <==> a == Xor(b, previous)
  {
    XorTwice(a, previous);
    XorTwice(b, previous);
  }

  lemma {:induction false} StaysIff(c: Primitives, k: Octets, previous: Octets, x: Octets)
    requires Lawful(c) && |previous| == BLOCK && |x| % BLOCK == 0
    ensures CbcDecrypt(c, k, previous, x) == x <==> EachBlockStays(c, k, previous, x)
    decreases |x|
  {
    if x != [] {
      var first, rest := x[..BLOCK], x[BLOCK..];
      XorMoves(c.decryptBlock(k, first), first, previous);
      StaysIff(c, k, first, rest);
      SplitAt(Xor(c.decryptBlock(k, first), previous), CbcDecrypt(c, k, first, rest));
      assert x == first + rest;
    }
  }

  predicate GoodTag(c: Primitives, key: Key, b: Octets)
    requires |b| >= MAC_LEN
  {
    b[|b| - MAC_LEN..] == c.hmac(key[32..], b[..|b| - MAC_LEN])
  }

  /** Something to decrypt: an IV and whole blocks, under a good tag. */
  predicate Decrypts(c: Primitives, key: Key, b: Octets) {
    |b| >= MAC_LEN + BLOCK && |b| % BLOCK == 0 && GoodTag(c, key, b)
  }

  /**
    When the buffer survives: if nothing is decrypted, or if the blocks are not properly padded as they
    stand and each of them stays what it is. A success never leaves it as it was.
   */
  lemma BufferSurvivesIff(c: Primitives, key: Key, b: Octets)
    requires Lawful(c)
    ensures Opened(c, key, b).1 == b <==>
              || !Decrypts(c, key, b)
              || (var iv, x := b[..BLOCK], b[BLOCK..|b| - MAC_LEN];
                  Unpad(x).None? && EachBlockStays(c, key[..32], iv, x))
  {
    if Decrypts(c, key, b) {
      var n := |b| - MAC_LEN;
      ThreeParts(b, BLOCK, n);
      DecryptedSurvivesIff(c, key, b[..BLOCK], b[BLOCK..n], b[n..]);
    }
  }

  lemma DecryptedSurvivesIff(c: Primitives, key: Key, iv: Iv, x: Octets, tag: Octets)
    requires Lawful(c) && |x| % BLOCK == 0 && tag == c.hmac(key[32..], iv + x)
    ensures Opened(c, key, (iv + x) + tag).1 == (iv + x) + tag <==> Unpad(x).None? && EachBlockStays(c, key[..32], iv, x)
  {
    var plain := CbcDecrypt(c, key[..32], iv, x);
    OpenTagged(c, key, iv, x);
    StaysIff(c, key[..32], iv, x);
    SameMiddle(iv, plain, x, tag);
  }

  lemma SameMiddle(before: Octets, a: Octets, b: Octets, after: Octets)
    requires |a| == |b|
    ensures before + a + after == before + b + after <==> a == b
  {
    var n, m := |before|, |before| + |a|;
    assert (before + a + after)[n..m] == a && (before + b + after)[n..m] == b;
  }

  /** Blocks left as they are, and a tag of zeros. */
  function Transparent(): Primitives {
    Primitives((k: Octets, b: Octets) => b, (k: Octets, b: Octets) => b, (k: Octets, m: Octets) => seq(MAC_LEN, _ => 0))
  }

  /** A buffer with a good tag and bad padding that does not survive: its one block becomes its IV. */
  lemma BadPaddingOverwrites()
    ensures var key: Key := seq(64, _ => 0);
            var iv := seq(BLOCK, _ => 255);
            var b := iv + seq(BLOCK, _ => 0) + seq(MAC_LEN, _ => 0);
            Lawful(Transparent()) && Opened(Transparent(), key, b) == (PaddingError, iv + iv + seq(MAC_LEN, _ => 0))
            && iv + iv + seq(MAC_LEN, _ => 0) != b
  {
    var c, key := Transparent(), seq(64, _ => 0);
    var iv: Octets, block: Octets, tag: Octets := seq(BLOCK, _ => 255), seq(BLOCK, _ => 0), seq(MAC_LEN, _ => 0);
    OpenTagged(c, key, iv, block);
    assert block[..BLOCK] == block && block[BLOCK..] == [];
    assert Xor(block, iv) == iv;
    assert CbcDecrypt(c, key[..32], iv, block) == iv + [];
    assert iv + [] == iv;
    assert (iv + iv + tag)[BLOCK] != (iv + block + tag)[BLOCK];
  }

  // -- in place ---------------------------------------------------------------------

  /** The growable buffer and the operations used on it. */
  class Vec {
    var bytes: Octets

    constructor (bytes: Octets)
      ensures this.bytes == bytes
    {
      this.bytes := bytes;
    }

    method Extend(more: Octets)
      modifies this
      ensures bytes == old(bytes) + more
    {
      bytes := bytes + more;
    }

    method Truncate(n: nat)
      modifies this
      ensures bytes == if n < |old(bytes)| then old(bytes)[..n] else old(bytes)
    {
      if n < |bytes| {
        bytes := bytes[..n];
      }
    }

    method Resize(n: nat, value: bv8)
      modifies this
      ensures |bytes| == n && bytes[..Min(n, |old(bytes)|)] == old(bytes)[..Min(n, |old(bytes)|)]
      ensures forall i :: |old(bytes)| <= i < n ==> bytes[i] == value
    {
      bytes := if n <= |bytes| then bytes[..n] else bytes + seq(n - |bytes|, _ => value);
    }

    method CopyWithin(lo: nat, hi: nat, dest: nat)
      requires lo <= hi <= |bytes| && dest + (hi - lo) <= |bytes|
      modifies this
      ensures bytes == old(bytes)[..dest] + old(bytes)[lo..hi] + old(bytes)[dest + (hi - lo)..]
    {
      bytes := bytes[..dest] + bytes[lo..hi] + bytes[dest + (hi - lo)..];
    }

    method CopyFromSlice(at: nat, src: Octets)
      requires at + |src| <= |bytes|
      modifies this
      ensures bytes == old(bytes)[..at] + src + old(bytes)[at + |src|..]
    {
      bytes := bytes[..at] + src + bytes[at + |src|..];
    }

    /** `encrypt_padded` on the slice from `start`: the room for the padding must be there. */
    method EncryptPadded(c: Primitives, k: Octets, iv: Iv, start: nat, len: nat) returns (n: nat)
      requires Lawful(c) && start + len <= |bytes| && start + len + PadLength(len) <= |bytes|
      modifies this
      ensures n == len + PadLength(len) && |Pad(old(bytes)[start..start + len])| == n
      ensures bytes == old(bytes)[..start] + CbcEncrypt(c, k, iv, Pad(old(bytes)[start..start + len])) + old(bytes)[start + n..]
    {
      ghost var before, m := bytes[..start], bytes[start..start + len];
      n := len + PadLength(len);
      ghost var after := bytes[start + n..];
      CopyFromSlice(start + len, seq(PadLength(len), _ => PadLength(len) as bv8));
      assert bytes == before + Pad(m) + after;
      EncryptBlocks(c, k, iv, start, n, before, Pad(m), after);
    }

    /** The CBC blocks of the middle part, one at a time, each overwritten where it stands. */
    method EncryptBlocks(c: Primitives, k: Octets, iv: Iv, start: nat, n: nat,
                         ghost before: Octets, ghost m: Octets, ghost after: Octets)
      requires Lawful(c) && n % BLOCK == 0
      requires bytes == before + m + after && |before| == start && |m| == n
      modifies this
      ensures bytes == before + CbcEncrypt(c, k, iv, m) + after
      decreases n
    {
      if n > 0 {
        Splice(before, m, after, Xor(m[..BLOCK], iv));
        var block := c.encryptBlock(k, Xor(bytes[start..start + BLOCK], iv));
        Splice(before, m, after, block);
        CopyFromSlice(start, block);
        EncryptBlocks(c, k, block, start + BLOCK, n - BLOCK, before + block, m[BLOCK..], after);
        Assoc(before, block, CbcEncrypt(c, k, block, m[BLOCK..]));
      } else {
        assert m == [] && CbcEncrypt(c, k, iv, m) == m;
      }
    }

    method DecryptBlocks(c: Primitives, k: Octets, iv: Iv, start: nat, n: nat,
                         ghost before: Octets, ghost x: Octets, ghost after: Octets)
      requires Lawful(c) && n % BLOCK == 0
      requires bytes == before + x + after && |before| == start && |x| == n
      modifies this
      ensures bytes == before + CbcDecrypt(c, k, iv, x) + after
      decreases n
    {
      if n > 0 {
        var block := bytes[start..start + BLOCK];
        var plain := Xor(c.decryptBlock(k, block), iv);
        Splice(before, x, after, plain);
        CopyFromSlice(start, plain);
        DecryptBlocks(c, k, block, start + BLOCK, n - BLOCK, before + plain, x[BLOCK..], after);
        Assoc(before, plain, CbcDecrypt(c, k, block, x[BLOCK..]));
      } else {
        assert x == [] && CbcDecrypt(c, k, iv, x) == x;
      }
    }
  }

  function Min(a: int, b: int): int {
    if a < b then a else b
  }

  method EncryptInPlace(c: Primitives, iv: Iv, key: Key, buffer: Vec)
    requires Lawful(c)
    modifies buffer
    ensures buffer.bytes == Sealed(c, key, iv, old(buffer.bytes))
  {
    ghost var m := buffer.bytes;
    var len := |buffer.bytes|;
    buffer.Extend(seq(BLOCK, _ => 0));
    buffer.CopyWithin(0, len, BLOCK);
    buffer.CopyFromSlice(0, iv);
    assert buffer.bytes == iv + m;
    buffer.Extend(seq(BLOCK, _ => 0));
    assert buffer.bytes[BLOCK..BLOCK + len] == m;
    assert buffer.bytes[..BLOCK] == iv;
    var n := buffer.EncryptPadded(c, key[..32], iv, BLOCK, len);
    buffer.Truncate(BLOCK + n);
    assert buffer.bytes == iv + CbcEncrypt(c, key[..32], iv, Pad(m));
    buffer.Extend(c.hmac(key[32..], buffer.bytes));
  }

  /** Get rid of what stands before and behind: shift down, then cut. */
  method KeepMiddle(buffer: Vec, start: nat, n: nat, ghost before: Octets, ghost middle: Octets, ghost after: Octets)
    requires buffer.bytes == before + middle + after && |before| == start && n <= |middle|
    modifies buffer
    ensures buffer.bytes == middle[..n]
  {
    Splice(before, middle, after, middle[..n]);
    assert buffer.bytes[start..start + n] == middle[..n];
    buffer.CopyWithin(start, start + n, 0);
    assert buffer.bytes[..n] == middle[..n];
    buffer.Truncate(n);
  }

  method DecryptInPlace(c: Primitives, key: Key, buffer: Vec) returns (outcome: Outcome)
    requires Lawful(c)
    modifies buffer
    ensures (outcome, buffer.bytes) == Opened(c, key, old(buffer.bytes))
  {
    ghost var b := buffer.bytes;
    var len := |buffer.bytes|;
    if len < MAC_LEN {
      return Panicked;
    }
    var end := len - MAC_LEN;
    ghost var body, tag := b[..end], b[end..];
    if buffer.bytes[end..] != c.hmac(key[32..], buffer.bytes[..end]) {
      return MacError;
    }
    if end < BLOCK {
      return PaddingError;
    }
    var iv: Iv := buffer.bytes[..BLOCK];
    if (end - BLOCK) % BLOCK != 0 {
      return PaddingError;
    }
    assert body[..BLOCK] == iv && body[BLOCK..] == b[BLOCK..end];
    assert b == iv + b[BLOCK..end] + tag;
    buffer.DecryptBlocks(c, key[..32], iv, BLOCK, end - BLOCK, iv, b[BLOCK..end], tag);
    ghost var plain := CbcDecrypt(c, key[..32], iv, b[BLOCK..end]);
    assert buffer.bytes == iv + plain + tag;
    Splice(iv, plain, tag, plain);
    assert plain[..|plain|] == plain;
    var unpadded := Unpad(buffer.bytes[BLOCK..end]);
    if unpadded.None? {
      return PaddingError;
    }
    var n := |unpadded.value|;
    assert unpadded.value == plain[..n];
    KeepMiddle(buffer, BLOCK, n, iv, plain, tag);
    return Done;
  }

  // -- padding for upload -----------------------------------------------------------

  /** The padding part of an upload (src/sender.rs): the advertised size keeps 32 bits. */
  method PadAndEncrypt(c: Primitives, iv: Iv, key: Key, paddedLen: nat, contents: Vec) returns (size: nat)
    requires Lawful(c)
    modifies contents
    ensures size == |old(contents.bytes)| % 0x1_0000_0000
    ensures contents.bytes == Sealed(c, key, iv, Padded(old(contents.bytes), paddedLen))
  {
    ghost var m := contents.bytes;
    var len := |contents.bytes|;
    if paddedLen >= len {
      contents.Resize(paddedLen, 0);
      assert contents.bytes == m + contents.bytes[len..];
    }
    assert contents.bytes == Padded(m, paddedLen);
    EncryptInPlace(c, iv, key, contents);
    size := len % 0x1_0000_0000;
  }

  function Padded(m: Octets, paddedLen: nat): Octets {
    m + seq(if paddedLen < |m| then 0 else paddedLen - |m|, _ => 0)
  }

  /**
    Upload, download, truncate to the advertised size. The original comes back for every padded
    length, even one that is too short, as long as its length fits in the 32 bits of `size`; a larger
    attachment never comes back.
   */
  method UploadThenDownload(c: Primitives, iv: Iv, key: Key, paddedLen: nat, contents: Vec) returns (outcome: Outcome)
    requires Lawful(c)
    modifies contents
    ensures outcome == Done
    ensures contents.bytes == old(contents.bytes) <==> |old(contents.bytes)| < 0x1_0000_0000
  {
    ghost var m := contents.bytes;
    var size := PadAndEncrypt(c, iv, key, paddedLen, contents);
    OpenSealed(c, key, iv, Padded(m, paddedLen));
    outcome := DecryptInPlace(c, key, contents);
    contents.Truncate(size);
    assert Padded(m, paddedLen)[..|m|] == m;
  }

  lemma UploadRoundTrip(c: Primitives, key: Key, iv: Iv, m: Octets, paddedLen: nat)
    requires Lawful(c)
    ensures var (outcome, plain) := Opened(c, key, Sealed(c, key, iv, Padded(m, paddedLen)));
            && outcome == Done && |m| <= |plain| && plain[..|m|] == m
            && |plain| == (if paddedLen < |m| then |m| else paddedLen)
            && forall i :: |m| <= i < |plain| ==> plain[i] == 0
  {
    OpenSealed(c, key, iv, Padded(m, paddedLen));
    assert Padded(m, paddedLen)[..|m|] == m;
  }
}
