/** Vocabulary shared by the models: optional values, results, bytes and service identifiers. */
module Prelude {

  datatype Option<+T> = None | Some(value: T)
  {
    function GetOr(default: T): T {
      if Some? then value else default
    }
  }

  datatype Result<+T, +E> = Ok(value: T) | Err(error: E)
  {
    predicate IsFailure() {
      Err?
    }

    function PropagateFailure<U>(): Result<U, E>
      requires Err?
    {
      Err(error)
    }

    function Extract(): T
      requires Ok?
    {
      value
    }
  }

  type byte = x: int | 0 <= x < 256

  type Bytes = seq<byte>

  /** An account identifier: the 128-bit UUID is kept as a number. */
  datatype ServiceId = Aci(uuid: nat) | Pni(uuid: nat)

  function Zeros(n: nat): (z: Bytes)
    ensures |z| == n && forall i :: 0 <= i < n ==> z[i] == 0
  {
    seq(n, _ => 0)
  }

  /** Decimal digits, no leading zeros. */
  function Decimal(n: nat): (s: string)
    ensures |s| >= 1
  {
    var digit := [(n % 10 + '0' as int) as char];
    if n < 10 then digit else Decimal(n / 10) + digit
  }

  lemma {:induction false} DecimalInjective(m: nat, n: nat)
    requires Decimal(m) == Decimal(n)
    ensures m == n
    decreases m
  {
    assert Decimal(m)[|Decimal(m)| - 1] == Decimal(n)[|Decimal(n)| - 1];
    assert m % 10 == n % 10;
    if m >= 10 && n >= 10 {
      assert Decimal(m / 10) == Decimal(m)[..|Decimal(m)| - 1] == Decimal(n)[..|Decimal(n)| - 1] == Decimal(n / 10);
      DecimalInjective(m / 10, n / 10);
    }
  }

  predicate IsDigit(c: char) {
    '0' <= c <= '9'
  }

  /** The number that a string of digits stands for. */
  function Horner(s: string): nat
    requires forall c :: c in s ==> IsDigit(c)
  {
    if s == "" then 0
    else
      assert IsDigit(s[|s| - 1]);
      10 * Horner(s[..|s| - 1]) + (s[|s| - 1] as int - '0' as int)
  }

  /** The decimal text of a number: digits that stand for it, without a leading zero. */
  lemma {:induction false} DecimalIsDecimal(n: nat)
    ensures forall c :: c in Decimal(n) ==> IsDigit(c)
    ensures Horner(Decimal(n)) == n
    ensures Decimal(n)[0] == '0' ==> n == 0
  {
    var digit := (n % 10 + '0' as int) as char;
    if n < 10 {
      assert Horner([digit]) == 10 * Horner([]) + n;
    } else {
      DecimalIsDecimal(n / 10);
      assert Decimal(n)[..|Decimal(n)| - 1] == Decimal(n / 10);
    }
  }

  lemma PrefixNext<T>(s: seq<T>, i: nat)
    requires i < |s|
    ensures s[..i + 1] == s[..i] + [s[i]]
  {
  }

  lemma PrefixEnds<T>(s: seq<T>)
    ensures s[..0] == [] && s[..|s|] == s
  {
  }

  lemma Assoc<T>(a: seq<T>, b: seq<T>, c: seq<T>)
    ensures (a + b) + c == a + (b + c)
  {
  }

  /** Overwriting the front of the middle part of a sequence. */
  lemma Splice<T>(before: seq<T>, middle: seq<T>, after: seq<T>, y: seq<T>)
    requires |y| <= |middle|
    ensures var s, i, n := before + middle + after, |before|, |y|;
            && s[..i] == before && s[i..i + n] == middle[..n] && s[i + |middle|..] == after
            && s[..i] + y + s[i + n..] == (before + y) + middle[n..] + after
  {
  }
}
