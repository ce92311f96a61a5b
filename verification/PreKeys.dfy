/**
  Pre-key generation (src/pre_keys.rs): ids are taken from a cycle of 0xFFFFFE numbers, every record
  is saved and returned. Sums are those of u32 with wrap-around.
 */
module PreKeys {
  import opened Prelude

  const PRE_KEY_MEDIUM_MAX_VALUE: nat := 0xFFFFFF
  const CYCLE: nat := PRE_KEY_MEDIUM_MAX_VALUE - 1
  const U32: nat := 0x1_0000_0000

  type u32 = n: int | 0 <= n < U32

  /** `material` stands for the generated key pair and signature. */
  datatype Record = Record(id: nat, material: nat)

  function IdAt(offset: u32, i: u32): nat {
    (offset + i) % U32 % CYCLE + 1
  }

  function Successor(id: nat): nat {
    if id == CYCLE then 1 else id + 1
  }

  /** The records for `count` ids from `offset`; `material` is what the generator draws, in order. */
  function Batch(offset: u32, count: u32, material: nat -> nat): (r: seq<Record>)
    ensures |r| == count && forall i :: 0 <= i < count ==> r[i] == Record(IdAt(offset, i), material(i))
  {
    seq(count, i requires 0 <= i < count => Record(IdAt(offset, i), material(i)))
  }

  function SaveAll(saved: map<nat, Record>, records: seq<Record>): map<nat, Record> {
    if records == [] then saved
    else SaveAll(saved, records[..|records| - 1])[records[|records| - 1].id := records[|records| - 1]]
  }

  datatype Draws = Draws(preKey: nat -> nat, kyber: nat -> nat, signed: nat, lastResort: nat)

  /** `AssertionFailed` is the panic of the check that the last-resort id follows the batch. */
  datatype Outcome =
    | Issued(preKeys: seq<Record>, signedPreKey: Record, pqPreKeys: seq<Record>, lastResort: Option<Record>)
    | AssertionFailed

  /** The id reserved for the last-resort key is one up from the last one-time id. */
  predicate LastResortFollows(offset: u32, count: u32) {
    count == 0 || IdAt(offset, count - 1) + 1 == IdAt(offset, count)
  }

  class PreKeysStore {
    var nextPreKeyId: u32
    var nextSignedPreKeyId: u32
    var nextPqPreKeyId: u32
    var preKeys: map<nat, Record>
    var signedPreKeys: map<nat, Record>
    var kyberPreKeys: map<nat, Record>
    var lastResortKeys: map<nat, Record>

    method SavePreKey(r: Record)
      modifies this`preKeys
      ensures preKeys == old(preKeys)[r.id := r]
    {
      preKeys := preKeys[r.id := r];
    }

    method SaveKyberPreKey(r: Record)
      modifies this`kyberPreKeys
      ensures kyberPreKeys == old(kyberPreKeys)[r.id := r]
    {
      kyberPreKeys := kyberPreKeys[r.id := r];
    }

    method GeneratePreKeys(count: u32, material: nat -> nat) returns (issued: seq<Record>)
      modifies this`preKeys
      ensures issued == Batch(nextPreKeyId, count, material) && preKeys == SaveAll(old(preKeys), issued)
    {
      issued := [];
      for i := 0 to count
        invariant issued == Batch(nextPreKeyId, i, material) && preKeys == SaveAll(old(preKeys), issued)
      {
        var record := Record(IdAt(nextPreKeyId, i), material(i));
        SavePreKey(record);
        assert (issued + [record])[..i] == issued;
        issued := issued + [record];
      }
    }

    method GenerateKyberPreKeys(count: u32, material: nat -> nat) returns (issued: seq<Record>)
      modifies this`kyberPreKeys
      ensures issued == Batch(nextPqPreKeyId, count, material) && kyberPreKeys == SaveAll(old(kyberPreKeys), issued)
    {
      issued := [];
      for i := 0 to count
        invariant issued == Batch(nextPqPreKeyId, i, material) && kyberPreKeys == SaveAll(old(kyberPreKeys), issued)
      {
        var record := Record(IdAt(nextPqPreKeyId, i), material(i));
        SaveKyberPreKey(record);
        assert (issued + [record])[..i] == issued;
        issued := issued + [record];
      }
    }

    method Replenish(useLastResort: bool, preKeyCount: u32, kyberCount: u32, draws: Draws) returns (r: Outcome)
      modifies this`preKeys, this`signedPreKeys, this`kyberPreKeys, this`lastResortKeys
      ensures preKeys == SaveAll(old(preKeys), Batch(nextPreKeyId, preKeyCount, draws.preKey))
      ensures kyberPreKeys == SaveAll(old(kyberPreKeys), Batch(nextPqPreKeyId, kyberCount, draws.kyber))
      ensures var signed := Record(nextSignedPreKeyId, draws.signed);
              var last := Record(IdAt(nextPqPreKeyId, kyberCount), draws.lastResort);
              && signedPreKeys == old(signedPreKeys)[signed.id := signed]
              && (if useLastResort && !LastResortFollows(nextPqPreKeyId, kyberCount) then
                    r == AssertionFailed && lastResortKeys == old(lastResortKeys)
                  else
                    && r == Issued(Batch(nextPreKeyId, preKeyCount, draws.preKey), signed,
                                   Batch(nextPqPreKeyId, kyberCount, draws.kyber),
                                   if useLastResort then Some(last) else None)
                    && lastResortKeys == if useLastResort then old(lastResortKeys)[last.id := last] else old(lastResortKeys))
    {
      var issued := GeneratePreKeys(preKeyCount, draws.preKey);
      var pqIssued := GenerateKyberPreKeys(kyberCount, draws.kyber);
      var signed := Record(nextSignedPreKeyId, draws.signed);
      signedPreKeys := signedPreKeys[signed.id := signed];
      var lastResort := None;
      if useLastResort {
        var id := IdAt(nextPqPreKeyId, kyberCount);
        if pqIssued != [] && pqIssued[|pqIssued| - 1].id + 1 != id {
          return AssertionFailed;
        }
        var record := Record(id, draws.lastResort);
        lastResortKeys := lastResortKeys[id := record];
        lastResort := Some(record);
      }
      r := Issued(issued, signed, pqIssued, lastResort);
    }
  }

  // -- the id cycle -----------------------------------------------------------------

  /** How much of the last round is left when the sum wraps at 32 bits. */
  const REMAINDER: nat := 512

  lemma WrapsInTheCycle()
    ensures U32 == 256 * CYCLE + REMAINDER
  {
  }

  lemma SameResidue(a: nat, b: nat)
    requires a <= b < a + CYCLE && a % CYCLE == b % CYCLE
    ensures a == b
  {
  }

  lemma NextResidue(a: nat)
    ensures (a + 1) % CYCLE == if a % CYCLE == CYCLE - 1 then 0 else a % CYCLE + 1
  {
  }

  /** An id, without the wrap-around written out. */
  lemma IdFrom(offset: u32, i: u32)
    ensures IdAt(offset, i) == (if offset + i < U32 then (offset + i) % CYCLE else (offset + i - U32) % CYCLE) + 1
    ensures 1 <= IdAt(offset, i) <= CYCLE
  {
    assert offset + i < 2 * U32;
  }

  /** Ids are never 0 and never above 0xFFFFFE, whatever the offset, wrapped or not. */
  lemma IdsInRange(offset: u32, i: u32)
    ensures 1 <= IdAt(offset, i) <= 0xFFFFFE
    ensures offset < 0xFFFFFE ==> IdAt(offset, 0) == offset + 1
  {
    IdFrom(offset, i);
  }

  /** Each id follows the one before around the cycle, except where the sum wraps: there 1 follows 512. */
  lemma IdsAreConsecutiveIff(offset: u32, i: u32)
    requires i + 1 < U32
    ensures IdAt(offset, i + 1) == Successor(IdAt(offset, i)) <==> offset + i + 1 != U32
    ensures offset + i + 1 == U32 ==> IdAt(offset, i) == REMAINDER && IdAt(offset, i + 1) == 1
  {
    IdFrom(offset, i);
    IdFrom(offset, i + 1);
    WrapsInTheCycle();
    if offset + i + 1 < U32 {
      NextResidue(offset + i);
    } else if offset + i + 1 > U32 {
      NextResidue(offset + i - U32);
    }
  }

  /** The check before the last-resort key fails exactly for a non-empty batch whose end starts a round. */
  lemma AssertionHoldsIff(offset: u32, count: u32)
    ensures LastResortFollows(offset, count) <==> count == 0 || (offset + count) % U32 % CYCLE != 0
  {
    if count > 0 {
      IdsAreConsecutiveIff(offset, count - 1);
      IdsInRange(offset, count - 1);
    }
  }

  /** One key, under the last id of a round: the last-resort key's id is 1, and the check fails. */
  lemma EndOfARoundFails()
    ensures IdAt(CYCLE - 1, 0) == CYCLE && IdAt(CYCLE - 1, 1) == 1 && !LastResortFollows(CYCLE - 1, 1)
  {
    AssertionHoldsIff(CYCLE - 1, 1);
  }

  ghost predicate DistinctIds(offset: u32, count: u32) {
    forall i, j :: 0 <= i < j < count ==> IdAt(offset, i) != IdAt(offset, j)
  }

  /** Two sums on the same side of the wrap, less than a round apart. */
  lemma SameSideDiffers(offset: u32, i: u32, j: u32)
    requires i < j < i + CYCLE && (offset + j < U32 || U32 <= offset + i)
    ensures IdAt(offset, i) != IdAt(offset, j)
  {
    IdFrom(offset, i);
    IdFrom(offset, j);
    if IdAt(offset, i) == IdAt(offset, j) {
      if offset + j < U32 {
        SameResidue(offset + i, offset + j);
      } else {
        SameResidue(offset + i - U32, offset + j - U32);
      }
    }
  }

  /** The last 512 sums before the wrap have the ids 1 to 512, and so have the first 512 after it. */
  lemma AroundTheWrap(offset: u32, i: u32)
    ensures U32 - REMAINDER <= offset + i < U32 ==> IdAt(offset, i) == offset + i - (U32 - REMAINDER) + 1
    ensures U32 <= offset + i < U32 + CYCLE ==> IdAt(offset, i) == offset + i - U32 + 1
  {
    IdFrom(offset, i);
    WrapsInTheCycle();
    if U32 - REMAINDER <= offset + i < U32 {
      var k := offset + i - 256 * CYCLE;
      assert (256 * CYCLE + k) % CYCLE == k;
    }
  }

  /** Sums on both sides of the wrap, no more than 512 terms in all. */
  lemma OppositeSidesDiffer(offset: u32, i: u32, j: u32)
    requires offset + i < U32 <= offset + j && j - i < REMAINDER
    ensures IdAt(offset, i) != IdAt(offset, j)
  {
    AroundTheWrap(offset, i);
    AroundTheWrap(offset, j);
  }

  /** The longest batch with pairwise distinct ids: a whole round, or 512 ids if the sum wraps within it. */
  function LongestDistinct(offset: u32, count: u32): nat {
    if offset + count <= U32 then CYCLE else REMAINDER
  }

  /** A batch has pairwise distinct ids exactly if it is no longer than that. */
  lemma IdsAreDistinctIff(offset: u32, count: u32)
    ensures DistinctIds(offset, count) <==> count <= LongestDistinct(offset, count)
  {
    if count <= LongestDistinct(offset, count) {
      forall i, j | 0 <= i < j < count
        ensures IdAt(offset, i) != IdAt(offset, j)
      {
        if offset + i < U32 <= offset + j {
          OppositeSidesDiffer(offset, i, j);
        } else {
          SameSideDiffers(offset, i, j);
        }
      }
    } else if offset + count <= U32 {
      RoundLater(offset, 0);
    } else {
      WrapRepeats(offset, count);
    }
  }

  lemma RoundLater(offset: u32, i: u32)
    requires i + CYCLE < U32 && (offset + i + CYCLE < U32 || U32 <= offset + i)
    ensures IdAt(offset, i) == IdAt(offset, i + CYCLE)
  {
    IdFrom(offset, i);
    IdFrom(offset, i + CYCLE);
    OneRound(if offset + i < U32 then offset + i else offset + i - U32);
  }

  lemma OneRound(a: nat)
    ensures (a + CYCLE) % CYCLE == a % CYCLE
  {
  }

  /** Some sum before the wrap has the id of some sum after it. */
  lemma WrapRepeats(offset: u32, count: u32)
    requires offset + count > U32 && count > REMAINDER
    ensures !DistinctIds(offset, count)
  {
    // The sum U32 - 512 has id 1, and so has the sum U32. If the batch starts later, its first id returns.
    var before := if offset <= U32 - REMAINDER then U32 - REMAINDER - offset else 0;
    var after := before + REMAINDER;
    AroundTheWrap(offset, before);
    AroundTheWrap(offset, after);
    assert IdAt(offset, before) == IdAt(offset, after);
  }

  /** The ids of the sums up to a round before the last 512. */
  lemma BeforeTheWrap(offset: u32, i: u32, t: nat)
    requires offset + i == U32 - t && 1 <= t <= REMAINDER + CYCLE
    ensures IdAt(offset, i) == (if t <= REMAINDER then REMAINDER - t else CYCLE + REMAINDER - t) + 1
  {
    IdFrom(offset, i);
    WrapsInTheCycle();
    if t <= REMAINDER {
      InRound(256, REMAINDER - t);
    } else {
      InRound(255, CYCLE + REMAINDER - t);
    }
  }

  lemma InRound(rounds: nat, rest: nat)
    requires rest < CYCLE && rounds <= 256
    ensures (rounds * CYCLE + rest) % CYCLE == rest
  {
  }

  ghost predicate LastResortIsFresh(offset: u32, count: u32) {
    forall i :: 0 <= i < count ==> IdAt(offset, i) != IdAt(offset, count)
  }

  /**
    The batch leaves the next id unused. Past the wrap that takes a batch shorter than 512, or one that
    goes on beyond the 512 repeated ids but not as far as those it began with.
   */
  predicate LeavesNextFree(offset: u32, count: u32) {
    if offset + count < U32 then count < CYCLE
    else
      var next := offset + count - U32;
      count < REMAINDER || (REMAINDER <= next < CYCLE && next < CYCLE + REMAINDER - (U32 - offset))
  }

  lemma FreshAfterWrap(offset: u32, count: u32, i: u32)
    requires offset + count >= U32 && LeavesNextFree(offset, count) && i < count
    ensures IdAt(offset, i) != IdAt(offset, count)
  {
    if count < REMAINDER && offset + i < U32 {
      OppositeSidesDiffer(offset, i, count);
    } else if count < REMAINDER || U32 <= offset + i {
      SameSideDiffers(offset, i, count);
    } else {
      AroundTheWrap(offset, count);
      BeforeTheWrap(offset, i, U32 - offset - i);
    }
  }

  lemma TakenAfterWrap(offset: u32, count: u32) returns (i: u32)
    requires offset + count >= U32 && !LeavesNextFree(offset, count)
    ensures i < count && IdAt(offset, i) == IdAt(offset, count)
  {
    var next := offset + count - U32;
    if next >= CYCLE {
      i := count - CYCLE;
      RoundLater(offset, i);
    } else {
      var t := if next < REMAINDER then REMAINDER - next else CYCLE + REMAINDER - next;
      i := U32 - t - offset;
      BeforeTheWrap(offset, i, t);
      AroundTheWrap(offset, count);
    }
  }

  /** The last-resort id is none of the one-time ids exactly if they leave the next id free. */
  lemma LastResortIsFreshIff(offset: u32, count: u32)
    ensures LastResortIsFresh(offset, count) <==> LeavesNextFree(offset, count)
  {
    if offset + count >= U32 {
      if LeavesNextFree(offset, count) {
        forall i | 0 <= i < count
          ensures IdAt(offset, i) != IdAt(offset, count)
        {
          FreshAfterWrap(offset, count, i);
        }
      } else {
        var i := TakenAfterWrap(offset, count);
      }
    } else if count < CYCLE {
      forall i | 0 <= i < count
        ensures IdAt(offset, i) != IdAt(offset, count)
      {
        SameSideDiffers(offset, i, count);
      }
    } else {
      RoundLater(offset, count - CYCLE);
      assert IdAt(offset, count - CYCLE) == IdAt(offset, count);
    }
  }

  // -- saved records ----------------------------------------------------------------

  /** What is saved under an id of the batch: its last record with that id. */
  lemma {:induction false} SavedUnder(saved: map<nat, Record>, records: seq<Record>, i: nat) returns (j: nat)
    requires i < |records|
    ensures i <= j < |records| && records[j].id == records[i].id
    ensures records[i].id in SaveAll(saved, records) && SaveAll(saved, records)[records[i].id] == records[j]
    decreases records
  {
    var n := |records| - 1;
    if records[n].id == records[i].id {
      j := n;
    } else {
      j := SavedUnder(saved, records[..n], i);
    }
  }

  ghost predicate AllSaved(saved: map<nat, Record>, records: seq<Record>) {
    forall i :: 0 <= i < |records| ==> records[i].id in saved && saved[records[i].id] == records[i]
  }

  /** Every returned record is in the store under its id exactly if no id was used for two different keys. */
  lemma ReturnedAreSavedIff(saved: map<nat, Record>, offset: u32, count: u32, material: nat -> nat)
    ensures var records := Batch(offset, count, material);
            AllSaved(SaveAll(saved, records), records) <==>
              forall i, j :: 0 <= i < j < count && IdAt(offset, i) == IdAt(offset, j) ==> material(i) == material(j)
  {
    var records := Batch(offset, count, material);
    if AllSaved(SaveAll(saved, records), records) {
      forall i, j | 0 <= i < j < count && IdAt(offset, i) == IdAt(offset, j)
        ensures material(i) == material(j)
      {
        assert records[i] == Record(IdAt(offset, i), material(i)) && records[j] == Record(IdAt(offset, j), material(j));
      }
    } else {
      var i :| 0 <= i < |records| && !(records[i].id in SaveAll(saved, records) && SaveAll(saved, records)[records[i].id] == records[i]);
      var j := SavedUnder(saved, records, i);
      assert IdAt(offset, i) == IdAt(offset, j) && material(i) != material(j);
    }
  }

  /** In particular when the batch is no longer than the ids allow. */
  lemma ReturnedAreSaved(saved: map<nat, Record>, offset: u32, count: u32, material: nat -> nat)
    requires count <= LongestDistinct(offset, count)
    ensures var records := Batch(offset, count, material); AllSaved(SaveAll(saved, records), records)
  {
    IdsAreDistinctIff(offset, count);
    ReturnedAreSavedIff(saved, offset, count, material);
  }
}
