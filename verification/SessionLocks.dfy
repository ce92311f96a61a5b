/**
  The per-peer lock table (src/session_lock.rs). The table hands out one lock object per
  peer and never forgets it; SessionProtocol shows what that buys the ratchet.
 */
module SessionLocks {
  import opened Prelude

  /** What `entry(peer).or_default()` does to a table, whatever stands for a lock. */
  ghost predicate Resolved<L>(before: map<ServiceId, L>, after: map<ServiceId, L>, peer: ServiceId, lock: L)
  {
    && peer in after && after[peer] == lock
    && (peer in before ==> after == before)
    && (peer !in before ==> after == before[peer := lock] && lock !in before.Values)
  }

  /** Distinct peers have distinct locks. */
  ghost predicate Distinct<L>(table: map<ServiceId, L>)
  {
    forall p, q :: p in table && q in table && table[p] == table[q] ==> p == q
  }

  /** No lookup ever replaces or aliases a lock that some task may already be waiting on. */
  lemma ResolvedKeepsIdentity<L>(before: map<ServiceId, L>, after: map<ServiceId, L>, peer: ServiceId, lock: L)
    requires Distinct(before) && Resolved(before, after, peer, lock)
    ensures Distinct(after)
    ensures forall p :: p in before ==> p in after && after[p] == before[p]
  {
    assert forall p :: p in before ==> before[p] in before.Values;
  }

  class PeerLock {
    constructor () {}
  }

  class SessionLocks {
    var peers: map<ServiceId, PeerLock>

    ghost predicate Valid()
      reads this
    {
      Distinct(peers)
    }

    constructor ()
      ensures Valid() && peers == map[]
    {
      peers := map[];
    }

    /** The synchronous half of `lock`: look the peer up, inserting a fresh lock if it is new. */
    method EntryOrDefault(peer: ServiceId) returns (lock: PeerLock)
      requires Valid()
      modifies this
      ensures Valid() && Resolved(old(peers), peers, peer, lock)
      ensures peer !in old(peers) ==> fresh(lock)
      ensures forall p :: p in old(peers) ==> p in peers && peers[p] == old(peers[p])
    {
      if peer !in peers {
        var default := new PeerLock();
        peers := peers[peer := default];
      }
      lock := peers[peer];
      ResolvedKeepsIdentity(old(peers), peers, peer, lock);
    }
  }
}
