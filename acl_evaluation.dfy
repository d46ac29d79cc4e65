/**
 * The access decision `hasPermission` delegates to the ACL library, for a
 * single permission: an ACL answers yes when one of its granting entries
 * belongs to a caller SID and carries the permission's mask; otherwise, when
 * it inherits entries and has a parent, the parent answers; otherwise no.
 * A missing ACL answers no. The walk up the parent chain is bounded by a fuel
 * argument, which `Granted` sets to the number of stored ACLs.
 */
module AclEvaluation {
  import opened Permissions
  import opened SidResolver
  import opened AclModel

  /** Some granting entry of a caller SID carries `mask`. */
  predicate LocalGrant(es: seq<Ace>, sids: seq<Sid>, mask: int) {
    exists i :: 0 <= i < |es| && es[i].sid in sids && es[i].permission.mask == mask && es[i].granting
  }

  /** The ACL defers to its parent when it has no answer of its own. */
  predicate Inherits(acl: Acl) {
    acl.entriesInheriting && acl.parent.Some?
  }

  predicate AclGranted(store: map<Oid, Acl>, acl: Acl, sids: seq<Sid>, mask: int, fuel: nat)
    decreases fuel
  {
    LocalGrant(acl.entries, sids, mask)
    || (Inherits(acl) && fuel > 0 && acl.parent.value in store
        && AclGranted(store, store[acl.parent.value], sids, mask, fuel - 1))
  }

  /** The decision for the identity `oid`. */
  predicate Granted(store: map<Oid, Acl>, oid: Oid, sids: seq<Sid>, mask: int) {
    oid in store && AclGranted(store, store[oid], sids, mask, |store|)
  }

  /** A longer walk never takes a grant away. */
  lemma {:induction false} AclGrantedMonotone(store: map<Oid, Acl>, acl: Acl, sids: seq<Sid>, mask: int, fuel: nat, more: nat)
    requires AclGranted(store, acl, sids, mask, fuel)
    requires fuel <= more
    ensures AclGranted(store, acl, sids, mask, more)
    decreases fuel
  {
    if !LocalGrant(acl.entries, sids, mask) {
      AclGrantedMonotone(store, store[acl.parent.value], sids, mask, fuel - 1, more - 1);
    }
  }

  /** When no stored entry, nor the ACL's own, belongs to a caller SID, the answer is no along the whole chain. */
  lemma {:induction false} NoCallerEntryNoGrant(store: map<Oid, Acl>, acl: Acl, sids: seq<Sid>, mask: int, fuel: nat)
    requires forall i :: 0 <= i < |acl.entries| ==> acl.entries[i].sid !in sids
    requires forall o, i :: o in store && 0 <= i < |store[o].entries| ==> store[o].entries[i].sid !in sids
    ensures !AclGranted(store, acl, sids, mask, fuel)
    decreases fuel
  {
    if Inherits(acl) && fuel > 0 && acl.parent.value in store {
      NoCallerEntryNoGrant(store, store[acl.parent.value], sids, mask, fuel - 1);
    }
  }

  /** An inheriting child whose stored parent grants locally is granted. */
  lemma ParentGrantReachesChild(store: map<Oid, Acl>, child: Oid, sids: seq<Sid>, mask: int)
    requires child in store && Inherits(store[child]) && store[child].parent.value in store
    requires LocalGrant(store[store[child].parent.value].entries, sids, mask)
    ensures Granted(store, child, sids, mask)
  {
    assert |store| > 0 by {
      assert child in store.Keys;
    }
    assert AclGranted(store, store[store[child].parent.value], sids, mask, |store| - 1);
  }

  /** A child that does not inherit answers from its own entries only. */
  lemma NonInheritingIsLocal(store: map<Oid, Acl>, oid: Oid, sids: seq<Sid>, mask: int)
    requires oid in store && !Inherits(store[oid])
    ensures Granted(store, oid, sids, mask) <==> LocalGrant(store[oid].entries, sids, mask)
  {
  }
}
