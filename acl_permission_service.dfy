/**
 * The permission service: a store of ACLs keyed by object identity, a cache
 * of ACLs read from the store, and the list of published change events. Each
 * operation is proved to move the store and the events exactly as the
 * matching function of AclTransitions does, to keep the store invariant,
 * and to leave the cache coherent with the store.
 */
module PermissionService {
  import opened Wrappers
  import opened Permissions
  import opened SidResolver
  import opened AclModel
  import opened AclEvaluation
  import opened AclTransitions
  import opened PermissionRegistry

  /** Every cached ACL is the stored one. */
  ghost predicate CacheCoherent(store: map<Oid, Acl>, cache: map<Oid, Acl>) {
    forall o :: o in cache ==> o in store && cache[o] == store[o]
  }

  class AclPermissionService {
    var store: map<Oid, Acl>
    var cache: map<Oid, Acl>
    var events: seq<ChangeEvent>
    const registry: AclPermissionRegistry

    ghost predicate Valid()
      reads this, registry
    {
      registry.Valid() && Inv(store) && CacheCoherent(store, cache)
    }

    function State(): Engine
      reads this
    {
      Engine(store, events)
    }

    constructor (registry: AclPermissionRegistry)
      requires registry.Valid()
      ensures Valid()
      ensures this.registry == registry
      ensures store == map[] && cache == map[] && events == []
    {
      this.registry := registry;
      store := map[];
      cache := map[];
      events := [];
    }

    /** ensureAcl: the cached or stored ACL, or a new one (CREATE published); the result is cached. */
    method EnsureAcl(oid: Oid, actor: string) returns (acl: Acl)
      requires Valid()
      modifies this
      ensures Valid()
      ensures State() == Ensure(old(State()), oid, actor)
      ensures acl == store[oid]
      ensures cache == old(cache)[oid := acl]
    {
      if oid in cache {
        acl := cache[oid];
      } else if oid in store {
        acl := store[oid];
        cache := cache[oid := acl];
      } else {
        acl := NewAcl(actor);
        store := store[oid := acl];
        events := events + [ChangeEvent(CREATE, oid, None, [], actor)];
        cache := cache[oid := acl];
      }
    }

    /** updateAcl: persist the ACL, then evict exactly that identity from the cache. */
    method UpdateAcl(oid: Oid, acl: Acl)
      requires Valid()
      requires Inv(store[oid := acl])
      modifies this
      ensures Valid()
      ensures store == old(store)[oid := acl]
      ensures cache == old(cache) - {oid}
      ensures events == old(events)
    {
      store := store[oid := acl];
      cache := cache - {oid};
    }

    /** evictCache: drop one identity from the cache; nothing else changes, and an uncached identity is no error. */
    method EvictCache(oid: Oid)
      requires Valid()
      modifies this`cache
      ensures Valid()
      ensures cache == old(cache) - {oid}
      ensures oid !in old(cache) ==> cache == old(cache)
    {
      cache := cache - {oid};
    }

    /** isPermissionGranted: scan the entries for a granting one of the SID with the permission's mask. */
    method IsPermissionGranted(entries: seq<Ace>, sid: Sid, permission: Permission) returns (granted: bool)
      ensures granted <==>
        exists i :: 0 <= i < |entries| && entries[i].sid == sid && entries[i].permission.mask == permission.mask && entries[i].granting
      ensures granted == HasGrant(entries, sid, permission.mask)
    {
      for i := 0 to |entries|
        invariant forall k :: 0 <= k < i ==> !GrantsTo(entries[k], sid, permission.mask)
      {
        var entry := entries[i];
        if entry.sid == sid && entry.permission.mask == permission.mask && entry.granting {
          assert GrantsTo(entries[i], sid, permission.mask);
          return true;
        }
      }
      return false;
    }

    /**
     * addPermissionsIfMissing: for each requested permission in order, append
     * a granting entry at the end unless one is already there; report whether
     * anything was appended.
     */
    method AddPermissionsIfMissing(entries: seq<Ace>, sid: Sid, permissions: seq<Permission>)
      returns (updated: seq<Ace>, changed: bool)
      ensures updated == AddMissing(entries, sid, permissions)
      ensures |updated| >= |entries| && updated[..|entries|] == entries
      ensures changed <==> |updated| > |entries|
      ensures changed <==> exists p :: p in permissions && !HasGrant(entries, sid, p.mask)
    {
      updated := entries;
      changed := false;
      for i := 0 to |permissions|
        invariant updated == AddMissing(entries, sid, permissions[..i])
        invariant |updated| >= |entries|
        invariant changed <==> |updated| > |entries|
      {
        assert permissions[..i + 1][..i] == permissions[..i];
        var granted := IsPermissionGranted(updated, sid, permissions[i]);
        if !granted {
          updated := updated + [Ace(sid, permissions[i], true)];
          changed := true;
        }
      }
      assert permissions[..|permissions|] == permissions;
      AddMissingAppends(entries, sid, permissions);
      AddMissingChanged(entries, sid, permissions);
    }

    /**
     * The deletion loop of revokePermissions and revokeAllForSid: walk the
     * indices of a snapshot from the last to the first and delete each
     * matching entry at its index; report whether anything was deleted.
     */
    method DeleteMatchingEntries(entries: seq<Ace>, sid: Sid, filter: MaskFilter)
      returns (updated: seq<Ace>, changed: bool)
      ensures updated == Survivors(entries, sid, filter)
      ensures changed <==> exists i :: 0 <= i < |entries| && Matches(entries[i], sid, filter)
    {
      updated := entries;
      changed := false;
      var i := |entries|;
      while i > 0
        invariant 0 <= i <= |entries|
        invariant updated == entries[..i] + Survivors(entries[i..], sid, filter)
        invariant changed <==> |updated| < |entries|
      {
        i := i - 1;
        DeleteStep(entries, i, sid, filter);
        if Matches(entries[i], sid, filter) {
          updated := updated[..i] + updated[i + 1..];
          changed := true;
        }
      }
      assert entries[0..] == entries;
      SurvivorsChanged(entries, sid, filter);
    }

    /** grantPermissions: an empty request does nothing; otherwise append the missing grants, persist, and publish GRANT if anything changed. */
    method GrantPermissions(oid: Oid, sid: Sid, permissions: seq<Permission>, actor: string)
      requires Valid()
      modifies this
      ensures Valid()
      ensures State() == Grant(old(State()), oid, sid, permissions, actor)
      ensures forall o :: o != oid ==> (o in cache <==> o in old(cache))
    {
      if |permissions| == 0 {
        return;
      }
      var acl := EnsureAcl(oid, actor);
      ghost var created := State();
      var entries, changed := AddPermissionsIfMissing(acl.entries, sid, permissions);
      if changed {
        AddMissingKeepsWellFormed(acl.entries, sid, permissions);
        InvAfterUpdate(store, oid, acl.(entries := entries));
        UpdateAcl(oid, acl.(entries := entries));
        events := events + [ChangeEvent(GRANT, oid, Some(sid), permissions, actor)];
        assert State() == Engine(created.store[oid := acl.(entries := entries)],
                                 created.events + [ChangeEvent(GRANT, oid, Some(sid), permissions, actor)]);
      }
    }

    method GrantToUser(oid: Oid, username: string, permissions: seq<Permission>, actor: string)
      requires Valid()
      modifies this
      ensures Valid()
      ensures State() == Grant(old(State()), oid, Principal(username), permissions, actor)
      ensures forall o :: o != oid ==> (o in cache <==> o in old(cache))
    {
      GrantPermissions(oid, PrincipalSid(username), permissions, actor);
    }

    method GrantToGroup(oid: Oid, groupName: string, permissions: seq<Permission>, actor: string)
      requires Valid()
      modifies this
      ensures Valid()
      ensures State() == Grant(old(State()), oid, Authority("GROUP_" + groupName), permissions, actor)
      ensures forall o :: o != oid ==> (o in cache <==> o in old(cache))
    {
      GrantPermissions(oid, GroupSid(groupName), permissions, actor);
    }

    method GrantToRole(oid: Oid, roleName: string, permissions: seq<Permission>, actor: string)
      requires Valid()
      modifies this
      ensures Valid()
      ensures State() == Grant(old(State()), oid, Authority("ROLE_" + roleName), permissions, actor)
      ensures forall o :: o != oid ==> (o in cache <==> o in old(cache))
    {
      GrantPermissions(oid, RoleSid(roleName), permissions, actor);
    }

    method GrantToAuthority(oid: Oid, authority: string, permissions: seq<Permission>, actor: string)
      requires Valid()
      modifies this
      ensures Valid()
      ensures State() == Grant(old(State()), oid, Authority(authority), permissions, actor)
      ensures forall o :: o != oid ==> (o in cache <==> o in old(cache))
    {
      GrantPermissions(oid, AuthoritySid(authority), permissions, actor);
    }

    /** bulkGrant: grantPermissions for each identifier in order; an empty list does nothing. */
    method BulkGrant(oids: seq<Oid>, sid: Sid, permissions: seq<Permission>, actor: string)
      requires Valid()
      modifies this
      ensures Valid()
      ensures State() == AclTransitions.BulkGrant(old(State()), oids, sid, permissions, actor)
      ensures forall o :: o !in oids ==> (o in cache <==> o in old(cache))
    {
      if |oids| == 0 {
        return;
      }
      for i := 0 to |oids|
        invariant Valid()
        invariant State() == AclTransitions.BulkGrant(old(State()), oids[..i], sid, permissions, actor)
        invariant forall o :: o !in oids ==> (o in cache <==> o in old(cache))
      {
        assert oids[..i + 1][..i] == oids[..i];
        GrantPermissions(oids[i], sid, permissions, actor);
      }
      assert oids[..|oids|] == oids;
    }

    method BulkGrantToUsers(oids: seq<Oid>, username: string, permissions: seq<Permission>, actor: string)
      requires Valid()
      modifies this
      ensures Valid()
      ensures State() == AclTransitions.BulkGrant(old(State()), oids, Principal(username), permissions, actor)
      ensures forall o :: o !in oids ==> (o in cache <==> o in old(cache))
    {
      BulkGrant(oids, PrincipalSid(username), permissions, actor);
    }

    /** revokePermissions: an empty request does nothing; otherwise delete the matching entries, persist, and publish REVOKE if anything changed. */
    method RevokePermissions(oid: Oid, sid: Sid, permissions: seq<Permission>, actor: string)
      requires Valid()
      modifies this
      ensures Valid()
      ensures State() == Revoke(old(State()), oid, sid, permissions, actor)
      ensures forall o :: o != oid ==> (o in cache <==> o in old(cache))
    {
      if |permissions| == 0 {
        return;
      }
      var acl := EnsureAcl(oid, actor);
      ghost var created := State();
      var masks := Masks(permissions);
      var entries, changed := DeleteMatchingEntries(acl.entries, sid, MaskIn(masks));
      SurvivorsChanged(acl.entries, sid, MaskIn(masks));
      if changed {
        SurvivorsKeepWellFormed(acl.entries, sid, MaskIn(masks));
        InvAfterUpdate(store, oid, acl.(entries := entries));
        UpdateAcl(oid, acl.(entries := entries));
        events := events + [ChangeEvent(REVOKE, oid, Some(sid), permissions, actor)];
        assert State() == Engine(created.store[oid := acl.(entries := entries)],
                                 created.events + [ChangeEvent(REVOKE, oid, Some(sid), permissions, actor)]);
      }
    }

    /** bulkRevoke: revokePermissions for each identifier in order; an empty list does nothing. */
    method BulkRevoke(oids: seq<Oid>, sid: Sid, permissions: seq<Permission>, actor: string)
      requires Valid()
      modifies this
      ensures Valid()
      ensures State() == AclTransitions.BulkRevoke(old(State()), oids, sid, permissions, actor)
      ensures forall o :: o !in oids ==> (o in cache <==> o in old(cache))
    {
      if |oids| == 0 {
        return;
      }
      for i := 0 to |oids|
        invariant Valid()
        invariant State() == AclTransitions.BulkRevoke(old(State()), oids[..i], sid, permissions, actor)
        invariant forall o :: o !in oids ==> (o in cache <==> o in old(cache))
      {
        assert oids[..i + 1][..i] == oids[..i];
        RevokePermissions(oids[i], sid, permissions, actor);
      }
      assert oids[..|oids|] == oids;
    }

    /** revokeAllForSid: delete every entry of the SID and persist if anything changed; no event of its own. */
    method RevokeAllForSid(oid: Oid, sid: Sid, actor: string)
      requires Valid()
      modifies this
      ensures Valid()
      ensures State() == RevokeAll(old(State()), oid, sid, actor)
      ensures forall o :: o != oid ==> (o in cache <==> o in old(cache))
    {
      var acl := EnsureAcl(oid, actor);
      ghost var created := State();
      var entries, changed := DeleteMatchingEntries(acl.entries, sid, AnyMask);
      SurvivorsChanged(acl.entries, sid, AnyMask);
      if changed {
        SurvivorsKeepWellFormed(acl.entries, sid, AnyMask);
        InvAfterUpdate(store, oid, acl.(entries := entries));
        UpdateAcl(oid, acl.(entries := entries));
        assert State() == Engine(created.store[oid := acl.(entries := entries)], created.events);
      }
    }

    /** The edits applyOwnership makes to the ACL object: set the owner if it differs, then add the missing owner defaults. */
    method TakeOwnership(acl: Acl, ownerSid: Sid, defaults: seq<Permission>) returns (updated: Acl, changed: bool)
      ensures updated == acl.(owner := Some(ownerSid), entries := AddMissing(acl.entries, ownerSid, defaults))
      ensures changed <==> acl.owner != Some(ownerSid) || exists p :: p in defaults && !HasGrant(acl.entries, ownerSid, p.mask)
      ensures changed <==> !(acl.owner == Some(ownerSid) && |updated.entries| == |acl.entries|)
    {
      updated := acl;
      changed := false;
      if acl.owner.None? || acl.owner.value != ownerSid {
        updated := updated.(owner := Some(ownerSid));
        changed := true;
      }
      var entries, added := AddPermissionsIfMissing(updated.entries, ownerSid, defaults);
      updated := updated.(entries := entries);
      changed := changed || added;
    }

    /** applyOwnership: make the user's principal the owner with the owner defaults; persist and publish OWNERSHIP if anything changed. */
    method ApplyOwnership(oid: Oid, username: string, actor: string)
      requires Valid()
      modifies this
      ensures Valid()
      ensures State() == AclTransitions.ApplyOwnership(old(State()), oid, username, actor)
      ensures forall o :: o != oid ==> (o in cache <==> o in old(cache))
    {
      var acl := EnsureAcl(oid, actor);
      ghost var created := State();
      var ownerSid := PrincipalSid(username);
      var defaults := registry.OwnerDefaults();
      var updated, changed := TakeOwnership(acl, ownerSid, defaults);
      if changed {
        AddMissingKeepsWellFormed(acl.entries, ownerSid, defaults);
        InvAfterUpdate(store, oid, updated);
        UpdateAcl(oid, updated);
        events := events + [ChangeEvent(OWNERSHIP, oid, Some(ownerSid), defaults, actor)];
        assert State() == Engine(created.store[oid := updated],
                                 created.events + [ChangeEvent(OWNERSHIP, oid, Some(ownerSid), defaults, actor)]);
      }
    }

    /** The edits setParent makes to the child ACL object: rewrite the parent link and the flag where they differ. */
    method LinkParent(acl: Acl, parent: Oid, inheriting: bool) returns (updated: Acl, changed: bool)
      ensures updated == acl.(parent := Some(parent), entriesInheriting := inheriting)
      ensures changed <==> acl.parent != Some(parent) || acl.entriesInheriting != inheriting
    {
      updated := acl;
      changed := false;
      if acl.parent != Some(parent) {
        updated := updated.(parent := Some(parent));
        changed := true;
      }
      if acl.entriesInheriting != inheriting {
        updated := updated.(entriesInheriting := inheriting);
        changed := true;
      }
    }

    /** setParent: ensure both ACLs, link the child to the parent with the flag; persist the child and publish INHERITANCE if anything changed. */
    method SetParent(child: Oid, parent: Oid, inheriting: bool, actor: string)
      requires Valid()
      modifies this
      ensures Valid()
      ensures State() == AclTransitions.SetParent(old(State()), child, parent, inheriting, actor)
      ensures forall o :: o != child && o != parent ==> (o in cache <==> o in old(cache))
    {
      var childAcl := EnsureAcl(child, actor);
      var parentAcl := EnsureAcl(parent, actor);
      childAcl := store[child];
      ghost var both := State();
      var updated, changed := LinkParent(childAcl, parent, inheriting);
      if changed {
        InvAfterUpdate(store, child, updated);
        UpdateAcl(child, updated);
        events := events + [ChangeEvent(INHERITANCE, child, None, [], actor)];
        assert State() == Engine(both.store[child := updated],
                                 both.events + [ChangeEvent(INHERITANCE, child, None, [], actor)]);
      }
    }

    /**
     * hasPermission for one permission and the caller's SIDs: no ACL means
     * no; a granting entry of a caller SID means yes; an ACL that does not
     * inherit answers from its own entries alone.
     */
    function HasPermission(sids: seq<Sid>, oid: Oid, permission: Permission): (granted: bool)
      reads this
      ensures oid !in store ==> !granted
      ensures oid in store && LocalGrant(store[oid].entries, sids, permission.mask) ==> granted
      ensures oid in store && !Inherits(store[oid]) ==> (granted <==> LocalGrant(store[oid].entries, sids, permission.mask))
      ensures granted == Granted(store, oid, sids, permission.mask)
    {
      Granted(store, oid, sids, permission.mask)
    }
  }
}
