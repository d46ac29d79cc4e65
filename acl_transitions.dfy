/**
 * The state changes of the permission service, as functions from one engine
 * state (the ACL store and the published change events) to the next. The
 * service class is proved to follow them; the lemmas here say what each one
 * promises: which entries appear or disappear, which identities are touched,
 * when an event is published, idempotence and the store invariant.
 */
module AclTransitions {
  import opened Wrappers
  import opened Permissions
  import opened SidResolver
  import opened AclModel
  import opened AclEvaluation
  import PermissionRegistry

  const SYSTEM_ACTOR := "system"

  /** The caller recorded in the security context, if any. */
  datatype Caller = Caller(name: string, authenticated: bool)

  /** The actor written into change events: the caller's name, or "system" without an authenticated caller. */
  function CurrentActor(authentication: Option<Caller>): (actor: string)
    ensures authentication.None? ==> actor == SYSTEM_ACTOR
    ensures authentication.Some? && !authentication.value.authenticated ==> actor == SYSTEM_ACTOR
    ensures authentication.Some? && authentication.value.authenticated ==> actor == authentication.value.name
  {
    if authentication.None? || !authentication.value.authenticated then SYSTEM_ACTOR else authentication.value.name
  }

  datatype Engine = Engine(store: map<Oid, Acl>, events: seq<ChangeEvent>)

  /** The ACL the library creates: owned by the creating principal, no entries, no parent, inheriting. */
  function NewAcl(creator: string): Acl {
    Acl(Some(Principal(creator)), [], None, true)
  }

  /** Every identity outside `touched` is stored before iff after, with the same ACL. */
  ghost predicate Untouched(before: map<Oid, Acl>, after: map<Oid, Acl>, touched: set<Oid>) {
    forall o :: o !in touched ==> (o in after <==> o in before) && (o in before ==> after[o] == before[o])
  }

  /** The store invariant: entry lists are well formed and parents are stored. */
  predicate Inv(store: map<Oid, Acl>) {
    forall o :: o in store ==>
      WellFormedEntries(store[o].entries) && (store[o].parent.Some? ==> store[o].parent.value in store)
  }

  /** The ACL an operation on `oid` starts from: the stored one, or the one ensureAcl would create. */
  function Current(e: Engine, oid: Oid, actor: string): Acl {
    if oid in e.store then e.store[oid] else NewAcl(actor)
  }

  /** ensureAcl: read the ACL, or create it and publish CREATE. */
  function Ensure(e: Engine, oid: Oid, actor: string): (r: Engine)
    ensures oid in r.store && r.store[oid] == Current(e, oid, actor)
    ensures oid in e.store ==> r == e
    ensures oid !in e.store ==> r.events == e.events + [ChangeEvent(CREATE, oid, None, [], actor)]
    ensures Untouched(e.store, r.store, {oid})
  {
    if oid in e.store then e
    else Engine(e.store[oid := NewAcl(actor)], e.events + [ChangeEvent(CREATE, oid, None, [], actor)])
  }

  /** grantPermissions: nothing for an empty request; otherwise append the missing grants and publish GRANT if any was missing. */
  function Grant(e: Engine, oid: Oid, sid: Sid, ps: seq<Permission>, actor: string): (r: Engine)
    ensures ps == [] ==> r == e
    ensures Untouched(e.store, r.store, {oid})
    ensures e.events <= r.events
  {
    if ps == [] then e
    else
      var created := Ensure(e, oid, actor);
      var acl := created.store[oid];
      var entries := AddMissing(acl.entries, sid, ps);
      if |entries| == |acl.entries| then created
      else Engine(created.store[oid := acl.(entries := entries)],
                  created.events + [ChangeEvent(GRANT, oid, Some(sid), ps, actor)])
  }

  /** revokePermissions: nothing for an empty request; otherwise delete the matching entries and publish REVOKE if any matched. */
  function Revoke(e: Engine, oid: Oid, sid: Sid, ps: seq<Permission>, actor: string): (r: Engine)
    ensures ps == [] ==> r == e
    ensures Untouched(e.store, r.store, {oid})
    ensures e.events <= r.events
  {
    if ps == [] then e
    else
      var created := Ensure(e, oid, actor);
      var acl := created.store[oid];
      var entries := Survivors(acl.entries, sid, MaskIn(Masks(ps)));
      if |entries| == |acl.entries| then created
      else Engine(created.store[oid := acl.(entries := entries)],
                  created.events + [ChangeEvent(REVOKE, oid, Some(sid), ps, actor)])
  }

  /** revokeAllForSid: delete every entry of the SID; no event beyond a possible CREATE. */
  function RevokeAll(e: Engine, oid: Oid, sid: Sid, actor: string): (r: Engine)
    ensures Untouched(e.store, r.store, {oid})
    ensures r.events == Ensure(e, oid, actor).events
  {
    var created := Ensure(e, oid, actor);
    var acl := created.store[oid];
    var entries := Survivors(acl.entries, sid, AnyMask);
    if |entries| == |acl.entries| then created
    else Engine(created.store[oid := acl.(entries := entries)], created.events)
  }

  /** applyOwnership: make the user the owner, grant the owner defaults, publish OWNERSHIP if either changed anything. */
  function ApplyOwnership(e: Engine, oid: Oid, username: string, actor: string): (r: Engine)
    ensures Untouched(e.store, r.store, {oid})
    ensures e.events <= r.events
  {
    var created := Ensure(e, oid, actor);
    var acl := created.store[oid];
    var owner := PrincipalSid(username);
    var entries := AddMissing(acl.entries, owner, PermissionRegistry.OWNER_DEFAULTS);
    if acl.owner == Some(owner) && |entries| == |acl.entries| then created
    else Engine(created.store[oid := acl.(owner := Some(owner), entries := entries)],
                created.events + [ChangeEvent(OWNERSHIP, oid, Some(owner), PermissionRegistry.OWNER_DEFAULTS, actor)])
  }

  /** setParent: ensure both ACLs, then link the child and set its flag, publishing INHERITANCE if either differed. */
  function SetParent(e: Engine, child: Oid, parent: Oid, inheriting: bool, actor: string): (r: Engine)
    ensures Untouched(e.store, r.store, {child, parent})
    ensures e.events <= r.events
  {
    var withChild := Ensure(e, child, actor);
    var both := Ensure(withChild, parent, actor);
    var acl := both.store[child];
    if acl.parent == Some(parent) && acl.entriesInheriting == inheriting then both
    else Engine(both.store[child := acl.(parent := Some(parent), entriesInheriting := inheriting)],
                both.events + [ChangeEvent(INHERITANCE, child, None, [], actor)])
  }

  /** bulkGrant: grantPermissions for each identifier in turn. */
  function BulkGrant(e: Engine, oids: seq<Oid>, sid: Sid, ps: seq<Permission>, actor: string): (r: Engine)
    ensures oids == [] ==> r == e
    ensures e.events <= r.events
    decreases |oids|
  {
    if oids == [] then e
    else Grant(BulkGrant(e, oids[..|oids| - 1], sid, ps, actor), oids[|oids| - 1], sid, ps, actor)
  }

  /** bulkRevoke: revokePermissions for each identifier in turn. */
  function BulkRevoke(e: Engine, oids: seq<Oid>, sid: Sid, ps: seq<Permission>, actor: string): (r: Engine)
    ensures oids == [] ==> r == e
    ensures e.events <= r.events
    decreases |oids|
  {
    if oids == [] then e
    else Revoke(BulkRevoke(e, oids[..|oids| - 1], sid, ps, actor), oids[|oids| - 1], sid, ps, actor)
  }

  // ----- ensureAcl -----

  /** Replacing a stored ACL by one with well-formed entries and a stored parent keeps the invariant. */
  lemma InvAfterUpdate(store: map<Oid, Acl>, oid: Oid, acl: Acl)
    requires Inv(store) && oid in store
    requires WellFormedEntries(acl.entries)
    requires acl.parent.Some? ==> acl.parent.value in store
    ensures Inv(store[oid := acl])
  {
  }

  lemma EnsureKeepsInv(e: Engine, oid: Oid, actor: string)
    requires Inv(e.store)
    ensures Inv(Ensure(e, oid, actor).store)
  {
  }

  // ----- grantPermissions -----

  /**
   * A non-empty grant appends only: the earlier entries keep their positions,
   * each new entry grants a requested permission to the SID, every requested
   * permission ends up granted, owner and parent link stay, and GRANT is
   * published exactly when some requested permission was missing.
   */
  lemma GrantEffect(e: Engine, oid: Oid, sid: Sid, ps: seq<Permission>, actor: string)
    requires ps != []
    ensures var r := Grant(e, oid, sid, ps, actor);
      var before := Current(e, oid, actor);
      var created := Ensure(e, oid, actor);
      && oid in r.store
      && r.store[oid].owner == before.owner
      && r.store[oid].parent == before.parent
      && r.store[oid].entriesInheriting == before.entriesInheriting
      && |before.entries| <= |r.store[oid].entries|
      && r.store[oid].entries[..|before.entries|] == before.entries
      && (forall k :: |before.entries| <= k < |r.store[oid].entries| ==>
            r.store[oid].entries[k].sid == sid && r.store[oid].entries[k].granting
            && r.store[oid].entries[k].permission in ps)
      && (forall p :: p in ps ==> HasGrant(r.store[oid].entries, sid, p.mask))
      && (r.events == created.events <==> forall p :: p in ps ==> HasGrant(before.entries, sid, p.mask))
      && (r.events != created.events ==> r.events == created.events + [ChangeEvent(GRANT, oid, Some(sid), ps, actor)])
  {
    var before := Current(e, oid, actor);
    AddMissingAppends(before.entries, sid, ps);
    AddMissingGrantsAll(before.entries, sid, ps);
    AddMissingChanged(before.entries, sid, ps);
  }

  /** The part of GrantEffect the bulk operation needs. */
  lemma GrantGrantsRequested(e: Engine, oid: Oid, sid: Sid, ps: seq<Permission>, actor: string)
    requires ps != []
    ensures var r := Grant(e, oid, sid, ps, actor);
      oid in r.store && forall p :: p in ps ==> HasGrant(r.store[oid].entries, sid, p.mask)
  {
    AddMissingGrantsAll(Current(e, oid, actor).entries, sid, ps);
    AddMissingChanged(Current(e, oid, actor).entries, sid, ps);
  }

  /** Re-granting permissions the SID already holds changes nothing and publishes nothing. */
  lemma RegrantIsNoop(e: Engine, oid: Oid, sid: Sid, ps: seq<Permission>, actor: string)
    requires oid in e.store
    requires forall p :: p in ps ==> HasGrant(e.store[oid].entries, sid, p.mask)
    ensures Grant(e, oid, sid, ps, actor) == e
  {
    AddMissingNoop(e.store[oid].entries, sid, ps);
  }

  lemma GrantIdempotent(e: Engine, oid: Oid, sid: Sid, ps: seq<Permission>, actor: string)
    ensures Grant(Grant(e, oid, sid, ps, actor), oid, sid, ps, actor) == Grant(e, oid, sid, ps, actor)
  {
    if ps != [] {
      GrantEffect(e, oid, sid, ps, actor);
      var r := Grant(e, oid, sid, ps, actor);
      RegrantIsNoop(r, oid, sid, ps, actor);
    }
  }

  lemma GrantKeepsInv(e: Engine, oid: Oid, sid: Sid, ps: seq<Permission>, actor: string)
    requires Inv(e.store)
    ensures Inv(Grant(e, oid, sid, ps, actor).store)
  {
    if ps != [] {
      EnsureKeepsInv(e, oid, actor);
      AddMissingKeepsWellFormed(Current(e, oid, actor).entries, sid, ps);
    }
  }

  /** A grant never takes a grant away, anywhere in the store. */
  lemma GrantKeepsGrant(e: Engine, oid: Oid, sid: Sid, ps: seq<Permission>, actor: string, o: Oid, s: Sid, m: int)
    requires o in e.store && HasGrant(e.store[o].entries, s, m)
    ensures var r := Grant(e, oid, sid, ps, actor);
      o in r.store && HasGrant(r.store[o].entries, s, m)
  {
    if ps != [] && o == oid {
      AddMissingGrantsAll(e.store[oid].entries, sid, ps);
    }
  }

  // ----- revokePermissions / revokeAllForSid -----

  /** A non-empty revoke replaces the ACL's entries by the survivors of the filter and publishes REVOKE exactly when something matched. */
  lemma RevokeResult(e: Engine, oid: Oid, sid: Sid, ps: seq<Permission>, actor: string)
    requires ps != []
    ensures var r := Revoke(e, oid, sid, ps, actor);
      var before := Current(e, oid, actor);
      var created := Ensure(e, oid, actor);
      var f := MaskIn(Masks(ps));
      && oid in r.store
      && r.store[oid] == before.(entries := Survivors(before.entries, sid, f))
      && (r.events == created.events <==> forall i :: 0 <= i < |before.entries| ==> !Matches(before.entries[i], sid, f))
      && (r.events != created.events ==> r.events == created.events + [ChangeEvent(REVOKE, oid, Some(sid), ps, actor)])
  {
    var before := Current(e, oid, actor);
    SurvivorsChanged(before.entries, sid, MaskIn(Masks(ps)));
    if |Survivors(before.entries, sid, MaskIn(Masks(ps)))| == |before.entries| {
      SurvivorsNoop(before.entries, sid, MaskIn(Masks(ps)));
    }
  }

  /**
   * A non-empty revoke deletes exactly the entries of the SID whose mask is
   * requested, granting or not: an entry stays iff it does not match, no
   * requested permission stays granted to the SID, and every other SID keeps
   * its entries in order.
   */
  lemma RevokeEffect(e: Engine, oid: Oid, sid: Sid, ps: seq<Permission>, actor: string)
    requires ps != []
    ensures var es := Revoke(e, oid, sid, ps, actor).store[oid].entries;
      var before := Current(e, oid, actor).entries;
      && (forall a :: a in es <==> a in before && !(a.sid == sid && a.permission.mask in Masks(ps)))
      && (forall p :: p in ps ==> !HasGrant(es, sid, p.mask))
      && (forall other :: other != sid ==> EntriesOf(es, other) == EntriesOf(before, other))
  {
    RevokeResult(e, oid, sid, ps, actor);
    RevokeRemovesRequested(e, oid, sid, ps, actor);
    var before := Current(e, oid, actor).entries;
    var masks := Masks(ps);
    var es := Survivors(before, sid, MaskIn(masks));
    SurvivorsMembers(before, sid, MaskIn(masks));
    forall other | other != sid ensures EntriesOf(es, other) == EntriesOf(before, other) {
      SurvivorsKeepOtherSids(before, sid, MaskIn(masks), other);
    }
  }

  /** After a non-empty revoke the SID holds none of the requested permissions on the ACL. */
  lemma RevokeRemovesRequested(e: Engine, oid: Oid, sid: Sid, ps: seq<Permission>, actor: string)
    requires ps != []
    ensures var r := Revoke(e, oid, sid, ps, actor);
      oid in r.store && forall p :: p in ps ==> !HasGrant(r.store[oid].entries, sid, p.mask)
  {
    RevokeResult(e, oid, sid, ps, actor);
    var before := Current(e, oid, actor).entries;
    var masks := Masks(ps);
    forall p | p in ps ensures !HasGrant(Survivors(before, sid, MaskIn(masks)), sid, p.mask) {
      var i :| 0 <= i < |ps| && ps[i] == p;
      assert masks[i] == p.mask;
      RevokedMasksAreGone(before, sid, masks, p.mask);
    }
  }

  /** Revoking permissions the SID has no entry for changes nothing and publishes nothing. */
  lemma RevokeAbsentIsNoop(e: Engine, oid: Oid, sid: Sid, ps: seq<Permission>, actor: string)
    requires oid in e.store
    requires forall i :: 0 <= i < |e.store[oid].entries| ==> !Matches(e.store[oid].entries[i], sid, MaskIn(Masks(ps)))
    ensures Revoke(e, oid, sid, ps, actor) == e
  {
    SurvivorsChanged(e.store[oid].entries, sid, MaskIn(Masks(ps)));
  }

  lemma RevokeIdempotent(e: Engine, oid: Oid, sid: Sid, ps: seq<Permission>, actor: string)
    ensures Revoke(Revoke(e, oid, sid, ps, actor), oid, sid, ps, actor) == Revoke(e, oid, sid, ps, actor)
  {
    if ps != [] {
      RevokeResult(e, oid, sid, ps, actor);
      var r := Revoke(e, oid, sid, ps, actor);
      var es := r.store[oid].entries;
      SurvivorsMembers(Current(e, oid, actor).entries, sid, MaskIn(Masks(ps)));
      forall i | 0 <= i < |es| ensures !Matches(es[i], sid, MaskIn(Masks(ps))) {
        assert es[i] in es;
      }
      RevokeAbsentIsNoop(r, oid, sid, ps, actor);
    }
  }

  lemma RevokeKeepsInv(e: Engine, oid: Oid, sid: Sid, ps: seq<Permission>, actor: string)
    requires Inv(e.store)
    ensures Inv(Revoke(e, oid, sid, ps, actor).store)
  {
    if ps != [] {
      EnsureKeepsInv(e, oid, actor);
      SurvivorsKeepWellFormed(Current(e, oid, actor).entries, sid, MaskIn(Masks(ps)));
    }
  }

  /** A revoke never creates a grant, anywhere in the store. */
  lemma RevokeAddsNoGrant(e: Engine, oid: Oid, sid: Sid, ps: seq<Permission>, actor: string, o: Oid, s: Sid, m: int)
    requires var r := Revoke(e, oid, sid, ps, actor);
      o in r.store && HasGrant(r.store[o].entries, s, m)
    ensures o in e.store && HasGrant(e.store[o].entries, s, m)
  {
    if ps != [] && o == oid {
      RevokeResult(e, oid, sid, ps, actor);
      var before := Current(e, oid, actor);
      var after := Survivors(before.entries, sid, MaskIn(Masks(ps)));
      SurvivorsMembers(before.entries, sid, MaskIn(Masks(ps)));
      var i :| 0 <= i < |after| && GrantsTo(after[i], s, m);
      assert after[i] in after;
      var j :| 0 <= j < |before.entries| && before.entries[j] == after[i];
      assert GrantsTo(before.entries[j], s, m);
    }
  }

  /** A revoke keeps every stored identity and never creates a grant there. */
  lemma RevokeKeepsAbsence(e: Engine, oid: Oid, sid: Sid, ps: seq<Permission>, actor: string, o: Oid, s: Sid, m: int)
    requires o in e.store && !HasGrant(e.store[o].entries, s, m)
    ensures var r := Revoke(e, oid, sid, ps, actor);
      o in r.store && !HasGrant(r.store[o].entries, s, m)
  {
    var r := Revoke(e, oid, sid, ps, actor);
    if HasGrant(r.store[o].entries, s, m) {
      RevokeAddsNoGrant(e, oid, sid, ps, actor, o, s, m);
    }
  }

  /** revokeAllForSid leaves no entry of the SID, keeps every other SID's entries in order, and publishes no event of its own. */
  lemma RevokeAllEffect(e: Engine, oid: Oid, sid: Sid, actor: string)
    ensures var r := RevokeAll(e, oid, sid, actor);
      var before := Current(e, oid, actor);
      && oid in r.store
      && r.store[oid].owner == before.owner
      && r.store[oid].parent == before.parent
      && r.store[oid].entriesInheriting == before.entriesInheriting
      && EntriesOf(r.store[oid].entries, sid) == []
      && (forall other :: other != sid ==> EntriesOf(r.store[oid].entries, other) == EntriesOf(before.entries, other))
      && (oid in e.store ==> r.events == e.events)
  {
    var before := Current(e, oid, actor);
    SurvivorsDropSid(before.entries, sid);
    SurvivorsChanged(before.entries, sid, AnyMask);
    if |Survivors(before.entries, sid, AnyMask)| == |before.entries| {
      SurvivorsNoop(before.entries, sid, AnyMask);
    }
    forall other | other != sid
      ensures EntriesOf(Survivors(before.entries, sid, AnyMask), other) == EntriesOf(before.entries, other)
    {
      SurvivorsKeepOtherSids(before.entries, sid, AnyMask, other);
    }
  }

  lemma RevokeAllKeepsInv(e: Engine, oid: Oid, sid: Sid, actor: string)
    requires Inv(e.store)
    ensures Inv(RevokeAll(e, oid, sid, actor).store)
  {
    EnsureKeepsInv(e, oid, actor);
    SurvivorsKeepWellFormed(Current(e, oid, actor).entries, sid, AnyMask);
  }

  // ----- applyOwnership -----

  /**
   * After applyOwnership the user's principal owns the ACL and holds every
   * owner default; earlier entries keep their positions, and OWNERSHIP (with
   * the full default list) is published exactly when the owner differed or a
   * default was missing.
   */
  lemma OwnershipEffect(e: Engine, oid: Oid, username: string, actor: string)
    ensures var r := ApplyOwnership(e, oid, username, actor);
      var before := Current(e, oid, actor);
      var created := Ensure(e, oid, actor);
      var owner := Principal(username);
      var defaults := PermissionRegistry.OWNER_DEFAULTS;
      && oid in r.store
      && r.store[oid].owner == Some(owner)
      && r.store[oid].parent == before.parent
      && r.store[oid].entriesInheriting == before.entriesInheriting
      && |before.entries| <= |r.store[oid].entries|
      && r.store[oid].entries[..|before.entries|] == before.entries
      && (forall p :: p in defaults ==> HasGrant(r.store[oid].entries, owner, p.mask))
      && (r.events == created.events <==>
            before.owner == Some(owner) && forall p :: p in defaults ==> HasGrant(before.entries, owner, p.mask))
      && (r.events != created.events ==> r.events == created.events + [ChangeEvent(OWNERSHIP, oid, Some(owner), defaults, actor)])
  {
    var before := Current(e, oid, actor);
    var owner := Principal(username);
    AddMissingAppends(before.entries, owner, PermissionRegistry.OWNER_DEFAULTS);
    AddMissingGrantsAll(before.entries, owner, PermissionRegistry.OWNER_DEFAULTS);
    AddMissingChanged(before.entries, owner, PermissionRegistry.OWNER_DEFAULTS);
  }

  /** A second applyOwnership for the same user is a no-op: nothing changes and nothing is published. */
  lemma OwnershipIdempotent(e: Engine, oid: Oid, username: string, actor: string)
    ensures var r := ApplyOwnership(e, oid, username, actor);
      ApplyOwnership(r, oid, username, actor) == r
  {
    OwnershipEffect(e, oid, username, actor);
    var r := ApplyOwnership(e, oid, username, actor);
    AddMissingNoop(r.store[oid].entries, Principal(username), PermissionRegistry.OWNER_DEFAULTS);
  }

  lemma OwnershipKeepsInv(e: Engine, oid: Oid, username: string, actor: string)
    requires Inv(e.store)
    ensures Inv(ApplyOwnership(e, oid, username, actor).store)
  {
    EnsureKeepsInv(e, oid, actor);
    AddMissingKeepsWellFormed(Current(e, oid, actor).entries, Principal(username), PermissionRegistry.OWNER_DEFAULTS);
  }

  // ----- setParent -----

  /**
   * setParent creates both ACLs if needed, links the child to the parent with
   * the requested flag, keeps the child's owner and entries, changes nothing
   * else, and publishes INHERITANCE for the child exactly when the link or
   * the flag differed.
   */
  lemma SetParentEffect(e: Engine, child: Oid, parent: Oid, inheriting: bool, actor: string)
    ensures var r := SetParent(e, child, parent, inheriting, actor);
      var before := Current(e, child, actor);
      var both := Ensure(Ensure(e, child, actor), parent, actor);
      && child in r.store && parent in r.store
      && r.store[child].parent == Some(parent)
      && r.store[child].entriesInheriting == inheriting
      && r.store[child].owner == before.owner
      && r.store[child].entries == before.entries
      && (parent != child ==> r.store[parent] == Current(e, parent, actor))
      && (r.events == both.events <==> before.parent == Some(parent) && before.entriesInheriting == inheriting)
      && (r.events != both.events ==> r.events == both.events + [ChangeEvent(INHERITANCE, child, None, [], actor)])
  {
  }

  lemma SetParentIdempotent(e: Engine, child: Oid, parent: Oid, inheriting: bool, actor: string)
    ensures var r := SetParent(e, child, parent, inheriting, actor);
      SetParent(r, child, parent, inheriting, actor) == r
  {
    SetParentEffect(e, child, parent, inheriting, actor);
  }

  lemma SetParentKeepsInv(e: Engine, child: Oid, parent: Oid, inheriting: bool, actor: string)
    requires Inv(e.store)
    ensures Inv(SetParent(e, child, parent, inheriting, actor).store)
  {
    EnsureKeepsInv(e, child, actor);
    EnsureKeepsInv(Ensure(e, child, actor), parent, actor);
  }

  // ----- bulk operations -----

  /** After bulkGrant every listed identity has an ACL granting every requested permission to the SID. */
  lemma {:induction false} BulkGrantGrantsAll(e: Engine, oids: seq<Oid>, sid: Sid, ps: seq<Permission>, actor: string)
    requires ps != []
    ensures var r := BulkGrant(e, oids, sid, ps, actor);
      forall o, p :: o in oids && p in ps ==> o in r.store && HasGrant(r.store[o].entries, sid, p.mask)
    decreases |oids|
  {
    if oids != [] {
      var init := oids[..|oids| - 1];
      var last := oids[|oids| - 1];
      BulkGrantGrantsAll(e, init, sid, ps, actor);
      BulkGrantStep(BulkGrant(e, init, sid, ps, actor), init, last, oids, sid, ps, actor);
    }
  }

  /** One identity more: granting on `last` keeps what the earlier identities were granted and adds `last`. */
  lemma BulkGrantStep(mid: Engine, init: seq<Oid>, last: Oid, oids: seq<Oid>, sid: Sid, ps: seq<Permission>, actor: string)
    requires ps != [] && oids == init + [last]
    requires forall o, p :: o in init && p in ps ==> o in mid.store && HasGrant(mid.store[o].entries, sid, p.mask)
    ensures var r := Grant(mid, last, sid, ps, actor);
      forall o, p :: o in oids && p in ps ==> o in r.store && HasGrant(r.store[o].entries, sid, p.mask)
  {
    var r := Grant(mid, last, sid, ps, actor);
    GrantGrantsRequested(mid, last, sid, ps, actor);
    forall o, p | o in oids && p in ps ensures o in r.store && HasGrant(r.store[o].entries, sid, p.mask) {
      if o != last {
        var i :| 0 <= i < |oids| && oids[i] == o;
        assert init[i] == o && o in init;
        GrantKeepsGrant(mid, last, sid, ps, actor, o, sid, p.mask);
      }
    }
  }

  /** After bulkRevoke no listed identity grants any requested permission to the SID. */
  lemma {:induction false} BulkRevokeRevokesAll(e: Engine, oids: seq<Oid>, sid: Sid, ps: seq<Permission>, actor: string)
    requires ps != []
    ensures var r := BulkRevoke(e, oids, sid, ps, actor);
      forall o, p :: o in oids && p in ps ==> o in r.store && !HasGrant(r.store[o].entries, sid, p.mask)
    decreases |oids|
  {
    if oids != [] {
      var init := oids[..|oids| - 1];
      var last := oids[|oids| - 1];
      BulkRevokeRevokesAll(e, init, sid, ps, actor);
      var mid := BulkRevoke(e, init, sid, ps, actor);
      var r := Revoke(mid, last, sid, ps, actor);
      RevokeRemovesRequested(mid, last, sid, ps, actor);
      assert BulkRevoke(e, oids, sid, ps, actor) == r;
      forall o, p | o in oids && p in ps ensures o in r.store && !HasGrant(r.store[o].entries, sid, p.mask) {
        if o != last {
          var i :| 0 <= i < |oids| && oids[i] == o;
          assert init[i] == o && o in init;
          RevokeKeepsAbsence(mid, last, sid, ps, actor, o, sid, p.mask);
        }
      }
    }
  }

  lemma {:induction false} BulkGrantKeepsInv(e: Engine, oids: seq<Oid>, sid: Sid, ps: seq<Permission>, actor: string)
    requires Inv(e.store)
    ensures Inv(BulkGrant(e, oids, sid, ps, actor).store)
    decreases |oids|
  {
    if oids != [] {
      BulkGrantKeepsInv(e, oids[..|oids| - 1], sid, ps, actor);
      GrantKeepsInv(BulkGrant(e, oids[..|oids| - 1], sid, ps, actor), oids[|oids| - 1], sid, ps, actor);
    }
  }

  lemma {:induction false} BulkRevokeKeepsInv(e: Engine, oids: seq<Oid>, sid: Sid, ps: seq<Permission>, actor: string)
    requires Inv(e.store)
    ensures Inv(BulkRevoke(e, oids, sid, ps, actor).store)
    decreases |oids|
  {
    if oids != [] {
      BulkRevokeKeepsInv(e, oids[..|oids| - 1], sid, ps, actor);
      RevokeKeepsInv(BulkRevoke(e, oids[..|oids| - 1], sid, ps, actor), oids[|oids| - 1], sid, ps, actor);
    }
  }

  // ----- access decisions after a change -----

  /** A caller holding the granted SID is granted every permission of a non-empty grant. */
  lemma GrantMakesGranted(e: Engine, oid: Oid, sid: Sid, ps: seq<Permission>, actor: string, sids: seq<Sid>, p: Permission)
    requires p in ps && sid in sids
    ensures Granted(Grant(e, oid, sid, ps, actor).store, oid, sids, p.mask)
  {
    GrantEffect(e, oid, sid, ps, actor);
    var es := Grant(e, oid, sid, ps, actor).store[oid].entries;
    var i :| 0 <= i < |es| && GrantsTo(es[i], sid, p.mask);
    assert LocalGrant(es, sids, p.mask);
  }

  /**
   * Granting READ alone on an identity without an ACL: the user is granted
   * READ but neither WRITE nor DELETE, and a caller without the user's SID is
   * denied READ.
   */
  lemma FreshReadGrant(e: Engine, oid: Oid, username: string, actor: string, sids: seq<Sid>)
    requires oid !in e.store
    ensures var r := Grant(e, oid, Principal(username), [READ], actor);
      && (Principal(username) in sids ==> Granted(r.store, oid, sids, READ.mask))
      && !Granted(r.store, oid, sids, WRITE.mask)
      && !Granted(r.store, oid, sids, DELETE.mask)
      && (Principal(username) !in sids ==> !Granted(r.store, oid, sids, READ.mask))
  {
    var r := Grant(e, oid, Principal(username), [READ], actor);
    assert [READ][..0] == [];
    assert AddMissing([], Principal(username), []) == [];
    assert !HasGrant([], Principal(username), READ.mask);
    assert AddMissing([], Principal(username), [READ]) == [Ace(Principal(username), READ, true)];
    assert r.store[oid] == Acl(Some(Principal(actor)), [Ace(Principal(username), READ, true)], None, true);
    NonInheritingIsLocal(r.store, oid, sids, READ.mask);
    NonInheritingIsLocal(r.store, oid, sids, WRITE.mask);
    NonInheritingIsLocal(r.store, oid, sids, DELETE.mask);
  }

  /** After a revoke, a caller whose only SID is the revoked one is denied on an ACL that does not inherit. */
  lemma RevokeDeniesLocally(e: Engine, oid: Oid, sid: Sid, ps: seq<Permission>, actor: string, p: Permission)
    requires p in ps
    requires !Inherits(Current(e, oid, actor))
    ensures !Granted(Revoke(e, oid, sid, ps, actor).store, oid, [sid], p.mask)
  {
    RevokeEffect(e, oid, sid, ps, actor);
    var r := Revoke(e, oid, sid, ps, actor);
    NonInheritingIsLocal(r.store, oid, [sid], p.mask);
    var es := r.store[oid].entries;
    forall i | 0 <= i < |es| && es[i].sid in [sid]
      ensures !(es[i].permission.mask == p.mask && es[i].granting)
    {
      assert !GrantsTo(es[i], sid, p.mask);
    }
  }
}
