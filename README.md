# ACL permission engine: a verified Dafny model

This project models the permission engine of a Spring Security ACL demo application. It keeps access-control lists (ACLs) keyed by object identity: a domain class name and a numeric identifier. Each ACL has:

- an optional owner;
- an ordered list of access-control entries (ACEs), each a SID, a permission and a granting flag;
- an optional parent identity;
- an `entriesInheriting` flag.

A SID (security identity) is either a principal (a user name) or a granted authority (a role, a group or any other authority string).

The model covers these parts:

- **AclPermissionService**:
  - creates ACLs lazily (`ensureAcl`);
  - appends missing grants without duplicates (`grantPermissions` and its `grantTo*` / `bulkGrant*` variants);
  - deletes matching entries by walking the indices in reverse (`revokePermissions`, `bulkRevoke`, `revokeAllForSid`);
  - installs an owner with the owner defaults (`applyOwnership`);
  - links a child to a parent (`setParent`);
  - persists each change and evicts that one identity from the ACL cache;
  - publishes a change event when something changed.
- **The registry**: a two-way table of seven permission names and masks, with case-insensitive name lookup.
- **The custom permissions**: SHARE and APPROVE.
- **The SID resolver**.
- **Permission discovery**: effective, direct and inherited permission names, and listing the resources a caller can reach.
- **The audit listener and the in-memory audit log**.
- **The method-security predicates**: document and project ownership, and the OWNER / CONTRIBUTOR / VIEWER project roles.

The modules follow the source files one to one:

| module | file |
|---|---|
| `PermissionService` | `acl_permission_service.dfy` |
| `AclTransitions` | `acl_transitions.dfy` |
| `AclModel` | `acl_model.dfy` |
| `AclEvaluation` | `acl_evaluation.dfy` |
| `PermissionRegistry` | `acl_permission_registry.dfy` |
| `CustomAclPermission` | `custom_acl_permission.dfy` |
| `SidResolver` | `acl_sid_resolver.dfy` |
| `PermissionDiscovery` | `permission_discovery_service.dfy` |
| `AuditEventListener` | `acl_audit_event_listener.dfy` |
| `AuditLogStore` | `in_memory_acl_audit_log_store.dfy` |
| `MethodSecurity` | `custom_method_security_expression_root.dfy` |

Three small shared modules sit beside them: `Wrappers`, `Permissions` and `Decimal`.

**The service.** `AclPermissionService` is a class. Its fields are:

- the ACL store and the ACL cache, both maps from identity to ACL;
- the list of published change events;
- the registry.

Each mutating method is proved to move the store and the events exactly as a pure transition function in `AclTransitions` does. Each keeps the store invariant:

- no two granting entries share a (SID, mask);
- every entry grants;
- every parent is stored.

Each also keeps the cache coherent with the store. The lemmas about the transition functions state what the service promises:

- a grant only appends, and a repeated permission is added once;
- a revoke removes exactly the matching entries and keeps the survivors in order;
- every other SID's entries and every other identity are unchanged;
- events are published only on a real change;
- grant, revoke, ownership and parent linking are idempotent.

**The access decision.** `hasPermission` hands the decision to the ACL library. For a single permission it is modelled as follows (`AclEvaluation`):

- a missing ACL is denied;
- an ACL with a granting entry for a caller SID and the permission's mask is granted;
- otherwise an inheriting ACL with a parent asks the parent;
- otherwise the answer is no.

Every entry the service writes is granting, which the store invariant records.

**Discovery looks only one level up.** Permission discovery consults only the immediate parent. The access decision follows the whole parent chain. `PermissionDiscovery.GrandparentGrantIsNotDiscovered` gives a three-level chain where the two disagree.

**A caller without a user record.** The CONTRIBUTOR role dereferences the caller's user record without a null check (`CustomMethodSecurityExpressionRoot.java` lines 81-82). Line 81 touches the record only when the project is shared with someone. Line 82's method reference `user.getGroups()::contains` evaluates `user.getGroups()` on every call, so the check fails for every caller without a record. In the model, a caller with no record gets the outcome `Err(NullDereference)` rather than a boolean. `MethodSecurity.OwnerWithoutUserRecord` shows that even a project's owner then fails the CONTRIBUTOR and VIEWER checks.

## Model

| member | source | states |
|---|---|---|
| Permissions.Masks | src/main/java/com/example/acl/service/AclPermissionService.java:145 | The mask list of a permission list: same length, and element i is the mask of permission i. |
| CustomAclPermission.CustomMasks | src/main/java/com/example/acl/security/CustomAclPermission.java:8-9 | SHARE is mask 1 << 5 = 32 with code 'S', APPROVE is mask 1 << 6 = 64 with code 'A'; both are single bits, distinct, and outside the base masks {1, 2, 4, 8, 16}. |
| CustomAclPermission.HighBitsAvoidBase | src/main/java/com/example/acl/security/CustomAclPermission.java:8-9 | Every bit at position 5 or above is at least 32, so no such mask collides with a base permission. |
| PermissionRegistry.NamesAreUpperCase | src/main/java/com/example/acl/service/AclPermissionRegistry.java:27-33 | Each of the seven registered names is already its own upper-case key. |
| PermissionRegistry.MasksAreSingleBits | src/main/java/com/example/acl/service/AclPermissionRegistry.java:27-33 | Each of the seven registered masks is a single bit. |
| PermissionRegistry.MaskTableShape | src/main/java/com/example/acl/service/AclPermissionRegistry.java:27-33 | The registrations fill the mask table with exactly the seven masks {1, 2, 4, 8, 16, 32, 64}, each mapped to the permission carrying that mask. |
| PermissionRegistry.AclPermissionRegistry.constructor | src/main/java/com/example/acl/service/AclPermissionRegistry.java:26-41 | After the seven registrations and the owner-default list, the three tables and the defaults are exactly the registry's fixed contents (Valid). |
| PermissionRegistry.AclPermissionRegistry.Register | src/main/java/com/example/acl/service/AclPermissionRegistry.java:43-48 | Stores the permission under the upper-cased name and under its mask, and the upper-cased name under the mask; nothing else changes. |
| PermissionRegistry.AclPermissionRegistry.BuildFromMask | src/main/java/com/example/acl/service/AclPermissionRegistry.java:50-57 | Succeeds exactly for a registered mask, returning a permission with that mask; any other mask is an IllegalArgument error. |
| PermissionRegistry.AclPermissionRegistry.BuildFromName | src/main/java/com/example/acl/service/AclPermissionRegistry.java:59-66 | Succeeds exactly when the upper-cased name is registered, and the result's name is that upper-cased name; otherwise an IllegalArgument error. |
| PermissionRegistry.AclPermissionRegistry.ResolveName | src/main/java/com/example/acl/service/AclPermissionRegistry.java:75-77 | Some name exactly for a registered mask, and the name is one of the seven; an unregistered mask gives None. |
| PermissionRegistry.AclPermissionRegistry.BuildFromNames | src/main/java/com/example/acl/service/AclPermissionRegistry.java:68-81 | Element-wise buildFromName: succeeds iff every name is known; then the result has the same length, and element i is buildFromName of name i. |
| PermissionRegistry.AclPermissionRegistry.ToNames | src/main/java/com/example/acl/service/AclPermissionRegistry.java:83-88 | The output is no longer than the input, and every output element is a registered name. When every mask is registered, the output has the same length and element i names permission i. |
| PermissionRegistry.AclPermissionRegistry.ToNamesSingleton | src/main/java/com/example/acl/service/AclPermissionRegistry.java:83-88 | One permission gives the one-element list of its registered name, or the empty list when its mask is unregistered. |
| PermissionRegistry.AclPermissionRegistry.ToNamesAppend | src/main/java/com/example/acl/service/AclPermissionRegistry.java:83-88 | toNames of a concatenation is the concatenation of the two toNames results. With ToNamesSingleton this fixes the output for every input, mixed or not. |
| PermissionRegistry.AclPermissionRegistry.OwnerDefaults | src/main/java/com/example/acl/service/AclPermissionRegistry.java:34-40 | Exactly [ADMINISTRATION, READ, WRITE, DELETE, SHARE] in that order; CREATE and APPROVE are not included. |
| PermissionRegistry.AclPermissionRegistry.SevenRegisteredMasks | src/main/java/com/example/acl/service/AclPermissionRegistry.java:27-33 | Exactly seven masks are registered, each mapped to a permission carrying it. |
| PermissionRegistry.AclPermissionRegistry.NamesAndMasksCorrespond | src/main/java/com/example/acl/service/AclPermissionRegistry.java:43-48 | The name table's keys are the seven names and the name-by-mask table's keys are the seven masks; each name maps back to itself through its mask, and no two names share a mask. |
| PermissionRegistry.AclPermissionRegistry.NameLookupIgnoresCase | src/main/java/com/example/acl/service/AclPermissionRegistry.java:59-66 | Two names with the same upper-case form give the same buildFromName result. |
| PermissionRegistry.AclPermissionRegistry.NameRoundTrip | src/main/java/com/example/acl/service/AclPermissionRegistry.java:59-77 | resolveName(buildFromName(n)) is upper(n) whenever the build succeeds; for a registered mask, buildFromName(resolveName(p)) is buildFromMask(p.mask), which is p itself when p is the registered instance. |
| PermissionRegistry.AclPermissionRegistry.MaskRoundTrip | src/main/java/com/example/acl/service/AclPermissionRegistry.java:43-57 | For a registered mask, resolving the built permission gives the mask's name, and building from that name gives the same permission. |
| SidResolver.PrincipalSid | src/main/java/com/example/acl/service/AclSidResolver.java:21-23 | A principal SID carrying the user name unchanged. |
| SidResolver.RoleSid | src/main/java/com/example/acl/service/AclSidResolver.java:25-27 | An authority SID whose string is "ROLE_" followed by the role name. |
| SidResolver.GroupSid | src/main/java/com/example/acl/service/AclSidResolver.java:29-31 | An authority SID whose string is "GROUP_" followed by the group name. |
| SidResolver.AuthoritySid | src/main/java/com/example/acl/service/AclSidResolver.java:33-35 | An authority SID carrying the string unchanged. |
| SidResolver.PrincipalIsNotAuthority | src/main/java/com/example/acl/service/AclSidResolver.java:21-35 | A principal SID never equals the authority SID with the same string; groupSid(g) is authoritySid("GROUP_" + g), and roleSid(r) is authoritySid("ROLE_" + r). |
| SidResolver.RoleAndGroupSidsAreInjective | src/main/java/com/example/acl/service/AclSidResolver.java:25-31 | Distinct role names give distinct SIDs, distinct group names give distinct SIDs, and no role SID equals a group SID. |
| SidResolver.AuthenticationSids | src/main/java/com/example/acl/service/AclSidResolver.java:37-53 | No authentication gives []. Otherwise the result is the principal SID first, when there is a name (the UserDetails user name before the authentication name), then one authority SID per granted authority, in order. The length is (name ? 1 : 0) plus the number of authorities, and only index 0 can be a principal. |
| AclModel.AddMissingAppends | src/main/java/com/example/acl/service/AclPermissionService.java:238-247 | Adding the missing grants only appends: the old entries keep their positions, at most one entry is added per requested permission, and every new entry is a granting entry of the SID for a requested permission. |
| AclModel.AddMissingGrantsAll | src/main/java/com/example/acl/service/AclPermissionService.java:238-247 | Afterwards, every requested permission is granted to the SID, and every grant that existed before still exists. |
| AclModel.AddMissingNoop | src/main/java/com/example/acl/service/AclPermissionService.java:238-247 | When every requested permission is already granted, the entry list is unchanged. |
| AclModel.AddMissingChanged | src/main/java/com/example/acl/service/AclPermissionService.java:238-247 | The list keeps its length exactly when every requested permission was already granted (the source's changed flag). |
| AclModel.AddMissingIdempotent | src/main/java/com/example/acl/service/AclPermissionService.java:238-247 | Adding the same permissions twice gives the same list as adding them once. |
| AclModel.AddMissingKeepsWellFormed | src/main/java/com/example/acl/service/AclPermissionService.java:238-247 | Adding the missing grants keeps the list free of duplicate (sid, mask) grants and keeps every entry granting, even when the request repeats a permission. |
| AclModel.SurvivorsMembers | src/main/java/com/example/acl/service/AclPermissionService.java:145-154 | After the deletion, an entry remains exactly when it was present and does not match the SID and mask filter. |
| AclModel.SurvivorsNoop | src/main/java/com/example/acl/service/AclPermissionService.java:147-154 | When no entry matches, nothing is deleted. |
| AclModel.DeleteStep | src/main/java/com/example/acl/service/AclPermissionService.java:148-153 | One step of the reverse index loop. Deleting index i when it matches, with the suffix after i already filtered, leaves the suffix from i filtered and the prefix before i untouched. |
| AclModel.SurvivorsChanged | src/main/java/com/example/acl/service/AclPermissionService.java:147-155 | The list gets shorter exactly when some entry matches (the source's changed flag). |
| AclModel.SurvivorsIdempotent | src/main/java/com/example/acl/service/AclPermissionService.java:145-154 | Deleting the same matches twice gives the same list as deleting them once. |
| AclModel.SurvivorsKeepOtherSids | src/main/java/com/example/acl/service/AclPermissionService.java:148-154 | The entries of every other SID are unchanged, in the same order. |
| AclModel.SurvivorsDropSid | src/main/java/com/example/acl/service/AclPermissionService.java:183-189 | Deleting every entry of a SID leaves none of that SID's entries. |
| AclModel.SurvivorsKeepWellFormed | src/main/java/com/example/acl/service/AclPermissionService.java:148-154 | Deleting entries keeps the list free of duplicate grants, with every entry granting. |
| AclModel.RevokedMasksAreGone | src/main/java/com/example/acl/service/AclPermissionService.java:145-154 | After the deletion, no requested mask is granted to the SID. |
| AclModel.GrantThenRevokeRestores | src/main/java/com/example/acl/service/AclPermissionService.java:140-154 | Granting a permission the SID had no entry for and then revoking it gives back the original entry list. |
| AclEvaluation.AclGrantedMonotone | src/main/java/com/example/acl/service/AclPermissionService.java:221-231 | Walking further up the parent chain never takes a grant away. |
| AclEvaluation.NoCallerEntryNoGrant | src/main/java/com/example/acl/service/AclPermissionService.java:221-231 | When no entry on the ACL or anywhere in the store belongs to a caller SID, the decision is no. |
| AclEvaluation.ParentGrantReachesChild | src/main/java/com/example/acl/service/AclPermissionService.java:221-231 | An inheriting child is granted any mask its stored parent grants to a caller SID. |
| AclEvaluation.NonInheritingIsLocal | src/main/java/com/example/acl/service/AclPermissionService.java:221-231 | For an ACL that does not inherit, the decision is exactly whether one of its own granting entries gives the mask to a caller SID. |
| AclTransitions.CurrentActor | src/main/java/com/example/acl/service/AclPermissionService.java:263-269 | With no authentication, or one that is not authenticated, the actor is "system"; otherwise it is the authentication's name. |
| AclTransitions.Ensure | src/main/java/com/example/acl/service/AclPermissionService.java:47-58 | Afterwards the identity has an ACL, either the stored one or a new one. An existing ACL changes nothing; a new one publishes exactly one CREATE event with no SID and no permissions. No other identity changes. |
| AclTransitions.Grant | src/main/java/com/example/acl/service/AclPermissionService.java:104-122 | An empty request changes nothing, so no ACL is created and no event is published. Otherwise only this identity changes, and events are only appended. |
| AclTransitions.Revoke | src/main/java/com/example/acl/service/AclPermissionService.java:139-166 | An empty request changes nothing. Otherwise only this identity changes, and events are only appended. |
| AclTransitions.RevokeAll | src/main/java/com/example/acl/service/AclPermissionService.java:178-193 | Only this identity changes, and the only event published is ensureAcl's possible CREATE. |
| AclTransitions.ApplyOwnership | src/main/java/com/example/acl/service/AclPermissionService.java:60-82 | Only this identity changes, and events are only appended. |
| AclTransitions.SetParent | src/main/java/com/example/acl/service/AclPermissionService.java:195-219 | Only the child and parent identities change, and events are only appended. |
| AclTransitions.BulkGrant | src/main/java/com/example/acl/service/AclPermissionService.java:124-132 | An empty identifier list changes nothing, and events are only appended. |
| AclTransitions.BulkRevoke | src/main/java/com/example/acl/service/AclPermissionService.java:168-176 | An empty identifier list changes nothing, and events are only appended. |
| AclTransitions.InvAfterUpdate | src/main/java/com/example/acl/service/AclPermissionService.java:258-261 | Persisting an ACL whose entries are well formed and whose parent is stored keeps the store invariant. |
| AclTransitions.EnsureKeepsInv | src/main/java/com/example/acl/service/AclPermissionService.java:47-58 | ensureAcl keeps the store invariant. |
| AclTransitions.GrantEffect | src/main/java/com/example/acl/service/AclPermissionService.java:104-122 | After a non-empty grant, the ACL's owner, parent and flag are unchanged and the old entries keep their positions. New entries are granting entries of the SID for requested permissions, and every requested permission is granted. GRANT, with the request as given, is published iff some permission was missing. |
| AclTransitions.GrantGrantsRequested | src/main/java/com/example/acl/service/AclPermissionService.java:104-122 | After a non-empty grant, the identity has an ACL granting every requested permission to the SID. |
| AclTransitions.RegrantIsNoop | src/main/java/com/example/acl/service/AclPermissionService.java:104-122 | Re-granting permissions the SID already holds changes nothing and publishes nothing. |
| AclTransitions.GrantIdempotent | src/main/java/com/example/acl/service/AclPermissionService.java:104-122 | Granting the same request twice has the same effect as granting it once. |
| AclTransitions.GrantKeepsInv | src/main/java/com/example/acl/service/AclPermissionService.java:104-122 | Granting keeps the store invariant: no duplicate grants, all entries granting, parents stored. |
| AclTransitions.GrantKeepsGrant | src/main/java/com/example/acl/service/AclPermissionService.java:104-122 | A grant never removes an existing grant, on any identity. |
| AclTransitions.RevokeResult | src/main/java/com/example/acl/service/AclPermissionService.java:139-166 | After a non-empty revoke, the ACL is the old one with exactly the matching entries (this SID, requested mask, granting or not) deleted. REVOKE, with the request as given, is published iff something matched. |
| AclTransitions.RevokeEffect | src/main/java/com/example/acl/service/AclPermissionService.java:139-166 | After a non-empty revoke, an entry remains iff it was present and is not a requested mask of the SID. No requested permission remains granted to the SID, and every other SID's entries are unchanged, in order. |
| AclTransitions.RevokeRemovesRequested | src/main/java/com/example/acl/service/AclPermissionService.java:139-166 | After a non-empty revoke, the SID holds none of the requested permissions on the ACL. |
| AclTransitions.RevokeAbsentIsNoop | src/main/java/com/example/acl/service/AclPermissionService.java:139-166 | Revoking permissions the SID has no entry for changes nothing and publishes nothing. |
| AclTransitions.RevokeIdempotent | src/main/java/com/example/acl/service/AclPermissionService.java:139-166 | Revoking the same request twice has the same effect as revoking it once, so the second REVOKE is not published. |
| AclTransitions.RevokeKeepsInv | src/main/java/com/example/acl/service/AclPermissionService.java:139-166 | Revoking keeps the store invariant. |
| AclTransitions.RevokeAddsNoGrant | src/main/java/com/example/acl/service/AclPermissionService.java:139-166 | Every grant present after a revoke was present before it. |
| AclTransitions.RevokeKeepsAbsence | src/main/java/com/example/acl/service/AclPermissionService.java:139-166 | A grant absent before a revoke is absent after it, on every stored identity. |
| AclTransitions.RevokeAllEffect | src/main/java/com/example/acl/service/AclPermissionService.java:178-193 | Afterwards, no entry of the SID remains, every other SID's entries are unchanged, and owner, parent and flag are unchanged. For an existing ACL no event is published. |
| AclTransitions.RevokeAllKeepsInv | src/main/java/com/example/acl/service/AclPermissionService.java:178-193 | revokeAllForSid keeps the store invariant. |
| AclTransitions.OwnershipEffect | src/main/java/com/example/acl/service/AclPermissionService.java:60-82 | Afterwards, the owner is principal(user) and every owner default is granted to it. Parent and flag are unchanged and the old entries keep their positions. OWNERSHIP, with the full default list, is published iff the owner changed or a default was missing. |
| AclTransitions.OwnershipIdempotent | src/main/java/com/example/acl/service/AclPermissionService.java:60-82 | A second applyOwnership for the same user changes nothing and publishes nothing. |
| AclTransitions.OwnershipKeepsInv | src/main/java/com/example/acl/service/AclPermissionService.java:60-82 | applyOwnership keeps the store invariant. |
| AclTransitions.SetParentEffect | src/main/java/com/example/acl/service/AclPermissionService.java:195-219 | Afterwards, the child's parent and flag are the requested ones, its owner and entries are unchanged, and the parent is only ensured. INHERITANCE, with no SID or permissions, is published iff the parent or the flag differed. |
| AclTransitions.SetParentIdempotent | src/main/java/com/example/acl/service/AclPermissionService.java:195-219 | Repeating setParent with the same arguments changes nothing and publishes nothing. |
| AclTransitions.SetParentKeepsInv | src/main/java/com/example/acl/service/AclPermissionService.java:195-219 | setParent keeps the store invariant. |
| AclTransitions.BulkGrantGrantsAll | src/main/java/com/example/acl/service/AclPermissionService.java:124-132 | After bulkGrant, every listed identity has an ACL granting every requested permission to the SID. |
| AclTransitions.BulkRevokeRevokesAll | src/main/java/com/example/acl/service/AclPermissionService.java:168-176 | After bulkRevoke, no listed identity grants any requested permission to the SID. |
| AclTransitions.BulkGrantKeepsInv | src/main/java/com/example/acl/service/AclPermissionService.java:124-132 | bulkGrant keeps the store invariant. |
| AclTransitions.BulkRevokeKeepsInv | src/main/java/com/example/acl/service/AclPermissionService.java:168-176 | bulkRevoke keeps the store invariant. |
| AclTransitions.GrantMakesGranted | src/main/java/com/example/acl/service/AclPermissionService.java:221-231 | After a grant to a SID in the caller's list, hasPermission is true for every requested permission. |
| AclTransitions.FreshReadGrant | src/main/java/com/example/acl/service/AclPermissionService.java:221-231 | Granting READ alone on a new identity makes READ true for a caller with that principal, keeps WRITE and DELETE false, and leaves another principal denied READ. |
| AclTransitions.RevokeDeniesLocally | src/main/java/com/example/acl/service/AclPermissionService.java:221-231 | After revoking a permission from a SID on an ACL that does not inherit, that SID alone is denied it. |
| PermissionService.AclPermissionService.constructor | src/main/java/com/example/acl/service/AclPermissionService.java:33-45 | An empty store, cache and event list, with the registry attached; the invariant holds. |
| PermissionService.AclPermissionService.EnsureAcl | src/main/java/com/example/acl/service/AclPermissionService.java:47-58 | Moves the store and events as Ensure does. Returns the stored ACL, caches it, and keeps the invariant. |
| PermissionService.AclPermissionService.UpdateAcl | src/main/java/com/example/acl/service/AclPermissionService.java:258-261 | Persists the ACL and then evicts exactly that identity from the cache. Events are unchanged. |
| PermissionService.AclPermissionService.EvictCache | src/main/java/com/example/acl/service/AclPermissionService.java:233-236 | Removes only that identity from the cache. An uncached identity is no error and changes nothing. |
| PermissionService.AclPermissionService.IsPermissionGranted | src/main/java/com/example/acl/service/AclPermissionService.java:249-256 | True iff some entry is a granting entry of the SID with the permission's mask. |
| PermissionService.AclPermissionService.AddPermissionsIfMissing | src/main/java/com/example/acl/service/AclPermissionService.java:238-247 | The loop yields AddMissing of the request. The old entries are a prefix of the result, and changed holds iff some requested permission was not yet granted. |
| PermissionService.AclPermissionService.DeleteMatchingEntries | src/main/java/com/example/acl/service/AclPermissionService.java:146-154 | The reverse deletion loop yields exactly the non-matching entries, in order; changed holds iff some entry matched. |
| PermissionService.AclPermissionService.GrantPermissions | src/main/java/com/example/acl/service/AclPermissionService.java:104-122 | Moves the store and events as Grant does and keeps the invariant; only this identity's cache slot can change. |
| PermissionService.AclPermissionService.GrantToUser | src/main/java/com/example/acl/service/AclPermissionService.java:84-87 | grantPermissions for the principal SID of the user. |
| PermissionService.AclPermissionService.GrantToGroup | src/main/java/com/example/acl/service/AclPermissionService.java:89-92 | grantPermissions for the authority "GROUP_" + group. |
| PermissionService.AclPermissionService.GrantToRole | src/main/java/com/example/acl/service/AclPermissionService.java:94-97 | grantPermissions for the authority "ROLE_" + role. |
| PermissionService.AclPermissionService.GrantToAuthority | src/main/java/com/example/acl/service/AclPermissionService.java:99-102 | grantPermissions for the authority string as given. |
| PermissionService.AclPermissionService.BulkGrant | src/main/java/com/example/acl/service/AclPermissionService.java:124-132 | Moves the store and events as BulkGrant does, keeps the invariant, and leaves unlisted identities' cache slots alone. |
| PermissionService.AclPermissionService.BulkGrantToUsers | src/main/java/com/example/acl/service/AclPermissionService.java:134-137 | bulkGrant for the principal SID of the user. |
| PermissionService.AclPermissionService.RevokePermissions | src/main/java/com/example/acl/service/AclPermissionService.java:139-166 | Moves the store and events as Revoke does and keeps the invariant; only this identity's cache slot can change. |
| PermissionService.AclPermissionService.BulkRevoke | src/main/java/com/example/acl/service/AclPermissionService.java:168-176 | Moves the store and events as BulkRevoke does and keeps the invariant. |
| PermissionService.AclPermissionService.RevokeAllForSid | src/main/java/com/example/acl/service/AclPermissionService.java:178-193 | Moves the store and events as RevokeAll does and keeps the invariant. |
| PermissionService.AclPermissionService.TakeOwnership | src/main/java/com/example/acl/service/AclPermissionService.java:63-70 | Sets the owner and adds the missing defaults. changed holds iff the owner differed or some default was missing. |
| PermissionService.AclPermissionService.ApplyOwnership | src/main/java/com/example/acl/service/AclPermissionService.java:60-82 | Moves the store and events as ApplyOwnership does and keeps the invariant. |
| PermissionService.AclPermissionService.LinkParent | src/main/java/com/example/acl/service/AclPermissionService.java:199-207 | Sets the parent link and the flag; changed holds iff either differed. |
| PermissionService.AclPermissionService.SetParent | src/main/java/com/example/acl/service/AclPermissionService.java:195-219 | Moves the store and events as SetParent does and keeps the invariant; only the two identities' cache slots can change. |
| PermissionService.AclPermissionService.HasPermission | src/main/java/com/example/acl/service/AclPermissionService.java:221-231 | Equals the single-permission access decision. A missing ACL is false, a local grant to a caller SID is true, and a non-inheriting ACL answers from its own entries alone. |
| AuditLogStore.InMemoryAclAuditLogStore.constructor | src/main/java/com/example/acl/service/InMemoryAclAuditLogStore.java:12 | The log starts empty. |
| AuditLogStore.InMemoryAclAuditLogStore.Save | src/main/java/com/example/acl/service/InMemoryAclAuditLogStore.java:14-17 | Appends the entry at the end: the length grows by one and every earlier entry stays in place. |
| AuditLogStore.InMemoryAclAuditLogStore.FindAll | src/main/java/com/example/acl/service/InMemoryAclAuditLogStore.java:22-26 | Returns the entries in insertion order and changes nothing. |
| AuditLogStore.FindAllThenSave | src/main/java/com/example/acl/service/InMemoryAclAuditLogStore.java:25 | A copy returned by findAll keeps its contents when a later save grows the log. |
| AuditEventListener.SidValue | src/main/java/com/example/acl/service/AclAuditEventListener.java:48-56 | A principal gives its user name, an authority gives its authority string, and a missing SID gives nothing. |
| AuditEventListener.SidValueIsLossy | src/main/java/com/example/acl/service/AclAuditEventListener.java:48-56 | A principal and an authority with the same string are distinct SIDs but log the same value. |
| AuditEventListener.PermissionNames | src/main/java/com/example/acl/service/AclAuditEventListener.java:41-46 | The result is exactly the registry's toNames of the event's permissions, which is [] for an empty list. |
| AuditEventListener.EntryIdentifiesEvent | src/main/java/com/example/acl/service/AclAuditEventListener.java:29-37 | Equal log entries come from events with the same identity, actor and operation, because the identifier's decimal text is injective. |
| AuditEventListener.AclAuditEventListener.OnPermissionChange | src/main/java/com/example/acl/service/AclAuditEventListener.java:25-39 | Saves exactly one entry, at the end of the log: actor, operation, domain type, the identifier as decimal text, the SID value, and the permission names. |
| Decimal.ParseNatString | src/main/java/com/example/acl/service/AclAuditEventListener.java:34 | Reading the digits of a natural number back gives the number. |
| Decimal.DecimalString | src/main/java/com/example/acl/service/AclAuditEventListener.java:34 | The text is non-empty and starts with '-' exactly for a negative number. |
| Decimal.DecimalRoundTrip | src/main/java/com/example/acl/service/AclAuditEventListener.java:34 | The decimal text of every integer is well formed, and parsing it gives the integer back. |
| Decimal.DecimalStringInjective | src/main/java/com/example/acl/service/AclAuditEventListener.java:34 | Distinct integers have distinct decimal texts. |
| PermissionDiscovery.NameOf | src/main/java/com/example/acl/service/PermissionDiscoveryService.java:68 | A permission's registered name, or "UNKNOWN" exactly when its mask is unregistered. |
| PermissionDiscovery.CallerNames | src/main/java/com/example/acl/service/PermissionDiscoveryService.java:66-71 | The names of the caller's granting entries, in entry order, repeats kept; no longer than the entry list. |
| PermissionDiscovery.CallerNamesMembers | src/main/java/com/example/acl/service/PermissionDiscoveryService.java:66-71 | A name is listed iff some granting entry of a caller SID carries a permission with that name. |
| PermissionDiscovery.CallerNamesEmpty | src/main/java/com/example/acl/service/PermissionDiscoveryService.java:66-71 | The list is empty iff no entry is a granting entry of a caller SID. |
| PermissionDiscovery.InheritedFrom | src/main/java/com/example/acl/service/PermissionDiscoveryService.java:73-74 | A parent is consulted iff the ACL inherits entries and its parent is stored. |
| PermissionDiscovery.EffectiveAccess | src/main/java/com/example/acl/service/PermissionDiscoveryService.java:84-86 | hasAccess holds iff the ACL exists and a granting entry of a caller SID is on it or on the immediate parent it inherits from. |
| PermissionDiscovery.DecisionImpliesDiscovery | src/main/java/com/example/acl/service/PermissionDiscoveryService.java:63-86 | When the ACL or its inherited parent grants a mask locally to a caller SID, discovery reports access. |
| PermissionDiscovery.DiscoveryImpliesDecision | src/main/java/com/example/acl/service/PermissionDiscoveryService.java:63-86 | Reported access is backed by the access decision: some mask is granted to the caller on the identity. |
| PermissionDiscovery.CollectCallerNames | src/main/java/com/example/acl/service/PermissionDiscoveryService.java:66-71 | The collecting loop yields exactly CallerNames. |
| PermissionDiscovery.GetEffectivePermissions | src/main/java/com/example/acl/service/PermissionDiscoveryService.java:49-95 | Equals Effective. A missing ACL gives two empty lists and no access, and hasAccess holds iff either list is non-empty. |
| PermissionDiscovery.CallerNameSetMembers | src/main/java/com/example/acl/service/PermissionDiscoveryService.java:256-261 | The set of the caller's names holds exactly the names of the caller's list. |
| PermissionDiscovery.AddCallerNames | src/main/java/com/example/acl/service/PermissionDiscoveryService.java:256-261 | The set-filling loop adds exactly the caller's names on the entry list. |
| PermissionDiscovery.GetPermissionsForSids | src/main/java/com/example/acl/service/PermissionDiscoveryService.java:254-272 | The union of the caller's names on the ACL and, when it inherits from a stored parent, on that parent. |
| PermissionDiscovery.PermissionSetMatchesEffective | src/main/java/com/example/acl/service/PermissionDiscoveryService.java:254-272 | A name is in the set iff getEffectivePermissions lists it as granted or inherited. |
| PermissionDiscovery.PermissionSetNonEmptyIffAccess | src/main/java/com/example/acl/service/PermissionDiscoveryService.java:254-272 | The set is non-empty iff getEffectivePermissions reports access. |
| PermissionDiscovery.ClassForType | src/main/java/com/example/acl/service/PermissionDiscoveryService.java:291-298 | A recognised class name maps to the kind whose class name it is; any other name gives None, where the source throws. |
| PermissionDiscovery.ClassForTypeInverts | src/main/java/com/example/acl/service/PermissionDiscoveryService.java:291-298 | Every kind's class name maps back to that kind. |
| PermissionDiscovery.AccessSource | src/main/java/com/example/acl/service/PermissionDiscoveryService.java:196-244 | Projects are tagged "ACL". Documents and comments are tagged "Inherited" iff they inherit from a stored parent, otherwise "Direct". |
| PermissionDiscovery.Accessible | src/main/java/com/example/acl/service/PermissionDiscoveryService.java:182-204 | The listing is never longer than the resource list. |
| PermissionDiscovery.AccessibleRowsAreListed | src/main/java/com/example/acl/service/PermissionDiscoveryService.java:186-202 | Every listed row comes from a resource of the input that has an ACL and a non-empty permission set. |
| PermissionDiscovery.ListedResourcesHaveRows | src/main/java/com/example/acl/service/PermissionDiscoveryService.java:186-202 | Every input resource with an ACL and a non-empty permission set has its row in the listing. |
| PermissionDiscovery.ListedIffAccess | src/main/java/com/example/acl/service/PermissionDiscoveryService.java:189-191 | A resource is listed iff it has an ACL on which getEffectivePermissions reports access; resources with no ACL are skipped. |
| PermissionDiscovery.ListResource | src/main/java/com/example/acl/service/PermissionDiscoveryService.java:186-201 | One loop step yields exactly the listing decision for the resource. |
| PermissionDiscovery.FindAccessible | src/main/java/com/example/acl/service/PermissionDiscoveryService.java:182-252 | The loop yields exactly Accessible: the rows of the listed resources, in input order. |
| PermissionDiscovery.KindOf | src/main/java/com/example/acl/service/PermissionDiscoveryService.java:103-108 | A kind is recognised iff the upper-cased type name is PROJECT, DOCUMENT or COMMENT. |
| PermissionDiscovery.FindAccessibleResources | src/main/java/com/example/acl/service/PermissionDiscoveryService.java:97-116 | An unknown type is an IllegalArgument error, and only an unknown type is. Otherwise the result is the listing of the requested kind's resources, echoing the type name, with totalCount equal to the number of rows. |
| PermissionDiscovery.Distinct | src/main/java/com/example/acl/service/PermissionDiscoveryService.java:129 | Stream distinct keeps each element's first occurrence, in input order. The result has no duplicates and the same members as the input. For i < j, the first occurrence of element i in the input comes before that of element j. |
| PermissionDiscovery.GrantingNames | src/main/java/com/example/acl/service/PermissionDiscoveryService.java:126-128 | The names of all granting entries, with no caller filter; no longer than the entry list. |
| PermissionDiscovery.GrantingNamesMembers | src/main/java/com/example/acl/service/PermissionDiscoveryService.java:126-128 | A name is listed iff some granting entry, of any SID, carries a permission with that name. |
| PermissionDiscovery.DistinctGrantingNames | src/main/java/com/example/acl/service/PermissionDiscoveryService.java:126-130 | The granting names with duplicates removed. Exactly the names of granting entries are listed, each once, in the order of their first granting entry. |
| PermissionDiscovery.GetPermissionInheritance | src/main/java/com/example/acl/service/PermissionDiscoveryService.java:118-180 | A missing ACL gives empty lists, hasParent = false and entriesInheriting = false. The report fails, with IllegalArgument, iff a stored parent has a class name getClassForType rejects. |
| PermissionDiscovery.InheritanceReport | src/main/java/com/example/acl/service/PermissionDiscoveryService.java:126-164 | The flag is the ACL's own, and hasParent iff a parent is stored. Both lists are duplicate-free and hold exactly the names of granting entries, with no caller filter. The parent's names are reported whenever a parent exists, even when the ACL does not inherit; with no parent the inherited list is empty. |
| PermissionDiscovery.GrandparentGrantIsNotDiscovered | src/main/java/com/example/acl/service/PermissionDiscoveryService.java:73-86 | In a three-level chain where only the grandparent grants READ, the access decision grants READ on the child while discovery reports no access. |
| MethodSecurity.IsDocumentOwner | src/main/java/com/example/acl/security/CustomMethodSecurityExpressionRoot.java:58-62 | True iff the document and its author are present and the author's user name is the caller's. |
| MethodSecurity.IsDocumentOwnerById | src/main/java/com/example/acl/security/CustomMethodSecurityExpressionRoot.java:48-56 | A null id is false. |
| MethodSecurity.DocumentOwnerOverloadsAgree | src/main/java/com/example/acl/security/CustomMethodSecurityExpressionRoot.java:48-62 | For a stored document, looking it up by id gives the same answer as asking about the record; a missing id is false. |
| MethodSecurity.IsProjectOwner | src/main/java/com/example/acl/security/CustomMethodSecurityExpressionRoot.java:64-72 | True iff the id is present, the project is stored, and its owner's user name is the caller's. |
| MethodSecurity.Trim | src/main/java/com/example/acl/security/CustomMethodSecurityExpressionRoot.java:76 | The result is one slice s[i..j] of the input with only characters at or below ' ' outside it. Neither its first nor its last character is at or below ' '. Together these say the result is the input minus its leading and trailing blanks. |
| MethodSecurity.TrimIgnoresPadding | src/main/java/com/example/acl/security/CustomMethodSecurityExpressionRoot.java:76 | Surrounding a string with spaces does not change its trimmed form. |
| MethodSecurity.CanonicalRoleKeys | src/main/java/com/example/acl/security/CustomMethodSecurityExpressionRoot.java:76-85 | OWNER, CONTRIBUTOR and VIEWER are their own switch keys. |
| MethodSecurity.RoleOnProject | src/main/java/com/example/acl/security/CustomMethodSecurityExpressionRoot.java:77-91 | A missing project or an unknown role is false. OWNER is exactly project ownership, and VIEWER on a public project is true. The only failure is NullDereference, and only when the caller has no user record. |
| MethodSecurity.HasProjectRole | src/main/java/com/example/acl/security/CustomMethodSecurityExpressionRoot.java:74-92 | A null id or role is false, a missing project is false, and a failure means NullDereference with no user record for the caller. |
| MethodSecurity.PaddedRoleIsTrimmed | src/main/java/com/example/acl/security/CustomMethodSecurityExpressionRoot.java:76 | Spaces around the role argument do not change the decision. |
| MethodSecurity.RoleCaseIsIgnored | src/main/java/com/example/acl/security/CustomMethodSecurityExpressionRoot.java:76 | For every role string, the role decides exactly as its upper-cased form does, because trimming commutes with upper-casing. |
| MethodSecurity.OwnerAndViewerRules | src/main/java/com/example/acl/security/CustomMethodSecurityExpressionRoot.java:77-89 | For a present project, OWNER is exactly isProjectOwner. VIEWER is true on a public project and is otherwise exactly the CONTRIBUTOR decision, error included. |
| MethodSecurity.UnknownRoleIsDenied | src/main/java/com/example/acl/security/CustomMethodSecurityExpressionRoot.java:90-91 | A role whose key is not OWNER, CONTRIBUTOR or VIEWER gives false. |
| MethodSecurity.ContributorRule | src/main/java/com/example/acl/security/CustomMethodSecurityExpressionRoot.java:79-84 | With a user record, CONTRIBUTOR holds iff the caller's id is among the shared users, a group is shared, or the caller owns the project. Without a record the check fails with NullDereference. |
| MethodSecurity.PublicProjectGrantsViewer | src/main/java/com/example/acl/security/CustomMethodSecurityExpressionRoot.java:85-89 | A public project makes every caller a viewer. |
| MethodSecurity.RolesAreMonotone | src/main/java/com/example/acl/security/CustomMethodSecurityExpressionRoot.java:78-89 | An owner with a user record is a contributor, and a contributor is a viewer. |
| MethodSecurity.OwnerWithoutUserRecord | src/main/java/com/example/acl/security/CustomMethodSecurityExpressionRoot.java:78-97 | An owner with no user record passes OWNER, but CONTRIBUTOR, and VIEWER on a private project, fail with NullDereference. |

## Left out

- Time: the audit entry's `Instant.now()` timestamp is not modelled.
- Concurrency and transactions: `@Transactional`, the concurrent maps and the copy-on-write list are not modelled. Every operation runs alone.
- `@PreAuthorize` on the audit log's `findAll` is framework authorisation and is not modelled.
- Ambient context as parameters. The security context is passed explicitly:
  - the actor is a parameter, and `AclTransitions.CurrentActor` models how it is derived;
  - the caller's SIDs are a parameter, in place of `SidRetrievalStrategy` and `currentAuthenticationSids`;
  - the caller's name in the method-security predicates is a plain string, because the expression root is always built with an authentication.
- The ACL library:
  - the store, the cache, JDBC persistence and cache expiry are plain maps;
  - `createAcl` is modelled as creating an ACL owned by the principal of the actor, with no entries and no parent, that inherits entries. This holds for every actor, "system" included. The library instead takes the owner from the current authentication (`AclPermissionService.java` line 53) and fails when there is none;
  - reading an ACL puts it in the cache;
  - the library's clearing of cached child ACLs on update is not modelled;
  - parent ACLs are compared by their identity;
  - the authorization strategy installed in `AclConfig.java` lines 45-46 is not modelled. In the library, `setOwner`, `insertAce`, `deleteAce`, `setParent` and `setEntriesInheriting` (`AclPermissionService.java` lines 67, 242, 151, 186, 201, 205) throw `AccessDeniedException` for an unauthenticated caller. They also throw it for a caller who is not the owner, lacks `ROLE_ADMIN` and holds no ADMINISTRATION entry. In the model these operations succeed for every actor.
- AclTransitions.Ensure: creation succeeds for every actor, "system" included, and the new ACL is owned by that actor's principal. The library's `createAcl` builds the owner from the current authentication and fails without one.
- AclTransitions.SetParent: the library's refusal to make an ACL its own parent is not modelled. With the same child and parent, the model links the ACL to itself and publishes an INHERITANCE event.
- SidResolver.PrincipalSid: the library's `PrincipalSid` constructor rejects an empty name. The model returns a SID for it.
- SidResolver.AuthoritySid: the library's `GrantedAuthoritySid` constructor rejects an empty string. The model returns a SID for it.
- PermissionService.AclPermissionService.HasPermission: only single-permission calls are modelled. How the library combines several permissions is left out.
- PermissionService.AclPermissionService.HasPermission: entries that deny access (non-granting) are not modelled, because the service never writes one (`AclPermissionService.java` line 242).
- AclEvaluation.Granted: the walk up the parent chain is bounded by the number of stored ACLs, so a cyclic chain is denied rather than looping.
- `resolvePermissions` has the same body as `buildFromNames`. `PermissionRegistry.AclPermissionRegistry.BuildFromNames` models both.
- Null collections are modelled as empty sequences. Null SIDs and null permissions inside collections are not modelled.
- Letter case: `toUpperCase` is modelled for ASCII letters only. `findAccessibleResources` uses the default locale, which the model treats as the root locale.
- Discovery display fields are inputs or left out. Resource names and titles come from the caller. `getResourceName` and the echoed `resourceType`, `resourceId`, `resourceName` and `subject` fields are not modelled.
- PermissionDiscovery.FindAccessible: each row's permissions are a set, because the order of the source's `HashSet` is unspecified.
- The `AclAuditLogStore` interface is represented by its in-memory implementation only.
- Events are appended directly to the service's event list. The path through `AclAuditService` and the Spring event publisher is not modelled.
- The `setFilterObject` / `setReturnObject` plumbing of the expression root is not modelled.
- The `Group` and `Role` enums are passed by their names, as strings.
- MethodSecurity.RolesAreMonotone: OWNER implies CONTRIBUTOR only for a caller with a user record. Without one, the source's CONTRIBUTOR check dereferences null (lines 81-82: line 82 evaluates `user.getGroups()` on every call).
