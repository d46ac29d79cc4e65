/**
 * The audit listener: every published permission change becomes exactly one
 * log entry carrying the actor, the operation, the domain class name, the
 * identifier as decimal text, the SID as a plain string and the registered
 * names of the permissions.
 */
module AuditEventListener {
  import opened Wrappers
  import opened Permissions
  import opened SidResolver
  import opened AclModel
  import opened Decimal
  import opened AuditLogStore
  import PermissionRegistry

  /** The string a SID is logged under; a missing SID logs nothing. */
  function SidValue(sid: Option<Sid>): (r: Option<string>)
    ensures r.None? <==> sid.None?
    ensures sid.Some? && sid.value.Principal? ==> r == Some(sid.value.principal)
    ensures sid.Some? && sid.value.Authority? ==> r == Some(sid.value.grantedAuthority)
  {
    match sid
    case None => None
    case Some(Principal(u)) => Some(u)
    case Some(Authority(a)) => Some(a)
  }

  /** The logged value drops the SID kind: a principal and an authority with the same string log alike. */
  lemma SidValueIsLossy(s: string)
    ensures PrincipalSid(s) != AuthoritySid(s)
    ensures SidValue(Some(PrincipalSid(s))) == SidValue(Some(AuthoritySid(s))) == Some(s)
  {
  }

  /** The names of the event's permissions, as the registry names them; unregistered masks are dropped. */
  function PermissionNames(registry: PermissionRegistry.AclPermissionRegistry, ps: seq<Permission>): (r: seq<string>)
    reads registry
    requires registry.Valid()
    ensures r == registry.ToNames(ps)
    ensures ps == [] ==> r == []
    ensures |r| <= |ps|
    ensures forall i :: 0 <= i < |r| ==> r[i] in PermissionRegistry.NAMES
    ensures (forall i :: 0 <= i < |ps| ==> ps[i].mask in PermissionRegistry.MASKS) ==> |r| == |ps|
  {
    if ps == [] then [] else registry.ToNames(ps)
  }

  /** The entry logged for one event. */
  function ToEntry(registry: PermissionRegistry.AclPermissionRegistry, event: ChangeEvent): AuditLogEntry
    reads registry
    requires registry.Valid()
  {
    AuditLogEntry(
      event.actor,
      event.operation,
      event.oid.domainType,
      DecimalString(event.oid.identifier),
      SidValue(event.sid),
      PermissionNames(registry, event.permissions))
  }

  /** An entry names its object unambiguously: equal entries come from events about the same identity, actor and operation. */
  lemma EntryIdentifiesEvent(registry: PermissionRegistry.AclPermissionRegistry, e1: ChangeEvent, e2: ChangeEvent)
    requires registry.Valid()
    requires ToEntry(registry, e1) == ToEntry(registry, e2)
    ensures e1.oid == e2.oid && e1.actor == e2.actor && e1.operation == e2.operation
  {
    DecimalStringInjective(e1.oid.identifier, e2.oid.identifier);
  }

  class AclAuditEventListener {
    const logStore: InMemoryAclAuditLogStore
    const registry: PermissionRegistry.AclPermissionRegistry

    constructor (logStore: InMemoryAclAuditLogStore, registry: PermissionRegistry.AclPermissionRegistry)
      ensures this.logStore == logStore && this.registry == registry
    {
      this.logStore := logStore;
      this.registry := registry;
    }

    /** Saves exactly one entry, built from the event, at the end of the log. */
    method OnPermissionChange(event: ChangeEvent)
      requires registry.Valid()
      modifies logStore
      ensures logStore.entries == old(logStore.entries) + [ToEntry(registry, event)]
    {
      var names := PermissionNames(registry, event.permissions);
      var sidValue := SidValue(event.sid);
      var entry := AuditLogEntry(
        event.actor, event.operation, event.oid.domainType,
        DecimalString(event.oid.identifier), sidValue, names);
      logStore.Save(entry);
    }
  }
}
