/**
 * The in-memory audit log: an append-only list of entries. Saving appends at
 * the end; reading returns a copy of the list as it stands, which later saves
 * do not change.
 */
module AuditLogStore {
  import opened Wrappers
  import opened AclModel

  /** One audit record (the timestamp is not modelled). */
  datatype AuditLogEntry = AuditLogEntry(
    actor: string,
    operation: Operation,
    domainType: string,
    objectId: string,
    sid: Option<string>,
    permissions: seq<string>)

  class InMemoryAclAuditLogStore {
    var entries: seq<AuditLogEntry>

    constructor ()
      ensures entries == []
    {
      entries := [];
    }

    /** Appends one entry; everything logged before stays where it was. */
    method Save(entry: AuditLogEntry)
      modifies this
      ensures entries == old(entries) + [entry]
      ensures |entries| == |old(entries)| + 1
      ensures entries[..|old(entries)|] == old(entries)
    {
      entries := entries + [entry];
    }

    /** The log in insertion order, as a value copy. */
    method FindAll() returns (all: seq<AuditLogEntry>)
      ensures all == entries
    {
      all := entries;
    }
  }

  /** A copy taken by `FindAll` keeps its contents when a later `Save` grows the log. */
  method FindAllThenSave(store: InMemoryAclAuditLogStore, entry: AuditLogEntry) returns (snapshot: seq<AuditLogEntry>)
    modifies store
    ensures snapshot == old(store.entries)
    ensures store.entries == snapshot + [entry]
  {
    snapshot := store.FindAll();
    store.Save(entry);
  }
}
