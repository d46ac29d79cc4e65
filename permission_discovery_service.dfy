/**
 * Read-only permission discovery. For one identity it reports the names of
 * the permissions the caller holds directly and, when the ACL inherits, those
 * it holds on the immediate parent; it lists the resources of one kind the
 * caller can reach; and it reports, without a caller filter, which permission
 * names an ACL and its parent grant at all. Masks with no registered name are
 * reported as "UNKNOWN". The store, the caller's SIDs and the resource lists
 * are inputs.
 */
module PermissionDiscovery {
  import opened Wrappers
  import opened Permissions
  import opened SidResolver
  import opened AclModel
  import opened AclEvaluation
  import opened Decimal
  import PermissionRegistry

  type Registry = PermissionRegistry.AclPermissionRegistry

  const UNKNOWN := "UNKNOWN"

  /** The registered name of a permission, or UNKNOWN. */
  function NameOf(registry: Registry, p: Permission): (r: string)
    reads registry
    requires registry.Valid()
    ensures r == UNKNOWN <==> p.mask !in PermissionRegistry.MASKS
    ensures r != UNKNOWN ==> r in PermissionRegistry.NAMES
  {
    match registry.ResolveName(p)
    case Some(n) => n
    case None => UNKNOWN
  }

  /** The entry is a granting entry of one of the caller's SIDs. */
  predicate CallerGrant(a: Ace, sids: seq<Sid>) {
    a.sid in sids && a.granting
  }

  predicate HasCallerGrant(es: seq<Ace>, sids: seq<Sid>) {
    exists i :: 0 <= i < |es| && CallerGrant(es[i], sids)
  }

  /** The names of the caller's granting entries, in entry order, repeats kept. */
  function CallerNames(registry: Registry, es: seq<Ace>, sids: seq<Sid>): (r: seq<string>)
    reads registry
    requires registry.Valid()
    ensures |r| <= |es|
    decreases |es|
  {
    if es == [] then []
    else
      CallerNames(registry, es[..|es| - 1], sids)
      + (if CallerGrant(es[|es| - 1], sids) then [NameOf(registry, es[|es| - 1].permission)] else [])
  }

  /** A name is listed exactly when some granting entry of a caller SID carries a permission of that name. */
  lemma {:induction false} CallerNamesMembers(registry: Registry, es: seq<Ace>, sids: seq<Sid>, n: string)
    requires registry.Valid()
    ensures n in CallerNames(registry, es, sids) <==>
            exists i :: 0 <= i < |es| && CallerGrant(es[i], sids) && NameOf(registry, es[i].permission) == n
    decreases |es|
  {
    if es != [] {
      var init := es[..|es| - 1];
      CallerNamesMembers(registry, init, sids, n);
      if n in CallerNames(registry, init, sids) {
        var i :| 0 <= i < |init| && CallerGrant(init[i], sids) && NameOf(registry, init[i].permission) == n;
        assert es[i] == init[i];
      }
      if exists i :: 0 <= i < |es| && CallerGrant(es[i], sids) && NameOf(registry, es[i].permission) == n {
        var i :| 0 <= i < |es| && CallerGrant(es[i], sids) && NameOf(registry, es[i].permission) == n;
        if i < |init| {
          assert init[i] == es[i];
        }
      }
    }
  }

  /** The list is empty exactly when no entry is a granting entry of a caller SID. */
  lemma {:induction false} CallerNamesEmpty(registry: Registry, es: seq<Ace>, sids: seq<Sid>)
    requires registry.Valid()
    ensures CallerNames(registry, es, sids) == [] <==> !HasCallerGrant(es, sids)
    decreases |es|
  {
    if es != [] {
      var init := es[..|es| - 1];
      CallerNamesEmpty(registry, init, sids);
      if HasCallerGrant(init, sids) {
        var i :| 0 <= i < |init| && CallerGrant(init[i], sids);
        assert es[i] == init[i];
      }
      if HasCallerGrant(es, sids) && !CallerGrant(es[|es| - 1], sids) {
        var i :| 0 <= i < |es| && CallerGrant(es[i], sids);
        assert init[i] == es[i];
      }
    }
  }

  /** The parent ACL, when the ACL names one and it is stored. */
  function ParentAcl(store: map<Oid, Acl>, acl: Acl): Option<Acl> {
    if acl.parent.Some? && acl.parent.value in store then Some(store[acl.parent.value]) else None
  }

  /** The parent ACL whose entries count for the caller: only an inheriting ACL's. */
  function InheritedFrom(store: map<Oid, Acl>, acl: Acl): (r: Option<Acl>)
    ensures r.Some? <==> Inherits(acl) && acl.parent.value in store
  {
    if acl.entriesInheriting then ParentAcl(store, acl) else None
  }

  /** An identity printed as "type:identifier". */
  function IdentityText(oid: Oid): string {
    oid.domainType + ":" + DecimalString(oid.identifier)
  }

  datatype EffectivePermissions = EffectivePermissions(
    grantedPermissions: seq<string>,
    inheritedPermissions: seq<string>,
    parentResource: Option<string>,
    hasAccess: bool)

  /** What getEffectivePermissions reports for `oid`. */
  function Effective(registry: Registry, store: map<Oid, Acl>, oid: Oid, sids: seq<Sid>): EffectivePermissions
    reads registry
    requires registry.Valid()
  {
    if oid !in store then EffectivePermissions([], [], None, false)
    else
      var acl := store[oid];
      var granted := CallerNames(registry, acl.entries, sids);
      match InheritedFrom(store, acl)
      case None => EffectivePermissions(granted, [], None, granted != [])
      case Some(parent) =>
        var inherited := CallerNames(registry, parent.entries, sids);
        EffectivePermissions(granted, inherited, Some(IdentityText(acl.parent.value)), granted != [] || inherited != [])
  }

  /** The caller has access exactly when a granting entry of a caller SID sits on the ACL or on the parent it inherits from. */
  lemma EffectiveAccess(registry: Registry, store: map<Oid, Acl>, oid: Oid, sids: seq<Sid>)
    requires registry.Valid()
    ensures Effective(registry, store, oid, sids).hasAccess <==>
            oid in store
            && (HasCallerGrant(store[oid].entries, sids)
                || (InheritedFrom(store, store[oid]).Some? && HasCallerGrant(InheritedFrom(store, store[oid]).value.entries, sids)))
  {
    if oid in store {
      CallerNamesEmpty(registry, store[oid].entries, sids);
      var p := InheritedFrom(store, store[oid]);
      if p.Some? {
        CallerNamesEmpty(registry, p.value.entries, sids);
      }
    }
  }

  /** Whenever the access decision grants a mask through the ACL or its immediate parent, discovery reports access. */
  lemma DecisionImpliesDiscovery(registry: Registry, store: map<Oid, Acl>, oid: Oid, sids: seq<Sid>, mask: int)
    requires registry.Valid()
    requires oid in store
    requires LocalGrant(store[oid].entries, sids, mask)
             || (InheritedFrom(store, store[oid]).Some? && LocalGrant(InheritedFrom(store, store[oid]).value.entries, sids, mask))
    ensures Effective(registry, store, oid, sids).hasAccess
  {
    EffectiveAccess(registry, store, oid, sids);
    var acl := store[oid];
    if LocalGrant(acl.entries, sids, mask) {
      var i :| 0 <= i < |acl.entries| && acl.entries[i].sid in sids && acl.entries[i].permission.mask == mask && acl.entries[i].granting;
      assert CallerGrant(acl.entries[i], sids);
    } else {
      var es := InheritedFrom(store, acl).value.entries;
      var i :| 0 <= i < |es| && es[i].sid in sids && es[i].permission.mask == mask && es[i].granting;
      assert CallerGrant(es[i], sids);
    }
  }

  /** Reported access is backed by the access decision: some mask is granted to the caller on `oid`. */
  lemma DiscoveryImpliesDecision(registry: Registry, store: map<Oid, Acl>, oid: Oid, sids: seq<Sid>)
    requires registry.Valid()
    requires Effective(registry, store, oid, sids).hasAccess
    ensures exists mask :: Granted(store, oid, sids, mask)
  {
    EffectiveAccess(registry, store, oid, sids);
    var acl := store[oid];
    if HasCallerGrant(acl.entries, sids) {
      var i :| 0 <= i < |acl.entries| && CallerGrant(acl.entries[i], sids);
      var mask := acl.entries[i].permission.mask;
      assert LocalGrant(acl.entries, sids, mask);
      assert Granted(store, oid, sids, mask);
    } else {
      var es := store[acl.parent.value].entries;
      var i :| 0 <= i < |es| && CallerGrant(es[i], sids);
      var mask := es[i].permission.mask;
      assert LocalGrant(es, sids, mask);
      ParentGrantReachesChild(store, oid, sids, mask);
    }
  }

  /** The loop over an entry list that collects the caller's permission names. */
  method CollectCallerNames(registry: Registry, entries: seq<Ace>, sids: seq<Sid>) returns (names: seq<string>)
    requires registry.Valid()
    ensures names == CallerNames(registry, entries, sids)
  {
    names := [];
    for i := 0 to |entries|
      invariant names == CallerNames(registry, entries[..i], sids)
    {
      assert entries[..i + 1][..i] == entries[..i];
      if entries[i].sid in sids && entries[i].granting {
        var name := NameOf(registry, entries[i].permission);
        names := names + [name];
      }
    }
    assert entries[..|entries|] == entries;
  }

  /** getEffectivePermissions: the caller's direct names, the inherited ones, the parent's identity and the access flag. */
  method GetEffectivePermissions(registry: Registry, store: map<Oid, Acl>, oid: Oid, sids: seq<Sid>)
    returns (r: EffectivePermissions)
    requires registry.Valid()
    ensures r == Effective(registry, store, oid, sids)
    ensures oid !in store ==> r.grantedPermissions == [] && r.inheritedPermissions == [] && !r.hasAccess
    ensures r.hasAccess <==> r.grantedPermissions != [] || r.inheritedPermissions != []
  {
    if oid !in store {
      return EffectivePermissions([], [], None, false);
    }
    var acl := store[oid];
    var direct := CollectCallerNames(registry, acl.entries, sids);
    var inherited: seq<string> := [];
    var parentResource: Option<string> := None;
    if acl.entriesInheriting && acl.parent.Some? && acl.parent.value in store {
      var parentAcl := store[acl.parent.value];
      inherited := CollectCallerNames(registry, parentAcl.entries, sids);
      parentResource := Some(IdentityText(acl.parent.value));
    }
    r := EffectivePermissions(direct, inherited, parentResource, direct != [] || inherited != []);
  }

  /** The caller's permission names on an entry list, as a set. */
  function CallerNameSet(registry: Registry, es: seq<Ace>, sids: seq<Sid>): set<string>
    reads registry
    requires registry.Valid()
    decreases |es|
  {
    if es == [] then {}
    else
      CallerNameSet(registry, es[..|es| - 1], sids)
      + (if CallerGrant(es[|es| - 1], sids) then {NameOf(registry, es[|es| - 1].permission)} else {})
  }

  /** The set holds exactly the names of the list. */
  lemma {:induction false} CallerNameSetMembers(registry: Registry, es: seq<Ace>, sids: seq<Sid>, n: string)
    requires registry.Valid()
    ensures n in CallerNameSet(registry, es, sids) <==> n in CallerNames(registry, es, sids)
    decreases |es|
  {
    if es != [] {
      CallerNameSetMembers(registry, es[..|es| - 1], sids, n);
    }
  }

  /** getPermissionsForSids: the set of the caller's names on the ACL and, when it inherits, on its parent. */
  function PermissionSet(registry: Registry, store: map<Oid, Acl>, acl: Acl, sids: seq<Sid>): set<string>
    reads registry
    requires registry.Valid()
  {
    CallerNameSet(registry, acl.entries, sids)
    + (match InheritedFrom(store, acl)
       case Some(parent) => CallerNameSet(registry, parent.entries, sids)
       case None => {})
  }

  /** The loop over an entry list that adds the caller's permission names to a set. */
  method AddCallerNames(registry: Registry, entries: seq<Ace>, sids: seq<Sid>, acc: set<string>) returns (names: set<string>)
    requires registry.Valid()
    ensures names == acc + CallerNameSet(registry, entries, sids)
  {
    names := acc;
    for i := 0 to |entries|
      invariant names == acc + CallerNameSet(registry, entries[..i], sids)
    {
      assert entries[..i + 1][..i] == entries[..i];
      if entries[i].sid in sids && entries[i].granting {
        var name := NameOf(registry, entries[i].permission);
        names := names + {name};
      }
    }
    assert entries[..|entries|] == entries;
  }

  method GetPermissionsForSids(registry: Registry, store: map<Oid, Acl>, acl: Acl, sids: seq<Sid>) returns (permissions: set<string>)
    requires registry.Valid()
    ensures permissions == PermissionSet(registry, store, acl, sids)
  {
    permissions := AddCallerNames(registry, acl.entries, sids, {});
    if acl.entriesInheriting && acl.parent.Some? && acl.parent.value in store {
      permissions := AddCallerNames(registry, store[acl.parent.value].entries, sids, permissions);
    }
  }

  /** The set used for listing holds exactly the names getEffectivePermissions reports. */
  lemma PermissionSetMatchesEffective(registry: Registry, store: map<Oid, Acl>, oid: Oid, sids: seq<Sid>, n: string)
    requires registry.Valid()
    requires oid in store
    ensures n in PermissionSet(registry, store, store[oid], sids) <==>
            n in Effective(registry, store, oid, sids).grantedPermissions
            || n in Effective(registry, store, oid, sids).inheritedPermissions
  {
    CallerNameSetMembers(registry, store[oid].entries, sids, n);
    var p := InheritedFrom(store, store[oid]);
    if p.Some? {
      CallerNameSetMembers(registry, p.value.entries, sids, n);
    }
  }

  /** So a resource's set is non-empty exactly when getEffectivePermissions reports access to it. */
  lemma PermissionSetNonEmptyIffAccess(registry: Registry, store: map<Oid, Acl>, oid: Oid, sids: seq<Sid>)
    requires registry.Valid()
    requires oid in store
    ensures PermissionSet(registry, store, store[oid], sids) != {} <==> Effective(registry, store, oid, sids).hasAccess
  {
    var e := Effective(registry, store, oid, sids);
    var ps := PermissionSet(registry, store, store[oid], sids);
    if ps != {} {
      var n :| n in ps;
      PermissionSetMatchesEffective(registry, store, oid, sids, n);
    }
    if e.grantedPermissions != [] {
      PermissionSetMatchesEffective(registry, store, oid, sids, e.grantedPermissions[0]);
    } else if e.inheritedPermissions != [] {
      PermissionSetMatchesEffective(registry, store, oid, sids, e.inheritedPermissions[0]);
    }
  }

  datatype ResourceKind = ProjectKind | DocumentKind | CommentKind

  /** The domain class name an identity of this kind carries. */
  function DomainType(kind: ResourceKind): string {
    match kind
    case ProjectKind => "com.example.acl.domain.Project"
    case DocumentKind => "com.example.acl.domain.Document"
    case CommentKind => "com.example.acl.domain.Comment"
  }

  /** getClassForType: the kind of a domain class name; None where the source throws IllegalArgumentException. */
  function ClassForType(domainType: string): (r: Option<ResourceKind>)
    ensures r.Some? ==> DomainType(r.value) == domainType
  {
    if domainType == "com.example.acl.domain.Project" then Some(ProjectKind)
    else if domainType == "com.example.acl.domain.Document" then Some(DocumentKind)
    else if domainType == "com.example.acl.domain.Comment" then Some(CommentKind)
    else None
  }

  /** Every kind's class name maps back to that kind. */
  lemma ClassForTypeInverts(kind: ResourceKind)
    ensures ClassForType(DomainType(kind)) == Some(kind)
  {
  }

  /** A resource as the repository lists it: its id and its title (for a comment, its document's title). */
  datatype Resource = Resource(id: int, title: string)

  datatype ResourcePermissionInfo = ResourcePermissionInfo(
    resourceId: int,
    resourceName: string,
    permissions: set<string>,
    accessSource: string)

  function DisplayName(kind: ResourceKind, resource: Resource): string {
    if kind == CommentKind then "Comment on: " + resource.title else resource.title
  }

  /** Projects are tagged "ACL"; documents and comments "Inherited" when they inherit from a stored parent, else "Direct". */
  function AccessSource(kind: ResourceKind, store: map<Oid, Acl>, acl: Acl): (r: string)
    ensures kind == ProjectKind ==> r == "ACL"
    ensures kind != ProjectKind ==> (r == "Inherited" <==> InheritedFrom(store, acl).Some?)
    ensures kind != ProjectKind ==> (r == "Direct" <==> InheritedFrom(store, acl).None?)
  {
    if kind == ProjectKind then "ACL"
    else if acl.entriesInheriting && ParentAcl(store, acl).Some? then "Inherited"
    else "Direct"
  }

  /** The listing row for one resource, when it has an ACL and the caller holds some permission on it. */
  function Listed(registry: Registry, store: map<Oid, Acl>, kind: ResourceKind, resource: Resource, sids: seq<Sid>)
    : Option<ResourcePermissionInfo>
    reads registry
    requires registry.Valid()
  {
    var oid := Oid(DomainType(kind), resource.id);
    if oid in store then
      var ps := PermissionSet(registry, store, store[oid], sids);
      if ps != {} then
        Some(ResourcePermissionInfo(resource.id, DisplayName(kind, resource), ps, AccessSource(kind, store, store[oid])))
      else None
    else None
  }

  /** The present values of a sequence of options, in order. */
  function Somes<T>(s: seq<Option<T>>): (r: seq<T>)
    ensures |r| <= |s|
    decreases |s|
  {
    if s == [] then [] else Somes(s[..|s| - 1]) + (if s[|s| - 1].Some? then [s[|s| - 1].value] else [])
  }

  lemma SomesSnoc<T>(s: seq<Option<T>>, x: Option<T>)
    ensures Somes(s + [x]) == Somes(s) + (if x.Some? then [x.value] else [])
  {
    assert (s + [x])[..|s|] == s;
  }

  lemma {:induction false} SomesMembers<T>(s: seq<Option<T>>, x: T)
    ensures x in Somes(s) <==> exists i :: 0 <= i < |s| && s[i] == Some(x)
    decreases |s|
  {
    if s != [] {
      var n := |s| - 1;
      SomesMembers(s[..n], x);
      if x in Somes(s[..n]) {
        var i :| 0 <= i < n && s[..n][i] == Some(x);
        assert s[i] == Some(x);
      }
      if exists i :: 0 <= i < |s| && s[i] == Some(x) {
        var i :| 0 <= i < |s| && s[i] == Some(x);
        if i < n {
          assert s[..n][i] == Some(x);
        }
      }
    }
  }

  /** One optional row per resource, in list order. */
  function Rows(registry: Registry, store: map<Oid, Acl>, kind: ResourceKind, resources: seq<Resource>, sids: seq<Sid>)
    : (rows: seq<Option<ResourcePermissionInfo>>)
    reads registry
    requires registry.Valid()
    ensures |rows| == |resources|
    decreases |resources|
  {
    if resources == [] then []
    else Rows(registry, store, kind, resources[..|resources| - 1], sids) + [Listed(registry, store, kind, resources[|resources| - 1], sids)]
  }

  lemma {:induction false} RowsAt(registry: Registry, store: map<Oid, Acl>, kind: ResourceKind, resources: seq<Resource>, sids: seq<Sid>, i: int)
    requires registry.Valid()
    requires 0 <= i < |resources|
    ensures Rows(registry, store, kind, resources, sids)[i] == Listed(registry, store, kind, resources[i], sids)
    decreases |resources|
  {
    var n := |resources| - 1;
    if i < n {
      RowsAt(registry, store, kind, resources[..n], sids, i);
      assert resources[..n][i] == resources[i];
    }
  }

  lemma RowsSnoc(registry: Registry, store: map<Oid, Acl>, kind: ResourceKind, resources: seq<Resource>, sids: seq<Sid>, i: int,
                 row: Option<ResourcePermissionInfo>)
    requires registry.Valid()
    requires 0 <= i < |resources|
    requires row == Listed(registry, store, kind, resources[i], sids)
    ensures Rows(registry, store, kind, resources[..i + 1], sids) == Rows(registry, store, kind, resources[..i], sids) + [row]
  {
    assert resources[..i + 1][..i] == resources[..i];
  }

  /** The listing of a resource list: the rows of the listed resources, in list order. */
  function Accessible(registry: Registry, store: map<Oid, Acl>, kind: ResourceKind, resources: seq<Resource>, sids: seq<Sid>)
    : (r: seq<ResourcePermissionInfo>)
    reads registry
    requires registry.Valid()
    ensures |r| <= |resources|
  {
    Somes(Rows(registry, store, kind, resources, sids))
  }

  /** Every row belongs to a listed resource of the input. */
  lemma AccessibleRowsAreListed(registry: Registry, store: map<Oid, Acl>, kind: ResourceKind, resources: seq<Resource>, sids: seq<Sid>, info: ResourcePermissionInfo)
    requires registry.Valid()
    requires info in Accessible(registry, store, kind, resources, sids)
    ensures exists i :: 0 <= i < |resources| && Listed(registry, store, kind, resources[i], sids) == Some(info)
  {
    var rows := Rows(registry, store, kind, resources, sids);
    SomesMembers(rows, info);
    var i :| 0 <= i < |rows| && rows[i] == Some(info);
    RowsAt(registry, store, kind, resources, sids, i);
  }

  /** Every listed resource of the input has its row. */
  lemma ListedResourcesHaveRows(registry: Registry, store: map<Oid, Acl>, kind: ResourceKind, resources: seq<Resource>, sids: seq<Sid>, i: int)
    requires registry.Valid()
    requires 0 <= i < |resources| && Listed(registry, store, kind, resources[i], sids).Some?
    ensures Listed(registry, store, kind, resources[i], sids).value in Accessible(registry, store, kind, resources, sids)
  {
    var rows := Rows(registry, store, kind, resources, sids);
    RowsAt(registry, store, kind, resources, sids, i);
    SomesMembers(rows, rows[i].value);
  }

  /** A resource is listed exactly when it has an ACL on which getEffectivePermissions reports access. */
  lemma ListedIffAccess(registry: Registry, store: map<Oid, Acl>, kind: ResourceKind, resource: Resource, sids: seq<Sid>)
    requires registry.Valid()
    ensures Listed(registry, store, kind, resource, sids).Some? <==>
            Effective(registry, store, Oid(DomainType(kind), resource.id), sids).hasAccess
  {
    var oid := Oid(DomainType(kind), resource.id);
    if oid in store {
      PermissionSetNonEmptyIffAccess(registry, store, oid, sids);
    }
  }

  /** The body of the listing loop for one resource: its row, when it has an ACL and the caller holds something on it. */
  method ListResource(registry: Registry, store: map<Oid, Acl>, kind: ResourceKind, resource: Resource, sids: seq<Sid>)
    returns (row: Option<ResourcePermissionInfo>)
    requires registry.Valid()
    ensures row == Listed(registry, store, kind, resource, sids)
  {
    row := None;
    var oid := Oid(DomainType(kind), resource.id);
    if oid in store {
      var acl := store[oid];
      var permissions := GetPermissionsForSids(registry, store, acl, sids);
      if permissions != {} {
        var source := AccessSource(kind, store, acl);
        row := Some(ResourcePermissionInfo(resource.id, DisplayName(kind, resource), permissions, source));
      }
    }
  }

  /** The loop of findAccessibleProjects, findAccessibleDocuments and findAccessibleComments. */
  method FindAccessible(registry: Registry, store: map<Oid, Acl>, kind: ResourceKind, resources: seq<Resource>, sids: seq<Sid>)
    returns (accessible: seq<ResourcePermissionInfo>)
    requires registry.Valid()
    ensures accessible == Accessible(registry, store, kind, resources, sids)
  {
    accessible := [];
    ghost var rows: seq<Option<ResourcePermissionInfo>> := [];
    for i := 0 to |resources|
      invariant rows == Rows(registry, store, kind, resources[..i], sids)
      invariant accessible == Somes(rows)
    {
      var row := ListResource(registry, store, kind, resources[i], sids);
      RowsSnoc(registry, store, kind, resources, sids, i, row);
      SomesSnoc(rows, row);
      rows := rows + [row];
      if row.Some? {
        accessible := accessible + [row.value];
      }
    }
    assert resources[..|resources|] == resources;
  }

  /** The resource-type switch: PROJECT, DOCUMENT or COMMENT in any letter case. */
  function KindOf(resourceType: string): (r: Option<ResourceKind>)
    ensures r.Some? <==> PermissionRegistry.Upper(resourceType) in {"PROJECT", "DOCUMENT", "COMMENT"}
  {
    var key := PermissionRegistry.Upper(resourceType);
    if key == "PROJECT" then Some(ProjectKind)
    else if key == "DOCUMENT" then Some(DocumentKind)
    else if key == "COMMENT" then Some(CommentKind)
    else None
  }

  datatype AccessibleResources = AccessibleResources(
    resourceType: string,
    resources: seq<ResourcePermissionInfo>,
    totalCount: int)

  /**
   * findAccessibleResources, given the repositories' project, document and
   * comment lists: the rows of the requested kind with their count, or
   * IllegalArgument for any other type name.
   */
  method FindAccessibleResources(
    registry: Registry, store: map<Oid, Acl>, resourceType: string, sids: seq<Sid>,
    projects: seq<Resource>, documents: seq<Resource>, comments: seq<Resource>)
    returns (r: Result<AccessibleResources>)
    requires registry.Valid()
    ensures r.Err? <==> KindOf(resourceType).None?
    ensures r.Err? ==> r.error.IllegalArgument?
    ensures r.Ok? ==> r.value.resourceType == resourceType && r.value.totalCount == |r.value.resources|
    ensures KindOf(resourceType) == Some(ProjectKind) ==> r == Ok(AccessibleResources(resourceType, Accessible(registry, store, ProjectKind, projects, sids), |Accessible(registry, store, ProjectKind, projects, sids)|))
    ensures KindOf(resourceType) == Some(DocumentKind) ==> r == Ok(AccessibleResources(resourceType, Accessible(registry, store, DocumentKind, documents, sids), |Accessible(registry, store, DocumentKind, documents, sids)|))
    ensures KindOf(resourceType) == Some(CommentKind) ==> r == Ok(AccessibleResources(resourceType, Accessible(registry, store, CommentKind, comments, sids), |Accessible(registry, store, CommentKind, comments, sids)|))
  {
    var accessible: seq<ResourcePermissionInfo>;
    match KindOf(resourceType) {
      case None =>
        return Err(IllegalArgument("Unknown resource type: " + resourceType));
      case Some(ProjectKind) =>
        accessible := FindAccessible(registry, store, ProjectKind, projects, sids);
      case Some(DocumentKind) =>
        accessible := FindAccessible(registry, store, DocumentKind, documents, sids);
      case Some(CommentKind) =>
        accessible := FindAccessible(registry, store, CommentKind, comments, sids);
    }
    r := Ok(AccessibleResources(resourceType, accessible, |accessible|));
  }

  predicate NoDuplicates<T(==)>(s: seq<T>) {
    forall i, j :: 0 <= i < j < |s| ==> s[i] != s[j]
  }

  /** The position of the first occurrence of `x` in `s`. */
  function FirstIndex(s: seq<string>, x: string): (k: nat)
    requires x in s
    ensures k < |s| && s[k] == x
    ensures forall m :: 0 <= m < k ==> s[m] != x
  {
    if s[0] == x then 0
    else
      var k := 1 + FirstIndex(s[1..], x);
      assert forall m :: 1 <= m < k ==> s[m] == s[1..][m - 1];
      k
  }

  /** Dropping the last element keeps the first occurrences of the others; a new last element first occurs last. */
  lemma FirstIndexOfInit(s: seq<string>)
    requires s != []
    ensures forall y :: y in s[..|s| - 1] ==> FirstIndex(s, y) == FirstIndex(s[..|s| - 1], y) < |s| - 1
    ensures s[|s| - 1] !in s[..|s| - 1] ==> FirstIndex(s, s[|s| - 1]) == |s| - 1
  {
    var init := s[..|s| - 1];
    forall y | y in init ensures FirstIndex(s, y) == FirstIndex(init, y) {
      var k := FirstIndex(init, y);
      var k2 := FirstIndex(s, y);
      assert s[k] == init[k] == y;
      assert k2 <= k;
      assert init[k2] == s[k2] == y;
    }
  }

  /** Stream `distinct`: the first occurrence of each element, in order. */
  function Distinct(s: seq<string>): (r: seq<string>)
    ensures NoDuplicates(r)
    ensures forall x :: x in r <==> x in s
    ensures forall i, j :: 0 <= i < j < |r| ==> FirstIndex(s, r[i]) < FirstIndex(s, r[j])
    ensures |r| <= |s|
    decreases |s|
  {
    if s == [] then []
    else
      var d := Distinct(s[..|s| - 1]);
      var x := s[|s| - 1];
      assert forall y :: y in s <==> y in s[..|s| - 1] || y == x by {
        assert s == s[..|s| - 1] + [x];
      }
      FirstIndexOfInit(s);
      if x in d then d else d + [x]
  }

  /** The names of all granting entries, in entry order, with no caller filter. */
  function GrantingNames(registry: Registry, es: seq<Ace>): (r: seq<string>)
    reads registry
    requires registry.Valid()
    ensures |r| <= |es|
    decreases |es|
  {
    if es == [] then []
    else
      GrantingNames(registry, es[..|es| - 1])
      + (if es[|es| - 1].granting then [NameOf(registry, es[|es| - 1].permission)] else [])
  }

  lemma {:induction false} GrantingNamesMembers(registry: Registry, es: seq<Ace>, n: string)
    requires registry.Valid()
    ensures n in GrantingNames(registry, es) <==>
            exists i :: 0 <= i < |es| && es[i].granting && NameOf(registry, es[i].permission) == n
    decreases |es|
  {
    if es != [] {
      var init := es[..|es| - 1];
      GrantingNamesMembers(registry, init, n);
      if n in GrantingNames(registry, init) {
        var i :| 0 <= i < |init| && init[i].granting && NameOf(registry, init[i].permission) == n;
        assert es[i] == init[i];
      }
      if exists i :: 0 <= i < |es| && es[i].granting && NameOf(registry, es[i].permission) == n {
        var i :| 0 <= i < |es| && es[i].granting && NameOf(registry, es[i].permission) == n;
        if i < |init| {
          assert init[i] == es[i];
        }
      }
    }
  }

  /** The permission names an ACL grants to anyone, each once. */
  function DistinctGrantingNames(registry: Registry, es: seq<Ace>): (r: seq<string>)
    reads registry
    requires registry.Valid()
    ensures NoDuplicates(r)
    ensures forall x :: x in r <==> x in GrantingNames(registry, es)
    ensures forall i, j :: 0 <= i < j < |r| ==>
              FirstIndex(GrantingNames(registry, es), r[i]) < FirstIndex(GrantingNames(registry, es), r[j])
  {
    Distinct(GrantingNames(registry, es))
  }

  datatype ParentResourceInfo = ParentResourceInfo(resourceType: string, resourceId: int, permissions: seq<string>)

  datatype PermissionInheritance = PermissionInheritance(
    directPermissions: seq<string>,
    inheritedPermissions: seq<string>,
    entriesInheriting: bool,
    hasParent: bool,
    parent: Option<ParentResourceInfo>)

  /**
   * getPermissionInheritance: what the ACL and its parent grant to anyone.
   * The parent is reported whenever it exists, whether or not the ACL
   * inherits; a parent of a type other than project, document or comment
   * makes the report fail.
   */
  function GetPermissionInheritance(registry: Registry, store: map<Oid, Acl>, oid: Oid): (r: Result<PermissionInheritance>)
    reads registry
    requires registry.Valid()
    ensures oid !in store ==> r == Ok(PermissionInheritance([], [], false, false, None))
    ensures r.Err? <==>
            oid in store && ParentAcl(store, store[oid]).Some? && ClassForType(store[oid].parent.value.domainType).None?
    ensures r.Err? ==> r.error.IllegalArgument?
  {
    if oid !in store then Ok(PermissionInheritance([], [], false, false, None))
    else
      var acl := store[oid];
      var direct := DistinctGrantingNames(registry, acl.entries);
      match ParentAcl(store, acl)
      case None => Ok(PermissionInheritance(direct, [], acl.entriesInheriting, false, None))
      case Some(parentAcl) =>
        var parentOid := acl.parent.value;
        if ClassForType(parentOid.domainType).None? then Err(IllegalArgument("Unknown type: " + parentOid.domainType))
        else
          var inherited := DistinctGrantingNames(registry, parentAcl.entries);
          Ok(PermissionInheritance(
            direct, inherited, acl.entriesInheriting, true,
            Some(ParentResourceInfo(parentOid.domainType, parentOid.identifier, inherited))))
  }

  /**
   * The report lists each name granted on the ACL exactly once, reports the
   * ACL's own flag, and reports the parent's names whenever a stored parent
   * exists, even for an ACL that does not inherit.
   */
  lemma InheritanceReport(registry: Registry, store: map<Oid, Acl>, oid: Oid, n: string)
    requires registry.Valid()
    requires oid in store
    requires GetPermissionInheritance(registry, store, oid).Ok?
    ensures var report := GetPermissionInheritance(registry, store, oid).value;
            && report.entriesInheriting == store[oid].entriesInheriting
            && (report.hasParent <==> ParentAcl(store, store[oid]).Some?)
            && NoDuplicates(report.directPermissions) && NoDuplicates(report.inheritedPermissions)
            && (n in report.directPermissions <==>
                exists i :: 0 <= i < |store[oid].entries| && store[oid].entries[i].granting
                            && NameOf(registry, store[oid].entries[i].permission) == n)
    ensures ParentAcl(store, store[oid]).Some? ==>
            var report := GetPermissionInheritance(registry, store, oid).value;
            var parentEntries := ParentAcl(store, store[oid]).value.entries;
            && report.parent.Some? && report.parent.value.permissions == report.inheritedPermissions
            && (n in report.inheritedPermissions <==>
                exists i :: 0 <= i < |parentEntries| && parentEntries[i].granting
                            && NameOf(registry, parentEntries[i].permission) == n)
    ensures ParentAcl(store, store[oid]).None? ==>
            GetPermissionInheritance(registry, store, oid).value.inheritedPermissions == []
  {
    GrantingNamesMembers(registry, store[oid].entries, n);
    var p := ParentAcl(store, store[oid]);
    if p.Some? {
      GrantingNamesMembers(registry, p.value.entries, n);
    }
  }

  /**
   * Discovery looks one level up only: in a chain child -> parent ->
   * grandparent where only the grandparent grants READ, the access decision
   * grants READ on the child while getEffectivePermissions reports no access.
   */
  lemma GrandparentGrantIsNotDiscovered(registry: Registry, alice: Sid)
    requires registry.Valid()
    ensures var child := Oid("com.example.acl.domain.Comment", 1);
            var parent := Oid("com.example.acl.domain.Document", 1);
            var grandparent := Oid("com.example.acl.domain.Project", 1);
            var store := map[
              child := Acl(None, [], Some(parent), true),
              parent := Acl(None, [], Some(grandparent), true),
              grandparent := Acl(None, [Ace(alice, READ, true)], None, true)];
            Granted(store, child, [alice], READ.mask) && !Effective(registry, store, child, [alice]).hasAccess
  {
    var child := Oid("com.example.acl.domain.Comment", 1);
    var parent := Oid("com.example.acl.domain.Document", 1);
    var grandparent := Oid("com.example.acl.domain.Project", 1);
    var store := map[
      child := Acl(None, [], Some(parent), true),
      parent := Acl(None, [], Some(grandparent), true),
      grandparent := Acl(None, [Ace(alice, READ, true)], None, true)];
    assert |store| == 3 by {
      assert store.Keys == {child, parent, grandparent};
    }
    assert LocalGrant(store[grandparent].entries, [alice], READ.mask) by {
      assert store[grandparent].entries[0].sid in [alice];
    }
    assert AclGranted(store, store[grandparent], [alice], READ.mask, 1);
    assert AclGranted(store, store[parent], [alice], READ.mask, 2);
    assert AclGranted(store, store[child], [alice], READ.mask, 3);
  }
}
