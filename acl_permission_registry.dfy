/**
 * The permission registry: a bidirectional table between permission names
 * and masks, filled once at construction, with case-insensitive name lookup
 * and the fixed list of permissions granted to a new owner.
 */
module PermissionRegistry {
  import opened Wrappers
  import opened Permissions
  import opened CustomAclPermission

  /** `Character.toUpperCase` under the root locale, for ASCII letters. */
  function UpperChar(c: char): (r: char)
    ensures 'a' <= c <= 'z' ==> 'A' <= r <= 'Z'
    ensures !('a' <= c <= 'z') ==> r == c
  {
    if 'a' <= c <= 'z' then (c as int - 32) as char else c
  }

  /** `String.toUpperCase(Locale.ROOT)`, for ASCII letters. */
  function Upper(s: string): (r: string)
    ensures |r| == |s|
    ensures forall i :: 0 <= i < |s| ==> r[i] == UpperChar(s[i])
  {
    seq(|s|, i requires 0 <= i < |s| => UpperChar(s[i]))
  }

  predicate NoLowerCase(s: string) {
    forall i :: 0 <= i < |s| ==> !('a' <= s[i] <= 'z')
  }

  /** Upper-casing is idempotent: a key that is already upper case is its own key. */
  lemma UpperFixesUpperCase(s: string)
    requires NoLowerCase(s)
    ensures Upper(s) == s
  {
  }

  lemma UpperIdempotent(s: string)
    ensures Upper(Upper(s)) == Upper(s)
  {
    UpperFixesUpperCase(Upper(s));
  }

  /** Every registered name is its own upper-case key. */
  lemma NamesAreUpperCase()
    ensures forall n :: n in NAMES ==> Upper(n) == n
  {
    UpperFixesUpperCase("READ");
    UpperFixesUpperCase("WRITE");
    UpperFixesUpperCase("CREATE");
    UpperFixesUpperCase("DELETE");
    UpperFixesUpperCase("ADMINISTRATION");
    UpperFixesUpperCase("SHARE");
    UpperFixesUpperCase("APPROVE");
  }

  /** Every registered mask is a single bit. */
  lemma MasksAreSingleBits()
    ensures forall m :: m in MASKS ==> IsSingleBit(m)
  {
    assert IsSingleBit(1) by { assert 1 == Pow2(0); }
    assert IsSingleBit(2) by { assert 2 == Pow2(1); }
    assert IsSingleBit(4) by { assert 4 == Pow2(2); }
    assert IsSingleBit(8) by { assert 8 == Pow2(3); }
    assert IsSingleBit(16) by { assert 16 == Pow2(4); }
    assert IsSingleBit(32) by { assert 32 == Pow2(5); }
    assert IsSingleBit(64) by { assert 64 == Pow2(6); }
  }

  /** The seven registered names. */
  const NAMES: set<string> := {"READ", "WRITE", "CREATE", "DELETE", "ADMINISTRATION", "SHARE", "APPROVE"}

  /** The seven registered masks. */
  const MASKS: set<int> := {1, 2, 4, 8, 16, 32, 64}

  /** The permissions granted to a new owner, in order. */
  const OWNER_DEFAULTS: seq<Permission> := [ADMINISTRATION, READ, WRITE, DELETE, SHARE]

  /** The three tables as the seven registrations leave them. */
  const PERMISSIONS_BY_MASK: map<int, Permission> :=
    map[1 := READ, 2 := WRITE, 4 := CREATE, 8 := DELETE, 16 := ADMINISTRATION, 32 := SHARE, 64 := APPROVE]
  const PERMISSIONS_BY_NAME: map<string, Permission> :=
    map["READ" := READ, "WRITE" := WRITE, "CREATE" := CREATE, "DELETE" := DELETE,
        "ADMINISTRATION" := ADMINISTRATION, "SHARE" := SHARE, "APPROVE" := APPROVE]
  const NAMES_BY_MASK: map<int, string> :=
    map[1 := "READ", 2 := "WRITE", 4 := "CREATE", 8 := "DELETE",
        16 := "ADMINISTRATION", 32 := "SHARE", 64 := "APPROVE"]

  /** The mask table's keys are the seven masks, each mapped to the permission carrying it. */
  lemma MaskTableShape()
    ensures PERMISSIONS_BY_MASK.Keys == MASKS && |MASKS| == 7 && |PERMISSIONS_BY_MASK| == 7
    ensures forall m :: m in PERMISSIONS_BY_MASK ==> PERMISSIONS_BY_MASK[m].mask == m
  {
    assert PERMISSIONS_BY_MASK.Keys == MASKS;
    assert |MASKS| == 7;
  }

  class AclPermissionRegistry {
    var permissionsByMask: map<int, Permission>
    var permissionsByName: map<string, Permission>
    var namesByMask: map<int, string>
    var ownerDefaults: seq<Permission>

    /** The three tables hold exactly the seven registrations made by the constructor. */
    ghost predicate Valid()
      reads this
    {
      && permissionsByMask == PERMISSIONS_BY_MASK
      && permissionsByName == PERMISSIONS_BY_NAME
      && namesByMask == NAMES_BY_MASK
      && ownerDefaults == OWNER_DEFAULTS
    }

    constructor ()
      ensures Valid()
    {
      permissionsByMask, permissionsByName, namesByMask := map[], map[], map[];
      ownerDefaults := [];
      new;
      UpperFixesUpperCase("READ");
      Register("READ", READ);
      UpperFixesUpperCase("WRITE");
      Register("WRITE", WRITE);
      UpperFixesUpperCase("CREATE");
      Register("CREATE", CREATE);
      UpperFixesUpperCase("DELETE");
      Register("DELETE", DELETE);
      UpperFixesUpperCase("ADMINISTRATION");
      Register("ADMINISTRATION", ADMINISTRATION);
      UpperFixesUpperCase("SHARE");
      Register("SHARE", SHARE);
      UpperFixesUpperCase("APPROVE");
      Register("APPROVE", APPROVE);
      ownerDefaults := OWNER_DEFAULTS;
    }

    /** Records one permission under its upper-cased name in all three tables. */
    method Register(name: string, permission: Permission)
      modifies this
      ensures permissionsByName == old(permissionsByName)[Upper(name) := permission]
      ensures permissionsByMask == old(permissionsByMask)[permission.mask := permission]
      ensures namesByMask == old(namesByMask)[permission.mask := Upper(name)]
      ensures ownerDefaults == old(ownerDefaults)
    {
      var key := Upper(name);
      permissionsByName := permissionsByName[key := permission];
      permissionsByMask := permissionsByMask[permission.mask := permission];
      namesByMask := namesByMask[permission.mask := key];
    }

    /** The registered permission with this mask; an unknown mask is an IllegalArgumentException. */
    function BuildFromMask(mask: int): (r: Result<Permission>)
      reads this
      requires Valid()
      ensures r.Ok? <==> mask in MASKS
      ensures r.Ok? ==> r.value.mask == mask
      ensures r.Err? ==> r.error.IllegalArgument?
    {
      if mask in permissionsByMask then Ok(permissionsByMask[mask])
      else Err(IllegalArgument("Unknown permission mask"))
    }

    /** The permission registered under the upper-cased name; an unknown name is an IllegalArgumentException. */
    function BuildFromName(name: string): (r: Result<Permission>)
      reads this
      requires Valid()
      ensures r.Ok? <==> Upper(name) in NAMES
      ensures r.Ok? ==> r.value.mask in MASKS && ResolveName(r.value) == Some(Upper(name))
      ensures r.Err? ==> r.error.IllegalArgument?
    {
      var key := Upper(name);
      if key in permissionsByName then Ok(permissionsByName[key])
      else Err(IllegalArgument("Unknown permission name"))
    }

    /** The registered name of a permission's mask, if any. */
    function ResolveName(permission: Permission): (r: Option<string>)
      reads this
      requires Valid()
      ensures r.Some? <==> permission.mask in MASKS
      ensures r.Some? ==> r.value in NAMES
    {
      if permission.mask in namesByMask then Some(namesByMask[permission.mask]) else None
    }

    /** Maps every name through BuildFromName; the first unknown name fails the whole list. */
    function BuildFromNames(names: seq<string>): (r: Result<seq<Permission>>)
      reads this
      requires Valid()
      ensures r.Ok? <==> forall i :: 0 <= i < |names| ==> Upper(names[i]) in NAMES
      ensures r.Ok? ==> |r.value| == |names|
      ensures r.Ok? ==> forall i :: 0 <= i < |names| ==> BuildFromName(names[i]) == Ok(r.value[i])
    {
      if names == [] then Ok([])
      else
        match BuildFromName(names[0])
        case Err(e) => Err(e)
        case Ok(p) =>
          match BuildFromNames(names[1..])
          case Err(e) => Err(e)
          case Ok(rest) => Ok([p] + rest)
    }

    /** The names of the permissions that have one, in input order; unnamed permissions are dropped. */
    function ToNames(permissions: seq<Permission>): (r: seq<string>)
      reads this
      requires Valid()
      ensures |r| <= |permissions|
      ensures forall i :: 0 <= i < |r| ==> r[i] in NAMES
      ensures (forall i :: 0 <= i < |permissions| ==> permissions[i].mask in MASKS) ==>
                |r| == |permissions| &&
                forall i :: 0 <= i < |permissions| ==> ResolveName(permissions[i]) == Some(r[i])
    {
      if permissions == [] then []
      else
        match ResolveName(permissions[0])
        case None => ToNames(permissions[1..])
        case Some(n) => [n] + ToNames(permissions[1..])
    }

    /** A single permission yields its registered name, or nothing when its mask is unregistered. */
    lemma ToNamesSingleton(permission: Permission)
      requires Valid()
      ensures ToNames([permission]) ==
                if permission.mask in MASKS then [NAMES_BY_MASK[permission.mask]] else []
    {
      assert [permission][1..] == [];
    }

    /** Naming distributes over concatenation: each permission is named (or dropped) on its own. */
    lemma {:induction false} ToNamesAppend(a: seq<Permission>, b: seq<Permission>)
      requires Valid()
      ensures ToNames(a + b) == ToNames(a) + ToNames(b)
      decreases |a|
    {
      if a == [] {
        assert a + b == b;
      } else {
        assert (a + b)[0] == a[0];
        assert (a + b)[1..] == a[1..] + b;
        ToNamesAppend(a[1..], b);
      }
    }

    /** The permissions granted to a new owner: ADMINISTRATION, READ, WRITE, DELETE, SHARE. */
    function OwnerDefaults(): (r: seq<Permission>)
      reads this
      requires Valid()
      ensures r == [ADMINISTRATION, READ, WRITE, DELETE, SHARE]
      ensures CREATE !in r && APPROVE !in r
    {
      ownerDefaults
    }

    /** Exactly seven masks are registered, each under its own mask. */
    lemma SevenRegisteredMasks()
      requires Valid()
      ensures |permissionsByMask| == 7 && permissionsByMask.Keys == MASKS
      ensures forall m :: m in permissionsByMask ==> permissionsByMask[m].mask == m
    {
      MaskTableShape();
    }

    /** The seven names and the seven masks correspond one to one: no two names share a mask. */
    lemma NamesAndMasksCorrespond()
      requires Valid()
      ensures permissionsByName.Keys == NAMES && namesByMask.Keys == MASKS
      ensures forall n :: n in permissionsByName ==> namesByMask[permissionsByName[n].mask] == n
      ensures forall n1, n2 ::
                (n1 in permissionsByName && n2 in permissionsByName &&
                 permissionsByName[n1].mask == permissionsByName[n2].mask) ==> n1 == n2
    {
    }

    /** Name lookup ignores case. */
    lemma NameLookupIgnoresCase(n1: string, n2: string)
      requires Valid()
      requires Upper(n1) == Upper(n2)
      ensures BuildFromName(n1) == BuildFromName(n2)
    {
    }

    /** resolveName(buildFromName(n)) == upper(n), and buildFromName(resolveName(p)) == p. */
    lemma NameRoundTrip(name: string, permission: Permission)
      requires Valid()
      ensures BuildFromName(name).Ok? ==> ResolveName(BuildFromName(name).value) == Some(Upper(name))
      ensures permission.mask in MASKS ==>
                ResolveName(permission).Some? &&
                BuildFromName(ResolveName(permission).value) == BuildFromMask(permission.mask)
      ensures permission.mask in MASKS && permissionsByMask[permission.mask] == permission ==>
                BuildFromName(ResolveName(permission).value) == Ok(permission)
    {
      NamesAreUpperCase();
    }

    /** Masks and names correspond one to one. */
    lemma MaskRoundTrip(mask: int)
      requires Valid()
      requires mask in MASKS
      ensures ResolveName(BuildFromMask(mask).value) == Some(namesByMask[mask])
      ensures BuildFromName(namesByMask[mask]) == BuildFromMask(mask)
    {
      NamesAreUpperCase();
    }
  }
}
