/**
 * The domain predicates available to method-security expressions: whether
 * the caller wrote a document or owns a project, and whether the caller holds
 * a project role. The roles are ordered OWNER, CONTRIBUTOR, VIEWER: a
 * contributor is someone the project is shared with, directly or through a
 * group, or its owner; a viewer is a contributor, or anyone at all when the
 * project is public. The caller's name and the repositories' records are
 * inputs. A CONTRIBUTOR check for a caller with no user record dereferences
 * null in the source, which the model reports as a NullDereference error.
 */
module MethodSecurity {
  import opened Wrappers
  import PermissionRegistry

  datatype User = User(id: int, username: string, groups: set<string>)

  datatype Project = Project(owner: User, sharedWith: set<User>, sharedWithGroups: set<string>, isPublic: bool)

  datatype Document = Document(author: Option<User>)

  /** The caller's name and the records the repositories hold, by id (documents, projects) and by username (users). */
  datatype Context = Context(
    username: string,
    documents: map<int, Document>,
    projects: map<int, Project>,
    users: map<string, User>)

  /** isDocumentOwner(Document): the document's author is the caller. */
  function IsDocumentOwner(ctx: Context, document: Option<Document>): (r: bool)
    ensures r <==> document.Some? && document.value.author.Some? && document.value.author.value.username == ctx.username
  {
    if document.None? || document.value.author.None? then false
    else ctx.username == document.value.author.value.username
  }

  /** isDocumentOwner(Long): the stored document with that id is the caller's. */
  function IsDocumentOwnerById(ctx: Context, documentId: Option<int>): (r: bool)
    ensures documentId.None? ==> !r
  {
    if documentId.None? then false
    else if documentId.value !in ctx.documents then false
    else
      var author := ctx.documents[documentId.value].author;
      author.Some? && author.value.username == ctx.username
  }

  /** The two overloads agree: looking a document up by id and asking about the record give the same answer; a missing id gives false. */
  lemma DocumentOwnerOverloadsAgree(ctx: Context, id: int)
    ensures id in ctx.documents ==> IsDocumentOwnerById(ctx, Some(id)) == IsDocumentOwner(ctx, Some(ctx.documents[id]))
    ensures id !in ctx.documents ==> !IsDocumentOwnerById(ctx, Some(id))
  {
  }

  /** isProjectOwner: the stored project with that id is owned by the caller. */
  function IsProjectOwner(ctx: Context, projectId: Option<int>): (r: bool)
    ensures r <==> projectId.Some? && projectId.value in ctx.projects && ctx.projects[projectId.value].owner.username == ctx.username
  {
    if projectId.None? then false
    else projectId.value in ctx.projects && ctx.username == ctx.projects[projectId.value].owner.username
  }

  predicate IsBlank(c: char) {
    c <= ' '
  }

  /** Drops the leading blanks. */
  function TrimStart(s: string): (r: string)
    ensures |r| <= |s|
    ensures r == [] || !IsBlank(r[0])
    decreases |s|
  {
    if s != [] && IsBlank(s[0]) then TrimStart(s[1..]) else s
  }

  /** Drops the trailing blanks. */
  function TrimEnd(s: string): (r: string)
    ensures |r| <= |s|
    ensures r == [] || !IsBlank(r[|r| - 1])
    ensures r == s[..|r|]
    decreases |s|
  {
    if s != [] && IsBlank(s[|s| - 1]) then TrimEnd(s[..|s| - 1]) else s
  }

  /** `r` is `s[i..j]` and everything in `s` outside it is blank. */
  predicate BlankFramed(s: string, i: int, j: int, r: string) {
    0 <= i <= j <= |s| && r == s[i..j] &&
    (forall k :: 0 <= k < i ==> IsBlank(s[k])) &&
    (forall k :: j <= k < |s| ==> IsBlank(s[k]))
  }

  /** `String.trim`: drops leading and trailing characters at or below the space character. */
  function Trim(s: string): (r: string)
    ensures |r| <= |s|
    ensures r == [] || (!IsBlank(r[0]) && !IsBlank(r[|r| - 1]))
    ensures exists i, j :: BlankFramed(s, i, j, r)
  {
    TrimIsInnerSlice(s);
    TrimEnd(TrimStart(s))
  }

  /** What TrimStart keeps is a suffix of `s`, and everything before it is blank. */
  lemma {:induction false} TrimStartDropsBlanks(s: string)
    ensures TrimStart(s) == s[|s| - |TrimStart(s)|..]
    ensures forall k :: 0 <= k < |s| - |TrimStart(s)| ==> IsBlank(s[k])
    decreases |s|
  {
    if s != [] && IsBlank(s[0]) {
      TrimStartDropsBlanks(s[1..]);
      assert s[1..][|s| - 1 - |TrimStart(s)|..] == s[|s| - |TrimStart(s)|..];
      forall k | 1 <= k < |s| - |TrimStart(s)| ensures IsBlank(s[k]) {
        assert s[k] == s[1..][k - 1];
      }
    }
  }

  /** Everything after what TrimEnd keeps is blank. */
  lemma {:induction false} TrimEndDropsBlanks(s: string)
    ensures forall k :: |TrimEnd(s)| <= k < |s| ==> IsBlank(s[k])
    decreases |s|
  {
    if s != [] && IsBlank(s[|s| - 1]) {
      TrimEndDropsBlanks(s[..|s| - 1]);
    }
  }

  /** Trimming both ends keeps one contiguous slice of `s` with only blanks around it. */
  lemma TrimIsInnerSlice(s: string)
    ensures TrimEnd(TrimStart(s)) == [] || TrimEnd(TrimStart(s))[0] == TrimStart(s)[0]
    ensures exists i, j :: BlankFramed(s, i, j, TrimEnd(TrimStart(s)))
  {
    var t := TrimStart(s);
    var r := TrimEnd(t);
    var i := |s| - |t|;
    var j := i + |r|;
    TrimStartDropsBlanks(s);
    TrimEndDropsBlanks(t);
    InnerSlice(s, i, t, r);
    assert BlankFramed(s, i, j, r);
  }

  /** A prefix `r` of the suffix `t` of `s` from `i` on is the slice `s[i..i + |r|]`; blanks after `r` in `t` are blanks in `s`. */
  lemma InnerSlice(s: string, i: nat, t: string, r: string)
    requires i <= |s| && t == s[i..] && |r| <= |t| && r == t[..|r|]
    requires forall k :: |r| <= k < |t| ==> IsBlank(t[k])
    ensures r == s[i..i + |r|]
    ensures forall k :: i + |r| <= k < |s| ==> IsBlank(s[k])
  {
    forall k | i + |r| <= k < |s| ensures IsBlank(s[k]) {
      assert s[k] == t[k - i];
    }
  }

  /** Trimming a string with a tail appended: the tail survives unless the string was blank throughout. */
  lemma {:induction false} TrimStartAppend(s: string, t: string)
    ensures TrimStart(s) != [] ==> TrimStart(s + t) == TrimStart(s) + t
    ensures TrimStart(s) == [] ==> TrimStart(s + t) == TrimStart(t)
    decreases |s|
  {
    if s != [] && IsBlank(s[0]) {
      assert (s + t)[1..] == s[1..] + t;
      TrimStartAppend(s[1..], t);
    } else if s == [] {
      assert s + t == t;
    }
  }

  lemma TrimEndDropsBlank(s: string)
    ensures TrimEnd(s + " ") == TrimEnd(s)
  {
    assert (s + " ")[..|s|] == s;
  }

  /** Surrounding a role name with spaces does not change it once trimmed. */
  lemma TrimIgnoresPadding(s: string)
    ensures Trim(" " + s + " ") == Trim(s)
  {
    var padded := " " + s + " ";
    assert padded[1..] == s + " ";
    TrimStartAppend(s, " ");
    if TrimStart(s) != [] {
      TrimEndDropsBlank(TrimStart(s));
    } else {
      assert TrimStart(" ") == [];
    }
  }

  /** The switch key of a role argument: trimmed, then upper-cased. */
  function RoleKey(requiredRole: string): string {
    PermissionRegistry.Upper(Trim(requiredRole))
  }

  /** An upper-case word with no surrounding blanks is its own key. */
  lemma RoleKeyOfWord(s: string)
    requires s != [] && !IsBlank(s[0]) && !IsBlank(s[|s| - 1])
    requires PermissionRegistry.NoLowerCase(s)
    ensures RoleKey(s) == s
  {
    assert TrimStart(s) == s;
    assert TrimEnd(s) == s;
    PermissionRegistry.UpperFixesUpperCase(s);
  }

  lemma CanonicalRoleKeys()
    ensures RoleKey("OWNER") == "OWNER"
    ensures RoleKey("CONTRIBUTOR") == "CONTRIBUTOR"
    ensures RoleKey("VIEWER") == "VIEWER"
  {
    RoleKeyOfWord("OWNER");
    RoleKeyOfWord("CONTRIBUTOR");
    RoleKeyOfWord("VIEWER");
  }

  /** The decision for a present project id and a normalised role name. */
  function RoleOnProject(ctx: Context, id: int, role: string): (r: Result<bool>)
    ensures id !in ctx.projects ==> r == Ok(false)
    ensures role != "OWNER" && role != "CONTRIBUTOR" && role != "VIEWER" ==> r == Ok(false)
    ensures role == "OWNER" ==> r == Ok(IsProjectOwner(ctx, Some(id)))
    ensures role == "VIEWER" && id in ctx.projects && ctx.projects[id].isPublic ==> r == Ok(true)
    ensures r.Err? ==> r.error == NullDereference && ctx.username !in ctx.users
    decreases if role == "VIEWER" then 1 else 0
  {
    if id !in ctx.projects then Ok(false)
    else
      var project := ctx.projects[id];
      if role == "OWNER" then Ok(IsProjectOwner(ctx, Some(id)))
      else if role == "CONTRIBUTOR" then
        if ctx.username !in ctx.users then Err(NullDereference)
        else
          var user := ctx.users[ctx.username];
          var inUsers := exists u :: u in project.sharedWith && u.id == user.id;
          var inGroups := exists g :: g in project.sharedWithGroups && g in user.groups;
          Ok(inUsers || inGroups || IsProjectOwner(ctx, Some(id)))
      else if role == "VIEWER" then
        if project.isPublic then Ok(true) else RoleOnProject(ctx, id, "CONTRIBUTOR")
      else Ok(false)
  }

  /** hasProjectRole: a missing id or role is false; otherwise the decision for the normalised role. */
  function HasProjectRole(ctx: Context, projectId: Option<int>, requiredRole: Option<string>): (r: Result<bool>)
    ensures projectId.None? || requiredRole.None? ==> r == Ok(false)
    ensures projectId.Some? && projectId.value !in ctx.projects ==> r == Ok(false)
    ensures r.Err? ==> r.error == NullDereference && ctx.username !in ctx.users
  {
    if projectId.None? || requiredRole.None? then Ok(false)
    else RoleOnProject(ctx, projectId.value, RoleKey(requiredRole.value))
  }

  /** Spaces around the role argument are ignored. */
  lemma PaddedRoleIsTrimmed(ctx: Context, id: Option<int>, role: string)
    ensures HasProjectRole(ctx, id, Some(" " + role + " ")) == HasProjectRole(ctx, id, Some(role))
  {
    TrimIgnoresPadding(role);
  }

  /** Upper-casing keeps a character blank exactly when it was blank. */
  lemma UpperKeepsBlanks(s: string)
    ensures forall i :: 0 <= i < |s| ==> (IsBlank(PermissionRegistry.Upper(s)[i]) <==> IsBlank(s[i]))
  {
  }

  /** Trimming the front commutes with upper-casing. */
  lemma {:induction false} TrimStartUpper(s: string)
    ensures TrimStart(PermissionRegistry.Upper(s)) == PermissionRegistry.Upper(TrimStart(s))
    decreases |s|
  {
    var u := PermissionRegistry.Upper(s);
    UpperKeepsBlanks(s);
    if s != [] && IsBlank(s[0]) {
      assert u[1..] == PermissionRegistry.Upper(s[1..]);
      TrimStartUpper(s[1..]);
    }
  }

  /** Trimming the back commutes with upper-casing. */
  lemma {:induction false} TrimEndUpper(s: string)
    ensures TrimEnd(PermissionRegistry.Upper(s)) == PermissionRegistry.Upper(TrimEnd(s))
    decreases |s|
  {
    var u := PermissionRegistry.Upper(s);
    UpperKeepsBlanks(s);
    if s != [] && IsBlank(s[|s| - 1]) {
      assert u[..|u| - 1] == PermissionRegistry.Upper(s[..|s| - 1]);
      TrimEndUpper(s[..|s| - 1]);
    }
  }

  /** The role argument's letter case is ignored: any role decides as its upper-case form does. */
  lemma RoleCaseIsIgnored(ctx: Context, id: Option<int>, role: string)
    ensures RoleKey(PermissionRegistry.Upper(role)) == RoleKey(role)
    ensures HasProjectRole(ctx, id, Some(role)) == HasProjectRole(ctx, id, Some(PermissionRegistry.Upper(role)))
  {
    TrimStartUpper(role);
    TrimEndUpper(TrimStart(role));
    PermissionRegistry.UpperIdempotent(Trim(role));
  }

  /** OWNER is exactly project ownership; VIEWER is true on a public project and CONTRIBUTOR otherwise. */
  lemma OwnerAndViewerRules(ctx: Context, id: int)
    requires id in ctx.projects
    ensures HasProjectRole(ctx, Some(id), Some("OWNER")) == Ok(IsProjectOwner(ctx, Some(id)))
    ensures HasProjectRole(ctx, Some(id), Some("VIEWER")) ==
            if ctx.projects[id].isPublic then Ok(true)
            else HasProjectRole(ctx, Some(id), Some("CONTRIBUTOR"))
  {
    CanonicalRoleKeys();
  }

  /** A role name other than OWNER, CONTRIBUTOR or VIEWER is refused. */
  lemma UnknownRoleIsDenied(ctx: Context, id: Option<int>, role: string)
    requires RoleKey(role) !in {"OWNER", "CONTRIBUTOR", "VIEWER"}
    ensures HasProjectRole(ctx, id, Some(role)) == Ok(false)
  {
  }

  /**
   * CONTRIBUTOR holds exactly for a caller the project is shared with, by user
   * id or through a common group, and for its owner; with no user record for
   * the caller the check fails on a null user.
   */
  lemma ContributorRule(ctx: Context, id: int)
    requires id in ctx.projects
    ensures ctx.username !in ctx.users ==> HasProjectRole(ctx, Some(id), Some("CONTRIBUTOR")) == Err(NullDereference)
    ensures ctx.username in ctx.users ==>
            (HasProjectRole(ctx, Some(id), Some("CONTRIBUTOR")) == Ok(true) <==>
             (exists u :: u in ctx.projects[id].sharedWith && u.id == ctx.users[ctx.username].id)
             || (exists g :: g in ctx.projects[id].sharedWithGroups && g in ctx.users[ctx.username].groups)
             || ctx.projects[id].owner.username == ctx.username)
  {
    CanonicalRoleKeys();
  }

  /** A public project makes every caller a viewer. */
  lemma PublicProjectGrantsViewer(ctx: Context, id: int)
    requires id in ctx.projects && ctx.projects[id].isPublic
    ensures HasProjectRole(ctx, Some(id), Some("VIEWER")) == Ok(true)
  {
    CanonicalRoleKeys();
  }

  /** Roles are ordered: an owner with a user record is a contributor, and a contributor is a viewer. */
  lemma RolesAreMonotone(ctx: Context, id: int)
    ensures HasProjectRole(ctx, Some(id), Some("OWNER")) == Ok(true) && ctx.username in ctx.users ==>
            HasProjectRole(ctx, Some(id), Some("CONTRIBUTOR")) == Ok(true)
    ensures HasProjectRole(ctx, Some(id), Some("CONTRIBUTOR")) == Ok(true) ==>
            HasProjectRole(ctx, Some(id), Some("VIEWER")) == Ok(true)
  {
    CanonicalRoleKeys();
  }

  /** Without a user record even the owner fails the CONTRIBUTOR check: the monotonicity above needs that record. */
  lemma OwnerWithoutUserRecord(ctx: Context, id: int)
    requires id in ctx.projects && ctx.projects[id].owner.username == ctx.username
    requires ctx.username !in ctx.users && !ctx.projects[id].isPublic
    ensures HasProjectRole(ctx, Some(id), Some("OWNER")) == Ok(true)
    ensures HasProjectRole(ctx, Some(id), Some("CONTRIBUTOR")) == Err(NullDereference)
    ensures HasProjectRole(ctx, Some(id), Some("VIEWER")) == Err(NullDereference)
  {
    CanonicalRoleKeys();
  }
}
