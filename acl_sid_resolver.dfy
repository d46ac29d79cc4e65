/**
 * Subject identifiers (SIDs) and the mapping from users, roles, groups and
 * authority strings to them, plus the SID list that stands for a caller.
 */
module SidResolver {
  import opened Wrappers

  /** A SID is either a principal (a user name) or a granted authority (a role, a group or any other authority). */
  datatype Sid = Principal(principal: string) | Authority(grantedAuthority: string)

  function PrincipalSid(username: string): (s: Sid)
    ensures s.Principal? && s.principal == username
  {
    Principal(username)
  }

  /** A role becomes the authority "ROLE_" followed by the role's name. */
  function RoleSid(roleName: string): (s: Sid)
    ensures s.Authority? && |s.grantedAuthority| == 5 + |roleName|
    ensures s.grantedAuthority[..5] == "ROLE_" && s.grantedAuthority[5..] == roleName
  {
    Authority("ROLE_" + roleName)
  }

  /** A group becomes the authority "GROUP_" followed by the group's name. */
  function GroupSid(groupName: string): (s: Sid)
    ensures s.Authority? && |s.grantedAuthority| == 6 + |groupName|
    ensures s.grantedAuthority[..6] == "GROUP_" && s.grantedAuthority[6..] == groupName
  {
    Authority("GROUP_" + groupName)
  }

  /** Any other authority string is wrapped unchanged. */
  function AuthoritySid(authority: string): (s: Sid)
    ensures s.Authority? && s.grantedAuthority == authority
  {
    Authority(authority)
  }

  /** A principal SID never equals an authority SID, even for the same string. */
  lemma PrincipalIsNotAuthority(name: string)
    ensures PrincipalSid(name) != AuthoritySid(name)
    ensures GroupSid(name) == AuthoritySid("GROUP_" + name)
    ensures RoleSid(name) == AuthoritySid("ROLE_" + name)
  {
  }

  /** Distinct role names give distinct SIDs, distinct group names give distinct SIDs, and no role SID is a group SID. */
  lemma RoleAndGroupSidsAreInjective(r1: string, r2: string, g: string)
    ensures RoleSid(r1) == RoleSid(r2) ==> r1 == r2
    ensures GroupSid(r1) == GroupSid(r2) ==> r1 == r2
    ensures RoleSid(r1) != GroupSid(g)
  {
    assert RoleSid(r1).grantedAuthority[0] == 'R';
    assert GroupSid(g).grantedAuthority[0] == 'G';
  }

  /**
   * What the authentication object offers: the user name of a UserDetails
   * principal (None when the principal is of another kind), the
   * authentication's name (None for null) and the granted authority strings
   * (None for null).
   */
  datatype Authentication = Authentication(
    userDetailsUsername: Option<string>,
    name: Option<string>,
    authorities: Option<seq<string>>)

  /** The user name the principal SID is built from, when there is one. */
  function PrincipalName(auth: Authentication): Option<string> {
    if auth.userDetailsUsername.Some? then auth.userDetailsUsername else auth.name
  }

  function GrantedAuthorities(auth: Authentication): seq<string> {
    if auth.authorities.Some? then auth.authorities.value else []
  }

  /**
   * The caller's SIDs: first its principal SID (if it has a name), then one
   * authority SID per granted authority, in order. No authentication gives
   * the empty list.
   */
  method AuthenticationSids(auth: Option<Authentication>) returns (sids: seq<Sid>)
    ensures auth.None? ==> sids == []
    ensures auth.Some? ==>
              var offset := if PrincipalName(auth.value).Some? then 1 else 0;
              var authorities := GrantedAuthorities(auth.value);
              && |sids| == offset + |authorities|
              && (offset == 1 ==> sids[0] == Principal(PrincipalName(auth.value).value))
              && forall k :: 0 <= k < |authorities| ==> sids[offset + k] == Authority(authorities[k])
    ensures forall k :: 0 <= k < |sids| && sids[k].Principal? ==> k == 0
  {
    sids := [];
    if auth.None? {
      return;
    }
    var a := auth.value;
    if a.userDetailsUsername.Some? {
      sids := sids + [Principal(a.userDetailsUsername.value)];
    } else if a.name.Some? {
      sids := sids + [Principal(a.name.value)];
    }
    var offset := |sids|;
    if a.authorities.Some? {
      var authorities := a.authorities.value;
      var i := 0;
      while i < |authorities|
        invariant 0 <= i <= |authorities|
        invariant |sids| == offset + i
        invariant offset == 1 ==> sids[0] == Principal(PrincipalName(a).value)
        invariant forall k :: 0 <= k < i ==> sids[offset + k] == Authority(authorities[k])
        invariant forall k :: offset <= k < |sids| ==> sids[k].Authority?
      {
        sids := sids + [Authority(authorities[i])];
        i := i + 1;
      }
    }
  }
}
