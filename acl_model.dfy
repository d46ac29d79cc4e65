/**
 * The ACL record: object identities, access-control entries (ACEs), the ACL
 * itself, the audit event the service publishes, and the two edits the
 * service makes to an ACL's ordered entry list: appending the grants that are
 * missing, and deleting the entries that match a SID and a set of masks.
 */
module AclModel {
  import opened Wrappers
  import opened Permissions
  import opened SidResolver

  /** An object identity: the domain class name and the identifier. */
  datatype Oid = Oid(domainType: string, identifier: int)

  /** One access-control entry; its position is its index in the ACL's entry list. */
  datatype Ace = Ace(sid: Sid, permission: Permission, granting: bool)

  datatype Acl = Acl(owner: Option<Sid>, entries: seq<Ace>, parent: Option<Oid>, entriesInheriting: bool)

  datatype Operation = CREATE | OWNERSHIP | GRANT | REVOKE | INHERITANCE

  /** A published permission change: what happened to which identity, for which SID and permissions, by whom. */
  datatype ChangeEvent = ChangeEvent(
    operation: Operation,
    oid: Oid,
    sid: Option<Sid>,
    permissions: seq<Permission>,
    actor: string)

  /** The entry grants `mask` to `sid`. */
  predicate GrantsTo(a: Ace, sid: Sid, mask: int) {
    a.sid == sid && a.permission.mask == mask && a.granting
  }

  /** Some granting entry gives `mask` to `sid` (the service's isPermissionGranted). */
  predicate HasGrant(es: seq<Ace>, sid: Sid, mask: int) {
    exists i :: 0 <= i < |es| && GrantsTo(es[i], sid, mask)
  }

  /** Two granting entries for the same SID and mask. */
  predicate SameGrant(a: Ace, b: Ace) {
    a.granting && b.granting && a.sid == b.sid && a.permission.mask == b.permission.mask
  }

  /** No two granting entries share (sid, mask). */
  predicate NoDuplicateGrants(es: seq<Ace>) {
    forall i, j :: 0 <= i < j < |es| ==> !SameGrant(es[i], es[j])
  }

  /** Every entry grants; the service never writes a denying entry. */
  predicate AllGranting(es: seq<Ace>) {
    forall i :: 0 <= i < |es| ==> es[i].granting
  }

  /** The invariant every stored entry list keeps. */
  predicate WellFormedEntries(es: seq<Ace>) {
    NoDuplicateGrants(es) && AllGranting(es)
  }

  /** One step of addPermissionsIfMissing: append a granting entry at the end unless one exists. */
  function AddIfMissing(es: seq<Ace>, sid: Sid, p: Permission): seq<Ace> {
    if HasGrant(es, sid, p.mask) then es else es + [Ace(sid, p, true)]
  }

  /** addPermissionsIfMissing: the requested permissions, in order, each appended if still missing. */
  function AddMissing(es: seq<Ace>, sid: Sid, ps: seq<Permission>): seq<Ace>
    decreases |ps|
  {
    if ps == [] then es else AddIfMissing(AddMissing(es, sid, ps[..|ps| - 1]), sid, ps[|ps| - 1])
  }

  lemma HasGrantExtends(es: seq<Ace>, more: seq<Ace>, sid: Sid, mask: int)
    requires HasGrant(es, sid, mask)
    ensures HasGrant(es + more, sid, mask)
  {
    var i :| 0 <= i < |es| && GrantsTo(es[i], sid, mask);
    assert (es + more)[i] == es[i];
  }

  /** Granting only appends: the old entries stay in place and every new one grants a requested permission to `sid`. */
  lemma {:induction false} AddMissingAppends(es: seq<Ace>, sid: Sid, ps: seq<Permission>)
    ensures var r := AddMissing(es, sid, ps);
      && |es| <= |r| <= |es| + |ps|
      && r[..|es|] == es
      && forall k :: |es| <= k < |r| ==> r[k].sid == sid && r[k].granting && r[k].permission in ps
    decreases |ps|
  {
    if ps != [] {
      var init := ps[..|ps| - 1];
      AddMissingAppends(es, sid, init);
      var r' := AddMissing(es, sid, init);
      var r := AddMissing(es, sid, ps);
      assert r == AddIfMissing(r', sid, ps[|ps| - 1]);
      assert r[..|r'|] == r';
      assert r[..|es|] == r'[..|es|];
      forall k | |es| <= k < |r|
        ensures r[k].sid == sid && r[k].granting && r[k].permission in ps
      {
        if k < |r'| {
          assert r[k] == r'[k];
          assert r'[k].permission in init;
        }
      }
    }
  }

  /** After the append every requested permission is granted to `sid`, and every earlier grant survives. */
  lemma {:induction false} AddMissingGrantsAll(es: seq<Ace>, sid: Sid, ps: seq<Permission>)
    ensures forall p :: p in ps ==> HasGrant(AddMissing(es, sid, ps), sid, p.mask)
    ensures forall s, m :: HasGrant(es, s, m) ==> HasGrant(AddMissing(es, sid, ps), s, m)
    decreases |ps|
  {
    if ps != [] {
      var init := ps[..|ps| - 1];
      var last := ps[|ps| - 1];
      AddMissingGrantsAll(es, sid, init);
      var r' := AddMissing(es, sid, init);
      var r := AddMissing(es, sid, ps);
      assert r == AddIfMissing(r', sid, last);
      forall s, m | HasGrant(r', s, m) ensures HasGrant(r, s, m) {
        if r != r' {
          HasGrantExtends(r', [Ace(sid, last, true)], s, m);
        }
      }
      if !HasGrant(r', sid, last.mask) {
        assert GrantsTo(r[|r'|], sid, last.mask);
      }
      forall p | p in ps ensures HasGrant(r, sid, p.mask) {
        if p != last {
          assert p in init;
        }
      }
    }
  }

  /** When every requested permission is already granted, nothing is appended. */
  lemma {:induction false} AddMissingNoop(es: seq<Ace>, sid: Sid, ps: seq<Permission>)
    requires forall p :: p in ps ==> HasGrant(es, sid, p.mask)
    ensures AddMissing(es, sid, ps) == es
    decreases |ps|
  {
    if ps != [] {
      var init := ps[..|ps| - 1];
      assert forall p :: p in init ==> p in ps;
      AddMissingNoop(es, sid, init);
    }
  }

  /** Something is appended exactly when some requested permission was not yet granted. */
  lemma AddMissingChanged(es: seq<Ace>, sid: Sid, ps: seq<Permission>)
    ensures |AddMissing(es, sid, ps)| == |es| <==> forall p :: p in ps ==> HasGrant(es, sid, p.mask)
  {
    var r := AddMissing(es, sid, ps);
    AddMissingAppends(es, sid, ps);
    if forall p :: p in ps ==> HasGrant(es, sid, p.mask) {
      AddMissingNoop(es, sid, ps);
    }
    if |r| == |es| {
      assert r == r[..|es|] == es;
      AddMissingGrantsAll(es, sid, ps);
    }
  }

  /** Granting the same permissions twice is the same as granting them once. */
  lemma AddMissingIdempotent(es: seq<Ace>, sid: Sid, ps: seq<Permission>)
    ensures AddMissing(AddMissing(es, sid, ps), sid, ps) == AddMissing(es, sid, ps)
  {
    AddMissingGrantsAll(es, sid, ps);
    AddMissingNoop(AddMissing(es, sid, ps), sid, ps);
  }

  /** Appending missing grants keeps the entry-list invariant: a permission repeated in the request is added once. */
  lemma {:induction false} AddMissingKeepsWellFormed(es: seq<Ace>, sid: Sid, ps: seq<Permission>)
    requires WellFormedEntries(es)
    ensures WellFormedEntries(AddMissing(es, sid, ps))
    decreases |ps|
  {
    if ps != [] {
      var init := ps[..|ps| - 1];
      var last := ps[|ps| - 1];
      AddMissingKeepsWellFormed(es, sid, init);
      var r' := AddMissing(es, sid, init);
      var r := AddMissing(es, sid, ps);
      if !HasGrant(r', sid, last.mask) {
        assert r == r' + [Ace(sid, last, true)];
        forall i, j | 0 <= i < j < |r| ensures !SameGrant(r[i], r[j]) {
          if j == |r'| {
            assert !GrantsTo(r'[i], sid, last.mask);
          } else {
            assert r[i] == r'[i] && r[j] == r'[j];
          }
        }
      }
    }
  }

  /** Which entries a revocation removes: those of `sid` whose mask is requested (AnyMask: every mask). */
  datatype MaskFilter = AnyMask | MaskIn(masks: seq<int>)

  predicate Matches(a: Ace, sid: Sid, f: MaskFilter) {
    a.sid == sid && (f.AnyMask? || a.permission.mask in f.masks)
  }

  /** The entries left after deleting every match, in their original order. */
  function Survivors(es: seq<Ace>, sid: Sid, f: MaskFilter): (r: seq<Ace>)
    ensures |r| <= |es|
  {
    if es == [] then []
    else (if Matches(es[0], sid, f) then [] else [es[0]]) + Survivors(es[1..], sid, f)
  }

  /** The entries of one SID, in order. */
  function EntriesOf(es: seq<Ace>, sid: Sid): (r: seq<Ace>)
    ensures |r| <= |es|
  {
    if es == [] then [] else (if es[0].sid == sid then [es[0]] else []) + EntriesOf(es[1..], sid)
  }

  lemma {:induction false} SurvivorsAppend(a: seq<Ace>, b: seq<Ace>, sid: Sid, f: MaskFilter)
    ensures Survivors(a + b, sid, f) == Survivors(a, sid, f) + Survivors(b, sid, f)
  {
    if a == [] {
      assert a + b == b;
    } else {
      var ab := a + b;
      assert ab[0] == a[0];
      assert ab[1..] == a[1..] + b;
      SurvivorsAppend(a[1..], b, sid, f);
    }
  }

  /** An entry survives exactly when it was present and does not match. */
  lemma {:induction false} SurvivorsMembers(es: seq<Ace>, sid: Sid, f: MaskFilter)
    ensures forall a :: a in Survivors(es, sid, f) <==> a in es && !Matches(a, sid, f)
  {
    if es != [] {
      SurvivorsMembers(es[1..], sid, f);
      assert forall a :: a in es <==> a == es[0] || a in es[1..];
    }
  }

  /** Deleting when nothing matches leaves the list unchanged. */
  lemma {:induction false} SurvivorsNoop(es: seq<Ace>, sid: Sid, f: MaskFilter)
    requires forall i :: 0 <= i < |es| ==> !Matches(es[i], sid, f)
    ensures Survivors(es, sid, f) == es
  {
    if es != [] {
      SurvivorsNoop(es[1..], sid, f);
    }
  }

  /** Deleting the entry at index |a| of a + [x] + b leaves a + b. */
  lemma DeleteAt(a: seq<Ace>, x: Ace, b: seq<Ace>)
    ensures var s := a + [x] + b; s[..|a|] + s[|a| + 1..] == a + b
  {
    var s := a + [x] + b;
    assert s[..|a|] == a;
    assert s[|a| + 1..] == b;
  }

  /** The filtered suffix from index i: entry i if it survives, then the filtered rest. */
  lemma SurvivorsFrom(es: seq<Ace>, i: int, sid: Sid, f: MaskFilter)
    requires 0 <= i < |es|
    ensures Survivors(es[i..], sid, f)
      == (if Matches(es[i], sid, f) then [] else [es[i]]) + Survivors(es[i + 1..], sid, f)
  {
    assert es[i..][1..] == es[i + 1..];
  }

  /**
   * One step of the reverse deletion loop: with the entries from index i + 1
   * on already filtered, deleting index i when it matches (keeping it
   * otherwise) leaves the entries from index i on filtered.
   */
  lemma DeleteStep(es: seq<Ace>, i: int, sid: Sid, f: MaskFilter)
    requires 0 <= i < |es|
    ensures var u := es[..i + 1] + Survivors(es[i + 1..], sid, f);
      && |u| == i + 1 + |Survivors(es[i + 1..], sid, f)|
      && (Matches(es[i], sid, f) ==> u[..i] + u[i + 1..] == es[..i] + Survivors(es[i..], sid, f))
      && (!Matches(es[i], sid, f) ==> u == es[..i] + Survivors(es[i..], sid, f))
  {
    var a, x, rest := es[..i], es[i], Survivors(es[i + 1..], sid, f);
    SurvivorsFrom(es, i, sid, f);
    assert es[..i + 1] == a + [x];
    DeleteAt(a, x, rest);
  }

  /** Something is deleted exactly when some entry matches. */
  lemma {:induction false} SurvivorsChanged(es: seq<Ace>, sid: Sid, f: MaskFilter)
    ensures |Survivors(es, sid, f)| == |es| <==> forall i :: 0 <= i < |es| ==> !Matches(es[i], sid, f)
  {
    if es != [] {
      SurvivorsChanged(es[1..], sid, f);
      assert forall i :: 1 <= i < |es| ==> es[i] == es[1..][i - 1];
    }
  }

  /** Deleting twice is the same as deleting once. */
  lemma SurvivorsIdempotent(es: seq<Ace>, sid: Sid, f: MaskFilter)
    ensures Survivors(Survivors(es, sid, f), sid, f) == Survivors(es, sid, f)
  {
    var r := Survivors(es, sid, f);
    SurvivorsMembers(es, sid, f);
    assert forall i :: 0 <= i < |r| ==> r[i] in r;
    SurvivorsNoop(r, sid, f);
  }

  /** Entries of every other SID are untouched, in number and in order. */
  lemma {:induction false} SurvivorsKeepOtherSids(es: seq<Ace>, sid: Sid, f: MaskFilter, other: Sid)
    requires other != sid
    ensures EntriesOf(Survivors(es, sid, f), other) == EntriesOf(es, other)
  {
    if es != [] {
      SurvivorsKeepOtherSids(es[1..], sid, f, other);
      var head := if Matches(es[0], sid, f) then [] else [es[0]];
      var rest := Survivors(es[1..], sid, f);
      EntriesOfAppend(head, rest, other);
    }
  }

  lemma {:induction false} EntriesOfAppend(a: seq<Ace>, b: seq<Ace>, sid: Sid)
    ensures EntriesOf(a + b, sid) == EntriesOf(a, sid) + EntriesOf(b, sid)
  {
    if a == [] {
      assert a + b == b;
    } else {
      var ab := a + b;
      assert ab[0] == a[0];
      assert ab[1..] == a[1..] + b;
      EntriesOfAppend(a[1..], b, sid);
      var h := if a[0].sid == sid then [a[0]] else [];
      var x, y := EntriesOf(a[1..], sid), EntriesOf(b, sid);
      assert EntriesOf(ab, sid) == h + (x + y);
      assert EntriesOf(a, sid) == h + x;
      assert h + (x + y) == (h + x) + y;
    }
  }

  /** Deleting with AnyMask leaves no entry of that SID. */
  lemma {:induction false} SurvivorsDropSid(es: seq<Ace>, sid: Sid)
    ensures EntriesOf(Survivors(es, sid, AnyMask), sid) == []
  {
    if es != [] {
      SurvivorsDropSid(es[1..], sid);
      var head := if Matches(es[0], sid, AnyMask) then [] else [es[0]];
      EntriesOfAppend(head, Survivors(es[1..], sid, AnyMask), sid);
    }
  }

  /** Putting an entry in front of a duplicate-free list that holds no grant like it keeps the list duplicate-free. */
  lemma ConsKeepsNoDuplicates(x: Ace, tail: seq<Ace>)
    requires NoDuplicateGrants(tail)
    requires forall k :: 0 <= k < |tail| ==> !SameGrant(x, tail[k])
    ensures NoDuplicateGrants([x] + tail)
  {
    var r := [x] + tail;
    forall i, j | 0 <= i < j < |r| ensures !SameGrant(r[i], r[j]) {
      if i == 0 {
        assert r[j] == tail[j - 1];
      } else {
        assert r[i] == tail[i - 1] && r[j] == tail[j - 1];
      }
    }
  }

  /** Deleting entries keeps the entry-list invariant. */
  lemma {:induction false} SurvivorsKeepWellFormed(es: seq<Ace>, sid: Sid, f: MaskFilter)
    requires WellFormedEntries(es)
    ensures WellFormedEntries(Survivors(es, sid, f))
  {
    if es != [] {
      var rest := es[1..];
      assert WellFormedEntries(rest) by {
        assert forall i :: 0 <= i < |rest| ==> rest[i] == es[i + 1];
      }
      SurvivorsKeepWellFormed(rest, sid, f);
      var tail := Survivors(rest, sid, f);
      if !Matches(es[0], sid, f) {
        SurvivorsMembers(rest, sid, f);
        forall k | 0 <= k < |tail| ensures !SameGrant(es[0], tail[k]) {
          assert tail[k] in rest;
          var m :| 0 <= m < |rest| && rest[m] == tail[k];
          assert es[m + 1] == tail[k];
        }
        ConsKeepsNoDuplicates(es[0], tail);
        assert Survivors(es, sid, f) == [es[0]] + tail;
      }
    }
  }

  /** After deletion no remaining entry of `sid` carries a requested mask. */
  lemma RevokedMasksAreGone(es: seq<Ace>, sid: Sid, masks: seq<int>, m: int)
    requires m in masks
    ensures !HasGrant(Survivors(es, sid, MaskIn(masks)), sid, m)
  {
    var r := Survivors(es, sid, MaskIn(masks));
    SurvivorsMembers(es, sid, MaskIn(masks));
    forall i | 0 <= i < |r| ensures !GrantsTo(r[i], sid, m) {
      assert r[i] in r;
    }
  }

  /** Granting a permission that `sid` had no entry for and then revoking it restores the entry list. */
  lemma GrantThenRevokeRestores(es: seq<Ace>, sid: Sid, p: Permission)
    requires forall i :: 0 <= i < |es| ==> !Matches(es[i], sid, MaskIn([p.mask]))
    ensures Survivors(AddMissing(es, sid, [p]), sid, MaskIn([p.mask])) == es
  {
    var f := MaskIn([p.mask]);
    assert [p][..0] == [];
    forall i | 0 <= i < |es| ensures !GrantsTo(es[i], sid, p.mask) {
      assert !Matches(es[i], sid, f);
    }
    assert AddMissing(es, sid, [p]) == es + [Ace(sid, p, true)];
    SurvivorsAppend(es, [Ace(sid, p, true)], sid, f);
    SurvivorsNoop(es, sid, f);
  }
}
