/** Migration 0017: organization administrators move from group rows to organization rows. */
module Migration {
  import opened Prelude
  import opened Movers
  import opened Staffing

  /** A group row that made its user an administrator of the group's organization. */
  predicate Legacy(row: Membership)
  {
    row.role == OrgAdmin && row.group.Some?
  }

  predicate HasOrgRow(rows: seq<Membership>, user: Id, org: Id)
  {
    exists i :: 0 <= i < |rows| && rows[i].user == user && rows[i].org == Some(org) && rows[i].role == OrgAdmin
  }

  /** One of the first `upto` rows made `row`'s user an administrator of its organization. */
  predicate ComesFrom(rows: seq<Membership>, groups: map<Id, Id>, row: Membership, upto: nat)
    requires upto <= |rows|
  {
    exists i :: 0 <= i < upto && Legacy(rows[i]) && rows[i].user == row.user
              && rows[i].group.value in groups && row.org == Some(groups[rows[i].group.value])
  }

  predicate NewRow(rows: seq<Membership>, row: Membership)
  {
    row.group.None? && row.org.Some? && row.role == OrgAdmin && !row.expired && !HasOrgRow(rows, row.user, row.org.value)
  }

  /** What the INSERT selects: one organization row per user and organization that lacks one. */
  predicate Inserts(rows: seq<Membership>, groups: map<Id, Id>, added: seq<Membership>, upto: nat)
    requires upto <= |rows|
  {
    && (forall k :: 0 <= k < |added| ==> NewRow(rows, added[k]) && ComesFrom(rows, groups, added[k], upto))
    && (forall k, l :: 0 <= k < l < |added| ==> !(added[k].user == added[l].user && added[k].org == added[l].org))
    && (forall i :: 0 <= i < upto && Legacy(rows[i]) && rows[i].group.value in groups ==>
          HasOrgRow(rows, rows[i].user, groups[rows[i].group.value])
          || HasOrgRow(added, rows[i].user, groups[rows[i].group.value]))
  }

  /** What the DELETE leaves. */
  function Kept(rows: seq<Membership>): seq<Membership>
  {
    if rows == [] then []
    else Kept(rows[..|rows| - 1]) + (if Legacy(rows[|rows| - 1]) then [] else [rows[|rows| - 1]])
  }

  lemma {:induction false} KeptRows(rows: seq<Membership>)
    ensures forall row :: row in Kept(rows) <==> row in rows && !Legacy(row)
    decreases |rows|
  {
    if rows != [] {
      var front, last := rows[..|rows| - 1], rows[|rows| - 1];
      assert rows == front + [last];
      KeptRows(front);
    }
  }

  /** Partial unique index on (user, organization). */
  ghost predicate UniquePerOrg(rows: seq<Membership>)
  {
    forall i, j :: 0 <= i < j < |rows| && rows[i].org.Some? ==>
      !(rows[i].user == rows[j].user && rows[i].org == rows[j].org)
  }

  /** Organization rows hold organization administrators only. */
  predicate OrgRowsAreAdmins(rows: seq<Membership>)
  {
    forall i :: 0 <= i < |rows| && rows[i].org.Some? ==> rows[i].role == OrgAdmin && rows[i].group.None?
  }

  class MembershipTable {
    var rows: seq<Membership>

    constructor (rows: seq<Membership>)
      ensures this.rows == rows
    {
      this.rows := rows;
    }

    /** The INSERT ... SELECT DISTINCT ON. */
    method InsertOrgRows(groups: map<Id, Id>) returns (ghost added: seq<Membership>)
      modifies this
      ensures Inserts(old(rows), groups, added, |old(rows)|)
      ensures rows == old(rows) + added
    {
      var found: seq<Membership> := [];
      for i := 0 to |rows|
        invariant rows == old(rows)
        invariant Inserts(rows, groups, found, i)
      {
        var row := rows[i];
        if row.role == OrgAdmin && row.group.Some? && row.group.value in groups
           && !HasOrgRow(rows, row.user, groups[row.group.value]) && !HasOrgRow(found, row.user, groups[row.group.value]) {
          InsertStep(rows, groups, found, i);
          found := found + [Membership(row.user, None, Some(groups[row.group.value]), OrgAdmin, false)];
        } else {
          SkipStep(rows, groups, found, i);
        }
      }
      added := found;
      rows := rows + found;
    }

    /** The DELETE. */
    method DeleteLegacyRows()
      modifies this
      ensures rows == Kept(old(rows))
    {
      var kept: seq<Membership> := [];
      for i := 0 to |rows|
        invariant rows == old(rows) && kept == Kept(rows[..i])
      {
        assert rows[..i + 1][..i] == rows[..i];
        if !(rows[i].role == OrgAdmin && rows[i].group.Some?) {
          kept := kept + [rows[i]];
        }
      }
      assert rows[..|rows|] == rows;
      rows := kept;
    }

    /** The data step of `upgrade`. */
    method Upgrade(groups: map<Id, Id>) returns (ghost added: seq<Membership>)
      modifies this
      ensures Inserts(old(rows), groups, added, |old(rows)|)
      ensures rows == Kept(old(rows) + added)
    {
      added := InsertOrgRows(groups);
      DeleteLegacyRows();
    }
  }

  lemma HasOrgRowAppend(rows: seq<Membership>, row: Membership, user: Id, org: Id)
    ensures HasOrgRow(rows + [row], user, org) <==>
            HasOrgRow(rows, user, org) || (row.user == user && row.org == Some(org) && row.role == OrgAdmin)
  {
    var more := rows + [row];
    if HasOrgRow(rows, user, org) {
      var i :| 0 <= i < |rows| && rows[i].user == user && rows[i].org == Some(org) && rows[i].role == OrgAdmin;
      assert more[i] == rows[i];
    }
    assert more[|rows|] == row;
  }

  lemma SkipStep(rows: seq<Membership>, groups: map<Id, Id>, added: seq<Membership>, i: nat)
    requires i < |rows| && Inserts(rows, groups, added, i)
    requires Legacy(rows[i]) && rows[i].group.value in groups ==>
               HasOrgRow(rows, rows[i].user, groups[rows[i].group.value])
               || HasOrgRow(added, rows[i].user, groups[rows[i].group.value])
    ensures Inserts(rows, groups, added, i + 1)
  {
    forall k | 0 <= k < |added| ensures ComesFrom(rows, groups, added[k], i + 1) {
      StillComesFrom(rows, groups, added[k], i);
    }
  }

  lemma StillComesFrom(rows: seq<Membership>, groups: map<Id, Id>, row: Membership, i: nat)
    requires i < |rows| && ComesFrom(rows, groups, row, i)
    ensures ComesFrom(rows, groups, row, i + 1)
  {
    var j :| 0 <= j < i && Legacy(rows[j]) && rows[j].user == row.user
             && rows[j].group.value in groups && row.org == Some(groups[rows[j].group.value]);
  }

  lemma InsertStep(rows: seq<Membership>, groups: map<Id, Id>, added: seq<Membership>, i: nat)
    requires i < |rows| && Inserts(rows, groups, added, i)
    requires Legacy(rows[i]) && rows[i].group.value in groups
    requires !HasOrgRow(rows, rows[i].user, groups[rows[i].group.value])
    requires !HasOrgRow(added, rows[i].user, groups[rows[i].group.value])
    ensures Inserts(rows, groups,
                    added + [Membership(rows[i].user, None, Some(groups[rows[i].group.value]), OrgAdmin, false)], i + 1)
  {
    var org := groups[rows[i].group.value];
    var row := Membership(rows[i].user, None, Some(org), OrgAdmin, false);
    var more := added + [row];
    forall k | 0 <= k < |more| ensures NewRow(rows, more[k]) && ComesFrom(rows, groups, more[k], i + 1) {
      if k < |added| {
        assert NewRow(rows, added[k]);
        StillComesFrom(rows, groups, added[k], i);
      }
    }
    forall k, l | 0 <= k < l < |more| ensures !(more[k].user == more[l].user && more[k].org == more[l].org) {
      if l == |added| {
        assert NewRow(rows, added[k]);
      }
    }
    forall j | 0 <= j < i + 1 && Legacy(rows[j]) && rows[j].group.value in groups
      ensures HasOrgRow(rows, rows[j].user, groups[rows[j].group.value])
              || HasOrgRow(more, rows[j].user, groups[rows[j].group.value])
    {
      HasOrgRowAppend(added, row, rows[j].user, groups[rows[j].group.value]);
    }
  }

  // ---- the meaning is preserved ----

  /** For every organization the administrators found by the two-shape lookup are the same before
      and after. */
  lemma SameOrgAdmins(before: Staff, after: Staff, added: seq<Membership>, org: Id)
    requires after == before.(rows := Kept(before.rows + added))
    requires Inserts(before.rows, before.groups, added, |before.rows|)
    requires OrgRowsAreAdmins(before.rows)
    ensures OrgAdminIds(after, Some(org)) == OrgAdminIds(before, Some(org))
  {
    KeptRows(before.rows + added);
    if org != "" {
      forall user ensures user in OrgAdminIds(before, Some(org)) <==> user in OrgAdminIds(after, Some(org)) {
        AdminStays(before, after, added, org, user);
        AdminWasOne(before, after, added, org, user);
      }
    }
  }

  lemma AdminStays(before: Staff, after: Staff, added: seq<Membership>, org: Id, user: Id)
    requires org != "" && after == before.(rows := Kept(before.rows + added))
    requires Inserts(before.rows, before.groups, added, |before.rows|) && OrgRowsAreAdmins(before.rows)
    ensures user in OrgAdminIds(before, Some(org)) ==> user in OrgAdminIds(after, Some(org))
  {
    KeptRows(before.rows + added);
    if user in OrgAdminIds(before, Some(org)) {
      var i :| 0 <= i < |before.rows| && AdminRowOf(before, before.rows[i], org) && before.rows[i].user == user;
      if before.rows[i].org == Some(org) || HasOrgRow(before.rows, user, org) {
        var j :| 0 <= j < |before.rows| && before.rows[j].user == user && before.rows[j].org == Some(org) && before.rows[j].role == OrgAdmin;
        assert !Legacy(before.rows[j]) && before.rows[j] in before.rows + added;
        FoundAfter(after, before.rows[j], org);
      } else {
        var j :| 0 <= j < |added| && added[j].user == user && added[j].org == Some(org) && added[j].role == OrgAdmin;
        assert !Legacy(added[j]) && added[j] in before.rows + added;
        FoundAfter(after, added[j], org);
      }
    }
  }

  lemma FoundAfter(s: Staff, row: Membership, org: Id)
    requires org != "" && row in s.rows && AdminRowOf(s, row, org)
    ensures row.user in OrgAdminIds(s, Some(org))
  {
    var i :| 0 <= i < |s.rows| && s.rows[i] == row;
  }

  lemma AdminWasOne(before: Staff, after: Staff, added: seq<Membership>, org: Id, user: Id)
    requires org != "" && after == before.(rows := Kept(before.rows + added))
    requires Inserts(before.rows, before.groups, added, |before.rows|)
    ensures user in OrgAdminIds(after, Some(org)) ==> user in OrgAdminIds(before, Some(org))
  {
    KeptRows(before.rows + added);
    if user in OrgAdminIds(after, Some(org)) {
      var i :| 0 <= i < |after.rows| && AdminRowOf(after, after.rows[i], org) && after.rows[i].user == user;
      var row := after.rows[i];
      assert row in before.rows + added && !Legacy(row);
      if row in before.rows {
        assert AdminRowOf(before, row, org);
        FoundAfter(before, row, org);
      } else {
        var k :| 0 <= k < |added| && added[k] == row;
        var j :| 0 <= j < |before.rows| && Legacy(before.rows[j]) && before.rows[j].user == row.user
                 && before.rows[j].group.value in before.groups
                 && row.org == Some(before.groups[before.rows[j].group.value]);
        assert AdminRowOf(before, before.rows[j], org);
        FoundAfter(before, before.rows[j], org);
      }
    }
  }

  lemma {:induction false} KeptUnique(rows: seq<Membership>)
    requires UniquePerOrg(rows)
    ensures UniquePerOrg(Kept(rows))
    decreases |rows|
  {
    if rows != [] {
      var front, last := rows[..|rows| - 1], rows[|rows| - 1];
      assert rows == front + [last];
      KeptUnique(front);
      KeptRows(front);
      var k := Kept(front);
      forall i | 0 <= i < |k| && k[i].org.Some? ensures !(k[i].user == last.user && k[i].org == last.org) {
        assert k[i] in front;
      }
    }
  }

  /** The result satisfies the new unique index, no legacy row is left, every other row is kept in
      order, and a second run changes nothing. */
  lemma UpgradeIsClean(rows: seq<Membership>, groups: map<Id, Id>, added: seq<Membership>)
    requires Inserts(rows, groups, added, |rows|)
    requires UniquePerOrg(rows) && OrgRowsAreAdmins(rows)
    ensures UniquePerOrg(Kept(rows + added))
    ensures forall row :: row in Kept(rows + added) ==> !Legacy(row)
    ensures Kept(rows + added) == Kept(rows) + added
    ensures Inserts(Kept(rows + added), groups, [], |Kept(rows + added)|)
    ensures Kept(Kept(rows + added)) == Kept(rows + added)
  {
    var all := rows + added;
    forall i, j | 0 <= i < j < |all| && all[i].org.Some?
      ensures !(all[i].user == all[j].user && all[i].org == all[j].org)
    {
      if i < |rows| <= j && rows[i].user == all[j].user && rows[i].org == all[j].org {
        assert false;
      }
    }
    KeptUnique(all);
    KeptRows(all);
    KeptAppend(rows, added);
    forall k | 0 <= k < |Kept(all)| ensures !Legacy(Kept(all)[k]) {
      assert Kept(all)[k] in Kept(all);
    }
    KeptAll(Kept(all));
  }

  lemma {:induction false} KeptAppend(rows: seq<Membership>, added: seq<Membership>)
    requires forall k :: 0 <= k < |added| ==> !Legacy(added[k])
    ensures Kept(rows + added) == Kept(rows) + added
    decreases |added|
  {
    if added == [] {
      assert rows + added == rows;
    } else {
      assert (rows + added)[..|rows + added| - 1] == rows + added[..|added| - 1];
      KeptAppend(rows, added[..|added| - 1]);
    }
  }

  lemma {:induction false} KeptAll(rows: seq<Membership>)
    requires forall k :: 0 <= k < |rows| ==> !Legacy(rows[k])
    ensures Kept(rows) == rows
    decreases |rows|
  {
    if rows != [] {
      var n := |rows| - 1;
      KeptAll(rows[..n]);
      assert rows[..n] + [rows[n]] == rows;
    }
  }

  // ---- what an administrator may do ----

  /** `user` holds a legacy row in `org`; with `current`, one that has not expired. */
  ghost predicate HoldsLegacy(s: Staff, user: Id, org: Id, current: bool)
  {
    exists i :: 0 <= i < |s.rows| && Legacy(s.rows[i]) && s.rows[i].user == user && (current ==> !s.rows[i].expired)
              && s.rows[i].group.value in s.groups && s.groups[s.rows[i].group.value] == org
  }

  /** As on the upgrade's input, where the organization column has just been added. */
  predicate NoOrgRows(rows: seq<Membership>)
  {
    forall i :: 0 <= i < |rows| ==> rows[i].org.None?
  }

  lemma AuthorityBefore(s: Staff, user: Id, org: Id)
    requires NoOrgRows(s.rows)
    ensures org in AdminOrgs(s, user) <==> HoldsLegacy(s, user, org, true)
  {
    if org in AdminOrgs(s, user) {
      var i :| 0 <= i < |s.rows| && CountsFor(s.rows[i], user) && s.rows[i].role == OrgAdmin
               && s.rows[i].group.Some? && s.rows[i].group.value in s.groups && s.groups[s.rows[i].group.value] == org;
      assert Legacy(s.rows[i]);
    }
    if HoldsLegacy(s, user, org, true) {
      var i :| 0 <= i < |s.rows| && Legacy(s.rows[i]) && s.rows[i].user == user && !s.rows[i].expired
               && s.rows[i].group.value in s.groups && s.groups[s.rows[i].group.value] == org;
      assert CountsFor(s.rows[i], user);
    }
  }

  lemma AuthorityAfter(before: Staff, after: Staff, added: seq<Membership>, user: Id, org: Id)
    requires after == before.(rows := Kept(before.rows + added))
    requires Inserts(before.rows, before.groups, added, |before.rows|) && NoOrgRows(before.rows)
    ensures org in AdminOrgs(after, user) ==> HoldsLegacy(before, user, org, false)
  {
    if org in AdminOrgs(after, user) {
      KeptRows(before.rows + added);
      var i :| 0 <= i < |after.rows| && CountsFor(after.rows[i], user) && after.rows[i].role == OrgAdmin
               && (after.rows[i].org == Some(org) || after.rows[i].group.Some?);
      var row := after.rows[i];
      assert row in before.rows + added && !Legacy(row);
      var k :| 0 <= k < |added| && added[k] == row;
      var j :| 0 <= j < |before.rows| && Legacy(before.rows[j]) && before.rows[j].user == row.user
               && before.rows[j].group.value in before.groups
               && row.org == Some(before.groups[before.rows[j].group.value]);
    }
  }

  lemma AuthorityGiven(before: Staff, after: Staff, added: seq<Membership>, user: Id, org: Id)
    requires after == before.(rows := Kept(before.rows + added))
    requires Inserts(before.rows, before.groups, added, |before.rows|) && NoOrgRows(before.rows)
    ensures HoldsLegacy(before, user, org, false) ==> org in AdminOrgs(after, user)
  {
    if HoldsLegacy(before, user, org, false) {
      var k := RowAdded(before.rows, before.groups, added, user, org);
      KeptAdded(before.rows, added, k);
      InAdminOrgs(after, added[k], user);
    }
  }

  lemma RowAdded(rows: seq<Membership>, groups: map<Id, Id>, added: seq<Membership>, user: Id, org: Id) returns (k: nat)
    requires Inserts(rows, groups, added, |rows|) && NoOrgRows(rows)
    requires exists i :: 0 <= i < |rows| && Legacy(rows[i]) && rows[i].user == user
                       && rows[i].group.value in groups && groups[rows[i].group.value] == org
    ensures k < |added| && added[k] == Membership(user, None, Some(org), OrgAdmin, false)
  {
    assert !HasOrgRow(rows, user, org);
    assert HasOrgRow(added, user, org);
    k :| 0 <= k < |added| && added[k].user == user && added[k].org == Some(org) && added[k].role == OrgAdmin;
  }

  lemma KeptAdded(rows: seq<Membership>, added: seq<Membership>, k: nat)
    requires k < |added| && !Legacy(added[k])
    ensures added[k] in Kept(rows + added)
  {
    KeptRows(rows + added);
    assert (rows + added)[|rows| + k] == added[k];
  }

  lemma InAdminOrgs(s: Staff, row: Membership, user: Id)
    requires row in s.rows && CountsFor(row, user) && row.role == OrgAdmin && row.group.None? && row.org.Some?
    ensures row.org.value in AdminOrgs(s, user)
  {
    var i :| 0 <= i < |s.rows| && s.rows[i] == row;
  }

  /** A user administers the same organizations after the upgrade exactly when in each of their
      organizations some legacy row of theirs has not expired: the new rows carry no expiry. */
  lemma SameAuthorityIff(before: Staff, after: Staff, added: seq<Membership>, user: Id)
    requires after == before.(rows := Kept(before.rows + added))
    requires Inserts(before.rows, before.groups, added, |before.rows|) && NoOrgRows(before.rows)
    ensures AdminOrgs(before, user) <= AdminOrgs(after, user)
    ensures AdminOrgs(after, user) == AdminOrgs(before, user) <==>
            forall org :: HoldsLegacy(before, user, org, false) ==> HoldsLegacy(before, user, org, true)
  {
    forall org
      ensures org in AdminOrgs(before, user) <==> HoldsLegacy(before, user, org, true)
      ensures org in AdminOrgs(after, user) <==> HoldsLegacy(before, user, org, false)
      ensures HoldsLegacy(before, user, org, true) ==> HoldsLegacy(before, user, org, false)
    {
      AuthorityBefore(before, user, org);
      AuthorityAfter(before, after, added, user, org);
      AuthorityGiven(before, after, added, user, org);
    }
  }

  // ---- roles in single groups ----

  lemma RolesAre(s: Staff, user: Id, g: Id)
    ensures g in Resolve(s, user).roles <==> RoleIn(s, user, g).Some?
    ensures g in Resolve(s, user).roles ==> Resolve(s, user).roles[g] == RoleIn(s, user, g).value
  {
  }

  lemma SamePrincipalIff(a: Staff, b: Staff, user: Id)
    requires a.systemAdmins == b.systemAdmins
    ensures Resolve(a, user) == Resolve(b, user) <==>
            AdminOrgs(a, user) == AdminOrgs(b, user) && forall g :: RoleIn(a, user, g) == RoleIn(b, user, g)
  {
    forall g
      ensures g in Resolve(a, user).roles <==> RoleIn(a, user, g).Some?
      ensures g in Resolve(a, user).roles ==> Resolve(a, user).roles[g] == RoleIn(a, user, g).value
      ensures g in Resolve(b, user).roles <==> RoleIn(b, user, g).Some?
      ensures g in Resolve(b, user).roles ==> Resolve(b, user).roles[g] == RoleIn(b, user, g).value
    {
      RolesAre(a, user, g);
      RolesAre(b, user, g);
    }
    if AdminOrgs(a, user) == AdminOrgs(b, user) && forall g :: RoleIn(a, user, g) == RoleIn(b, user, g) {
      assert Resolve(a, user).roles == Resolve(b, user).roles;
    }
    if Resolve(a, user) == Resolve(b, user) {
      forall g ensures RoleIn(a, user, g) == RoleIn(b, user, g) {
        assert g in Resolve(a, user).roles <==> g in Resolve(b, user).roles;
      }
    }
  }

  /** The upgrade removes a user's administrator rows on groups and leaves their other group rows. */
  lemma RowsAfter(before: Staff, after: Staff, added: seq<Membership>, user: Id, g: Id, role: Role)
    requires after == before.(rows := Kept(before.rows + added))
    requires Inserts(before.rows, before.groups, added, |before.rows|)
    ensures HasRow(after, user, g, role) <==> role != OrgAdmin && HasRow(before, user, g, role)
  {
    KeptRows(before.rows + added);
    if HasRow(after, user, g, role) {
      var i :| 0 <= i < |after.rows| && CountsFor(after.rows[i], user) && after.rows[i].group == Some(g) && after.rows[i].role == role;
      assert after.rows[i] in before.rows + added && !Legacy(after.rows[i]);
      assert forall k :: 0 <= k < |added| ==> NewRow(before.rows, added[k]);
      assert after.rows[i] in before.rows;
      var j :| 0 <= j < |before.rows| && before.rows[j] == after.rows[i];
    }
    if role != OrgAdmin && HasRow(before, user, g, role) {
      var i :| 0 <= i < |before.rows| && CountsFor(before.rows[i], user) && before.rows[i].group == Some(g) && before.rows[i].role == role;
      assert before.rows[i] in before.rows + added;
      assert before.rows[i] in after.rows;
      var j :| 0 <= j < |after.rows| && after.rows[j] == before.rows[i];
    }
  }

  /** A role survives unless it came from an administrator row on a group that is no longer live. */
  lemma RoleAfterIff(before: Staff, after: Staff, added: seq<Membership>, user: Id, g: Id)
    requires after == before.(rows := Kept(before.rows + added))
    requires Inserts(before.rows, before.groups, added, |before.rows|)
    requires AdminOrgs(after, user) == AdminOrgs(before, user)
    ensures RoleIn(after, user, g) == RoleIn(before, user, g) <==>
            (HasRow(before, user, g, OrgAdmin) ==> g in before.live && g in before.groups)
  {
    RowsAfter(before, after, added, user, g, OrgAdmin);
    RowsAfter(before, after, added, user, g, GroupAdmin);
    RowsAfter(before, after, added, user, g, Member);
    RowsAfter(before, after, added, user, g, Guest);
    if HasRow(before, user, g, OrgAdmin) && g in before.groups {
      var i :| 0 <= i < |before.rows| && CountsFor(before.rows[i], user) && before.rows[i].group == Some(g)
               && before.rows[i].role == OrgAdmin;
      assert before.groups[before.rows[i].group.value] in AdminOrgs(before, user);
    }
  }

  /** A caller is resolved to the same organizations and roles after the upgrade exactly when in each organization
      some legacy row of theirs has not expired and none that has not is on a deleted group. */
  lemma SamePrincipalAfterIff(before: Staff, after: Staff, added: seq<Membership>, user: Id)
    requires after == before.(rows := Kept(before.rows + added))
    requires Inserts(before.rows, before.groups, added, |before.rows|) && NoOrgRows(before.rows)
    ensures Resolve(after, user) == Resolve(before, user) <==>
            && (forall org :: HoldsLegacy(before, user, org, false) ==> HoldsLegacy(before, user, org, true))
            && (forall g :: HasRow(before, user, g, OrgAdmin) ==> g in before.live && g in before.groups)
  {
    SamePrincipalIff(after, before, user);
    SameAuthorityIff(before, after, added, user);
    if AdminOrgs(after, user) == AdminOrgs(before, user) {
      forall g
        ensures RoleIn(after, user, g) == RoleIn(before, user, g) <==>
                (HasRow(before, user, g, OrgAdmin) ==> g in before.live && g in before.groups)
      {
        RoleAfterIff(before, after, added, user, g);
      }
    }
  }

  const EXPIRED := Membership("u", Some("g"), None, OrgAdmin, true)
  const RENEWED := Membership("u", None, Some("o"), OrgAdmin, false)

  function OneExpired(): Staff
  {
    Staff([EXPIRED], map["g" := "o"], {"g"}, {})
  }

  lemma RenewedIsInserted()
    ensures Inserts([EXPIRED], map["g" := "o"], [RENEWED], 1) && Kept([EXPIRED] + [RENEWED]) == [RENEWED]
  {
    var rows, added := [EXPIRED], [RENEWED];
    assert Legacy(rows[0]) && ComesFrom(rows, map["g" := "o"], added[0], 1);
    assert added[0].user == "u" && HasOrgRow(added, "u", "o");
    KeptAppend(rows, added);
    assert Kept(rows) == [];
  }

  /** An organization administrator whose only row has expired administers nothing before the upgrade and the
      organization after it. */
  lemma ExpiredAdministratorReturns()
    ensures
      var before := OneExpired();
      var after := before.(rows := Kept(before.rows + [RENEWED]));
      && Inserts(before.rows, before.groups, [RENEWED], 1)
      && AdminOrgs(before, "u") == {} && "o" in AdminOrgs(after, "u")
  {
    var before := OneExpired();
    RenewedIsInserted();
    InAdminOrgs(before.(rows := [RENEWED]), RENEWED, "u");
  }
}
