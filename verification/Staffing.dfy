/** Who answers an allocation request: the notified administrators, the system administrators' inbox,
    and the check made when somebody approves. Three separate lookups over the same rows. */
module Staffing {
  import opened Prelude
  import opened Ledger
  import opened Movers

  /** A membership row names a group, or an organization for an administrator appointed there. */
  datatype Membership = Membership(user: Id, group: Option<Id>, org: Option<Id>, role: Role, expired: bool)

  /** Memberships, every group's organization, the groups not deleted, and the system administrators. */
  datatype Staff = Staff(rows: seq<Membership>, groups: map<Id, Id>, live: set<Id>, systemAdmins: set<Id>)

  predicate AdminRole(r: Role)
  {
    r == GroupAdmin || r == OrgAdmin
  }

  /** Both shapes of an organization administrator's row. */
  predicate AdminRowOf(s: Staff, row: Membership, org: Id)
  {
    row.role == OrgAdmin
    && (row.org == Some(org)
        || (row.group.Some? && row.group.value in s.groups && s.groups[row.group.value] == org))
  }

  // ---- the notified administrators ----

  ghost function OrgAdminIds(s: Staff, org: Option<Id>): set<Id>
  {
    if org.None? || org.value == "" then {}
    else set i | 0 <= i < |s.rows| && AdminRowOf(s, s.rows[i], org.value) :: s.rows[i].user
  }

  ghost function GroupAdminIds(s: Staff, group: Option<Id>): set<Id>
  {
    set i | 0 <= i < |s.rows| && group.Some? && s.rows[i].group == group && AdminRole(s.rows[i].role) :: s.rows[i].user
  }

  datatype Tier = GroupTier | OrgTier | SystemTier

  /** The tier that answers: the request's own, or the next one up that has anybody. */
  ghost function AnsweringTier(s: Staff, scope: Scope, fid: Option<Id>): Tier
  {
    match scope
    case SystemScope => SystemTier
    case OrgScope => if OrgAdminIds(s, fid) != {} then OrgTier else SystemTier
    case GroupScope =>
      if GroupAdminIds(s, fid) != {} then GroupTier
      else if OrgAdminIds(s, GroupsOrg(s, fid)) != {} then OrgTier
      else SystemTier
  }

  function GroupsOrg(s: Staff, fid: Option<Id>): Option<Id>
  {
    if fid.Some? && fid.value != "" && fid.value in s.groups then Some(s.groups[fid.value]) else None
  }

  /** `_fulfiller_user_ids`. */
  ghost function Recipients(s: Staff, scope: Scope, fid: Option<Id>): set<Id>
  {
    match AnsweringTier(s, scope, fid)
    case GroupTier => GroupAdminIds(s, fid)
    case OrgTier => OrgAdminIds(s, if scope == OrgScope then fid else GroupsOrg(s, fid))
    case SystemTier => s.systemAdmins
  }

  // ---- the inbox ----

  /** SQL NOT IN against a set without NULLs: a NULL is outside the empty set only. */
  ghost predicate NotIn(x: Option<Id>, s: set<Id>)
  {
    s == {} || (x.Some? && x.value !in s)
  }

  ghost function OrgLevel(s: Staff): set<Id>
  {
    set i | 0 <= i < |s.rows| && s.rows[i].role == OrgAdmin && s.rows[i].org.Some? :: s.rows[i].org.value
  }

  ghost function LegacyLevel(s: Staff): set<Id>
  {
    set i | 0 <= i < |s.rows| && s.rows[i].role == OrgAdmin && s.rows[i].group.Some?
            && s.rows[i].group.value in s.groups :: s.groups[s.rows[i].group.value]
  }

  ghost function StaffedGroups(s: Staff): set<Id>
  {
    set i | 0 <= i < |s.rows| && AdminRole(s.rows[i].role) && s.rows[i].group.Some? :: s.rows[i].group.value
  }

  ghost function GroupsUnderStaffedOrg(s: Staff): set<Id>
  {
    set g | g in s.groups && (s.groups[g] in OrgLevel(s) || s.groups[g] in LegacyLevel(s))
  }

  /** `_unstaffed_tier_conditions`. */
  ghost predicate InSystemInbox(s: Staff, scope: Scope, fid: Option<Id>)
  {
    match scope
    case OrgScope => NotIn(fid, OrgLevel(s)) && NotIn(fid, LegacyLevel(s))
    case GroupScope => NotIn(fid, StaffedGroups(s)) && NotIn(fid, GroupsUnderStaffedOrg(s))
    case SystemScope => true
  }

  lemma OrgStaffed(s: Staff, org: Id)
    requires org != ""
    ensures org in OrgLevel(s) || org in LegacyLevel(s) <==> OrgAdminIds(s, Some(org)) != {}
  {
    if u :| u in OrgAdminIds(s, Some(org)) {
      var i :| 0 <= i < |s.rows| && AdminRowOf(s, s.rows[i], org) && s.rows[i].user == u;
      if s.rows[i].org == Some(org) {
        assert org in OrgLevel(s);
      } else {
        assert s.groups[s.rows[i].group.value] in LegacyLevel(s);
      }
    }
    if org in OrgLevel(s) {
      var i :| 0 <= i < |s.rows| && s.rows[i].role == OrgAdmin && s.rows[i].org.Some? && s.rows[i].org.value == org;
      assert AdminRowOf(s, s.rows[i], org) && s.rows[i].user in OrgAdminIds(s, Some(org));
    }
    if org in LegacyLevel(s) {
      var i :| 0 <= i < |s.rows| && s.rows[i].role == OrgAdmin && s.rows[i].group.Some?
               && s.rows[i].group.value in s.groups && s.groups[s.rows[i].group.value] == org;
      assert AdminRowOf(s, s.rows[i], org) && s.rows[i].user in OrgAdminIds(s, Some(org));
    }
  }

  lemma GroupStaffed(s: Staff, g: Id)
    ensures g in StaffedGroups(s) <==> GroupAdminIds(s, Some(g)) != {}
  {
    if u :| u in GroupAdminIds(s, Some(g)) {
      var i :| 0 <= i < |s.rows| && s.rows[i].group == Some(g) && AdminRole(s.rows[i].role) && s.rows[i].user == u;
      assert s.rows[i].group.value in StaffedGroups(s);
    }
    if g in StaffedGroups(s) {
      var i :| 0 <= i < |s.rows| && AdminRole(s.rows[i].role) && s.rows[i].group.Some? && s.rows[i].group.value == g;
      assert s.rows[i].user in GroupAdminIds(s, Some(g));
    }
  }

  /** Ids are nonempty strings. */
  predicate IdsNonempty(s: Staff)
  {
    forall g :: g in s.groups ==> g != "" && s.groups[g] != ""
  }

  /** For every request that names its approver, the inbox of the system administrators holds it
      exactly when the recipient lookup falls through every tier to them. */
  lemma InboxMirrorsRecipients(s: Staff, scope: Scope, f: Id)
    requires IdsNonempty(s) && f != ""
    ensures InSystemInbox(s, scope, Some(f)) <==> AnsweringTier(s, scope, Some(f)) == SystemTier
  {
    match scope {
      case OrgScope =>
        OrgStaffed(s, f);
      case GroupScope =>
        GroupStaffed(s, f);
        assert NotIn(Some(f), StaffedGroups(s)) <==> f !in StaffedGroups(s);
        assert NotIn(Some(f), GroupsUnderStaffedOrg(s)) <==> f !in GroupsUnderStaffedOrg(s);
        if f in s.groups {
          OrgStaffed(s, s.groups[f]);
          assert GroupsOrg(s, Some(f)) == Some(s.groups[f]);
        }
      case SystemScope =>
    }
  }

  /** A request notifies nobody only if there is no system administrator at all. */
  lemma SomebodyIsTold(s: Staff, scope: Scope, fid: Option<Id>)
    ensures Recipients(s, scope, fid) == {} ==> s.systemAdmins == {}
  {
  }

  // ---- the check at approval ----

  predicate CountsFor(row: Membership, user: Id)
  {
    row.user == user && !row.expired
  }

  /** The organizations a user administers, from both row shapes. */
  ghost function AdminOrgs(s: Staff, user: Id): set<Id>
  {
    (set i | 0 <= i < |s.rows| && CountsFor(s.rows[i], user) && s.rows[i].role == OrgAdmin
             && s.rows[i].group.None? && s.rows[i].org.Some? :: s.rows[i].org.value)
    + (set i | 0 <= i < |s.rows| && CountsFor(s.rows[i], user) && s.rows[i].role == OrgAdmin
             && s.rows[i].group.Some? && s.rows[i].group.value in s.groups :: s.groups[s.rows[i].group.value])
  }

  ghost predicate HasRow(s: Staff, user: Id, group: Id, role: Role)
  {
    exists i :: 0 <= i < |s.rows| && CountsFor(s.rows[i], user) && s.rows[i].group == Some(group) && s.rows[i].role == role
  }

  ghost function RowGroups(s: Staff, user: Id): set<Id>
  {
    set i | 0 <= i < |s.rows| && CountsFor(s.rows[i], user) && s.rows[i].group.Some? :: s.rows[i].group.value
  }

  /** `resolve_principal`: own group rows (a user has at most one per group), raised to organization administrator in every live group of
      an administered organization. */
  ghost function RoleIn(s: Staff, user: Id, group: Id): Option<Role>
  {
    if group in s.live && group in s.groups && s.groups[group] in AdminOrgs(s, user) then Some(OrgAdmin)
    else if HasRow(s, user, group, OrgAdmin) then Some(OrgAdmin)
    else if HasRow(s, user, group, GroupAdmin) then Some(GroupAdmin)
    else if HasRow(s, user, group, Member) then Some(Member)
    else if HasRow(s, user, group, Guest) then Some(Guest)
    else None
  }

  ghost function Resolve(s: Staff, user: Id): Principal
  {
    var orgs := AdminOrgs(s, user);
    var reach := RowGroups(s, user) + set g | g in s.groups && g in s.live && s.groups[g] in orgs;
    Principal(user in s.systemAdmins, orgs,
              map g | g in reach && RoleIn(s, user, g).Some? :: RoleIn(s, user, g).value)
  }

  /** A row names a group or an organization, not both. */
  predicate TwoShapes(s: Staff)
  {
    forall i :: 0 <= i < |s.rows| && s.rows[i].org.Some? ==> s.rows[i].group.None?
  }

  ghost predicate CurrentOrgAdmin(s: Staff, user: Id, org: Id)
  {
    exists i :: 0 <= i < |s.rows| && CountsFor(s.rows[i], user) && AdminRowOf(s, s.rows[i], org)
  }

  ghost predicate CurrentGroupAdmin(s: Staff, user: Id, group: Id)
  {
    exists i :: 0 <= i < |s.rows| && CountsFor(s.rows[i], user) && s.rows[i].group == Some(group) && AdminRole(s.rows[i].role)
  }

  /** The organizations a caller administers are those of their unexpired administrator rows, in either shape. */
  lemma OrgAdminAdministersIff(s: Staff, user: Id, org: Id)
    requires TwoShapes(s)
    ensures org in AdminOrgs(s, user) <==> CurrentOrgAdmin(s, user, org)
  {
    if CurrentOrgAdmin(s, user, org) {
      var i :| 0 <= i < |s.rows| && CountsFor(s.rows[i], user) && AdminRowOf(s, s.rows[i], org);
      if s.rows[i].org == Some(org) {
        assert s.rows[i].org.value == org;
      } else {
        assert s.groups[s.rows[i].group.value] == org;
      }
    }
  }

  lemma RowsOfGroup(s: Staff, user: Id, g: Id)
    ensures HasRow(s, user, g, OrgAdmin) || HasRow(s, user, g, GroupAdmin) <==> CurrentGroupAdmin(s, user, g)
    ensures CurrentGroupAdmin(s, user, g) ==> g in RowGroups(s, user) && user in GroupAdminIds(s, Some(g))
  {
    if CurrentGroupAdmin(s, user, g) {
      var i :| 0 <= i < |s.rows| && CountsFor(s.rows[i], user) && s.rows[i].group == Some(g) && AdminRole(s.rows[i].role);
      assert HasRow(s, user, g, s.rows[i].role);
    }
  }

  /** The groups a caller administers: their own unexpired administrator rows, and every live group of an
      organization they administer. */
  lemma AdministersIff(s: Staff, user: Id, g: Id)
    requires TwoShapes(s)
    ensures Resolve(s, user).Administers(g) <==>
            CurrentGroupAdmin(s, user, g) || (g in s.live && g in s.groups && CurrentOrgAdmin(s, user, s.groups[g]))
  {
    RowsOfGroup(s, user, g);
    if g in s.groups {
      OrgAdminAdministersIff(s, user, s.groups[g]);
    }
  }

  /** The check at approval, in terms of the membership rows. */
  ghost predicate MayApprove(s: Staff, r: AllocRequest, user: Id)
  {
    || user in s.systemAdmins
    || (r.scope == OrgScope && r.fulfiller.Some? && CurrentOrgAdmin(s, user, r.fulfiller.value))
    || (r.scope == GroupScope && r.fulfiller.Some?
        && (|| CurrentGroupAdmin(s, user, r.fulfiller.value)
            || (&& r.fulfiller.value in s.live && r.fulfiller.value in s.groups
                && CurrentOrgAdmin(s, user, s.groups[r.fulfiller.value]))))
  }

  lemma CanFulfillIff(s: Staff, r: AllocRequest, user: Id)
    requires TwoShapes(s)
    ensures CanFulfill(Resolve(s, user), r) <==> MayApprove(s, r, user)
  {
    if r.fulfiller.Some? {
      OrgAdminAdministersIff(s, user, r.fulfiller.value);
      AdministersIff(s, user, r.fulfiller.value);
    }
  }

  /** The rows that make somebody a recipient. */
  ghost predicate Tells(s: Staff, scope: Scope, fid: Option<Id>, row: Membership)
  {
    match AnsweringTier(s, scope, fid)
    case GroupTier => row.group == fid && AdminRole(row.role)
    case OrgTier => AdminRowOf(s, row, if scope == OrgScope then fid.value else s.groups[fid.value])
    case SystemTier => false
  }

  ghost predicate ToldByCurrentRow(s: Staff, scope: Scope, fid: Option<Id>, user: Id)
  {
    exists i :: 0 <= i < |s.rows| && CountsFor(s.rows[i], user) && Tells(s, scope, fid, s.rows[i])
  }

  /** A group's own administrator may also hold their organization. */
  ghost predicate AlsoByOrg(s: Staff, scope: Scope, fid: Option<Id>, user: Id)
  {
    AnsweringTier(s, scope, fid) == GroupTier && fid.value in s.live && fid.value in s.groups
    && CurrentOrgAdmin(s, user, s.groups[fid.value])
  }

  /** The organization answers for a deleted group. */
  ghost predicate ForDeletedGroup(s: Staff, scope: Scope, fid: Option<Id>)
  {
    scope == GroupScope && AnsweringTier(s, scope, fid) == OrgTier && fid.value !in s.live
  }

  /** Whoever is told about a request can approve it, with two exceptions: the row they are told by has expired,
      or the organization answers for a group that has been deleted. */
  lemma RecipientsCanFulfillIff(s: Staff, r: AllocRequest, user: Id)
    requires TwoShapes(s) && user in Recipients(s, r.scope, r.fulfiller)
    ensures CanFulfill(Resolve(s, user), r) <==>
            || user in s.systemAdmins
            || (ToldByCurrentRow(s, r.scope, r.fulfiller, user) && !ForDeletedGroup(s, r.scope, r.fulfiller))
            || AlsoByOrg(s, r.scope, r.fulfiller, user)
  {
    CanFulfillIff(s, r, user);
    match AnsweringTier(s, r.scope, r.fulfiller) {
      case SystemTier =>
      case GroupTier =>
        ToldIsGroupAdmin(s, r, user);
      case OrgTier =>
        ToldIsOrgAdmin(s, r, user);
        if r.scope == GroupScope {
          RowsOfGroup(s, user, r.fulfiller.value);
        }
    }
  }

  lemma ToldIsGroupAdmin(s: Staff, r: AllocRequest, user: Id)
    requires AnsweringTier(s, r.scope, r.fulfiller) == GroupTier
    ensures r.fulfiller.Some?
    ensures ToldByCurrentRow(s, r.scope, r.fulfiller, user) <==> CurrentGroupAdmin(s, user, r.fulfiller.value)
  {
    if CurrentGroupAdmin(s, user, r.fulfiller.value) {
      var i :| 0 <= i < |s.rows| && CountsFor(s.rows[i], user) && s.rows[i].group == r.fulfiller && AdminRole(s.rows[i].role);
      assert Tells(s, r.scope, r.fulfiller, s.rows[i]);
    }
  }

  lemma ToldIsOrgAdmin(s: Staff, r: AllocRequest, user: Id)
    requires AnsweringTier(s, r.scope, r.fulfiller) == OrgTier
    ensures r.fulfiller.Some? && (r.scope == GroupScope ==> r.fulfiller.value in s.groups)
    ensures ToldByCurrentRow(s, r.scope, r.fulfiller, user) <==>
            CurrentOrgAdmin(s, user, if r.scope == OrgScope then r.fulfiller.value else s.groups[r.fulfiller.value])
  {
    var org := if r.scope == OrgScope then r.fulfiller.value else s.groups[r.fulfiller.value];
    if CurrentOrgAdmin(s, user, org) {
      var i :| 0 <= i < |s.rows| && CountsFor(s.rows[i], user) && AdminRowOf(s, s.rows[i], org);
      assert Tells(s, r.scope, r.fulfiller, s.rows[i]);
    }
  }

  ghost predicate NobodyToldCanApprove(s: Staff, r: AllocRequest)
  {
    forall user :: user in Recipients(s, r.scope, r.fulfiller) ==> !CanFulfill(Resolve(s, user), r)
  }

  /** A request nobody who was told can approve: no recipient is a system administrator, and either every row
      that tells somebody has expired or the organization answers for a deleted group; nor does a group's own
      administrator hold the organization. Such a request is not in the system administrators' inbox either,
      unless they are the recipients and there are none. */
  lemma StuckIff(s: Staff, r: AllocRequest)
    requires TwoShapes(s)
    ensures NobodyToldCanApprove(s, r) <==>
            && Recipients(s, r.scope, r.fulfiller) !! s.systemAdmins
            && (|| ForDeletedGroup(s, r.scope, r.fulfiller)
                || forall i :: 0 <= i < |s.rows| && Tells(s, r.scope, r.fulfiller, s.rows[i]) ==> s.rows[i].expired)
            && (forall user :: user in Recipients(s, r.scope, r.fulfiller) ==> !AlsoByOrg(s, r.scope, r.fulfiller, user))
    ensures NobodyToldCanApprove(s, r) && s.systemAdmins != {} && IdsNonempty(s) && r.fulfiller.Some? && r.fulfiller.value != "" ==>
              !InSystemInbox(s, r.scope, r.fulfiller)
  {
    forall user | user in Recipients(s, r.scope, r.fulfiller)
      ensures CanFulfill(Resolve(s, user), r) <==>
              || user in s.systemAdmins
              || (ToldByCurrentRow(s, r.scope, r.fulfiller, user) && !ForDeletedGroup(s, r.scope, r.fulfiller))
              || AlsoByOrg(s, r.scope, r.fulfiller, user)
    {
      RecipientsCanFulfillIff(s, r, user);
    }
    forall i | 0 <= i < |s.rows| && Tells(s, r.scope, r.fulfiller, s.rows[i])
      ensures s.rows[i].user in Recipients(s, r.scope, r.fulfiller)
      ensures !s.rows[i].expired ==> ToldByCurrentRow(s, r.scope, r.fulfiller, s.rows[i].user)
    {
      TellingRowTells(s, r, i);
      assert !s.rows[i].expired ==> CountsFor(s.rows[i], s.rows[i].user);
    }
    if r.fulfiller.Some? && r.fulfiller.value != "" && IdsNonempty(s) {
      InboxMirrorsRecipients(s, r.scope, r.fulfiller.value);
    }
  }

  lemma TellingRowTells(s: Staff, r: AllocRequest, i: nat)
    requires i < |s.rows| && Tells(s, r.scope, r.fulfiller, s.rows[i])
    ensures s.rows[i].user in Recipients(s, r.scope, r.fulfiller)
  {
  }

  /** A live group whose only administrator row has expired: its holder is told about a member's request and can
      approve nothing, and the system administrators do not see it. */
  lemma ExpiredAdministratorIsTold()
    ensures
      var s := Staff([Membership("u", Some("g"), None, GroupAdmin, true)], map["g" := "o"], {"g"}, {"root"});
      var r := AllocRequest("w", GroupScope, Some("g"), 10, Pending);
      && TwoShapes(s) && IdsNonempty(s)
      && "u" in Recipients(s, r.scope, r.fulfiller)
      && NobodyToldCanApprove(s, r)
      && !InSystemInbox(s, r.scope, r.fulfiller)
  {
    var s := Staff([Membership("u", Some("g"), None, GroupAdmin, true)], map["g" := "o"], {"g"}, {"root"});
    var r := AllocRequest("w", GroupScope, Some("g"), 10, Pending);
    assert s.rows[0].user in GroupAdminIds(s, Some("g"));
    assert GroupAdminIds(s, Some("g")) == {"u"};
    assert AnsweringTier(s, r.scope, r.fulfiller) == GroupTier;
    StuckIff(s, r);
  }

  /** A deleted group without an administrator of its own: the organization's administrator is told and cannot
      approve. */
  lemma DeletedGroupIsAnswered()
    ensures
      var s := Staff([Membership("u", None, Some("o"), OrgAdmin, false)], map["g" := "o"], {}, {"root"});
      var r := AllocRequest("w", GroupScope, Some("g"), 10, Pending);
      && TwoShapes(s) && IdsNonempty(s)
      && "u" in Recipients(s, r.scope, r.fulfiller)
      && NobodyToldCanApprove(s, r)
      && !InSystemInbox(s, r.scope, r.fulfiller)
  {
    var s := Staff([Membership("u", None, Some("o"), OrgAdmin, false)], map["g" := "o"], {}, {"root"});
    var r := AllocRequest("w", GroupScope, Some("g"), 10, Pending);
    assert GroupAdminIds(s, Some("g")) == {};
    assert s.rows[0].user in OrgAdminIds(s, Some("o"));
    assert OrgAdminIds(s, Some("o")) == {"u"};
    assert AnsweringTier(s, r.scope, r.fulfiller) == OrgTier;
    StuckIff(s, r);
  }

  // ---- the roles a caller is resolved to ----

  /** A caller has a role in a group exactly when they have an unexpired row there, or it is a live group of an
      organization they administer. */
  lemma HasRoleIff(s: Staff, user: Id, g: Id)
    requires TwoShapes(s)
    ensures g in Resolve(s, user).roles <==>
            || (exists i :: 0 <= i < |s.rows| && s.rows[i].user == user && !s.rows[i].expired && s.rows[i].group == Some(g))
            || (g in s.live && g in s.groups && CurrentOrgAdmin(s, user, s.groups[g]))
  {
    if g in s.groups {
      OrgAdminAdministersIff(s, user, s.groups[g]);
    }
    if i :| 0 <= i < |s.rows| && s.rows[i].user == user && !s.rows[i].expired && s.rows[i].group == Some(g) {
      assert CountsFor(s.rows[i], user);
      assert HasRow(s, user, g, s.rows[i].role) && g in RowGroups(s, user);
    }
  }

  /** The role is the organization administrator's there, else the row's own. */
  lemma RoleIs(s: Staff, user: Id, i: nat)
    requires TwoShapes(s) && i < |s.rows| && s.rows[i].user == user && !s.rows[i].expired && s.rows[i].group.Some?
    requires forall j :: 0 <= j < |s.rows| && s.rows[j].user == user && s.rows[j].group == s.rows[i].group ==> j == i
    ensures
      var g := s.rows[i].group.value;
      && g in Resolve(s, user).roles
      && Resolve(s, user).roles[g] ==
         if g in s.live && g in s.groups && CurrentOrgAdmin(s, user, s.groups[g]) then OrgAdmin else s.rows[i].role
  {
    var g := s.rows[i].group.value;
    if g in s.groups {
      OrgAdminAdministersIff(s, user, s.groups[g]);
    }
    assert CountsFor(s.rows[i], user);
    forall role ensures HasRow(s, user, g, role) <==> role == s.rows[i].role {
      if role == s.rows[i].role {
        assert s.rows[i].role == role;
      }
    }
    assert g in RowGroups(s, user);
  }

  /** A caller is a system administrator by their own account, and administers the organizations of their unexpired
      administrator rows. */
  lemma StandingIs(s: Staff, user: Id, org: Id)
    requires TwoShapes(s)
    ensures Resolve(s, user).superAdmin <==> user in s.systemAdmins
    ensures org in Resolve(s, user).adminOrgs <==>
            exists i :: 0 <= i < |s.rows| && s.rows[i].user == user && !s.rows[i].expired && s.rows[i].role == OrgAdmin
                      && (s.rows[i].org == Some(org)
                          || (s.rows[i].group.Some? && s.rows[i].group.value in s.groups && s.groups[s.rows[i].group.value] == org))
  {
    OrgAdminAdministersIff(s, user, org);
    if CurrentOrgAdmin(s, user, org) {
      var i :| 0 <= i < |s.rows| && CountsFor(s.rows[i], user) && AdminRowOf(s, s.rows[i], org);
      assert s.rows[i].user == user;
    }
    if i :| 0 <= i < |s.rows| && s.rows[i].user == user && !s.rows[i].expired && s.rows[i].role == OrgAdmin
            && (s.rows[i].org == Some(org)
                || (s.rows[i].group.Some? && s.rows[i].group.value in s.groups && s.groups[s.rows[i].group.value] == org)) {
      assert CountsFor(s.rows[i], user) && AdminRowOf(s, s.rows[i], org);
    }
  }
}
