/** The cascade as it runs: loops over groups and users, with the reason read back from the audit
    rows it writes itself. */
module Directory {
  import opened Prelude
  import opened Cascade

  /** A "user.update" row of the audit log. */
  datatype AuditRow = AuditRow(target: Id, reason: Option<Reason>)

  /** The reason on a user's latest update row, if they have one. */
  function LastReason(audit: seq<AuditRow>, u: Id): Option<Reason>
  {
    if audit == [] then None
    else if audit[|audit| - 1].target == u then audit[|audit| - 1].reason
    else LastReason(audit[..|audit| - 1], u)
  }

  lemma LastReasonAppend(audit: seq<AuditRow>, row: AuditRow, u: Id)
    ensures LastReason(audit + [row], u) == if row.target == u then row.reason else LastReason(audit, u)
  {
    assert (audit + [row])[..|audit|] == audit;
  }

  class Accounts {
    const members: Members
    var orgs: map<Id, bool>
    var groups: map<Id, Group>
    var users: map<Id, UserStatus>
    var audit: seq<AuditRow>

    constructor (members: Members, orgs: map<Id, bool>, groups: map<Id, Group>, users: map<Id, UserStatus>)
      ensures this.members == members
      ensures Seen() == View(orgs, groups, users, map u | u in users :: None)
    {
      this.members, this.orgs, this.groups, this.users, this.audit := members, orgs, groups, users, [];
    }

    ghost function Seen(): (v: View)
      reads this
      ensures v.reason.Keys == v.users.Keys
    {
      View(orgs, groups, users, map u | u in users :: LastReason(audit, u))
    }

    /** The body of the cascade's loop: switch one user and leave an audit row. */
    method SwitchUser(u: Id, up: bool) returns (did: bool)
      requires u in users
      modifies this`users, this`audit
      ensures did == Changes(old(users[u]), LastReason(old(audit), u), up)
      ensures users == if did then old(users)[u := if up then On else Off] else old(users)
      ensures did ==> old(users[u]) != users[u]
      ensures forall other :: LastReason(audit, other) ==
                if did && other == u then Some(if up then GroupReactivated else GroupDeactivated)
                else LastReason(old(audit), other)
    {
      did := false;
      if !up && users[u] == On {
        users, did := users[u := Off], true;
        audit := audit + [AuditRow(u, Some(GroupDeactivated))];
      } else if up && users[u] == Off && LastReason(audit, u) == Some(GroupDeactivated) {
        users, did := users[u := On], true;
        audit := audit + [AuditRow(u, Some(GroupReactivated))];
      }
      if did {
        forall other ensures LastReason(audit, other) ==
                             if u == other then audit[|old(audit)|].reason else LastReason(old(audit), other)
        {
          LastReasonAppend(old(audit), audit[|old(audit)|], other);
        }
      }
    }

    /** `_cascade_group_users`. */
    method CascadeGroupUsers(gids: set<Id>, up: bool)
      modifies this`users, this`audit
      ensures Seen() == CascadeUsers(old(Seen()), members, gids, up)
    {
      var memberIds := set p | p in members && p.1 in gids :: p.0;
      var keep := set p | p in members && p.1 !in gids && p.1 in groups && groups[p.1].status == Active :: p.0;
      var targets := memberIds - keep;
      ghost var v := Seen();
      ghost var end := CascadeUsers(v, members, gids, up);
      assert targets == Targets(v, members, gids);
      var left := targets;
      while left != {}
        invariant left <= targets && users.Keys == v.users.Keys
        invariant forall u :: u in users ==>
                    && users[u] == (if u in left then v.users[u] else end.users[u])
                    && LastReason(audit, u) == (if u in left then v.reason[u] else end.reason[u])
        decreases left
      {
        var u :| u in left;
        left := left - {u};
        if u in users {
          var did := SwitchUser(u, up);
        }
      }
      assert Seen().users == end.users && Seen().reason == end.reason;
    }

    /** PATCH /projects/{id}, the status part. */
    method UpdateProject(g: Id, status: GroupStatus)
      modifies this`groups, this`users, this`audit
      ensures Seen() == SetGroup(old(Seen()), members, g, status)
    {
      if g !in groups || groups[g].status == status {
        return;
      }
      var was := groups[g].status;
      groups := groups[g := groups[g].(status := status)];
      if (status == Inactive || status == Archived) && was == Active {
        CascadeGroupUsers({g}, false);
      } else if status == Active && (was == Inactive || was == Archived) {
        CascadeGroupUsers({g}, true);
      }
    }

    /** PATCH /organizations/{id}, the status part. */
    method UpdateOrganization(org: Id, on: bool)
      modifies this`orgs, this`groups, this`users, this`audit
      ensures Seen() == SetOrg(old(Seen()), members, org, on)
    {
      if org !in orgs || orgs[org] == on {
        return;
      }
      ghost var v := Seen();
      orgs := orgs[org := on];
      var gids := set g | g in groups && groups[g].org == org;
      var from, to := if on then Inactive else Active, if on then Active else Inactive;
      ghost var flipped := FlipGroups(v.(orgs := orgs), org, from, to);
      var left := gids;
      while left != {}
        invariant left <= gids && groups.Keys == v.groups.Keys
        invariant users == v.users && audit == old(audit) && orgs == v.orgs[org := on]
        invariant forall g :: g in groups ==> groups[g] == (if g in left then v.groups[g] else flipped.groups[g])
        decreases left
      {
        var g :| g in left;
        if groups[g].status == from {
          groups := groups[g := groups[g].(status := to)];
        }
        left := left - {g};
      }
      assert groups == flipped.groups;
      assert Seen() == flipped;
      CascadeGroupUsers(gids, on);
    }

    /** Any other "user.update" of a user. */
    method EditUser(u: Id)
      modifies this`audit
      ensures Seen() == Edit(old(Seen()), u)
    {
      if u in users {
        ghost var before := audit;
        audit := audit + [AuditRow(u, None)];
        forall other ensures LastReason(audit, other) == if u == other then None else LastReason(before, other) {
          LastReasonAppend(before, audit[|before|], other);
        }
        assert Seen().reason == old(Seen()).reason[u := None];
      }
    }
  }
}
