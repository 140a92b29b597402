/** Freezing and thawing users with their groups.

    A user is frozen when the last active group they belong to is switched off and thawed when one
    comes back. The code decides step by step, from the reason on the user's last audit row; the rule
    it is meant to follow looks at the groups alone. */
module Cascade {
  import opened Prelude

  datatype GroupStatus = Active | Inactive | Archived

  datatype UserStatus = On | Off | Suspended

  datatype Group = Group(org: Id, status: GroupStatus)

  datatype Reason = GroupDeactivated | GroupReactivated

  /** Who belongs to which group. */
  type Members = set<(Id, Id)>

  /** The tables as the cascade sees them: for each user, the reason on their last update row. */
  datatype View = View(orgs: map<Id, bool>, groups: map<Id, Group>,
                       users: map<Id, UserStatus>, reason: map<Id, Option<Reason>>)

  ghost predicate WellFormed(v: View, m: Members)
  {
    v.reason.Keys == v.users.Keys && forall u, g :: (u, g) in m ==> u in v.users && g in v.groups
  }

  // ---- the cascade ----

  function GroupMembers(m: Members, gids: set<Id>): set<Id>
  {
    set p | p in m && p.1 in gids :: p.0
  }

  /** Members with an active group outside the given ones. */
  function Kept(v: View, m: Members, gids: set<Id>): set<Id>
  {
    set p | p in m && p.1 !in gids && p.1 in v.groups && v.groups[p.1].status == Active :: p.0
  }

  function Targets(v: View, m: Members, gids: set<Id>): set<Id>
  {
    GroupMembers(m, gids) - Kept(v, m, gids)
  }

  /** What the cascade does to one targeted user. */
  predicate Changes(status: UserStatus, reason: Option<Reason>, up: bool)
  {
    if up then status == Off && reason == Some(GroupDeactivated) else status == On
  }

  function CascadeUsers(v: View, m: Members, gids: set<Id>, up: bool): View
    requires v.reason.Keys == v.users.Keys
  {
    var hit := set u | u in v.users && u in Targets(v, m, gids) && Changes(v.users[u], v.reason[u], up);
    v.(users := map u | u in v.users :: if u in hit then (if up then On else Off) else v.users[u],
       reason := map u | u in v.users ::
         if u in hit then Some(if up then GroupReactivated else GroupDeactivated) else v.reason[u])
  }

  /** `update_project`, the status part. */
  function SetGroup(v: View, m: Members, g: Id, status: GroupStatus): View
    requires v.reason.Keys == v.users.Keys
  {
    if g !in v.groups || v.groups[g].status == status then v
    else
      var was := v.groups[g].status;
      var next := v.(groups := v.groups[g := v.groups[g].(status := status)]);
      if was == Active then CascadeUsers(next, m, {g}, false)
      else if status == Active then CascadeUsers(next, m, {g}, true)
      else next
  }

  function GroupsOf(v: View, org: Id): set<Id>
  {
    set g | g in v.groups && v.groups[g].org == org
  }

  /** Switch the organization's groups from one status to the other. */
  function FlipGroups(v: View, org: Id, from: GroupStatus, to: GroupStatus): View
  {
    v.(groups := map g | g in v.groups ::
         if v.groups[g].org == org && v.groups[g].status == from then v.groups[g].(status := to) else v.groups[g])
  }

  /** `update_organization`, the status part. */
  function SetOrg(v: View, m: Members, org: Id, on: bool): View
    requires v.reason.Keys == v.users.Keys
  {
    if org !in v.orgs || v.orgs[org] == on then v
    else
      var next := v.(orgs := v.orgs[org := on]);
      var flipped := if on then FlipGroups(next, org, Inactive, Active) else FlipGroups(next, org, Active, Inactive);
      CascadeUsers(flipped, m, GroupsOf(v, org), on)
  }

  /** Any other edit of a user writes an update row without a reason. */
  function Edit(v: View, u: Id): View
  {
    if u in v.users then v.(reason := v.reason[u := None]) else v
  }

  datatype Step = GroupStep(group: Id, status: GroupStatus) | OrgStep(org: Id, on: bool) | EditStep(user: Id)

  function Apply(v: View, m: Members, s: Step): View
    requires v.reason.Keys == v.users.Keys
  {
    match s
    case GroupStep(g, status) => SetGroup(v, m, g, status)
    case OrgStep(org, on) => SetOrg(v, m, org, on)
    case EditStep(u) => Edit(v, u)
  }

  // ---- the rule ----

  ghost predicate HasActive(v: View, m: Members, u: Id)
  {
    exists g :: (u, g) in m && g in v.groups && v.groups[g].status == Active
  }

  ghost predicate Belongs(m: Members, u: Id)
  {
    exists g :: (u, g) in m
  }

  /** A member who is not suspended is frozen exactly when none of their groups is active. */
  ghost predicate FollowsRule(v: View, m: Members, u: Id)
    requires u in v.users
  {
    v.users[u] != Suspended && Belongs(m, u) ==> (v.users[u] == Off <==> !HasActive(v, m, u))
  }

  ghost predicate Rule(v: View, m: Members)
  {
    forall u :: u in v.users ==> FollowsRule(v, m, u)
  }

  /** Every frozen member was frozen by the cascade, and nothing else touched their row since. */
  ghost predicate Thawable(v: View, m: Members)
    requires v.reason.Keys == v.users.Keys
  {
    forall u :: u in v.users && Belongs(m, u) && v.users[u] == Off ==> v.reason[u] == Some(GroupDeactivated)
  }

  ghost predicate Ok(v: View, m: Members)
  {
    WellFormed(v, m) && Rule(v, m) && Thawable(v, m)
  }

  // ---- one cascade ----

  /** A freezing cascade that only switched groups of `gids` off restores the rule. */
  lemma FreezeRestores(v: View, next: View, m: Members, gids: set<Id>)
    requires Ok(v, m) && WellFormed(next, m) && next.users == v.users && next.reason == v.reason
    requires forall g :: g in gids && g in next.groups ==> next.groups[g].status != Active
    requires forall g :: g !in gids ==> (g in next.groups <==> g in v.groups)
    requires forall g :: g !in gids && g in v.groups ==> next.groups[g] == v.groups[g]
    ensures Ok(CascadeUsers(next, m, gids, false), m)
  {
    var v' := CascadeUsers(next, m, gids, false);
    forall u | u in v'.users ensures FollowsRule(v', m, u) {
      assert FollowsRule(v, m, u);
      KeptMeansActive(next, m, gids, u);
      if HasActive(next, m, u) {
        var g :| (u, g) in m && g in next.groups && next.groups[g].status == Active;
        assert g !in gids && v.groups[g].status == Active;
      }
      if u !in GroupMembers(m, gids) && HasActive(v, m, u) {
        var g :| (u, g) in m && g in v.groups && v.groups[g].status == Active;
        assert (u, g).1 !in gids;
      }
    }
  }

  lemma KeptMeansActive(v: View, m: Members, gids: set<Id>, u: Id)
    ensures u in Kept(v, m, gids) <==>
            exists g :: (u, g) in m && g !in gids && g in v.groups && v.groups[g].status == Active
    ensures u in GroupMembers(m, gids) <==> exists g :: (u, g) in m && g in gids
  {
    if u in Kept(v, m, gids) {
      var p :| p in m && p.1 !in gids && p.1 in v.groups && v.groups[p.1].status == Active && p.0 == u;
      assert p == (u, p.1);
    }
    if g :| (u, g) in m && g !in gids && g in v.groups && v.groups[g].status == Active {
      assert (u, g).0 == u;
    }
    if u in GroupMembers(m, gids) {
      var p :| p in m && p.1 in gids && p.0 == u;
      assert p == (u, p.1);
    }
    if g :| (u, g) in m && g in gids {
      assert (u, g).0 == u;
    }
  }

  /** Frozen members of the groups, none of whose groups becomes active. */
  ghost predicate ThawsTooMuch(v: View, next: View, m: Members, gids: set<Id>, u: Id)
  {
    && u in v.users && v.users[u] == Off && u in GroupMembers(m, gids) && !HasActive(next, m, u)
  }

  /** A thawing cascade over `gids`, after some of their groups were switched on, restores the rule if
      and only if every frozen member of those groups now has an active one. */
  lemma ThawRestoresIff(v: View, next: View, m: Members, gids: set<Id>)
    requires Ok(v, m) && WellFormed(next, m) && next.users == v.users && next.reason == v.reason
    requires forall g :: g in v.groups ==> g in next.groups
    requires forall g :: g in v.groups && v.groups[g].status == Active ==> next.groups[g].status == Active
    requires forall g :: g !in gids ==> (g in next.groups <==> g in v.groups)
    requires forall g :: g !in gids && g in v.groups ==> next.groups[g] == v.groups[g]
    ensures Ok(CascadeUsers(next, m, gids, true), m) <==> forall u :: !ThawsTooMuch(v, next, m, gids, u)
  {
    var v' := CascadeUsers(next, m, gids, true);
    forall u | u in v.users
      ensures FollowsRule(v', m, u) <==> !ThawsTooMuch(v, next, m, gids, u)
    {
      ThawOneUser(v, next, m, gids, u);
    }
    if forall u :: !ThawsTooMuch(v, next, m, gids, u) {
      assert Rule(v', m);
    }
    if u :| ThawsTooMuch(v, next, m, gids, u) {
      assert !FollowsRule(v', m, u);
    }
  }

  lemma ThawOneUser(v: View, next: View, m: Members, gids: set<Id>, u: Id)
    requires Ok(v, m) && WellFormed(next, m) && next.users == v.users && next.reason == v.reason
    requires forall g :: g in v.groups ==> g in next.groups
    requires forall g :: g in v.groups && v.groups[g].status == Active ==> next.groups[g].status == Active
    requires forall g :: g !in gids ==> (g in next.groups <==> g in v.groups)
    requires forall g :: g !in gids && g in v.groups ==> next.groups[g] == v.groups[g]
    requires u in v.users
    ensures FollowsRule(CascadeUsers(next, m, gids, true), m, u) <==> !ThawsTooMuch(v, next, m, gids, u)
  {
    var v' := CascadeUsers(next, m, gids, true);
    assert FollowsRule(v, m, u);
    KeptMeansActive(next, m, gids, u);
    assert HasActive(v', m, u) <==> HasActive(next, m, u);
    if HasActive(v, m, u) {
      var g :| (u, g) in m && g in v.groups && v.groups[g].status == Active;
      assert next.groups[g].status == Active;
    }
    if u in GroupMembers(m, gids) {
      var g :| (u, g) in m && g in gids;
      assert Belongs(m, u);
    } else if HasActive(next, m, u) {
      var g :| (u, g) in m && g in next.groups && next.groups[g].status == Active;
      assert g !in gids && v.groups[g].status == Active;
    }
  }

  // ---- the steps ----

  lemma GroupStepKeepsRule(v: View, m: Members, g: Id, status: GroupStatus)
    requires Ok(v, m)
    ensures Ok(SetGroup(v, m, g, status), m)
  {
    if g in v.groups && v.groups[g].status != status {
      var next := v.(groups := v.groups[g := v.groups[g].(status := status)]);
      if v.groups[g].status == Active {
        FreezeRestores(v, next, m, {g});
      } else if status == Active {
        forall u ensures !ThawsTooMuch(v, next, m, {g}, u) {
          KeptMeansActive(next, m, {g}, u);
        }
        ThawRestoresIff(v, next, m, {g});
      } else {
        forall u | u in v.users ensures FollowsRule(next, m, u) {
          assert FollowsRule(v, m, u);
          assert HasActive(next, m, u) <==> HasActive(v, m, u);
        }
      }
    }
  }

  /** A frozen member of the organization whose groups there are all archived: switching the
      organization on would thaw them with no active group to work in. */
  ghost predicate StrandedInArchive(v: View, m: Members, org: Id, u: Id)
  {
    && u in v.users && v.users[u] == Off
    && (exists g :: (u, g) in m && g in GroupsOf(v, org))
    && !(exists g :: (u, g) in m && g in GroupsOf(v, org) && v.groups[g].status == Inactive)
  }

  /** Switching an organization on keeps the rule if and only if no frozen member of it has only
      archived groups there. */
  lemma OrgActivationKeepsRuleIff(v: View, m: Members, org: Id)
    requires Ok(v, m) && org in v.orgs && !v.orgs[org]
    ensures Ok(SetOrg(v, m, org, true), m) <==> forall u :: !StrandedInArchive(v, m, org, u)
  {
    var next := FlipGroups(v.(orgs := v.orgs[org := true]), org, Inactive, Active);
    var gids := GroupsOf(v, org);
    ThawRestoresIff(v, next, m, gids);
    forall u ensures ThawsTooMuch(v, next, m, gids, u) <==> StrandedInArchive(v, m, org, u) {
      StrandedMeansNoActive(v, next, m, org, u);
    }
  }

  lemma StrandedMeansNoActive(v: View, next: View, m: Members, org: Id, u: Id)
    requires Ok(v, m) && org in v.orgs
    requires next == FlipGroups(v.(orgs := v.orgs[org := true]), org, Inactive, Active)
    ensures ThawsTooMuch(v, next, m, GroupsOf(v, org), u) <==> StrandedInArchive(v, m, org, u)
  {
    var gids := GroupsOf(v, org);
    KeptMeansActive(next, m, gids, u);
    if u in v.users && v.users[u] == Off && u in GroupMembers(m, gids) {
      assert FollowsRule(v, m, u);
      if HasActive(next, m, u) {
        var g :| (u, g) in m && g in next.groups && next.groups[g].status == Active;
        assert v.groups[g].status != Active;
        assert g in gids && v.groups[g].status == Inactive;
      }
      if g :| (u, g) in m && g in gids && v.groups[g].status == Inactive {
        assert next.groups[g].status == Active;
      }
    }
  }

  lemma OrgDeactivationKeepsRule(v: View, m: Members, org: Id)
    requires Ok(v, m)
    ensures Ok(SetOrg(v, m, org, false), m)
  {
    if org in v.orgs && v.orgs[org] {
      var next := FlipGroups(v.(orgs := v.orgs[org := false]), org, Active, Inactive);
      FreezeRestores(v, next, m, GroupsOf(v, org));
    }
  }

  // ---- whole runs ----

  function Play(v: View, m: Members, steps: seq<Step>): View
    requires v.reason.Keys == v.users.Keys
    ensures Play(v, m, steps).reason.Keys == Play(v, m, steps).users.Keys
  {
    if steps == [] then v else Apply(Play(v, m, steps[..|steps| - 1]), m, steps[|steps| - 1])
  }

  /** Group and organization steps, none of which archives a group. */
  predicate Plain(steps: seq<Step>)
  {
    forall i :: 0 <= i < |steps| ==>
      match steps[i]
      case GroupStep(_, status) => status != Archived
      case OrgStep(_, _) => true
      case EditStep(_) => false
  }

  predicate NoArchive(v: View)
  {
    forall g :: g in v.groups ==> v.groups[g].status != Archived
  }

  /** Everything starts switched on. */
  ghost predicate AllOn(v: View, m: Members)
  {
    && WellFormed(v, m)
    && (forall g :: g in v.groups ==> v.groups[g].status == Active)
    && (forall u :: u in v.users ==> v.users[u] != Off)
  }

  lemma StartFollowsRule(v: View, m: Members)
    requires AllOn(v, m)
    ensures Ok(v, m) && NoArchive(v)
  {
    forall u | u in v.users ensures FollowsRule(v, m, u) {
      if Belongs(m, u) {
        var g :| (u, g) in m;
        assert v.groups[g].status == Active;
      }
    }
  }

  lemma StepKeepsRule(v: View, m: Members, s: Step)
    requires Ok(v, m) && NoArchive(v) && Plain([s])
    ensures Ok(Apply(v, m, s), m) && NoArchive(Apply(v, m, s))
  {
    assert [s][0] == s;
    match s {
      case GroupStep(g, status) =>
        GroupStepKeepsRule(v, m, g, status);
      case OrgStep(org, on) =>
        if on && org in v.orgs && !v.orgs[org] {
          forall u ensures !StrandedInArchive(v, m, org, u) {
            if u in v.users && v.users[u] == Off && exists g :: (u, g) in m && g in GroupsOf(v, org) {
              var g :| (u, g) in m && g in GroupsOf(v, org);
              assert FollowsRule(v, m, u);
              assert v.groups[g].status != Active;
            }
          }
          OrgActivationKeepsRuleIff(v, m, org);
        } else {
          OrgDeactivationKeepsRule(v, m, org);
        }
    }
  }

  /** Over every run of organization and group switches, the step-by-step cascade agrees with the
      rule: a member who is not suspended is frozen exactly when none of their groups is active. */
  lemma {:induction false} CascadeAgreesWithRule(v: View, m: Members, steps: seq<Step>)
    requires AllOn(v, m) && Plain(steps)
    ensures Ok(Play(v, m, steps), m) && NoArchive(Play(v, m, steps))
    decreases |steps|
  {
    if steps == [] {
      StartFollowsRule(v, m);
    } else {
      var front, last := steps[..|steps| - 1], steps[|steps| - 1];
      assert forall i :: 0 <= i < |front| ==> front[i] == steps[i];
      CascadeAgreesWithRule(v, m, front);
      assert steps[|steps| - 1] == last && [last][0] == last;
      StepKeepsRule(Play(v, m, front), m, last);
    }
  }

  // ---- users the cascade did not freeze ----

  // ---- one member, one group ----

  const LONE: Members := {("u", "g")}

  function Lone(on: bool, group: GroupStatus, user: UserStatus, reason: Option<Reason>): View
  {
    View(map["o" := on], map["g" := Group("o", group)], map["u" := user], map["u" := reason])
  }

  lemma LoneTarget(v: View)
    requires v.groups.Keys == {"g"}
    ensures Targets(v, LONE, {"g"}) == {"u"}
  {
    assert ("u", "g") in LONE && ("u", "g").0 in GroupMembers(LONE, {"g"});
  }

  lemma ArchivingFreezes()
    ensures SetGroup(Lone(true, Active, On, None), LONE, "g", Archived) == Lone(true, Archived, Off, Some(GroupDeactivated))
  {
    var next := Lone(true, Archived, On, None);
    LoneTarget(next);
    assert CascadeUsers(next, LONE, {"g"}, false) == Lone(true, Archived, Off, Some(GroupDeactivated));
  }

  lemma SwitchingOffLeaves()
    ensures SetOrg(Lone(true, Archived, Off, Some(GroupDeactivated)), LONE, "o", false)
            == Lone(false, Archived, Off, Some(GroupDeactivated))
  {
    var v := Lone(true, Archived, Off, Some(GroupDeactivated));
    var next := v.(orgs := v.orgs["o" := false]);
    assert FlipGroups(next, "o", Active, Inactive) == Lone(false, Archived, Off, Some(GroupDeactivated));
    assert CascadeUsers(next, LONE, GroupsOf(v, "o"), false) == next;
  }

  lemma SwitchingOnThaws()
    ensures SetOrg(Lone(false, Archived, Off, Some(GroupDeactivated)), LONE, "o", true)
            == Lone(true, Archived, On, Some(GroupReactivated))
  {
    var v := Lone(false, Archived, Off, Some(GroupDeactivated));
    var next := Lone(true, Archived, Off, Some(GroupDeactivated));
    assert FlipGroups(v.(orgs := v.orgs["o" := true]), "o", Inactive, Active) == next;
    assert GroupsOf(v, "o") == {"g"};
    LoneTarget(next);
    assert CascadeUsers(next, LONE, {"g"}, true) == Lone(true, Archived, On, Some(GroupReactivated));
  }

  /** Archiving a member's only group freezes them; switching the organization off and on again then thaws them,
      although they still have no active group. */
  lemma ArchivedMemberIsThawed()
    ensures
      var start := Lone(true, Active, On, None);
      var end := Play(start, LONE, [GroupStep("g", Archived), OrgStep("o", false), OrgStep("o", true)]);
      && AllOn(start, LONE)
      && end == Lone(true, Archived, On, Some(GroupReactivated))
      && !Rule(end, LONE)
  {
    var start := Lone(true, Active, On, None);
    var steps := [GroupStep("g", Archived), OrgStep("o", false), OrgStep("o", true)];
    assert steps[..2] == [steps[0], steps[1]] && steps[..2][..1] == [steps[0]] && [steps[0]][..0] == [];
    ArchivingFreezes();
    SwitchingOffLeaves();
    SwitchingOnThaws();
    assert Play(start, LONE, [steps[0]]) == Apply(Play(start, LONE, [steps[0]][..0]), LONE, steps[0]);
    assert Play(start, LONE, steps[..2]) == Apply(Play(start, LONE, steps[..2][..1]), LONE, steps[1]);
    var end := Lone(true, Archived, On, Some(GroupReactivated));
    assert Play(start, LONE, steps) == end;
    assert ("u", "g") in LONE && !HasActive(end, LONE, "u") && !FollowsRule(end, LONE, "u");
  }

  lemma StepLeavesOthersFrozen(v: View, m: Members, s: Step, u: Id)
    requires v.reason.Keys == v.users.Keys && u in v.users
    requires v.users[u] == Off && v.reason[u] != Some(GroupDeactivated)
    ensures
      var v' := Apply(v, m, s);
      u in v'.users && v'.users[u] == Off && v'.reason[u] != Some(GroupDeactivated)
  {
  }

  /** A user whose last update row is not the cascade's own stays inactive through every later run of
      switches and edits, whoever switched them off. */
  lemma {:induction false} OthersStayFrozen(v: View, m: Members, steps: seq<Step>, u: Id)
    requires v.reason.Keys == v.users.Keys && u in v.users
    requires v.users[u] == Off && v.reason[u] != Some(GroupDeactivated)
    ensures
      var v' := Play(v, m, steps);
      u in v'.users && v'.users[u] == Off && v'.reason[u] != Some(GroupDeactivated)
    decreases |steps|
  {
    if steps != [] {
      OthersStayFrozen(v, m, steps[..|steps| - 1], u);
      StepLeavesOthersFrozen(Play(v, m, steps[..|steps| - 1]), m, steps[|steps| - 1], u);
    }
  }

  /** Reactivation lifts exactly the users the cascade froze only while nobody edits them: switching
      one of a frozen member's groups on thaws them if and only if their last update row is still the
      cascade's. After an edit in between, the rule is broken. */
  lemma EditKeepsFrozen(v: View, m: Members, g: Id, u: Id)
    requires WellFormed(v, m) && Rule(v, m) && u in v.users && v.users[u] == Off
    requires (u, g) in m && v.groups[g].status != Active
    ensures
      var v' := SetGroup(v, m, g, Active);
      && u in v'.users
      && (v'.users[u] == On <==> v.reason[u] == Some(GroupDeactivated))
      && (v'.users[u] == Off ==> !Rule(v', m))
    ensures
      var edited := SetGroup(Edit(v, u), m, g, Active);
      u in edited.users && edited.users[u] == Off && !Rule(edited, m)
  {
    EditOne(v, m, g, u);
    assert Rule(Edit(v, u), m) by {
      forall x | x in Edit(v, u).users ensures FollowsRule(Edit(v, u), m, x) {
        assert FollowsRule(v, m, x);
        assert HasActive(Edit(v, u), m, x) <==> HasActive(v, m, x);
      }
    }
    EditOne(Edit(v, u), m, g, u);
  }

  lemma EditOne(v: View, m: Members, g: Id, u: Id)
    requires WellFormed(v, m) && Rule(v, m) && u in v.users && v.users[u] == Off
    requires (u, g) in m && v.groups[g].status != Active
    ensures
      var v' := SetGroup(v, m, g, Active);
      && u in v'.users
      && (v'.users[u] == On <==> v.reason[u] == Some(GroupDeactivated))
      && (v'.users[u] != On ==> v'.users[u] == Off && !Rule(v', m))
  {
    var next := v.(groups := v.groups[g := v.groups[g].(status := Active)]);
    var v' := SetGroup(v, m, g, Active);
    assert FollowsRule(v, m, u);
    KeptMeansActive(next, m, {g}, u);
    assert u in Targets(next, m, {g});
    assert HasActive(v', m, u) by {
      assert v'.groups[g].status == Active;
    }
    assert !FollowsRule(v', m, u) <==> v'.users[u] == Off;
  }

  // ---- what a step leaves alone ----

  /** Switching a group sets its status and no other. */
  lemma GroupStepSets(v: View, m: Members, g: Id, status: GroupStatus)
    requires v.reason.Keys == v.users.Keys
    ensures
      var v' := SetGroup(v, m, g, status);
      && v'.orgs == v.orgs
      && v'.groups == if g in v.groups then v.groups[g := Group(v.groups[g].org, status)] else v.groups
  {
    if g in v.groups {
      assert v.groups[g := v.groups[g]] == v.groups;
    }
  }

  /** Switching an organization switches its groups that are not archived, and no other. */
  lemma OrgStepSets(v: View, m: Members, org: Id, on: bool, g: Id)
    requires v.reason.Keys == v.users.Keys && g in v.groups
    ensures
      var v' := SetOrg(v, m, org, on);
      && v'.orgs == (if org in v.orgs then v.orgs[org := on] else v.orgs)
      && v'.groups.Keys == v.groups.Keys
      && v'.groups[g] == if org !in v.orgs || v.orgs[org] == on || v.groups[g].org != org || v.groups[g].status == Archived
                         then v.groups[g]
                         else Group(org, if on then Active else Inactive)
  {
    if org in v.orgs {
      assert v.orgs[org := v.orgs[org]] == v.orgs;
    }
  }

  /** Suspended, or in no group. */
  predicate Untouchable(v: View, m: Members, u: Id)
  {
    u in v.users && (v.users[u] == Suspended || forall p :: p in m ==> p.0 != u)
  }

  lemma StepLeavesUntouchable(v: View, m: Members, s: Step, u: Id)
    requires v.reason.Keys == v.users.Keys && Untouchable(v, m, u)
    ensures
      var v' := Apply(v, m, s);
      && Untouchable(v', m, u) && v'.users[u] == v.users[u]
      && v'.reason[u] == if s == EditStep(u) then None else v.reason[u]
  {
    assert forall gids :: u in GroupMembers(m, gids) ==> v.users[u] == Suspended;
  }

  /** Over every run of switches and edits a suspended user stays suspended and a user who belongs to no group
      keeps their status; the reason on their last update row changes by an edit of theirs only. */
  lemma {:induction false} RunLeavesUntouchable(v: View, m: Members, steps: seq<Step>, u: Id)
    requires v.reason.Keys == v.users.Keys && Untouchable(v, m, u)
    ensures
      var v' := Play(v, m, steps);
      && Untouchable(v', m, u) && v'.users[u] == v.users[u]
      && v'.reason[u] == if EditStep(u) in steps then None else v.reason[u]
    decreases |steps|
  {
    if steps != [] {
      var front, last := steps[..|steps| - 1], steps[|steps| - 1];
      RunLeavesUntouchable(v, m, front, u);
      StepLeavesUntouchable(Play(v, m, front), m, last, u);
      assert EditStep(u) in steps <==> EditStep(u) in front || last == EditStep(u) by {
        assert steps == front + [last];
      }
    }
  }

  /** A switch of one group reaches its own members only. */
  lemma GroupStepIsLocal(v: View, m: Members, g: Id, status: GroupStatus, u: Id)
    requires v.reason.Keys == v.users.Keys && u in v.users && (u, g) !in m
    ensures
      var v' := SetGroup(v, m, g, status);
      u in v'.users && v'.users[u] == v.users[u] && v'.reason[u] == v.reason[u]
  {
    assert forall p :: p in m && p.1 == g ==> p == (p.0, g);
    assert u !in GroupMembers(m, {g});
  }
}
