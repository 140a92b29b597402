/** Requests as they are stored meet the lookups that route them: every stored request names its approver, so
    the inbox mirrors the recipients for all of them; and a caller's roles are those of their own rows. */
module Routing {
  import opened Prelude
  import opened Ledger
  import opened Movers
  import opened Engine
  import opened Reservations
  import opened Bulk
  import opened Grants
  import opened Refill
  import opened Operations
  import opened Staffing

  // ---- stored requests name their approver ----

  predicate NamesApprover(r: AllocRequest)
  {
    r.scope != SystemScope ==> r.fulfiller.Some? && r.fulfiller.value != ""
  }

  ghost predicate AllNamed(db: Db)
  {
    forall id :: id in db.requests ==> NamesApprover(db.requests[id])
  }

  /** Same requests, decided or not. */
  ghost predicate SameRequests(db: Db, db': Db)
  {
    && db'.requests.Keys == db.requests.Keys
    && forall id :: id in db.requests ==> db'.requests[id].(status := Pending) == db.requests[id].(status := Pending)
  }

  lemma SameRequestsNamed(db: Db, db': Db)
    requires SameRequests(db, db') && AllNamed(db)
    ensures AllNamed(db')
  {
    forall id | id in db'.requests ensures NamesApprover(db'.requests[id]) {
      assert db'.requests[id].(status := Pending) == db.requests[id].(status := Pending);
      assert NamesApprover(db.requests[id]);
    }
  }

  lemma HandleSameRequests(db: Db, h: Hierarchy, req: Request, at: int)
    ensures SameRequests(db, Handle(db, h, req, at).After(db))
  {
    if Handle(db, h, req, at).Done? {
      PostAllShape(db, Legs(db, req), at);
    }
  }

  lemma JoinSameRequests(db: Db, group: Id, user: Id, welcome: int, grant: int, membership: Id, at: int)
    ensures SameRequests(db, Join(db, group, user, welcome, grant, membership, at).After(db))
  {
    var welcomed := Welcome(db, group, user, welcome, at);
    assert welcomed.requests == db.requests;
    var out := Join(db, group, user, welcome, grant, membership, at);
    if out.Done? && grant > 0 {
      var src, dst := WalletOf(db.wallets, Group, group).value, WalletOf(db.wallets, User, user).value;
      PostAllShape(welcomed, MemberGrantLegs(src, dst, grant, membership), at);
    }
  }

  lemma BatchSameRequests(db: Db, h: Hierarchy, op: Op, at: int)
    requires op.FundMembers? || op.GrantMembers? || op.MonthlySweep?
    ensures SameRequests(db, Exec(db, h, op, at))
  {
    if op.FundMembers? {
      if Ready(db, op.src, op.members) {
        FundAllShape(db, op.src, op.members, op.amount, op.idem, at);
      }
    } else if op.GrantMembers? {
      if forall i :: 0 <= i < |op.members| ==> op.members[i] in db.wallets {
        GrantEachShape(db, op.members, op.amount, op.nonce, at);
      }
    } else {
      SweepShape(db, Eligible(db, op.index), op.tag, at);
    }
  }

  lemma EngineSameRequests(db: Db, h: Hierarchy, op: Op, at: int)
    requires op.GrantOne? || op.OpenSession? || op.BillMinute? || op.CloseSession?
    ensures SameRequests(db, Exec(db, h, op, at))
  {
    if op.CloseSession? {
      SettledRows(db, op.session, op.final, at, op.nonce);
    }
  }

  lemma DecisionSameRequests(db: Db, h: Hierarchy, op: Op, at: int)
    requires op.Reject? || op.TopupApproval? || op.TopupRejection?
    ensures SameRequests(db, Exec(db, h, op, at))
  {
  }

  lemma ExecSameRequests(db: Db, h: Hierarchy, op: Op, at: int)
    requires !op.Create?
    ensures SameRequests(db, Exec(db, h, op, at))
  {
    if op.Ask? {
      HandleSameRequests(db, h, op.req, at);
    } else if op.JoinGroup? {
      JoinSameRequests(db, op.group, op.user, op.welcome, op.grant, op.membership, at);
    } else if op.FundMembers? || op.GrantMembers? || op.MonthlySweep? {
      BatchSameRequests(db, h, op, at);
    } else if op.GrantOne? || op.OpenSession? || op.BillMinute? || op.CloseSession? {
      EngineSameRequests(db, h, op, at);
    } else {
      DecisionSameRequests(db, h, op, at);
    }
  }

  /** Organization ids are nonempty, as every stored id is. */
  predicate OrgsNonempty(h: Hierarchy)
  {
    forall g :: g in h.groups ==> h.groups[g] != ""
  }

  lemma CreateNames(db: Db, h: Hierarchy, op: Op, at: int)
    requires op.Create? && OrgsNonempty(h) && AllNamed(db)
    ensures AllNamed(Exec(db, h, op, at))
  {
  }

  /** In every state reachable by any run of the operations, each stored organization- or group-scope request
      names its approver. */
  lemma {:induction false} RunKeepsNames(db: Db, h: Hierarchy, ops: seq<Timed>)
    requires AllNamed(db) && OrgsNonempty(h)
    ensures AllNamed(RunAll(db, h, ops))
    decreases |ops|
  {
    if ops != [] {
      var front, last := ops[..|ops| - 1], ops[|ops| - 1];
      RunKeepsNames(db, h, front);
      var before := RunAll(db, h, front);
      if last.op.Create? {
        CreateNames(before, h, last.op, last.at);
      } else {
        ExecSameRequests(before, h, last.op, last.at);
        SameRequestsNamed(before, RunAll(db, h, ops));
      }
    }
  }

  /** So the system administrators' inbox holds a stored request exactly when the recipient lookup falls through
      to them, for every request of every reachable state and every membership table. */
  lemma StoredRequestsMirror(db: Db, h: Hierarchy, ops: seq<Timed>, s: Staff, id: Id)
    requires db.requests == map[] && OrgsNonempty(h) && IdsNonempty(s)
    requires id in RunAll(db, h, ops).requests
    ensures
      var r := RunAll(db, h, ops).requests[id];
      InSystemInbox(s, r.scope, r.fulfiller) <==> AnsweringTier(s, r.scope, r.fulfiller) == SystemTier
  {
    RunKeepsNames(db, h, ops);
    var r := RunAll(db, h, ops).requests[id];
    assert NamesApprover(r);
    if r.scope != SystemScope {
      InboxMirrorsRecipients(s, r.scope, r.fulfiller.value);
    }
  }

  // ---- a caller's roles are their own ----

  /** The hierarchy the membership rows describe; `gone` are the deleted users. */
  ghost function HierarchyOf(s: Staff, gone: set<Id>): Hierarchy
  {
    Hierarchy(s.groups,
              set i | 0 <= i < |s.rows| && s.rows[i].group.Some? :: (s.rows[i].user, s.rows[i].group.value),
              set i | 0 <= i < |s.rows| && s.rows[i].org.Some? :: (s.rows[i].user, s.rows[i].org.value),
              s.groups.Keys - s.live, gone)
  }

  predicate GroupsKnown(s: Staff)
  {
    forall i :: 0 <= i < |s.rows| && s.rows[i].group.Some? ==> s.rows[i].group.value in s.groups
  }

  lemma AdminBelongs(s: Staff, gone: set<Id>, user: Id, org: Id)
    requires org in AdminOrgs(s, user)
    ensures BelongsTo(HierarchyOf(s, gone), user, org)
  {
    var h := HierarchyOf(s, gone);
    var i :| 0 <= i < |s.rows| && CountsFor(s.rows[i], user) && s.rows[i].role == OrgAdmin
             && ((s.rows[i].group.None? && s.rows[i].org == Some(org))
                 || (s.rows[i].group.Some? && s.rows[i].group.value in s.groups && s.groups[s.rows[i].group.value] == org));
    if s.rows[i].group.Some? {
      assert (user, s.rows[i].group.value) in h.members;
    } else {
      assert (user, s.rows[i].org.value) in h.orgStaff;
    }
  }

  /** The roles resolved for a caller lie in organizations they belong to: what tenant-level operations assume of
      their callers holds of every caller who is not a system administrator. */
  lemma ResolvedRolesAreOwn(s: Staff, gone: set<Id>, user: Id)
    requires GroupsKnown(s)
    ensures RolesAreOwn(HierarchyOf(s, gone), user, Resolve(s, user))
  {
    var h, p := HierarchyOf(s, gone), Resolve(s, user);
    forall g | g in p.roles ensures g in h.groups && BelongsTo(h, user, h.groups[g]) {
      if g in RowGroups(s, user) {
        var i :| 0 <= i < |s.rows| && CountsFor(s.rows[i], user) && s.rows[i].group == Some(g);
        assert (s.rows[i].user, s.rows[i].group.value) in h.members;
      } else {
        AdminBelongs(s, gone, user, s.groups[g]);
      }
    }
  }

  // ---- who may move credit ----

  /** Between an organization's wallet and one of its groups': a system administrator, or whoever has an unexpired
      administrator row of the organization. */
  ghost predicate MayMoveOrgGroup(s: Staff, user: Id, org: Id, group: Id)
  {
    user in s.systemAdmins || (CurrentOrgAdmin(s, user, org) && group in s.groups && s.groups[group] == org)
  }

  /** Between a group's wallet and a member's: a system administrator, or an administrator of the group, by an
      unexpired row there or of its organization while the group is live; the owner must have a row in the group. */
  ghost predicate MayMoveGroupUser(s: Staff, user: Id, group: Id, owner: Id)
  {
    || user in s.systemAdmins
    || (&& (|| CurrentGroupAdmin(s, user, group)
            || (group in s.live && group in s.groups && CurrentOrgAdmin(s, user, s.groups[group])))
        && exists i :: 0 <= i < |s.rows| && s.rows[i].user == owner && s.rows[i].group == Some(group))
  }

  ghost predicate MayMove(s: Staff, user: Id, a: Wallet, b: Wallet)
  {
    match (a.ownerType, b.ownerType)
    case (Org, Group) => MayMoveOrgGroup(s, user, a.ownerId, b.ownerId)
    case (Group, Org) => MayMoveOrgGroup(s, user, b.ownerId, a.ownerId)
    case (Group, User) => MayMoveGroupUser(s, user, a.ownerId, b.ownerId)
    case (User, Group) => MayMoveGroupUser(s, user, b.ownerId, a.ownerId)
    case (_, _) => user in s.systemAdmins
  }

  lemma MemberRows(s: Staff, gone: set<Id>, owner: Id, group: Id)
    ensures (owner, group) in HierarchyOf(s, gone).members <==>
            exists i :: 0 <= i < |s.rows| && s.rows[i].user == owner && s.rows[i].group == Some(group)
  {
    if i :| 0 <= i < |s.rows| && s.rows[i].user == owner && s.rows[i].group == Some(group) {
      assert (s.rows[i].user, s.rows[i].group.value) in HierarchyOf(s, gone).members;
    }
  }

  lemma OrgGroupIff(s: Staff, gone: set<Id>, user: Id, org: Wallet, group: Wallet)
    requires TwoShapes(s) && org.ownerType == Org && group.ownerType == Group
    ensures OrgAndGroup(HierarchyOf(s, gone), Resolve(s, user), org, group) <==>
            CurrentOrgAdmin(s, user, org.ownerId) && group.ownerId in s.groups && s.groups[group.ownerId] == org.ownerId
  {
    OrgAdminAdministersIff(s, user, org.ownerId);
  }

  lemma GroupUserIff(s: Staff, gone: set<Id>, user: Id, group: Wallet, owner: Wallet)
    requires TwoShapes(s) && group.ownerType == Group && owner.ownerType == User
    ensures GroupAndUser(HierarchyOf(s, gone), Resolve(s, user), group, owner) <==>
            && (|| CurrentGroupAdmin(s, user, group.ownerId)
                || (&& group.ownerId in s.live && group.ownerId in s.groups
                    && CurrentOrgAdmin(s, user, s.groups[group.ownerId])))
            && exists i :: 0 <= i < |s.rows| && s.rows[i].user == owner.ownerId && s.rows[i].group == Some(group.ownerId)
  {
    AdministersIff(s, user, group.ownerId);
    MemberRows(s, gone, owner.ownerId, group.ownerId);
  }

  /** Who may move between two wallets, in terms of the membership rows. */
  lemma MayMoveIff(s: Staff, gone: set<Id>, user: Id, a: Wallet, b: Wallet)
    requires TwoShapes(s)
    ensures CanAllocate(HierarchyOf(s, gone), Resolve(s, user), a, b) <==> MayMove(s, user, a, b)
  {
    match (a.ownerType, b.ownerType) {
      case (Org, Group) => OrgGroupIff(s, gone, user, a, b);
      case (Group, Org) => OrgGroupIff(s, gone, user, b, a);
      case (Group, User) => GroupUserIff(s, gone, user, a, b);
      case (User, Group) => GroupUserIff(s, gone, user, b, a);
      case (_, _) =>
    }
  }

  /** A transfer or allocation whose caller is resolved from the rows: every answer it can give. */
  lemma MoveAnswers(db: Db, s: Staff, gone: set<Id>, user: Id, rail: Rail, src: Id, dst: Id, amount: int, idem: string, at: int)
    requires LedgerOk(db) && TwoShapes(s) && amount > 0
    ensures
      var out := Handle(db, HierarchyOf(s, gone), MoveReq(rail, Resolve(s, user), src, dst, amount, idem), at);
      var seen := HasKey(db.txns, MoveKey(rail, idem, "out"));
      var exist := src in db.wallets && dst in db.wallets;
      if src == dst then out == Fail(Validation)
      else if !exist then out == Fail(NotFound)
      else if seen then out == Replay
      else if !MayMove(s, user, db.wallets[src], db.wallets[dst]) then out == Fail(Forbidden)
      else if db.wallets[src].balance - db.wallets[src].reserved < amount then out == Fail(InsufficientCredit)
      else if HasKey(db.txns, MoveKey(rail, idem, "in")) then out == Fail(Conflict)
      else out.Done?
  {
    var h, p := HierarchyOf(s, gone), Resolve(s, user);
    var req := MoveReq(rail, p, src, dst, amount, idem);
    var legs := Legs(db, req);
    assert legs[0].wallet == src && legs[1].wallet == dst;
    if src in db.wallets && dst in db.wallets {
      MayMoveIff(s, gone, user, db.wallets[src], db.wallets[dst]);
      assert WalletSigma(db.wallets[dst]);
      assert Covers(db.wallets, legs[1]);
    }
  }
}
