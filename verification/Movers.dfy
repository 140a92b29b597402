/** The handlers that mint or move credit by request: topup, adjust, transfer, allocate and the
    approval of an allocation request, as one description each of their legs and their gates. */
module Movers {
  import opened Prelude
  import opened Sums
  import opened Ledger

  // ---- who may do what ----

  datatype Role = OrgAdmin | GroupAdmin | Member | Guest

  datatype Principal = Principal(superAdmin: bool, adminOrgs: set<Id>, roles: map<Id, Role>)
  {
    predicate Administers(group: Id)
    {
      group in roles && (roles[group] == GroupAdmin || roles[group] == OrgAdmin)
    }
  }

  /** The organization of each group, who belongs to which group, who is appointed at which organization, and
      the groups and users that are deleted while their rows stay. */
  datatype Hierarchy = Hierarchy(groups: map<Id, Id>, members: set<(Id, Id)>, orgStaff: set<(Id, Id)>,
                                 deletedGroups: set<Id>, deletedUsers: set<Id>)

  predicate OrgAndGroup(h: Hierarchy, p: Principal, org: Wallet, group: Wallet)
  {
    && org.ownerType == Org && group.ownerType == Group
    && org.ownerId in p.adminOrgs
    && group.ownerId in h.groups && h.groups[group.ownerId] == org.ownerId
  }

  predicate GroupAndUser(h: Hierarchy, p: Principal, group: Wallet, user: Wallet)
  {
    && group.ownerType == Group && user.ownerType == User
    && p.Administers(group.ownerId)
    && (user.ownerId, group.ownerId) in h.members
  }

  /** `_assert_can_allocate`: the direction does not matter. */
  predicate CanAllocate(h: Hierarchy, p: Principal, src: Wallet, dst: Wallet)
  {
    || p.superAdmin
    || OrgAndGroup(h, p, src, dst) || OrgAndGroup(h, p, dst, src)
    || GroupAndUser(h, p, src, dst) || GroupAndUser(h, p, dst, src)
  }

  predicate CanFulfill(p: Principal, r: AllocRequest)
  {
    || p.superAdmin
    || (r.scope == OrgScope && r.fulfiller.Some? && r.fulfiller.value in p.adminOrgs)
    || (r.scope == GroupScope && r.fulfiller.Some? && p.Administers(r.fulfiller.value))
  }

  // ---- requests ----

  datatype Rail = Transfer | Allocate
  {
    function Name(): string
    {
      if Transfer? then "transfer" else "allocate"
    }
  }

  datatype Request =
    | TopupReq(wallet: Id, amount: int, idem: string, note: Option<string>)
    | AdjustReq(wallet: Id, amount: int, idem: string, reason: Option<string>)
    | MoveReq(rail: Rail, caller: Principal, src: Id, dst: Id, amount: int, idem: string)
    | ApproveReq(id: Id, caller: Principal)

  /** What the body schemas accept: amounts are positive, and signed only for an adjustment. */
  predicate ValidRequest(req: Request)
  {
    match req
    case TopupReq(_, amount, _, _) => amount > 0
    case MoveReq(_, _, _, _, amount, _) => amount > 0
    case AdjustReq(_, amount, _, _) => amount != 0
    case ApproveReq(_, _) => true
  }

  function MoveKey(rail: Rail, idem: string, side: string): string
  {
    rail.Name() + ":" + idem + ":" + side
  }

  function AllocKey(id: Id, side: string): string
  {
    "alloc:" + id + side
  }

  lemma SidesDiffer(a: string, b: string)
    ensures a + "out" != b + "in" && a + ":out" != b + ":in" && a + ":out" != a && a + ":in" != a
  {
    assert (a + "out")[|a + "out"| - 1] == 't' && (b + "in")[|b + "in"| - 1] == 'n';
    assert (a + ":out")[|a + ":out"| - 1] == 't' && (b + ":in")[|b + ":in"| - 1] == 'n';
    assert |a + ":out"| == |a| + 4 && |a + ":in"| == |a| + 3;
  }

  /** UNIQUE(owner_type, owner_id). */
  ghost predicate OwnersUnique(wallets: map<Id, Wallet>)
  {
    forall a, b :: a in wallets && b in wallets
      && wallets[a].ownerType == wallets[b].ownerType && wallets[a].ownerId == wallets[b].ownerId
      ==> a == b
  }

  predicate Owns(wallets: map<Id, Wallet>, id: Id, ownerType: OwnerType, owner: Id)
  {
    id in wallets && wallets[id].ownerType == ownerType && wallets[id].ownerId == owner
  }

  ghost function WalletOf(wallets: map<Id, Wallet>, ownerType: OwnerType, owner: Id): Option<Id>
  {
    if exists id :: Owns(wallets, id, ownerType, owner) then
      var id :| Owns(wallets, id, ownerType, owner);
      Some(id)
    else None
  }

  /** The wallet an approval draws on. */
  ghost function Pool(db: Db, r: AllocRequest): Option<Id>
  {
    if r.fulfiller.None? || r.scope == SystemScope then None
    else WalletOf(db.wallets, if r.scope == GroupScope then Group else Org, r.fulfiller.value)
  }

  /** Rows `create_allocation_request` can have stored: the target sits one level below its pool. */
  ghost predicate RequestsOk(db: Db)
  {
    && OwnersUnique(db.wallets)
    && (forall id :: id in db.requests ==>
          var r := db.requests[id];
          && r.amount > 0
          && r.target in db.wallets
          && (r.scope == GroupScope ==> db.wallets[r.target].ownerType == User)
          && (r.scope == OrgScope ==> db.wallets[r.target].ownerType == Group))
  }

  ghost function Legs(db: Db, req: Request): seq<Leg>
  {
    match req
    case TopupReq(wallet, amount, idem, note) => [Leg(wallet, Topup, amount, note, idem)]
    case AdjustReq(wallet, amount, idem, reason) => [Leg(wallet, Adjust, amount, reason, idem)]
    case MoveReq(rail, _, src, dst, amount, idem) =>
      [Leg(src, Adjust, -amount, Some(rail.Name() + "-out:" + dst), MoveKey(rail, idem, "out")),
       Leg(dst, Adjust, amount, Some(rail.Name() + "-in:" + src), MoveKey(rail, idem, "in"))]
    case ApproveReq(id, _) =>
      if id !in db.requests then [] else
        var r := db.requests[id];
        var note := Some("alloc-req:" + id);
        if r.scope == SystemScope then [Leg(r.target, Topup, r.amount, note, AllocKey(id, ""))]
        else match Pool(db, r)
             case None => []
             case Some(pool) => [Leg(pool, Adjust, -r.amount, note, AllocKey(id, ":out")),
                                 Leg(r.target, Adjust, r.amount, note, AllocKey(id, ":in"))]
  }

  /** Checks made before any lock is taken. None means the handler goes on. */
  ghost function Precheck(db: Db, req: Request): Option<Outcome>
  {
    match req
    case TopupReq(wallet, _, idem, _) => Seen(db, idem, {wallet})
    case AdjustReq(wallet, _, idem, _) => Seen(db, idem, {wallet})
    case MoveReq(rail, _, src, dst, _, idem) =>
      if src == dst then Some(Fail(Validation))
      else Seen(db, MoveKey(rail, idem, "out"), {src, dst})
    case ApproveReq(id, caller) =>
      if id !in db.requests then Some(Fail(NotFound))
      else if db.requests[id].status != Pending then Some(Fail(Validation))
      else if !CanFulfill(caller, db.requests[id]) then Some(Fail(Forbidden))
      else if Legs(db, req) == [] then Some(Fail(NotFound))
      else None
  }

  ghost function Seen(db: Db, key: string, wallets: set<Id>): Option<Outcome>
  {
    if !HasKey(db.txns, key) then None
    else if wallets <= db.wallets.Keys then Some(Replay)
    else Some(Fail(NotFound))
  }

  predicate WalletsExist(wallets: map<Id, Wallet>, legs: seq<Leg>)
  {
    forall i :: 0 <= i < |legs| ==> legs[i].wallet in wallets
  }

  predicate Authorized(wallets: map<Id, Wallet>, h: Hierarchy, req: Request)
  {
    match req
    case MoveReq(_, caller, src, dst, _, _) =>
      src in wallets && dst in wallets && CanAllocate(h, caller, wallets[src], wallets[dst])
    case _ => true
  }

  predicate AllCovered(wallets: map<Id, Wallet>, legs: seq<Leg>)
  {
    forall i :: 0 <= i < |legs| ==> Covers(wallets, legs[i])
  }

  predicate KeysFree(txns: seq<Txn>, legs: seq<Leg>)
  {
    forall i :: 0 <= i < |legs| ==> !HasKey(txns, legs[i].key)
  }

  function ShortOf(req: Request): Error
  {
    if req.AdjustReq? then Validation else if req.ApproveReq? then InsufficientPool
    else InsufficientCredit
  }

  function PostAll(db: Db, legs: seq<Leg>, at: int): Db
    requires WalletsExist(db.wallets, legs)
    decreases |legs|
  {
    if legs == [] then db else
      assert forall i :: 0 <= i < |legs[1..]| ==> legs[1..][i] == legs[i + 1];
      PostAll(Post(db, legs[0], at), legs[1..], at)
  }

  /** An approval also stamps its request row. */
  function Stamp(db: Db, req: Request): Db
  {
    if req.ApproveReq? && req.id in db.requests then
      db.(requests := db.requests[req.id := db.requests[req.id].(status := Approved)])
    else db
  }

  /** The whole handler, run alone. */
  ghost function Handle(db: Db, h: Hierarchy, req: Request, at: int): Outcome
  {
    var legs := Legs(db, req);
    if Precheck(db, req).Some? then Precheck(db, req).value
    else if !WalletsExist(db.wallets, legs) then Fail(NotFound)
    else if !Authorized(db.wallets, h, req) then Fail(Forbidden)
    else if !AllCovered(db.wallets, legs) then Fail(ShortOf(req))
    else if !KeysFree(db.txns, legs) then Fail(Conflict)
    else Done(Stamp(PostAll(db, legs, at), req))
  }

  // ---- legs of one request never meet ----

  predicate LegsApart(legs: seq<Leg>)
  {
    && (forall i :: 0 <= i < |legs| ==> MovesBalance(legs[i].kind))
    && (forall i, j :: 0 <= i < j < |legs| ==>
          legs[i].wallet != legs[j].wallet && legs[i].key != legs[j].key)
  }

  lemma PoolOwner(db: Db, r: AllocRequest)
    ensures Pool(db, r).Some? ==>
              Owns(db.wallets, Pool(db, r).value, if r.scope == GroupScope then Group else Org,
                   r.fulfiller.value)
  {
  }

  lemma LegsAreApart(db: Db, req: Request)
    requires RequestsOk(db)
    requires req.MoveReq? ==> req.src != req.dst
    ensures LegsApart(Legs(db, req))
  {
    match req {
      case MoveReq(rail, _, _, _, _, idem) =>
        SidesDiffer(rail.Name() + ":" + idem + ":", rail.Name() + ":" + idem + ":");
      case ApproveReq(id, _) =>
        SidesDiffer("alloc:" + id, "alloc:" + id);
        if id in db.requests {
          PoolOwner(db, db.requests[id]);
        }
      case _ =>
    }
  }

  lemma {:induction false} PostAllKeepsLedger(db: Db, legs: seq<Leg>, at: int)
    requires LedgerOk(db) && LegsApart(legs) && AllCovered(db.wallets, legs)
    requires KeysFree(db.txns, legs)
    ensures LedgerOk(PostAll(db, legs, at))
    decreases |legs|
  {
    if legs != [] {
      assert Covers(db.wallets, legs[0]);
      PostKeepsLedger(db, legs[0], at);
      var next, rest := Post(db, legs[0], at), legs[1..];
      forall i | 0 <= i < |rest|
        ensures Covers(next.wallets, rest[i]) && !HasKey(next.txns, rest[i].key)
      {
        assert rest[i] == legs[i + 1] && Covers(db.wallets, legs[i + 1]);
        HasKeyAppend(db.txns, next.txns[|db.txns|], rest[i].key);
      }
      PostAllKeepsLedger(next, rest, at);
    }
  }

  // ---- what every handler keeps ----

  lemma HandleKeepsLedger(db: Db, h: Hierarchy, req: Request, at: int)
    requires LedgerOk(db) && RequestsOk(db)
    ensures LedgerOk(Handle(db, h, req, at).After(db))
  {
    if Handle(db, h, req, at).Done? {
      LegsAreApart(db, req);
      PostAllKeepsLedger(db, Legs(db, req), at);
    }
  }

  /** The parts of the tables no handler ever changes. */
  ghost predicate SameShape(a: Db, b: Db)
  {
    && a.wallets.Keys == b.wallets.Keys
    && (forall id :: id in a.wallets ==>
          && a.wallets[id].ownerType == b.wallets[id].ownerType
          && a.wallets[id].ownerId == b.wallets[id].ownerId)
    && a.requests.Keys == b.requests.Keys
    && (forall id :: id in a.requests ==>
          a.requests[id].(status := Pending) == b.requests[id].(status := Pending))
  }

  lemma {:induction false} PostAllShape(db: Db, legs: seq<Leg>, at: int)
    requires WalletsExist(db.wallets, legs)
    ensures SameShape(db, PostAll(db, legs, at))
    ensures PostAll(db, legs, at).requests == db.requests
    ensures PostAll(db, legs, at).topups == db.topups
    decreases |legs|
  {
    if legs != [] {
      assert forall i :: 0 <= i < |legs[1..]| ==> legs[1..][i] == legs[i + 1];
      PostAllShape(Post(db, legs[0], at), legs[1..], at);
    }
  }

  lemma HandleShape(db: Db, h: Hierarchy, req: Request, at: int)
    ensures SameShape(db, Handle(db, h, req, at).After(db))
  {
    if Handle(db, h, req, at).Done? {
      PostAllShape(db, Legs(db, req), at);
    }
  }

  /** Same owners and same requests, so the request rows stay well formed. */
  lemma ShapeKeepsRequests(db: Db, db': Db)
    requires RequestsOk(db) && SameShape(db, db')
    ensures RequestsOk(db')
  {
    forall id | id in db'.requests
      ensures db'.requests[id].amount == db.requests[id].amount
      ensures db'.requests[id].target == db.requests[id].target
      ensures db'.requests[id].scope == db.requests[id].scope
    {
      assert db.requests[id].(status := Pending) == db'.requests[id].(status := Pending);
    }
  }

  lemma HandleKeepsShape(db: Db, h: Hierarchy, req: Request, at: int)
    requires RequestsOk(db)
    ensures SameShape(db, Handle(db, h, req, at).After(db))
    ensures RequestsOk(Handle(db, h, req, at).After(db))
  {
    HandleShape(db, h, req, at);
    ShapeKeepsRequests(db, Handle(db, h, req, at).After(db));
  }

  /** Legs are computed from the unchanging parts alone. */
  lemma ShapeFixesLegs(a: Db, b: Db, req: Request)
    requires SameShape(a, b) && OwnersUnique(a.wallets)
    ensures Legs(a, req) == Legs(b, req)
  {
    if req.ApproveReq? && req.id in a.requests {
      var r, r' := a.requests[req.id], b.requests[req.id];
      assert r.(status := Pending) == r'.(status := Pending);
      if r.scope != SystemScope && r.fulfiller.Some? {
        var ot := if r.scope == GroupScope then Group else Org;
        assert forall id :: Owns(a.wallets, id, ot, r.fulfiller.value)
                       <==> Owns(b.wallets, id, ot, r.fulfiller.value);
      }
    }
  }

  // ---- conservation ----

  /** Wallet-to-wallet movements: everything except minting and adjusting. */
  predicate MovesBetweenWallets(db: Db, req: Request)
  {
    req.MoveReq? || (req.ApproveReq? && req.id in db.requests
                     && db.requests[req.id].scope != SystemScope)
  }

  lemma PostTwo(db: Db, legs: seq<Leg>, at: int)
    requires |legs| == 2 && WalletsExist(db.wallets, legs)
    ensures legs[1].wallet in Post(db, legs[0], at).wallets
    ensures PostAll(db, legs, at) == Post(Post(db, legs[0], at), legs[1], at)
  {
    var mid, rest := Post(db, legs[0], at), legs[1..];
    assert rest[0] == legs[1] && rest[1..] == [];
    assert PostAll(mid, rest, at) == PostAll(Post(mid, rest[0], at), rest[1..], at);
  }

  /** A movement takes from one wallet what it gives to the other, so any set of wallets holding
      both ends, and any set holding neither, keeps its total. */
  lemma MoveConserves(db: Db, h: Hierarchy, req: Request, at: int, s: set<Id>)
    requires MovesBetweenWallets(db, req) && Handle(db, h, req, at).Done?
    requires Legs(db, req)[0].wallet in s <==> Legs(db, req)[1].wallet in s
    ensures Sum(s, BalanceOf(Handle(db, h, req, at).db)) == Sum(s, BalanceOf(db))
  {
    var legs := Legs(db, req);
    PostTwo(db, legs, at);
    var mid := Post(db, legs[0], at);
    PostMovesSum(db, legs[0], at, s);
    PostMovesSum(mid, legs[1], at, s);
    var last := Post(mid, legs[1], at);
    SumAgree(s, BalanceOf(last), BalanceOf(Stamp(last, req)));
  }

  lemma MoveKeepsTotal(db: Db, h: Hierarchy, req: Request, at: int)
    requires MovesBetweenWallets(db, req)
    ensures Total(Handle(db, h, req, at).After(db)) == Total(db)
  {
    if Handle(db, h, req, at).Done? {
      MoveConserves(db, h, req, at, db.wallets.Keys);
      PostAllShape(db, Legs(db, req), at);
    }
  }

  // ---- tenant isolation ----

  /** A user belongs to an organization through a group of it or an appointment there. */
  ghost predicate BelongsTo(h: Hierarchy, user: Id, org: Id)
  {
    (user, org) in h.orgStaff || exists g :: (user, g) in h.members && g in h.groups && h.groups[g] == org
  }

  /** The organization a wallet's money belongs to. */
  ghost predicate InOrg(h: Hierarchy, w: Wallet, org: Id)
  {
    match w.ownerType
    case System => false
    case Org => w.ownerId == org
    case Group => w.ownerId in h.groups && h.groups[w.ownerId] == org
    case User => BelongsTo(h, w.ownerId, org)
  }

  /** Every membership is in a known group, and no user belongs to two organizations. */
  ghost predicate OneOrgPerUser(h: Hierarchy)
  {
    && (forall u, g :: (u, g) in h.members ==> g in h.groups)
    && (forall u, org, org' :: BelongsTo(h, u, org) && BelongsTo(h, u, org') ==> org == org')
  }

  lemma MemberBelongs(h: Hierarchy, user: Id, group: Id)
    requires OneOrgPerUser(h) && (user, group) in h.members
    ensures group in h.groups && BelongsTo(h, user, h.groups[group])
  {
  }

  ghost function OrgWallets(db: Db, h: Hierarchy, org: Id): set<Id>
  {
    set id | id in db.wallets && InOrg(h, db.wallets[id], org)
  }

  ghost function OrgTotal(db: Db, h: Hierarchy, org: Id): int
  {
    Sum(OrgWallets(db, h, org), BalanceOf(db))
  }

  lemma PairInOneOrg(h: Hierarchy, p: Principal, src: Wallet, dst: Wallet, org: Id)
    requires OneOrgPerUser(h) && !p.superAdmin && CanAllocate(h, p, src, dst)
    ensures InOrg(h, src, org) <==> InOrg(h, dst, org)
  {
    if GroupAndUser(h, p, src, dst) {
      MemberBelongs(h, dst.ownerId, src.ownerId);
    }
    if GroupAndUser(h, p, dst, src) {
      MemberBelongs(h, src.ownerId, dst.ownerId);
    }
  }

  /** The target of a request is in the organization of the pool it draws on. */
  ghost predicate AtHome(wallets: map<Id, Wallet>, h: Hierarchy, r: AllocRequest)
  {
    match r.scope
    case SystemScope => true
    case GroupScope =>
      && r.target in wallets && wallets[r.target].ownerType == User
      && r.fulfiller.Some? && r.fulfiller.value in h.groups
      && BelongsTo(h, wallets[r.target].ownerId, h.groups[r.fulfiller.value])
    case OrgScope =>
      && r.target in wallets && wallets[r.target].ownerType == Group
      && wallets[r.target].ownerId in h.groups && r.fulfiller == Some(h.groups[wallets[r.target].ownerId])
  }

  ghost predicate RequestsAtHome(db: Db, h: Hierarchy)
  {
    forall id :: id in db.requests ==> AtHome(db.wallets, h, db.requests[id])
  }

  /** Nothing that keeps owners and requests changes where requests are at home. */
  lemma ShapeKeepsHome(a: Db, b: Db, h: Hierarchy)
    requires SameShape(a, b) && RequestsAtHome(a, h)
    ensures RequestsAtHome(b, h)
  {
    forall id | id in b.requests ensures AtHome(b.wallets, h, b.requests[id]) {
      assert a.requests[id].(status := Pending) == b.requests[id].(status := Pending);
      assert AtHome(a.wallets, h, a.requests[id]);
    }
  }

  /** Movements by anyone but a system administrator, and approvals that draw on a pool. */
  predicate TenantLevel(db: Db, req: Request)
  {
    match req
    case MoveReq(_, caller, _, _, _, _) => !caller.superAdmin
    case ApproveReq(id, _) => id in db.requests ==> db.requests[id].scope != SystemScope
    case _ => false
  }

  datatype Level = UserLevel | GroupLevel | OrgLevel

  /** `create_allocation_request`: a request climbs exactly one level. */
  ghost function CreateRequest(db: Db, h: Hierarchy, user: Id, p: Principal, level: Level,
                               group: Id, amount: int, id: Id): Outcome
  {
    if level == OrgLevel || group == "" then Fail(Validation)
    else if level == UserLevel then
      if !p.superAdmin && group !in p.roles then Fail(Forbidden)
      else match WalletOf(db.wallets, User, user)
           case None => Fail(NotFound)
           case Some(w) => Done(db.(requests := db.requests[
               id := AllocRequest(w, GroupScope, Some(group), amount, Pending)]))
    else if !p.superAdmin && !p.Administers(group) then Fail(Forbidden)
    else if group !in h.groups then Fail(NotFound)
    else match WalletOf(db.wallets, Group, group)
         case None => Fail(NotFound)
         case Some(w) => Done(db.(requests := db.requests[
             id := AllocRequest(w, OrgScope, Some(h.groups[group]), amount, Pending)]))
  }

  /** A caller's roles are in groups of organizations they belong to. */
  ghost predicate RolesAreOwn(h: Hierarchy, user: Id, p: Principal)
  {
    forall g :: g in p.roles ==> g in h.groups && BelongsTo(h, user, h.groups[g])
  }

  /** A stored request draws on the level directly above its target, names its approver, and is at home in the
      caller's own organization unless a system administrator raised it for themselves. */
  lemma CreatedRequestIsOneLevelUp(db: Db, h: Hierarchy, user: Id, p: Principal, level: Level,
                                   group: Id, amount: int, id: Id)
    requires RequestsOk(db) && amount > 0 && id !in db.requests
    ensures
      var out := CreateRequest(db, h, user, p, level, group, amount, id);
      && RequestsOk(out.After(db))
      && (out.Done? ==>
            && out.db == db.(requests := db.requests[id := out.db.requests[id]])
            && out.db.requests[id].scope == (if level == UserLevel then GroupScope else OrgScope)
            && out.db.requests[id].fulfiller.Some?
            && (level == UserLevel ==> out.db.requests[id].fulfiller.value == group != "")
            && (level == GroupLevel ==> group in h.groups && out.db.requests[id].fulfiller.value == h.groups[group])
            && ((level == GroupLevel || (!p.superAdmin && RolesAreOwn(h, user, p))) ==>
                  AtHome(out.db.wallets, h, out.db.requests[id])))
  {
  }

  lemma PoolHoldsTarget(db: Db, h: Hierarchy, r: AllocRequest, org: Id)
    requires OneOrgPerUser(h) && AtHome(db.wallets, h, r) && Pool(db, r).Some?
    ensures InOrg(h, db.wallets[Pool(db, r).value], org) <==> InOrg(h, db.wallets[r.target], org)
  {
    PoolOwner(db, r);
  }

  /** A tenant-level movement keeps every organization's own total. */
  lemma MoveKeepsOrgTotals(db: Db, h: Hierarchy, req: Request, at: int, org: Id)
    requires OneOrgPerUser(h) && RequestsAtHome(db, h) && TenantLevel(db, req)
    ensures OrgTotal(Handle(db, h, req, at).After(db), h, org) == OrgTotal(db, h, org)
  {
    if Handle(db, h, req, at).Done? {
      var db' := Handle(db, h, req, at).db;
      var legs := Legs(db, req);
      if req.MoveReq? {
        PairInOneOrg(h, req.caller, db.wallets[req.src], db.wallets[req.dst], org);
      } else {
        assert AtHome(db.wallets, h, db.requests[req.id]);
        PoolOwner(db, db.requests[req.id]);
        PoolHoldsTarget(db, h, db.requests[req.id], org);
      }
      assert Covers(db.wallets, legs[0]) && Covers(db.wallets, legs[1]);
      MoveConserves(db, h, req, at, OrgWallets(db, h, org));
      PostAllShape(db, legs, at);
      assert OrgWallets(db', h, org) == OrgWallets(db, h, org);
    }
  }
}
