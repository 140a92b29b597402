/** Every operation that touches the credit tables, and what holds after any run of them. */
module Operations {
  import opened Prelude
  import opened Sums
  import opened Ledger
  import opened Movers
  import opened Engine
  import opened Reservations
  import opened Bulk
  import opened Grants
  import opened Refill

  // ---- approvals of minted credit, and credit on joining a group ----

  function TopupReqKey(id: Id): string { "topup-req:" + id }

  /** `approve_topup_request`: credits exactly once on the request's own key. */
  function ApproveTopup(db: Db, id: Id, at: int): Outcome
  {
    if id !in db.topups then Fail(NotFound)
    else
      var r := db.topups[id];
      if HasKey(db.txns, TopupReqKey(id)) || r.status == Approved then
        if r.wallet in db.wallets then Replay else Fail(NotFound)
      else if r.status == Rejected then Fail(Validation)
      else if r.wallet !in db.wallets then Fail(NotFound)
      else
        var paid := Post(db, Leg(r.wallet, Topup, r.amount, Some("topup-req:" + id), TopupReqKey(id)), at);
        Done(paid.(topups := paid.topups[id := r.(status := Approved)]))
  }

  function RejectTopup(db: Db, id: Id): Outcome
  {
    if id !in db.topups then Fail(NotFound)
    else if db.topups[id].status == Approved then Fail(Validation)
    else Done(db.(topups := db.topups[id := db.topups[id].(status := Rejected)]))
  }

  function RejectAllocation(db: Db, id: Id, caller: Principal): Outcome
  {
    if id !in db.requests then Fail(NotFound)
    else if db.requests[id].status != Pending then Fail(Validation)
    else if !CanFulfill(caller, db.requests[id]) then Fail(Forbidden)
    else Done(db.(requests := db.requests[id := db.requests[id].(status := Rejected)]))
  }

  function WelcomeKey(group: Id, user: Id): string { "welcome:" + group + ":" + user }

  /** `grant_welcome_credit`: minted once per group and user. */
  ghost function Welcome(db: Db, group: Id, user: Id, amount: int, at: int): Db
  {
    if amount <= 0 || HasKey(db.txns, WelcomeKey(group, user)) then db
    else match WalletOf(db.wallets, User, user)
         case None => db
         case Some(w) => Post(db, Leg(w, Topup, amount, Some("welcome:" + group), WelcomeKey(group, user)), at)
  }

  function MemberGrantLegs(src: Id, dst: Id, amount: int, membership: Id): seq<Leg>
  {
    [Leg(src, Adjust, -amount, Some("member-grant-out:" + dst), "member-grant:" + membership + ":out"),
     Leg(dst, Adjust, amount, Some("member-grant-in:" + src), "member-grant:" + membership + ":in")]
  }

  /** The credit side of `add_membership`: the welcome mint, then the move from the group's wallet. */
  ghost function Join(db: Db, group: Id, user: Id, welcome: int, grant: int, membership: Id, at: int): Outcome
  {
    var welcomed := Welcome(db, group, user, welcome, at);
    if grant <= 0 then Done(welcomed)
    else match (WalletOf(db.wallets, Group, group), WalletOf(db.wallets, User, user))
         case (Some(src), Some(dst)) =>
           var legs := MemberGrantLegs(src, dst, grant, membership);
           if !WalletsExist(welcomed.wallets, legs) then Fail(Validation)
           else if welcomed.wallets[src].balance - welcomed.wallets[src].reserved < grant then Fail(InsufficientCredit)
           else if !KeysFree(welcomed.txns, legs) then Fail(Conflict)
           else Done(PostAll(welcomed, legs, at))
         case (_, _) => Fail(Validation)
  }

  // ---- the operations ----

  datatype Op =
    | Ask(req: Request)
    | Create(user: Id, caller: Principal, level: Level, group: Id, amount: int, id: Id)
    | Reject(id: Id, caller: Principal)
    | TopupApproval(id: Id)
    | TopupRejection(id: Id)
    | JoinGroup(group: Id, user: Id, welcome: int, grant: int, membership: Id)
    | FundMembers(src: Id, members: seq<Id>, amount: int, idem: string)
    | GrantOne(id: Id, caller: Principal, pick: Option<Id>, amount: int, nonce: string)
    | GrantMembers(pool: Id, members: seq<Id>, amount: int, nonce: string)
    | MonthlySweep(index: seq<Id>, tag: string)
    | OpenSession(wallet: Id, amount: int, sid: Id)
    | BillMinute(session: Session, bucket: string)
    | CloseSession(session: Session, final: bool, nonce: string)

  ghost function Exec(db: Db, h: Hierarchy, op: Op, at: int): Db
  {
    match op
    case Ask(req) => Handle(db, h, req, at).After(db)
    case Create(user, caller, level, group, amount, id) =>
      if id in db.requests then db
      else CreateRequest(db, h, user, caller, level, group, amount, id).After(db)
    case Reject(id, caller) => RejectAllocation(db, id, caller).After(db)
    case TopupApproval(id) => ApproveTopup(db, id, at).After(db)
    case TopupRejection(id) => RejectTopup(db, id).After(db)
    case JoinGroup(group, user, welcome, grant, membership) =>
      Join(db, group, user, welcome, grant, membership, at).After(db)
    case FundMembers(src, members, amount, idem) =>
      if Ready(db, src, members) then FundAll(db, src, members, amount, idem, at).After(db) else db
    case GrantOne(id, caller, pick, amount, nonce) =>
      if id !in db.wallets then db
      else SetGrant(db, id, ScopeOf(db, h, caller, id, pick), amount, nonce, at).After(db)
    case GrantMembers(pool, members, amount, nonce) =>
      if pool in db.wallets && (forall i :: 0 <= i < |members| ==> members[i] in db.wallets) then
        BulkGrant(db, pool, members, amount, nonce, at).After(db)
      else db
    case MonthlySweep(index, tag) => Sweep(db, Eligible(db, index), tag, at)
    case OpenSession(wallet, amount, session) => PlaceHold(db, wallet, amount, session, at).After(db)
    case BillMinute(session, bucket) => Tick(db, session, bucket, at)
    case CloseSession(session, final, nonce) => Settled(db, session, final, at, nonce)
  }

  /** What the request schemas and the callers of the engine guarantee. A hold is placed when its
      session is created, and a session is always billed to one wallet. */
  ghost predicate Accepts(billing: Billing, db: Db, op: Op)
  {
    match op
    case Ask(req) => ValidRequest(req)
    case Create(_, _, _, _, amount, _) => amount > 0
    case FundMembers(_, _, amount, _) => amount > 0
    case GrantOne(_, _, _, amount, _) => amount >= 0
    case GrantMembers(_, _, amount, _) => amount >= 0
    case OpenSession(wallet, amount, session) => amount >= 0 && Opens(billing, db, wallet, session)
    case BillMinute(session, _) => BilledTo(billing, session)
    case CloseSession(session, _, _) => BilledTo(billing, session)
    case _ => true
  }

  ghost predicate TopupsOk(db: Db)
  {
    forall id :: id in db.topups ==> db.topups[id].amount > 0
  }

  ghost predicate DbOk(billing: Billing, db: Db)
  {
    LedgerOk(db) && RequestsOk(db) && TopupsOk(db) && Backed(billing, db)
  }

  // ---- every operation keeps the tables in order ----

  lemma {:induction false} PostAllPlain(db: Db, legs: seq<Leg>, at: int)
    requires WalletsExist(db.wallets, legs)
    requires forall i :: 0 <= i < |legs| ==> legs[i].kind == Topup || legs[i].kind == Adjust
    ensures Plain(db, PostAll(db, legs, at))
    decreases |legs|
  {
    if legs != [] {
      var next := Post(db, legs[0], at);
      assert forall i :: 0 <= i < |legs[1..]| ==> legs[1..][i] == legs[i + 1];
      PostAllPlain(next, legs[1..], at);
      PlainTransitive(db, next, PostAll(db, legs, at));
    }
  }

  lemma HandlePlain(db: Db, h: Hierarchy, req: Request, at: int)
    ensures Plain(db, Handle(db, h, req, at).After(db))
  {
    if Handle(db, h, req, at).Done? {
      PostAllPlain(db, Legs(db, req), at);
    }
  }

  lemma PlainStep(billing: Billing, db: Db, db': Db)
    requires DbOk(billing, db) && LedgerOk(db') && Plain(db, db') && SameShape(db, db') && TopupsOk(db')
    ensures DbOk(billing, db')
  {
    PlainKeepsBacked(billing, db, db');
    ShapeKeepsRequests(db, db');
  }

  lemma ApproveTopupKeeps(billing: Billing, db: Db, id: Id, at: int)
    requires DbOk(billing, db)
    ensures DbOk(billing, ApproveTopup(db, id, at).After(db))
  {
    var out := ApproveTopup(db, id, at);
    if out.Done? {
      var r := db.topups[id];
      var leg := Leg(r.wallet, Topup, r.amount, Some("topup-req:" + id), TopupReqKey(id));
      PostKeepsLedger(db, leg, at);
      PlainStep(billing, db, out.db);
    }
  }

  lemma WelcomeKeeps(billing: Billing, db: Db, group: Id, user: Id, amount: int, at: int)
    requires DbOk(billing, db)
    ensures DbOk(billing, Welcome(db, group, user, amount, at))
    ensures SameShape(db, Welcome(db, group, user, amount, at))
  {
    var db' := Welcome(db, group, user, amount, at);
    if |db'.txns| > |db.txns| {
      var w := WalletOf(db.wallets, User, user).value;
      var leg := Leg(w, Topup, amount, Some("welcome:" + group), WelcomeKey(group, user));
      PostKeepsLedger(db, leg, at);
      PlainStep(billing, db, db');
    }
  }

  lemma MemberGrantKeeps(billing: Billing, db: Db, src: Id, dst: Id, grant: int, membership: Id, at: int)
    requires DbOk(billing, db) && grant > 0 && src != dst && src in db.wallets
    requires WalletsExist(db.wallets, MemberGrantLegs(src, dst, grant, membership))
    requires grant <= db.wallets[src].balance - db.wallets[src].reserved
    requires KeysFree(db.txns, MemberGrantLegs(src, dst, grant, membership))
    ensures DbOk(billing, PostAll(db, MemberGrantLegs(src, dst, grant, membership), at))
  {
    var legs := MemberGrantLegs(src, dst, grant, membership);
    SidesDiffer("member-grant:" + membership, "member-grant:" + membership);
    assert Covers(db.wallets, legs[0]) && Covers(db.wallets, legs[1]);
    PostAllKeepsLedger(db, legs, at);
    PostAllPlain(db, legs, at);
    PostAllShape(db, legs, at);
    PlainStep(billing, db, PostAll(db, legs, at));
  }

  lemma JoinKeeps(billing: Billing, db: Db, group: Id, user: Id, welcome: int, grant: int, membership: Id, at: int)
    requires DbOk(billing, db)
    ensures DbOk(billing, Join(db, group, user, welcome, grant, membership, at).After(db))
  {
    var welcomed := Welcome(db, group, user, welcome, at);
    WelcomeKeeps(billing, db, group, user, welcome, at);
    var out := Join(db, group, user, welcome, grant, membership, at);
    if out.Done? && grant > 0 {
      var src, dst := WalletOf(db.wallets, Group, group).value, WalletOf(db.wallets, User, user).value;
      assert Owns(db.wallets, src, Group, group) && Owns(db.wallets, dst, User, user);
      MemberGrantKeeps(billing, welcomed, src, dst, grant, membership, at);
    }
  }

  lemma {:induction false} FundAllShape(db: Db, src: Id, ws: seq<Id>, amount: int, idem: string, at: int)
    requires Ready(db, src, ws)
    ensures
      var db' := FundAll(db, src, ws, amount, idem, at).After(db);
      SameShape(db, db') && db'.topups == db.topups && db'.requests == db.requests
    decreases |ws|
  {
    if ws != [] {
      if HasKey(db.txns, OutKey(idem, ws[0])) {
        FundAllShape(db, src, ws[1..], amount, idem, at);
      } else if Available(db, src) >= amount && !HasKey(db.txns, InKey(idem, ws[0])) {
        FundAllShape(Fund(db, src, ws[0], amount, idem, at), src, ws[1..], amount, idem, at);
      }
    }
  }

  lemma {:induction false} GrantEachShape(db: Db, order: seq<Id>, amount: int, nonce: string, at: int)
    requires forall i :: 0 <= i < |order| ==> order[i] in db.wallets
    ensures
      var db' := GrantEach(db, order, amount, nonce, at).After(db);
      SameShape(db, db') && db'.topups == db.topups && db'.requests == db.requests
    decreases |order|
  {
    if order != [] && !HasKey(db.txns, GrantKey(order[0], nonce)) {
      GrantEachShape(Granted(db, order[0], amount, nonce, at), order[1..], amount, nonce, at);
    }
  }

  lemma {:induction false} SweepShape(db: Db, ids: seq<Id>, tag: string, at: int)
    ensures SameShape(db, Sweep(db, ids, tag, at)) && Sweep(db, ids, tag, at).topups == db.topups
    ensures Sweep(db, ids, tag, at).requests == db.requests
    decreases |ids|
  {
    if ids != [] {
      SweepShape(db, ids[..|ids| - 1], tag, at);
    }
  }

  lemma EngineStep(billing: Billing, db: Db, db': Db)
    requires DbOk(billing, db) && LedgerOk(db') && Backed(billing, db')
    requires SameShape(db, db') && db'.topups == db.topups
    ensures DbOk(billing, db')
  {
    ShapeKeepsRequests(db, db');
  }

  /** The ledger and the backing read the wallets and the rows only. */
  lemma SameTables(billing: Billing, db: Db, db': Db)
    requires LedgerOk(db) && Backed(billing, db)
    requires db'.wallets == db.wallets && db'.txns == db.txns
    ensures LedgerOk(db') && Backed(billing, db')
  {
    forall i | 0 <= i < |db'.txns| ensures RowOk(db'.txns, i) {
      assert RowOk(db.txns, i);
    }
  }

  lemma HoldShape(db: Db, wallet: Id, amount: int, session: Id, at: int)
    ensures SameShape(db, PlaceHold(db, wallet, amount, session, at).After(db))
    ensures PlaceHold(db, wallet, amount, session, at).After(db).topups == db.topups
  {
  }

  lemma OpenKeeps(billing: Billing, db: Db, wallet: Id, amount: int, session: Id, at: int)
    requires DbOk(billing, db) && amount >= 0 && Opens(billing, db, wallet, session)
    ensures DbOk(billing, PlaceHold(db, wallet, amount, session, at).After(db))
  {
    HoldKeepsLedger(db, wallet, amount, session, at);
    HoldKeepsBacked(billing, db, wallet, amount, session, at);
    HoldShape(db, wallet, amount, session, at);
    EngineStep(billing, db, PlaceHold(db, wallet, amount, session, at).After(db));
  }

  lemma BillKeeps(billing: Billing, db: Db, session: Session, bucket: string, at: int)
    requires DbOk(billing, db) && BilledTo(billing, session)
    ensures DbOk(billing, Tick(db, session, bucket, at))
  {
    TickKeepsLedger(db, session, bucket, at);
    TickKeepsBacked(billing, db, session, bucket, at);
    EngineStep(billing, db, Tick(db, session, bucket, at));
  }

  /** A charge and a release change one wallet's figures and add at most a row each. */
  lemma ChargedRows(db: Db, session: Session, final: bool, at: int)
    requires session.wallet.Some? && session.wallet.value in db.wallets
    ensures var db' := Charged(db, session, final, at);
            SameShape(db, db') && db.txns <= db'.txns && db'.topups == db.topups && db'.requests == db.requests
  {
  }

  lemma ReleasedRows(db: Db, wallet: Id, session: Id, nonce: string, at: int)
    requires wallet in db.wallets
    ensures var db' := GiveBack(db, wallet, session, nonce, at);
            SameShape(db, db') && db.txns <= db'.txns && db'.topups == db.topups && db'.requests == db.requests
  {
  }

  lemma SettledRows(db: Db, session: Session, final: bool, at: int, nonce: string)
    ensures var db' := Settled(db, session, final, at, nonce);
            SameShape(db, db') && db.txns <= db'.txns && db'.topups == db.topups && db'.requests == db.requests
  {
    if SettleActs(db, session, final, at, nonce) {
      ChargedRows(db, session, final, at);
      ReleasedRows(Charged(db, session, final, at), session.wallet.value, session.id, nonce, at);
    }
  }

  lemma CloseKeeps(billing: Billing, db: Db, session: Session, final: bool, at: int, nonce: string)
    requires DbOk(billing, db) && BilledTo(billing, session)
    ensures DbOk(billing, Settled(db, session, final, at, nonce))
  {
    SettleKeepsLedger(db, session, final, at, nonce);
    SettleExactIff(billing, db, session, final, at, nonce);
    SettledRows(db, session, final, at, nonce);
    EngineStep(billing, db, Settled(db, session, final, at, nonce));
  }

  lemma AskKeeps(billing: Billing, db: Db, h: Hierarchy, req: Request, at: int)
    requires DbOk(billing, db)
    ensures DbOk(billing, Handle(db, h, req, at).After(db))
  {
    HandleKeepsLedger(db, h, req, at);
    HandlePlain(db, h, req, at);
    HandleKeepsShape(db, h, req, at);
    HandleKeepsTopups(db, h, req, at);
    PlainStep(billing, db, Handle(db, h, req, at).After(db));
  }

  lemma CreateKeeps(billing: Billing, db: Db, h: Hierarchy, user: Id, caller: Principal, level: Level,
                    group: Id, amount: int, id: Id)
    requires DbOk(billing, db) && amount > 0 && id !in db.requests
    ensures DbOk(billing, CreateRequest(db, h, user, caller, level, group, amount, id).After(db))
  {
    CreatedRequestIsOneLevelUp(db, h, user, caller, level, group, amount, id);
    SameTables(billing, db, CreateRequest(db, h, user, caller, level, group, amount, id).After(db));
  }

  lemma RejectAllocationKeeps(billing: Billing, db: Db, id: Id, caller: Principal)
    requires DbOk(billing, db)
    ensures DbOk(billing, RejectAllocation(db, id, caller).After(db))
  {
    var db' := RejectAllocation(db, id, caller).After(db);
    SameTables(billing, db, db');
    RejectionShape(db, id, caller);
    ShapeKeepsRequests(db, db');
  }

  lemma RejectionShape(db: Db, id: Id, caller: Principal)
    ensures SameShape(db, RejectAllocation(db, id, caller).After(db))
    ensures TopupsOk(db) ==> TopupsOk(RejectAllocation(db, id, caller).After(db))
  {
  }

  lemma RejectTopupKeeps(billing: Billing, db: Db, id: Id)
    requires DbOk(billing, db)
    ensures DbOk(billing, RejectTopup(db, id).After(db))
  {
    var db' := RejectTopup(db, id).After(db);
    SameTables(billing, db, db');
    ShapeKeepsRequests(db, db');
  }

  lemma FundMembersKeeps(billing: Billing, db: Db, src: Id, members: seq<Id>, amount: int, idem: string, at: int)
    requires DbOk(billing, db) && amount > 0 && Ready(db, src, members)
    ensures DbOk(billing, FundAll(db, src, members, amount, idem, at).After(db))
  {
    FundAllKeeps(db, src, members, amount, idem, at);
    FundAllShape(db, src, members, amount, idem, at);
    PlainStep(billing, db, FundAll(db, src, members, amount, idem, at).After(db));
  }

  lemma GrantOneKeeps(billing: Billing, db: Db, id: Id, scope: GrantScope, amount: int, nonce: string, at: int)
    requires DbOk(billing, db) && amount >= 0
    ensures DbOk(billing, SetGrant(db, id, scope, amount, nonce, at).After(db))
  {
    if SetGrant(db, id, scope, amount, nonce, at).Done? {
      GrantedKeeps(db, id, amount, nonce, at);
      GrantedShape(db, id, amount, nonce, at);
      PlainStep(billing, db, Granted(db, id, amount, nonce, at));
    }
  }

  lemma GrantedShape(db: Db, id: Id, amount: int, nonce: string, at: int)
    requires id in db.wallets
    ensures SameShape(db, Granted(db, id, amount, nonce, at))
    ensures Granted(db, id, amount, nonce, at).topups == db.topups
    ensures TopupsOk(db) ==> TopupsOk(Granted(db, id, amount, nonce, at))
  {
  }

  lemma GrantMembersKeeps(billing: Billing, db: Db, pool: Id, members: seq<Id>, amount: int, nonce: string, at: int)
    requires DbOk(billing, db) && amount >= 0 && pool in db.wallets
    requires forall i :: 0 <= i < |members| ==> members[i] in db.wallets
    ensures DbOk(billing, BulkGrant(db, pool, members, amount, nonce, at).After(db))
  {
    GrantEachKeeps(db, members, amount, nonce, at);
    GrantEachShape(db, members, amount, nonce, at);
    PlainStep(billing, db, GrantEach(db, members, amount, nonce, at).After(db));
  }

  lemma MonthlySweepKeeps(billing: Billing, db: Db, ids: seq<Id>, tag: string, at: int)
    requires DbOk(billing, db)
    ensures DbOk(billing, Sweep(db, ids, tag, at))
  {
    SweepKeeps(db, ids, tag, at);
    SweepShape(db, ids, tag, at);
    PlainStep(billing, db, Sweep(db, ids, tag, at));
  }

  lemma ExecKeeps(billing: Billing, db: Db, h: Hierarchy, op: Op, at: int)
    requires DbOk(billing, db) && Accepts(billing, db, op)
    ensures DbOk(billing, Exec(db, h, op, at))
  {
    match op {
      case Ask(req) =>
        AskKeeps(billing, db, h, req, at);
      case Create(user, caller, level, group, amount, id) =>
        if id !in db.requests {
          CreateKeeps(billing, db, h, user, caller, level, group, amount, id);
        }
      case Reject(id, caller) =>
        RejectAllocationKeeps(billing, db, id, caller);
      case TopupApproval(id) =>
        ApproveTopupKeeps(billing, db, id, at);
      case TopupRejection(id) =>
        RejectTopupKeeps(billing, db, id);
      case JoinGroup(group, user, welcome, grant, membership) =>
        JoinKeeps(billing, db, group, user, welcome, grant, membership, at);
      case FundMembers(src, members, amount, idem) =>
        if Ready(db, src, members) {
          FundMembersKeeps(billing, db, src, members, amount, idem, at);
        }
      case GrantOne(id, caller, pick, amount, nonce) =>
        if id in db.wallets {
          GrantOneKeeps(billing, db, id, ScopeOf(db, h, caller, id, pick), amount, nonce, at);
        }
      case GrantMembers(pool, members, amount, nonce) =>
        if pool in db.wallets && (forall i :: 0 <= i < |members| ==> members[i] in db.wallets) {
          GrantMembersKeeps(billing, db, pool, members, amount, nonce, at);
        }
      case MonthlySweep(index, tag) =>
        MonthlySweepKeeps(billing, db, Eligible(db, index), tag, at);
      case OpenSession(wallet, amount, session) =>
        OpenKeeps(billing, db, wallet, amount, session, at);
      case BillMinute(session, bucket) =>
        BillKeeps(billing, db, session, bucket, at);
      case CloseSession(session, final, nonce) =>
        CloseKeeps(billing, db, session, final, at, nonce);
    }
  }

  lemma HandleKeepsTopups(db: Db, h: Hierarchy, req: Request, at: int)
    ensures Handle(db, h, req, at).After(db).topups == db.topups
  {
    if Handle(db, h, req, at).Done? {
      PostAllShape(db, Legs(db, req), at);
    }
  }

  // ---- decisions ----

  /** A decided request is never decided again. */
  ghost predicate DecisionsStand(db: Db, db': Db)
  {
    && (forall id :: id in db.requests && db.requests[id].status != Pending ==>
          id in db'.requests && db'.requests[id] == db.requests[id])
    && (forall id :: id in db.topups && db.topups[id].status != Pending ==>
          id in db'.topups && db'.topups[id] == db.topups[id])
  }

  /** An operation that leaves both request tables alone. */
  lemma SameRequestTables(db: Db, db': Db)
    requires db'.requests == db.requests && db'.topups == db.topups
    ensures DecisionsStand(db, db')
  {
  }

  lemma BatchKeepsDecisions(db: Db, h: Hierarchy, op: Op, at: int)
    requires op.FundMembers? || op.GrantMembers? || op.MonthlySweep?
    ensures DecisionsStand(db, Exec(db, h, op, at))
  {
    match op {
      case FundMembers(src, members, amount, idem) =>
        if Ready(db, src, members) {
          FundAllShape(db, src, members, amount, idem, at);
        }
      case GrantMembers(pool, members, amount, nonce) =>
        if forall i :: 0 <= i < |members| ==> members[i] in db.wallets {
          GrantEachShape(db, members, amount, nonce, at);
        }
      case MonthlySweep(index, tag) =>
        SweepShape(db, Eligible(db, index), tag, at);
    }
  }

  lemma EngineKeepsDecisions(db: Db, h: Hierarchy, op: Op, at: int)
    requires op.OpenSession? || op.BillMinute? || op.CloseSession?
    ensures DecisionsStand(db, Exec(db, h, op, at))
  {
    if op.CloseSession? {
      SettledRows(db, op.session, op.final, at, op.nonce);
    }
    SameRequestTables(db, Exec(db, h, op, at));
  }

  /** Approving, rejecting or anything else leaves earlier decisions alone. */
  lemma ExecKeepsDecisions(db: Db, h: Hierarchy, op: Op, at: int)
    ensures DecisionsStand(db, Exec(db, h, op, at))
  {
    if op.Ask? {
      HandleKeepsDecisions(db, h, op.req, at);
    } else if op.JoinGroup? {
      JoinKeepsDecisions(db, op.group, op.user, op.welcome, op.grant, op.membership, at);
    } else if op.FundMembers? || op.GrantMembers? || op.MonthlySweep? {
      BatchKeepsDecisions(db, h, op, at);
    } else if op.OpenSession? || op.BillMinute? || op.CloseSession? {
      EngineKeepsDecisions(db, h, op, at);
    } else {
      DecidingKeepsDecisions(db, h, op, at);
    }
  }

  lemma DecidingKeepsDecisions(db: Db, h: Hierarchy, op: Op, at: int)
    requires op.Create? || op.Reject? || op.TopupApproval? || op.TopupRejection? || op.GrantOne?
    ensures DecisionsStand(db, Exec(db, h, op, at))
  {
  }

  lemma HandleKeepsDecisions(db: Db, h: Hierarchy, req: Request, at: int)
    ensures DecisionsStand(db, Handle(db, h, req, at).After(db))
  {
    if Handle(db, h, req, at).Done? {
      PostAllShape(db, Legs(db, req), at);
    }
  }

  lemma JoinKeepsDecisions(db: Db, group: Id, user: Id, welcome: int, grant: int, membership: Id, at: int)
    ensures DecisionsStand(db, Join(db, group, user, welcome, grant, membership, at).After(db))
  {
    var welcomed := Welcome(db, group, user, welcome, at);
    assert welcomed.requests == db.requests && welcomed.topups == db.topups;
    var out := Join(db, group, user, welcome, grant, membership, at);
    if out.Done? && grant > 0 {
      var src, dst := WalletOf(db.wallets, Group, group).value, WalletOf(db.wallets, User, user).value;
      PostAllShape(welcomed, MemberGrantLegs(src, dst, grant, membership), at);
    }
  }

  // ---- runs ----

  datatype Timed = Timed(op: Op, at: int)

  ghost function RunAll(db: Db, h: Hierarchy, ops: seq<Timed>): Db
  {
    if ops == [] then db
    else Exec(RunAll(db, h, ops[..|ops| - 1]), h, ops[|ops| - 1].op, ops[|ops| - 1].at)
  }

  ghost predicate AllAccepted(billing: Billing, db: Db, h: Hierarchy, ops: seq<Timed>)
  {
    ops != [] ==>
      && AllAccepted(billing, db, h, ops[..|ops| - 1])
      && Accepts(billing, RunAll(db, h, ops[..|ops| - 1]), ops[|ops| - 1].op)
  }

  /** Wallets start at zero with no rows. */
  predicate Blank(db: Db)
  {
    && db.txns == []
    && (forall id :: id in db.wallets ==> db.wallets[id].balance == 0 && db.wallets[id].reserved == 0)
  }

  lemma BlankIsOk(billing: Billing, db: Db)
    requires Blank(db) && RequestsOk(db) && TopupsOk(db)
    ensures DbOk(billing, db)
  {
    forall id | id in db.wallets ensures Backing(billing, db.txns, id) == 0 {
      SumConstant(billing.Keys, OpenHold(db.txns, id), 0);
    }
  }

  /** After any run of any operations, every balance is the sum of its rows, every row records the
      balance at its point, 0 <= reserved <= balance, no key repeats, and no wallet reserves more
      than its open sessions have outstanding. */
  lemma {:induction false} RunKeepsTheLedger(billing: Billing, db: Db, h: Hierarchy, ops: seq<Timed>)
    requires DbOk(billing, db) && AllAccepted(billing, db, h, ops)
    ensures DbOk(billing, RunAll(db, h, ops))
    decreases |ops|
  {
    if ops != [] {
      RunKeepsTheLedger(billing, db, h, ops[..|ops| - 1]);
      ExecKeeps(billing, RunAll(db, h, ops[..|ops| - 1]), h, ops[|ops| - 1].op, ops[|ops| - 1].at);
    }
  }

  /** Operations that only move credit between wallets. */
  ghost predicate OnlyMoves(db: Db, op: Op)
  {
    match op
    case Ask(req) => MovesBetweenWallets(db, req) && ValidRequest(req)
    case Create(_, _, _, _, _, _) => true
    case Reject(_, _) => true
    case TopupRejection(_) => true
    case JoinGroup(_, _, welcome, _, _) => welcome <= 0
    case FundMembers(_, _, amount, _) => amount > 0
    case OpenSession(_, _, _) => true
    case _ => false
  }

  lemma JoinMoves(db: Db, group: Id, user: Id, welcome: int, grant: int, membership: Id, at: int)
    requires welcome <= 0
    ensures Total(Join(db, group, user, welcome, grant, membership, at).After(db)) == Total(db)
  {
    var out := Join(db, group, user, welcome, grant, membership, at);
    if out.Done? && grant > 0 {
      var src, dst := WalletOf(db.wallets, Group, group).value, WalletOf(db.wallets, User, user).value;
      var legs := MemberGrantLegs(src, dst, grant, membership);
      var ids := db.wallets.Keys;
      PostTwo(db, legs, at);
      PostMovesSum(db, legs[0], at, ids);
      PostMovesSum(Post(db, legs[0], at), legs[1], at, ids);
      assert out.db.wallets.Keys == ids;
    }
  }

  lemma HoldMoves(db: Db, wallet: Id, amount: int, session: Id, at: int)
    ensures Total(PlaceHold(db, wallet, amount, session, at).After(db)) == Total(db)
  {
    var db' := PlaceHold(db, wallet, amount, session, at).After(db);
    assert db'.wallets.Keys == db.wallets.Keys;
    SumAgree(db.wallets.Keys, BalanceOf(db), BalanceOf(db'));
  }

  lemma SameWallets(db: Db, db': Db)
    requires db'.wallets == db.wallets
    ensures Total(db') == Total(db)
  {
    SumAgree(db.wallets.Keys, BalanceOf(db), BalanceOf(db'));
  }

  lemma ExecConserves(db: Db, h: Hierarchy, op: Op, at: int)
    requires LedgerOk(db) && OnlyMoves(db, op)
    ensures Total(Exec(db, h, op, at)) == Total(db)
  {
    var db' := Exec(db, h, op, at);
    match op {
      case Ask(req) =>
        MoveKeepsTotal(db, h, req, at);
      case JoinGroup(group, user, welcome, grant, membership) =>
        JoinMoves(db, group, user, welcome, grant, membership, at);
      case FundMembers(src, members, amount, idem) =>
        if Ready(db, src, members) {
          FundAllKeeps(db, src, members, amount, idem, at);
        }
      case OpenSession(wallet, amount, session) =>
        HoldMoves(db, wallet, amount, session, at);
      case Create(_, _, _, _, _, _) =>
        SameWallets(db, db');
      case Reject(_, _) =>
        SameWallets(db, db');
      case TopupRejection(_) =>
        SameWallets(db, db');
    }
  }

  ghost predicate AllMoves(db: Db, h: Hierarchy, ops: seq<Timed>)
  {
    ops != [] ==>
      && AllMoves(db, h, ops[..|ops| - 1])
      && OnlyMoves(RunAll(db, h, ops[..|ops| - 1]), ops[|ops| - 1].op)
  }

  /** A run that mints, adjusts and charges nothing leaves the total of all balances where it was. */
  lemma {:induction false} RunConserves(billing: Billing, db: Db, h: Hierarchy, ops: seq<Timed>)
    requires DbOk(billing, db) && AllAccepted(billing, db, h, ops) && AllMoves(db, h, ops)
    ensures Total(RunAll(db, h, ops)) == Total(db)
    decreases |ops|
  {
    if ops != [] {
      var front, last := ops[..|ops| - 1], ops[|ops| - 1];
      RunConserves(billing, db, h, front);
      RunKeepsTheLedger(billing, db, h, front);
      ExecConserves(RunAll(db, h, front), h, last.op, last.at);
    }
  }

  // ---- tenants ----

  /** Movements inside one tenant: transfers, allocations and approvals that stay in an
      organization, and a group's wallet funding its own members. */
  /** Operations of tenants: movements, requests raised by anyone but a system administrator, decisions on them,
      and a group funding the wallets of its members. */
  ghost predicate StaysHome(db: Db, h: Hierarchy, op: Op)
  {
    match op
    case Ask(req) => TenantLevel(db, req)
    case Create(user, caller, level, _, amount, _) => amount > 0 && !caller.superAdmin && RolesAreOwn(h, user, caller)
    case Reject(_, _) => true
    case FundMembers(src, members, amount, _) => FundsOwnMembers(db, h, src, members)
    case _ => false
  }

  /** The wallets the batch looks up: the group's own and its members'. */
  ghost predicate FundsOwnMembers(db: Db, h: Hierarchy, src: Id, members: seq<Id>)
  {
    && src in db.wallets && db.wallets[src].ownerType == Group
    && forall i :: 0 <= i < |members| ==>
         && members[i] in db.wallets && db.wallets[members[i]].ownerType == User
         && (db.wallets[members[i]].ownerId, db.wallets[src].ownerId) in h.members
  }

  lemma {:induction false} FundAllKeepsSum(db: Db, src: Id, ws: seq<Id>, amount: int, idem: string, at: int, s: set<Id>)
    requires Ready(db, src, ws)
    requires forall i :: 0 <= i < |ws| ==> (ws[i] in s <==> src in s)
    ensures Sum(s, BalanceOf(FundAll(db, src, ws, amount, idem, at).After(db))) == Sum(s, BalanceOf(db))
    decreases |ws|
  {
    if ws != [] {
      var dst, tail := ws[0], ws[1..];
      assert forall i :: 0 <= i < |tail| ==> tail[i] == ws[i + 1];
      if HasKey(db.txns, OutKey(idem, dst)) {
        FundAllKeepsSum(db, src, tail, amount, idem, at, s);
      } else if Available(db, src) >= amount && !HasKey(db.txns, InKey(idem, dst)) {
        var mid := Post(db, OutLeg(src, dst, amount, idem), at);
        PostMovesSum(db, OutLeg(src, dst, amount, idem), at, s);
        PostMovesSum(mid, InLeg(src, dst, amount, idem), at, s);
        FundAllKeepsSum(Fund(db, src, dst, amount, idem, at), src, tail, amount, idem, at, s);
      }
    }
  }

  lemma FundMembersKeepsOrg(db: Db, h: Hierarchy, src: Id, members: seq<Id>, amount: int, idem: string, at: int, org: Id)
    requires OneOrgPerUser(h) && FundsOwnMembers(db, h, src, members) && Ready(db, src, members)
    ensures OrgTotal(FundAll(db, src, members, amount, idem, at).After(db), h, org) == OrgTotal(db, h, org)
  {
    var s := OrgWallets(db, h, org);
    forall i | 0 <= i < |members| ensures members[i] in s <==> src in s {
      MemberBelongs(h, db.wallets[members[i]].ownerId, db.wallets[src].ownerId);
    }
    FundAllKeepsSum(db, src, members, amount, idem, at, s);
    FundAllShape(db, src, members, amount, idem, at);
    assert OrgWallets(FundAll(db, src, members, amount, idem, at).After(db), h, org) == s;
  }

  ghost predicate AllStayHome(db: Db, h: Hierarchy, ops: seq<Timed>)
  {
    ops != [] ==>
      && AllStayHome(db, h, ops[..|ops| - 1])
      && StaysHome(RunAll(db, h, ops[..|ops| - 1]), h, ops[|ops| - 1].op)
  }

  /** Requests stay at home, so that a later approval cannot carry credit elsewhere. */
  lemma ExecKeepsHome(db: Db, h: Hierarchy, op: Op, at: int)
    requires RequestsOk(db) && RequestsAtHome(db, h) && StaysHome(db, h, op)
    ensures RequestsOk(Exec(db, h, op, at)) && RequestsAtHome(Exec(db, h, op, at), h)
  {
    match op {
      case Ask(req) =>
        HandleKeepsShape(db, h, req, at);
        ShapeKeepsHome(db, Exec(db, h, op, at), h);
      case Create(user, caller, level, group, amount, id) =>
        if id !in db.requests {
          CreatedRequestIsOneLevelUp(db, h, user, caller, level, group, amount, id);
        }
      case Reject(id, caller) =>
        RejectionShape(db, id, caller);
        ShapeKeepsRequests(db, Exec(db, h, op, at));
        ShapeKeepsHome(db, Exec(db, h, op, at), h);
      case FundMembers(src, members, amount, idem) =>
        if Ready(db, src, members) {
          FundAllShape(db, src, members, amount, idem, at);
          ShapeKeepsRequests(db, Exec(db, h, op, at));
          ShapeKeepsHome(db, Exec(db, h, op, at), h);
        }
    }
  }

  lemma ExecKeepsOrgTotals(db: Db, h: Hierarchy, op: Op, at: int, org: Id)
    requires OneOrgPerUser(h) && RequestsAtHome(db, h) && StaysHome(db, h, op)
    ensures OrgTotal(Exec(db, h, op, at), h, org) == OrgTotal(db, h, org)
  {
    match op {
      case Ask(req) =>
        MoveKeepsOrgTotals(db, h, req, at, org);
      case FundMembers(src, members, amount, idem) =>
        if Ready(db, src, members) {
          FundMembersKeepsOrg(db, h, src, members, amount, idem, at, org);
        }
      case _ =>
        SameOrgTotals(db, Exec(db, h, op, at), h, org);
    }
  }

  lemma SameOrgTotals(db: Db, db': Db, h: Hierarchy, org: Id)
    requires db'.wallets == db.wallets
    ensures OrgTotal(db', h, org) == OrgTotal(db, h, org)
  {
    SumAgree(OrgWallets(db, h, org), BalanceOf(db), BalanceOf(db'));
  }

  /** No run of tenant-level operations, requests raised along the way included, carries credit into or out of
      any organization. */
  lemma {:induction false} RunKeepsOrgTotals(db: Db, h: Hierarchy, ops: seq<Timed>, org: Id)
    requires OneOrgPerUser(h) && RequestsOk(db) && RequestsAtHome(db, h) && AllStayHome(db, h, ops)
    ensures OrgTotal(RunAll(db, h, ops), h, org) == OrgTotal(db, h, org)
    ensures RequestsOk(RunAll(db, h, ops)) && RequestsAtHome(RunAll(db, h, ops), h)
    decreases |ops|
  {
    if ops != [] {
      var front, last := ops[..|ops| - 1], ops[|ops| - 1];
      RunKeepsOrgTotals(db, h, front, org);
      ExecKeepsOrgTotals(RunAll(db, h, front), h, last.op, last.at, org);
      ExecKeepsHome(RunAll(db, h, front), h, last.op, last.at);
    }
  }
}
