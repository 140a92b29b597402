/** What a caller sees of each handler: exactly when it succeeds, which figures it changes and by how much,
    and that asking again changes nothing, however much has happened in between. */
module Effects {
  import opened Prelude
  import opened Ledger
  import opened Movers
  import opened Engine
  import opened Reservations
  import opened Bulk
  import opened Grants
  import opened Refill
  import opened Operations

  // ---- one handler ----

  /** Only the named wallets changed, each balance by its amount. */
  ghost predicate Paid(before: map<Id, Wallet>, after: map<Id, Wallet>, amounts: map<Id, int>)
  {
    && after.Keys == before.Keys
    && (forall id :: id in before ==>
          after[id] == before[id].(balance := before[id].balance + if id in amounts then amounts[id] else 0))
  }

  lemma OneLegPaid(db: Db, legs: seq<Leg>, at: int)
    requires |legs| == 1 && legs[0].wallet in db.wallets
    ensures Paid(db.wallets, PostAll(db, legs, at).wallets, map[legs[0].wallet := legs[0].amount])
  {
    assert legs[1..] == [];
    assert PostAll(db, legs, at) == PostAll(Post(db, legs[0], at), legs[1..], at);
  }

  lemma TwoLegsPaid(db: Db, legs: seq<Leg>, at: int)
    requires |legs| == 2 && WalletsExist(db.wallets, legs) && legs[0].wallet != legs[1].wallet
    ensures Paid(db.wallets, PostAll(db, legs, at).wallets,
                 map[legs[0].wallet := legs[0].amount, legs[1].wallet := legs[1].amount])
  {
    PostTwo(db, legs, at);
  }

  predicate CanPay(w: Wallet, amount: int)
  {
    amount <= w.balance - w.reserved
  }

  /** A transfer or allocation succeeds exactly for two different wallets the caller may move between, a
      source that can pay and unused keys; then the source loses and the target gains the amount. */
  lemma MoveEffect(db: Db, h: Hierarchy, req: Request, at: int)
    requires LedgerOk(db) && req.MoveReq? && req.amount > 0
    ensures
      var out := Handle(db, h, req, at);
      && (out.Done? <==>
            && req.src != req.dst && req.src in db.wallets && req.dst in db.wallets
            && CanAllocate(h, req.caller, db.wallets[req.src], db.wallets[req.dst])
            && CanPay(db.wallets[req.src], req.amount)
            && !HasKey(db.txns, MoveKey(req.rail, req.idem, "out"))
            && !HasKey(db.txns, MoveKey(req.rail, req.idem, "in")))
      && (out.Done? ==> Paid(db.wallets, out.db.wallets, map[req.src := -req.amount, req.dst := req.amount]))
  {
    var legs := Legs(db, req);
    assert legs[0].wallet == req.src && legs[1].wallet == req.dst;
    if req.dst in db.wallets {
      assert WalletSigma(db.wallets[req.dst]);
    }
    if Handle(db, h, req, at).Done? {
      assert Covers(db.wallets, legs[0]) && Covers(db.wallets, legs[1]);
      TwoLegsPaid(db, legs, at);
    }
  }

  /** A topup or adjustment succeeds exactly for a wallet that exists, an unused key and, taking money away,
      a balance that stays above the reservation. */
  lemma MintEffect(db: Db, h: Hierarchy, req: Request, at: int)
    requires LedgerOk(db) && (req.TopupReq? || req.AdjustReq?) && ValidRequest(req)
    ensures
      var out := Handle(db, h, req, at);
      && (out.Done? <==>
            req.wallet in db.wallets && !HasKey(db.txns, req.idem) && CanPay(db.wallets[req.wallet], -req.amount))
      && (out.Done? ==> Paid(db.wallets, out.db.wallets, map[req.wallet := req.amount]))
  {
    var legs := Legs(db, req);
    assert legs[0].wallet == req.wallet && legs[0].key == req.idem;
    if req.wallet in db.wallets {
      assert WalletSigma(db.wallets[req.wallet]);
      OneLegPaid(db, legs, at);
    }
  }

  /** The two ledger rows of a transfer or allocation. */
  lemma MoveRows(db: Db, h: Hierarchy, req: Request, at: int)
    requires req.MoveReq? && Handle(db, h, req, at).Done?
    ensures req.src in db.wallets && req.dst in db.wallets
    ensures
      var name := if req.rail == Transfer then "transfer" else "allocate";
      Handle(db, h, req, at).db.txns == db.txns
        + [Txn(req.src, Adjust, -req.amount, db.wallets[req.src].balance - req.amount, Some(name + "-out:" + req.dst),
               name + ":" + req.idem + ":out", at),
           Txn(req.dst, Adjust, req.amount, db.wallets[req.dst].balance + req.amount, Some(name + "-in:" + req.src),
               name + ":" + req.idem + ":in", at)]
  {
    var legs := Legs(db, req);
    assert Covers(db.wallets, legs[0]) && Covers(db.wallets, legs[1]);
    PostTwo(db, legs, at);
    var name := req.rail.Name();
    assert name + ":" + req.idem + ":" + "out" == name + ":" + req.idem + ":out";
    assert name + ":" + req.idem + ":" + "in" == name + ":" + req.idem + ":in";
  }

  /** Every answer of a topup or adjustment, and its one row. */
  lemma MintAnswers(db: Db, h: Hierarchy, req: Request, at: int)
    requires LedgerOk(db) && (req.TopupReq? || req.AdjustReq?) && ValidRequest(req)
    ensures
      var out := Handle(db, h, req, at);
      if req.wallet !in db.wallets then out == Fail(NotFound)
      else if HasKey(db.txns, req.idem) then out == Replay
      else if db.wallets[req.wallet].balance + req.amount < db.wallets[req.wallet].reserved then out == Fail(Validation)
      else
        && out.Done?
        && out.db.txns == db.txns
             + [Txn(req.wallet, if req.TopupReq? then Topup else Adjust, req.amount, db.wallets[req.wallet].balance + req.amount,
                    if req.TopupReq? then req.note else req.reason, req.idem, at)]
  {
    var legs := Legs(db, req);
    assert legs[0].wallet == req.wallet && legs[0].key == req.idem && legs[1..] == [];
    if req.wallet in db.wallets {
      assert WalletSigma(db.wallets[req.wallet]);
      assert PostAll(db, legs, at) == PostAll(Post(db, legs[0], at), legs[1..], at);
    }
  }

  /** The wallet an approval draws on is the approver's own: the group's or the organization's. */
  ghost predicate PoolOf(db: Db, r: AllocRequest, pool: Id)
  {
    && pool in db.wallets && r.fulfiller.Some? && db.wallets[pool].ownerId == r.fulfiller.value
    && ((r.scope == GroupScope && db.wallets[pool].ownerType == Group)
        || (r.scope == OrgScope && db.wallets[pool].ownerType == Org))
  }

  lemma PoolOfIff(db: Db, r: AllocRequest, pool: Id)
    requires OwnersUnique(db.wallets)
    ensures Pool(db, r) == Some(pool) <==> PoolOf(db, r, pool)
  {
    PoolOwner(db, r);
    if PoolOf(db, r, pool) {
      assert Owns(db.wallets, pool, if r.scope == GroupScope then Group else Org, r.fulfiller.value);
    }
  }

  /** An approval pays the request's amount to its target, out of the approver's wallet unless the system mints it. */
  lemma ApproveEffect(db: Db, h: Hierarchy, id: Id, caller: Principal, at: int)
    requires RequestsOk(db) && Handle(db, h, ApproveReq(id, caller), at).Done?
    ensures
      var after, r := Handle(db, h, ApproveReq(id, caller), at).db, db.requests[id];
      && (r.scope == SystemScope ==> Paid(db.wallets, after.wallets, map[r.target := r.amount]))
      && (r.scope != SystemScope ==>
            exists pool :: PoolOf(db, r, pool) && Paid(db.wallets, after.wallets, map[pool := -r.amount, r.target := r.amount]))
  {
    if db.requests[id].scope == SystemScope {
      OneLegPaid(db, Legs(db, ApproveReq(id, caller)), at);
    } else {
      LegsAreApart(db, ApproveReq(id, caller));
      PooledPaid(db, h, id, caller, at);
      PoolOfIff(db, db.requests[id], Pool(db, db.requests[id]).value);
    }
  }

  lemma PooledPaid(db: Db, h: Hierarchy, id: Id, caller: Principal, at: int)
    requires Handle(db, h, ApproveReq(id, caller), at).Done? && db.requests[id].scope != SystemScope
    requires LegsApart(Legs(db, ApproveReq(id, caller)))
    ensures
      var after, r := Handle(db, h, ApproveReq(id, caller), at).db, db.requests[id];
      && Pool(db, r).Some?
      && Paid(db.wallets, after.wallets, map[Pool(db, r).value := -r.amount, r.target := r.amount])
  {
    var legs, r := Legs(db, ApproveReq(id, caller)), db.requests[id];
    assert legs[0].wallet == Pool(db, r).value && legs[0].amount == -r.amount;
    assert legs[1].wallet == r.target && legs[1].amount == r.amount;
    TwoLegsPaid(db, legs, at);
  }

  /** Every answer of an approval. */
  lemma ApproveAnswers(db: Db, h: Hierarchy, id: Id, caller: Principal, at: int)
    requires LedgerOk(db) && RequestsOk(db)
    ensures
      var out := Handle(db, h, ApproveReq(id, caller), at);
      if id !in db.requests then out == Fail(NotFound)
      else
        var r := db.requests[id];
        if r.status != Pending then out == Fail(Validation)
        else if !CanFulfill(caller, r) then out == Fail(Forbidden)
        else if r.scope == SystemScope then
          out.Done? || (out == Fail(Conflict) && HasKey(db.txns, "alloc:" + id))
        else
          && ((forall pool :: !PoolOf(db, r, pool)) ==> out == Fail(NotFound))
          && (forall pool :: PoolOf(db, r, pool) ==>
                if !CanPay(db.wallets[pool], r.amount) then out == Fail(InsufficientPool)
                else out.Done? || (out == Fail(Conflict) && (HasKey(db.txns, "alloc:" + id + ":out") || HasKey(db.txns, "alloc:" + id + ":in"))))
  {
    if id in db.requests && db.requests[id].status == Pending && CanFulfill(caller, db.requests[id]) {
      var r := db.requests[id];
      var legs := Legs(db, ApproveReq(id, caller));
      assert WalletSigma(db.wallets[r.target]);
      if r.scope == SystemScope {
        assert legs[0].wallet == r.target && legs[0].key == "alloc:" + id + "";
        assert "alloc:" + id + "" == "alloc:" + id;
      } else {
        forall pool ensures Pool(db, r) == Some(pool) <==> PoolOf(db, r, pool) {
          PoolOfIff(db, r, pool);
        }
        if Pool(db, r).Some? {
          PooledAnswer(db, h, id, caller, at, Pool(db, r).value);
        }
      }
    }
  }

  lemma PooledAnswer(db: Db, h: Hierarchy, id: Id, caller: Principal, at: int, pool: Id)
    requires LedgerOk(db) && RequestsOk(db) && id in db.requests && db.requests[id].status == Pending
    requires CanFulfill(caller, db.requests[id]) && db.requests[id].scope != SystemScope
    requires Pool(db, db.requests[id]) == Some(pool)
    ensures pool in db.wallets
    ensures
      var out, r := Handle(db, h, ApproveReq(id, caller), at), db.requests[id];
      if !CanPay(db.wallets[pool], r.amount) then out == Fail(InsufficientPool)
      else out.Done? || (out == Fail(Conflict) && (HasKey(db.txns, "alloc:" + id + ":out") || HasKey(db.txns, "alloc:" + id + ":in")))
  {
    var r, legs := db.requests[id], Legs(db, ApproveReq(id, caller));
    PoolOwner(db, r);
    assert WalletSigma(db.wallets[r.target]);
    assert legs[0].wallet == pool && legs[1].wallet == r.target;
    assert Covers(db.wallets, legs[1]);
    assert Covers(db.wallets, legs[0]) <==> CanPay(db.wallets[pool], r.amount);
    assert legs[0].key == "alloc:" + id + ":out" && legs[1].key == "alloc:" + id + ":in";
  }

  /** An approval decides its request and no other, for good: a second one is refused. */
  lemma ApprovedOnce(db: Db, h: Hierarchy, id: Id, caller: Principal, at: int, other: Principal, later: int)
    requires Handle(db, h, ApproveReq(id, caller), at).Done?
    ensures
      var after := Handle(db, h, ApproveReq(id, caller), at).db;
      && after.requests == db.requests[id := db.requests[id].(status := Approved)]
      && Handle(after, h, ApproveReq(id, other), later) == Fail(Validation)
  {
    PostAllShape(db, Legs(db, ApproveReq(id, caller)), at);
  }

  /** A hold succeeds exactly for a first request on a wallet with enough unreserved, and moves nothing but
      the reservation. */
  lemma HoldEffect(db: Db, wallet: Id, amount: int, session: Id, at: int)
    ensures
      var out := PlaceHold(db, wallet, amount, session, at);
      && (out.Replay? <==> HasKey(db.txns, HoldKey(session)))
      && (out.Done? <==> !HasKey(db.txns, HoldKey(session)) && wallet in db.wallets && CanPay(db.wallets[wallet], amount))
      && (out.Done? ==>
            && out.db.wallets == db.wallets[wallet := db.wallets[wallet].(reserved := db.wallets[wallet].reserved + amount)]
            && Held(out.db.txns, wallet, session) == Held(db.txns, wallet, session) + amount)
  {
    var out := PlaceHold(db, wallet, amount, session, at);
    if out.Done? {
      SumRowsAppend(db.txns, out.db.txns[|db.txns|], wallet, Hold, session, None);
    }
  }

  /** Every answer of a topup request's approval; the requested amount goes to the requested wallet, once. */
  lemma ApproveTopupEffect(db: Db, id: Id, at: int)
    ensures
      var out := ApproveTopup(db, id, at);
      if id !in db.topups || db.topups[id].wallet !in db.wallets then
        out == Fail(NotFound) || (id in db.topups && db.topups[id].status == Rejected && out == Fail(Validation))
      else
        var r := db.topups[id];
        if HasKey(db.txns, "topup-req:" + id) || r.status == Approved then out == Replay
        else if r.status == Rejected then out == Fail(Validation)
        else
          && out.Done? && Paid(db.wallets, out.db.wallets, map[r.wallet := r.amount])
          && out.db.topups == db.topups[id := r.(status := Approved)] && out.db.requests == db.requests
          && out.db.txns == db.txns + [Txn(r.wallet, Topup, r.amount, db.wallets[r.wallet].balance + r.amount,
                                           Some("topup-req:" + id), "topup-req:" + id, at)]
  {
  }

  /** A rejection decides its own request and moves nothing. */
  lemma RejectEffects(db: Db, id: Id, caller: Principal)
    ensures
      var out := RejectTopup(db, id);
      if id !in db.topups then out == Fail(NotFound)
      else if db.topups[id].status == Approved then out == Fail(Validation)
      else out == Done(db.(topups := db.topups[id := db.topups[id].(status := Rejected)]))
    ensures
      var out := RejectAllocation(db, id, caller);
      if id !in db.requests then out == Fail(NotFound)
      else if db.requests[id].status != Pending then out == Fail(Validation)
      else if !CanFulfill(caller, db.requests[id]) then out == Fail(Forbidden)
      else out == Done(db.(requests := db.requests[id := db.requests[id].(status := Rejected)]))
  {
  }

  /** Welcome credit goes to the user's own wallet, once per group and user, and to nobody without one. */
  lemma WelcomeEffect(db: Db, group: Id, user: Id, amount: int, at: int)
    requires OwnersUnique(db.wallets)
    ensures
      var after := Welcome(db, group, user, amount, at);
      var key := "welcome:" + group + ":" + user;
      if amount <= 0 || HasKey(db.txns, key) then after == db
      else
        && ((forall w :: !Owns(db.wallets, w, User, user)) ==> after == db)
        && (forall w :: Owns(db.wallets, w, User, user) ==>
              && Paid(db.wallets, after.wallets, map[w := amount])
              && after.txns == db.txns + [Txn(w, Topup, amount, db.wallets[w].balance + amount, Some("welcome:" + group), key, at)])
  {
    assert WelcomeKey(group, user) == "welcome:" + group + ":" + user;
    forall w | Owns(db.wallets, w, User, user) ensures WalletOf(db.wallets, User, user) == Some(w) {
    }
  }

  /** Joining a group with a grant: after the welcome credit the group's wallet pays the user's, if it can. */
  lemma JoinEffect(db: Db, group: Id, user: Id, welcome: int, grant: int, membership: Id, at: int, src: Id, dst: Id)
    requires OwnersUnique(db.wallets) && grant > 0
    requires Owns(db.wallets, src, Group, group) && Owns(db.wallets, dst, User, user)
    ensures
      var welcomed := Welcome(db, group, user, welcome, at);
      var out := Join(db, group, user, welcome, grant, membership, at);
      && (!CanPay(db.wallets[src], grant) ==> out == Fail(InsufficientCredit))
      && (out.Done? ==> Paid(welcomed.wallets, out.db.wallets, map[src := -grant, dst := grant]))
      && (CanPay(db.wallets[src], grant) ==>
            out.Done? || (out == Fail(Conflict) && (HasKey(welcomed.txns, "member-grant:" + membership + ":out")
                                                    || HasKey(welcomed.txns, "member-grant:" + membership + ":in"))))
  {
    assert WalletOf(db.wallets, Group, group) == Some(src) && WalletOf(db.wallets, User, user) == Some(dst);
    WelcomeLeavesGroups(db, group, user, welcome, at, src);
    var legs := MemberGrantLegs(src, dst, grant, membership);
    assert legs[0].wallet == src && legs[1].wallet == dst;
    TwoLegsPaid(Welcome(db, group, user, welcome, at), legs, at);
  }

  lemma WelcomeLeavesGroups(db: Db, group: Id, user: Id, amount: int, at: int, src: Id)
    requires src in db.wallets && db.wallets[src].ownerType == Group
    ensures
      var after := Welcome(db, group, user, amount, at);
      after.wallets.Keys == db.wallets.Keys && after.wallets[src] == db.wallets[src]
  {
  }

  /** Without a grant only the welcome credit happens; a grant needs both wallets. */
  lemma JoinWithoutGrant(db: Db, group: Id, user: Id, welcome: int, grant: int, membership: Id, at: int)
    ensures grant <= 0 ==> Join(db, group, user, welcome, grant, membership, at) == Done(Welcome(db, group, user, welcome, at))
    ensures grant > 0 && (forall w :: !Owns(db.wallets, w, Group, group)) ==>
              Join(db, group, user, welcome, grant, membership, at) == Fail(Validation)
    ensures grant > 0 && (forall w :: !Owns(db.wallets, w, User, user)) ==>
              Join(db, group, user, welcome, grant, membership, at) == Fail(Validation)
  {
  }

  /** Every answer of a new request; a stored one asks for the caller's amount into the caller's own wallet, or
      the named group's. */
  lemma CreateEffect(db: Db, h: Hierarchy, user: Id, p: Principal, level: Level, group: Id, amount: int, id: Id)
    requires OwnersUnique(db.wallets)
    ensures
      var out := CreateRequest(db, h, user, p, level, group, amount, id);
      if level == OrgLevel || group == "" then out == Fail(Validation)
      else if level == UserLevel then
        if !p.superAdmin && group !in p.roles then out == Fail(Forbidden)
        else
          && ((forall w :: !Owns(db.wallets, w, User, user)) ==> out == Fail(NotFound))
          && (forall w :: Owns(db.wallets, w, User, user) ==>
                out == Done(db.(requests := db.requests[id := AllocRequest(w, GroupScope, Some(group), amount, Pending)])))
      else if !p.superAdmin && !(group in p.roles && p.roles[group] in {GroupAdmin, OrgAdmin}) then out == Fail(Forbidden)
      else if group !in h.groups then out == Fail(NotFound)
      else
        && ((forall w :: !Owns(db.wallets, w, Group, group)) ==> out == Fail(NotFound))
        && (forall w :: Owns(db.wallets, w, Group, group) ==>
              out == Done(db.(requests := db.requests[id := AllocRequest(w, OrgScope, Some(h.groups[group]), amount, Pending)])))
  {
  }

  // ---- any run ----

  /** Rows are only ever added, and no wallet appears or disappears. */
  ghost predicate Grows(db: Db, db': Db)
  {
    db.wallets.Keys == db'.wallets.Keys && db.txns <= db'.txns
  }

  lemma JoinGrows(db: Db, group: Id, user: Id, welcome: int, grant: int, membership: Id, at: int)
    ensures Grows(db, Join(db, group, user, welcome, grant, membership, at).After(db))
  {
    var welcomed := Welcome(db, group, user, welcome, at);
    var out := Join(db, group, user, welcome, grant, membership, at);
    if out.Done? && grant > 0 {
      var src, dst := WalletOf(db.wallets, Group, group).value, WalletOf(db.wallets, User, user).value;
      PostAllPlain(welcomed, MemberGrantLegs(src, dst, grant, membership), at);
    }
  }

  lemma BatchGrows(db: Db, h: Hierarchy, op: Op, at: int)
    requires LedgerOk(db)
    requires op.FundMembers? || op.GrantMembers?
    requires op.amount >= 0 && (op.FundMembers? ==> op.amount > 0)
    ensures Grows(db, Exec(db, h, op, at))
  {
    if op.FundMembers? {
      if Ready(db, op.src, op.members) {
        FundAllKeeps(db, op.src, op.members, op.amount, op.idem, at);
      }
    } else if forall i :: 0 <= i < |op.members| ==> op.members[i] in db.wallets {
      GrantEachKeeps(db, op.members, op.amount, op.nonce, at);
    }
  }

  /** Requests, rejections and topup decisions write at most one row. */
  lemma OneRowGrows(db: Db, h: Hierarchy, op: Op, at: int)
    requires op.Create? || op.Reject? || op.TopupApproval? || op.TopupRejection?
    ensures Grows(db, Exec(db, h, op, at))
  {
  }

  lemma EngineGrows(db: Db, h: Hierarchy, op: Op, at: int)
    requires op.GrantOne? || op.OpenSession? || op.BillMinute? || op.CloseSession?
    ensures Grows(db, Exec(db, h, op, at))
  {
    if op.CloseSession? {
      SettledRows(db, op.session, op.final, at, op.nonce);
    }
  }

  lemma ExecGrows(billing: Billing, db: Db, h: Hierarchy, op: Op, at: int)
    requires LedgerOk(db) && Accepts(billing, db, op)
    ensures Grows(db, Exec(db, h, op, at))
  {
    if op.Ask? {
      HandlePlain(db, h, op.req, at);
    } else if op.JoinGroup? {
      JoinGrows(db, op.group, op.user, op.welcome, op.grant, op.membership, at);
    } else if op.FundMembers? || op.GrantMembers? {
      BatchGrows(db, h, op, at);
    } else if op.MonthlySweep? {
      SweepKeeps(db, Eligible(db, op.index), op.tag, at);
    } else if op.GrantOne? || op.OpenSession? || op.BillMinute? || op.CloseSession? {
      EngineGrows(db, h, op, at);
    } else {
      OneRowGrows(db, h, op, at);
    }
  }

  /** The ledger is append-only over every run. */
  lemma {:induction false} LedgerIsAppendOnly(billing: Billing, db: Db, h: Hierarchy, ops: seq<Timed>)
    requires DbOk(billing, db) && AllAccepted(billing, db, h, ops)
    ensures Grows(db, RunAll(db, h, ops))
    decreases |ops|
  {
    if ops != [] {
      var front, last := ops[..|ops| - 1], ops[|ops| - 1];
      LedgerIsAppendOnly(billing, db, h, front);
      RunKeepsTheLedger(billing, db, h, front);
      ExecGrows(billing, RunAll(db, h, front), h, last.op, last.at);
    }
  }

  lemma KeyStays(txns: seq<Txn>, more: seq<Txn>, key: string)
    requires txns <= more && HasKey(txns, key)
    ensures HasKey(more, key)
  {
    var i :| 0 <= i < |txns| && txns[i].key == key;
    assert more[i] == txns[i];
  }

  /** The key a request is recognised by when it comes again. */
  function RetryKey(req: Request): string
    requires !req.ApproveReq?
  {
    match req
    case TopupReq(_, _, idem, _) => idem
    case AdjustReq(_, _, idem, _) => idem
    case MoveReq(rail, _, _, _, _, idem) => MoveKey(rail, idem, "out")
  }

  lemma CommittedKey(db: Db, h: Hierarchy, req: Request, at: int)
    requires !req.ApproveReq? && Handle(db, h, req, at).Done?
    ensures HasKey(Handle(db, h, req, at).db.txns, RetryKey(req))
  {
    var legs := Legs(db, req);
    var mid := Post(db, legs[0], at);
    assert mid.txns[|db.txns|].key == RetryKey(req);
    assert HasKey(mid.txns, RetryKey(req));
    var rest := legs[1..];
    assert forall i :: 0 <= i < |rest| ==> rest[i] == legs[i + 1];
    PostAllPlain(mid, rest, at);
    KeyStays(mid.txns, PostAll(mid, rest, at).txns, RetryKey(req));
  }

  predicate NamedWalletsExist(db: Db, req: Request)
    requires !req.ApproveReq?
  {
    if req.MoveReq? then req.src != req.dst && req.src in db.wallets && req.dst in db.wallets else req.wallet in db.wallets
  }

  lemma SeenIsReplayed(db: Db, h: Hierarchy, req: Request, at: int)
    requires !req.ApproveReq? && NamedWalletsExist(db, req) && HasKey(db.txns, RetryKey(req))
    ensures Handle(db, h, req, at) == Replay
  {
  }

  lemma CommittedNames(db: Db, h: Hierarchy, req: Request, at: int)
    requires !req.ApproveReq? && Handle(db, h, req, at).Done?
    ensures NamedWalletsExist(db, req)
  {
    var legs := Legs(db, req);
    assert legs[0].wallet in db.wallets;
    if req.MoveReq? {
      assert legs[1].wallet in db.wallets;
    }
  }

  /** However much happens after a topup, adjustment, transfer or allocation went through, the same request
      again is answered from the ledger and changes nothing. */
  lemma RetryNeverPaysTwice(billing: Billing, db: Db, h: Hierarchy, req: Request, at: int, ops: seq<Timed>, later: int)
    requires DbOk(billing, db) && !req.ApproveReq? && Handle(db, h, req, at).Done?
    requires AllAccepted(billing, Handle(db, h, req, at).db, h, ops)
    ensures Handle(RunAll(Handle(db, h, req, at).db, h, ops), h, req, later) == Replay
  {
    var paid := Handle(db, h, req, at).db;
    AskKeeps(billing, db, h, req, at);
    HandlePlain(db, h, req, at);
    CommittedKey(db, h, req, at);
    CommittedNames(db, h, req, at);
    RetryAfterRun(billing, paid, h, req, ops, later);
  }

  lemma RetryAfterRun(billing: Billing, paid: Db, h: Hierarchy, req: Request, ops: seq<Timed>, later: int)
    requires DbOk(billing, paid) && AllAccepted(billing, paid, h, ops)
    requires !req.ApproveReq? && NamedWalletsExist(paid, req) && HasKey(paid.txns, RetryKey(req))
    ensures Handle(RunAll(paid, h, ops), h, req, later) == Replay
  {
    LedgerIsAppendOnly(billing, paid, h, ops);
    KeyStays(paid.txns, RunAll(paid, h, ops).txns, RetryKey(req));
    SeenIsReplayed(RunAll(paid, h, ops), h, req, later);
  }
}
