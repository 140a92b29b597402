/** A run that loses an update: a topup commits between an approval's read of the pool's wallet and its lock. */
module LostUpdate {
  import opened Prelude
  import opened Ledger
  import opened Movers
  import opened Concurrency
  import opened Interleaving
  import opened Serializability

  const POOL := Wallet(Group, "g", 100, 0, 0)
  const MEMBER := Wallet(User, "u", 0, 0, 0)

  /** A group wallet with 100 and a member's pending request for 10 of it. */
  function Start(): Db
  {
    Db(map["p" := POOL, "t" := MEMBER], [Txn("p", Topup, 100, 100, None, "seed", 0)],
       map["r" := AllocRequest("t", GroupScope, Some("g"), 10, Pending)], map[])
  }

  function Root(): Principal
  {
    Principal(true, {}, map[])
  }

  function Approval(): Job
  {
    Job(ApproveReq("r", Root()),
        [Leg("p", Adjust, -10, Some("alloc-req:r"), "alloc:r:out"), Leg("t", Adjust, 10, Some("alloc-req:r"), "alloc:r:in")], 1)
  }

  function Payment(): Job
  {
    Job(TopupReq("p", 50, "k", None), [Leg("p", Topup, 50, None, "k")], 2)
  }

  function Jobs(): seq<Job>
  {
    [Approval(), Payment()]
  }

  function Paid(): Db
  {
    var db := Start();
    db.(wallets := db.wallets["p" := POOL.(balance := 150)],
        txns := db.txns + [Txn("p", Topup, 50, 150, None, "k", 2)])
  }

  function Lost(): Db
  {
    var db := Paid();
    db.(wallets := db.wallets["p" := POOL.(balance := 90)]["t" := MEMBER.(balance := 10)],
        txns := db.txns + [Txn("p", Adjust, -10, 90, Some("alloc-req:r"), "alloc:r:out", 1),
                           Txn("t", Adjust, 10, 10, Some("alloc-req:r"), "alloc:r:in", 1)],
        requests := map["r" := AllocRequest("t", GroupScope, Some("g"), 10, Approved)])
  }

  const EARLY := map["p" := POOL]
  const BOTH := map["p" := POOL, "t" := MEMBER]

  /** The approval reads the pool, the topup runs to its end, and the approval goes on. */
  function History(): seq<Sys>
  {
    [Sys(Start(), [Fresh, Fresh], []),
     Sys(Start(), [Reading, Fresh], []),
     Sys(Start(), [Locking(0, EARLY), Fresh], []),
     Sys(Start(), [Locking(0, EARLY), Locking(0, map[])], []),
     Sys(Start(), [Locking(0, EARLY), Locking(1, EARLY)], []),
     Sys(Start(), [Locking(0, EARLY), Inserting(0, EARLY)], []),
     Sys(Start(), [Locking(0, EARLY), Inserting(1, EARLY)], []),
     Sys(Paid(), [Locking(0, EARLY), Finished(Committed)], [1]),
     Sys(Paid(), [Locking(1, EARLY), Finished(Committed)], [1]),
     Sys(Paid(), [Locking(2, BOTH), Finished(Committed)], [1]),
     Sys(Paid(), [Inserting(0, BOTH), Finished(Committed)], [1]),
     Sys(Paid(), [Inserting(1, BOTH), Finished(Committed)], [1]),
     Sys(Paid(), [Inserting(2, BOTH), Finished(Committed)], [1]),
     Sys(Lost(), [Finished(Committed), Finished(Committed)], [1, 0])]
  }

  lemma StartIsInOrder()
    ensures LedgerOk(Start()) && RequestsOk(Start())
  {
    var txns := Start().txns;
    assert txns[..1] == txns && txns[..0] == [];
    RunningAppend([], txns[0], "p");
    RunningAppend([], txns[0], "t");
    assert [] + [txns[0]] == txns;
  }

  lemma LegsAreResolved()
    ensures Legs(Start(), Approval().req) == Approval().legs && Legs(Start(), Payment().req) == Payment().legs
  {
    var db, r := Start(), Start().requests["r"];
    assert Owns(db.wallets, "p", Group, "g");
    assert forall id :: Owns(db.wallets, id, Group, "g") ==> id == "p";
    assert Pool(db, r) == Some("p");
    assert AllocKey("r", ":out") == "alloc:r:out" && AllocKey("r", ":in") == "alloc:r:in";
    assert "alloc-req:" + "r" == "alloc-req:r";
  }

  lemma LocksOf()
    ensures Locks(Approval().legs) == ["p", "t"] && Locks(Payment().legs) == ["p"]
  {
    assert Before("p", "t");
  }

  predicate Free(phases: seq<Phase>, i: nat)
  {
    |phases| == 2 && i < 2 && !InTheWay(Jobs()[i], phases[i], Jobs()[1 - i], phases[1 - i])
  }

  lemma Enables(s: Sys, i: nat)
    requires Free(s.phases, i) && !s.phases[i].Finished?
    ensures Enabled(Jobs(), s, i)
  {
  }

  /** The approval's first two steps. */
  lemma ReadsThePool(h: Hierarchy)
    ensures NextState(Jobs(), h, History()[0], History()[1]) && NextState(Jobs(), h, History()[1], History()[2])
  {
    LegsAreResolved();
    var s := History()[0];
    Enables(s, 0);
    assert Precheck(s.db, Approval().req) == None;
    assert Step(Jobs(), h, s, 0) == History()[1];
    Enables(History()[1], 0);
    assert Step(Jobs(), h, History()[1], 0) == History()[2];
  }

  /** The topup, from its check of the key to its commit. */
  lemma PaysIn(h: Hierarchy, k: nat)
    requires 2 <= k < 7
    ensures NextState(Jobs(), h, History()[k], History()[k + 1])
  {
    LocksOf();
    var s := History()[k];
    Enables(s, 1);
    if k == 2 {
      assert Precheck(s.db, Payment().req) == None;
      assert Step(Jobs(), h, s, 1) == History()[3];
    } else if k == 3 {
      assert Step(Jobs(), h, s, 1) == History()[4];
    } else if k == 4 {
      assert Step(Jobs(), h, s, 1) == History()[5];
    } else if k == 5 {
      assert Step(Jobs(), h, s, 1) == History()[6];
    } else {
      PaysInCommits();
      assert Step(Jobs(), h, s, 1) == History()[7];
    }
  }

  lemma PaysInCommits()
    ensures WalletsExist(EARLY, Payment().legs) && Publish(Start(), Payment(), EARLY) == Paid()
  {
    var job, db := Payment(), Start();
    assert LegAmount(job.legs, "p") == 50 + LegAmount(job.legs[1..], "p");
    assert NewWallets(db.wallets, EARLY, job.legs) == Paid().wallets;
    assert NewRows(EARLY, job.legs, 2) == [Txn("p", Topup, 50, 150, None, "k", 2)];
  }

  /** The approval locks both wallets and keeps the copy it had. */
  lemma LocksLate(h: Hierarchy, k: nat)
    requires 7 <= k < 12
    ensures NextState(Jobs(), h, History()[k], History()[k + 1])
  {
    LocksOf();
    var s := History()[k];
    Enables(s, 0);
    if k == 7 {
      assert Step(Jobs(), h, s, 0) == History()[8];
    } else if k == 8 {
      assert EARLY["t" := MEMBER] == BOTH;
      assert Step(Jobs(), h, s, 0) == History()[9];
    } else if k == 9 {
      assert Step(Jobs(), h, s, 0) == History()[10];
    } else if k == 10 {
      assert Step(Jobs(), h, s, 0) == History()[11];
    } else {
      assert Step(Jobs(), h, s, 0) == History()[12];
    }
  }

  lemma ApprovalCommits(h: Hierarchy)
    ensures NextState(Jobs(), h, History()[12], History()[13])
  {
    var s, job, db := History()[12], Approval(), Paid();
    Enables(s, 0);
    LegAmounts(job.legs, "p");
    LegAmounts(job.legs, "t");
    assert NewWallets(db.wallets, BOTH, job.legs) == Lost().wallets;
    var rows := NewRows(BOTH, job.legs, 1);
    assert rows == [rows[0], rows[1]];
    assert db.txns + rows == Lost().txns;
    assert db.requests["r" := db.requests["r"].(status := Approved)] == Lost().requests;
    assert Publish(db, job, BOTH) == Lost();
    assert Step(Jobs(), h, s, 0) == History()[13];
  }

  lemma HistoryIsARun(h: Hierarchy)
    ensures Run(Jobs(), h, History())
  {
    StartIsInOrder();
    LegsAreResolved();
    forall k | 0 <= k < |History()| - 1 ensures NextState(Jobs(), h, History()[k], History()[k + 1]) {
      if k < 2 {
        ReadsThePool(h);
      } else if k < 7 {
        PaysIn(h, k);
      } else if k < 12 {
        LocksLate(h, k);
      } else {
        ApprovalCommits(h);
      }
    }
  }

  /** Both requests commit, and the 50 is gone: the pool's rows add up to 140 and its wallet holds 90. */
  lemma UpdateIsLost(h: Hierarchy)
    ensures
      var run := History();
      var s := run[|run| - 1];
      && Run(Jobs(), h, run)
      && s.phases == [Finished(Committed), Finished(Committed)]
      && s.db.wallets["p"].balance == 90 && Running(s.db.txns, "p") == 140
      && !SerialThroughout(Jobs(), h, run)
  {
    HistoryIsARun(h);
    var t := Lost().txns;
    assert t == [] + [t[0]] + [t[1]] + [t[2]] + [t[3]];
    RunningAppend([], t[0], "p");
    RunningAppend([] + [t[0]], t[1], "p");
    RunningAppend([] + [t[0]] + [t[1]], t[2], "p");
    RunningAppend([] + [t[0]] + [t[1]] + [t[2]], t[3], "p");
    StaleAtTheEnd(h);
    SerializableIff(Jobs(), h, History());
  }

  lemma StaleAtTheEnd(h: Hierarchy)
    ensures StaleStep(Jobs(), h, History(), 12)
  {
    ApprovalCommits(h);
    var s := History()[12];
    var i :| 0 <= i < |Jobs()| && Enabled(Jobs(), s, i) && History()[13] == Step(Jobs(), h, s, i);
    assert i == 0;
    assert CommitsStale(Jobs(), s, 0);
  }
}
