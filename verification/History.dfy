/** What the rows of a wallet do and do not add up to. */
module History {
  import opened Prelude
  import opened Sums
  import opened Ledger
  import opened Engine
  import opened Movers
  import opened Reservations
  import opened Operations

  function AllAmounts(txns: seq<Txn>, wallet: Id): int
  {
    if txns == [] then 0 else
      AllAmounts(txns[..|txns| - 1], wallet)
      + (if txns[|txns| - 1].wallet == wallet then txns[|txns| - 1].amount else 0)
  }

  predicate ReservationRow(t: Txn, wallet: Id)
  {
    t.wallet == wallet && !MovesBalance(t.kind)
  }

  /** Holds and refunds record the amount they set aside, never a negative one. */
  predicate ReservationRowsNonneg(txns: seq<Txn>)
  {
    forall i :: 0 <= i < |txns| && !MovesBalance(txns[i].kind) ==> txns[i].amount >= 0
  }

  predicate NothingReserved(txns: seq<Txn>, wallet: Id)
  {
    forall i :: 0 <= i < |txns| && ReservationRow(txns[i], wallet) ==> txns[i].amount == 0
  }

  lemma {:induction false} AmountsSplit(txns: seq<Txn>, wallet: Id)
    requires ReservationRowsNonneg(txns)
    ensures AllAmounts(txns, wallet) >= Running(txns, wallet)
    ensures AllAmounts(txns, wallet) == Running(txns, wallet) <==> NothingReserved(txns, wallet)
    decreases |txns|
  {
    if txns != [] {
      var front, last := txns[..|txns| - 1], txns[|txns| - 1];
      AmountsSplit(front, wallet);
      assert forall i :: 0 <= i < |front| ==> front[i] == txns[i];
      if NothingReserved(txns, wallet) {
        assert NothingReserved(front, wallet);
      }
      if NothingReserved(front, wallet) && (ReservationRow(last, wallet) ==> last.amount == 0) {
        forall i | 0 <= i < |txns| && ReservationRow(txns[i], wallet) ensures txns[i].amount == 0 {
          if i < |front| {
            assert ReservationRow(front[i], wallet);
          }
        }
      }
    }
  }

  /** The transaction history sums to the wallet if and only if no hold or refund of a nonzero
      amount was ever recorded on it: those rows carry an amount that did not move the balance. */
  lemma HistorySumsIff(billing: Billing, db: Db, wallet: Id)
    requires LedgerOk(db) && RowsKnown(billing, db.txns) && wallet in db.wallets
    ensures AllAmounts(db.txns, wallet) == db.wallets[wallet].balance <==> NothingReserved(db.txns, wallet)
  {
    forall i | 0 <= i < |db.txns| && !MovesBalance(db.txns[i].kind) ensures db.txns[i].amount >= 0 {
      assert KnownRow(billing, db.txns[i]);
    }
    AmountsSplit(db.txns, wallet);
  }

  /** In every reachable state. */
  lemma RunHistorySumsIff(billing: Billing, db: Db, h: Hierarchy, ops: seq<Timed>, wallet: Id)
    requires Blank(db) && RequestsOk(db) && TopupsOk(db) && AllAccepted(billing, db, h, ops)
    requires wallet in RunAll(db, h, ops).wallets
    ensures
      var after := RunAll(db, h, ops);
      AllAmounts(after.txns, wallet) == after.wallets[wallet].balance <==> NothingReserved(after.txns, wallet)
  {
    BlankIsOk(billing, db);
    RunKeepsTheLedger(billing, db, h, ops);
    HistorySumsIff(billing, RunAll(db, h, ops), wallet);
  }

  // ---- two sessions on one wallet ----

  const WALLET: Id := "w"

  function Resident(): Session { Session("a", Some(WALLET), 3000, 0, 0, 100, Some(0)) }

  function TwoHolds(): Db
  {
    Db(map[WALLET := Wallet(User, "u", 1000, 90, 0)],
       [Txn(WALLET, Topup, 1000, 1000, None, "t", 0),
        Txn(WALLET, Hold, 10, 1000, Some("a"), HoldKey("a"), 0),
        Txn(WALLET, Hold, 80, 1000, Some("b"), HoldKey("b"), 0)],
       map[], map[])
  }

  lemma TwoHoldsSum(kind: Kind, session: Id, since: Option<int>)
    requires kind != Topup && since in {None, Some(0)}
    ensures SumRows(TwoHolds().txns, WALLET, kind, session, since) ==
            (if kind == Hold && session == "a" then 10 else 0) + (if kind == Hold && session == "b" then 80 else 0)
  {
    var txns := TwoHolds().txns;
    assert txns[..2][..1] == txns[..1] && txns[..1][..0] == [];
    assert SumRows(txns[..1], WALLET, kind, session, since) == SumRows(txns[..1][..0], WALLET, kind, session, since);
    var two := SumRows(txns[..2], WALLET, kind, session, since);
    assert two == SumRows(txns[..2][..1], WALLET, kind, session, since)
                  + (if Counts(txns[1], WALLET, kind, session, since) then 10 else 0);
  }

  lemma TwoHoldsKeys()
    ensures !HasKey(TwoHolds().txns, ConsumeKey("a", "1")) && !HasKey(TwoHolds().txns, SettleKey("a"))
    ensures !Closed(TwoHolds().txns, "b")
  {
    assert ConsumeKey("a", "1")[0] == 'c' && SettleKey("a")[0] == 's';
    assert HoldKey("a") == "hold:a" && HoldKey("b") == "hold:b";
  }

  /** A session that spends past its own hold uses up its neighbour's: after one minute of the first
      session the wallet reserves 40, although the second still has its whole 80 outstanding, and
      settling the second gives back only those 40. */
  lemma OverspendUsesNeighboursHold()
    ensures
      var db' := Tick(TwoHolds(), Resident(), "1", 60 * SECOND);
      && OpenAt(TwoHolds().txns, WALLET, "b") == 80
      && WALLET in db'.wallets
      && OpenAt(db'.txns, WALLET, "b") == 80
      && db'.wallets[WALLET].reserved == 40
      && Released(db', WALLET, "b") == 40
  {
    var db, s := TwoHolds(), Resident();
    TwoHoldsKeys();
    TwoHoldsSum(Consume, "a", Some(0));
    TwoHoldsSum(Hold, "b", None);
    TwoHoldsSum(Consume, "b", None);
    assert Occupancy(s) == 1.0;
    assert ActiveMinutes(s, 60 * SECOND) == 1;
    assert HourlyCost(s) * (1 as real / 60.0) == 50.0;
    assert Owed(s, 60 * SECOND) == 50;
    var db' := Tick(db, s, "1", 60 * SECOND);
    assert db' == Debit(db, WALLET, "a", 50, ConsumeKey("a", "1"), 60 * SECOND);
    OpenAppendOther(db.txns, db'.txns[3], WALLET, "b");
    SumRowsAppend(db.txns, db'.txns[3], WALLET, Hold, "b", None);
    SumRowsAppend(db.txns, db'.txns[3], WALLET, Consume, "b", None);
  }

  // ---- how the two sessions come about ----

  function Empty(): Db
  {
    Db(map[WALLET := Wallet(User, "u", 0, 0, 0)], [], map[], map[])
  }

  function Bills(): Billing
  {
    map["a" := WALLET, "b" := WALLET]
  }

  function Funding(): seq<Timed>
  {
    [Timed(Ask(TopupReq(WALLET, 1000, "t", None)), 0), Timed(OpenSession(WALLET, 10, "a"), 0), Timed(OpenSession(WALLET, 80, "b"), 0)]
  }

  function Funded(): Db
  {
    Db(map[WALLET := Wallet(User, "u", 1000, 0, 0)], [Txn(WALLET, Topup, 1000, 1000, None, "t", 0)], map[], map[])
  }

  function OneHold(): Db
  {
    Db(map[WALLET := Wallet(User, "u", 1000, 10, 0)],
       [Txn(WALLET, Topup, 1000, 1000, None, "t", 0), Txn(WALLET, Hold, 10, 1000, Some("a"), HoldKey("a"), 0)],
       map[], map[])
  }

  lemma FirstStep(h: Hierarchy)
    ensures Exec(Empty(), h, Funding()[0].op, 0) == Funded()
  {
    var db, req := Empty(), TopupReq(WALLET, 1000, "t", None);
    var legs := Legs(db, req);
    assert legs[1..] == [];
    assert PostAll(db, legs, 0) == PostAll(Post(db, legs[0], 0), legs[1..], 0);
  }

  lemma HoldSteps(h: Hierarchy)
    ensures Exec(Funded(), h, Funding()[1].op, 0) == OneHold() && Exec(OneHold(), h, Funding()[2].op, 0) == TwoHolds()
  {
    assert HoldKey("a") == "hold:a" && HoldKey("b") == "hold:b";
  }

  lemma NoSpendYet()
    ensures Spent(Funded().txns, WALLET, "a", None) == 0 && Spent(OneHold().txns, WALLET, "b", None) == 0
    ensures !Closed(Funded().txns, "a") && !Closed(OneHold().txns, "b")
  {
    var one, two := Funded().txns, OneHold().txns;
    assert one == [] + [one[0]] && two == [] + [two[0]] + [two[1]];
    SumRowsAppend([], one[0], WALLET, Consume, "a", None);
    SumRowsAppend([], two[0], WALLET, Consume, "b", None);
    SumRowsAppend([] + [two[0]], two[1], WALLET, Consume, "b", None);
  }

  /** The wallet of the two sessions is the result of a run from an empty wallet; its tables are in order and what
      it reserves is exactly what the sessions hold. */
  lemma TwoHoldsIsReachable(h: Hierarchy)
    ensures Blank(Empty()) && AllAccepted(Bills(), Empty(), h, Funding())
    ensures RunAll(Empty(), h, Funding()) == TwoHolds()
    ensures DbOk(Bills(), TwoHolds()) && Exact(Bills(), TwoHolds(), WALLET)
  {
    var db, ops := Empty(), Funding();
    FirstStep(h);
    HoldSteps(h);
    NoSpendYet();
    assert ops[..2] == [ops[0], ops[1]] && ops[..2][..1] == [ops[0]] && [ops[0]][..0] == [];
    assert RunAll(db, h, [ops[0]]) == Exec(RunAll(db, h, [ops[0]][..0]), h, ops[0].op, 0) == Funded();
    assert RunAll(db, h, ops[..2]) == Exec(RunAll(db, h, ops[..2][..1]), h, ops[1].op, 0) == OneHold();
    assert RunAll(db, h, ops) == Exec(RunAll(db, h, ops[..2]), h, ops[2].op, 0) == TwoHolds();
    assert AllAccepted(Bills(), db, h, [ops[0]][..0]);
    assert AllAccepted(Bills(), db, h, [ops[0]]);
    assert AllAccepted(Bills(), db, h, ops[..2]);
    BlankIsOk(Bills(), db);
    RunKeepsTheLedger(Bills(), db, h, ops);
    HoldsAreExact();
  }

  lemma HoldsAreExact()
    ensures Exact(Bills(), TwoHolds(), WALLET)
  {
    var f := OpenHold(TwoHolds().txns, WALLET);
    TwoHoldsSum(Hold, "a", None);
    TwoHoldsSum(Hold, "b", None);
    TwoHoldsSum(Consume, "a", None);
    TwoHoldsSum(Consume, "b", None);
    TwoHoldsKeys();
    assert f("a") == 10 && f("b") == 80;
    SumRemove(Bills().Keys, f, "a");
    SumRemove(Bills().Keys - {"a"}, f, "b");
    assert Bills().Keys - {"a"} - {"b"} == {};
  }

  /** Its rows add up to 1090 while it holds 1000. */
  lemma HoldsBreakTheSum()
    ensures AllAmounts(TwoHolds().txns, WALLET) == 1090 && TwoHolds().wallets[WALLET].balance == 1000
  {
    var txns := TwoHolds().txns;
    assert txns[..2][..1] == txns[..1] && txns[..1][..0] == [];
    assert AllAmounts(txns[..1], WALLET) == AllAmounts(txns[..1][..0], WALLET) + 1000;
    assert AllAmounts(txns[..2], WALLET) == AllAmounts(txns[..2][..1], WALLET) + 10;
  }
}
