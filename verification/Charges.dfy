/** What a session is charged, from its own figures: the share of a card it was given, the minutes it ran, the
    rows on the ledger and the wallet it draws on. */
module Charges {
  import opened Prelude
  import opened Sums
  import opened Ledger
  import opened Engine
  import opened Reservations
  import opened Metering

  // ---- what is owed ----

  /** The larger of the shares of cores and memory, and a whole card when the snapshot names neither. */
  predicate IsShare(s: Session, share: real)
  {
    var cores := s.cores as real / 100.0;
    if s.cores == 0 && (s.gpuMemMb == 0 || s.deviceMemMb == 0) then share == 1.0
    else if s.gpuMemMb == 0 || s.deviceMemMb == 0 then share == cores
    else
      var mem := s.gpuMemMb as real / s.deviceMemMb as real;
      share >= cores && share >= mem && (share == cores || share == mem)
  }

  /** The whole minutes of the run, a started one counting: none before it begins. */
  predicate IsMinutes(s: Session, now: int, minutes: int)
  {
    if s.startedAt.None? || now <= s.startedAt.value then minutes == 0
    else
      var seconds := (now - s.startedAt.value) / 1_000_000;
      minutes >= 1 && seconds <= 60 * minutes && (minutes > 1 ==> 60 * (minutes - 1) < seconds)
  }

  lemma ShareIsOccupancy(s: Session, share: real)
    requires IsShare(s, share)
    ensures share == Occupancy(s)
  {
    if s.gpuMemMb > 0 && s.deviceMemMb > 0 {
      assert s.gpuMemMb as real / s.deviceMemMb as real > 0.0;
    }
  }

  lemma MinutesAreActive(s: Session, now: int, minutes: int)
    requires IsMinutes(s, now, minutes)
    ensures minutes == ActiveMinutes(s, now)
  {
  }

  /** What a run owes is its hourly rate times its share times its minutes, to the nearest cent, half up. */
  lemma OwedFromFigures(s: Session, now: int, share: real, minutes: int)
    requires IsShare(s, share) && IsMinutes(s, now, minutes)
    ensures
      var exact := s.rate as real * share * (minutes as real / 60.0);
      Owed(s, now) as real - 0.5 <= exact < Owed(s, now) as real + 0.5
  {
    ShareIsOccupancy(s, share);
    MinutesAreActive(s, now, minutes);
  }

  /** The figures exist for every session and clock. */
  lemma FiguresExist(s: Session, now: int)
    ensures IsShare(s, Occupancy(s)) && IsMinutes(s, now, ActiveMinutes(s, now))
  {
    if s.gpuMemMb > 0 && s.deviceMemMb > 0 {
      assert s.gpuMemMb as real / s.deviceMemMb as real > 0.0;
    }
  }

  // ---- what has been charged ----

  /** The rows of one kind a session has on its wallet, from a point in time on. */
  ghost function RowsOf(txns: seq<Txn>, wallet: Id, kind: Kind, session: Id, since: Option<int>): set<int>
  {
    set i | 0 <= i < |txns| && txns[i].wallet == wallet && txns[i].kind == kind && txns[i].ref == Some(session)
          && (since.None? || since.value <= txns[i].at)
  }

  ghost function AmountAt(txns: seq<Txn>): int -> int
  {
    (i: int) => if 0 <= i < |txns| then txns[i].amount else 0
  }

  /** A session's sums are sums over exactly those rows. */
  lemma {:induction false} SumRowsIsSum(txns: seq<Txn>, wallet: Id, kind: Kind, session: Id, since: Option<int>)
    ensures SumRows(txns, wallet, kind, session, since) == Sum(RowsOf(txns, wallet, kind, session, since), AmountAt(txns))
    decreases |txns|
  {
    if txns == [] {
      assert RowsOf(txns, wallet, kind, session, since) == {};
    } else {
      var n := |txns| - 1;
      var front := txns[..n];
      SumRowsIsSum(front, wallet, kind, session, since);
      SumAgree(RowsOf(front, wallet, kind, session, since), AmountAt(front), AmountAt(txns));
      LastRow(txns, wallet, kind, session, since);
      if Counts(txns[n], wallet, kind, session, since) {
        SumRemove(RowsOf(txns, wallet, kind, session, since), AmountAt(txns), n);
      }
    }
  }

  lemma LastRow(txns: seq<Txn>, wallet: Id, kind: Kind, session: Id, since: Option<int>)
    requires txns != []
    ensures
      var n := |txns| - 1;
      var before, all := RowsOf(txns[..n], wallet, kind, session, since), RowsOf(txns, wallet, kind, session, since);
      if Counts(txns[n], wallet, kind, session, since) then n in all && all - {n} == before else all == before
  {
    var n := |txns| - 1;
    assert n in RowsOf(txns, wallet, kind, session, since) <==> Counts(txns[n], wallet, kind, session, since);
    assert RowsOf(txns, wallet, kind, session, since) - {n} == RowsOf(txns[..n], wallet, kind, session, since);
  }

  /** What a session has been charged for its run, held and left over, from the ledger's rows. */
  lemma FiguresFromRows(db: Db, s: Session)
    requires s.wallet.Some?
    ensures
      var wallet := s.wallet.value;
      var held := Sum(RowsOf(db.txns, wallet, Hold, s.id, None), AmountAt(db.txns));
      var spent := -Sum(RowsOf(db.txns, wallet, Consume, s.id, None), AmountAt(db.txns));
      && Metered(db, s) == -Sum(RowsOf(db.txns, wallet, Consume, s.id, s.startedAt), AmountAt(db.txns))
      && Outstanding(db.txns, wallet, s.id) == (if held > spent then held - spent else 0)
  {
    var wallet := s.wallet.value;
    SumRowsIsSum(db.txns, wallet, Consume, s.id, s.startedAt);
    SumRowsIsSum(db.txns, wallet, Consume, s.id, None);
    SumRowsIsSum(db.txns, wallet, Hold, s.id, None);
  }

  // ---- a tick ----

  predicate Billable(db: Db, s: Session, bucket: string)
  {
    && s.rate != 0 && s.wallet.Some? && s.wallet.value in db.wallets
    && !HasKey(db.txns, "consume:" + s.id + ":" + bucket) && !HasKey(db.txns, "settle:" + s.id)
  }

  /** A tick takes what is owed and not yet charged out of the balance, as far as it reaches, and out of the
      reservation as far as that reaches; any other tick does nothing. */
  lemma TickEffect(db: Db, s: Session, bucket: string, now: int)
    requires LedgerOk(db) && s.wallet.Some?
    ensures
      var after := Tick(db, s, bucket, now);
      if !Billable(db, s, bucket) || Owed(s, now) <= Metered(db, s) then after == db
      else
        var wallet := s.wallet.value;
        var w, due := db.wallets[wallet], Owed(s, now) - Metered(db, s);
        var debit := if due < w.balance then due else w.balance;
        && (debit == 0 ==> after == db)
        && after.wallets == db.wallets[wallet := w.(balance := w.balance - debit,
                                                    reserved := if w.reserved > debit then w.reserved - debit else 0)]
        && (debit > 0 ==> after.txns == db.txns + [Txn(wallet, Consume, -debit, w.balance - debit, Some(s.id),
                                                       "consume:" + s.id + ":" + bucket, now)])
  {
    assert ConsumeKey(s.id, bucket) == "consume:" + s.id + ":" + bucket && SettleKey(s.id) == "settle:" + s.id;
    if s.wallet.value in db.wallets {
      assert WalletSigma(db.wallets[s.wallet.value]);
      assert db.wallets == db.wallets[s.wallet.value := db.wallets[s.wallet.value]];
    }
  }

  /** When the session is stopped: something is due that the balance does not cover, or after it nothing is left
      beyond what the other sessions still hold. `own` and `others` are what this and the other open sessions have
      outstanding. */
  lemma StoppedIff(billing: Billing, db: Db, s: Session, bucket: string, now: int)
    requires RowsKnown(billing, db.txns) && s.wallet.Some? && BilledTo(billing, s)
    requires s.wallet.value in db.wallets && Exact(billing, db, s.wallet.value)
    ensures
      var wallet := s.wallet.value;
      var due, balance := Owed(s, now) - Metered(db, s), db.wallets[wallet].balance;
      var own, others := OpenAt(db.txns, wallet, s.id), Sum(billing.Keys - {s.id}, OpenHold(db.txns, wallet));
      Exhausts(db, s, bucket, now) <==>
        && Billable(db, s, bucket) && due > 0
        && (balance < due || balance - due <= Max(0, others - Max(0, due - own)))
  {
    var wallet := s.wallet.value;
    ExhaustsIff(db, s, bucket, now);
    if Billable(db, s, bucket) {
      assert SettleKey(s.id) == "settle:" + s.id;
      HoldsApart(billing, db, wallet, s.id);
    }
  }

  /** What a wallet reserves is this session's part and the others'. */
  lemma HoldsApart(billing: Billing, db: Db, wallet: Id, session: Id)
    requires RowsKnown(billing, db.txns) && !HasKey(db.txns, SettleKey(session)) && session in billing
    requires wallet in db.wallets && Exact(billing, db, wallet)
    ensures
      var others := Sum(billing.Keys - {session}, OpenHold(db.txns, wallet));
      && others >= 0 && OpenAt(db.txns, wallet, session) == Outstanding(db.txns, wallet, session)
      && db.wallets[wallet].reserved == OpenAt(db.txns, wallet, session) + others
  {
    OpenUnlessKeyed(billing, db.txns, session);
    SumRemove(billing.Keys, OpenHold(db.txns, wallet), session);
    SumBounds(billing.Keys - {session}, (x: Id) => 0, OpenHold(db.txns, wallet));
    SumConstant(billing.Keys - {session}, (x: Id) => 0, 0);
  }

  /** The same on any tables, from the wallet's figures. */
  lemma ExhaustsIff(db: Db, s: Session, bucket: string, now: int)
    requires s.wallet.Some? && s.wallet.value in db.wallets
    ensures
      var w, due := db.wallets[s.wallet.value], Owed(s, now) - Metered(db, s);
      Exhausts(db, s, bucket, now) <==>
        && Billable(db, s, bucket) && due > 0
        && (|| w.balance < due
            || w.balance - due - Max(0, w.reserved - due) + Max(0, Outstanding(db.txns, s.wallet.value, s.id) - due) <= 0)
  {
    assert ConsumeKey(s.id, bucket) == "consume:" + s.id + ":" + bucket && SettleKey(s.id) == "settle:" + s.id;
    if TickActs(db, s, bucket, now) {
      TickLeaves(db, s, bucket, now);
    }
  }

  /** What a covered tick leaves the session to draw on. */
  lemma TickLeaves(db: Db, s: Session, bucket: string, now: int)
    requires TickActs(db, s, bucket, now)
    ensures
      var wallet := s.wallet.value;
      var w, due := db.wallets[wallet], Owed(s, now) - Metered(db, s);
      due <= w.balance ==>
        AvailableFor(Tick(db, s, bucket, now), wallet, s.id) ==
        w.balance - due - Max(0, w.reserved - due) + Max(0, Outstanding(db.txns, wallet, s.id) - due)
  {
    var wallet := s.wallet.value;
    var due := Owed(s, now) - Metered(db, s);
    if due <= db.wallets[wallet].balance {
      var after := Tick(db, s, bucket, now);
      var t := after.txns[|db.txns|];
      SumRowsAppend(db.txns, t, wallet, Hold, s.id, None);
      SumRowsAppend(db.txns, t, wallet, Consume, s.id, None);
    }
  }

  // ---- a settlement ----

  /** What the last charge takes, and what it leaves of the wallet and of the session's hold. */
  lemma ChargeEffect(db: Db, s: Session, final: bool, now: int)
    requires s.wallet.Some? && s.wallet.value in db.wallets && WalletSigma(db.wallets[s.wallet.value])
    ensures
      var wallet := s.wallet.value;
      var w, after := db.wallets[wallet], Charged(db, s, final, now);
      var due := Owed(s, now) - Metered(db, s);
      var charge := if !final || s.rate == 0 || due <= 0 then 0 else Min(due, w.balance);
      && after.wallets == db.wallets[wallet := w.(balance := w.balance - charge, reserved := Max(0, w.reserved - charge))]
      && Outstanding(after.txns, wallet, s.id) == Max(0, Outstanding(db.txns, wallet, s.id) - charge)
  {
    var wallet := s.wallet.value;
    var charged := Charged(db, s, final, now);
    if FinalCharge(db, s, final, now) > 0 {
      var t := charged.txns[|db.txns|];
      SumRowsAppend(db.txns, t, wallet, Hold, s.id, None);
      SumRowsAppend(db.txns, t, wallet, Consume, s.id, None);
    } else {
      assert db.wallets == db.wallets[wallet := db.wallets[wallet]];
    }
  }

  /** Giving back takes the session's leftover out of the reservation, as far as that reaches. */
  lemma ReleaseEffect(db: Db, wallet: Id, session: Id, nonce: string, at: int)
    requires wallet in db.wallets && db.wallets[wallet].reserved >= 0
    ensures
      var w := db.wallets[wallet];
      GiveBack(db, wallet, session, nonce, at).wallets ==
      db.wallets[wallet := w.(reserved := Max(0, w.reserved - Outstanding(db.txns, wallet, session)))]
  {
    assert db.wallets == db.wallets[wallet := db.wallets[wallet]];
  }

  /** A settlement charges the remainder unless told not to, then gives back the session's leftover as far as the
      wallet reserves it. */
  lemma SettleEffect(db: Db, s: Session, final: bool, now: int, nonce: string)
    requires SettleActs(db, s, final, now, nonce) && WalletSigma(db.wallets[s.wallet.value])
    ensures
      var wallet := s.wallet.value;
      var w, after := db.wallets[wallet], Settled(db, s, final, now, nonce);
      var due := Owed(s, now) - Metered(db, s);
      var charge := if !final || s.rate == 0 || due <= 0 then 0 else Min(due, w.balance);
      var left := Max(0, Outstanding(db.txns, wallet, s.id) - charge);
      var reserved := Max(0, w.reserved - charge);
      after.wallets == db.wallets[wallet := w.(balance := w.balance - charge, reserved := Max(0, reserved - left))]
  {
    var wallet := s.wallet.value;
    var charged := Charged(db, s, final, now);
    ChargeEffect(db, s, final, now);
    ReleaseEffect(charged, wallet, s.id, nonce, now);
    var back := GiveBack(charged, wallet, s.id, nonce, now);
    assert back.wallets == back.wallets[wallet := back.wallets[wallet]];
  }
}
