/** The credit engine: hold, consume and settle, the only operations that touch a reservation. */
module Engine {
  import opened Prelude
  import opened Ledger

  const SECOND: int := 1_000_000   // clocks count microseconds

  /** A billed session. The rate is in cents per hour; free sessions have rate 0. */
  datatype Session = Session(id: Id, wallet: Option<Id>, rate: nat,
                             gpuMemMb: nat, deviceMemMb: nat, cores: nat, startedAt: Option<int>)

  // ---- what a session owes ----

  function Occupancy(s: Session): (r: real)
    ensures r > 0.0
  {
    var mem := if s.deviceMemMb > 0 && s.gpuMemMb > 0
               then s.gpuMemMb as real / s.deviceMemMb as real else 0.0;
    var core := s.cores as real / 100.0;
    var occ := if mem < core then core else mem;
    if occ <= 0.0 then 1.0 else occ
  }

  lemma ShareWithinOneIff(part: nat, whole: nat)
    requires whole > 0
    ensures part as real / whole as real <= 1.0 <==> part <= whole
  {
    var q := part as real / whole as real;
    assert q * whole as real == part as real;
    if q <= 1.0 {
      MulMono(whole as real, q, 1.0);
    } else {
      MulMono(whole as real, 1.0, q);
      assert part as real != whole as real;
    }
  }

  /** The billed share is at most a whole card exactly when the snapshot asks for no more than a card has. */
  lemma OccupancyWithinOneIff(s: Session)
    ensures Occupancy(s) <= 1.0 <==> s.cores <= 100 && (s.deviceMemMb > 0 ==> s.gpuMemMb <= s.deviceMemMb)
  {
    ShareWithinOneIff(s.cores, 100);
    if s.deviceMemMb > 0 {
      ShareWithinOneIff(s.gpuMemMb, s.deviceMemMb);
    }
  }

  /** Whole minutes since the run began, rounded up, at least one once any time has passed. */
  function ActiveMinutes(s: Session, now: int): (r: nat)
    ensures r > 0 <==> s.startedAt.Some? && s.startedAt.value < now
    ensures r > 0 ==> (now - s.startedAt.value) / SECOND <= r * 60
    ensures r > 1 ==> (r - 1) * 60 < (now - s.startedAt.value) / SECOND
  {
    if s.startedAt.None? || now <= s.startedAt.value then 0
    else Max(1, ((now - s.startedAt.value) / SECOND + 59) / 60)
  }

  /** Half up to the cent, for nonnegative amounts. */
  function RoundCents(x: real): (r: nat)
    requires x >= 0.0
    ensures r as real - 0.5 <= x < r as real + 0.5
  {
    (x + 0.5).Floor
  }

  /** Cents per hour for the slice the session occupies. */
  function HourlyCost(s: Session): (r: real)
    ensures r >= 0.0
  {
    s.rate as real * Occupancy(s)
  }

  function Bill(hourly: real, minutes: nat): nat
    requires hourly >= 0.0
  {
    RoundCents(hourly * (minutes as real / 60.0))
  }

  function Owed(s: Session, now: int): nat
  {
    Bill(HourlyCost(s), ActiveMinutes(s, now))
  }

  lemma MulMono(a: real, b: real, c: real)
    requires a >= 0.0 && b <= c
    ensures a * b <= a * c
  {
  }

  lemma BillGrows(hourly: real, a: nat, b: nat)
    requires hourly >= 0.0 && a <= b
    ensures Bill(hourly, a) <= Bill(hourly, b)
  {
    MulMono(hourly, a as real / 60.0, b as real / 60.0);
  }

  lemma MinutesGrow(s: Session, early: int, late: int)
    requires early <= late
    ensures ActiveMinutes(s, early) <= ActiveMinutes(s, late)
  {
  }

  lemma OwedGrows(s: Session, early: int, late: int)
    requires early <= late
    ensures Owed(s, early) <= Owed(s, late)
  {
    MinutesGrow(s, early, late);
    BillGrows(HourlyCost(s), ActiveMinutes(s, early), ActiveMinutes(s, late));
  }

  // ---- sums over the ledger ----

  predicate Counts(t: Txn, wallet: Id, kind: Kind, session: Id, since: Option<int>)
  {
    && t.wallet == wallet && t.kind == kind && t.ref == Some(session)
    && (since.Some? ==> since.value <= t.at)
  }

  function SumRows(txns: seq<Txn>, wallet: Id, kind: Kind, session: Id, since: Option<int>): int
  {
    if txns == [] then 0 else
      var last := txns[|txns| - 1];
      SumRows(txns[..|txns| - 1], wallet, kind, session, since)
      + (if Counts(last, wallet, kind, session, since) then last.amount else 0)
  }

  lemma SumRowsAppend(txns: seq<Txn>, t: Txn, wallet: Id, kind: Kind, session: Id, since: Option<int>)
    ensures SumRows(txns + [t], wallet, kind, session, since) ==
            SumRows(txns, wallet, kind, session, since)
            + (if Counts(t, wallet, kind, session, since) then t.amount else 0)
  {
    assert (txns + [t])[..|txns|] == txns;
  }

  /** Consume rows carry negative amounts. */
  function Spent(txns: seq<Txn>, wallet: Id, session: Id, since: Option<int>): int
  {
    -SumRows(txns, wallet, Consume, session, since)
  }

  function Held(txns: seq<Txn>, wallet: Id, session: Id): int
  {
    SumRows(txns, wallet, Hold, session, None)
  }

  /** This session's reservation that has not turned into spend. */
  function Outstanding(txns: seq<Txn>, wallet: Id, session: Id): (r: nat)
  {
    Max(0, Held(txns, wallet, session) - Spent(txns, wallet, session, None))
  }

  function AvailableFor(db: Db, wallet: Id, session: Id): int
    requires wallet in db.wallets
  {
    db.wallets[wallet].balance - db.wallets[wallet].reserved + Outstanding(db.txns, wallet, session)
  }

  // ---- keys ----

  function HoldKey(session: Id): string { "hold:" + session }

  function ConsumeKey(session: Id, bucket: string): string { "consume:" + session + ":" + bucket }

  function SettleKey(session: Id): string { "settle:" + session }

  function RefundKey(wallet: Id, nonce: string): string { "refund:" + wallet + ":" + nonce }

  // ---- operations ----

  function PlaceHold(db: Db, wallet: Id, amount: int, session: Id, at: int): Outcome
  {
    if HasKey(db.txns, HoldKey(session)) then Replay
    else if wallet !in db.wallets then Fail(InsufficientCredit)
    else
      var w := db.wallets[wallet];
      if w.balance - w.reserved < amount then Fail(InsufficientCredit)
      else Done(Write(db, wallet, w.(reserved := w.reserved + amount), Hold, amount, Some(session),
                      HoldKey(session), at))
  }

  /** Debit a session: the spend comes out of the wallet's reservation as far as it reaches. */
  function Debit(db: Db, wallet: Id, session: Id, amount: int, key: string, at: int): Db
    requires wallet in db.wallets
  {
    var w := db.wallets[wallet];
    Write(db, wallet, w.(balance := w.balance - amount, reserved := Max(0, w.reserved - amount)),
          Consume, -amount, Some(session), key, at)
  }

  /** What is still unbilled for the current run. */
  function Due(db: Db, s: Session, now: int): int
    requires s.wallet.Some?
  {
    Owed(s, now) - Spent(db.txns, s.wallet.value, s.id, s.startedAt)
  }

  /** A tick does nothing for a free or unbilled session, for a minute already billed, once the
      session is settled, or when nothing more is owed. */
  predicate TickActs(db: Db, s: Session, bucket: string, now: int)
  {
    && s.rate != 0 && s.wallet.Some?
    && !HasKey(db.txns, ConsumeKey(s.id, bucket)) && !HasKey(db.txns, SettleKey(s.id))
    && s.wallet.value in db.wallets
    && Due(db, s, now) > 0
  }

  function Tick(db: Db, s: Session, bucket: string, now: int): Db
  {
    if !TickActs(db, s, bucket, now) then db
    else
      var debit := Min(Due(db, s, now), db.wallets[s.wallet.value].balance);
      if debit <= 0 then db
      else Debit(db, s.wallet.value, s.id, debit, ConsumeKey(s.id, bucket), now)
  }

  /** The wallet could not cover this minute, or leaves nothing for the next one. */
  predicate Exhausts(db: Db, s: Session, bucket: string, now: int)
  {
    && TickActs(db, s, bucket, now)
    && (|| db.wallets[s.wallet.value].balance < Due(db, s, now)
        || AvailableFor(Tick(db, s, bucket, now), s.wallet.value, s.id) <= 0)
  }

  /** The last charge made by settle. */
  function FinalCharge(db: Db, s: Session, final: bool, now: int): (r: int)
    requires s.wallet.Some? && s.wallet.value in db.wallets
  {
    if final && s.rate != 0 then Max(0, Min(Due(db, s, now), db.wallets[s.wallet.value].balance))
    else 0
  }

  function Charged(db: Db, s: Session, final: bool, now: int): Db
    requires s.wallet.Some? && s.wallet.value in db.wallets
  {
    var charge := FinalCharge(db, s, final, now);
    if charge > 0 then Debit(db, s.wallet.value, s.id, charge, ConsumeKey(s.id, "settle"), now) else db
  }

  /** Release a session's own leftover reservation, never more than the wallet has reserved. */
  function Released(db: Db, wallet: Id, session: Id): int
    requires wallet in db.wallets
  {
    var reserved := db.wallets[wallet].reserved;
    if reserved > 0 then Min(Outstanding(db.txns, wallet, session), reserved) else 0
  }

  function GiveBack(db: Db, wallet: Id, session: Id, nonce: string, at: int): Db
    requires wallet in db.wallets
  {
    var w, back := db.wallets[wallet], Released(db, wallet, session);
    if back > 0 then
      Write(db, wallet, w.(reserved := w.reserved - back), Refund, back, Some(session),
            RefundKey(wallet, nonce), at)
    else db
  }

  /** The rows settle would insert meet no key already in use. A clash on an idempotency key rolls
      the settle back and is answered as already applied. */
  predicate SettleKeysFree(db: Db, s: Session, final: bool, now: int, nonce: string)
    requires s.wallet.Some? && s.wallet.value in db.wallets
  {
    && (FinalCharge(db, s, final, now) > 0 ==> !HasKey(db.txns, ConsumeKey(s.id, "settle")))
    && (Released(Charged(db, s, final, now), s.wallet.value, s.id) > 0 ==>
          !HasKey(db.txns, RefundKey(s.wallet.value, nonce)))
  }

  predicate SettleActs(db: Db, s: Session, final: bool, now: int, nonce: string)
  {
    && s.wallet.Some? && s.wallet.value in db.wallets
    && !HasKey(db.txns, SettleKey(s.id))
    && SettleKeysFree(db, s, final, now, nonce)
  }

  function Settled(db: Db, s: Session, final: bool, now: int, nonce: string): Db
  {
    if !SettleActs(db, s, final, now, nonce) then db
    else
      var wallet := s.wallet.value;
      var back := GiveBack(Charged(db, s, final, now), wallet, s.id, nonce, now);
      Write(back, wallet, back.wallets[wallet], Settle, 0, Some(s.id), SettleKey(s.id), now)
  }

  // ---- the ledger invariant ----

  lemma HoldKeepsLedger(db: Db, wallet: Id, amount: int, session: Id, at: int)
    requires LedgerOk(db) && amount >= 0
    ensures LedgerOk(PlaceHold(db, wallet, amount, session, at).After(db))
  {
    if PlaceHold(db, wallet, amount, session, at).Done? {
      var w := db.wallets[wallet];
      WriteKeepsLedger(db, wallet, w.(reserved := w.reserved + amount), Hold, amount, Some(session),
                       HoldKey(session), at);
    }
  }

  lemma DebitKeepsLedger(db: Db, wallet: Id, session: Id, amount: int, key: string, at: int)
    requires LedgerOk(db) && wallet in db.wallets && !HasKey(db.txns, key)
    requires 0 < amount <= db.wallets[wallet].balance
    ensures LedgerOk(Debit(db, wallet, session, amount, key, at))
  {
    var w := db.wallets[wallet];
    WriteKeepsLedger(db, wallet, w.(balance := w.balance - amount, reserved := Max(0, w.reserved - amount)),
                     Consume, -amount, Some(session), key, at);
  }

  lemma TickKeepsLedger(db: Db, s: Session, bucket: string, now: int)
    requires LedgerOk(db)
    ensures LedgerOk(Tick(db, s, bucket, now))
  {
    if TickActs(db, s, bucket, now) {
      var debit := Min(Due(db, s, now), db.wallets[s.wallet.value].balance);
      if debit > 0 {
        DebitKeepsLedger(db, s.wallet.value, s.id, debit, ConsumeKey(s.id, bucket), now);
      }
    }
  }

  lemma KeyKindsDiffer(a: string, b: string, c: string)
    ensures "consume:" + a != "settle:" + b && "consume:" + a != "refund:" + c && "settle:" + b != "refund:" + c
  {
    assert ("consume:" + a)[0] == 'c' && ("settle:" + b)[0] == 's' && ("refund:" + c)[0] == 'r';
  }

  lemma SettleKeyStaysFree(db: Db, s: Session, final: bool, now: int, nonce: string)
    requires SettleActs(db, s, final, now, nonce)
    ensures
      var charged := Charged(db, s, final, now);
      && s.wallet.value in charged.wallets
      && (Released(charged, s.wallet.value, s.id) > 0 ==>
            !HasKey(charged.txns, RefundKey(s.wallet.value, nonce)))
      && !HasKey(charged.txns, SettleKey(s.id))
      && !HasKey(GiveBack(charged, s.wallet.value, s.id, nonce, now).txns, SettleKey(s.id))
  {
    var wallet := s.wallet.value;
    assert ConsumeKey(s.id, "settle") == "consume:" + (s.id + ":settle");
    assert RefundKey(wallet, nonce) == "refund:" + (wallet + ":" + nonce);
    KeyKindsDiffer(s.id + ":settle", s.id, wallet + ":" + nonce);
    var charged := Charged(db, s, final, now);
    if FinalCharge(db, s, final, now) > 0 {
      var row := charged.txns[|db.txns|];
      HasKeyAppend(db.txns, row, SettleKey(s.id));
      HasKeyAppend(db.txns, row, RefundKey(wallet, nonce));
    }
    var back := GiveBack(charged, wallet, s.id, nonce, now);
    if Released(charged, wallet, s.id) > 0 {
      HasKeyAppend(charged.txns, back.txns[|charged.txns|], SettleKey(s.id));
    }
  }

  lemma ChargedKeepsLedger(db: Db, s: Session, final: bool, now: int, nonce: string)
    requires LedgerOk(db) && SettleActs(db, s, final, now, nonce)
    ensures LedgerOk(Charged(db, s, final, now))
  {
    if FinalCharge(db, s, final, now) > 0 {
      DebitKeepsLedger(db, s.wallet.value, s.id, FinalCharge(db, s, final, now),
                       ConsumeKey(s.id, "settle"), now);
    }
  }

  lemma GiveBackKeepsLedger(db: Db, wallet: Id, session: Id, nonce: string, at: int)
    requires LedgerOk(db) && wallet in db.wallets
    requires Released(db, wallet, session) > 0 ==> !HasKey(db.txns, RefundKey(wallet, nonce))
    ensures LedgerOk(GiveBack(db, wallet, session, nonce, at))
  {
    var w, back := db.wallets[wallet], Released(db, wallet, session);
    if back > 0 {
      WriteKeepsLedger(db, wallet, w.(reserved := w.reserved - back), Refund, back, Some(session),
                       RefundKey(wallet, nonce), at);
    }
  }

  lemma SettleKeepsLedger(db: Db, s: Session, final: bool, now: int, nonce: string)
    requires LedgerOk(db)
    ensures LedgerOk(Settled(db, s, final, now, nonce))
  {
    if SettleActs(db, s, final, now, nonce) {
      var wallet := s.wallet.value;
      SettleKeyStaysFree(db, s, final, now, nonce);
      ChargedKeepsLedger(db, s, final, now, nonce);
      var charged := Charged(db, s, final, now);
      GiveBackKeepsLedger(charged, wallet, s.id, nonce, now);
      var back := GiveBack(charged, wallet, s.id, nonce, now);
      WriteKeepsLedger(back, wallet, back.wallets[wallet], Settle, 0, Some(s.id), SettleKey(s.id), now);
    }
  }
}
