/** Metered billing over a whole run of a session: charging the difference between what is owed and
    what was already charged leaves no rounding drift, whatever minutes are billed, repeated or
    missed in between. */
module Metering {
  import opened Prelude
  import opened Ledger
  import opened Engine

  /** What has been charged for the current run. */
  function Metered(db: Db, s: Session): int
    requires s.wallet.Some?
  {
    Spent(db.txns, s.wallet.value, s.id, s.startedAt)
  }

  /** The tick is not a repeat, and the session is billable and open. */
  predicate Live(db: Db, s: Session, bucket: string)
  {
    && s.rate != 0 && s.wallet.Some? && s.wallet.value in db.wallets
    && !HasKey(db.txns, ConsumeKey(s.id, bucket)) && !HasKey(db.txns, SettleKey(s.id))
  }

  lemma DebitMeters(db: Db, s: Session, amount: int, key: string, now: int)
    requires s.wallet.Some? && s.wallet.value in db.wallets
    requires s.startedAt.Some? && s.startedAt.value <= now
    ensures Metered(Debit(db, s.wallet.value, s.id, amount, key, now), s) == Metered(db, s) + amount
  {
    var db' := Debit(db, s.wallet.value, s.id, amount, key, now);
    SumRowsAppend(db.txns, db'.txns[|db.txns|], s.wallet.value, Consume, s.id, s.startedAt);
  }

  /** Nothing is owed before the run begins. */
  lemma OwedNeedsARun(s: Session, now: int)
    ensures Owed(s, now) > 0 ==> s.startedAt.Some? && s.startedAt.value < now
  {
    assert ActiveMinutes(s, now) == 0 ==> HourlyCost(s) * (0 as real / 60.0) == 0.0;
  }

  /** One tick raises the meter to what is owed now, never past it, and exactly to it when the
      balance covers the difference. */
  lemma TickMeters(db: Db, s: Session, bucket: string, now: int)
    requires s.wallet.Some? && LedgerOk(db) && Metered(db, s) >= 0
    ensures
      var after := Metered(Tick(db, s, bucket, now), s);
      && Metered(db, s) <= after <= Max(Metered(db, s), Owed(s, now))
      && (Live(db, s, bucket) && Due(db, s, now) <= db.wallets[s.wallet.value].balance ==>
            after == Max(Metered(db, s), Owed(s, now)))
  {
    if TickActs(db, s, bucket, now) {
      OwedNeedsARun(s, now);
      var debit := Min(Due(db, s, now), db.wallets[s.wallet.value].balance);
      if debit > 0 {
        DebitMeters(db, s, debit, ConsumeKey(s.id, bucket), now);
      }
    }
  }

  // ---- runs ----

  /** Billing ticks of one session, and anything else that happens to the tables meanwhile. */
  datatype Event = TickAt(bucket: string, now: int) | Elsewhere(next: Db)

  function Apply(db: Db, s: Session, e: Event): Db
  {
    match e
    case TickAt(bucket, now) => Tick(db, s, bucket, now)
    case Elsewhere(next) => next
  }

  function Play(db: Db, s: Session, events: seq<Event>): Db
  {
    if events == [] then db
    else Apply(Play(db, s, events[..|events| - 1]), s, events[|events| - 1])
  }

  /** Other operations keep the ledger in order and never charge this session. */
  ghost predicate Legal(db: Db, s: Session, events: seq<Event>)
    requires s.wallet.Some?
  {
    events != [] ==>
      var front, e := events[..|events| - 1], events[|events| - 1];
      && Legal(db, s, front)
      && (e.Elsewhere? ==> LedgerOk(e.next) && Metered(e.next, s) == Metered(Play(db, s, front), s))
  }

  /** The most that was ever owed at a tick. */
  function Peak(s: Session, events: seq<Event>): nat
  {
    if events == [] then 0 else
      var e := events[|events| - 1];
      var before := Peak(s, events[..|events| - 1]);
      if e.TickAt? then Max(before, Owed(s, e.now)) else before
  }

  /** However ticks repeat or interleave, a run is never charged more than the most it owed. */
  lemma {:induction false} NeverOvercharged(db: Db, s: Session, events: seq<Event>)
    requires s.wallet.Some? && LedgerOk(db) && Metered(db, s) >= 0 && Legal(db, s, events)
    ensures LedgerOk(Play(db, s, events))
    ensures Metered(db, s) <= Metered(Play(db, s, events), s) <= Max(Metered(db, s), Peak(s, events))
    decreases |events|
  {
    if events != [] {
      var front, e := events[..|events| - 1], events[|events| - 1];
      NeverOvercharged(db, s, front);
      if e.TickAt? {
        TickMeters(Play(db, s, front), s, e.bucket, e.now);
        TickKeepsLedger(Play(db, s, front), s, e.bucket, e.now);
      }
    }
  }

  /** No earlier tick of the run is later than `now`. */
  predicate NotAfter(events: seq<Event>, now: int)
  {
    forall i :: 0 <= i < |events| && events[i].TickAt? ==> events[i].now <= now
  }

  lemma {:induction false} PeakBounded(s: Session, events: seq<Event>, now: int)
    requires NotAfter(events, now)
    ensures Peak(s, events) <= Owed(s, now)
    decreases |events|
  {
    if events != [] {
      PeakBounded(s, events[..|events| - 1], now);
      if events[|events| - 1].TickAt? {
        OwedGrows(s, events[|events| - 1].now, now);
      }
    }
  }

  /** Zero drift: after a tick that is not a repeat and is covered, the run has been charged what it
      owes at that moment to the cent, no matter how many ticks came before it or which minutes were
      missed. */
  lemma ZeroDrift(db: Db, s: Session, events: seq<Event>, bucket: string, now: int)
    requires s.wallet.Some? && LedgerOk(db) && Metered(db, s) == 0 && Legal(db, s, events)
    requires NotAfter(events, now)
    requires Live(Play(db, s, events), s, bucket)
    requires Due(Play(db, s, events), s, now) <= Play(db, s, events).wallets[s.wallet.value].balance
    ensures Metered(Play(db, s, events + [TickAt(bucket, now)]), s) == Owed(s, now)
  {
    var more := events + [TickAt(bucket, now)];
    assert more[..|events|] == events;
    NeverOvercharged(db, s, events);
    PeakBounded(s, events, now);
    TickMeters(Play(db, s, events), s, bucket, now);
  }

  // ---- the last charge ----

  /** Settle closes the bill at what is owed now or as far as the balance reaches, and no later
      tick or settle charges the session again. */
  lemma SettleClosesTheBill(db: Db, s: Session, final: bool, now: int, nonce: string)
    requires LedgerOk(db) && SettleActs(db, s, final, now, nonce) && Metered(db, s) >= 0
    ensures
      var db' := Settled(db, s, final, now, nonce);
      && Metered(db', s) == Metered(db, s) + FinalCharge(db, s, final, now)
      && Metered(db', s) <= Max(Metered(db, s), Owed(s, now))
      && (final && s.rate != 0 && Due(db, s, now) <= db.wallets[s.wallet.value].balance ==>
            Metered(db', s) == Max(Metered(db, s), Owed(s, now)))
      && (forall bucket, later :: Tick(db', s, bucket, later) == db')
      && (forall final', later, nonce' :: Settled(db', s, final', later, nonce') == db')
  {
    var wallet := s.wallet.value;
    var charge := FinalCharge(db, s, final, now);
    var charged := Charged(db, s, final, now);
    if charge > 0 {
      OwedNeedsARun(s, now);
      DebitMeters(db, s, charge, ConsumeKey(s.id, "settle"), now);
    }
    var back := GiveBack(charged, wallet, s.id, nonce, now);
    if Released(charged, wallet, s.id) > 0 {
      SumRowsAppend(charged.txns, back.txns[|charged.txns|], wallet, Consume, s.id, s.startedAt);
    }
    var db' := Settled(db, s, final, now, nonce);
    var last := db'.txns[|back.txns|];
    SumRowsAppend(back.txns, last, wallet, Consume, s.id, s.startedAt);
    HasKeyAppend(back.txns, last, SettleKey(s.id));
  }
}
