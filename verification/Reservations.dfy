/** What a wallet's `reserved` figure means when several sessions share the wallet.

    `reserved` is one number per wallet. The ledger says how much of each session's hold is still
    outstanding; the figures agree as long as no session spends past its own hold while another
    still has one. */
module Reservations {
  import opened Prelude
  import opened Sums
  import opened Ledger
  import opened Engine

  /** The wallet each session is billed to. */
  type Billing = map<Id, Id>

  predicate KnownRow(billing: Billing, t: Txn)
  {
    match t.kind
    case Hold => t.amount >= 0 && t.ref.Some? && t.ref.value in billing && billing[t.ref.value] == t.wallet
    case Consume => t.amount <= 0
    case Settle => t.amount == 0 && t.ref.Some? && t.key == SettleKey(t.ref.value)
    case Refund => t.amount >= 0
    case _ => true
  }

  predicate RowsKnown(billing: Billing, txns: seq<Txn>)
  {
    forall i :: 0 <= i < |txns| ==> KnownRow(billing, txns[i])
  }

  predicate Closed(txns: seq<Txn>, session: Id)
  {
    exists i :: 0 <= i < |txns| && txns[i].kind == Settle && txns[i].ref == Some(session)
  }

  function OpenAt(txns: seq<Txn>, wallet: Id, session: Id): (r: nat)
  {
    if Closed(txns, session) then 0 else Outstanding(txns, wallet, session)
  }

  ghost function OpenHold(txns: seq<Txn>, wallet: Id): Id -> int
  {
    (session: Id) => OpenAt(txns, wallet, session)
  }

  /** The outstanding holds of all open sessions on a wallet. */
  ghost function Backing(billing: Billing, txns: seq<Txn>, wallet: Id): int
  {
    Sum(billing.Keys, OpenHold(txns, wallet))
  }

  /** No wallet reserves more than its open sessions have outstanding. */
  ghost predicate Backed(billing: Billing, db: Db)
  {
    && RowsKnown(billing, db.txns)
    && forall id :: id in db.wallets ==> db.wallets[id].reserved <= Backing(billing, db.txns, id)
  }

  /** The figures agree exactly. */
  ghost predicate Exact(billing: Billing, db: Db, wallet: Id)
    requires wallet in db.wallets
  {
    db.wallets[wallet].reserved == Backing(billing, db.txns, wallet)
  }

  // ---- one more row ----

  lemma ClosedAppend(txns: seq<Txn>, t: Txn, session: Id)
    ensures Closed(txns + [t], session) <==> Closed(txns, session) || (t.kind == Settle && t.ref == Some(session))
  {
    var more := txns + [t];
    if Closed(txns, session) {
      var i :| 0 <= i < |txns| && txns[i].kind == Settle && txns[i].ref == Some(session);
      assert more[i] == txns[i];
    }
    assert more[|txns|] == t;
  }

  lemma OpenAppendOther(txns: seq<Txn>, t: Txn, wallet: Id, session: Id)
    requires t.ref != Some(session) || !(t.kind == Hold || t.kind == Consume || t.kind == Settle)
    ensures OpenAt(txns + [t], wallet, session) == OpenAt(txns, wallet, session)
  {
    ClosedAppend(txns, t, session);
    SumRowsAppend(txns, t, wallet, Hold, session, None);
    SumRowsAppend(txns, t, wallet, Consume, session, None);
  }

  /** A row changes the backing of a wallet only through the session it names. */
  lemma BackingAppend(billing: Billing, txns: seq<Txn>, t: Txn, wallet: Id)
    ensures Backing(billing, txns + [t], wallet) ==
            Backing(billing, txns, wallet)
            + (if t.ref.Some? && t.ref.value in billing
               then OpenAt(txns + [t], wallet, t.ref.value) - OpenAt(txns, wallet, t.ref.value) else 0)
  {
    var f, g := OpenHold(txns, wallet), OpenHold(txns + [t], wallet);
    forall session | t.ref != Some(session) ensures f(session) == g(session) {
      OpenAppendOther(txns, t, wallet, session);
    }
    if t.ref.Some? && t.ref.value in billing {
      SumUpdate(billing.Keys, f, g, t.ref.value);
    } else {
      SumAgree(billing.Keys, f, g);
    }
  }

  lemma {:induction false} SpentNonneg(billing: Billing, txns: seq<Txn>, wallet: Id, session: Id)
    requires RowsKnown(billing, txns)
    ensures Spent(txns, wallet, session, None) >= 0
  {
    if txns != [] {
      var last := txns[|txns| - 1];
      assert KnownRow(billing, last);
      SpentNonneg(billing, txns[..|txns| - 1], wallet, session);
    }
  }

  lemma {:induction false} HeldNonneg(billing: Billing, txns: seq<Txn>, wallet: Id, session: Id)
    requires RowsKnown(billing, txns)
    ensures Held(txns, wallet, session) >= 0
    ensures session !in billing || billing[session] != wallet ==> Held(txns, wallet, session) == 0
  {
    if txns != [] {
      var last := txns[|txns| - 1];
      assert KnownRow(billing, last);
      HeldNonneg(billing, txns[..|txns| - 1], wallet, session);
    }
  }

  /** A session has nothing outstanding on a wallet that does not pay for it. */
  lemma OpenElsewhere(billing: Billing, txns: seq<Txn>, wallet: Id, session: Id)
    requires RowsKnown(billing, txns)
    requires session !in billing || billing[session] != wallet
    ensures OpenAt(txns, wallet, session) == 0
  {
    HeldNonneg(billing, txns, wallet, session);
    SpentNonneg(billing, txns, wallet, session);
  }

  // ---- operations that leave reservations alone ----

  /** Reservations stay and only topup and adjust rows were added. */
  ghost predicate Plain(db: Db, db': Db)
  {
    && db.wallets.Keys == db'.wallets.Keys
    && (forall id :: id in db.wallets ==> db.wallets[id].reserved == db'.wallets[id].reserved)
    && db.txns <= db'.txns
    && (forall i :: |db.txns| <= i < |db'.txns| ==> db'.txns[i].kind == Topup || db'.txns[i].kind == Adjust)
  }

  lemma {:induction false} PlainBacking(billing: Billing, txns: seq<Txn>, more: seq<Txn>, wallet: Id)
    requires txns <= more
    requires forall i :: |txns| <= i < |more| ==> more[i].kind == Topup || more[i].kind == Adjust
    ensures Backing(billing, more, wallet) == Backing(billing, txns, wallet)
    decreases |more|
  {
    if |txns| < |more| {
      var front, t := more[..|more| - 1], more[|more| - 1];
      assert more == front + [t];
      PlainBacking(billing, txns, front, wallet);
      BackingAppend(billing, front, t, wallet);
      if t.ref.Some? {
        OpenAppendOther(front, t, wallet, t.ref.value);
      }
    } else {
      assert txns == more;
    }
  }

  lemma PlainKeepsBacked(billing: Billing, db: Db, db': Db)
    requires Plain(db, db')
    ensures Backed(billing, db) ==> Backed(billing, db')
    ensures forall id :: id in db.wallets && id in db'.wallets ==>
              (Exact(billing, db, id) <==> Exact(billing, db', id))
  {
    forall id | id in db.wallets
      ensures Backing(billing, db'.txns, id) == Backing(billing, db.txns, id)
    {
      PlainBacking(billing, db.txns, db'.txns, id);
    }
    if Backed(billing, db) {
      forall i | 0 <= i < |db'.txns| ensures KnownRow(billing, db'.txns[i]) {
        if i < |db.txns| {
          assert KnownRow(billing, db.txns[i]);
        }
      }
    }
  }

  // ---- hold ----

  /** A hold opens a session: nothing of it has been spent or settled. */
  ghost predicate Opens(billing: Billing, db: Db, wallet: Id, session: Id)
  {
    && session in billing && billing[session] == wallet
    && !Closed(db.txns, session) && Spent(db.txns, wallet, session, None) == 0
  }

  /** A hold adds to the backing of its own wallet what it reserves. */
  lemma HoldBacking(billing: Billing, db: Db, wallet: Id, session: Id, t: Txn, id: Id)
    requires RowsKnown(billing, db.txns) && Opens(billing, db, wallet, session)
    requires t.kind == Hold && t.wallet == wallet && t.ref == Some(session) && t.amount >= 0
    ensures Backing(billing, db.txns + [t], id) ==
            Backing(billing, db.txns, id) + (if id == wallet then t.amount else 0)
  {
    BackingAppend(billing, db.txns, t, id);
    ClosedAppend(db.txns, t, session);
    SumRowsAppend(db.txns, t, id, Hold, session, None);
    SumRowsAppend(db.txns, t, id, Consume, session, None);
    HeldNonneg(billing, db.txns, id, session);
    SpentNonneg(billing, db.txns, id, session);
  }

  lemma HoldKeepsBacked(billing: Billing, db: Db, wallet: Id, amount: int, session: Id, at: int)
    requires Backed(billing, db) && Opens(billing, db, wallet, session) && amount >= 0
    ensures
      var db' := PlaceHold(db, wallet, amount, session, at).After(db);
      && Backed(billing, db')
      && forall id :: id in db.wallets && id in db'.wallets ==>
           (Exact(billing, db, id) <==> Exact(billing, db', id))
  {
    var out := PlaceHold(db, wallet, amount, session, at);
    if out.Done? {
      var t := out.db.txns[|db.txns|];
      assert out.db.txns == db.txns + [t];
      forall id | id in db.wallets
        ensures Backing(billing, out.db.txns, id) ==
                Backing(billing, db.txns, id) + (if id == wallet then amount else 0)
      {
        HoldBacking(billing, db, wallet, session, t, id);
      }
    }
  }

  // ---- consume ----

  /** A debit takes from the backing what the session itself still had outstanding. */
  lemma DebitBacking(billing: Billing, db: Db, session: Id, amount: int, key: string, at: int, id: Id)
    requires RowsKnown(billing, db.txns)
    requires session in billing && billing[session] in db.wallets
    requires !Closed(db.txns, session) && amount > 0
    ensures
      var wallet := billing[session];
      var db' := Debit(db, wallet, session, amount, key, at);
      Backing(billing, db'.txns, id) ==
      Backing(billing, db.txns, id)
      - (if id == wallet then Min(OpenAt(db.txns, wallet, session), amount) else 0)
  {
    var wallet := billing[session];
    var db' := Debit(db, wallet, session, amount, key, at);
    var t := db'.txns[|db.txns|];
    assert db'.txns == db.txns + [t];
    BackingAppend(billing, db.txns, t, id);
    ClosedAppend(db.txns, t, session);
    SumRowsAppend(db.txns, t, id, Hold, session, None);
    SumRowsAppend(db.txns, t, id, Consume, session, None);
  }

  lemma OpenWithinBacking(billing: Billing, txns: seq<Txn>, wallet: Id, session: Id)
    requires session in billing
    ensures OpenAt(txns, wallet, session) <= Backing(billing, txns, wallet)
  {
    SumTerm(billing.Keys, OpenHold(txns, wallet), session);
  }

  /** A debit keeps the wallet backed. It keeps the figures exact if and only if it stays within
      the session's own outstanding hold, or no other session has anything outstanding. */
  lemma DebitExactIff(billing: Billing, db: Db, session: Id, amount: int, key: string, at: int)
    requires Backed(billing, db)
    requires session in billing && billing[session] in db.wallets
    requires !Closed(db.txns, session) && amount > 0
    ensures
      var wallet := billing[session];
      var db' := Debit(db, wallet, session, amount, key, at);
      && Backed(billing, db')
      && (Exact(billing, db, wallet) ==>
            (Exact(billing, db', wallet) <==>
             amount <= OpenAt(db.txns, wallet, session)
             || db.wallets[wallet].reserved == OpenAt(db.txns, wallet, session)))
  {
    var wallet := billing[session];
    var db' := Debit(db, wallet, session, amount, key, at);
    OpenWithinBacking(billing, db.txns, wallet, session);
    forall id | id in db'.wallets
      ensures db'.wallets[id].reserved <= Backing(billing, db'.txns, id)
    {
      DebitBacking(billing, db, session, amount, key, at, id);
    }
    DebitBacking(billing, db, session, amount, key, at, wallet);
  }

  ghost predicate BilledTo(billing: Billing, s: Session)
  {
    s.wallet.Some? ==> s.id in billing && billing[s.id] == s.wallet.value
  }

  lemma OpenUnlessKeyed(billing: Billing, txns: seq<Txn>, session: Id)
    requires RowsKnown(billing, txns) && !HasKey(txns, SettleKey(session))
    ensures !Closed(txns, session)
  {
    if i :| 0 <= i < |txns| && txns[i].kind == Settle && txns[i].ref == Some(session) {
      assert false;
    }
  }

  lemma TickKeepsBacked(billing: Billing, db: Db, s: Session, bucket: string, now: int)
    requires Backed(billing, db) && BilledTo(billing, s)
    ensures Backed(billing, Tick(db, s, bucket, now))
  {
    if TickActs(db, s, bucket, now) {
      OpenUnlessKeyed(billing, db.txns, s.id);
      var debit := Min(Due(db, s, now), db.wallets[s.wallet.value].balance);
      if debit > 0 {
        DebitExactIff(billing, db, s.id, debit, ConsumeKey(s.id, bucket), now);
      }
    }
  }

  // ---- settle ----

  lemma RefundBacking(billing: Billing, db: Db, wallet: Id, session: Id, nonce: string, at: int, id: Id)
    requires RowsKnown(billing, db.txns) && wallet in db.wallets
    ensures
      var db' := GiveBack(db, wallet, session, nonce, at);
      && RowsKnown(billing, db'.txns)
      && Backing(billing, db'.txns, id) == Backing(billing, db.txns, id)
      && (forall other :: OpenAt(db'.txns, id, other) == OpenAt(db.txns, id, other))
      && (Closed(db'.txns, session) <==> Closed(db.txns, session))
  {
    var db' := GiveBack(db, wallet, session, nonce, at);
    if Released(db, wallet, session) > 0 {
      var t := db'.txns[|db.txns|];
      assert db'.txns == db.txns + [t];
      BackingAppend(billing, db.txns, t, id);
      ClosedAppend(db.txns, t, session);
      forall other ensures OpenAt(db'.txns, id, other) == OpenAt(db.txns, id, other) {
        OpenAppendOther(db.txns, t, id, other);
      }
    }
  }

  /** Closing a session takes its outstanding hold out of the backing. */
  lemma CloseBacking(billing: Billing, db: Db, wallet: Id, session: Id, at: int, id: Id)
    requires RowsKnown(billing, db.txns) && wallet in db.wallets
    requires session in billing && billing[session] == wallet && !Closed(db.txns, session)
    ensures
      var db' := Write(db, wallet, db.wallets[wallet], Settle, 0, Some(session), SettleKey(session), at);
      && RowsKnown(billing, db'.txns)
      && Closed(db'.txns, session)
      && Backing(billing, db'.txns, id) ==
         Backing(billing, db.txns, id) - (if id == wallet then OpenAt(db.txns, wallet, session) else 0)
      && (forall other :: other != session ==> OpenAt(db'.txns, id, other) == OpenAt(db.txns, id, other))
  {
    var db' := Write(db, wallet, db.wallets[wallet], Settle, 0, Some(session), SettleKey(session), at);
    var t := db'.txns[|db.txns|];
    assert db'.txns == db.txns + [t];
    BackingAppend(billing, db.txns, t, id);
    ClosedAppend(db.txns, t, session);
    if id != wallet {
      OpenElsewhere(billing, db.txns, id, session);
    }
    forall other | other != session ensures OpenAt(db'.txns, id, other) == OpenAt(db.txns, id, other) {
      OpenAppendOther(db.txns, t, id, other);
    }
  }

  ghost function ReleaseAndClose(db: Db, wallet: Id, session: Id, nonce: string, at: int): Db
    requires wallet in db.wallets
  {
    var back := GiveBack(db, wallet, session, nonce, at);
    Write(back, wallet, back.wallets[wallet], Settle, 0, Some(session), SettleKey(session), at)
  }

  /** Releasing and closing a session keeps every wallet backed and exact figures exact, and does
      not touch what any other session has outstanding. From exact figures the session gets back
      precisely its own leftover. */
  lemma ReleaseKeepsBacked(billing: Billing, db: Db, session: Id, nonce: string, at: int)
    requires Backed(billing, db)
    requires session in billing && billing[session] in db.wallets && !Closed(db.txns, session)
    ensures
      var wallet := billing[session];
      var db' := ReleaseAndClose(db, wallet, session, nonce, at);
      && Backed(billing, db')
      && Closed(db'.txns, session)
      && (forall id, other :: other != session ==> OpenAt(db'.txns, id, other) == OpenAt(db.txns, id, other))
      && (Exact(billing, db, wallet) ==>
            Exact(billing, db', wallet)
            && Released(db, wallet, session) == OpenAt(db.txns, wallet, session))
      && (OpenAt(db.txns, wallet, session) == 0 && Exact(billing, db', wallet) ==> Exact(billing, db, wallet))
  {
    var wallet := billing[session];
    var back := GiveBack(db, wallet, session, nonce, at);
    var db' := ReleaseAndClose(db, wallet, session, nonce, at);
    OpenWithinBacking(billing, db.txns, wallet, session);
    RefundBacking(billing, db, wallet, session, nonce, at, wallet);
    CloseBacking(billing, back, wallet, session, at, wallet);
    forall id | id in db'.wallets
      ensures db'.wallets[id].reserved <= Backing(billing, db'.txns, id)
    {
      RefundBacking(billing, db, wallet, session, nonce, at, id);
      CloseBacking(billing, back, wallet, session, at, id);
    }
    forall id, other | other != session
      ensures OpenAt(db'.txns, id, other) == OpenAt(db.txns, id, other)
    {
      RefundBacking(billing, db, wallet, session, nonce, at, id);
      CloseBacking(billing, back, wallet, session, at, id);
    }
  }

  lemma ChargedKeepsBacked(billing: Billing, db: Db, s: Session, final: bool, now: int, nonce: string)
    requires Backed(billing, db) && BilledTo(billing, s) && SettleActs(db, s, final, now, nonce)
    ensures
      var charged := Charged(db, s, final, now);
      && Backed(billing, charged) && !Closed(charged.txns, s.id)
      && (Exact(billing, db, s.wallet.value) ==>
            (Exact(billing, charged, s.wallet.value) <==>
             FinalCharge(db, s, final, now) <= OpenAt(db.txns, s.wallet.value, s.id)
             || db.wallets[s.wallet.value].reserved == OpenAt(db.txns, s.wallet.value, s.id)))
      && (FinalCharge(db, s, final, now) > OpenAt(db.txns, s.wallet.value, s.id) ==>
            OpenAt(charged.txns, s.wallet.value, s.id) == 0)
  {
    OpenUnlessKeyed(billing, db.txns, s.id);
    var charge := FinalCharge(db, s, final, now);
    if charge > 0 {
      DebitExactIff(billing, db, s.id, charge, ConsumeKey(s.id, "settle"), now);
      var t := Charged(db, s, final, now).txns[|db.txns|];
      ClosedAppend(db.txns, t, s.id);
      SumRowsAppend(db.txns, t, s.wallet.value, Hold, s.id, None);
      SumRowsAppend(db.txns, t, s.wallet.value, Consume, s.id, None);
    }
  }

  /** Settling keeps the wallets backed. It leaves exact figures exact if and only if its last
      charge stays within the session's own hold or the session is alone on the wallet. */
  lemma SettleExactIff(billing: Billing, db: Db, s: Session, final: bool, now: int, nonce: string)
    requires Backed(billing, db) && BilledTo(billing, s)
    ensures Backed(billing, Settled(db, s, final, now, nonce))
    ensures SettleActs(db, s, final, now, nonce) ==>
      var db' := Settled(db, s, final, now, nonce);
      && Closed(db'.txns, s.id)
      && (Exact(billing, db, s.wallet.value) ==>
            (Exact(billing, db', s.wallet.value) <==>
             FinalCharge(db, s, final, now) <= OpenAt(db.txns, s.wallet.value, s.id)
             || db.wallets[s.wallet.value].reserved == OpenAt(db.txns, s.wallet.value, s.id)))
  {
    if SettleActs(db, s, final, now, nonce) {
      ChargedKeepsBacked(billing, db, s, final, now, nonce);
      ReleaseKeepsBacked(billing, Charged(db, s, final, now), s.id, nonce, now);
    }
  }

  // ---- consequences ----

  /** Once every session billed to a wallet is settled, the wallet reserves nothing. */
  lemma NoStrandedReservation(billing: Billing, db: Db, wallet: Id)
    requires LedgerOk(db) && Backed(billing, db) && wallet in db.wallets
    requires forall s :: s in billing && billing[s] == wallet ==> Closed(db.txns, s)
    ensures db.wallets[wallet].reserved == 0
  {
    forall s | s in billing.Keys ensures OpenHold(db.txns, wallet)(s) == 0 {
      if billing[s] != wallet {
        OpenElsewhere(billing, db.txns, wallet, s);
      }
    }
    SumConstant(billing.Keys, OpenHold(db.txns, wallet), 0);
  }

  /** With exact figures, what a session may draw on is the balance less what the other open
      sessions have outstanding: their holds are out of its reach. */
  lemma OwnSolvency(billing: Billing, db: Db, wallet: Id, session: Id)
    requires LedgerOk(db) && wallet in db.wallets && session in billing && !Closed(db.txns, session)
    requires Exact(billing, db, wallet)
    ensures AvailableFor(db, wallet, session) ==
            db.wallets[wallet].balance - Sum(billing.Keys - {session}, OpenHold(db.txns, wallet))
    ensures AvailableFor(db, wallet, session) >= OpenAt(db.txns, wallet, session)
  {
    SumRemove(billing.Keys, OpenHold(db.txns, wallet), session);
  }
}
