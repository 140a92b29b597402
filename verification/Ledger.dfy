/** The credit tables and what it means for them to be in order.

    Amounts are whole cents: the columns are Numeric(18, 2). A wallet row and the ledger row that
    explains its change are always written together, so a handler is described by the legs it
    posts. */
module Ledger {
  import opened Prelude
  import opened Sums

  datatype OwnerType = System | Org | Group | User

  datatype Wallet = Wallet(ownerType: OwnerType, ownerId: Id, balance: int, reserved: int, grant: int)

  datatype Kind = Topup | Hold | Consume | Refund | Settle | Adjust

  datatype Txn = Txn(wallet: Id, kind: Kind, amount: int, balanceAfter: int,
                     ref: Option<string>, key: string, at: int)

  datatype Status = Pending | Approved | Rejected

  datatype Scope = SystemScope | OrgScope | GroupScope

  datatype AllocRequest = AllocRequest(target: Id, scope: Scope, fulfiller: Option<Id>,
                                       amount: int, status: Status)

  datatype TopupRequest = TopupRequest(wallet: Id, amount: int, status: Status)

  datatype Db = Db(wallets: map<Id, Wallet>, txns: seq<Txn>,
                   requests: map<Id, AllocRequest>, topups: map<Id, TopupRequest>)

  datatype Error = NotFound | Validation | Forbidden | InsufficientCredit | InsufficientPool | Conflict

  /** How a handler ends: committed, answered from an earlier row, or rolled back. */
  datatype Outcome = Done(db: Db) | Replay | Fail(error: Error)
  {
    /** The committed state after the handler. */
    function After(before: Db): (r: Db)
    {
      if Done? then db else before
    }
  }

  /** Holds and refunds move `reserved` only, and a settle row moves nothing. */
  predicate MovesBalance(k: Kind)
  {
    k == Topup || k == Consume || k == Adjust
  }

  function Effect(t: Txn, wallet: Id): int
  {
    if t.wallet == wallet && MovesBalance(t.kind) then t.amount else 0
  }

  /** What the ledger says a wallet holds. */
  function Running(txns: seq<Txn>, wallet: Id): int
  {
    if txns == [] then 0 else
      Running(txns[..|txns| - 1], wallet) + Effect(txns[|txns| - 1], wallet)
  }

  predicate HasKey(txns: seq<Txn>, key: string)
  {
    exists i :: 0 <= i < |txns| && txns[i].key == key
  }

  predicate UniqueKeys(txns: seq<Txn>)
  {
    forall i, j :: 0 <= i < j < |txns| ==> txns[i].key != txns[j].key
  }

  /** The CHECK on credit_wallet. */
  predicate WalletSigma(w: Wallet)
  {
    0 <= w.reserved <= w.balance
  }

  predicate RowOk(txns: seq<Txn>, i: nat)
    requires i < |txns|
  {
    txns[i].balanceAfter == Running(txns[..i + 1], txns[i].wallet)
  }

  /** The ledger invariant: every wallet equals the sum of its rows, every row records the balance
      at its point in the history, reservations are covered and no key is used twice. */
  ghost predicate LedgerOk(db: Db)
  {
    && (forall id :: id in db.wallets ==>
          WalletSigma(db.wallets[id]) && db.wallets[id].balance == Running(db.txns, id))
    && (forall i :: 0 <= i < |db.txns| ==> db.txns[i].wallet in db.wallets)
    && (forall i :: 0 <= i < |db.txns| ==> RowOk(db.txns, i))
    && UniqueKeys(db.txns)
  }

  /** One wallet change together with its ledger row. */
  function Write(db: Db, id: Id, w: Wallet, kind: Kind, amount: int,
                 ref: Option<string>, key: string, at: int): Db
  {
    db.(wallets := db.wallets[id := w],
        txns := db.txns + [Txn(id, kind, amount, w.balance, ref, key, at)])
  }

  lemma RunningAppend(txns: seq<Txn>, t: Txn, wallet: Id)
    ensures Running(txns + [t], wallet) == Running(txns, wallet) + Effect(t, wallet)
  {
    assert (txns + [t])[..|txns|] == txns;
  }

  lemma HasKeyAppend(txns: seq<Txn>, t: Txn, key: string)
    ensures HasKey(txns + [t], key) <==> HasKey(txns, key) || t.key == key
  {
    if HasKey(txns, key) {
      var i :| 0 <= i < |txns| && txns[i].key == key;
      assert (txns + [t])[i].key == key;
    }
    assert (txns + [t])[|txns|] == t;
  }

  /** Every write that moves the balance by exactly the amount it records keeps the invariant. */
  lemma WriteKeepsLedger(db: Db, id: Id, w: Wallet, kind: Kind, amount: int,
                         ref: Option<string>, key: string, at: int)
    requires LedgerOk(db) && id in db.wallets && !HasKey(db.txns, key)
    requires WalletSigma(w)
    requires w.balance == db.wallets[id].balance + (if MovesBalance(kind) then amount else 0)
    ensures LedgerOk(Write(db, id, w, kind, amount, ref, key, at))
  {
    var db' := Write(db, id, w, kind, amount, ref, key, at);
    var t := db'.txns[|db.txns|];
    forall other | other in db'.wallets
      ensures db'.wallets[other].balance == Running(db'.txns, other)
    {
      RunningAppend(db.txns, t, other);
    }
    forall i | 0 <= i < |db'.txns|
      ensures RowOk(db'.txns, i)
    {
      if i < |db.txns| {
        assert db'.txns[..i + 1] == db.txns[..i + 1];
        assert RowOk(db.txns, i);
      } else {
        assert db'.txns[..i + 1] == db'.txns;
        RunningAppend(db.txns, t, id);
      }
    }
  }

  // ---- legs ----

  /** A balance movement on one wallet, with the row that records it. */
  datatype Leg = Leg(wallet: Id, kind: Kind, amount: int, ref: Option<string>, key: string)

  function Post(db: Db, leg: Leg, at: int): Db
    requires leg.wallet in db.wallets
  {
    var w := db.wallets[leg.wallet];
    Write(db, leg.wallet, w.(balance := w.balance + leg.amount), leg.kind, leg.amount,
          leg.ref, leg.key, at)
  }

  predicate Covers(wallets: map<Id, Wallet>, leg: Leg)
  {
    && leg.wallet in wallets
    && wallets[leg.wallet].reserved <= wallets[leg.wallet].balance + leg.amount
  }

  lemma PostKeepsLedger(db: Db, leg: Leg, at: int)
    requires LedgerOk(db) && Covers(db.wallets, leg) && MovesBalance(leg.kind)
    requires !HasKey(db.txns, leg.key)
    ensures LedgerOk(Post(db, leg, at))
  {
    var w := db.wallets[leg.wallet];
    WriteKeepsLedger(db, leg.wallet, w.(balance := w.balance + leg.amount), leg.kind, leg.amount,
                     leg.ref, leg.key, at);
  }

  // ---- totals ----

  ghost function BalanceOf(db: Db): Id -> int
  {
    (id: Id) => if id in db.wallets then db.wallets[id].balance else 0
  }

  ghost function Total(db: Db): int
  {
    Sum(db.wallets.Keys, BalanceOf(db))
  }

  /** A leg changes the balance total of a set of wallets by its amount if it lands in the set,
      and not at all otherwise. */
  lemma PostMovesSum(db: Db, leg: Leg, at: int, s: set<Id>)
    requires leg.wallet in db.wallets
    ensures Sum(s, BalanceOf(Post(db, leg, at))) ==
            Sum(s, BalanceOf(db)) + (if leg.wallet in s then leg.amount else 0)
  {
    var f, g := BalanceOf(db), BalanceOf(Post(db, leg, at));
    if leg.wallet in s {
      SumUpdate(s, f, g, leg.wallet);
    } else {
      SumAgree(s, f, g);
    }
  }
}
