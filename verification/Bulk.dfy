/** Bulk allocation: the same amount from a group's wallet to every member's wallet, all or
    nothing, resumable under the same batch key. */
module Bulk {
  import opened Prelude
  import opened Sums
  import opened Ledger
  import opened Movers
  import opened Reservations

  function OutKey(idem: string, dst: Id): string { "bulk-alloc:" + idem + ":" + dst + ":out" }

  function InKey(idem: string, dst: Id): string { "bulk-alloc:" + idem + ":" + dst + ":in" }

  lemma BulkKeysDiffer(idem: string, a: Id, b: Id)
    ensures OutKey(idem, a) != InKey(idem, b)
    ensures OutKey(idem, a) == OutKey(idem, b) ==> a == b
    ensures InKey(idem, a) == InKey(idem, b) ==> a == b
  {
    var p := "bulk-alloc:" + idem + ":";
    assert OutKey(idem, a) == p + a + ":out" && OutKey(idem, b) == p + b + ":out";
    assert InKey(idem, a) == p + a + ":in" && InKey(idem, b) == p + b + ":in";
    SidesDiffer(p + a, p + b);
    assert (p + a + ":out")[|p|..|p| + |a|] == a && (p + b + ":out")[|p|..|p| + |b|] == b;
    assert (p + a + ":in")[|p|..|p| + |a|] == a && (p + b + ":in")[|p|..|p| + |b|] == b;
  }

  function OutLeg(src: Id, dst: Id, amount: int, idem: string): Leg
  {
    Leg(src, Adjust, -amount, Some("bulk-allocate-out:" + dst), OutKey(idem, dst))
  }

  function InLeg(src: Id, dst: Id, amount: int, idem: string): Leg
  {
    Leg(dst, Adjust, amount, Some("bulk-allocate-in:" + src), InKey(idem, dst))
  }

  predicate Ready(db: Db, src: Id, ws: seq<Id>)
  {
    && src in db.wallets && src !in ws
    && (forall i :: 0 <= i < |ws| ==> ws[i] in db.wallets)
    && (forall i, j :: 0 <= i < j < |ws| ==> ws[i] != ws[j])
  }

  function Fund(db: Db, src: Id, dst: Id, amount: int, idem: string, at: int): Db
    requires src in db.wallets && dst in db.wallets
  {
    Post(Post(db, OutLeg(src, dst, amount, idem), at), InLeg(src, dst, amount, idem), at)
  }

  function Available(db: Db, id: Id): int
    requires id in db.wallets
  {
    db.wallets[id].balance - db.wallets[id].reserved
  }

  /** The loop of `bulk_allocate`, member by member, with its per-member check. */
  function FundAll(db: Db, src: Id, ws: seq<Id>, amount: int, idem: string, at: int): Outcome
    requires Ready(db, src, ws)
    decreases |ws|
  {
    if ws == [] then Done(db)
    else if HasKey(db.txns, OutKey(idem, ws[0])) then FundAll(db, src, ws[1..], amount, idem, at)
    else if Available(db, src) < amount then Fail(InsufficientCredit)
    else if HasKey(db.txns, InKey(idem, ws[0])) then Fail(Conflict)
    else FundAll(Fund(db, src, ws[0], amount, idem, at), src, ws[1..], amount, idem, at)
  }

  /** Members this batch has not funded yet. */
  function Unfunded(txns: seq<Txn>, ws: seq<Id>, idem: string): nat
  {
    if ws == [] then 0
    else (if HasKey(txns, OutKey(idem, ws[0])) then 0 else 1) + Unfunded(txns, ws[1..], idem)
  }

  /** No member's credit key is taken while their debit key is free. */
  predicate NoClash(txns: seq<Txn>, ws: seq<Id>, idem: string)
  {
    forall i :: 0 <= i < |ws| && HasKey(txns, InKey(idem, ws[i])) ==> HasKey(txns, OutKey(idem, ws[i]))
  }

  lemma FundKeys(db: Db, src: Id, dst: Id, amount: int, idem: string, at: int, key: string)
    requires src in db.wallets && dst in db.wallets
    ensures HasKey(Fund(db, src, dst, amount, idem, at).txns, key) <==>
            HasKey(db.txns, key) || key == OutKey(idem, dst) || key == InKey(idem, dst)
  {
    var mid := Post(db, OutLeg(src, dst, amount, idem), at);
    var end := Fund(db, src, dst, amount, idem, at);
    HasKeyAppend(db.txns, mid.txns[|db.txns|], key);
    HasKeyAppend(mid.txns, end.txns[|mid.txns|], key);
  }

  lemma {:induction false} UnfundedUnchanged(db: Db, src: Id, dst: Id, amount: int, idem: string, at: int, ws: seq<Id>)
    requires src in db.wallets && dst in db.wallets && dst !in ws
    ensures Unfunded(Fund(db, src, dst, amount, idem, at).txns, ws, idem) == Unfunded(db.txns, ws, idem)
    decreases |ws|
  {
    if ws != [] {
      BulkKeysDiffer(idem, ws[0], dst);
      FundKeys(db, src, dst, amount, idem, at, OutKey(idem, ws[0]));
      UnfundedUnchanged(db, src, dst, amount, idem, at, ws[1..]);
    }
  }

  lemma NoClashUnchanged(db: Db, src: Id, dst: Id, amount: int, idem: string, at: int, ws: seq<Id>)
    requires src in db.wallets && dst in db.wallets && dst !in ws
    ensures NoClash(Fund(db, src, dst, amount, idem, at).txns, ws, idem) <==> NoClash(db.txns, ws, idem)
  {
    forall i | 0 <= i < |ws|
      ensures HasKey(Fund(db, src, dst, amount, idem, at).txns, OutKey(idem, ws[i])) <==> HasKey(db.txns, OutKey(idem, ws[i]))
      ensures HasKey(Fund(db, src, dst, amount, idem, at).txns, InKey(idem, ws[i])) <==> HasKey(db.txns, InKey(idem, ws[i]))
    {
      BulkKeysDiffer(idem, ws[i], dst);
      BulkKeysDiffer(idem, dst, ws[i]);
      FundKeys(db, src, dst, amount, idem, at, OutKey(idem, ws[i]));
      FundKeys(db, src, dst, amount, idem, at, InKey(idem, ws[i]));
    }
  }

  lemma NoClashTail(txns: seq<Txn>, ws: seq<Id>, idem: string)
    requires ws != []
    ensures NoClash(txns, ws, idem) <==>
            (HasKey(txns, InKey(idem, ws[0])) ==> HasKey(txns, OutKey(idem, ws[0]))) && NoClash(txns, ws[1..], idem)
  {
    var tail := ws[1..];
    if (HasKey(txns, InKey(idem, ws[0])) ==> HasKey(txns, OutKey(idem, ws[0]))) && NoClash(txns, tail, idem) {
      forall i | 0 <= i < |ws| && HasKey(txns, InKey(idem, ws[i])) ensures HasKey(txns, OutKey(idem, ws[i])) {
        if i > 0 {
          assert tail[i - 1] == ws[i];
        }
      }
    }
    if NoClash(txns, ws, idem) {
      forall i | 0 <= i < |tail| && HasKey(txns, InKey(idem, tail[i])) ensures HasKey(txns, OutKey(idem, tail[i])) {
        assert tail[i] == ws[i + 1];
      }
    }
  }

  /** The per-member check is the up-front check: the batch goes through if and only if the source
      can pay every member not yet funded under this key (and no key clashes). */
  lemma {:induction false} FundAllSucceedsIff(db: Db, src: Id, ws: seq<Id>, amount: int, idem: string, at: int)
    requires Ready(db, src, ws) && amount > 0 && 0 <= Available(db, src)
    ensures FundAll(db, src, ws, amount, idem, at).Done? <==>
            amount * Unfunded(db.txns, ws, idem) <= Available(db, src) && NoClash(db.txns, ws, idem)
    decreases |ws|
  {
    if ws != [] {
      var dst, tail := ws[0], ws[1..];
      NoClashTail(db.txns, ws, idem);
      if HasKey(db.txns, OutKey(idem, dst)) {
        FundAllSucceedsIff(db, src, tail, amount, idem, at);
      } else {
        UnfundedTimes(amount, Unfunded(db.txns, tail, idem));
        if amount <= Available(db, src) && !HasKey(db.txns, InKey(idem, dst)) {
          UnfundedUnchanged(db, src, dst, amount, idem, at, tail);
          NoClashUnchanged(db, src, dst, amount, idem, at, tail);
          FundAllSucceedsIff(Fund(db, src, dst, amount, idem, at), src, tail, amount, idem, at);
        }
      }
    }
  }

  lemma UnfundedTimes(amount: int, n: nat)
    requires amount > 0
    ensures amount * (1 + n) == amount + amount * n && amount * n >= 0
  {
  }

  /** A member's balance after the batch. */
  ghost predicate PaidOut(db: Db, db': Db, ws: seq<Id>, amount: int, idem: string, id: Id)
  {
    && id in db.wallets && id in db'.wallets
    && db'.wallets[id] == db.wallets[id].(balance := db.wallets[id].balance
         + (if id in ws && !HasKey(db.txns, OutKey(idem, id)) then amount else 0))
  }

  lemma FundWallets(db: Db, src: Id, dst: Id, amount: int, idem: string, at: int, ws: seq<Id>, id: Id)
    requires src in db.wallets && dst in db.wallets && src != dst && id in db.wallets
    requires ws != [] && ws[0] == dst && dst !in ws[1..]
    requires !HasKey(db.txns, OutKey(idem, dst)) && id != src
    ensures
      var next := Fund(db, src, dst, amount, idem, at);
      forall db' :: PaidOut(next, db', ws[1..], amount, idem, id) ==> PaidOut(db, db', ws, amount, idem, id)
  {
    assert ws == [dst] + ws[1..];
    BulkKeysDiffer(idem, id, dst);
    FundKeys(db, src, dst, amount, idem, at, OutKey(idem, id));
  }

  lemma {:induction false} FundAllSpends(db: Db, src: Id, ws: seq<Id>, amount: int, idem: string, at: int) returns (n: nat, cost: int)
    requires Ready(db, src, ws) && FundAll(db, src, ws, amount, idem, at).Done?
    ensures n == Unfunded(db.txns, ws, idem) && cost == amount * n
    ensures
      var db' := FundAll(db, src, ws, amount, idem, at).db;
      && db'.wallets.Keys == db.wallets.Keys
      && db'.wallets[src] == db.wallets[src].(balance := db.wallets[src].balance - cost)
    decreases |ws|
  {
    if ws == [] {
      return 0, 0;
    }
    var dst, tail := ws[0], ws[1..];
    if HasKey(db.txns, OutKey(idem, dst)) {
      n, cost := FundAllSpends(db, src, tail, amount, idem, at);
    } else {
      n, cost := FundAllSpends(Fund(db, src, dst, amount, idem, at), src, tail, amount, idem, at);
      UnfundedUnchanged(db, src, dst, amount, idem, at, tail);
      OneMore(amount, n);
      n, cost := n + 1, cost + amount;
    }
  }

  lemma OneMore(amount: int, n: nat)
    ensures amount * (n + 1) == amount * n + amount
  {
  }

  /** The source pays once per newly funded member. */
  lemma FundAllSource(db: Db, src: Id, ws: seq<Id>, amount: int, idem: string, at: int)
    requires Ready(db, src, ws) && FundAll(db, src, ws, amount, idem, at).Done?
    ensures
      var db' := FundAll(db, src, ws, amount, idem, at).db;
      && db'.wallets.Keys == db.wallets.Keys
      && db'.wallets[src] == db.wallets[src].(balance := db.wallets[src].balance - amount * Unfunded(db.txns, ws, idem))
  {
    var n, cost := FundAllSpends(db, src, ws, amount, idem, at);
  }

  /** Each newly funded member gets the amount, and no other wallet changes. */
  lemma {:induction false} FundAllMember(db: Db, src: Id, ws: seq<Id>, amount: int, idem: string, at: int, id: Id)
    requires Ready(db, src, ws) && FundAll(db, src, ws, amount, idem, at).Done?
    requires id in db.wallets && id != src
    ensures PaidOut(db, FundAll(db, src, ws, amount, idem, at).db, ws, amount, idem, id)
    decreases |ws|
  {
    if ws != [] {
      var dst, tail := ws[0], ws[1..];
      assert ws == [dst] + tail;
      if HasKey(db.txns, OutKey(idem, dst)) {
        FundAllMember(db, src, tail, amount, idem, at, id);
      } else {
        FundWallets(db, src, dst, amount, idem, at, ws, id);
        FundAllMember(Fund(db, src, dst, amount, idem, at), src, tail, amount, idem, at, id);
      }
    }
  }

  /** A key one of the members not yet funded is about to get. */
  predicate Keyed(txns: seq<Txn>, ws: seq<Id>, idem: string, key: string)
  {
    exists i :: 0 <= i < |ws| && !HasKey(txns, OutKey(idem, ws[i])) && (key == OutKey(idem, ws[i]) || key == InKey(idem, ws[i]))
  }

  lemma KeyedHead(txns: seq<Txn>, ws: seq<Id>, idem: string, key: string)
    requires ws != []
    ensures Keyed(txns, ws, idem, key) <==>
            || (!HasKey(txns, OutKey(idem, ws[0])) && (key == OutKey(idem, ws[0]) || key == InKey(idem, ws[0])))
            || Keyed(txns, ws[1..], idem, key)
  {
    var tail := ws[1..];
    if i :| 0 <= i < |tail| && !HasKey(txns, OutKey(idem, tail[i])) && (key == OutKey(idem, tail[i]) || key == InKey(idem, tail[i])) {
      assert ws[i + 1] == tail[i];
    }
    if i :| 1 <= i < |ws| && !HasKey(txns, OutKey(idem, ws[i])) && (key == OutKey(idem, ws[i]) || key == InKey(idem, ws[i])) {
      assert tail[i - 1] == ws[i];
    }
  }

  lemma KeyedUnchanged(db: Db, src: Id, dst: Id, amount: int, idem: string, at: int, ws: seq<Id>, key: string)
    requires src in db.wallets && dst in db.wallets && dst !in ws
    ensures Keyed(Fund(db, src, dst, amount, idem, at).txns, ws, idem, key) <==> Keyed(db.txns, ws, idem, key)
  {
    forall i | 0 <= i < |ws|
      ensures HasKey(Fund(db, src, dst, amount, idem, at).txns, OutKey(idem, ws[i])) <==> HasKey(db.txns, OutKey(idem, ws[i]))
    {
      BulkKeysDiffer(idem, ws[i], dst);
      FundKeys(db, src, dst, amount, idem, at, OutKey(idem, ws[i]));
    }
  }

  /** A successful batch adds the two keys of each member not funded before, and no other key. */
  lemma {:induction false} FundAllKeys(db: Db, src: Id, ws: seq<Id>, amount: int, idem: string, at: int, key: string)
    requires Ready(db, src, ws) && FundAll(db, src, ws, amount, idem, at).Done?
    ensures HasKey(FundAll(db, src, ws, amount, idem, at).db.txns, key) <==>
            HasKey(db.txns, key) || Keyed(db.txns, ws, idem, key)
    decreases |ws|
  {
    if ws != [] {
      var dst, tail := ws[0], ws[1..];
      KeyedHead(db.txns, ws, idem, key);
      if HasKey(db.txns, OutKey(idem, dst)) {
        FundAllKeys(db, src, tail, amount, idem, at, key);
      } else {
        FundKeys(db, src, dst, amount, idem, at, key);
        FundAllKeys(Fund(db, src, dst, amount, idem, at), src, tail, amount, idem, at, key);
        KeyedUnchanged(db, src, dst, amount, idem, at, tail, key);
      }
    }
  }

  lemma MemberKeys(db: Db, src: Id, ws: seq<Id>, amount: int, idem: string, at: int, i: nat)
    requires Ready(db, src, ws) && FundAll(db, src, ws, amount, idem, at).Done? && i < |ws|
    ensures
      var db' := FundAll(db, src, ws, amount, idem, at).db;
      && HasKey(db'.txns, OutKey(idem, ws[i]))
      && (HasKey(db'.txns, InKey(idem, ws[i])) <==>
            (HasKey(db.txns, OutKey(idem, ws[i])) ==> HasKey(db.txns, InKey(idem, ws[i]))))
  {
    FundAllKeys(db, src, ws, amount, idem, at, OutKey(idem, ws[i]));
    FundAllKeys(db, src, ws, amount, idem, at, InKey(idem, ws[i]));
    if Keyed(db.txns, ws, idem, InKey(idem, ws[i])) {
      var j :| 0 <= j < |ws| && !HasKey(db.txns, OutKey(idem, ws[j]))
               && (InKey(idem, ws[i]) == OutKey(idem, ws[j]) || InKey(idem, ws[i]) == InKey(idem, ws[j]));
      BulkKeysDiffer(idem, ws[j], ws[i]);
    }
  }

  /** Exactly one row carries the key. */
  predicate OnOneRow(txns: seq<Txn>, key: string)
  {
    exists k :: 0 <= k < |txns| && txns[k].key == key && forall l :: 0 <= l < |txns| && txns[l].key == key ==> l == k
  }

  lemma OneRowPerKey(txns: seq<Txn>, key: string)
    requires UniqueKeys(txns)
    ensures OnOneRow(txns, key) <==> HasKey(txns, key)
  {
    if HasKey(txns, key) {
      var k :| 0 <= k < |txns| && txns[k].key == key;
      forall l | 0 <= l < |txns| && txns[l].key == key ensures l == k {
        assert l < k || l == k || k < l;
      }
    }
  }

  /** After a successful batch every member has exactly one debit row and exactly one credit row under the batch's
      key, if and only if each member skipped as funded before already had the credit row. */
  lemma FundedPairsIff(db: Db, src: Id, ws: seq<Id>, amount: int, idem: string, at: int)
    requires LedgerOk(db) && Ready(db, src, ws) && amount > 0 && FundAll(db, src, ws, amount, idem, at).Done?
    ensures
      var db' := FundAll(db, src, ws, amount, idem, at).db;
      (forall i :: 0 <= i < |ws| ==> OnOneRow(db'.txns, OutKey(idem, ws[i])) && OnOneRow(db'.txns, InKey(idem, ws[i]))) <==>
      (forall i :: 0 <= i < |ws| && HasKey(db.txns, OutKey(idem, ws[i])) ==> HasKey(db.txns, InKey(idem, ws[i])))
  {
    var db' := FundAll(db, src, ws, amount, idem, at).db;
    FundAllKeeps(db, src, ws, amount, idem, at);
    forall i | 0 <= i < |ws|
      ensures OnOneRow(db'.txns, OutKey(idem, ws[i]))
      ensures OnOneRow(db'.txns, InKey(idem, ws[i])) <==>
              (HasKey(db.txns, OutKey(idem, ws[i])) ==> HasKey(db.txns, InKey(idem, ws[i])))
    {
      MemberKeys(db, src, ws, amount, idem, at, i);
      OneRowPerKey(db'.txns, OutKey(idem, ws[i]));
      OneRowPerKey(db'.txns, InKey(idem, ws[i]));
    }
  }

  lemma FundedIsSkipped(db: Db, src: Id, ws: seq<Id>, amount: int, idem: string, at: int)
    requires Ready(db, src, ws)
    requires forall i :: 0 <= i < |ws| ==> HasKey(db.txns, OutKey(idem, ws[i]))
    ensures FundAll(db, src, ws, amount, idem, at) == Done(db)
    decreases |ws|
  {
    if ws != [] {
      assert forall i :: 0 <= i < |ws[1..]| ==> ws[1..][i] == ws[i + 1];
      FundedIsSkipped(db, src, ws[1..], amount, idem, at);
    }
  }

  /** Running a finished batch again moves nothing. */
  lemma RerunMovesNothing(db: Db, src: Id, ws: seq<Id>, amount: int, idem: string, at: int, later: int)
    requires Ready(db, src, ws) && FundAll(db, src, ws, amount, idem, at).Done?
    ensures
      var db' := FundAll(db, src, ws, amount, idem, at).db;
      && Ready(db', src, ws)
      && FundAll(db', src, ws, amount, idem, later) == Done(db')
  {
    FundAllSource(db, src, ws, amount, idem, at);
    var db' := FundAll(db, src, ws, amount, idem, at).db;
    forall i | 0 <= i < |ws| ensures HasKey(db'.txns, OutKey(idem, ws[i])) {
      MemberKeys(db, src, ws, amount, idem, at, i);
    }
    FundedIsSkipped(db', src, ws, amount, idem, later);
  }

  // ---- invariants ----

  lemma FundKeepsLedger(db: Db, src: Id, dst: Id, amount: int, idem: string, at: int)
    requires LedgerOk(db) && src in db.wallets && dst in db.wallets && src != dst
    requires 0 < amount <= Available(db, src)
    requires !HasKey(db.txns, OutKey(idem, dst)) && !HasKey(db.txns, InKey(idem, dst))
    ensures LedgerOk(Fund(db, src, dst, amount, idem, at))
  {
    var out := OutLeg(src, dst, amount, idem);
    var mid := Post(db, out, at);
    PostKeepsLedger(db, out, at);
    BulkKeysDiffer(idem, dst, dst);
    HasKeyAppend(db.txns, mid.txns[|db.txns|], InKey(idem, dst));
    PostKeepsLedger(mid, InLeg(src, dst, amount, idem), at);
  }

  lemma FundMoves(db: Db, src: Id, dst: Id, amount: int, idem: string, at: int)
    requires src in db.wallets && dst in db.wallets && src != dst
    ensures Plain(db, Fund(db, src, dst, amount, idem, at))
    ensures Total(Fund(db, src, dst, amount, idem, at)) == Total(db)
  {
    var mid := Post(db, OutLeg(src, dst, amount, idem), at);
    var ids := db.wallets.Keys;
    PostMovesSum(db, OutLeg(src, dst, amount, idem), at, ids);
    PostMovesSum(mid, InLeg(src, dst, amount, idem), at, ids);
    assert Fund(db, src, dst, amount, idem, at).wallets.Keys == ids;
  }

  lemma PlainTransitive(a: Db, b: Db, c: Db)
    requires Plain(a, b) && Plain(b, c)
    ensures Plain(a, c)
  {
    assert forall i :: |a.txns| <= i < |b.txns| ==> c.txns[i] == b.txns[i];
  }

  /** A batch keeps the ledger in order and the total of all wallets. */
  lemma {:induction false} FundAllKeeps(db: Db, src: Id, ws: seq<Id>, amount: int, idem: string, at: int)
    requires LedgerOk(db) && Ready(db, src, ws) && amount > 0
    ensures
      var db' := FundAll(db, src, ws, amount, idem, at).After(db);
      LedgerOk(db') && Total(db') == Total(db) && Plain(db, db')
    decreases |ws|
  {
    if ws != [] {
      var dst, tail := ws[0], ws[1..];
      if HasKey(db.txns, OutKey(idem, dst)) {
        FundAllKeeps(db, src, tail, amount, idem, at);
      } else if amount <= Available(db, src) && !HasKey(db.txns, InKey(idem, dst)) {
        var next := Fund(db, src, dst, amount, idem, at);
        FundKeepsLedger(db, src, dst, amount, idem, at);
        FundMoves(db, src, dst, amount, idem, at);
        FundAllKeeps(next, src, tail, amount, idem, at);
        var out := FundAll(db, src, ws, amount, idem, at);
        if out.Done? {
          PlainTransitive(db, next, out.db);
        }
      }
    }
  }
}
