/** The monthly refill sweep: every wallet with a grant is topped up to it, in id order, in batches
    that commit one by one, at most once per wallet and month. */
module Refill {
  import opened Prelude
  import opened Ledger
  import opened Reservations

  function RefillKey(id: Id, tag: string): string { "refill:" + id + ":" + tag }

  /** The grant, but never below what is reserved. */
  function Target(w: Wallet): int
  {
    if w.grant >= w.reserved then w.grant else w.reserved
  }

  predicate NeedsRefill(db: Db, id: Id, tag: string)
  {
    && id in db.wallets && db.wallets[id].grant > 0
    && !HasKey(db.txns, RefillKey(id, tag))
    && db.wallets[id].balance < Target(db.wallets[id])
  }

  function RefillLeg(db: Db, id: Id, tag: string): Leg
    requires id in db.wallets
  {
    Leg(id, Adjust, Target(db.wallets[id]) - db.wallets[id].balance, Some("monthly_refill"), RefillKey(id, tag))
  }

  function RefillOne(db: Db, id: Id, tag: string, at: int): Db
  {
    if NeedsRefill(db, id, tag) then Post(db, RefillLeg(db, id, tag), at) else db
  }

  function Sweep(db: Db, ids: seq<Id>, tag: string, at: int): Db
  {
    if ids == [] then db
    else RefillOne(Sweep(db, ids[..|ids| - 1], tag, at), ids[|ids| - 1], tag, at)
  }

  lemma RefillKeysDiffer(a: Id, b: Id, tag: string)
    ensures RefillKey(a, tag) == RefillKey(b, tag) ==> a == b
  {
    assert RefillKey(a, tag)[7..7 + |a|] == a && RefillKey(b, tag)[7..7 + |b|] == b;
  }

  /** Refilling a wallet settles it for the month and leaves every other wallet as it was. */
  lemma RefillOneLocal(db: Db, id: Id, tag: string, at: int, other: Id)
    ensures
      var db' := RefillOne(db, id, tag, at);
      && !NeedsRefill(db', id, tag)
      && (other != id ==>
            && (NeedsRefill(db', other, tag) <==> NeedsRefill(db, other, tag))
            && (other in db'.wallets <==> other in db.wallets)
            && (other in db.wallets ==> db'.wallets[other] == db.wallets[other]))
  {
    if NeedsRefill(db, id, tag) {
      var db' := RefillOne(db, id, tag, at);
      var t := db'.txns[|db.txns|];
      HasKeyAppend(db.txns, t, RefillKey(id, tag));
      HasKeyAppend(db.txns, t, RefillKey(other, tag));
      RefillKeysDiffer(id, other, tag);
    }
  }

  lemma {:induction false} SweepAppend(db: Db, a: seq<Id>, b: seq<Id>, tag: string, at: int)
    ensures Sweep(db, a + b, tag, at) == Sweep(Sweep(db, a, tag, at), b, tag, at)
    decreases |b|
  {
    if b == [] {
      assert a + b == a;
    } else {
      assert (a + b)[..|a + b| - 1] == a + b[..|b| - 1];
      SweepAppend(db, a, b[..|b| - 1], tag, at);
    }
  }

  /** After a sweep every listed wallet that had not been refilled this month stands at its target,
      exactly there if it was below, and no other wallet has changed. */
  lemma {:induction false} SweepTopsUp(db: Db, ids: seq<Id>, tag: string, at: int, id: Id)
    ensures
      var db' := Sweep(db, ids, tag, at);
      && (id in ids ==> !NeedsRefill(db', id, tag))
      && (id !in ids ==> (NeedsRefill(db', id, tag) <==> NeedsRefill(db, id, tag)))
      && (id in db'.wallets <==> id in db.wallets)
      && (id in db.wallets ==>
            db'.wallets[id] == if id in ids && NeedsRefill(db, id, tag)
                               then db.wallets[id].(balance := Target(db.wallets[id]))
                               else db.wallets[id])
    decreases |ids|
  {
    if ids != [] {
      var front, last := ids[..|ids| - 1], ids[|ids| - 1];
      assert ids == front + [last];
      SweepTopsUp(db, front, tag, at, id);
      RefillOneLocal(Sweep(db, front, tag, at), last, tag, at, id);
    }
  }

  lemma {:induction false} NothingToSweep(db: Db, ids: seq<Id>, tag: string, at: int)
    requires forall id :: id in ids ==> !NeedsRefill(db, id, tag)
    ensures Sweep(db, ids, tag, at) == db
    decreases |ids|
  {
    if ids != [] {
      assert ids[|ids| - 1] in ids;
      assert forall id :: id in ids[..|ids| - 1] ==> id in ids;
      NothingToSweep(db, ids[..|ids| - 1], tag, at);
    }
  }

  /** A sweep cut off after any number of wallets and started over ends where an uninterrupted one
      does: no wallet is missed and none is credited twice. */
  lemma InterruptedSweepResumes(db: Db, ids: seq<Id>, k: nat, tag: string, at: int)
    requires k <= |ids|
    ensures Sweep(Sweep(db, ids[..k], tag, at), ids, tag, at) == Sweep(db, ids, tag, at)
  {
    var db' := Sweep(db, ids[..k], tag, at);
    assert ids == ids[..k] + ids[k..];
    SweepAppend(db', ids[..k], ids[k..], tag, at);
    SweepAppend(db, ids[..k], ids[k..], tag, at);
    forall id | id in ids[..k] ensures !NeedsRefill(db', id, tag) {
      SweepTopsUp(db, ids[..k], tag, at, id);
    }
    NothingToSweep(db', ids[..k], tag, at);
  }

  lemma RefillOneKeeps(db: Db, id: Id, tag: string, at: int)
    requires LedgerOk(db)
    ensures LedgerOk(RefillOne(db, id, tag, at)) && Plain(db, RefillOne(db, id, tag, at))
  {
    if NeedsRefill(db, id, tag) {
      PostKeepsLedger(db, RefillLeg(db, id, tag), at);
    }
  }

  lemma {:induction false} SweepKeeps(db: Db, ids: seq<Id>, tag: string, at: int)
    requires LedgerOk(db)
    ensures LedgerOk(Sweep(db, ids, tag, at)) && Plain(db, Sweep(db, ids, tag, at))
    decreases |ids|
  {
    if ids != [] {
      var front := Sweep(db, ids[..|ids| - 1], tag, at);
      SweepKeeps(db, ids[..|ids| - 1], tag, at);
      RefillOneKeeps(front, ids[|ids| - 1], tag, at);
      var db' := Sweep(db, ids, tag, at);
      assert forall i :: |db.txns| <= i < |front.txns| ==> db'.txns[i] == front.txns[i];
    }
  }

  // ---- batches ----

  predicate Ascending(ids: seq<Id>)
  {
    forall i, j :: 0 <= i < j < |ids| ==> Before(ids[i], ids[j])
  }

  /** Rows of the id index with a grant. */
  function Eligible(db: Db, index: seq<Id>): seq<Id>
  {
    if index == [] then []
    else (if index[0] in db.wallets && db.wallets[index[0]].grant > 0 then [index[0]] else [])
         + Eligible(db, index[1..])
  }

  /** `id > last`. */
  function Beyond(ids: seq<Id>, last: Id): seq<Id>
  {
    if ids == [] then []
    else (if Before(last, ids[0]) then [ids[0]] else []) + Beyond(ids[1..], last)
  }

  /** One batch of the sweep's query. */
  function Page(db: Db, index: seq<Id>, last: Id, limit: nat): seq<Id>
  {
    var rows := Eligible(db, Beyond(index, last));
    rows[..Min(limit, |rows|)]
  }

  lemma {:induction false} EligibleAscending(db: Db, index: seq<Id>)
    requires Ascending(index)
    ensures Ascending(Eligible(db, index))
    ensures forall id :: id in Eligible(db, index) ==> id in index
    decreases |index|
  {
    if index != [] {
      var tail := index[1..];
      assert forall i :: 0 <= i < |tail| ==> tail[i] == index[i + 1];
      EligibleAscending(db, tail);
      var e := Eligible(db, tail);
      forall i | 0 <= i < |e| ensures Before(index[0], e[i]) {
        assert e[i] in tail;
      }
    }
  }

  lemma {:induction false} FiltersCommute(db: Db, index: seq<Id>, last: Id)
    ensures Eligible(db, Beyond(index, last)) == Beyond(Eligible(db, index), last)
    decreases |index|
  {
    if index != [] {
      FiltersCommute(db, index[1..], last);
      var keep, pass := index[0] in db.wallets && db.wallets[index[0]].grant > 0, Before(last, index[0]);
      var b, e := Beyond(index[1..], last), Eligible(db, index[1..]);
      if pass {
        assert ([index[0]] + b)[1..] == b;
      } else {
        assert [] + b == b;
      }
      if keep {
        assert ([index[0]] + e)[1..] == e;
      } else {
        assert [] + e == e;
      }
    }
  }

  lemma {:induction false} BeyondAll(ids: seq<Id>, last: Id)
    requires forall i :: 0 <= i < |ids| ==> Before(last, ids[i])
    ensures Beyond(ids, last) == ids
    decreases |ids|
  {
    if ids != [] {
      assert forall i :: 0 <= i < |ids[1..]| ==> ids[1..][i] == ids[i + 1];
      BeyondAll(ids[1..], last);
    }
  }

  lemma {:induction false} BeyondMember(ids: seq<Id>, k: nat)
    requires Ascending(ids) && k < |ids|
    ensures Beyond(ids, ids[k]) == ids[k + 1..]
    decreases |ids|
  {
    var tail := ids[1..];
    assert forall i :: 0 <= i < |tail| ==> tail[i] == ids[i + 1];
    if k == 0 {
      BeforeIrreflexive(ids[0]);
      BeyondAll(tail, ids[0]);
    } else {
      BeforeAsymmetric(ids[0], ids[k]);
      assert tail[k - 1] == ids[k];
      BeyondMember(tail, k - 1);
    }
  }

  /** Where the sweep stands after `k` wallets: `last` is the k-th eligible id, or "" at the start. */
  predicate AtPosition(db: Db, index: seq<Id>, last: Id, k: nat)
  {
    var e := Eligible(db, index);
    k <= |e| && last == if k == 0 then "" else e[k - 1]
  }

  /** What lies beyond the last wallet done is what is left. */
  lemma BeyondIsTheRest(db: Db, index: seq<Id>, last: Id, k: nat)
    requires Ascending(index) && AtPosition(db, index, last, k)
    requires forall i :: 0 <= i < |index| ==> index[i] != ""
    ensures Eligible(db, Beyond(index, last)) == Eligible(db, index)[k..]
  {
    var e := Eligible(db, index);
    EligibleAscending(db, index);
    FiltersCommute(db, index, last);
    if k == 0 {
      forall i | 0 <= i < |e| ensures Before("", e[i]) {
        assert e[i] in index;
      }
      BeyondAll(e, "");
    } else {
      BeyondMember(e, k - 1);
    }
  }

  /** The next batch continues exactly where the previous one stopped. */
  lemma PageContinues(db: Db, index: seq<Id>, last: Id, k: nat, limit: nat)
    requires Ascending(index) && AtPosition(db, index, last, k) && limit > 0
    requires forall i :: 0 <= i < |index| ==> index[i] != ""
    ensures
      var e := Eligible(db, index);
      var page := Page(db, index, last, limit);
      && k + |page| <= |e| && page == e[k..k + |page|]
      && (page == [] <==> k == |e|)
      && (page != [] ==> AtPosition(db, index, page[|page| - 1], k + |page|))
  {
    BeyondIsTheRest(db, index, last, k);
    var e := Eligible(db, index);
    SliceOfRest(e, k, Min(limit, |e| - k));
  }

  lemma SliceOfRest<T>(s: seq<T>, k: nat, n: nat)
    requires k + n <= |s|
    ensures s[k..][..n] == s[k..k + n]
    ensures n > 0 ==> s[k..k + n][n - 1] == s[k + n - 1]
  {
  }

  /** The sweep does not change which wallets are eligible. */
  lemma {:induction false} SweepKeepsEligible(db: Db, ids: seq<Id>, tag: string, at: int, index: seq<Id>)
    ensures Eligible(Sweep(db, ids, tag, at), index) == Eligible(db, index)
    decreases |index|
  {
    if index != [] {
      SweepTopsUp(db, ids, tag, at, index[0]);
      SweepKeepsEligible(db, ids, tag, at, index[1..]);
    }
  }

  lemma SweepSplice(db: Db, ids: seq<Id>, k: nat, batch: seq<Id>, tag: string, at: int)
    requires k + |batch| <= |ids| && batch == ids[k..k + |batch|]
    ensures Sweep(Sweep(db, ids[..k], tag, at), batch, tag, at) == Sweep(db, ids[..k + |batch|], tag, at)
  {
    assert ids[..k + |batch|] == ids[..k] + batch;
    SweepAppend(db, ids[..k], batch, tag, at);
  }

  lemma SweepKeepsPage(db: Db, ids: seq<Id>, tag: string, at: int, index: seq<Id>, last: Id, limit: nat)
    ensures Page(Sweep(db, ids, tag, at), index, last, limit) == Page(db, index, last, limit)
  {
    SweepKeepsEligible(db, ids, tag, at, Beyond(index, last));
  }

  /** The sweep of `start` has come to `here`, with the first `k` eligible wallets done. */
  predicate Progress(start: Db, here: Db, index: seq<Id>, last: Id, k: nat, tag: string, at: int)
  {
    AtPosition(start, index, last, k) && here == Sweep(start, Eligible(start, index)[..k], tag, at)
  }

  lemma SweepStart(start: Db, index: seq<Id>, tag: string, at: int)
    ensures Progress(start, start, index, "", 0, tag, at)
  {
    assert Eligible(start, index)[..0] == [];
  }

  /** Refilling one page moves the sweep on by exactly that page. */
  lemma PageStep(start: Db, here: Db, index: seq<Id>, last: Id, k: nat, limit: nat, tag: string, at: int)
    requires Ascending(index) && Progress(start, here, index, last, k, tag, at) && limit > 0
    requires forall i :: 0 <= i < |index| ==> index[i] != ""
    ensures
      var page := Page(start, index, last, limit);
      && k + |page| <= |Eligible(start, index)|
      && (page == [] <==> k == |Eligible(start, index)|)
      && Progress(start, Sweep(here, page, tag, at), index, if page == [] then last else page[|page| - 1], k + |page|, tag, at)
  {
    PageContinues(start, index, last, k, limit);
    SweepSplice(start, Eligible(start, index), k, Page(start, index, last, limit), tag, at);
  }

  lemma SweepDone(start: Db, here: Db, index: seq<Id>, last: Id, k: nat, tag: string, at: int)
    requires Progress(start, here, index, last, k, tag, at) && k == |Eligible(start, index)|
    ensures here == Sweep(start, Eligible(start, index), tag, at)
  {
    assert Eligible(start, index)[..k] == Eligible(start, index);
  }

  // ---- the figures ----

  lemma {:induction false} EligibleIff(db: Db, index: seq<Id>, id: Id)
    ensures id in Eligible(db, index) <==> id in index && id in db.wallets && db.wallets[id].grant > 0
    decreases |index|
  {
    if index != [] {
      assert index == [index[0]] + index[1..];
      EligibleIff(db, index[1..], id);
    }
  }

  /** The monthly sweep over the wallets of an index: every wallet with a grant that has no row for the month ends
      at the largest of its balance, its grant and its reservation, and no other figure changes. */
  lemma SweepFigures(db: Db, index: seq<Id>, tag: string, at: int, id: Id)
    requires id in db.wallets
    ensures
      var w, db' := db.wallets[id], Sweep(db, Eligible(db, index), tag, at);
      && id in db'.wallets
      && db'.wallets[id] ==
         if id in index && w.grant > 0 && !HasKey(db.txns, "refill:" + id + ":" + tag)
         then w.(balance := Max(w.balance, Max(w.grant, w.reserved)))
         else w
  {
    SweepTopsUp(db, Eligible(db, index), tag, at, id);
    EligibleIff(db, index, id);
    assert RefillKey(id, tag) == "refill:" + id + ":" + tag;
  }
}
